/** TaskCtx and its two lazily created latches (internal/store/store.go). */
module Tasks {
  import opened Lifecycle

  /** A channel that is only ever closed; closing it twice would panic. */
  class Chan {
    var closed: bool

    constructor ()
      ensures !closed
    {
      closed := false;
    }

    method Close()
      requires !closed
      modifies this
      ensures closed
    {
      closed := true;
    }
  }

  /** closeSignal: closes the channel unless it already is. */
  method CloseSignal(ch: Chan)
    modifies ch
    ensures ch.closed
  {
    if !ch.closed {
      ch.Close();
    }
  }

  class TaskCtx {
    const id: int
    const instance: string
    const regToken: string
    const regTokenTtl: int
    const createdAt: int
    var status: Status
    var sessionToken: string
    var done: Chan?
    var registered: Chan?

    /** Whether MarkDone and MarkRunnerRegistered have happened. */
    ghost var markedDone: bool
    ghost var markedRegistered: bool

    ghost predicate Valid()
      reads this, done, registered
    {
      && (if done == null then !markedDone else done.closed == markedDone)
      && (if registered == null then !markedRegistered else registered.closed == markedRegistered)
      && (done != null ==> done != registered)
    }

    constructor (id: int, instance: string, regToken: string, ttl: int, createdAt: int)
      ensures Valid() && !markedDone && !markedRegistered && done == null && registered == null
      ensures status == Pending && sessionToken == ""
      ensures this.id == id && this.instance == instance && this.regToken == regToken
      ensures regTokenTtl == ttl && this.createdAt == createdAt
    {
      this.id, this.instance, this.regToken, regTokenTtl, this.createdAt := id, instance, regToken, ttl, createdAt;
      status, sessionToken, done, registered := Pending, "", null, null;
      markedDone, markedRegistered := false, false;
    }

    method SetStatus(s: Status)
      modifies this`status
      ensures status == s
    {
      status := s;
    }

    method SetSessionToken(token: string)
      modifies this`sessionToken
      ensures sessionToken == token
    {
      sessionToken := token;
    }

    /** Unconditional: it may overwrite Running or Terminal. */
    method MarkDispatched()
      modifies this`status
      ensures status == Dispatched
    {
      status := Dispatched;
    }

    /** Done and ensureDone: the same channel every time. */
    method Done() returns (ch: Chan)
      requires Valid()
      modifies this`done
      ensures Valid() && ch == done
      ensures if old(done) == null then fresh(ch) && !ch.closed else ch == old(done)
    {
      if done == null {
        done := new Chan();
      }
      return done;
    }

    method MarkDone()
      requires Valid()
      modifies this`done, this`markedDone, done
      ensures Valid() && markedDone && done != null
      ensures if old(done) == null then fresh(done) else done == old(done)
    {
      var ch := Done();
      CloseSignal(ch);
      markedDone := true;
    }

    /** Registered and ensureRegistered. */
    method Registered() returns (ch: Chan)
      requires Valid()
      modifies this`registered
      ensures Valid() && ch == registered
      ensures if old(registered) == null then fresh(ch) && !ch.closed else ch == old(registered)
    {
      if registered == null {
        registered := new Chan();
      }
      return registered;
    }

    method MarkRunnerRegistered()
      requires Valid()
      modifies this`status, this`registered, this`markedRegistered, registered
      ensures Valid() && status == Running && markedRegistered && registered != null
      ensures if old(registered) == null then fresh(registered) else registered == old(registered)
    {
      status := Running;
      var ch := Registered();
      CloseSignal(ch);
      markedRegistered := true;
    }
  }

  datatype Call = GetDone | GetRegistered | DoMarkDone | DoMarkRegistered | DoDispatch | DoTerminal

  /** The status is whatever the last writer wrote; nothing orders the writers. */
  function StatusAfter(calls: seq<Call>): Status {
    if |calls| == 0 then Pending
    else match calls[|calls| - 1]
      case DoMarkRegistered => Running
      case DoDispatch => Dispatched
      case DoTerminal => Terminal
      case _ => StatusAfter(calls[..|calls| - 1])
  }

  /** Any sequence of calls on a new task: every channel handed out for a signal is one and
      the same object, it is closed exactly when the matching mark has happened, and no close
      is repeated (Close is never called on a closed channel). */
  method AnyCalls(t: TaskCtx, calls: seq<Call>) returns (handed: seq<Chan?>)
    requires t.Valid() && t.done == null && t.registered == null && t.status == Pending
    modifies t
    ensures t.Valid() && |handed| == |calls|
    ensures forall i :: 0 <= i < |calls| ==>
              handed[i] == (match calls[i]
                            case GetDone => t.done
                            case GetRegistered => t.registered
                            case _ => null)
    ensures forall i :: 0 <= i < |calls| && (calls[i].GetDone? || calls[i].GetRegistered?) ==> handed[i] != null
    ensures t.done != null ==> (t.done.closed <==> DoMarkDone in calls)
    ensures t.registered != null ==> (t.registered.closed <==> DoMarkRegistered in calls)
    ensures t.done != null ==> t.done != t.registered
    ensures t.status == StatusAfter(calls)
  {
    handed := [];
    var i := 0;
    while i < |calls|
      invariant i == |handed| <= |calls| && t.Valid()
      invariant t.done != null ==> fresh(t.done)
      invariant t.registered != null ==> fresh(t.registered)
      invariant t.markedDone <==> DoMarkDone in calls[..i]
      invariant t.markedRegistered <==> DoMarkRegistered in calls[..i]
      invariant t.status == StatusAfter(calls[..i])
      invariant forall j :: 0 <= j < i ==>
        handed[j] == (match calls[j]
                      case GetDone => t.done
                      case GetRegistered => t.registered
                      case _ => null)
      invariant forall j :: 0 <= j < i && (calls[j].GetDone? || calls[j].GetRegistered?) ==> handed[j] != null
    {
      assert calls[..i + 1] == calls[..i] + [calls[i]];
      var ch: Chan? := null;
      match calls[i] {
        case GetDone => ch := t.Done();
        case GetRegistered => ch := t.Registered();
        case DoMarkDone => t.MarkDone();
        case DoMarkRegistered => t.MarkRunnerRegistered();
        case DoDispatch => t.MarkDispatched();
        case DoTerminal => t.SetStatus(Terminal);
      }
      handed := handed + [ch];
      i := i + 1;
    }
    assert calls[..i] == calls;
  }
}
