/** HandleTask run alone over the real objects (internal/run/runner.go).  Lifecycle has the
    same control flow interleaved with every other thread. */
module Runner {
  import opened Wrappers
  import L = Lifecycle
  import T = SessionTables
  import opened Tasks
  import opened Slots
  import M = MemStore
  import S = SessionManager

  /** The return statement HandleTask left by; StillWaiting is a select with no ready case. */
  datatype Exit =
    | Unroutable
    | TriggerFailed
    | DoneEarly
    | TimedOut
    | ShutDownUnregistered
    | ShutDownRegistered
    | Completed
    | ShutDownRunning
    | StillWaiting

  /** The exits after which nobody else is left to clean up. */
  predicate Cleans(e: Exit) {
    e.Unroutable? || e.TriggerFailed? || e.TimedOut? || e.ShutDownUnregistered?
  }

  predicate ReportsFailure(e: Exit) {
    e.TriggerFailed? || e.TimedOut?
  }

  /** What must have been seen for each way out of the two waits. */
  predicate WaitedFor(e: Exit, done: bool, registered: bool, ctxDone: bool) {
    && (e.DoneEarly? || e.Completed? ==> done)
    && (e.ShutDownRegistered? || e.Completed? || e.ShutDownRunning? || e.StillWaiting? ==> registered)
    && (e.ShutDownUnregistered? ==> !registered)
    && (e.ShutDownUnregistered? || e.ShutDownRegistered? || e.ShutDownRunning? ==> ctxDone)
    && (e.StillWaiting? ==> !done && !ctxDone)
  }

  class Runner {
    const pool: Pool
    const store: M.Store
    const sessions: S.Manager

    ghost predicate Valid()
      reads this, pool, sessions
    {
      pool.Valid() && sessions.Valid()
    }

    constructor (pool: Pool, store: M.Store, sessions: S.Manager)
      requires pool.Valid() && sessions.Valid()
      ensures Valid() && this.pool == pool && this.store == store && this.sessions == sessions
    {
      this.pool, this.store, this.sessions := pool, store, sessions;
    }

    /** What every cleaning exit leaves behind, whatever the order of its steps. */
    twostate predicate CleanedUp(t: TaskCtx)
      requires old(Valid())
      reads this, pool, store, sessions, sessions.sessions.Values, t
    {
      && Valid()
      && pool.held == L.Released(old(pool.held))
      && store.Contents() == old(store.Contents()).Remove(t.id)
      && sessions.Contents() == T.Remove(old(sessions.Contents()), old(t.sessionToken))
    }

    /** Store and sessions are as they were. */
    twostate predicate LeftAlone()
      reads this, store, sessions, sessions.sessions.Values
    {
      store.Contents() == old(store.Contents()) && sessions.Contents() == old(sessions.Contents())
    }

    /** Unknown instance: there is no client to report to. */
    method Drop(t: TaskCtx)
      requires Valid()
      modifies pool, store, sessions
      ensures CleanedUp(t)
    {
      store.Remove(t.id);
      sessions.Remove(t.sessionToken);
      pool.Release();
    }

    /** Failed dispatch or startup timeout. */
    method Fail(t: TaskCtx, client: nat) returns (reports: seq<(nat, int)>)
      requires Valid()
      modifies pool, store, sessions
      ensures CleanedUp(t) && reports == [(client, t.id)]
    {
      reports := [(client, t.id)];
      sessions.Remove(t.sessionToken);
      pool.Release();
      store.Remove(t.id);
    }

    /** Shutdown before the runner registered. */
    method Abort(t: TaskCtx)
      requires Valid()
      modifies pool, store, sessions
      ensures CleanedUp(t)
    {
      sessions.Remove(t.sessionToken);
      store.Remove(t.id);
      pool.Release();
    }

    /** An exit that leaves the task to whoever finished it or still runs it. */
    method LeaveTask()
      requires Valid()
      modifies pool
      ensures Valid() && pool.held == L.Released(old(pool.held)) && LeftAlone()
    {
      pool.Release();
    }

    /** Shutdown during phase 1, with the second look at the registered latch. */
    method ShutDownEarly(t: TaskCtx, registered: bool) returns (exit: Exit)
      requires Valid()
      modifies pool, store, sessions
      ensures Valid()
      ensures exit == if registered then ShutDownRegistered else ShutDownUnregistered
      ensures !registered ==> CleanedUp(t)
      ensures registered ==> pool.held == L.Released(old(pool.held)) && LeftAlone()
    {
      if registered {
        LeaveTask();
        return ShutDownRegistered;
      }
      Abort(t);
      return ShutDownUnregistered;
    }

    /** Phase 1: None once the runner has registered. */
    method AwaitRegistration(t: TaskCtx, client: nat, ctxDone: bool)
        returns (exit: Option<Exit>, reports: seq<(nat, int)>)
      requires Valid() && t.Valid()
      modifies pool, store, sessions, t`done, t`registered
      ensures Valid() && t.Valid()
      ensures exit.None? ==> t.markedRegistered && reports == [] && pool.held == old(pool.held) && LeftAlone()
      ensures exit == Some(DoneEarly) || exit == Some(ShutDownRegistered) ==>
                reports == [] && pool.held == L.Released(old(pool.held)) && LeftAlone()
      ensures exit.Some? ==>
                exit.value.DoneEarly? || exit.value.TimedOut? || exit.value.ShutDownRegistered?
                || exit.value.ShutDownUnregistered?
      ensures exit == Some(DoneEarly) ==> t.markedDone
      ensures exit == Some(ShutDownRegistered) ==> t.markedRegistered && ctxDone
      ensures exit == Some(ShutDownUnregistered) ==> !t.markedRegistered && ctxDone && reports == [] && CleanedUp(t)
      ensures exit == Some(TimedOut) ==> reports == [(client, t.id)] && CleanedUp(t)
    {
      reports := [];
      var done := t.Done();
      var registered := t.Registered();
      if {
        case done.closed =>
          LeaveTask();
          exit := Some(DoneEarly);
        case registered.closed =>
          exit := None;
        case true =>
          reports := Fail(t, client);
          exit := Some(TimedOut);
        case ctxDone =>
          var early := ShutDownEarly(t, registered.closed);
          exit := Some(early);
      }
    }

    /** Phase 2: the startup timeout no longer applies. */
    method AwaitDone(t: TaskCtx, ctxDone: bool) returns (exit: Exit)
      requires Valid() && t.Valid()
      modifies pool, t`done
      ensures Valid() && t.Valid()
      ensures exit.Completed? || exit.ShutDownRunning? || exit.StillWaiting?
      ensures exit.Completed? ==> t.markedDone
      ensures exit.ShutDownRunning? ==> ctxDone
      ensures exit.StillWaiting? <==> !t.markedDone && !ctxDone
      ensures pool.held == if exit.StillWaiting? then old(pool.held) else L.Released(old(pool.held))
      ensures LeftAlone()
    {
      var done := t.Done();
      if !done.closed && !ctxDone { return StillWaiting; }
      if {
        case done.closed => exit := Completed;
        case ctxDone => exit := ShutDownRunning;
      }
      LeaveTask();
    }

    /** The two waits after a successful dispatch. */
    method AwaitRunner(t: TaskCtx, client: nat, ctxDone: bool) returns (exit: Exit, reports: seq<(nat, int)>)
      requires Valid() && t.Valid()
      modifies pool, store, sessions, t`done, t`registered
      ensures Valid() && t.Valid() && !exit.Unroutable? && !exit.TriggerFailed?
      ensures pool.held == if exit.StillWaiting? then old(pool.held) else L.Released(old(pool.held))
      ensures if Cleans(exit) then CleanedUp(t) else LeftAlone()
      ensures reports == if exit.TimedOut? then [(client, t.id)] else []
      ensures WaitedFor(exit, t.markedDone, t.markedRegistered, ctxDone)
    {
      var early;
      early, reports := AwaitRegistration(t, client, ctxDone);
      if early.Some? { return early.value, reports; }
      exit := AwaitDone(t, ctxDone);
    }

    /** Every exit gives the slot back exactly once; the exits that can still own the task
        remove its session and its store entry, the others leave both alone; and a failure is
        reported exactly on a failed dispatch and on the startup timeout. */
    method HandleTask(t: TaskCtx, client: Option<nat>, triggerOk: bool, ctxDone: bool)
      returns (exit: Exit, reports: seq<(nat, int)>)
      requires Valid() && t.Valid()
      modifies pool, store, sessions, t
      ensures Valid() && t.Valid()
      ensures pool.held == if exit.StillWaiting? then old(pool.held) else L.Released(old(pool.held))
      ensures Cleans(exit) ==> CleanedUp(t)
      ensures !Cleans(exit) ==> LeftAlone()
      ensures reports == if ReportsFailure(exit) && client.Some? then [(client.value, t.id)] else []
      ensures exit.Unroutable? <==> client.None?
      ensures exit.TriggerFailed? <==> client.Some? && !triggerOk
      ensures t.status == if exit.Unroutable? || exit.TriggerFailed? then old(t.status) else L.Dispatched
      ensures WaitedFor(exit, t.markedDone, t.markedRegistered, ctxDone)
    {
      if client.None? {
        Drop(t);
        return Unroutable, [];
      }
      if !triggerOk {
        reports := Fail(t, client.value);
        return TriggerFailed, reports;
      }
      t.MarkDispatched();
      exit, reports := AwaitRunner(t, client.value, ctxDone);
    }
  }
}
