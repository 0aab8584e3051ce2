/** The session manager (internal/session/manager.go) over the session map. */
module SessionManager {
  import T = SessionTables
  import opened Tasks

  class Session {
    const token: string
    const task: TaskCtx
    var runnerName: string
    var labels: seq<string>
    var lastActivity: int

    constructor (token: string, task: TaskCtx, runnerName: string, labels: seq<string>, now: int)
      ensures this.token == token && this.task == task && lastActivity == now
      ensures this.runnerName == runnerName && this.labels == labels
    {
      this.token, this.task, this.runnerName, this.labels, lastActivity := token, task, runnerName, labels, now;
    }
  }

  ghost predicate Silent(s: Session, now: int, maxAge: int)
    reads s
  {
    now - s.lastActivity > maxAge
  }

  class Manager {
    var sessions: map<string, Session>

    /** Every session sits under its own token, so no two keys share one. */
    ghost predicate Valid()
      reads this
    {
      forall k :: k in sessions ==> sessions[k].token == k
    }

    ghost function Contents(): T.Sessions<TaskCtx>
      reads this, sessions.Values
    {
      map k | k in sessions :: T.Session(sessions[k].task, sessions[k].lastActivity)
    }

    constructor ()
      ensures Valid() && Contents() == map[]
    {
      sessions := map[];
    }

    method CreateWithToken(task: TaskCtx, token: string, runnerName: string, labels: seq<string>, now: int)
      returns (s: Session)
      requires Valid()
      modifies this, task`sessionToken
      ensures Valid() && Contents() == T.Insert(old(Contents()), token, task, now)
      ensures fresh(s) && token in sessions && sessions[token] == s && s.lastActivity == now
      ensures s.runnerName == runnerName && s.labels == labels
      ensures task.sessionToken == token
    {
      s := new Session(token, task, runnerName, labels, now);
      sessions := sessions[token := s];
      task.SetSessionToken(token);
    }

    method Lookup(token: string) returns (s: Session?)
      ensures s == if token in sessions then sessions[token] else null
    {
      return if token in sessions then sessions[token] else null;
    }

    /** Renews a live session in place; a missing one stays missing. */
    method Touch(token: string, now: int) returns (ok: bool)
      requires Valid()
      modifies (if token in sessions then {sessions[token]} else {})`lastActivity
      ensures Valid() && sessions == old(sessions)
      ensures ok <==> token in sessions
      ensures ok ==> sessions[token].lastActivity == now
      ensures Contents() == T.Touch(old(Contents()), token, now)
    {
      if token !in sessions { return false; }
      sessions[token].lastActivity := now;
      return true;
    }

    method Remove(token: string)
      requires Valid()
      modifies this
      ensures Valid() && Contents() == T.Remove(old(Contents()), token)
    {
      sessions := sessions - {token};
    }

    /** The loop of Expire. */
    method Reap(now: int, maxAge: int) returns (expired: seq<Session>)
      requires Valid()
      modifies this
      ensures forall k :: k in sessions ==> k in old(sessions) && sessions[k] == old(sessions)[k]
      ensures forall k :: k in old(sessions) ==> (k in sessions <==> !Silent(old(sessions)[k], now, maxAge))
      ensures forall k :: k in old(sessions) && k !in sessions ==> old(sessions)[k] in expired
      ensures forall i :: 0 <= i < |expired| ==>
                expired[i].token in old(sessions) && expired[i].token !in sessions
                    && expired[i] == old(sessions)[expired[i].token]
      ensures forall i, j :: 0 <= i < j < |expired| ==> expired[i] != expired[j]
    {
      expired := [];
      ghost var all := sessions;
      var todo := sessions.Keys;
      while todo != {}
        invariant todo <= sessions.Keys
        invariant forall k :: k in sessions ==> k in all && sessions[k] == all[k]
        invariant forall k :: k in all && k !in todo ==> (k in sessions <==> !Silent(all[k], now, maxAge))
        invariant forall k :: k in all && k !in sessions ==> all[k] in expired
        invariant forall i :: 0 <= i < |expired| ==>
          expired[i].token in all && expired[i].token !in sessions && expired[i] == all[expired[i].token]
        invariant forall i, j :: 0 <= i < j < |expired| ==> expired[i] != expired[j]
        decreases |todo|
      {
        var token :| token in todo;
        todo := todo - {token};
        if now - sessions[token].lastActivity > maxAge {
          expired := expired + [sessions[token]];
          sessions := sessions - {token};
        }
      }
    }

    /** Removes and returns exactly the sessions silent for longer than maxAge, each once. */
    method Expire(now: int, maxAge: int) returns (expired: seq<Session>)
      requires Valid()
      modifies this
      ensures Valid() && Contents() == T.Kept(old(Contents()), now, maxAge)
      ensures sessions == old(sessions) - T.Reaped(old(Contents()), now, maxAge).Keys
      ensures forall i :: 0 <= i < |expired| ==>
                expired[i].token in T.Reaped(old(Contents()), now, maxAge)
                    && expired[i] == old(sessions)[expired[i].token]
      ensures forall k :: k in T.Reaped(old(Contents()), now, maxAge) ==> old(sessions)[k] in expired
      ensures forall i, j :: 0 <= i < j < |expired| ==> expired[i] != expired[j]
    {
      expired := Reap(now, maxAge);
    }
  }
}
