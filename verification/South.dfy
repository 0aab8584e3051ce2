/** The southbound handlers run alone over the real objects (internal/south/handler.go).
    Lifecycle has the same steps interleaved with every other thread. */
module South {
  import opened Wrappers
  import L = Lifecycle
  import T = SessionTables
  import opened Tasks
  import M = MemStore
  import S = SessionManager
  import G = Registry

  datatype Refusal = Unauthenticated | InvalidArgument | Internal | Northbound

  class Handler {
    const store: M.Store
    const sessions: S.Manager
    const registry: G.TokenRegistry

    ghost predicate Valid()
      reads this, sessions
    {
      sessions.Valid()
    }

    constructor (store: M.Store, sessions: S.Manager, registry: G.TokenRegistry)
      requires sessions.Valid()
      ensures Valid() && this.store == store && this.sessions == sessions && this.registry == registry
    {
      this.store, this.sessions, this.registry := store, sessions, registry;
    }

    /** The task a registration token opens at this moment. */
    ghost function Opens(token: string, now: int): Option<TaskCtx>
      reads this, store
    {
      var found := store.Contents().Find(token);
      if found.Some? && now - found.value.createdAt <= found.value.regTokenTtl then found else None
    }

    /** A registration has taken place: the token is spent, the session exists, and the task
        knows its session, is Running and has its registered latch closed. */
    twostate predicate Registered(token: string, key: string, t: TaskCtx, now: int)
      requires old(Valid())
      reads this, store, sessions, sessions.sessions.Values, t, t.registered
    {
      && Valid()
      && store.Contents() == old(store.Contents()).Consume(token)
      && sessions.Contents() == T.Insert(old(sessions.Contents()), key, t, now)
      && t.sessionToken == key && t.status == L.Running
      && t.registered != null && t.registered.closed
    }

    /** The part Register and one-job registration share, once no session has been found: the
        task the token opens, which it then no longer does. */
    method Claim(token: string, now: int) returns (t: TaskCtx?)
      modifies store
      ensures t == match old(Opens(token, now)) case None => null case Some(u) => u
      ensures t != null <==>
              exists u :: old(store.Contents()).Find(token) == Some(u) && now <= u.createdAt + u.regTokenTtl
      ensures store.Contents() == if t == null then old(store.Contents()) else old(store.Contents()).Consume(token)
    {
      var found := store.GetByRegToken(token);
      if found.None? { return null; }
      if now - found.value.createdAt > found.value.regTokenTtl { return null; }
      var won := store.MarkRegTokenConsumed(token);
      return if won then found.value else null;
    }

    /** The session and the marks on the task. */
    method Admit(t: TaskCtx, key: string, name: string, labels: seq<string>, now: int) returns (s: S.Session)
      requires Valid() && t.Valid()
      modifies sessions, t, t.registered
      ensures Valid() && t.Valid() && fresh(s)
      ensures key in sessions.sessions && sessions.sessions[key] == s && s.token == key && s.lastActivity == now
      ensures s.runnerName == name && s.labels == labels
      ensures sessions.Contents() == T.Insert(old(sessions.Contents()), key, t, now)
      ensures t.sessionToken == key && t.status == L.Running
      ensures t.registered != null && t.registered.closed && t.markedRegistered && t.markedDone == old(t.markedDone)
      ensures if old(t.registered) == null then fresh(t.registered) else t.registered == old(t.registered)
    {
      s := sessions.CreateWithToken(t, key, name, labels, now);
      t.MarkRunnerRegistered();
    }

    /** Register: accepted exactly for a stored, unspent token whose deadline has not passed;
        a refusal changes nothing. */
    method Register(token: string, key: string, name: string, labels: seq<string>, now: int)
      returns (r: Result<S.Session, Refusal>)
      requires Valid()
      requires Opens(token, now).Some? ==> Opens(token, now).value.Valid()
      modifies store, sessions
      modifies if Opens(token, now).Some? then {Opens(token, now).value} else {}
      modifies if Opens(token, now).Some? then {Opens(token, now).value.registered} else {}
      ensures Valid()
      ensures r.Success? <==> old(Opens(token, now)).Some?
      ensures r.Success? ==> Registered(token, key, old(Opens(token, now)).value, now)
      ensures r.Success? ==> key in sessions.sessions && sessions.sessions[key] == r.value && fresh(r.value)
      ensures r.Success? ==> r.value.token == key && r.value.lastActivity == now
      ensures r.Success? ==> r.value.runnerName == name && r.value.labels == labels
      ensures r.Failure? ==>
              store.Contents() == old(store.Contents()) && sessions.Contents() == old(sessions.Contents())
    {
      var t := Claim(token, now);
      if t == null { return Failure(Unauthenticated); }
      var s := Admit(t, key, name, labels, now);
      return Success(s);
    }

    /** The renewal that follows a one-job registration at the same instant. */
    method Refresh(s: S.Session, now: int)
      requires Valid() && s.token in sessions.sessions && sessions.sessions[s.token] == s && s.lastActivity == now
      modifies s`lastActivity
      ensures Valid() && unchanged(s)
    {
      var _ := sessions.Touch(s.token, now);
    }

    /** authenticate: a live session is renewed; otherwise the key may be an unspent
        registration token, which then becomes the session key; otherwise refusal, and
        nothing changes. */
    method Authenticate(presented: Option<string>, now: int) returns (r: Result<S.Session, Refusal>)
      requires Valid()
      requires presented.Some? && Opens(presented.value, now).Some? ==> Opens(presented.value, now).value.Valid()
      modifies store, sessions
      modifies (if presented.Some? && presented.value in sessions.sessions
                then {sessions.sessions[presented.value]} else {})`lastActivity
      modifies if presented.Some? && Opens(presented.value, now).Some? then {Opens(presented.value, now).value} else {}
      modifies if presented.Some? && Opens(presented.value, now).Some?
               then {Opens(presented.value, now).value.registered} else {}
      ensures Valid()
      ensures r.Success? <==>
                presented.Some? && (presented.value in old(sessions.sessions) || old(Opens(presented.value, now)).Some?)
      ensures r.Success? ==> presented.value in sessions.sessions && sessions.sessions[presented.value] == r.value
      ensures r.Success? && presented.value in old(sessions.sessions) ==>
                && store.Contents() == old(store.Contents()) && r.value == old(sessions.sessions)[presented.value]
                && sessions.Contents() == T.Touch(old(sessions.Contents()), presented.value, now)
      ensures r.Success? && presented.value !in old(sessions.sessions) ==>
                && Registered(presented.value, presented.value, old(Opens(presented.value, now)).value, now)
                && r.value.runnerName == "" && r.value.labels == []
      ensures r.Failure? ==>
              store.Contents() == old(store.Contents()) && sessions.Contents() == old(sessions.Contents())
    {
      if presented.None? { return Failure(Unauthenticated); }
      var token := presented.value;
      var s := sessions.Lookup(token);
      if s != null {
        var ok := sessions.Touch(token, now);
        if !ok { return Failure(Unauthenticated); }
        return Success(s);
      }
      r := Register(token, token, "", [], now);
      if r.Success? {
        Refresh(r.value, now);
      }
    }

    method Forget(s: S.Session)
      requires Valid()
      modifies store, sessions
      ensures Valid()
      ensures sessions.Contents() == T.Remove(old(sessions.Contents()), s.token)
      ensures store.Contents() == old(store.Contents()).Remove(s.task.id)
    {
      sessions.Remove(s.token);
      store.Remove(s.task.id);
    }

    /** The clean-up of a terminal task. */
    method Finish(s: S.Session)
      requires Valid() && s.task.Valid()
      modifies store, sessions, s.task, s.task.done
      ensures Valid() && s.task.Valid()
      ensures s.task.status == L.Terminal && s.task.markedDone
      ensures sessions.Contents() == T.Remove(old(sessions.Contents()), s.token)
      ensures store.Contents() == old(store.Contents()).Remove(s.task.id)
    {
      s.task.SetStatus(L.Terminal);
      s.task.MarkDone();
      Forget(s);
    }

    /** UpdateTask behind authentication: the id must be the session's own; the report goes to
        the owning instance's client; an accepted terminal one cleans everything up, any other
        outcome leaves store and sessions alone. */
    method UpdateTask(s: S.Session, id: int, terminal: bool, client: Option<nat>, forwardOk: bool)
      returns (r: Result<nat, Refusal>, sent: seq<(nat, int)>)
      requires Valid() && s.task.Valid()
      modifies store, sessions, s.task, s.task.done
      ensures Valid() && s.task.Valid()
      ensures sent == if id == s.task.id && client.Some? then [(client.value, s.task.id)] else []
      ensures r.Success? <==> id == s.task.id && client.Some? && forwardOk
      ensures r.Failure? && r.error.InvalidArgument? <==> id != s.task.id
      ensures r.Success? && terminal ==>
                && s.task.status == L.Terminal && s.task.markedDone
                && sessions.Contents() == T.Remove(old(sessions.Contents()), s.token)
                && store.Contents() == old(store.Contents()).Remove(s.task.id)
      ensures r.Failure? || !terminal ==>
                && store.Contents() == old(store.Contents()) && sessions.Contents() == old(sessions.Contents())
                && s.task.status == old(s.task.status) && s.task.markedDone == old(s.task.markedDone)
    {
      sent := [];
      if id != s.task.id { return Failure(InvalidArgument), sent; }
      if client.None? { return Failure(Internal), sent; }
      sent := [(client.value, id)];
      if !forwardOk { return Failure(Northbound), sent; }
      if terminal {
        Finish(s);
      }
      return Success(client.value), sent;
    }

    /** FetchTask behind authentication: the proxy learns the task's tokens. */
    method FetchTask(s: S.Session, tokens: Option<G.TaskTokens>, now: int)
      modifies registry
      ensures registry.entries ==
                G.PutAll(old(registry.entries), if tokens.Some? then G.Distinct(G.Candidates(tokens.value)) else [],
                         G.Entry(s.task.instance, s.task, s.token, now + G.ENTRY_TTL))
      ensures tokens.Some? ==> forall tok :: tok in G.Candidates(tokens.value) && tok != "" ==>
                tok in registry.entries
                && registry.entries[tok] == G.Entry(s.task.instance, s.task, s.token, now + 86400)
    {
      registry.PutTaskTokens(s.task, tokens, s.token, now);
    }
  }
}
