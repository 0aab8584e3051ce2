/** One garbage-collection pass run alone over the real objects (internal/app/app.go). */
module Collector {
  import opened Wrappers
  import opened TaskTables
  import T = SessionTables
  import opened Tasks
  import M = MemStore
  import S = SessionManager

  /** Tasks do not share latches. */
  ghost predicate Separate(ts: set<TaskCtx>)
    reads ts
  {
    forall t, u :: t in ts && u in ts && t != u && t.done != null ==> t.done != u.done && t.done != u.registered
  }

  ghost predicate AllValid(ts: set<TaskCtx>)
    reads ts, set t | t in ts && t.done != null :: t.done, set t | t in ts && t.registered != null :: t.registered
  {
    forall t :: t in ts ==> t.Valid()
  }

  ghost function TasksOf(m: map<string, S.Session>): set<TaskCtx> {
    set k | k in m :: m[k].task
  }

  /** One report for each session whose task's instance resolves, in the order of the sessions:
      report `k` goes to the client of session `at[k]` and carries its task's id. */
  ghost predicate Reported(resolve: string -> Option<nat>, expired: seq<S.Session>, at: seq<nat>,
      reports: seq<(nat, int)>) {
    && |at| == |reports|
    && (forall k :: 0 <= k < |at| ==>
          at[k] < |expired| && resolve(expired[at[k]].task.instance) == Some(reports[k].0)
          && reports[k].1 == expired[at[k]].task.id)
    && (forall k, l :: 0 <= k < l < |at| ==> at[k] < at[l])
    && (forall i: nat :: i < |expired| && resolve(expired[i].task.instance).Some? ==> i in at)
  }

  /** One more session: with a report when its instance resolves, without one otherwise. */
  lemma ReportedNext(resolve: string -> Option<nat>, expired: seq<S.Session>, at: seq<nat>, reports: seq<(nat, int)>,
      s: S.Session)
    requires Reported(resolve, expired, at, reports)
    ensures resolve(s.task.instance).None? ==> Reported(resolve, expired + [s], at, reports)
    ensures resolve(s.task.instance).Some? ==>
              Reported(resolve, expired + [s], at + [|expired|],
                  reports + [(resolve(s.task.instance).value, s.task.id)])
  {
    forall i: nat | i < |expired + [s]| && resolve((expired + [s])[i].task.instance).Some?
      ensures i in at + [|expired|] && (resolve(s.task.instance).None? ==> i in at)
    {
      if i < |expired| {
        assert i in at;
      }
    }
  }

  ghost function IdsOf(expired: seq<S.Session>): set<int> {
    set s | s in expired :: s.task.id
  }

  /** One expired session: its task is reported to its owner if that resolves, forced done and
      removed from the store. */
  method BuryOne(store: M.Store, resolve: string -> Option<nat>, s: S.Session, ghost ts: set<TaskCtx>)
    returns (report: Option<(nat, int)>)
    requires s.task in ts && Separate(ts) && AllValid(ts)
    modifies store, s.task`done, s.task`markedDone, s.task.done
    ensures report == match resolve(s.task.instance) case None => None case Some(c) => Some((c, s.task.id))
    ensures Separate(ts) && AllValid(ts) && s.task.markedDone
    ensures s.task.done != null && (s.task.done == old(s.task.done) || fresh(s.task.done))
    ensures forall u :: u in ts && u != s.task ==> u.markedDone == old(u.markedDone) && u.done == old(u.done)
    ensures store.Contents() == old(store.Contents()).Remove(s.task.id)
  {
    var client := resolve(s.task.instance);
    report := if client.Some? then Some((client.value, s.task.id)) else None;
    s.task.MarkDone();
    store.Remove(s.task.id);
  }

  /** The store after removing the expired sessions' tasks, one by one. */
  ghost function Buried(was: Tables<TaskCtx>, expired: seq<S.Session>): Tables<TaskCtx> {
    if |expired| == 0 then was
    else Buried(was, expired[..|expired| - 1]).Remove(expired[|expired| - 1].task.id)
  }

  lemma {:induction false} BuriedAll(was: Tables<TaskCtx>, expired: seq<S.Session>)
    ensures Buried(was, expired) == was.RemoveAll(IdsOf(expired))
    decreases |expired|
  {
    if |expired| == 0 {
      M.RemoveNothing(was);
    } else {
      var rest, last := expired[..|expired| - 1], expired[|expired| - 1];
      BuriedAll(was, rest);
      assert expired == rest + [last];
      assert IdsOf(expired) == IdsOf(rest) + {last.task.id};
      M.RemoveTwice(was, IdsOf(rest), {last.task.id});
    }
  }

  /** One round of the loop over the expired sessions. */
  method BuryNext(store: M.Store, resolve: string -> Option<nat>, expired: seq<S.Session>, i: nat,
                  reports: seq<(nat, int)>, ghost at: seq<nat>, ghost ts: set<TaskCtx>)
    returns (reports': seq<(nat, int)>, ghost at': seq<nat>)
    requires i < |expired| && expired[i].task in ts && Separate(ts) && AllValid(ts)
    requires Reported(resolve, expired[..i], at, reports)
    modifies store, expired[i].task`done, expired[i].task`markedDone, expired[i].task.done
    ensures Reported(resolve, expired[..i + 1], at', reports')
    ensures Separate(ts) && AllValid(ts) && expired[i].task.markedDone
    ensures expired[i].task.done != null
            && (expired[i].task.done == old(expired[i].task.done) || fresh(expired[i].task.done))
    ensures forall u :: u in ts && u != expired[i].task ==> u.markedDone == old(u.markedDone) && u.done == old(u.done)
    ensures store.Contents() == old(store.Contents()).Remove(expired[i].task.id)
  {
    var report := BuryOne(store, resolve, expired[i], ts);
    ReportedNext(resolve, expired[..i], at, reports, expired[i]);
    assert expired[..i + 1] == expired[..i] + [expired[i]];
    if report.None? { return reports, at; }
    return reports + [report.value], at + [i];
  }

  /** Session expiry of gcOnce: each expired session's task is reported to its owner, forced
      done and removed from the store. */
  method Bury(store: M.Store, resolve: string -> Option<nat>, expired: seq<S.Session>,
              ghost ts: set<TaskCtx>, ghost latches: set<Chan>)
    returns (reports: seq<(nat, int)>, ghost at: seq<nat>)
    requires forall i :: 0 <= i < |expired| ==> expired[i].task in ts
    requires Separate(ts) && AllValid(ts) && forall t :: t in ts && t.done != null ==> t.done in latches
    modifies store, ts, latches
    ensures Reported(resolve, expired, at, reports)
    ensures AllValid(ts) && forall i :: 0 <= i < |expired| ==> expired[i].task.markedDone
    ensures store.Contents() == old(store.Contents()).RemoveAll(IdsOf(expired))
  {
    reports, at := [], [];
    var i := 0;
    while i < |expired|
      invariant i <= |expired| && Reported(resolve, expired[..i], at, reports)
      invariant Separate(ts) && AllValid(ts)
      invariant forall t :: t in ts && t.done != null ==> t.done in latches || fresh(t.done)
      invariant forall j :: 0 <= j < i ==> expired[j].task.markedDone
      invariant store.Contents() == Buried(old(store.Contents()), expired[..i])
    {
      assert expired[..i + 1][..i] == expired[..i];
      reports, at := BuryNext(store, resolve, expired, i, reports, at, ts);
      i := i + 1;
    }
    assert expired[..i] == expired;
    BuriedAll(old(store.Contents()), expired);
  }

  /** What an expiry pass at `now` takes, from the manager as it was. */
  ghost predicate Took(was: T.Sessions<TaskCtx>, before: map<string, S.Session>, now: int, maxAge: int,
                       expired: seq<S.Session>) {
    && (forall i :: 0 <= i < |expired| ==>
          var k := expired[i].token;
          k in T.Reaped(was, now, maxAge) && k in before && expired[i] == before[k])
    && (forall k :: k in T.Reaped(was, now, maxAge) ==> k in before && before[k] in expired)
  }

  /** The two passes that decide what goes: over the store, then over the sessions. */
  method Decide(store: M.Store, sessions: S.Manager, now: int, maxAge: int, ghost ts: set<TaskCtx>)
    returns (expired: seq<S.Session>)
    requires sessions.Valid() && ts == TasksOf(sessions.sessions)
    modifies store, sessions
    ensures sessions.Valid()
            && sessions.sessions == old(sessions.sessions) - T.Reaped(old(sessions.Contents()), now, maxAge).Keys
    ensures Took(old(sessions.Contents()), old(sessions.sessions), now, maxAge, expired)
    ensures forall i :: 0 <= i < |expired| ==> expired[i].task in ts
    ensures store.Contents() == old(store.Contents()).RemoveAll(old(store.OverdueIds(now)))
  {
    store.GC(now);
    expired := sessions.Expire(now, maxAge);
  }

  /** gcOnce: the store's own collection, then the expired sessions.  `ts` are the tasks of
      all sessions, `latches` their done channels so far. */
  method GcOnce(store: M.Store, sessions: S.Manager, resolve: string -> Option<nat>, now: int, maxAge: int,
                ghost ts: set<TaskCtx>, ghost latches: set<Chan>)
    returns (expired: seq<S.Session>, reports: seq<(nat, int)>, ghost at: seq<nat>)
    requires sessions.Valid() && ts == TasksOf(sessions.sessions)
    requires Separate(ts) && AllValid(ts) && forall t :: t in ts && t.done != null ==> t.done in latches
    modifies store, sessions, ts, latches
    ensures sessions.Valid()
            && sessions.sessions == old(sessions.sessions) - T.Reaped(old(sessions.Contents()), now, maxAge).Keys
    ensures Took(old(sessions.Contents()), old(sessions.sessions), now, maxAge, expired)
    ensures forall i :: 0 <= i < |expired| ==> expired[i].task.markedDone
    ensures Reported(resolve, expired, at, reports)
    ensures store.Contents() == old(store.Contents()).RemoveAll(old(store.OverdueIds(now)) + IdsOf(expired))
  {
    expired := Decide(store, sessions, now, maxAge, ts);
    reports, at := Bury(store, resolve, expired, ts, latches);
    M.RemoveTwice(old(store.Contents()), old(store.OverdueIds(now)), IdsOf(expired));
  }
}
