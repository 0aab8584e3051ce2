/** Garbage collection of the task store against registrations
    (internal/store/memstore.go, internal/south/handler.go).

    A registration is four steps - lookup, deadline check, consumption, MarkRunnerRegistered -
    and a collection is a scan, one inspection per task and a deletion, with anything in
    between.  Registration tokens are never repeated; ids may come back. */
module StoreGc {
  import opened Wrappers
  import opened TaskTables
  import L = Lifecycle

  type Ref = nat

  type Thread = nat

  /** A registration under way, by the step it has done last. */
  datatype Call =
    | Found(token: string, task: Ref)
    | Unexpired(token: string, task: Ref)
    | Consumed(task: Ref)

  datatype Gc =
    | Idle
    | Inspecting(at: int, scanned: map<int, Ref>, doomed: map<int, Ref>)

  datatype Win = Win(thread: Thread, token: string, task: Ref)

  /** History: `started` holds every thread that has looked a token up,
      `tokens` holds every registration token ever stored, `accepted` every
      registration that consumed one, and `lost` the index entries that deletions have taken
      and no Remove of their id has been asked for since. */
  datatype State = State(
    now: int,
    heap: seq<L.Task>,
    store: Tables<Ref>,
    calls: map<Thread, Call>,
    started: set<Thread>,
    gc: Gc,
    tokens: set<string>,
    accepted: seq<Win>,
    lost: map<string, int>)

  datatype Action =
    | Store(t: L.Task)
    | Find(k: Thread, token: string)
    | Check(k: Thread)
    | Take(k: Thread)
    | Mark(k: Thread)
    | Write(r: Ref, status: L.Status)
    | Unstore(id: int)
    | Elapse(d: nat)
    | Scan(at: int)
    | Inspect(id: int)
    | Delete

  function Init(now: int): State {
    State(now, [], Empty(), map[], {}, Idle, {}, [], map[])
  }

  /** The task's registration deadline has passed. */
  predicate Overdue(heap: seq<L.Task>, now: int, r: Ref) {
    r < |heap| && L.RegTokenExpired(heap[r], now)
  }

  predicate Lapsed(s: State, r: Ref) {
    Overdue(s.heap, s.now, r)
  }

  // ---- registrations; a call that is over takes no step ----

  /** A thread looks a token up at most once. */
  function Finding(s: State, k: Thread, token: string): State {
    if k in s.started then s else
    match s.store.Find(token)
    case None => s.(started := s.started + {k})
    case Some(r) => s.(calls := s.calls[k := Found(token, r)], started := s.started + {k})
  }

  function Checking(s: State, k: Thread): State {
    if k !in s.calls || !s.calls[k].Found? then s
    else if Lapsed(s, s.calls[k].task) then s.(calls := s.calls - {k})
    else s.(calls := s.calls[k := Unexpired(s.calls[k].token, s.calls[k].task)])
  }

  function Taking(s: State, k: Thread): State {
    if k !in s.calls || !s.calls[k].Unexpired? then s else
    var c := s.calls[k];
    if c.token !in s.store.byReg then s.(calls := s.calls - {k})
    else s.(store := s.store.Consume(c.token),
            calls := s.calls[k := Consumed(c.task)],
            accepted := s.accepted + [Win(k, c.token, c.task)])
  }

  function Marking(s: State, k: Thread): State {
    if k !in s.calls || !s.calls[k].Consumed? || s.calls[k].task >= |s.heap| then s else
    var r := s.calls[k].task;
    s.(heap := s.heap[r := s.heap[r].(status := L.Running, registered := true)], calls := s.calls - {k})
  }

  // ---- collections ----

  function Inspected(s: State, id: int): Option<State> {
    if !s.gc.Inspecting? || id !in s.gc.scanned || s.gc.scanned[id] >= |s.heap| then None else
    var r := s.gc.scanned[id];
    var judged := s.heap[r].status.Pending? && L.RegTokenExpired(s.heap[r], s.gc.at);
    Some(s.(gc := Inspecting(s.gc.at, s.gc.scanned - {id}, if judged then s.gc.doomed[id := r] else s.gc.doomed)))
  }

  /** The index entries a deletion takes. */
  function Swept(s: State): map<string, int> {
    if s.gc.Idle? then map[] else
    map token | token in s.store.byReg && s.store.byReg[token] in s.gc.doomed :: s.store.byReg[token]
  }

  function Deleted(s: State): Option<State> {
    if !s.gc.Inspecting? || s.gc.scanned != map[] then None
    else Some(s.(store := s.store.RemoveAll(s.gc.doomed.Keys), gc := Idle, lost := s.lost + Swept(s)))
  }

  function Step(s: State, a: Action): Option<State> {
    match a
    case Store(t) =>
      if t.regToken in s.tokens || !t.status.Pending? || t.registered then None
      else Some(s.(heap := s.heap + [t],
                   store := s.store.Put(t.id, t.regToken, |s.heap|),
                   tokens := s.tokens + {t.regToken}))
    case Find(k, token) => Some(Finding(s, k, token))
    case Check(k) => Some(Checking(s, k))
    case Take(k) => Some(Taking(s, k))
    case Mark(k) => Some(Marking(s, k))
    case Write(r, status) =>
      if r < |s.heap| && !status.Pending? then Some(s.(heap := s.heap[r := s.heap[r].(status := status)])) else None
    case Unstore(id) =>
      Some(s.(store := s.store.Remove(id), lost := map token | token in s.lost && s.lost[token] != id :: s.lost[token]))
    case Elapse(d) => Some(s.(now := s.now + d))
    case Scan(at) =>
      if s.gc.Idle? && at <= s.now then Some(s.(gc := Inspecting(at, s.store.tasks, map[]))) else None
    case Inspect(id) => Inspected(s, id)
    case Delete => Deleted(s)
  }

  predicate IsGc(a: Action) {
    a.Scan? || a.Inspect? || a.Delete?
  }

  predicate IsCall(a: Action) {
    a.Find? || a.Check? || a.Take? || a.Mark?
  }

  function Exec(s: State, acts: seq<Action>): Option<State> {
    if |acts| == 0 then Some(s) else
    match Exec(s, acts[..|acts| - 1])
    case None => None
    case Some(s') => Step(s', acts[|acts| - 1])
  }

  /** The same run without its collections. */
  function Strip(acts: seq<Action>): seq<Action> {
    if |acts| == 0 then []
    else if IsGc(acts[|acts| - 1]) then Strip(acts[..|acts| - 1])
    else Strip(acts[..|acts| - 1]) + [acts[|acts| - 1]]
  }

  // ---- what every run keeps ----

  predicate Stored(s: State) {
    && s.store.Linked()
    && (forall id :: id in s.store.tasks ==> s.store.tasks[id] < |s.heap|)
    && (forall token :: token in s.store.byReg ==> token in s.tokens)
    && (forall token :: token in s.lost ==> token in s.tokens && token !in s.store.byReg)
    && (forall k :: k in s.calls ==> k in s.started && s.calls[k].task < |s.heap|)
  }

  /** Whatever the collector has judged is past its deadline. */
  predicate DoomedInv(s: State) {
    s.gc.Inspecting? ==>
      && s.gc.at <= s.now
      && (forall id :: id in s.gc.scanned ==> s.gc.scanned[id] < |s.heap|)
      && (forall id :: id in s.gc.doomed ==> Lapsed(s, s.gc.doomed[id]))
  }

  lemma CallStored(s: State, a: Action, s': State)
    requires Stored(s) && Step(s, a) == Some(s') && IsCall(a)
    ensures Stored(s')
  {
  }

  lemma StepStored(s: State, a: Action, s': State)
    requires Stored(s) && Step(s, a) == Some(s')
    ensures Stored(s')
  {
    if IsCall(a) {
      CallStored(s, a, s');
    }
  }

  lemma StepDoomed(s: State, a: Action, s': State)
    requires Stored(s) && DoomedInv(s) && Step(s, a) == Some(s')
    ensures DoomedInv(s')
  {
  }

  lemma {:induction false} Reachable(now: int, acts: seq<Action>, s: State)
    requires Exec(Init(now), acts) == Some(s)
    ensures Stored(s) && DoomedInv(s)
    decreases |acts|
  {
    if |acts| > 0 {
      var prev := Exec(Init(now), acts[..|acts| - 1]).value;
      Reachable(now, acts[..|acts| - 1], prev);
      StepStored(prev, acts[|acts| - 1], s);
      StepDoomed(prev, acts[|acts| - 1], s);
    }
  }

  // ---- when a deletion is harmless ----

  /** A registration that starts now with this token gets past the deadline check. */
  predicate Admits(s: State, token: string) {
    s.store.Find(token).Some? && !Lapsed(s, s.store.Find(token).value)
  }

  /** Call `k` is past the lookup with `token` and can still consume it. */
  predicate Holds(s: State, k: Thread, token: string) {
    && k in s.calls && !s.calls[k].Consumed? && s.calls[k].token == token
    && (s.calls[k].Found? ==> !Lapsed(s, s.calls[k].task))
  }

  /** It will. */
  predicate Wins(s: State, k: Thread, token: string) {
    Holds(s, k, token) && token in s.store.byReg
  }

  /** No registration under way holds a token of a doomed id, and a doomed id has not been
      stored again, since the scan, for a task whose deadline has not passed. */
  predicate DeleteSafe(s: State) {
    s.gc.Inspecting? ==>
      forall token :: token in s.store.byReg && s.store.byReg[token] in s.gc.doomed ==>
        var id := s.store.byReg[token];
        && (forall k :: k in s.calls ==> !Holds(s, k, token))
        && (id in s.store.tasks && s.store.tasks[id] != s.gc.doomed[id] ==> Lapsed(s, s.store.tasks[id]))
  }

  /** A registration with this token fares in the one state as in the other. */
  ghost predicate SameDecision(s: State, s': State, token: string) {
    && (Admits(s', token) <==> Admits(s, token))
    && (forall k :: Wins(s', k, token) <==> Wins(s, k, token))
  }

  lemma DeleteDecides(s: State, s': State, token: string)
    requires Stored(s) && DoomedInv(s) && DeleteSafe(s) && Step(s, Delete) == Some(s')
    ensures SameDecision(s, s', token)
  {
    if token in s.store.byReg && s.store.byReg[token] in s.gc.doomed {
      var id := s.store.byReg[token];
      assert s.store.Find(token) == Some(s.store.tasks[id]);
      assert Lapsed(s, s.store.tasks[id]);
    }
  }

  /** A token that an unsafe deletion takes from somebody. */
  lemma UnsafeToken(s: State) returns (token: string)
    requires Stored(s) && s.gc.Inspecting? && !DeleteSafe(s)
    ensures token in s.store.byReg && s.store.byReg[token] in s.gc.doomed
    ensures Admits(s, token) || exists k :: Wins(s, k, token)
  {
    token :| token in s.store.byReg && s.store.byReg[token] in s.gc.doomed
      && ((exists k :: k in s.calls && Holds(s, k, token)) || !Lapsed(s, s.store.tasks[s.store.byReg[token]]));
    if k :| k in s.calls && Holds(s, k, token) {
      assert Wins(s, k, token);
    }
  }

  lemma UnsafeDeletePrevents(s: State, s': State) returns (token: string)
    requires Stored(s) && Step(s, Delete) == Some(s') && !DeleteSafe(s)
    ensures !SameDecision(s, s', token)
  {
    token := UnsafeToken(s);
    assert token !in s'.store.byReg;
    assert !Admits(s', token);
    assert forall k :: !Wins(s', k, token);
  }

  /** In every reachable state: the deletion leaves every registration decided as before,
      those to come and those under way, if and only if that is so. */
  lemma DeleteKeepsDecisionsIff(now: int, acts: seq<Action>, s: State, s': State)
    requires Exec(Init(now), acts) == Some(s) && Step(s, Delete) == Some(s')
    ensures DeleteSafe(s) <==> forall token :: SameDecision(s, s', token)
  {
    Reachable(now, acts, s);
    if DeleteSafe(s) {
      forall token ensures SameDecision(s, s', token) {
        DeleteDecides(s, s', token);
      }
    } else {
      var token := UnsafeDeletePrevents(s, s');
    }
  }

  /** What a deletion takes is past its deadline exactly when every task stored under a doomed
      id since the scan is. */
  lemma CollectedLapsedIff(now: int, acts: seq<Action>, s: State, s': State)
    requires Exec(Init(now), acts) == Some(s) && Step(s, Delete) == Some(s')
    ensures (forall id :: id in s.store.tasks && id !in s'.store.tasks ==> Lapsed(s, s.store.tasks[id])) <==>
            (forall id :: id in s.store.tasks && id in s.gc.doomed && s.store.tasks[id] != s.gc.doomed[id] ==>
                Lapsed(s, s.store.tasks[id]))
  {
    Reachable(now, acts, s);
  }

  // ---- with and without collections ----

  /** `g` has lost to collections only entries of tasks whose deadline has passed. */
  predicate SimStore(g: Tables<Ref>, p: Tables<Ref>, lost: map<string, int>, heap: seq<L.Task>, now: int) {
    && (forall id :: id in g.tasks ==> id in p.tasks && p.tasks[id] == g.tasks[id])
    && (forall token :: token in g.byReg ==> token in p.byReg && p.byReg[token] == g.byReg[token])
    && (forall token :: token in lost ==> token in p.byReg && p.byReg[token] == lost[token])
    && (forall token :: token in p.byReg ==> token in g.byReg || token in lost)
    && (forall token :: token in lost ==> lost[token] in p.tasks && Overdue(heap, now, p.tasks[lost[token]]))
  }

  /** A call that only `p` has let in, or whose token only `p` still has, fails the deadline
      check. */
  predicate SimCalls(g: map<Thread, Call>, p: map<Thread, Call>, lost: map<string, int>, heap: seq<L.Task>, now: int) {
    && (forall k :: k in g ==> k in p && p[k] == g[k])
    && (forall k :: k in p && (k in g ==> !p[k].Consumed? && p[k].token in lost) ==>
          p[k].Found? && Overdue(heap, now, p[k].task))
  }

  predicate Sim(g: State, p: State) {
    && g.now == p.now && g.heap == p.heap && g.started == p.started && g.tokens == p.tokens && g.accepted == p.accepted
    && SimStore(g.store, p.store, g.lost, g.heap, g.now)
    && SimCalls(g.calls, p.calls, g.lost, g.heap, g.now)
  }

  /** The deadline decides the same way with and without collections. */
  lemma SimDecides(g: State, p: State, token: string)
    requires Stored(g) && Stored(p) && Sim(g, p)
    ensures SameDecision(g, p, token)
    ensures g.store.Find(token) == p.store.Find(token)
            || (g.store.Find(token).None? && Lapsed(p, p.store.Find(token).value))
  {
    if token in p.store.byReg {
      var id := p.store.byReg[token];
      assert p.store.Find(token) == Some(p.store.tasks[id]);
      if token in g.store.byReg {
        assert g.store.Find(token) == Some(g.store.tasks[id]);
      }
    }
  }

  /** What is overdue stays so. */
  lemma SimLater(g: State, p: State, heap: seq<L.Task>, now: int)
    requires Sim(g, p) && g.now <= now && |g.heap| <= |heap|
    requires forall r: Ref :: r < |g.heap| ==> heap[r].createdAt == g.heap[r].createdAt && heap[r].ttl == g.heap[r].ttl
    ensures SimStore(g.store, p.store, g.lost, heap, now) && SimCalls(g.calls, p.calls, g.lost, heap, now)
  {
    assert forall r :: Overdue(g.heap, g.now, r) ==> Overdue(heap, now, r);
  }

  lemma FindSim(g: State, p: State, k: Thread, token: string)
    requires Stored(g) && Stored(p) && Sim(g, p)
    ensures Sim(Finding(g, k, token), Finding(p, k, token))
  {
    SimDecides(g, p, token);
  }

  /** Both answer call `k` with `c`, or end it. */
  lemma SetCall(g: map<Thread, Call>, p: map<Thread, Call>, lost: map<string, int>, heap: seq<L.Task>, now: int,
                k: Thread, c: Call)
    requires SimCalls(g, p, lost, heap, now) && (k in g <==> k in p)
    requires c.Consumed? || c.token !in lost
    ensures SimCalls(g[k := c], p[k := c], lost, heap, now) && SimCalls(g - {k}, p - {k}, lost, heap, now)
  {
  }

  lemma CheckSim(g: State, p: State, k: Thread)
    requires Stored(g) && Stored(p) && Sim(g, p)
    ensures Sim(Checking(g, k), Checking(p, k))
  {
    if k in g.calls && g.calls[k].Found? && g.calls[k].token !in g.lost {
      SetCall(g.calls, p.calls, g.lost, g.heap, g.now, k, Unexpired(g.calls[k].token, g.calls[k].task));
    }
  }

  lemma TakeSim(g: State, p: State, k: Thread)
    requires Stored(g) && Stored(p) && Sim(g, p)
    ensures Sim(Taking(g, k), Taking(p, k))
  {
    if k in g.calls && g.calls[k].Unexpired? {
      SetCall(g.calls, p.calls, g.lost, g.heap, g.now, k, Consumed(g.calls[k].task));
    }
  }

  lemma MarkSim(g: State, p: State, k: Thread)
    requires Stored(g) && Stored(p) && Sim(g, p)
    ensures Sim(Marking(g, k), Marking(p, k))
  {
    if k in g.calls && g.calls[k].Consumed? {
      SetCall(g.calls, p.calls, g.lost, g.heap, g.now, k, g.calls[k]);
      var g1, p1 := g.(calls := g.calls - {k}), p.(calls := p.calls - {k});
      SimLater(g1, p1, Marking(g, k).heap, g.now);
    }
  }

  /** No token that a deletion took leads to the id, unless the new task is past its deadline
      already. */
  predicate StoreSafe(s: State, t: L.Task) {
    forall token :: token in s.lost && s.lost[token] == t.id ==> L.RegTokenExpired(t, s.now)
  }

  lemma PutSim(g: Tables<Ref>, p: Tables<Ref>, lost: map<string, int>, heap: seq<L.Task>, now: int, t: L.Task)
    requires SimStore(g, p, lost, heap + [t], now) && t.regToken !in lost
    requires forall token :: token in lost && lost[token] == t.id ==> L.RegTokenExpired(t, now)
    ensures SimStore(g.Put(t.id, t.regToken, |heap|), p.Put(t.id, t.regToken, |heap|), lost, heap + [t], now)
  {
  }

  lemma StoreSim(g: State, p: State, t: L.Task)
    requires Stored(g) && Stored(p) && Sim(g, p) && Step(g, Store(t)).Some? && StoreSafe(g, t)
    ensures Step(p, Store(t)).Some? && Sim(Step(g, Store(t)).value, Step(p, Store(t)).value)
  {
    SimLater(g, p, g.heap + [t], g.now);
    PutSim(g.store, p.store, g.lost, g.heap, g.now, t);
  }

  lemma UnstoreSim(g: State, p: State, id: int)
    requires Stored(g) && Stored(p) && Sim(g, p)
    ensures Sim(Step(g, Unstore(id)).value, Step(p, Unstore(id)).value)
  {
  }

  lemma OtherSim(g: State, p: State, a: Action)
    requires Stored(g) && Stored(p) && Sim(g, p) && Step(g, a).Some? && (a.Write? || a.Elapse?)
    ensures Step(p, a).Some? && Sim(Step(g, a).value, Step(p, a).value)
  {
    SimLater(g, p, Step(g, a).value.heap, Step(g, a).value.now);
  }

  lemma StepSim(g: State, p: State, a: Action)
    requires Stored(g) && Stored(p) && Sim(g, p) && !IsGc(a) && Step(g, a).Some?
    requires a.Store? ==> StoreSafe(g, a.t)
    ensures Step(p, a).Some? && Sim(Step(g, a).value, Step(p, a).value)
  {
    match a
    case Store(t) => StoreSim(g, p, t);
    case Find(k, token) => FindSim(g, p, k, token);
    case Check(k) => CheckSim(g, p, k);
    case Take(k) => TakeSim(g, p, k);
    case Mark(k) => MarkSim(g, p, k);
    case Unstore(id) => UnstoreSim(g, p, id);
    case _ => OtherSim(g, p, a);
  }

  lemma DeleteSim(g: State, p: State)
    requires Stored(g) && DoomedInv(g) && Stored(p) && Sim(g, p) && Step(g, Delete).Some? && DeleteSafe(g)
    ensures Sim(Step(g, Delete).value, p)
  {
    var g' := Step(g, Delete).value;
    forall token | token in g'.lost
      ensures token in p.store.byReg && p.store.byReg[token] == g'.lost[token]
      ensures g'.lost[token] in p.store.tasks && Lapsed(p, p.store.tasks[g'.lost[token]])
    {
      if token in g.store.byReg {
        assert Lapsed(g, g.store.tasks[g.store.byReg[token]]);
      }
    }
    forall k | k in p.calls && (k in g'.calls ==> !p.calls[k].Consumed? && p.calls[k].token in g'.lost)
      ensures p.calls[k].Found? && Lapsed(p, p.calls[k].task)
    {
      if k in g.calls && p.calls[k].token in Swept(g) {
        assert !Holds(g, k, p.calls[k].token);
      }
    }
  }

  lemma GcSim(g: State, p: State, a: Action)
    requires Stored(g) && DoomedInv(g) && Stored(p) && Sim(g, p) && IsGc(a) && Step(g, a).Some?
    requires a.Delete? ==> DeleteSafe(g)
    ensures Sim(Step(g, a).value, p)
  {
    if a.Delete? {
      DeleteSim(g, p);
    }
  }

  /** The step is a safe deletion, a safe Store, or neither a deletion nor a Store. */
  predicate StepSafe(s: State, a: Action) {
    (a.Delete? ==> DeleteSafe(s)) && (a.Store? ==> StoreSafe(s, a.t))
  }

  /** Every step of the run is safe at its place. */
  ghost predicate Careful(now: int, acts: seq<Action>)
    decreases |acts|
  {
    |acts| > 0 ==>
      var prefix, a := acts[..|acts| - 1], acts[|acts| - 1];
      Careful(now, prefix) && (Exec(Init(now), prefix).Some? ==> StepSafe(Exec(Init(now), prefix).value, a))
  }

  lemma {:induction false} Simulates(now: int, acts: seq<Action>, g: State)
    requires Careful(now, acts) && Exec(Init(now), acts) == Some(g)
    ensures var p := Exec(Init(now), Strip(acts)); p.Some? && Sim(g, p.value)
    decreases |acts|
  {
    if |acts| > 0 {
      var a, prefix := acts[|acts| - 1], acts[..|acts| - 1];
      var g0 := Exec(Init(now), prefix).value;
      Simulates(now, prefix, g0);
      var p0 := Exec(Init(now), Strip(prefix)).value;
      Reachable(now, prefix, g0);
      Reachable(now, Strip(prefix), p0);
      if IsGc(a) {
        GcSim(g0, p0, a);
      } else {
        StepSim(g0, p0, a);
        assert Strip(acts)[..|Strip(acts)| - 1] == Strip(prefix);
      }
    }
  }

  // ---- runs that go on with registrations only ----

  predicate OnlyCalls(acts: seq<Action>) {
    forall i :: 0 <= i < |acts| ==> IsCall(acts[i])
  }

  lemma {:induction false} ExecAppend(s: State, acts: seq<Action>, s1: State, more: seq<Action>)
    requires Exec(s, acts) == Some(s1)
    ensures Exec(s, acts + more) == Exec(s1, more)
    decreases |more|
  {
    if |more| > 0 {
      ExecAppend(s, acts, s1, more[..|more| - 1]);
      assert (acts + more)[..|acts + more| - 1] == acts + more[..|more| - 1];
    } else {
      assert acts + more == acts;
    }
  }

  lemma LastApart(acts: seq<Action>, more: seq<Action>)
    requires more != []
    ensures acts + more == acts + more[..|more| - 1] + [more[|more| - 1]]
  {
  }

  lemma StripSnoc(acts: seq<Action>, a: Action)
    ensures Strip(acts + [a]) == if IsGc(a) then Strip(acts) else Strip(acts) + [a]
  {
    assert (acts + [a])[..|acts|] == acts;
  }

  lemma {:induction false} StripAppend(acts: seq<Action>, more: seq<Action>)
    requires OnlyCalls(more)
    ensures Strip(acts + more) == Strip(acts) + more
    decreases |more|
  {
    if more == [] {
      assert acts + more == acts;
    } else {
      var init, a := more[..|more| - 1], more[|more| - 1];
      assert IsCall(a);
      StripAppend(acts, init);
      StripSnoc(acts + init, a);
      LastApart(acts, more);
      LastApart(Strip(acts), more);
    }
  }

  lemma {:induction false} CallsAreCareful(now: int, acts: seq<Action>, more: seq<Action>)
    requires Careful(now, acts) && OnlyCalls(more)
    ensures Careful(now, acts + more)
    decreases |more|
  {
    if more == [] {
      assert acts + more == acts;
    } else {
      var init, a := more[..|more| - 1], more[|more| - 1];
      assert IsCall(a);
      CallsAreCareful(now, acts, init);
      assert (acts + more)[..|acts + more| - 1] == acts + init;
    }
  }

  lemma {:induction false} CarefulPrefix(now: int, acts: seq<Action>, n: nat)
    requires Careful(now, acts) && n <= |acts|
    ensures Careful(now, acts[..n])
    decreases |acts|
  {
    if n < |acts| {
      CarefulPrefix(now, acts[..|acts| - 1], n);
      assert acts[..|acts| - 1][..n] == acts[..n];
    } else {
      assert acts[..n] == acts;
    }
  }

  /** The three calls of a registration with a token the index has lost come to nothing. */
  lemma Refused(g: State, k: Thread, token: string)
    requires Stored(g) && token !in g.store.byReg && k !in g.started
    ensures var end := Taking(Checking(Finding(g, k, token), k), k); end.accepted == g.accepted
  {
  }

  lemma Granted(p: State, k: Thread, token: string)
    requires Stored(p) && Admits(p, token) && k !in p.started
    ensures var end := Taking(Checking(Finding(p, k, token), k), k);
      end.accepted == p.accepted + [Win(k, token, p.store.Find(token).value)]
  {
  }

  lemma PendingWins(p: State, k: Thread, token: string)
    requires Wins(p, k, token)
    ensures Taking(Checking(Checking(p, k), k), k).accepted == p.accepted + [Win(k, token, p.calls[k].task)]
  {
  }

  lemma PendingLoses(g: State, k: Thread, token: string)
    requires token !in g.store.byReg && (k in g.calls && !g.calls[k].Consumed? ==> g.calls[k].token == token)
    ensures Taking(Checking(Checking(g, k), k), k).accepted == g.accepted
  {
  }

  lemma Exec3(s: State, a: Action, b: Action, c: Action)
    requires IsCall(a) && IsCall(b) && IsCall(c)
    ensures Exec(s, [a, b, c]) == Step(Step(Step(s, a).value, b).value, c)
  {
    assert [a, b, c][..2] == [a, b] && [a, b][..1] == [a] && [a][..0] == [];
    assert Exec(s, []) == Some(s);
    assert Exec(s, [a]) == Step(s, a);
    assert Exec(s, [a, b]) == Step(Step(s, a).value, b);
  }

  /** A token that only the run without collections can still turn into a session: by a new
      registration, or by one under way. */
  lemma {:induction false} Above(started: set<Thread>) returns (k: Thread)
    ensures forall l :: l in started ==> l < k
  {
    if started == {} {
      k := 0;
    } else {
      var l :| l in started;
      var b := Above(started - {l});
      k := if l < b then b else l + 1;
      assert started == started - {l} + {l};
    }
  }

  lemma NewDiverges(g: State, p: State, k: Thread, token: string) returns (more: seq<Action>)
    requires Stored(g) && Stored(p) && k !in g.started && g.started == p.started && g.accepted == p.accepted
    requires token !in g.store.byReg && Admits(p, token)
    ensures OnlyCalls(more) && Exec(g, more).Some? && Exec(p, more).Some?
    ensures Exec(g, more).value.accepted == g.accepted
    ensures Exec(p, more).value.accepted == p.accepted + [Win(k, token, p.store.Find(token).value)]
  {
    more := [Find(k, token), Check(k), Take(k)];
    Refused(g, k, token);
    Granted(p, k, token);
    Exec3(g, more[0], more[1], more[2]);
    Exec3(p, more[0], more[1], more[2]);
  }

  lemma PendingDiverges(g: State, p: State, token: string, k: Thread) returns (more: seq<Action>)
    requires g.accepted == p.accepted && (forall k :: k in g.calls ==> k in p.calls && p.calls[k] == g.calls[k])
    requires token !in g.store.byReg && Wins(p, k, token)
    ensures OnlyCalls(more) && Exec(g, more).Some? && Exec(p, more).Some?
    ensures Exec(g, more).value.accepted == g.accepted
    ensures Exec(p, more).value.accepted == p.accepted + [Win(k, token, p.calls[k].task)]
  {
    more := [Check(k), Check(k), Take(k)];
    PendingWins(p, k, token);
    PendingLoses(g, k, token);
    Exec3(g, more[0], more[1], more[2]);
    Exec3(p, more[0], more[1], more[2]);
  }

  /** With the collections and without them the same registrations are accepted, by the same
      threads and for the same tasks. */
  predicate Agree(now: int, acts: seq<Action>) {
    var g, p := Exec(Init(now), acts), Exec(Init(now), Strip(acts));
    g.Some? ==> p.Some? && p.value.accepted == g.value.accepted
  }

  lemma UnsafeDeleteDiverges(g: State, p: State) returns (more: seq<Action>)
    requires Stored(g) && Stored(p) && Sim(g, p) && Step(g, Delete).Some? && !DeleteSafe(g)
    ensures OnlyCalls(more) && Exec(Step(g, Delete).value, more).Some? && Exec(p, more).Some?
    ensures Exec(Step(g, Delete).value, more).value.accepted != Exec(p, more).value.accepted
  {
    var g' := Step(g, Delete).value;
    StepStored(g, Delete, g');
    var token := UnsafeToken(g);
    SimDecides(g, p, token);
    if Admits(g, token) {
      var k := Above(g'.started);
      more := NewDiverges(g', p, k, token);
    } else {
      var k :| Wins(g, k, token);
      more := PendingDiverges(g', p, token, k);
    }
  }

  lemma UnsafeStoreDiverges(g: State, p: State, t: L.Task) returns (more: seq<Action>)
    requires Stored(g) && Stored(p) && Sim(g, p) && Step(g, Store(t)).Some? && !StoreSafe(g, t)
    ensures Step(p, Store(t)).Some? && OnlyCalls(more)
    ensures Exec(Step(g, Store(t)).value, more).Some? && Exec(Step(p, Store(t)).value, more).Some?
    ensures Exec(Step(g, Store(t)).value, more).value.accepted != Exec(Step(p, Store(t)).value, more).value.accepted
  {
    var g', p' := Step(g, Store(t)).value, Step(p, Store(t)).value;
    StepStored(g, Store(t), g');
    StepStored(p, Store(t), p');
    var token :| token in g.lost && g.lost[token] == t.id && !L.RegTokenExpired(t, g.now);
    assert p'.store.Find(token) == Some(|p.heap|);
    var k := Above(g'.started);
    more := NewDiverges(g', p', k, token);
  }

  /** A first step that is not safe shows. */
  lemma UnsafeStepDiverges(g: State, p: State, a: Action) returns (more: seq<Action>)
    requires Stored(g) && Stored(p) && Sim(g, p) && Step(g, a).Some? && !StepSafe(g, a)
    ensures var p' := if IsGc(a) then Some(p) else Step(p, a);
      && p'.Some? && OnlyCalls(more) && Exec(Step(g, a).value, more).Some? && Exec(p'.value, more).Some?
      && Exec(Step(g, a).value, more).value.accepted != Exec(p'.value, more).value.accepted
  {
    if a.Delete? {
      more := UnsafeDeleteDiverges(g, p);
    } else {
      more := UnsafeStoreDiverges(g, p, a.t);
    }
  }

  lemma {:induction false} UncarefulShows(now: int, acts: seq<Action>) returns (n: nat, more: seq<Action>)
    requires !Careful(now, acts) && Exec(Init(now), acts).Some?
    ensures n <= |acts| && OnlyCalls(more) && !Agree(now, acts[..n] + more)
    decreases |acts|
  {
    var prefix, a := acts[..|acts| - 1], acts[|acts| - 1];
    if !Careful(now, prefix) {
      n, more := UncarefulShows(now, prefix);
      assert prefix[..n] == acts[..n];
    } else {
      var g := Exec(Init(now), prefix).value;
      Simulates(now, prefix, g);
      var p := Exec(Init(now), Strip(prefix)).value;
      Reachable(now, prefix, g);
      Reachable(now, Strip(prefix), p);
      more := UnsafeStepDiverges(g, p, a);
      n := |acts|;
      assert acts[..n] == acts;
      ExecAppend(Init(now), acts, Step(g, a).value, more);
      StripAppend(acts, more);
      assert !IsGc(a) ==> (Strip(prefix) + [a])[..|Strip(prefix)|] == Strip(prefix);
      ExecAppend(Init(now), Strip(acts), if IsGc(a) then p else Step(p, a).value, more);
    }
  }

  /** Collections are invisible to registrations, made at any point of the run and under way
      at any point of it, if and only if every deletion and every Store is safe. */
  lemma GcNeverChangesOutcomes(now: int, acts: seq<Action>)
    requires Exec(Init(now), acts).Some?
    ensures Careful(now, acts) <==>
            forall n, more :: 0 <= n <= |acts| && OnlyCalls(more) ==> Agree(now, acts[..n] + more)
  {
    if Careful(now, acts) {
      forall n, more | 0 <= n <= |acts| && OnlyCalls(more) ensures Agree(now, acts[..n] + more) {
        CarefulPrefix(now, acts, n);
        CallsAreCareful(now, acts[..n], more);
        if Exec(Init(now), acts[..n] + more).Some? {
          Simulates(now, acts[..n] + more, Exec(Init(now), acts[..n] + more).value);
        }
      }
    } else {
      var n, more := UncarefulShows(now, acts);
    }
  }
}
