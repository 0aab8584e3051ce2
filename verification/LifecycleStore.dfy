/** The store, its collections and its registrations in the runs of the daemon: every run is a
    run of StoreGc (internal/store/memstore.go, internal/south/handler.go, internal/app/app.go). */
module LifecycleStore {
  import opened Wrappers
  import opened Lifecycle
  import opened LifecycleTokens
  import G = StoreGc

  /** What StoreGc sees of a task. */
  function Seen(t: Task): Task {
    t.(sessionToken := "", done := false)
  }

  /** How far the thread has got with its registration. */
  function CallOf(rpc: Rpc): Option<G.Call> {
    match rpc
    case Checking(tok, r, _) => Some(G.Found(tok, r))
    case Consuming(tok, r, _) => Some(G.Unexpired(tok, r))
    case Creating(_, r, _) => Some(G.Consumed(r))
    case Linking(_, r, _, _) => Some(G.Consumed(r))
    case Refreshing(_, r, _, _) => Some(G.Consumed(r))
    case Registering(_, r, _, _) => Some(G.Consumed(r))
    case _ => None
  }

  predicate SameHeap(w: World, heap: seq<Task>) {
    |heap| == |w.heap| && forall r: Ref :: r < |heap| ==> heap[r] == Seen(w.heap[r])
  }

  predicate SameCalls(rpcs: map<Thread, Rpc>, calls: map<Thread, G.Call>, started: set<Thread>) {
    && (forall t :: t in rpcs && CallOf(rpcs[t]).Some? ==> t in calls && calls[t] == CallOf(rpcs[t]).value)
    && (forall t :: t in calls ==> t in rpcs && CallOf(rpcs[t]).Some?)
    && (forall t :: t in started ==> t in rpcs && !rpcs[t].LookingUp? && !rpcs[t].Finding?)
  }

  predicate SameGc(gc: Gc, other: G.Gc) {
    if gc.Inspecting?
    then other.Inspecting? && other.at == gc.at && other.scanned == gc.scanned && other.doomed.Keys == gc.doomed
    else other.Idle?
  }

  ghost predicate Related(s: State, g: G.State) {
    && g.now == s.w.now && g.store == s.w.store && g.tokens <= s.w.minted && SameHeap(s.w, g.heap)
    && SameCalls(s.rpcs, g.calls, g.started) && SameGc(s.gc, g.gc)
  }

  // ---- what each step of the daemon is to the store ----

  function OfRpc(w: World, t: Thread, rpc: Rpc): seq<G.Action>
    requires ValidRpc(rpc, w)
  {
    match rpc
    case Finding(tok, _) => [G.Find(t, tok)]
    case Checking(_, _, _) => [G.Check(t)]
    case Consuming(_, _, _) => [G.Take(t)]
    case Registering(_, _, _, _) => [G.Mark(t)]
    case Finishing(_, r, SetTerminal) => [G.Write(r, Terminal)]
    case Finishing(_, r, Unstore) => [G.Unstore(w.heap[r].id)]
    case _ => []
  }

  function OfHandler(w: World, hd: Handler, a: HandlerAct): seq<G.Action>
    requires hd.task < |w.heap|
  {
    if hd.pc.Dispatching? && a.MarkDispatched? then [G.Write(hd.task, Dispatched)]
    else if NextOp(hd.pc, a) == Some(RemoveTask) then [G.Unstore(w.heap[hd.task].id)]
    else []
  }

  function OfGc(w: World, gc: Gc, a: GcAct): seq<G.Action> {
    match (gc, a)
    case (Idle, Tick(at)) => [G.Scan(at)]
    case (Inspecting(_, _, _), Inspect(id)) => [G.Inspect(id)]
    case (Inspecting(_, _, _), Advance) => [G.Delete]
    case (Removing(r, _), Advance) => if r < |w.heap| then [G.Unstore(w.heap[r].id)] else []
    case _ => []
  }

  function OfStep(s: State, a: Action): seq<G.Action> {
    match a
    case PollerAction(p, Fetch(id, tok, createdAt)) =>
      if p < |s.cfg.instances|
      then [G.Store(Task(id, s.cfg.instances[p].name, tok, s.cfg.instances[p].regTokenTtl, createdAt, Pending, "",
                         false, false, p))]
      else []
    case HandlerAction(h, ha) =>
      if h in s.handlers && s.handlers[h].task < |s.w.heap| then OfHandler(s.w, s.handlers[h], ha) else []
    case RpcAction(t, o) => if t in s.rpcs && ValidRpc(s.rpcs[t], s.w) then OfRpc(s.w, t, s.rpcs[t]) else []
    case GcAction(ga) => OfGc(s.w, s.gc, ga)
    case Elapse(d) => [G.Elapse(d)]
    case _ => []
  }

  /** The run of the store within a run of the daemon. */
  function StoreRun(s0: State, acts: seq<Action>): seq<G.Action> {
    if |acts| == 0 then [] else
      var prefix := acts[..|acts| - 1];
      match Exec(s0, prefix)
      case None => []
      case Some(s) => StoreRun(s0, prefix) + OfStep(s, acts[|acts| - 1])
  }

  // ---- step by step ----

  lemma NoStep(g: G.State, acts: seq<G.Action>)
    requires acts == []
    ensures G.Exec(g, acts) == Some(g)
  {
  }

  lemma OneStep(g: G.State, a: G.Action)
    ensures G.Exec(g, [a]) == G.Step(g, a)
  {
    assert [a][..0] == [];
    assert G.Exec(g, []) == Some(g);
  }

  lemma FetchRelated(s: State, p: nat, a: PollerAct, s': State, g: G.State)
    requires TokenInv(s) && Related(s, g) && PollerStep(s, p, a) == Some(s') && a.Fetch?
    ensures G.Exec(g, OfStep(s, PollerAction(p, a))).Some?
    ensures Related(s', G.Exec(g, OfStep(s, PollerAction(p, a))).value)
  {
    OneStep(g, OfStep(s, PollerAction(p, a))[0]);
  }

  lemma HandlerRelated(s: State, h: Thread, a: HandlerAct, s': State, g: G.State)
    requires Related(s, g) && HandlerStep(s, h, a) == Some(s')
    ensures G.Exec(g, OfHandler(s.w, s.handlers[h], a)).Some?
    ensures Related(s', G.Exec(g, OfHandler(s.w, s.handlers[h], a)).value)
  {
    var acts := OfHandler(s.w, s.handlers[h], a);
    if acts == [] {
      NoStep(g, acts);
    } else {
      OneStep(g, acts[0]);
      assert acts == [acts[0]];
    }
  }

  lemma RpcHeap(cfg: Config, w: World, rpc: Rpc, o: Oracle, heap: seq<Task>)
    requires ValidRpc(rpc, w) && RpcNext(cfg, w, rpc, o).Some? && SameHeap(w, heap)
    ensures OfRpc(w, 0, rpc) == [] || rpc.Finding? || rpc.Checking? || rpc.Consuming?
            || (rpc.Finishing? && rpc.stage.Unstore?) ==>
              SameHeap(RpcWorld(cfg, w, rpc, o), heap)
  {
  }

  lemma ThreadMoves(rpcs: map<Thread, Rpc>, t: Thread, rpc: Rpc, calls: map<Thread, G.Call>, started: set<Thread>)
    requires SameCalls(rpcs, calls, started) && t in rpcs && CallOf(rpc) == CallOf(rpcs[t])
    requires rpc.LookingUp? || rpc.Finding? ==> rpcs[t].LookingUp?
    ensures SameCalls(rpcs[t := rpc], calls, started)
  {
  }

  lemma SilentWorld(cfg: Config, w: World, rpc: Rpc, o: Oracle)
    requires ValidRpc(rpc, w) && RpcNext(cfg, w, rpc, o).Some? && OfRpc(w, 0, rpc) == []
    ensures var w', rpc' := RpcWorld(cfg, w, rpc, o), RpcNext(cfg, w, rpc, o).value;
      && w'.now == w.now && w'.store == w.store && w.minted <= w'.minted
      && CallOf(rpc') == CallOf(rpc) && (rpc'.LookingUp? || rpc'.Finding? ==> rpc.LookingUp?)
  {
  }

  /** Threads that have nothing to do with registration. */
  lemma SilentRpc(s: State, t: Thread, o: Oracle, s': State, g: G.State)
    requires Related(s, g) && RpcStep(s, t, o) == Some(s') && OfRpc(s.w, t, s.rpcs[t]) == []
    ensures Related(s', g)
  {
    RpcHeap(s.cfg, s.w, s.rpcs[t], o, g.heap);
    SilentWorld(s.cfg, s.w, s.rpcs[t], o);
    ThreadMoves(s.rpcs, t, s'.rpcs[t], g.calls, g.started);
  }

  lemma FindRelated(s: State, t: Thread, o: Oracle, s': State, g: G.State)
    requires Related(s, g) && RpcStep(s, t, o) == Some(s') && s.rpcs[t].Finding?
    ensures Related(s', G.Finding(g, t, s.rpcs[t].token))
  {
    RpcHeap(s.cfg, s.w, s.rpcs[t], o, g.heap);
    assert t !in g.started;
  }

  lemma CheckRelated(s: State, t: Thread, o: Oracle, s': State, g: G.State)
    requires Related(s, g) && RpcStep(s, t, o) == Some(s') && s.rpcs[t].Checking?
    ensures Related(s', G.Checking(g, t))
  {
    RpcHeap(s.cfg, s.w, s.rpcs[t], o, g.heap);
  }

  lemma ConsumeRelated(s: State, t: Thread, o: Oracle, s': State, g: G.State)
    requires Related(s, g) && RpcStep(s, t, o) == Some(s') && s.rpcs[t].Consuming?
    ensures Related(s', G.Taking(g, t))
  {
    RpcHeap(s.cfg, s.w, s.rpcs[t], o, g.heap);
  }

  lemma MarkRelated(s: State, t: Thread, o: Oracle, s': State, g: G.State)
    requires Related(s, g) && RpcStep(s, t, o) == Some(s') && s.rpcs[t].Registering?
    ensures Related(s', G.Marking(g, t))
  {
  }

  lemma FinishRelated(s: State, t: Thread, o: Oracle, s': State, g: G.State)
    requires Related(s, g) && RpcStep(s, t, o) == Some(s') && s.rpcs[t].Finishing?
    requires s.rpcs[t].stage.SetTerminal? || s.rpcs[t].stage.Unstore?
    ensures G.Step(g, OfRpc(s.w, t, s.rpcs[t])[0]).Some?
    ensures Related(s', G.Step(g, OfRpc(s.w, t, s.rpcs[t])[0]).value)
  {
  }

  lemma RpcRelated(s: State, t: Thread, o: Oracle, s': State, g: G.State)
    requires Related(s, g) && RpcStep(s, t, o) == Some(s')
    ensures G.Exec(g, OfRpc(s.w, t, s.rpcs[t])).Some?
    ensures Related(s', G.Exec(g, OfRpc(s.w, t, s.rpcs[t])).value)
  {
    var acts, rpc := OfRpc(s.w, t, s.rpcs[t]), s.rpcs[t];
    if acts == [] {
      NoStep(g, acts);
      SilentRpc(s, t, o, s', g);
    } else {
      OneStep(g, acts[0]);
      assert acts == [acts[0]];
      if rpc.Finding? {
        FindRelated(s, t, o, s', g);
      } else if rpc.Checking? {
        CheckRelated(s, t, o, s', g);
      } else if rpc.Consuming? {
        ConsumeRelated(s, t, o, s', g);
      } else if rpc.Registering? {
        MarkRelated(s, t, o, s', g);
      } else {
        FinishRelated(s, t, o, s', g);
      }
    }
  }

  lemma GcRelated(s: State, a: GcAct, s': State, g: G.State)
    requires Related(s, g) && GcStep(s, a) == Some(s')
    ensures G.Exec(g, OfGc(s.w, s.gc, a)).Some?
    ensures Related(s', G.Exec(g, OfGc(s.w, s.gc, a)).value)
  {
    var acts := OfGc(s.w, s.gc, a);
    if acts == [] {
      NoStep(g, acts);
    } else {
      OneStep(g, acts[0]);
      assert acts == [acts[0]];
    }
  }

  lemma StartRelated(s: State, rpc: Rpc, s': State, g: G.State)
    requires TokenInv(s) && Related(s, g) && Step(s, RpcStart(rpc)) == Some(s')
    ensures Related(s', g)
  {
    assert s.next !in s.rpcs;
  }

  /** Steps that do not concern the store. */
  lemma SilentRelated(s: State, a: Action, s': State, g: G.State)
    requires Related(s, g) && Step(s, a) == Some(s')
    requires a.DispatcherAction? || a.BeatAction? || a.Shutdown? || (a.PollerAction? && !a.pact.Fetch?)
    ensures Related(s', g)
  {
    assert s'.rpcs == s.rpcs && s'.gc == s.gc;
  }

  lemma ElapseRelated(s: State, d: nat, s': State, g: G.State)
    requires Related(s, g) && Step(s, Elapse(d)) == Some(s')
    ensures G.Exec(g, [G.Elapse(d)]).Some? && Related(s', G.Exec(g, [G.Elapse(d)]).value)
  {
    OneStep(g, G.Elapse(d));
  }

  lemma StepRelated(s: State, a: Action, s': State, g: G.State)
    requires TokenInv(s) && Related(s, g) && Step(s, a) == Some(s')
    ensures G.Exec(g, OfStep(s, a)).Some? && Related(s', G.Exec(g, OfStep(s, a)).value)
  {
    match a
    case PollerAction(p, pa) =>
      if pa.Fetch? {
        FetchRelated(s, p, pa, s', g);
      } else {
        NoStep(g, OfStep(s, a));
        SilentRelated(s, a, s', g);
      }
    case HandlerAction(h, ha) => HandlerRelated(s, h, ha, s', g);
    case RpcAction(t, o) => RpcRelated(s, t, o, s', g);
    case GcAction(ga) => GcRelated(s, ga, s', g);
    case Elapse(d) => ElapseRelated(s, d, s', g);
    case RpcStart(rpc) =>
      NoStep(g, OfStep(s, a));
      StartRelated(s, rpc, s', g);
    case _ =>
      NoStep(g, OfStep(s, a));
      SilentRelated(s, a, s', g);
  }

  /** Every run of the daemon is a run of StoreGc with the same store, the same statuses, the
      same registrations under way and the same collections, so what StoreGc proves of
      registrations and collections holds of the daemon. */
  lemma {:induction false} DaemonIsStoreRun(cfg: Config, now: int, acts: seq<Action>, s: State)
    requires Reaches(cfg, now, acts, s)
    ensures G.Exec(G.Init(now), StoreRun(Init(cfg, now), acts)).Some?
    ensures Related(s, G.Exec(G.Init(now), StoreRun(Init(cfg, now), acts)).value)
    decreases |acts|
  {
    if |acts| > 0 {
      var prefix, a := acts[..|acts| - 1], acts[|acts| - 1];
      var prev := Exec(Init(cfg, now), prefix).value;
      DaemonIsStoreRun(cfg, now, prefix, prev);
      ReachableTokens(cfg, now, prefix, prev);
      var g := G.Exec(G.Init(now), StoreRun(Init(cfg, now), prefix)).value;
      StepRelated(prev, a, s, g);
      G.ExecAppend(G.Init(now), StoreRun(Init(cfg, now), prefix), g, OfStep(prev, a));
    }
  }
}
