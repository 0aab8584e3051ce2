/** Runs in which no status is written over Terminal, so that lazy eviction from the token
    registry is invisible (internal/south/handler.go, internal/run/runner.go). */
module RegistryOrder {
  import opened Wrappers
  import opened Lifecycle
  import opened LifecycleTokens
  import opened LifecycleRouting
  import R = RegistryRuns

  /** Some session has been created for this task. */
  predicate HasBirth(births: seq<Birth>, r: Ref) {
    exists i :: 0 <= i < |births| && births[i].task == r
  }

  /** The thread has created a session that MarkRunnerRegistered has not followed yet. */
  predicate Opening(rpc: Rpc) {
    rpc.Linking? || rpc.Refreshing? || rpc.Registering?
  }

  /** The thread acts for an authenticated session. */
  predicate Serving(rpc: Rpc) {
    rpc.Authenticated? || rpc.Finishing?
  }

  /** MarkDispatched comes before the task's first session, and nobody is authenticated by a
      session key before the registration that created it is through. */
  predicate Orderly(s: State, a: Action) {
    match a
    case HandlerAction(h, ha) =>
      h in s.handlers && s.handlers[h].pc.Dispatching? && ha.MarkDispatched? ==>
          !HasBirth(s.w.births, s.handlers[h].task)
    case RpcAction(t, o) =>
      t in s.rpcs && s.rpcs[t].Touching? ==>
        forall u :: u in s.rpcs && Opening(s.rpcs[u]) ==> s.rpcs[u].key != s.rpcs[t].token
    case _ => true
  }

  predicate OneSessionEach(births: seq<Birth>) {
    forall i: nat, j: nat :: i < |births| && j < |births| && births[i].task == births[j].task ==> i == j
  }

  predicate TerminalInv(w: World) {
    forall r: Ref :: r < |w.heap| && w.heap[r].status.Terminal? ==> HasBirth(w.births, r)
  }

  /** A registration under way has its session to itself. */
  predicate KeysInv(rpcs: map<Thread, Rpc>) {
    forall t, u :: t in rpcs && u in rpcs && t != u && Opening(rpcs[t]) && (Opening(rpcs[u]) || Serving(rpcs[u])) ==>
      rpcs[t].key != rpcs[u].key
  }

  predicate OpenInv(w: World, rpc: Rpc) {
    Opening(rpc) && rpc.task < |w.heap| ==> !w.heap[rpc.task].status.Terminal?
  }

  predicate OrderInv(s: State) {
    && TerminalInv(s.w) && KeysInv(s.rpcs)
    && (forall t :: t in s.rpcs ==> OpenInv(s.w, s.rpcs[t]))
  }

  /** No task becomes Terminal, and no birth is forgotten. */
  predicate NoneFinished(w: World, w': World) {
    && w.births <= w'.births
    && (forall r: Ref :: r < |w'.heap| && w'.heap[r].status.Terminal? ==> r < |w.heap| && w.heap[r].status.Terminal?)
  }

  lemma HasBirthGrows(a: seq<Birth>, b: seq<Birth>, r: Ref)
    requires a <= b && HasBirth(a, r)
    ensures HasBirth(b, r)
  {
    var i :| 0 <= i < |a| && a[i].task == r;
    assert b[i] == a[i];
  }

  lemma NoneFinishedKeeps(w: World, w': World)
    requires NoneFinished(w, w')
    ensures TerminalInv(w) ==> TerminalInv(w')
    ensures forall rpc :: OpenInv(w, rpc) ==> OpenInv(w', rpc)
  {
    if TerminalInv(w) {
      forall r: Ref | r < |w'.heap| && w'.heap[r].status.Terminal? ensures HasBirth(w'.births, r) {
        HasBirthGrows(w.births, w'.births, r);
      }
    }
  }

  lemma HandlerFinishesNone(w: World, r: Ref, pc: HandlerPc, a: HandlerAct)
    requires r < |w.heap|
    ensures NoneFinished(w, HandlerWorld(w, r, pc, a))
  {
  }

  lemma GcFinishesNone(cfg: Config, w: World, gc: Gc, a: GcAct)
    requires GcNext(cfg, true, w, gc, a).Some?
    ensures NoneFinished(w, GcWorld(cfg, w, gc, a))
  {
  }

  lemma OthersFinishNone(s: State, a: Action, s': State)
    requires Step(s, a) == Some(s') && !a.RpcAction?
    ensures NoneFinished(s.w, s'.w)
    ensures s'.rpcs == if a.RpcStart? then s.rpcs[s.next := a.rpc] else s.rpcs
    ensures a.RpcStart? ==> IsFirst(a.rpc)
  {
    match a
    case HandlerAction(h, ha) => HandlerFinishesNone(s.w, s.handlers[h].task, s.handlers[h].pc, ha);
    case GcAction(ga) => GcFinishesNone(s.cfg, s.w, s.gc, ga);
    case _ =>
  }

  lemma RpcFinishes(cfg: Config, w: World, rpc: Rpc, o: Oracle)
    requires ValidRpc(rpc, w)
    ensures var w' := RpcWorld(cfg, w, rpc, o);
      && w.births <= w'.births && |w'.heap| == |w.heap|
      && (rpc.Finishing? && rpc.stage.SetTerminal? ==> w' == w.(heap := w'.heap))
      && (forall r: Ref :: r < |w'.heap| && w'.heap[r].status.Terminal? ==>
            w.heap[r].status.Terminal? || (rpc.Finishing? && rpc.stage.SetTerminal? && rpc.task == r))
  {
  }

  lemma KeysTellTasks(births: seq<Birth>, key1: string, r1: Ref, key2: string, r2: Ref)
    requires OneSessionEach(births) && Born(births, key1, r1) && Born(births, key2, r2) && key1 != key2
    ensures r1 != r2
  {
    var i: nat :| i < |births| && births[i].key == key1 && births[i].task == r1;
    var j: nat :| j < |births| && births[j].key == key2 && births[j].task == r2;
  }

  lemma LastBirthIsNew(births: seq<Birth>, b: Birth)
    requires OneSessionEach(births + [b])
    ensures !HasBirth(births, b.task)
  {
    assert (births + [b])[|births|] == b;
    assert forall i: nat :: i < |births| ==> (births + [b])[i] == births[i];
  }

  lemma ThreadsBorn(s: State, t: Thread)
    requires TokenInv(s) && t in s.rpcs && (Opening(s.rpcs[t]) || Serving(s.rpcs[t]))
    ensures Born(s.w.births, s.rpcs[t].key, s.rpcs[t].task)
  {
    assert RpcInv(s.w, s.rpcs[t]);
  }

  /** SetTerminal hits no task whose registration is under way. */
  lemma FinishKeepsOpen(s: State, t: Thread, o: Oracle, s': State)
    requires TokenInv(s) && OrderInv(s) && OneSessionEach(s.w.births) && RpcStep(s, t, o) == Some(s')
    requires s.rpcs[t].Finishing? && s.rpcs[t].stage.SetTerminal?
    ensures TerminalInv(s'.w) && (forall u :: u in s.rpcs && u != t ==> OpenInv(s'.w, s.rpcs[u]))
  {
    var rpc := s.rpcs[t];
    RpcFinishes(s.cfg, s.w, rpc, o);
    ThreadsBorn(s, t);
    forall u | u in s.rpcs && u != t && Opening(s.rpcs[u]) ensures s.rpcs[u].task != rpc.task {
      ThreadsBorn(s, u);
      KeysTellTasks(s.w.births, s.rpcs[u].key, s.rpcs[u].task, rpc.key, rpc.task);
    }
    assert OpenInv(s.w, rpc);
    forall u | u in s.rpcs && u != t ensures OpenInv(s'.w, s.rpcs[u]) {
      assert OpenInv(s.w, s.rpcs[u]);
    }
  }

  lemma RpcKeepsOpen(s: State, t: Thread, o: Oracle, s': State)
    requires TokenInv(s) && OrderInv(s) && OneSessionEach(s.w.births) && RpcStep(s, t, o) == Some(s')
    ensures TerminalInv(s'.w) && (forall u :: u in s.rpcs && u != t ==> OpenInv(s'.w, s.rpcs[u]))
  {
    RpcFinishes(s.cfg, s.w, s.rpcs[t], o);
    if s.rpcs[t].Finishing? && s.rpcs[t].stage.SetTerminal? {
      FinishKeepsOpen(s, t, o, s');
    } else {
      NoneFinishedKeeps(s.w, s'.w);
    }
  }

  /** What a step does to the thread's own key. */
  lemma NextKey(cfg: Config, w: World, rpc: Rpc, o: Oracle)
    requires ValidRpc(rpc, w) && RpcNext(cfg, w, rpc, o).Some?
    ensures var rpc' := RpcNext(cfg, w, rpc, o).value;
      && (Opening(rpc') ==> rpc.Creating? || (Opening(rpc) && rpc'.key == rpc.key && rpc'.task == rpc.task))
      && (Serving(rpc') ==>
            || (rpc.Touching? && rpc'.key == rpc.token)
            || ((rpc.Registering? || Serving(rpc)) && rpc'.key == rpc.key))
  {
  }

  lemma RpcKeys(s: State, t: Thread, o: Oracle, s': State)
    requires TokenInv(s) && KeysInv(s.rpcs) && Orderly(s, RpcAction(t, o)) && RpcStep(s, t, o) == Some(s')
    ensures KeysInv(s'.rpcs)
  {
    var rpc, rpc' := s.rpcs[t], s'.rpcs[t];
    NextKey(s.cfg, s.w, rpc, o);
    if rpc.Creating? {
      CreateTokens(s.cfg, s.w, rpc, o);
      forall u | u in s.rpcs && u != t && (Opening(s.rpcs[u]) || Serving(s.rpcs[u])) ensures s.rpcs[u].key != rpc'.key {
        ThreadsBorn(s, u);
      }
    }
  }

  /** A session is created only for a task that is not Terminal. */
  lemma RpcOpens(s: State, t: Thread, o: Oracle, s': State)
    requires TokenInv(s) && OrderInv(s) && OneSessionEach(s'.w.births) && RpcStep(s, t, o) == Some(s')
    ensures OpenInv(s'.w, s'.rpcs[t])
  {
    var rpc, rpc' := s.rpcs[t], s'.rpcs[t];
    NextKey(s.cfg, s.w, rpc, o);
    RpcFinishes(s.cfg, s.w, rpc, o);
    assert OpenInv(s.w, rpc);
    if rpc.Creating? {
      CreateTokens(s.cfg, s.w, rpc, o);
      LastBirthIsNew(s.w.births, s'.w.births[|s.w.births|]);
    }
  }

  lemma BirthsOnceEarlier(a: seq<Birth>, b: seq<Birth>)
    requires a <= b && OneSessionEach(b)
    ensures OneSessionEach(a)
  {
    assert forall i: nat :: i < |a| ==> a[i] == b[i];
  }

  lemma StepOrder(s: State, a: Action, s': State)
    requires TokenInv(s) && OrderInv(s) && Orderly(s, a) && Step(s, a) == Some(s') && OneSessionEach(s'.w.births)
    ensures OrderInv(s')
  {
    if a.RpcAction? {
      RpcFinishes(s.cfg, s.w, s.rpcs[a.t], a.o);
      BirthsOnceEarlier(s.w.births, s'.w.births);
      RpcKeepsOpen(s, a.t, a.o, s');
      RpcOpens(s, a.t, a.o, s');
      RpcKeys(s, a.t, a.o, s');
    } else {
      OthersFinishNone(s, a, s');
      NoneFinishedKeeps(s.w, s'.w);
    }
  }

  /** Every step of the run is orderly. */
  ghost predicate OrderlyRun(s: State, acts: seq<Action>)
    decreases |acts|
  {
    |acts| > 0 ==>
      var prefix, a := acts[..|acts| - 1], acts[|acts| - 1];
      OrderlyRun(s, prefix) && (Exec(s, prefix).Some? ==> Orderly(Exec(s, prefix).value, a))
  }

  lemma {:induction false} ReachableOrder(cfg: Config, now: int, acts: seq<Action>, s: State)
    requires Reaches(cfg, now, acts, s) && FetchesSafe(Init(cfg, now), acts) && OrderlyRun(Init(cfg, now), acts)
    ensures TokenInv(s) && OrderInv(s)
    decreases |acts|
  {
    ReachableTokens(cfg, now, acts, s);
    if |acts| > 0 {
      var n := |acts| - 1;
      var prev := Exec(Init(cfg, now), acts[..n]).value;
      ReachableOrder(cfg, now, acts[..n], prev);
      SessionsActOnOwnTask(cfg, now, acts, s);
      StepOrder(prev, acts[n], s);
    }
  }

  /** Nothing is written over Terminal. */
  lemma TerminalStays(s: State, a: Action)
    requires OrderInv(s) && Orderly(s, a) && Step(s, a).Some? && R.Overwritten(s, a).Some?
    ensures R.Overwritten(s, a).value < |s.w.heap| ==> !s.w.heap[R.Overwritten(s, a).value].status.Terminal?
  {
    if a.RpcAction? {
      assert OpenInv(s.w, s.rpcs[a.t]);
    }
  }

  // ---- with the registry ----

  /** The daemon's own steps of a run with registry operations. */
  function Daemons(acts: seq<R.Action>): seq<Action> {
    if |acts| == 0 then [] else
      var a := acts[|acts| - 1];
      Daemons(acts[..|acts| - 1]) + if a.Daemon? then [a.a] else []
  }

  lemma {:induction false} DaemonsReach(cfg: Config, now: int, acts: seq<R.Action>, s: R.State)
    requires R.Exec(R.Init(cfg, now), acts) == Some(s)
    ensures Reaches(cfg, now, Daemons(acts), s.l)
    decreases |acts|
  {
    if |acts| > 0 {
      var n := |acts| - 1;
      DaemonsReach(cfg, now, acts[..n], R.Exec(R.Init(cfg, now), acts[..n]).value);
      if acts[n].Daemon? {
        assert Daemons(acts)[..|Daemons(acts)| - 1] == Daemons(acts[..n]);
      } else {
        assert Daemons(acts) == Daemons(acts[..n]);
      }
    }
  }

  /** No task is given a second session, MarkDispatched comes before the first, and a session
      serves nobody before its registration is through: then lazy eviction is invisible. */
  lemma {:induction false} OneSessionIsSafe(cfg: Config, now: int, acts: seq<R.Action>)
    requires R.Exec(R.Init(cfg, now), acts).Some?
    requires FetchesSafe(Init(cfg, now), Daemons(acts)) && OrderlyRun(Init(cfg, now), Daemons(acts))
    ensures R.NoneRevived(cfg, now, acts)
    decreases |acts|
  {
    if |acts| > 0 {
      var prefix, a := acts[..|acts| - 1], acts[|acts| - 1];
      var prev := R.Exec(R.Init(cfg, now), prefix).value;
      if a.Daemon? {
        assert Daemons(acts)[..|Daemons(acts)| - 1] == Daemons(prefix);
        assert Daemons(acts)[|Daemons(acts)| - 1] == a.a;
      } else {
        assert Daemons(acts) == Daemons(prefix);
      }
      OneSessionIsSafe(cfg, now, prefix);
      DaemonsReach(cfg, now, prefix, prev);
      if a.Daemon? {
        ReachableOrder(cfg, now, Daemons(prefix), prev.l);
        if R.Overwritten(prev.l, a.a).Some? {
          TerminalStays(prev.l, a.a);
        }
      }
    }
  }
}
