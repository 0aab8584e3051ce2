/** Every northbound report goes to the instance the task came from, and a session
    acts only on the task its registration token was minted for. */
module LifecycleRouting {
  import opened Wrappers
  import opened SessionTables
  import opened Lifecycle
  import opened LifecycleTokens

  /** With unique names the resolver leads from an instance's name back to its client. */
  lemma {:induction false} ResolveUnique(instances: seq<Instance>, i: nat)
    requires UniqueNames(instances) && i < |instances|
    ensures Resolve(instances, instances[i].name) == Some(i)
    decreases |instances|
  {
    var n := |instances| - 1;
    if i < n {
      assert instances[n].name != instances[i].name;
      assert instances[..n][i] == instances[i];
      ResolveUnique(instances[..n], i);
    }
  }

  /** A name resolves to the last client that has it. */
  lemma {:induction false} ResolveIff(instances: seq<Instance>, name: string, i: nat)
    ensures Resolve(instances, name) == Some(i) <==>
            && i < |instances| && instances[i].name == name
            && forall j :: i < j < |instances| ==> instances[j].name != name
    decreases |instances|
  {
    if |instances| > 0 {
      var n := |instances| - 1;
      ResolveIff(instances[..n], name, i);
    }
  }

  ghost predicate TaskRouted(cfg: Config, w: World, t: Task) {
    && t.poller < |cfg.instances| && t.instance == cfg.instances[t.poller].name
    && (t.poller, t.id) in w.fetched
  }

  /** The client a HandleTask holds is the client of its task's own poller. */
  ghost predicate PcRouted(t: Task, pc: HandlerPc) {
    match pc
    case Triggering(c) => c == t.poller
    case Dispatching(c) => c == t.poller
    case AwaitRegistration(c) => c == t.poller
    case Leaving(ops, _) => forall i :: 0 <= i < |ops| && ops[i].Report? ==> ops[i].client == t.poller
    case _ => true
  }

  ghost predicate WorldRouted(cfg: Config, w: World) {
    && (forall r: Ref :: r < |w.heap| ==> TaskRouted(cfg, w, w.heap[r]))
    && w.sent <= w.fetched
  }

  ghost predicate HandlerRouted(w: World, hd: Handler) {
    hd.task < |w.heap| && PcRouted(w.heap[hd.task], hd.pc)
  }

  ghost predicate BeatRouted(w: World, b: Heartbeat) {
    b.task < |w.heap| && b.client == w.heap[b.task].poller
  }

  ghost predicate RoutingInv(s: State) {
    && |s.pollers| == |s.cfg.instances|
    && WorldRouted(s.cfg, s.w)
    && (forall h :: h in s.handlers ==> HandlerRouted(s.w, s.handlers[h]))
    && (forall b :: b in s.beats ==> BeatRouted(s.w, s.beats[b]))
    && (s.dispatcher.Some? ==> s.dispatcher.value < |s.w.heap|)
    && (forall i :: 0 <= i < |s.channel| ==> s.channel[i] < |s.w.heap|)
    && (forall p :: 0 <= p < |s.pollers| && s.pollers[p].Sending? ==> s.pollers[p].task < |s.w.heap|)
  }

  /** What never changes about an allocated task. */
  ghost predicate SameOrigin(w: World, w': World) {
    && |w.heap| <= |w'.heap| && w.fetched <= w'.fetched
    && (forall r: Ref :: r < |w.heap| ==>
          && w'.heap[r].id == w.heap[r].id && w'.heap[r].instance == w.heap[r].instance
          && w'.heap[r].poller == w.heap[r].poller && w'.heap[r].regToken == w.heap[r].regToken)
  }

  lemma ThreadsRoutedLater(w: World, w': World)
    requires SameOrigin(w, w')
    ensures forall hd :: HandlerRouted(w, hd) ==> HandlerRouted(w', hd)
    ensures forall b :: BeatRouted(w, b) ==> BeatRouted(w', b)
  {
  }

  lemma HandlerRouting(cfg: Config, shutdown: bool, w: World, r: Ref, pc: HandlerPc, a: HandlerAct)
    requires UniqueNames(cfg.instances) && r < |w.heap| && TaskRouted(cfg, w, w.heap[r]) && PcRouted(w.heap[r], pc)
    requires HandlerNext(cfg, shutdown, w.heap[r], pc, a).Some?
    ensures var w' := HandlerWorld(w, r, pc, a);
      && SameOrigin(w, w') && w'.fetched == w.fetched && |w'.heap| == |w.heap|
      && (w.sent <= w.fetched ==> w'.sent <= w'.fetched)
      && PcRouted(w'.heap[r], HandlerNext(cfg, shutdown, w.heap[r], pc, a).value)
  {
    ResolveUnique(cfg.instances, w.heap[r].poller);
  }

  lemma RpcRouting(cfg: Config, w: World, rpc: Rpc, o: Oracle)
    requires UniqueNames(cfg.instances) && ValidRpc(rpc, w)
    requires RpcTask(rpc).Some? ==> TaskRouted(cfg, w, w.heap[RpcTask(rpc).value])
    ensures var w' := RpcWorld(cfg, w, rpc, o);
      && SameOrigin(w, w') && w'.fetched == w.fetched && |w'.heap| == |w.heap|
      && (w.sent <= w.fetched ==> w'.sent <= w'.fetched)
  {
    if RpcTask(rpc).Some? {
      ResolveUnique(cfg.instances, w.heap[RpcTask(rpc).value].poller);
    }
  }

  lemma GcRouting(cfg: Config, shutdown: bool, w: World, gc: Gc, a: GcAct)
    requires UniqueNames(cfg.instances) && GcNext(cfg, shutdown, w, gc, a).Some?
    requires forall r: Ref :: r < |w.heap| ==> TaskRouted(cfg, w, w.heap[r])
    ensures var w' := GcWorld(cfg, w, gc, a);
      && SameOrigin(w, w') && w'.fetched == w.fetched && |w'.heap| == |w.heap|
      && (w.sent <= w.fetched ==> w'.sent <= w'.fetched)
  {
    if gc.Sweeping? && a.ReportOrphan? {
      ResolveUnique(cfg.instances, w.heap[gc.todo[a.key]].poller);
    }
  }

  lemma HandlerBeatsRouted(w: World, beats: map<Thread, Heartbeat>, h: Thread, r: Ref, pc: HandlerPc, pc': HandlerPc)
    requires HandlerRouted(w, Handler(r, pc)) && (forall b :: b in beats ==> BeatRouted(w, beats[b]))
    ensures forall b :: b in HandlerBeats(beats, h, r, pc, pc') ==> BeatRouted(w, HandlerBeats(beats, h, r, pc, pc')[b])
  {
  }

  lemma HandlerStepRouting(s: State, h: Thread, a: HandlerAct, s': State)
    requires UniqueNames(s.cfg.instances) && RoutingInv(s) && HandlerStep(s, h, a) == Some(s')
    ensures RoutingInv(s')
  {
    var hd := s.handlers[h];
    assert HandlerRouted(s.w, hd);
    HandlerRouting(s.cfg, s.shutdown, s.w, hd.task, hd.pc, a);
    ThreadsRoutedLater(s.w, s'.w);
    HandlerBeatsRouted(s.w, s.beats, h, hd.task, hd.pc, s'.handlers[h].pc);
  }

  lemma RpcStepRouting(s: State, t: Thread, o: Oracle, s': State)
    requires UniqueNames(s.cfg.instances) && RoutingInv(s) && RpcStep(s, t, o) == Some(s')
    ensures RoutingInv(s')
  {
    RpcRouting(s.cfg, s.w, s.rpcs[t], o);
    ThreadsRoutedLater(s.w, s'.w);
  }

  lemma GcStepRouting(s: State, a: GcAct, s': State)
    requires UniqueNames(s.cfg.instances) && RoutingInv(s) && GcStep(s, a) == Some(s')
    ensures RoutingInv(s')
  {
    GcRouting(s.cfg, s.shutdown, s.w, s.gc, a);
    ThreadsRoutedLater(s.w, s'.w);
  }

  lemma DispatcherRouting(s: State, a: DispatcherAct, s': State)
    requires RoutingInv(s) && DispatcherStep(s, a) == Some(s')
    ensures RoutingInv(s')
  {
    if a.Receive? {
      assert s'.dispatcher.value == s.channel[0];
    }
  }

  lemma OtherStepRouting(s: State, a: Action, s': State)
    requires RoutingInv(s) && Step(s, a) == Some(s')
    requires a.DispatcherAction? || a.RpcStart? || a.Elapse? || a.Shutdown?
    ensures RoutingInv(s')
  {
    match a
    case DispatcherAction(da) => DispatcherRouting(s, da, s');
    case RpcStart(rpc) =>
    case Elapse(d) => ThreadsRoutedLater(s.w, s'.w);
    case Shutdown =>
  }

  lemma BeatStepRouting(s: State, b: Thread, a: BeatAct, s': State)
    requires RoutingInv(s) && BeatStep(s, b, a) == Some(s')
    ensures RoutingInv(s')
  {
    assert BeatRouted(s.w, s.beats[b]);
    ThreadsRoutedLater(s.w, s'.w);
  }

  lemma PollerRouting(s: State, p: nat, a: PollerAct, s': State)
    requires RoutingInv(s) && PollerStep(s, p, a) == Some(s')
    ensures RoutingInv(s')
  {
    ThreadsRoutedLater(s.w, s'.w);
  }

  lemma StepRouting(s: State, a: Action, s': State)
    requires UniqueNames(s.cfg.instances) && RoutingInv(s) && Step(s, a) == Some(s')
    ensures RoutingInv(s')
  {
    match a
    case PollerAction(p, pa) => PollerRouting(s, p, pa, s');
    case HandlerAction(h, ha) => HandlerStepRouting(s, h, ha, s');
    case BeatAction(b, ba) => BeatStepRouting(s, b, ba, s');
    case RpcAction(t, o) => RpcStepRouting(s, t, o, s');
    case GcAction(ga) => GcStepRouting(s, ga, s');
    case _ => OtherStepRouting(s, a, s');
  }

  lemma {:induction false} ReachableRouting(cfg: Config, now: int, acts: seq<Action>, s: State)
    requires UniqueNames(cfg.instances) && Reaches(cfg, now, acts, s)
    ensures RoutingInv(s)
    decreases |acts|
  {
    if |acts| > 0 {
      var n := |acts| - 1;
      var prev := Exec(Init(cfg, now), acts[..n]).value;
      ReachableRouting(cfg, now, acts[..n], prev);
      ReachableConfig(cfg, now, acts[..n], prev);
      StepRouting(prev, acts[n], s);
    }
  }

  /** Whatever is sent through client `i` - a failure report, a heartbeat, a relayed
      UpdateTask or UpdateLog - carries a task id that poller `i` fetched. */
  lemma ReportsReachOwner(cfg: Config, now: int, acts: seq<Action>, s: State, client: nat, id: int)
    requires UniqueNames(cfg.instances) && Reaches(cfg, now, acts, s) && (client, id) in s.w.sent
    ensures (client, id) in s.w.fetched
  {
    ReachableRouting(cfg, now, acts, s);
  }

  /** No HandleTask ever drops its task for want of an instance. */
  lemma EveryTaskResolves(cfg: Config, now: int, acts: seq<Action>, s: State, h: Thread)
    requires UniqueNames(cfg.instances) && Reaches(cfg, now, acts, s)
    requires h in s.handlers && s.handlers[h].pc.Resolving?
    ensures s.handlers[h].task < |s.w.heap|
    ensures HandlerNext(s.cfg, s.shutdown, s.w.heap[s.handlers[h].task], Resolving, DoResolve)
         == Some(Triggering(s.w.heap[s.handlers[h].task].poller))
  {
    ReachableRouting(cfg, now, acts, s);
    ReachableConfig(cfg, now, acts, s);
    ResolveUnique(cfg.instances, s.w.heap[s.handlers[h].task].poller);
  }

  // ---- registration tokens lead to the task they were minted for ----

  ghost predicate Minted(w: World, tok: string, r: Ref) {
    r < |w.heap| && w.heap[r].regToken == tok
  }

  /** Every index entry leads to the task minted with that token. */
  ghost predicate IndexMatches(w: World) {
    forall tok :: tok in w.store.byReg ==>
      w.store.byReg[tok] in w.store.tasks && Minted(w, tok, w.store.tasks[w.store.byReg[tok]])
  }

  ghost predicate RpcMatches(w: World, rpc: Rpc) {
    rpc.Checking? || rpc.Consuming? || rpc.Creating? ==> Minted(w, rpc.token, rpc.task)
  }

  ghost predicate MatchInv(s: State) {
    && IndexMatches(s.w)
    && (forall t :: t in s.rpcs ==> RpcMatches(s.w, s.rpcs[t]))
    && (forall i :: 0 <= i < |s.w.births| ==> Minted(s.w, s.w.births[i].regToken, s.w.births[i].task))
  }

  /** No unconsumed registration token leads to this task id. */
  predicate IdFree(w: World, id: int) {
    forall tok :: tok in w.store.byReg ==> w.store.byReg[tok] != id
  }

  /** Exactly when storing a fetched task keeps the index right. */
  lemma FetchKeepsIndexIff(inst: Instance, w: World, p: nat, id: int, tok: string, createdAt: int)
    requires IndexMatches(w) && tok !in w.minted && (forall t :: t in w.store.byReg ==> t in w.minted)
    ensures IndexMatches(PollerWorld(inst, w, p, Fetching, Fetch(id, tok, createdAt))) <==> IdFree(w, id)
  {
    var w' := PollerWorld(inst, w, p, Fetching, Fetch(id, tok, createdAt));
    if !IdFree(w, id) {
      var t :| t in w.store.byReg && w.store.byReg[t] == id;
      assert t in w'.store.byReg && w'.store.tasks[id] == |w.heap|;
      assert w'.heap[|w.heap|].regToken == tok != t;
    } else {
      forall t | t in w'.store.byReg
        ensures w'.store.byReg[t] in w'.store.tasks && Minted(w', t, w'.store.tasks[w'.store.byReg[t]])
      {
        if t != tok {
          assert t in w.store.byReg;
        }
      }
    }
  }

  /** The ids of stored tasks being distinct from the fetched one is enough. */
  lemma UnstoredIdIsFree(w: World, id: int)
    requires IndexMatches(w) && id !in w.store.tasks
    ensures IdFree(w, id)
  {
  }

  ghost predicate FetchSafe(s: State, a: Action) {
    a.PollerAction? && a.pact.Fetch? ==> IdFree(s.w, a.pact.id)
  }

  /** Along the run no fetched id is one that an unconsumed token still leads to. */
  ghost predicate FetchesSafe(s: State, acts: seq<Action>)
    decreases |acts|
  {
    |acts| > 0 ==>
      && FetchesSafe(s, acts[..|acts| - 1])
      && (Exec(s, acts[..|acts| - 1]).Some? ==>
            FetchSafe(Exec(s, acts[..|acts| - 1]).value, acts[|acts| - 1]))
  }

  /** No RPC step touches a task's registration token, and none makes a token claimable. */
  lemma RpcKeepsMints(cfg: Config, w: World, rpc: Rpc, o: Oracle)
    requires ValidRpc(rpc, w)
    ensures var w' := RpcWorld(cfg, w, rpc, o);
      && |w'.heap| == |w.heap| && (forall r: Ref :: r < |w.heap| ==> w'.heap[r].regToken == w.heap[r].regToken)
      && (forall tok :: tok in w'.store.byReg ==> tok in w.store.byReg && w'.store.byReg[tok] == w.store.byReg[tok])
      && (forall tok :: tok in w'.store.byReg && w.store.byReg[tok] in w.store.tasks ==>
            w.store.byReg[tok] in w'.store.tasks
                && w'.store.tasks[w.store.byReg[tok]] == w.store.tasks[w.store.byReg[tok]])
  {
  }

  /** A thread that finds a task by token finds the one it was minted for; a new session
      inherits its ticket's match. */
  lemma RpcFindsMinted(cfg: Config, w: World, rpc: Rpc, o: Oracle)
    requires ValidRpc(rpc, w) && RpcNext(cfg, w, rpc, o).Some? && IndexMatches(w) && RpcMatches(w, rpc)
    ensures RpcMatches(w, RpcNext(cfg, w, rpc, o).value)
    ensures var w' := RpcWorld(cfg, w, rpc, o);
      || w'.births == w.births
      || (RpcMatches(w, rpc) && rpc.Creating? && |w'.births| == |w.births| + 1 && w.births <= w'.births
          && w'.births[|w.births|].regToken == rpc.token && w'.births[|w.births|].task == rpc.task)
  {
  }

  /** Steps that create no task keep every match. */
  lemma RpcMatch(cfg: Config, w: World, rpc: Rpc, o: Oracle, w': World)
    requires ValidRpc(rpc, w) && RpcNext(cfg, w, rpc, o).Some? && IndexMatches(w) && RpcMatches(w, rpc)
    requires forall i :: 0 <= i < |w.births| ==> Minted(w, w.births[i].regToken, w.births[i].task)
    requires w' == RpcWorld(cfg, w, rpc, o)
    ensures IndexMatches(w') && RpcMatches(w', RpcNext(cfg, w, rpc, o).value)
    ensures forall i :: 0 <= i < |w'.births| ==> Minted(w', w'.births[i].regToken, w'.births[i].task)
    ensures forall tok, r: Ref :: Minted(w, tok, r) ==> Minted(w', tok, r)
  {
    RpcKeepsMints(cfg, w, rpc, o);
    RpcFindsMinted(cfg, w, rpc, o);
  }

  lemma PollerMatch(s: State, p: nat, a: PollerAct, s': State)
    requires TokenInv(s) && MatchInv(s) && PollerStep(s, p, a) == Some(s')
    requires a.Fetch? ==> IdFree(s.w, a.id)
    ensures MatchInv(s')
  {
    if a.Fetch? {
      FetchKeepsIndexIff(s.cfg.instances[p], s.w, p, a.id, a.regToken, a.createdAt);
    }
  }

  lemma RpcStepMatch(s: State, t: Thread, o: Oracle, s': State)
    requires MatchInv(s) && RpcStep(s, t, o) == Some(s')
    ensures MatchInv(s')
  {
    RpcMatch(s.cfg, s.w, s.rpcs[t], o, s'.w);
  }

  lemma HandlerMatch(s: State, h: Thread, a: HandlerAct, s': State)
    requires MatchInv(s) && HandlerStep(s, h, a) == Some(s')
    ensures MatchInv(s')
  {
  }

  lemma GcMatch(s: State, a: GcAct, s': State)
    requires MatchInv(s) && GcStep(s, a) == Some(s')
    ensures MatchInv(s')
  {
  }

  lemma BeatMatch(s: State, b: Thread, a: BeatAct, s': State)
    requires MatchInv(s) && BeatStep(s, b, a) == Some(s')
    ensures MatchInv(s')
  {
  }

  lemma OtherMatch(s: State, a: Action, s': State)
    requires MatchInv(s) && Step(s, a) == Some(s')
    requires a.DispatcherAction? || a.BeatAction? || a.RpcStart? || a.Elapse? || a.Shutdown?
    ensures MatchInv(s')
  {
    match a
    case BeatAction(b, ba) => BeatMatch(s, b, ba, s');
    case DispatcherAction(da) =>
    case _ =>
  }

  lemma StepMatch(s: State, a: Action, s': State)
    requires TokenInv(s) && MatchInv(s) && FetchSafe(s, a) && Step(s, a) == Some(s')
    ensures MatchInv(s')
  {
    match a
    case PollerAction(p, pa) => PollerMatch(s, p, pa, s');
    case HandlerAction(h, ha) => HandlerMatch(s, h, ha, s');
    case RpcAction(t, o) => RpcStepMatch(s, t, o, s');
    case GcAction(ga) => GcMatch(s, ga, s');
    case _ => OtherMatch(s, a, s');
  }

  lemma {:induction false} ReachableMatch(cfg: Config, now: int, acts: seq<Action>, s: State)
    requires Reaches(cfg, now, acts, s) && FetchesSafe(Init(cfg, now), acts)
    ensures MatchInv(s)
    decreases |acts|
  {
    if |acts| > 0 {
      var n := |acts| - 1;
      var prev := Exec(Init(cfg, now), acts[..n]).value;
      ReachableMatch(cfg, now, acts[..n], prev);
      ReachableTokens(cfg, now, acts[..n], prev);
      StepMatch(prev, acts[n], s);
    }
  }

  /** Every RPC accepted with a key acts on the task whose registration token paid for that
      key, and no task ever gets a second session. */
  lemma SessionsActOnOwnTask(cfg: Config, now: int, acts: seq<Action>, s: State)
    requires Reaches(cfg, now, acts, s) && FetchesSafe(Init(cfg, now), acts)
    ensures forall t :: t in s.rpcs && (s.rpcs[t].Authenticated? || s.rpcs[t].Finishing?) ==>
              exists i :: 0 <= i < |s.w.births| && s.w.births[i].key == s.rpcs[t].key
                && s.w.births[i].task == s.rpcs[t].task && Minted(s.w, s.w.births[i].regToken, s.rpcs[t].task)
    ensures forall i, j :: 0 <= i < j < |s.w.births| ==> s.w.births[i].task != s.w.births[j].task
  {
    ReachableMatch(cfg, now, acts, s);
    ReachableTokens(cfg, now, acts, s);
    forall t | t in s.rpcs && (s.rpcs[t].Authenticated? || s.rpcs[t].Finishing?)
      ensures exists i :: 0 <= i < |s.w.births| && s.w.births[i].key == s.rpcs[t].key
                && s.w.births[i].task == s.rpcs[t].task && Minted(s.w, s.w.births[i].regToken, s.rpcs[t].task)
    {
      assert RpcInv(s.w, s.rpcs[t]);
      var i :| 0 <= i < |s.w.births| && s.w.births[i].key == s.rpcs[t].key && s.w.births[i].task == s.rpcs[t].task;
    }
  }

  // ---- what goes wrong when two live tasks share an id ----

  lemma ExecSnoc(s: State, acts: seq<Action>, s1: State, a: Action, s2: State)
    requires Exec(s, acts) == Some(s1) && Step(s1, a) == Some(s2)
    ensures Exec(s, acts + [a]) == Some(s2)
  {
    assert (acts + [a])[..|acts|] == acts;
  }

  function TokenOf(c: char, n: nat): (tok: string)
    ensures |tok| == n && (n > 0 ==> tok[0] == c)
  {
    seq(n, _ => c)
  }

  lemma Do(s0: State, acts: seq<Action>, s: State, a: Action) returns (acts': seq<Action>, s': State)
    requires Exec(s0, acts) == Some(s) && Step(s, a).Some?
    ensures acts' == acts + [a] && Some(s') == Step(s, a) && Exec(s0, acts') == Some(s')
    ensures acts'[..|acts'| - 1] == acts && acts'[|acts'| - 1] == a
  {
    acts', s' := acts + [a], Step(s, a).value;
    ExecSnoc(s0, acts, s, a, s');
  }

  lemma DoRpc(s0: State, acts: seq<Action>, s: State, t: Thread, o: Oracle) returns (acts': seq<Action>, s': State)
    requires Exec(s0, acts) == Some(s) && t in s.rpcs && ValidRpc(s.rpcs[t], s.w)
    requires RpcNext(s.cfg, s.w, s.rpcs[t], o).Some?
    ensures acts <= acts' && Exec(s0, acts') == Some(s')
    ensures s'.cfg == s.cfg && t in s'.rpcs && s'.rpcs[t] == RpcNext(s.cfg, s.w, s.rpcs[t], o).value
    ensures s'.w == RpcWorld(s.cfg, s.w, s.rpcs[t], o)
  {
    acts', s' := Do(s0, acts, s, RpcAction(t, o));
  }

  /** The stages of such a Register up to the creation of its session. */
  lemma RegisterStages(cfg: Config, w: World, tok: string, r: Ref, o: Oracle)
    requires w.store.Find(tok) == Some(r) && r < |w.heap| && !RegTokenExpired(w.heap[r], w.now)
    requires |o.freshKey| == SESSION_TOKEN_CHARS && o.freshKey !in w.minted
    ensures RpcNext(cfg, w, Finding(tok, Explicit), o) == Some(Checking(tok, r, Explicit))
    ensures RpcNext(cfg, w, Checking(tok, r, Explicit), o) == Some(Consuming(tok, r, Explicit))
    ensures RpcNext(cfg, w, Consuming(tok, r, Explicit), o) == Some(Creating(tok, r, Explicit))
    ensures RpcWorld(cfg, w, Finding(tok, Explicit), o) == w == RpcWorld(cfg, w, Checking(tok, r, Explicit), o)
    ensures var w1 := RpcWorld(cfg, w, Consuming(tok, r, Explicit), o);
      && w1 == w.(store := w.store.Consume(tok))
      && RpcNext(cfg, w1, Creating(tok, r, Explicit), o) == Some(Linking(tok, r, o.freshKey, Explicit))
      && RpcWorld(cfg, w1, Creating(tok, r, Explicit), o)
           == w1.(sessions := Insert(w.sessions, o.freshKey, r, w.now), minted := w.minted + {o.freshKey},
                  births := w.births + [Birth(tok, o.freshKey, r)])
  {
  }

  /** A Register call that presents a live, unexpired, unconsumed token and is not
      interrupted opens a session on whatever task the index leads to. */
  lemma RegisterUninterrupted(s0: State, acts: seq<Action>, s: State, tok: string, r: Ref, key: string)
    returns (acts': seq<Action>, s': State)
    requires Exec(s0, acts) == Some(s) && s.w.store.Find(tok) == Some(r) && r < |s.w.heap|
    requires !RegTokenExpired(s.w.heap[r], s.w.now)
    requires |key| == SESSION_TOKEN_CHARS && key !in s.w.minted
    ensures acts <= acts' && Exec(s0, acts') == Some(s')
    ensures s'.w.births == s.w.births + [Birth(tok, key, r)] && s'.w.heap == s.w.heap
    ensures key in s'.w.sessions && s'.w.sessions[key].task == r && tok !in s'.w.store.byReg
  {
    var t, o := s.next, Oracle(key, true);
    RegisterStages(s.cfg, s.w, tok, r, o);
    acts', s' := Do(s0, acts, s, RpcStart(Finding(tok, Explicit)));
    acts', s' := DoRpc(s0, acts', s', t, o);
    acts', s' := DoRpc(s0, acts', s', t, o);
    acts', s' := DoRpc(s0, acts', s', t, o);
    acts', s' := DoRpc(s0, acts', s', t, o);
  }

  /** In any reachable state the tokens in the index have been handed out. */
  lemma IndexMinted(cfg: Config, now: int, acts: seq<Action>, s: State)
    requires Reaches(cfg, now, acts, s)
    ensures forall tok :: tok in s.w.store.byReg ==> tok in s.w.minted
  {
    ReachableTokens(cfg, now, acts, s);
  }

  /** The world right after a fetch whose id an unconsumed token already leads to. */
  lemma FetchTakesToken(inst: Instance, w: World, p: nat, id: int, tok: string, createdAt: int, other: string)
    requires other in w.store.byReg && w.store.byReg[other] == id && other != tok
    ensures var w' := PollerWorld(inst, w, p, Fetching, Fetch(id, tok, createdAt));
      && w'.store.Find(other) == Some(|w.heap|) && |w'.heap| == |w.heap| + 1 && w'.now == w.now
      && w'.heap[|w.heap|].regToken == tok && w'.heap[|w.heap|].ttl == inst.regTokenTtl
      && w'.heap[|w.heap|].createdAt == createdAt && w'.minted == w.minted + {tok}
  {
  }

  /** The condition is needed in every run: wherever a fetch is enabled that is not safe and
      whose task can still register, the run goes on to open a session on that task with a
      token minted for another. */
  lemma UnsafeFetchMisroutes(cfg: Config, now: int, acts: seq<Action>, s: State, p: nat, id: int, tok: string,
                             createdAt: int, key: string)
    returns (acts': seq<Action>, s': State, b: Birth)
    requires Reaches(cfg, now, acts, s) && p < |s.pollers| == |cfg.instances| && s.pollers[p].Fetching?
    requires |tok| == REG_TOKEN_CHARS && tok !in s.w.minted && createdAt <= s.w.now && !IdFree(s.w, id)
    requires s.w.now - createdAt <= cfg.instances[p].regTokenTtl
    requires |key| == SESSION_TOKEN_CHARS && key !in s.w.minted
    ensures acts + [PollerAction(p, Fetch(id, tok, createdAt))] <= acts' && Reaches(cfg, now, acts', s')
    ensures b in s'.w.births && b.task < |s'.w.heap| && !Minted(s'.w, b.regToken, b.task)
  {
    IndexMinted(cfg, now, acts, s);
    ReachableConfig(cfg, now, acts, s);
    var other :| other in s.w.store.byReg && s.w.store.byReg[other] == id;
    var r := |s.w.heap|;
    FetchTakesToken(cfg.instances[p], s.w, p, id, tok, createdAt, other);
    var acts1, s1 := Do(Init(cfg, now), acts, s, PollerAction(p, Fetch(id, tok, createdAt)));
    acts', s' := RegisterUninterrupted(Init(cfg, now), acts1, s1, other, r, key);
    b := Birth(other, key, r);
    assert s'.w.births[|s1.w.births|] == b;
  }

  // ---- distinct live ids are enough ----

  /** Along the run no fetched id is that of a task still stored. */
  ghost predicate LiveIdsDistinct(s: State, acts: seq<Action>)
    decreases |acts|
  {
    |acts| > 0 ==>
      var prefix, a := acts[..|acts| - 1], acts[|acts| - 1];
      && LiveIdsDistinct(s, prefix)
      && (a.PollerAction? && a.pact.Fetch? && Exec(s, prefix).Some? ==>
            a.pact.id !in Exec(s, prefix).value.w.store.tasks)
  }

  lemma {:induction false} DistinctIdsAreSafe(cfg: Config, now: int, acts: seq<Action>)
    requires LiveIdsDistinct(Init(cfg, now), acts) && Exec(Init(cfg, now), acts).Some?
    ensures FetchesSafe(Init(cfg, now), acts)
    decreases |acts|
  {
    if |acts| > 0 {
      var prefix, a := acts[..|acts| - 1], acts[|acts| - 1];
      DistinctIdsAreSafe(cfg, now, prefix);
      var s := Exec(Init(cfg, now), prefix).value;
      ReachableMatch(cfg, now, prefix, s);
      if a.PollerAction? && a.pact.Fetch? {
        UnstoredIdIsFree(s.w, a.pact.id);
      }
    }
  }

  function SharedIdConfig(): Config {
    Config([Instance("a", 900), Instance("b", 900)], 2, 1800)
  }

  lemma TwoFetches(t0: string, t1: string) returns (acts: seq<Action>, s: State)
    requires |t0| == |t1| == REG_TOKEN_CHARS && t0 != t1
    ensures Reaches(SharedIdConfig(), 0, acts, s) && !FetchesSafe(Init(SharedIdConfig(), 0), acts)
    ensures s.w.births == [] && s.w.minted == {t0, t1} && s.w.now == 0
    ensures s.w.heap == [Task(7, "a", t0, 900, 0, Pending, "", false, false, 0),
                         Task(7, "b", t1, 900, 0, Pending, "", false, false, 1)]
    ensures s.w.store.Find(t0) == Some(1)
  {
    var s0 := Init(SharedIdConfig(), 0);
    acts, s := [], s0;
    acts, s := Do(s0, acts, s, PollerAction(0, Acquire));
    acts, s := Do(s0, acts, s, PollerAction(1, Acquire));
    acts, s := Do(s0, acts, s, PollerAction(0, Fetch(7, t0, 0)));
    assert t0 in s.w.store.byReg && s.w.store.byReg[t0] == 7;
    acts, s := Do(s0, acts, s, PollerAction(1, Fetch(7, t1, 0)));
  }

  lemma {:induction false} UnsafePrefix(s: State, a1: seq<Action>, a2: seq<Action>)
    requires a1 <= a2 && FetchesSafe(s, a2)
    ensures FetchesSafe(s, a1)
    decreases |a2|
  {
    if |a1| == |a2| {
      assert a1 == a2;
    } else {
      UnsafePrefix(s, a1, a2[..|a2| - 1]);
    }
  }

  /** Two instances hand out the same id; the token minted for the first task then opens a
      session on the second instance's task. */
  lemma SharedIdWitness() returns (acts: seq<Action>, s: State)
    ensures UniqueNames(SharedIdConfig().instances) && Reaches(SharedIdConfig(), 0, acts, s)
    ensures !FetchesSafe(Init(SharedIdConfig(), 0), acts)
    ensures |s.w.births| == 1 && |s.w.heap| == 2
    ensures var b := s.w.births[0];
      s.w.heap[0].regToken == b.regToken && b.task == 1 && s.w.heap[1].instance != s.w.heap[0].instance
  {
    var t0, t1, key := TokenOf('0', REG_TOKEN_CHARS), TokenOf('1', REG_TOKEN_CHARS), TokenOf('2', SESSION_TOKEN_CHARS);
    var before, s1 := TwoFetches(t0, t1);
    acts, s := RegisterUninterrupted(Init(SharedIdConfig(), 0), before, s1, t0, 1, key);
    if FetchesSafe(Init(SharedIdConfig(), 0), acts) {
      UnsafePrefix(Init(SharedIdConfig(), 0), before, acts);
    }
  }
}
