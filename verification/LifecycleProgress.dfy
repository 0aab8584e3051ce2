/** No thread of the daemon gets stuck: what each of them can do on its own
    (internal/run/runner.go, internal/north/poller.go, internal/south/handler.go,
    internal/app/app.go). */
module LifecycleProgress {
  import opened Wrappers
  import opened Lifecycle
  import opened LifecycleTokens
  import opened LifecycleSlots
  import opened LifecycleCustody

  lemma ExecOne(s: State, a: Action)
    ensures Exec(s, [a]) == Step(s, a)
  {
    assert [a][..0] == [];
    assert Exec(s, []) == Some(s);
  }

  lemma {:induction false} ExecThen(s: State, acts: seq<Action>, s1: State, more: seq<Action>)
    requires Exec(s, acts) == Some(s1)
    ensures Exec(s, acts + more) == Exec(s1, more)
    decreases |more|
  {
    if more == [] {
      assert acts + more == acts;
    } else {
      ExecThen(s, acts, s1, more[..|more| - 1]);
      assert (acts + more)[..|acts + more| - 1] == acts + more[..|more| - 1];
    }
  }

  lemma First(s: State, a: Action, s1: State, more: seq<Action>)
    requires Step(s, a) == Some(s1)
    ensures Exec(s, [a] + more) == Exec(s1, more)
  {
    ExecOne(s, a);
    ExecThen(s, [a], s1, more);
  }

  // ---- HandleTask ----

  predicate OwnSteps(acts: seq<Action>, h: Thread) {
    forall i :: 0 <= i < |acts| ==> acts[i].HandlerAction? && acts[i].h == h
  }

  lemma {:induction false} LeavingReturns(s: State, h: Thread) returns (acts: seq<Action>, s': State)
    requires h in s.handlers && s.handlers[h].task < |s.w.heap| && s.handlers[h].pc.Leaving?
    ensures OwnSteps(acts, h) && Exec(s, acts) == Some(s') && h in s'.handlers && Returned(s'.handlers[h].pc)
    decreases |s.handlers[h].pc.ops|
  {
    if s.handlers[h].pc.ops == [] {
      acts, s' := [], s;
    } else {
      var s1 := Step(s, HandlerAction(h, DoOp)).value;
      var more;
      more, s' := LeavingReturns(s1, h);
      acts := [HandlerAction(h, DoOp)] + more;
      First(s, HandlerAction(h, DoOp), s1, more);
    }
  }

  /** What HandleTask can do next where it is not waiting for its runner. */
  function Ahead(cfg: Config, t: Task, pc: HandlerPc): HandlerAct {
    match pc
    case Resolving => DoResolve
    case Triggering(_) => TriggerFail
    case Dispatching(_) => MarkDispatched
    case AwaitRegistration(_) => SeeTimeout
    case Probing => Probe
    case AwaitDone => if t.done then SeeDone else SeeShutdown
    case Leaving(_, _) => DoOp
  }

  function Distance(pc: HandlerPc): nat {
    match pc
    case Resolving => 4
    case Triggering(_) => 3
    case Dispatching(_) => 2
    case Leaving(_, _) => 0
    case _ => 1
  }

  lemma StepAhead(s: State, h: Thread) returns (s': State)
    requires h in s.handlers && s.handlers[h].task < |s.w.heap| && !s.handlers[h].pc.Leaving?
    requires s.handlers[h].pc.AwaitDone? ==> s.w.heap[s.handlers[h].task].done || s.shutdown
    ensures Step(s, HandlerAction(h, Ahead(s.cfg, s.w.heap[s.handlers[h].task], s.handlers[h].pc))) == Some(s')
    ensures h in s'.handlers && s'.handlers[h].task == s.handlers[h].task && |s'.w.heap| == |s.w.heap|
    ensures Distance(s'.handlers[h].pc) < Distance(s.handlers[h].pc) && !s'.handlers[h].pc.AwaitDone?
  {
    s' := Step(s, HandlerAction(h, Ahead(s.cfg, s.w.heap[s.handlers[h].task], s.handlers[h].pc))).value;
  }

  /** From every state HandleTask can return by steps of its own, unless it waits for a
      registered runner of a task that is not done, with the daemon running. */
  lemma {:induction false} HandlerCanReturn(s: State, h: Thread) returns (acts: seq<Action>, s': State)
    requires h in s.handlers && s.handlers[h].task < |s.w.heap|
    requires s.handlers[h].pc.AwaitDone? ==> s.w.heap[s.handlers[h].task].done || s.shutdown
    ensures OwnSteps(acts, h) && Exec(s, acts) == Some(s') && h in s'.handlers && Returned(s'.handlers[h].pc)
    decreases Distance(s.handlers[h].pc)
  {
    if s.handlers[h].pc.Leaving? {
      acts, s' := LeavingReturns(s, h);
    } else {
      var a := HandlerAction(h, Ahead(s.cfg, s.w.heap[s.handlers[h].task], s.handlers[h].pc));
      var s1 := StepAhead(s, h);
      var more;
      more, s' := HandlerCanReturn(s1, h);
      acts := [a] + more;
      First(s, a, s1, more);
    }
  }

  /** And that is exactly when it cannot move at all. */
  lemma HandlerStuckIff(s: State, h: Thread)
    requires h in s.handlers && s.handlers[h].task < |s.w.heap| && !Returned(s.handlers[h].pc)
    ensures (forall a :: Step(s, HandlerAction(h, a)).None?) <==>
            s.handlers[h].pc.AwaitDone? && !s.w.heap[s.handlers[h].task].done && !s.shutdown
  {
    var pc := s.handlers[h].pc;
    if pc.Leaving? {
      assert Step(s, HandlerAction(h, DoOp)).Some?;
    } else if !(pc.AwaitDone? && !s.w.heap[s.handlers[h].task].done && !s.shutdown) {
      var s' := StepAhead(s, h);
    }
  }

  // ---- pollers and the dispatcher ----

  /** A poller that has not stopped is never stuck but in front of a full pool: a round that
      has a slot can end, a task can always be sent, a pause can end. */
  lemma PollerMoves(cfg: Config, now: int, acts: seq<Action>, s: State, p: nat)
    requires Reaches(cfg, now, acts, s) && p < |s.pollers|
    ensures s.pollers[p].Acquiring? ==>
              (Step(s, PollerAction(p, Acquire)).Some? <==> s.used < cfg.capacity)
              && (Step(s, PollerAction(p, GiveUp)).Some? <==> s.shutdown)
    ensures s.pollers[p].Fetching? ==>
              Step(s, PollerAction(p, FetchNothing)).Some?
              && Step(s, PollerAction(p, FetchNothing)).value.pollers[p].Pausing?
    ensures s.pollers[p].Sending? ==>
              Step(s, PollerAction(p, Send)).Some? && Step(s, PollerAction(p, Send)).value.pollers[p].Acquiring?
    ensures s.pollers[p].Pausing? ==>
              Step(s, PollerAction(p, Wake)).Some? && Step(s, PollerAction(p, Wake)).value.pollers[p].Acquiring?
  {
    ReachableConfig(cfg, now, acts, s);
    SlotConservation(cfg, now, acts, s);
  }

  /** A queued task can always be taken up and its HandleTask started. */
  lemma DispatcherMoves(s: State)
    ensures s.dispatcher.None? && s.channel != [] ==> Step(s, DispatcherAction(Receive)).Some?
    ensures s.dispatcher.Some? ==> Step(s, DispatcherAction(Spawn)).Some?
  {
  }

  // ---- southbound calls ----

  function CallDistance(rpc: Rpc): nat {
    match rpc
    case LookingUp(_, _) => 14
    case Touching(_, _, _) => 12
    case Finding(_, _) => 13
    case Checking(_, _, _) => 12
    case Consuming(_, _, _) => 11
    case Creating(_, _, _) => 10
    case Linking(_, _, _, _) => 9
    case Refreshing(_, _, _, _) => 8
    case Registering(_, _, _, _) => 7
    case Authenticated(_, _, _) => 6
    case Finishing(_, _, stage) =>
      (match stage case SetTerminal => 4 case CloseDone => 3 case EndSession => 2 case Unstore => 1)
    case _ => 0
  }

  lemma CallStep(cfg: Config, w: World, rpc: Rpc, o: Oracle)
    requires WorldRefs(w) && ValidRpc(rpc, w) && CallDistance(rpc) > 0
    requires |o.freshKey| == SESSION_TOKEN_CHARS && o.freshKey !in w.minted
    ensures RpcNext(cfg, w, rpc, o).Some? && CallDistance(RpcNext(cfg, w, rpc, o).value) < CallDistance(rpc)
  {
  }

  /** Every southbound call that has not been answered has a next step, whatever the other
      threads have done, and each step brings it closer to its answer. */
  lemma CallsMove(cfg: Config, now: int, acts: seq<Action>, s: State, t: Thread, o: Oracle)
    requires Reaches(cfg, now, acts, s) && t in s.rpcs && !s.rpcs[t].Accepted? && !s.rpcs[t].Rejected?
    requires |o.freshKey| == SESSION_TOKEN_CHARS && o.freshKey !in s.w.minted
    ensures Step(s, RpcAction(t, o)).Some?
    ensures CallDistance(Step(s, RpcAction(t, o)).value.rpcs[t]) < CallDistance(s.rpcs[t])
  {
    ReachableCustody(cfg, now, acts, s);
    CallStep(s.cfg, s.w, s.rpcs[t], o);
  }

  // ---- the GC loop ----

  predicate GcSteps(acts: seq<Action>) {
    forall i :: 0 <= i < |acts| ==> acts[i].GcAction?
  }

  /** What the collector has scanned is allocated. */
  predicate ScanInv(w: World, gc: Gc) {
    gc.Inspecting? ==> forall id :: id in gc.scanned ==> gc.scanned[id] < |w.heap|
  }

  lemma StepScan(s: State, a: Action, s': State)
    requires RefsInv(s) && ScanInv(s.w, s.gc) && Step(s, a) == Some(s') && |s.w.heap| <= |s'.w.heap|
    ensures ScanInv(s'.w, s'.gc)
  {
  }

  lemma {:induction false} ReachableScan(cfg: Config, now: int, acts: seq<Action>, s: State)
    requires Reaches(cfg, now, acts, s)
    ensures RefsInv(s) && ScanInv(s.w, s.gc)
    decreases |acts|
  {
    ReachableCustody(cfg, now, acts, s);
    if |acts| > 0 {
      var prev := Exec(Init(cfg, now), acts[..|acts| - 1]).value;
      ReachableScan(cfg, now, acts[..|acts| - 1], prev);
      ReachableTokens(cfg, now, acts[..|acts| - 1], prev);
      StepLater(prev, acts[|acts| - 1], s);
      StepScan(prev, acts[|acts| - 1], s);
    }
  }

  /** One orphan: reported, closed, removed. */
  lemma SweepOne(s: State, k: string) returns (s3: State)
    requires s.gc.Sweeping? && k in s.gc.todo && s.gc.todo[k] < |s.w.heap|
    ensures Exec(s, [GcAction(ReportOrphan(k))] + ([GcAction(Advance)] + [GcAction(Advance)])) == Some(s3)
    ensures s3.gc == Sweeping(s.gc.todo - {k}) && |s3.w.heap| == |s.w.heap|
  {
    var s1 := Step(s, GcAction(ReportOrphan(k))).value;
    var s2 := Step(s1, GcAction(Advance)).value;
    s3 := Step(s2, GcAction(Advance)).value;
    First(s, GcAction(ReportOrphan(k)), s1, [GcAction(Advance)] + [GcAction(Advance)]);
    First(s1, GcAction(Advance), s2, [GcAction(Advance)]);
    ExecOne(s2, GcAction(Advance));
  }

  lemma {:induction false} SweepEnds(s: State) returns (acts: seq<Action>, s': State)
    requires s.gc.Sweeping? && forall k :: k in s.gc.todo ==> s.gc.todo[k] < |s.w.heap|
    ensures GcSteps(acts) && Exec(s, acts) == Some(s') && s'.gc.Idle?
    decreases |s.gc.todo|
  {
    if s.gc.todo == map[] {
      acts, s' := [GcAction(Advance)], Step(s, GcAction(Advance)).value;
      ExecOne(s, GcAction(Advance));
    } else {
      var k :| k in s.gc.todo;
      var s3 := SweepOne(s, k);
      assert s3.gc.todo.Keys == s.gc.todo.Keys - {k};
      var one := [GcAction(ReportOrphan(k))] + ([GcAction(Advance)] + [GcAction(Advance)]);
      var more;
      more, s' := SweepEnds(s3);
      acts := one + more;
      ExecThen(s, one, s3, more);
    }
  }

  lemma ExpireStep(s: State) returns (s': State)
    requires s.gc.Expiring? && WorldRefs(s.w)
    ensures Step(s, GcAction(Advance)) == Some(s') && s'.gc.Sweeping?
    ensures forall k :: k in s'.gc.todo ==> s'.gc.todo[k] < |s'.w.heap|
  {
    s' := Step(s, GcAction(Advance)).value;
  }

  lemma ExpiryEnds(s: State) returns (acts: seq<Action>, s': State)
    requires s.gc.Expiring? && WorldRefs(s.w)
    ensures GcSteps(acts) && Exec(s, acts) == Some(s') && s'.gc.Idle?
  {
    var s1 := ExpireStep(s);
    var more;
    more, s' := SweepEnds(s1);
    acts := [GcAction(Advance)] + more;
    First(s, GcAction(Advance), s1, more);
  }

  lemma InspectStep(s: State, id: int) returns (s': State)
    requires s.gc.Inspecting? && ScanInv(s.w, s.gc) && id in s.gc.scanned
    ensures Step(s, GcAction(Inspect(id))) == Some(s') && s'.w == s.w
    ensures s'.gc.Inspecting? && s'.gc.scanned == s.gc.scanned - {id}
  {
    s' := Step(s, GcAction(Inspect(id))).value;
  }

  lemma SweptStep(s: State) returns (s': State)
    requires s.gc.Inspecting? && s.gc.scanned == map[] && WorldRefs(s.w)
    ensures Step(s, GcAction(Advance)) == Some(s') && s'.gc.Expiring? && WorldRefs(s'.w)
  {
    s' := Step(s, GcAction(Advance)).value;
  }

  lemma AnyOf<T>(from: set<T>) returns (x: T)
    requires from != {}
    ensures x in from
  {
    x :| x in from;
  }

  lemma {:induction false} InspectionEnds(s: State) returns (acts: seq<Action>, s': State)
    requires s.gc.Inspecting? && ScanInv(s.w, s.gc) && WorldRefs(s.w)
    ensures GcSteps(acts) && Exec(s, acts) == Some(s') && s'.gc.Idle?
    decreases |s.gc.scanned|
  {
    var a, s1, more;
    var ids := s.gc.scanned.Keys;
    if ids == {} {
      assert s.gc.scanned == map[];
      a := GcAction(Advance);
      s1 := SweptStep(s);
      more, s' := ExpiryEnds(s1);
    } else {
      var id := AnyOf(ids);
      a := GcAction(Inspect(id));
      s1 := InspectStep(s, id);
      assert s1.gc.scanned.Keys == s.gc.scanned.Keys - {id};
      more, s' := InspectionEnds(s1);
    }
    acts := [a] + more;
    First(s, a, s1, more);
  }

  lemma RemovingEnds(s: State) returns (acts: seq<Action>, s': State)
    requires s.gc.Removing? && forall r: Ref :: GcRemoves(s.gc, r) ==> r < |s.w.heap|
    ensures GcSteps(acts) && Exec(s, acts) == Some(s') && s'.gc.Idle?
  {
    assert GcRemoves(s.gc, s.gc.task) && forall k :: k in s.gc.todo ==> GcRemoves(s.gc, s.gc.todo[k]);
    var s1 := Step(s, GcAction(Advance)).value;
    var more;
    more, s' := SweepEnds(s1);
    acts := [GcAction(Advance)] + more;
    First(s, GcAction(Advance), s1, more);
  }

  lemma ClosingEnds(s: State) returns (acts: seq<Action>, s': State)
    requires s.gc.Closing? && forall r: Ref :: GcRemoves(s.gc, r) ==> r < |s.w.heap|
    ensures GcSteps(acts) && Exec(s, acts) == Some(s') && s'.gc.Idle?
  {
    assert GcRemoves(s.gc, s.gc.task);
    var s1 := Step(s, GcAction(Advance)).value;
    assert forall r: Ref :: GcRemoves(s1.gc, r) ==> GcRemoves(s.gc, r);
    var more;
    more, s' := RemovingEnds(s1);
    acts := [GcAction(Advance)] + more;
    First(s, GcAction(Advance), s1, more);
  }

  /** From every reachable state in which the GC loop has not ended, its pass can end by steps of
      its own, and then the next one can begin. */
  lemma GcPassEnds(cfg: Config, now: int, before: seq<Action>, s: State) returns (acts: seq<Action>, s': State)
    requires Reaches(cfg, now, before, s) && !s.gc.Finished?
    ensures GcSteps(acts) && Exec(s, acts) == Some(s') && s'.gc.Idle?
    ensures forall at :: at <= s'.w.now ==> Step(s', GcAction(Tick(at))).Some?
  {
    ReachableScan(cfg, now, before, s);
    match s.gc
    case Idle => acts, s' := [], s;
    case Inspecting(_, _, _) => acts, s' := InspectionEnds(s);
    case Expiring(_) => acts, s' := ExpiryEnds(s);
    case Sweeping(todo) =>
      assert forall k :: k in todo ==> GcRemoves(s.gc, todo[k]);
      acts, s' := SweepEnds(s);
    case Closing(_, _) => acts, s' := ClosingEnds(s);
    case Removing(_, _) => acts, s' := RemovingEnds(s);
  }

  /** Time can always pass, the shutdown signal can always come, and a call can always arrive. */
  lemma OutsideMoves(s: State, d: nat, rpc: Rpc)
    requires IsFirst(rpc)
    ensures Step(s, Elapse(d)) == Some(s.(w := s.w.(now := s.w.now + d)))
    ensures Step(s, Shutdown) == Some(s.(shutdown := true))
    ensures Step(s, RpcStart(rpc)).Some? && s.next in Step(s, RpcStart(rpc)).value.rpcs
  {
  }
}
