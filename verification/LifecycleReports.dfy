/** What GC, UpdateTask and the heartbeats tell the instances, and why threads stop
    (internal/app/app.go, internal/south/handler.go, internal/north/client.go). */
module LifecycleReports {
  import opened Wrappers
  import opened Lifecycle
  import opened LifecycleTokens
  import opened LifecycleRouting
  import opened LifecycleCustody
  import opened LifecycleDuties

  /** The instance task `r` came from has been told about it. */
  ghost predicate Told(w: World, r: Ref) {
    r < |w.heap| && (w.heap[r].poller, w.heap[r].id) in w.sent
  }

  // ---- expired sessions ----

  /** The orphan of session `k` is still to be reported and closed, or has been. */
  ghost predicate OrphanCare(w: World, gc: Gc, k: string, r: Ref) {
    && r < |w.heap|
    && (|| (Told(w, r) && w.heap[r].done)
        || (gc.Sweeping? && k in gc.todo && gc.todo[k] == r)
        || (gc.Closing? && ((k in gc.todo && gc.todo[k] == r) || (gc.task == r && Told(w, r))))
        || (gc.Removing? && k in gc.todo && gc.todo[k] == r))
  }

  lemma ToldPersists(w: World, w': World, r: Ref)
    requires Persists(w, w') && Told(w, r)
    ensures Told(w', r)
  {
  }

  lemma GcCares(cfg: Config, shutdown: bool, w: World, gc: Gc, a: GcAct, k: string, r: Ref)
    requires UniqueNames(cfg.instances) && GcNext(cfg, shutdown, w, gc, a).Some? && OrphanCare(w, gc, k, r)
    requires forall q: Ref :: q < |w.heap| ==> TaskRouted(cfg, w, w.heap[q])
    ensures OrphanCare(GcWorld(cfg, w, gc, a), GcNext(cfg, shutdown, w, gc, a).value, k, r)
  {
    GcPersists(cfg, w, gc, a);
    ResolveUnique(cfg.instances, w.heap[r].poller);
  }

  lemma OthersLeaveGc(s: State, a: Action, s': State)
    requires Step(s, a) == Some(s') && !a.GcAction?
    ensures s'.gc == s.gc
  {
  }

  lemma StepCares(s: State, a: Action, s': State, k: string, r: Ref)
    requires UniqueNames(s.cfg.instances) && TokenInv(s) && RoutingInv(s) && Step(s, a) == Some(s')
    requires OrphanCare(s.w, s.gc, k, r)
    ensures OrphanCare(s'.w, s'.gc, k, r)
  {
    if a.GcAction? {
      GcCares(s.cfg, s.shutdown, s.w, s.gc, a.gact, k, r);
    } else {
      StepPersists(s, a, s');
      OthersLeaveGc(s, a, s');
      if Told(s.w, r) {
        ToldPersists(s.w, s'.w, r);
      }
    }
  }

  lemma {:induction false} RunCares(s: State, after: seq<Action>, s': State, k: string, r: Ref)
    requires UniqueNames(s.cfg.instances) && TokenInv(s) && RoutingInv(s) && Exec(s, after) == Some(s')
    requires OrphanCare(s.w, s.gc, k, r)
    ensures s'.cfg == s.cfg && TokenInv(s') && RoutingInv(s') && OrphanCare(s'.w, s'.gc, k, r)
    decreases |after|
  {
    if |after| > 0 {
      var prev, a := Exec(s, after[..|after| - 1]).value, after[|after| - 1];
      RunCares(s, after[..|after| - 1], prev, k, r);
      StepCares(prev, a, s', k, r);
      StepTokens(prev, a, s');
      StepRouting(prev, a, s');
      StepConfig(prev, a, s');
    }
  }

  lemma OrphanBegins(s: State, s1: State, k: string)
    requires RefsInv(s) && s.gc.Expiring? && GcStep(s, Advance) == Some(s1)
    requires k in s.w.sessions && s.gc.at - s.w.sessions[k].lastActivity > s.cfg.maxAge
    ensures OrphanCare(s1.w, s1.gc, k, s.w.sessions[k].task) && s1.w.heap == s.w.heap
  {
  }

  /** Everything an invariant proof keeps from one state to the next. */
  ghost predicate AllInvs(s: State) {
    UniqueNames(s.cfg.instances) && CustodyInv(s) && RoutingInv(s)
  }

  lemma StepInvs(s: State, a: Action, s': State)
    requires AllInvs(s) && Step(s, a) == Some(s')
    ensures AllInvs(s') && s'.cfg == s.cfg
  {
    StepConfig(s, a, s');
    StepRouting(s, a, s');
    StepCustody(s, a, s');
  }

  lemma GcStepIsStep(s: State, a: GcAct)
    ensures Step(s, GcAction(a)) == GcStep(s, a)
  {
  }

  lemma ReachableInvs(cfg: Config, now: int, acts: seq<Action>, s: State)
    requires UniqueNames(cfg.instances) && Reaches(cfg, now, acts, s)
    ensures AllInvs(s) && s.cfg == cfg
  {
    ReachableConfig(cfg, now, acts, s);
    ReachableRouting(cfg, now, acts, s);
    ReachableCustody(cfg, now, acts, s);
  }

  lemma OrphanRun(s: State, s1: State, after: seq<Action>, s2: State, k: string, r: Ref)
    requires AllInvs(s) && GcStep(s, Advance) == Some(s1) && Exec(s1, after) == Some(s2)
    requires OrphanCare(s1.w, s1.gc, k, r)
    ensures CustodyInv(s2) && OrphanCare(s2.w, s2.gc, k, r)
  {
    GcStepIsStep(s, Advance);
    StepInvs(s, GcAction(Advance), s1);
    RunCares(s1, after, s2, k, r);
    CustodyRun(s1, after, s2);
  }

  lemma OrphanEnds(s: State, k: string, r: Ref)
    requires CustodyInv(s) && OrphanCare(s.w, s.gc, k, r) && s.gc.Idle?
    ensures Told(s.w, r) && s.w.heap[r].done
    ensures Stored(s.w, r) ==> RpcRemoves(s.rpcs, r) || HandlerRemoves(s.handlers, r)
  {
  }

  /** Every session an expiry pass takes has, when the pass is over, had its task reported to
      the instance it came from, forced done and removed, unless another thread is about to. */
  lemma OrphansAreReported(cfg: Config, now: int, before: seq<Action>, s: State, s1: State, after: seq<Action>,
      s2: State,
                           k: string)
    requires UniqueNames(cfg.instances) && Reaches(cfg, now, before, s) && s.gc.Expiring?
    requires GcStep(s, Advance) == Some(s1) && Exec(s1, after) == Some(s2) && s2.gc.Idle?
    requires k in s.w.sessions && s.gc.at - s.w.sessions[k].lastActivity > cfg.maxAge
    ensures var r := s.w.sessions[k].task;
      && Told(s2.w, r) && s2.w.heap[r].done
      && (Stored(s2.w, r) ==> RpcRemoves(s2.rpcs, r) || HandlerRemoves(s2.handlers, r))
  {
    ReachableInvs(cfg, now, before, s);
    OrphanBegins(s, s1, k);
    OrphanRun(s, s1, after, s2, k, s.w.sessions[k].task);
    OrphanEnds(s2, k, s.w.sessions[k].task);
  }

  // ---- terminal reports ----

  /** Where a thread is that has passed on a terminal report, and what it has done by then. */
  ghost predicate Finisher(w: World, rpc: Rpc, key: string, r: Ref) {
    && Told(w, r) && (rpc.Finishing? || rpc.Accepted?) && rpc.key == key
    && (rpc.Finishing? ==> rpc.task == r)
    && (rpc.Accepted? || rpc.stage.EndSession? || rpc.stage.Unstore? ==> w.heap[r].done)
    && (rpc.Accepted? || rpc.stage.Unstore? ==> key !in w.sessions)
    && (rpc.Accepted? ==> !Stored(w, r))
  }

  lemma OwnStepFinishes(cfg: Config, w: World, rpc: Rpc, o: Oracle, key: string, r: Ref)
    requires ValidRpc(rpc, w) && RpcNext(cfg, w, rpc, o).Some? && Finisher(w, rpc, key, r)
    ensures Finisher(RpcWorld(cfg, w, rpc, o), RpcNext(cfg, w, rpc, o).value, key, r)
  {
  }

  lemma OtherStepFinishes(s: State, a: Action, s': State, rpc: Rpc, key: string, r: Ref)
    requires TokenInv(s) && Step(s, a) == Some(s') && Finisher(s.w, rpc, key, r) && Born(s.w.births, key, r)
    ensures Finisher(s'.w, rpc, key, r)
  {
    StepPersists(s, a, s');
    if key !in s.w.sessions {
      OwnKeyStaysDead(s, a, s', key, r);
    }
  }

  lemma OtherRpcsStay(s: State, a: Action, s': State, t: Thread)
    requires Step(s, a) == Some(s') && t in s.rpcs && t < s.next && !(a.RpcAction? && a.t == t)
    ensures t in s'.rpcs && s'.rpcs[t] == s.rpcs[t]
  {
  }

  lemma StepFinishes(s: State, a: Action, s': State, t: Thread, key: string, r: Ref)
    requires TokenInv(s) && Step(s, a) == Some(s') && t in s.rpcs
    requires Finisher(s.w, s.rpcs[t], key, r) && Born(s.w.births, key, r)
    ensures t in s'.rpcs && Finisher(s'.w, s'.rpcs[t], key, r) && Born(s'.w.births, key, r)
  {
    BirthsGrow(s, a, s');
    BornGrows(s.w.births, s'.w.births, key, r);
    if a.RpcAction? && a.t == t {
      OwnStepFinishes(s.cfg, s.w, s.rpcs[t], a.o, key, r);
    } else {
      OtherRpcsStay(s, a, s', t);
      OtherStepFinishes(s, a, s', s.rpcs[t], key, r);
    }
  }

  lemma {:induction false} RunFinishes(s: State, after: seq<Action>, s': State, t: Thread, key: string, r: Ref)
    requires TokenInv(s) && Exec(s, after) == Some(s') && t in s.rpcs
    requires Finisher(s.w, s.rpcs[t], key, r) && Born(s.w.births, key, r)
    ensures t in s'.rpcs && Finisher(s'.w, s'.rpcs[t], key, r)
    ensures TokenInv(s') && Born(s'.w.births, key, r)
    decreases |after|
  {
    if |after| > 0 {
      var prev, a := Exec(s, after[..|after| - 1]).value, after[|after| - 1];
      RunFinishes(s, after[..|after| - 1], prev, t, key, r);
      StepTokens(prev, a, s');
      StepFinishes(prev, a, s', t, key, r);
    }
  }

  /** What an authenticated UpdateTask comes to: refused unless the id is the session's own task
      and the instance takes the report; a result that is not terminal changes nothing more. */
  lemma UpdateDecides(cfg: Config, now: int, acts: seq<Action>, s: State, t: Thread, o: Oracle, s': State)
    requires UniqueNames(cfg.instances) && Reaches(cfg, now, acts, s) && Step(s, RpcAction(t, o)) == Some(s')
    requires t in s.rpcs && s.rpcs[t].Authenticated? && s.rpcs[t].req.UpdateTask?
    ensures var rpc := s.rpcs[t]; var own := rpc.req.id == s.w.heap[rpc.task].id;
      && (own ==> Told(s'.w, rpc.task)) && (!own ==> s'.w == s.w)
      && (s'.rpcs[t].Rejected? <==> !own || !o.forwardOk)
      && (s'.rpcs[t].Finishing? <==> own && o.forwardOk && rpc.req.terminal)
      && s'.w.heap == s.w.heap && s'.w.store == s.w.store && s'.w.sessions == s.w.sessions
  {
    ReachableRouting(cfg, now, acts, s);
    ReachableConfig(cfg, now, acts, s);
    ResolveUnique(cfg.instances, s.w.heap[s.rpcs[t].task].poller);
  }

  /** An UpdateTask accepted with a terminal result has, when it returns, reported it to the
      instance the task came from, forced the task done, ended its session and removed it. */
  lemma TerminalReportCleansUp(cfg: Config, now: int, before: seq<Action>, s: State, t: Thread, o: Oracle, s1: State,
                               after: seq<Action>, s2: State)
    requires UniqueNames(cfg.instances) && Reaches(cfg, now, before, s) && Step(s, RpcAction(t, o)) == Some(s1)
    requires t in s.rpcs && s.rpcs[t].Authenticated? && s.rpcs[t].req.UpdateTask? && s1.rpcs[t].Finishing?
    requires Exec(s1, after) == Some(s2) && t in s2.rpcs && s2.rpcs[t].Accepted?
    ensures var r := s.rpcs[t].task;
      Told(s2.w, r) && s2.w.heap[r].done && s.rpcs[t].key !in s2.w.sessions && !Stored(s2.w, r)
  {
    UpdateDecides(cfg, now, before, s, t, o, s1);
    ReachableTokens(cfg, now, before, s);
    assert RpcInv(s.w, s.rpcs[t]);
    StepTokens(s, RpcAction(t, o), s1);
    RunFinishes(s1, after, s2, t, s.rpcs[t].key, s.rpcs[t].task);
  }

  // ---- heartbeats ----

  predicate Waiting(pc: HandlerPc) {
    pc.AwaitRegistration? || pc.Probing? || pc.AwaitDone?
  }

  /** While HandleTask waits its heartbeat runs, and only until then. */
  ghost predicate BeatInv(s: State) {
    && (forall h :: h in s.handlers ==> h < s.next)
    && (forall b :: b in s.beats ==> b in s.handlers && s.beats[b].task == s.handlers[b].task)
    && (forall h :: h in s.handlers && Waiting(s.handlers[h].pc) ==>
          s.shutdown || (h in s.beats && !s.beats[h].cancelled))
    && (forall h :: h in s.handlers && h in s.beats && !Waiting(s.handlers[h].pc) ==> s.beats[h].cancelled)
  }

  lemma HandlerBeatStep(s: State, h: Thread, a: HandlerAct, s': State)
    requires BeatInv(s) && HandlerStep(s, h, a) == Some(s')
    ensures BeatInv(s')
  {
  }

  lemma DispatcherBeats(s: State, a: DispatcherAct, s': State)
    requires BeatInv(s) && DispatcherStep(s, a) == Some(s')
    ensures BeatInv(s')
  {
    assert s.next !in s.handlers && s.next !in s.beats;
  }

  lemma BeatBeats(s: State, b: Thread, a: BeatAct, s': State)
    requires BeatInv(s) && BeatStep(s, b, a) == Some(s')
    ensures BeatInv(s')
  {
  }

  lemma OtherBeats(s: State, a: Action, s': State)
    requires Step(s, a) == Some(s') && !a.HandlerAction? && !a.DispatcherAction? && !a.BeatAction?
    ensures s'.handlers == s.handlers && s'.beats == s.beats && s.next <= s'.next && (s.shutdown ==> s'.shutdown)
  {
  }

  lemma StepBeats(s: State, a: Action, s': State)
    requires BeatInv(s) && Step(s, a) == Some(s')
    ensures BeatInv(s')
  {
    match a
    case HandlerAction(h, ha) => HandlerBeatStep(s, h, ha, s');
    case DispatcherAction(da) => DispatcherBeats(s, da, s');
    case BeatAction(b, ba) => BeatBeats(s, b, ba, s');
    case _ => OtherBeats(s, a, s');
  }

  lemma {:induction false} ReachableBeats(cfg: Config, now: int, acts: seq<Action>, s: State)
    requires Reaches(cfg, now, acts, s)
    ensures BeatInv(s)
    decreases |acts|
  {
    if |acts| > 0 {
      var prev := Exec(Init(cfg, now), acts[..|acts| - 1]).value;
      ReachableBeats(cfg, now, acts[..|acts| - 1], prev);
      StepBeats(prev, acts[|acts| - 1], s);
    }
  }

  /** In every reachable state a HandleTask that waits has a running heartbeat unless the daemon
      is shutting down, and one that is leaving has none; and each beat of a heartbeat tells the
      instance the task came from. */
  lemma HeartbeatsRun(cfg: Config, now: int, acts: seq<Action>, s: State, h: Thread)
    requires UniqueNames(cfg.instances) && Reaches(cfg, now, acts, s) && h in s.handlers
    ensures Waiting(s.handlers[h].pc) ==> s.shutdown || (h in s.beats && !s.beats[h].cancelled)
    ensures s.handlers[h].pc.Leaving? ==> h !in s.beats || s.beats[h].cancelled
    ensures h in s.beats ==>
              && Step(s, BeatAction(h, Beat)).Some? && Told(Step(s, BeatAction(h, Beat)).value.w, s.handlers[h].task)
              && (Step(s, BeatAction(h, BeatStop)).Some? <==> s.beats[h].cancelled || s.shutdown)
  {
    ReachableBeats(cfg, now, acts, s);
    ReachableRouting(cfg, now, acts, s);
    if h in s.beats {
      assert BeatRouted(s.w, s.beats[h]);
    }
  }

  // ---- creation times ----

  lemma StepCreated(s: State, a: Action, s': State)
    requires Step(s, a) == Some(s') && forall r: Ref :: r < |s.w.heap| ==> s.w.heap[r].createdAt <= s.w.now
    ensures forall r: Ref :: r < |s'.w.heap| ==> s'.w.heap[r].createdAt <= s'.w.now
  {
  }

  /** No task is younger than the clock, so no registration token is accepted later than its
      time to live after it was stored. */
  lemma {:induction false} CreatedInThePast(cfg: Config, now: int, acts: seq<Action>, s: State)
    requires Reaches(cfg, now, acts, s)
    ensures forall r: Ref :: r < |s.w.heap| ==> s.w.heap[r].createdAt <= s.w.now
    decreases |acts|
  {
    if |acts| > 0 {
      var prev := Exec(Init(cfg, now), acts[..|acts| - 1]).value;
      CreatedInThePast(cfg, now, acts[..|acts| - 1], prev);
      StepCreated(prev, acts[|acts| - 1], s);
    }
  }

  // ---- why threads stop ----

  /** Nothing stops for good, and no task is given up, before the shutdown signal. */
  ghost predicate RunningInv(s: State) {
    !s.shutdown ==>
      && (forall p :: 0 <= p < |s.pollers| ==> !s.pollers[p].Stopped?)
      && s.w.dropped == {} && !s.gc.Finished?
      && (forall h :: h in s.handlers ==> !s.handlers[h].pc.Probing?)
  }

  lemma StepRunning(s: State, a: Action, s': State)
    requires RunningInv(s) && Step(s, a) == Some(s')
    ensures RunningInv(s')
  {
  }

  lemma {:induction false} OnlyShutdownStops(cfg: Config, now: int, acts: seq<Action>, s: State)
    requires Reaches(cfg, now, acts, s)
    ensures RunningInv(s)
    decreases |acts|
  {
    if |acts| > 0 {
      var prev := Exec(Init(cfg, now), acts[..|acts| - 1]).value;
      OnlyShutdownStops(cfg, now, acts[..|acts| - 1], prev);
      StepRunning(prev, acts[|acts| - 1], s);
    }
  }
}
