/** Slot conservation: who holds the slots counted by the shared pool. */
module LifecycleSlots {
  import opened Wrappers
  import opened Lifecycle

  predicate PollerHolds(p: Poller) {
    p.Fetching? || p.Sending?
  }

  /** A HandleTask thread holds its slot until its exit path has released it. */
  predicate HandlerHolds(h: Handler) {
    h.pc.Leaving? ==> ReleaseSlot in h.pc.ops
  }

  function HoldingPollers(s: State): set<nat> {
    set p: nat | p < |s.pollers| && PollerHolds(s.pollers[p])
  }

  function HoldingHandlers(s: State): set<Thread> {
    set h | h in s.handlers && HandlerHolds(s.handlers[h])
  }

  /** Pollers past Acquire, queued tasks, the task in the dispatcher's hands, and handlers. */
  function Holders(s: State): nat {
    |HoldingPollers(s)| + |s.channel| + (if s.dispatcher.Some? then 1 else 0) + |HoldingHandlers(s)|
  }

  predicate NoRepeat(ops: seq<Op>) {
    forall i, j :: 0 <= i < j < |ops| ==> ops[i] != ops[j]
  }

  predicate SlotInv(s: State) {
    && s.used == Holders(s)
    && s.used <= s.cfg.capacity
    && (forall h :: h in s.handlers ==> h < s.next)
    && (forall h :: h in s.handlers && s.handlers[h].pc.Leaving? ==> NoRepeat(s.handlers[h].pc.ops))
  }

  lemma InitSlots(cfg: Config, now: int)
    ensures SlotInv(Init(cfg, now))
  {
    assert HoldingPollers(Init(cfg, now)) == {};
    assert HoldingHandlers(Init(cfg, now)) == {};
  }

  /** One poller changes its mind about holding a slot. */
  lemma PollerCount(s: State, s': State, p: nat)
    requires p < |s.pollers| == |s'.pollers| && s'.pollers == s.pollers[p := s'.pollers[p]]
    ensures |HoldingPollers(s')| - |HoldingPollers(s)|
         == (if PollerHolds(s'.pollers[p]) then 1 else 0) - (if PollerHolds(s.pollers[p]) then 1 else 0)
  {
    var others := HoldingPollers(s) - {p};
    assert HoldingPollers(s) == if PollerHolds(s.pollers[p]) then others + {p} else others;
    assert HoldingPollers(s') == if PollerHolds(s'.pollers[p]) then others + {p} else others;
  }

  function Weight(s: State, h: Thread): nat {
    if h in s.handlers && HandlerHolds(s.handlers[h]) then 1 else 0
  }

  /** One handler appears or moves. */
  lemma HandlerCount(s: State, s': State, h: Thread)
    requires h in s'.handlers && s'.handlers == s.handlers[h := s'.handlers[h]]
    ensures |HoldingHandlers(s')| - |HoldingHandlers(s)| == Weight(s', h) - Weight(s, h)
  {
    var others := HoldingHandlers(s) - {h};
    assert HoldingHandlers(s) == if Weight(s, h) == 1 then others + {h} else others;
    assert HoldingHandlers(s') == if Weight(s', h) == 1 then others + {h} else others;
  }

  lemma PollerSlots(s: State, p: nat, a: PollerAct, s': State)
    requires SlotInv(s) && PollerStep(s, p, a) == Some(s')
    ensures SlotInv(s')
    ensures a.FetchNothing? || a.Abandon? ==> s.used > 0
  {
    PollerCount(s, s', p);
    if a.FetchNothing? || a.Abandon? {
      assert p in HoldingPollers(s);
    }
    assert HoldingHandlers(s') == HoldingHandlers(s);
  }

  lemma DispatcherSlots(s: State, a: DispatcherAct, s': State)
    requires SlotInv(s) && DispatcherStep(s, a) == Some(s')
    ensures SlotInv(s')
  {
    assert HoldingPollers(s') == HoldingPollers(s);
    if a.Spawn? {
      HandlerCount(s, s', s.next);
    }
  }

  /** HandleTask keeps its slot through every step but the one release on its exit path. */
  lemma ExitPathsRelease(cfg: Config, shutdown: bool, t: Task, pc: HandlerPc, a: HandlerAct)
    requires HandlerNext(cfg, shutdown, t, pc, a).Some?
    requires pc.Leaving? ==> NoRepeat(pc.ops)
    ensures var pc' := HandlerNext(cfg, shutdown, t, pc, a).value;
      && (pc'.Leaving? ==> NoRepeat(pc'.ops))
      && ((pc.Leaving? ==> ReleaseSlot in pc.ops) <==>
          ((pc'.Leaving? ==> ReleaseSlot in pc'.ops) || NextOp(pc, a) == Some(ReleaseSlot)))
      && (NextOp(pc, a) == Some(ReleaseSlot) ==> pc'.Leaving? && ReleaseSlot !in pc'.ops)
  {
    if pc.Leaving? {
      assert pc.ops == [pc.ops[0]] + pc.ops[1..];
    } else {
      assert ReleaseSlot == DROP_PATH[3] && ReleaseSlot == SHUTDOWN_PATH[3] && ReleaseSlot == EXIT_PATH[0];
      assert forall c :: FailPath(c)[3] == ReleaseSlot;
    }
  }

  lemma HandlerSlots(s: State, h: Thread, a: HandlerAct, s': State)
    requires SlotInv(s) && HandlerStep(s, h, a) == Some(s')
    ensures SlotInv(s')
    ensures NextOp(s.handlers[h].pc, a) == Some(ReleaseSlot) ==> s.used > 0
  {
    assert HoldingPollers(s') == HoldingPollers(s);
    HandlerCount(s, s', h);
    ExitPathsRelease(s.cfg, s.shutdown, s.w.heap[s.handlers[h].task], s.handlers[h].pc, a);
    if NextOp(s.handlers[h].pc, a) == Some(ReleaseSlot) {
      assert h in HoldingHandlers(s);
    }
  }

  /** The action calls pool.Release. */
  predicate CallsRelease(s: State, a: Action) {
    match a
    case PollerAction(p, pa) => pa.FetchNothing? || pa.Abandon?
    case HandlerAction(h, ha) => h in s.handlers && NextOp(s.handlers[h].pc, ha) == Some(ReleaseSlot)
    case _ => false
  }

  lemma StepSlots(s: State, a: Action, s': State)
    requires SlotInv(s) && Step(s, a) == Some(s')
    ensures SlotInv(s')
    ensures CallsRelease(s, a) ==> s.used > 0
  {
    match a
    case PollerAction(p, pa) => PollerSlots(s, p, pa, s');
    case DispatcherAction(da) => DispatcherSlots(s, da, s');
    case HandlerAction(h, ha) => HandlerSlots(s, h, ha, s');
    case _ =>
      assert s'.pollers == s.pollers && s'.handlers == s.handlers && s'.channel == s.channel
          && s'.dispatcher == s.dispatcher && s'.used == s.used;
      assert HoldingPollers(s') == HoldingPollers(s) && HoldingHandlers(s') == HoldingHandlers(s);
  }

  lemma {:induction false} ReachableSlots(cfg: Config, now: int, acts: seq<Action>, s: State)
    requires Reaches(cfg, now, acts, s)
    ensures SlotInv(s)
    decreases |acts|
  {
    if |acts| == 0 {
      InitSlots(cfg, now);
    } else {
      var n := |acts| - 1;
      var prev := Exec(Init(cfg, now), acts[..n]).value;
      ReachableSlots(cfg, now, acts[..n], prev);
      StepSlots(prev, acts[n], s);
    }
  }

  /** In every reachable state the pool counts exactly the holders, never more than
      max_parallel_tasks of them, and a poller that has a task to send finds room in taskCh. */
  lemma SlotConservation(cfg: Config, now: int, acts: seq<Action>, s: State)
    requires Reaches(cfg, now, acts, s)
    ensures s.used == Holders(s) <= cfg.capacity
    ensures forall p :: 0 <= p < |s.pollers| && s.pollers[p].Sending? ==> |s.channel| < s.cfg.capacity
  {
    ReachableSlots(cfg, now, acts, s);
    ReachableConfig(cfg, now, acts, s);
    forall p | 0 <= p < |s.pollers| && s.pollers[p].Sending?
      ensures |s.channel| < s.cfg.capacity
    {
      assert p in HoldingPollers(s);
    }
  }

  /** No step of any run reaches the no-op branch of pool.Release. */
  lemma ReleaseNeverNoOp(cfg: Config, now: int, acts: seq<Action>, s: State, a: Action, s': State)
    requires Reaches(cfg, now, acts, s) && Step(s, a) == Some(s') && CallsRelease(s, a)
    ensures s'.used == s.used - 1
  {
    ReachableSlots(cfg, now, acts, s);
    StepSlots(s, a, s');
  }

  /** And no other step gives a slot back. */
  lemma OnlyReleaseFrees(s: State, a: Action, s': State)
    requires Step(s, a) == Some(s') && s'.used < s.used
    ensures CallsRelease(s, a)
  {
  }

  /** Once the pollers have stopped and nothing is queued, every slot still in use
      belongs to a live HandleTask; when those are gone the pool is empty. */
  lemma SlotsDrain(cfg: Config, now: int, acts: seq<Action>, s: State)
    requires Reaches(cfg, now, acts, s)
    requires forall p :: 0 <= p < |s.pollers| ==> s.pollers[p].Stopped?
    requires s.channel == [] && s.dispatcher.None?
    ensures s.used == |HoldingHandlers(s)|
    ensures s.handlers == map[] ==> s.used == 0
  {
    ReachableSlots(cfg, now, acts, s);
    assert HoldingPollers(s) == {};
  }

  // ---- the order of hand-over ----

  /** The tasks that pollers have sent, in order. */
  function Sends(s0: State, acts: seq<Action>): seq<Ref> {
    if |acts| == 0 then [] else
      var before, a := Exec(s0, acts[..|acts| - 1]), acts[|acts| - 1];
      Sends(s0, acts[..|acts| - 1]) +
      if before.Some? && a.PollerAction? && a.pact.Send? && a.p < |before.value.pollers|
          && before.value.pollers[a.p].Sending?
      then [before.value.pollers[a.p].task] else []
  }

  /** The tasks for which HandleTask has been started, in order. */
  function Spawns(s0: State, acts: seq<Action>): seq<Ref> {
    if |acts| == 0 then [] else
      var before, after, a := Exec(s0, acts[..|acts| - 1]), Exec(s0, acts), acts[|acts| - 1];
      Spawns(s0, acts[..|acts| - 1]) +
      if before.Some? && after.Some? && a.DispatcherAction? && a.dact.Spawn?
          && before.value.next in after.value.handlers
      then [after.value.handlers[before.value.next].task] else []
  }

  lemma StepQueue(s: State, a: Action, s': State)
    requires Step(s, a) == Some(s')
    ensures var held, held' := if s.dispatcher.Some? then [s.dispatcher.value] else [],
                               if s'.dispatcher.Some? then [s'.dispatcher.value] else [];
      && (a.PollerAction? && a.pact.Send? && s.pollers[a.p].Sending? ==>
            held' + s'.channel == held + s.channel + [s.pollers[a.p].task])
      && (a.DispatcherAction? && a.dact.Spawn? ==>
            s.next in s'.handlers && [s'.handlers[s.next].task] + (held' + s'.channel) == held + s.channel)
      && (!(a.PollerAction? && a.pact.Send?) && !(a.DispatcherAction? && a.dact.Spawn?) ==>
            held' + s'.channel == held + s.channel)
  {
    match a
    case DispatcherAction(da) =>
      if da.Receive? {
        assert s.channel == [s.channel[0]] + s.channel[1..];
      }
    case _ =>
  }

  /** HandleTask is started for the tasks in the order in which they were sent, each once; what
      has been sent and not started is in the dispatcher's hands or queued, in that order. */
  lemma {:induction false} TasksInOrder(cfg: Config, now: int, acts: seq<Action>, s: State)
    requires Reaches(cfg, now, acts, s)
    ensures Sends(Init(cfg, now), acts) ==
            Spawns(Init(cfg, now), acts) + ((if s.dispatcher.Some? then [s.dispatcher.value] else []) + s.channel)
    decreases |acts|
  {
    if |acts| > 0 {
      var prev := Exec(Init(cfg, now), acts[..|acts| - 1]).value;
      TasksInOrder(cfg, now, acts[..|acts| - 1], prev);
      StepQueue(prev, acts[|acts| - 1], s);
    }
  }
}
