/** What the daemon's threads have done by the time they are through
    (internal/run/runner.go, internal/app/app.go, internal/north/client.go). */
module LifecycleDuties {
  import opened Wrappers
  import opened Lifecycle
  import opened LifecycleTokens
  import opened LifecycleRouting
  import opened LifecycleCustody

  // ---- what no step undoes ----

  ghost predicate Persists(w: World, w': World) {
    && |w.heap| <= |w'.heap| && w.sent <= w'.sent
    && (forall r: Ref :: r < |w.heap| ==>
          && w'.heap[r].id == w.heap[r].id && w'.heap[r].poller == w.heap[r].poller
          && w'.heap[r].instance == w.heap[r].instance && (w.heap[r].done ==> w'.heap[r].done)
          && (w.heap[r].sessionToken != "" ==> w'.heap[r].sessionToken != "")
          && (Stored(w', r) ==> Stored(w, r)))
  }

  lemma RpcPersists(cfg: Config, w: World, rpc: Rpc, o: Oracle)
    requires ValidRpc(rpc, w) && (rpc.Linking? ==> rpc.key != "")
    ensures Persists(w, RpcWorld(cfg, w, rpc, o))
  {
  }

  lemma HandlerPersists(w: World, r: Ref, pc: HandlerPc, a: HandlerAct)
    requires r < |w.heap|
    ensures Persists(w, HandlerWorld(w, r, pc, a))
  {
  }

  lemma GcPersists(cfg: Config, w: World, gc: Gc, a: GcAct)
    requires GcNext(cfg, true, w, gc, a).Some?
    ensures Persists(w, GcWorld(cfg, w, gc, a))
  {
  }

  lemma KeyNotEmpty(w: World, key: string, r: Ref)
    requires BirthsInv(w) && Born(w.births, key, r)
    ensures key != ""
  {
    BornOnce(w, key, r, r);
  }

  lemma PollerPersists(inst: Instance, w: World, p: nat, pc: Poller, a: PollerAct)
    ensures Persists(w, PollerWorld(inst, w, p, pc, a))
  {
  }

  lemma RpcStepPersists(s: State, t: Thread, o: Oracle, s': State)
    requires TokenInv(s) && RpcStep(s, t, o) == Some(s')
    ensures Persists(s.w, s'.w)
  {
    if s.rpcs[t].Linking? {
      assert RpcInv(s.w, s.rpcs[t]);
      KeyNotEmpty(s.w, s.rpcs[t].key, s.rpcs[t].task);
    }
    RpcPersists(s.cfg, s.w, s.rpcs[t], o);
  }

  lemma OthersPersist(s: State, a: Action, s': State)
    requires Step(s, a) == Some(s') && (a.DispatcherAction? || a.BeatAction? || a.RpcStart? || a.Elapse? || a.Shutdown?)
    ensures Persists(s.w, s'.w)
  {
  }

  lemma StepPersists(s: State, a: Action, s': State)
    requires TokenInv(s) && Step(s, a) == Some(s')
    ensures Persists(s.w, s'.w)
  {
    match a
    case RpcAction(t, o) => RpcStepPersists(s, t, o, s');
    case HandlerAction(h, ha) => HandlerPersists(s.w, s.handlers[h].task, s.handlers[h].pc, ha);
    case GcAction(ga) => GcPersists(s.cfg, s.w, s.gc, ga);
    case PollerAction(p, pa) => PollerPersists(s.cfg.instances[p], s.w, p, s.pollers[p], pa);
    case _ => OthersPersist(s, a, s');
  }

  // ---- HandleTask on its way out ----

  /** The report has been sent or still will be. */
  ghost predicate ReportDue(w: World, hd: Handler, client: nat) {
    hd.task < |w.heap| && hd.pc.Leaving?
    && (Report(client) in hd.pc.ops || (client, w.heap[hd.task].id) in w.sent)
  }

  /** The task is gone from the store or still will be removed. */
  ghost predicate RemovalDue(w: World, hd: Handler) {
    hd.task < |w.heap| && hd.pc.Leaving? && (RemoveTask in hd.pc.ops || !Stored(w, hd.task))
  }

  /** No DropSession comes before ReadToken. */
  predicate InOrder(ops: seq<Op>) {
    && (ReadToken in ops ==> DropSession in ops)
    && (forall i, j :: 0 <= i < j < |ops| ==> !(ops[i].DropSession? && ops[j].ReadToken?))
  }

  /** No session lives under the key that was read, or it is still to be read or dropped; and
      the key is the task's own, if it had one (`linked`). */
  ghost predicate SessionDue(w: World, hd: Handler, linked: bool) {
    && hd.task < |w.heap| && hd.pc.Leaving? && InOrder(hd.pc.ops)
    && (ReadToken in hd.pc.ops || DropSession in hd.pc.ops || hd.pc.token !in w.sessions)
    && (hd.pc.token == "" || Born(w.births, hd.pc.token, hd.task))
    && (linked ==> w.heap[hd.task].sessionToken != "" && (ReadToken in hd.pc.ops || hd.pc.token != ""))
  }

  lemma FirstDone(ops: seq<Op>)
    requires ops != []
    ensures forall op :: op in ops <==> op == ops[0] || op in ops[1..]
    ensures InOrder(ops) && !ops[0].DropSession? ==> InOrder(ops[1..])
    ensures InOrder(ops) && ops[0].DropSession? ==> ReadToken !in ops[1..] && InOrder(ops[1..])
  {
    assert ops == [ops[0]] + ops[1..];
    assert forall i :: 0 <= i < |ops[1..]| ==> ops[1..][i] == ops[i + 1];
  }

  lemma OwnStepReports(cfg: Config, shutdown: bool, w: World, hd: Handler, a: HandlerAct, client: nat)
    requires ReportDue(w, hd, client) && HandlerNext(cfg, shutdown, w.heap[hd.task], hd.pc, a).Some?
    ensures ReportDue(HandlerWorld(w, hd.task, hd.pc, a),
                      Handler(hd.task, HandlerNext(cfg, shutdown, w.heap[hd.task], hd.pc, a).value), client)
  {
    FirstDone(hd.pc.ops);
  }

  lemma OwnStepRemoves(cfg: Config, shutdown: bool, w: World, hd: Handler, a: HandlerAct)
    requires RemovalDue(w, hd) && HandlerNext(cfg, shutdown, w.heap[hd.task], hd.pc, a).Some?
    ensures RemovalDue(HandlerWorld(w, hd.task, hd.pc, a),
                       Handler(hd.task, HandlerNext(cfg, shutdown, w.heap[hd.task], hd.pc, a).value))
  {
    FirstDone(hd.pc.ops);
  }

  lemma OwnStepDrops(cfg: Config, shutdown: bool, w: World, hd: Handler, a: HandlerAct, linked: bool)
    requires SessionDue(w, hd, linked) && HandlerNext(cfg, shutdown, w.heap[hd.task], hd.pc, a).Some?
    requires OwnToken(w, w.heap[hd.task].sessionToken, hd.task)
    ensures SessionDue(HandlerWorld(w, hd.task, hd.pc, a),
                       Handler(hd.task, HandlerNext(cfg, shutdown, w.heap[hd.task], hd.pc, a).value), linked)
  {
    FirstDone(hd.pc.ops);
  }

  /** A session key that is gone does not come back. */
  lemma OwnKeyStaysDead(s: State, a: Action, s': State, key: string, r: Ref)
    requires TokenInv(s) && Step(s, a) == Some(s') && key !in s.w.sessions && (key == "" || Born(s.w.births, key, r))
    ensures key !in s'.w.sessions
  {
    StepTokens(s, a, s');
    if key == "" {
      if key in s'.w.sessions {
        KeyNotEmpty(s'.w, key, s'.w.sessions[key].task);
      }
    } else {
      assert Dead(s.w, key);
      DeadKeyStays(s, a, s', key);
    }
  }

  /** The three duties survive the steps of all other threads. */
  lemma OtherStepDuties(s: State, a: Action, s': State, hd: Handler, client: nat, linked: bool)
    requires TokenInv(s) && Step(s, a) == Some(s') && hd.task < |s.w.heap|
    ensures ReportDue(s.w, hd, client) ==> ReportDue(s'.w, hd, client)
    ensures RemovalDue(s.w, hd) ==> RemovalDue(s'.w, hd)
    ensures SessionDue(s.w, hd, linked) ==> SessionDue(s'.w, hd, linked)
  {
    StepPersists(s, a, s');
    if SessionDue(s.w, hd, linked) {
      BirthsGrow(s, a, s');
      if hd.pc.token != "" {
        BornGrows(s.w.births, s'.w.births, hd.pc.token, hd.task);
      }
      if hd.pc.token !in s.w.sessions {
        OwnKeyStaysDead(s, a, s', hd.pc.token, hd.task);
      }
    }
  }

  lemma OtherHandlersStay(s: State, a: Action, s': State, h: Thread)
    requires Step(s, a) == Some(s') && h in s.handlers && h < s.next && !(a.HandlerAction? && a.h == h)
    ensures h in s'.handlers && s'.handlers[h] == s.handlers[h]
  {
  }

  /** Which of the duties apply to handler `h`. */
  ghost predicate Duties(s: State, h: Thread, client: Option<nat>, linked: bool) {
    && h in s.handlers && s.handlers[h].task < |s.w.heap|
    && (client.Some? ==> ReportDue(s.w, s.handlers[h], client.value))
    && RemovalDue(s.w, s.handlers[h]) && SessionDue(s.w, s.handlers[h], linked)
  }

  lemma HandlersBelowNext(s: State, h: Thread)
    requires CustodyInv(s) && h in s.handlers
    ensures h < s.next
  {
  }

  lemma StepDuties(s: State, a: Action, s': State, h: Thread, client: Option<nat>, linked: bool)
    requires CustodyInv(s) && Step(s, a) == Some(s') && Duties(s, h, client, linked)
    ensures Duties(s', h, client, linked) && s'.handlers[h].task == s.handlers[h].task
  {
    var hd := s.handlers[h];
    var c := if client.Some? then client.value else 0;
    if a.HandlerAction? && a.h == h {
      if client.Some? {
        OwnStepReports(s.cfg, s.shutdown, s.w, hd, a.hact, c);
      }
      OwnStepRemoves(s.cfg, s.shutdown, s.w, hd, a.hact);
      OwnStepDrops(s.cfg, s.shutdown, s.w, hd, a.hact, linked);
    } else {
      HandlersBelowNext(s, h);
      OtherHandlersStay(s, a, s', h);
      OtherStepDuties(s, a, s', hd, c, linked);
    }
  }

  lemma {:induction false} RunDuties(s: State, after: seq<Action>, s': State, h: Thread, client: Option<nat>,
      linked: bool)
    requires CustodyInv(s) && Exec(s, after) == Some(s') && Duties(s, h, client, linked)
    ensures CustodyInv(s') && Duties(s', h, client, linked) && s'.handlers[h].task == s.handlers[h].task
    decreases |after|
  {
    if |after| > 0 {
      var prev := Exec(s, after[..|after| - 1]).value;
      RunDuties(s, after[..|after| - 1], prev, h, client, linked);
      StepCustody(prev, after[|after| - 1], s');
      StepDuties(prev, after[|after| - 1], s', h, client, linked);
    }
  }

  lemma CleaningPaths(c: nat)
    ensures InOrder(FailPath(c)) && Report(c) in FailPath(c) && ReadToken in FailPath(c) && RemoveTask in FailPath(c)
    ensures InOrder(DROP_PATH) && ReadToken in DROP_PATH && RemoveTask in DROP_PATH
    ensures InOrder(SHUTDOWN_PATH) && ReadToken in SHUTDOWN_PATH && RemoveTask in SHUTDOWN_PATH
  {
    assert FailPath(c)[0] == Report(c) && FailPath(c)[1] == ReadToken && FailPath(c)[2] == DropSession
        && FailPath(c)[4] == RemoveTask;
    assert DROP_PATH[0] == RemoveTask && DROP_PATH[1] == ReadToken && DROP_PATH[2] == DropSession;
    assert SHUTDOWN_PATH[0] == ReadToken && SHUTDOWN_PATH[1] == DropSession && SHUTDOWN_PATH[2] == RemoveTask;
  }

  /** HandleTask leaves without anybody else to look after the task. */
  predicate LeavesCleaning(s: State, h: Thread, a: HandlerAct) {
    && h in s.handlers && s.handlers[h].task < |s.w.heap|
    && (|| (a.DoResolve? && Resolve(s.cfg.instances, s.w.heap[s.handlers[h].task].instance).None?)
        || a.TriggerFail? || a.SeeTimeout?
        || (a.Probe? && !s.w.heap[s.handlers[h].task].registered))
  }

  /** The three ways to leave, with nothing done yet. */
  lemma LeavesBy(cfg: Config, shutdown: bool, w: World, r: Ref, pc: HandlerPc, a: HandlerAct)
    requires r < |w.heap| && HandlerNext(cfg, shutdown, w.heap[r], pc, a).Some? && PcRouted(w.heap[r], pc)
    requires a.DoResolve? ==> Resolve(cfg.instances, w.heap[r].instance).None?
    requires a.Probe? ==> !w.heap[r].registered
    requires a.DoResolve? || a.TriggerFail? || a.SeeTimeout? || a.Probe?
    ensures HandlerWorld(w, r, pc, a) == w
    ensures HandlerNext(cfg, shutdown, w.heap[r], pc, a).value ==
            Leaving(if a.DoResolve? then DROP_PATH else if a.Probe? then SHUTDOWN_PATH
                else FailPath(w.heap[r].poller), "")
  {
  }

  lemma DutiesBegin(s: State, h: Thread, a: HandlerAct, s': State)
    requires RoutingInv(s) && TokenInv(s) && Step(s, HandlerAction(h, a)) == Some(s') && LeavesCleaning(s, h, a)
    ensures var t := s.w.heap[s.handlers[h].task];
      Duties(s', h, if a.TriggerFail? || a.SeeTimeout? then Some(t.poller) else None, t.sessionToken != "")
    ensures s'.handlers[h].task == s.handlers[h].task
  {
    var r := s.handlers[h].task;
    assert HandlerRouted(s.w, s.handlers[h]);
    LeavesBy(s.cfg, s.shutdown, s.w, r, s.handlers[h].pc, a);
    CleaningPaths(s.w.heap[r].poller);
  }

  lemma DutiesDone(s: State, h: Thread, client: Option<nat>, linked: bool)
    requires CustodyInv(s) && Duties(s, h, client, linked) && Returned(s.handlers[h].pc)
    ensures var hd := s.handlers[h];
      && !Stored(s.w, hd.task) && hd.pc.token !in s.w.sessions
      && (client.Some? ==> (client.value, s.w.heap[hd.task].id) in s.w.sent)
      && (linked ==> Born(s.w.births, hd.pc.token, hd.task))
  {
  }

  lemma {:induction false} RunPersists(s: State, after: seq<Action>, s': State)
    requires TokenInv(s) && Exec(s, after) == Some(s')
    ensures TokenInv(s') && Persists(s.w, s'.w)
    decreases |after|
  {
    if |after| > 0 {
      var prev := Exec(s, after[..|after| - 1]).value;
      RunPersists(s, after[..|after| - 1], prev);
      StepTokens(prev, after[|after| - 1], s');
      StepPersists(prev, after[|after| - 1], s');
    }
  }

  lemma CleaningRun(s: State, a: Action, s1: State, after: seq<Action>, s2: State, h: Thread)
    requires CustodyInv(s) && CustodyInv(s1) && Step(s, a) == Some(s1) && Exec(s1, after) == Some(s2)
    requires h in s.handlers && s.handlers[h].task < |s.w.heap| && h in s1.handlers
             && s1.handlers[h].task == s.handlers[h].task
    requires a.HandlerAction?
    requires var t := s.w.heap[s.handlers[h].task];
      Duties(s1, h, if a.hact.TriggerFail? || a.hact.SeeTimeout? then Some(t.poller) else None, t.sessionToken != "")
    requires h in s2.handlers && Returned(s2.handlers[h].pc)
    ensures var r := s.handlers[h].task; var t, key := s.w.heap[r], s2.handlers[h].pc.token;
      && !Stored(s2.w, r) && key !in s2.w.sessions
      && (t.sessionToken != "" ==> Born(s2.w.births, key, r))
      && (a.hact.TriggerFail? || a.hact.SeeTimeout? ==> (t.poller, t.id) in s2.w.sent)
  {
    var t := s.w.heap[s.handlers[h].task];
    var client := if a.hact.TriggerFail? || a.hact.SeeTimeout? then Some(t.poller) else None;
    RunDuties(s1, after, s2, h, client, t.sessionToken != "");
    DutiesDone(s2, h, client, t.sessionToken != "");
    StepPersists(s, a, s1);
    RunPersists(s1, after, s2);
  }

  /** After an unknown instance, a failed dispatch, a startup timeout or a shutdown before
      registration, once HandleTask has returned: the task is not stored, and the session it
      had by then is gone; and a failed dispatch or a timeout has been reported to the instance
      the task came from. */
  lemma CleaningExits(cfg: Config, now: int, before: seq<Action>, s: State, h: Thread, a: HandlerAct, s1: State,
                      after: seq<Action>, s2: State)
    requires UniqueNames(cfg.instances) && Reaches(cfg, now, before, s) && LeavesCleaning(s, h, a)
    requires Step(s, HandlerAction(h, a)) == Some(s1) && Exec(s1, after) == Some(s2)
    requires h in s2.handlers && Returned(s2.handlers[h].pc)
    ensures var r := s.handlers[h].task; var t, key := s.w.heap[r], s2.handlers[h].pc.token;
      && !Stored(s2.w, r) && key !in s2.w.sessions
      && (t.sessionToken != "" ==> Born(s2.w.births, key, r))
      && (a.TriggerFail? || a.SeeTimeout? ==> (t.poller, t.id) in s2.w.sent)
  {
    ReachableCustody(cfg, now, before, s);
    ReachableRouting(cfg, now, before, s);
    StepCustody(s, HandlerAction(h, a), s1);
    DutiesBegin(s, h, a, s1);
    CleaningRun(s, HandlerAction(h, a), s1, after, s2, h);
  }

  // ---- HandleTask leaving the task to others ----

  /** Nothing but the slot is left to give back. */
  predicate Quiet(s: State, h: Thread) {
    && h in s.handlers && h < s.next && s.handlers[h].task < |s.w.heap| && s.handlers[h].pc.Leaving?
    && (forall op :: op in s.handlers[h].pc.ops ==> op.ReleaseSlot?)
  }

  lemma QuietStep(s: State, a: Action, s': State, h: Thread)
    requires TokenInv(s) && Quiet(s, h) && Step(s, a) == Some(s')
    ensures Quiet(s', h) && (a.HandlerAction? && a.h == h ==> s'.w == s.w)
  {
    StepPersists(s, a, s');
    if a.HandlerAction? && a.h == h {
      FirstDone(s.handlers[h].pc.ops);
      assert s.handlers[h].pc.ops[0] in s.handlers[h].pc.ops;
    } else {
      OtherHandlersStay(s, a, s', h);
    }
  }

  lemma {:induction false} QuietRun(s: State, after: seq<Action>, s': State, h: Thread)
    requires TokenInv(s) && Quiet(s, h) && Exec(s, after) == Some(s')
    ensures TokenInv(s') && Quiet(s', h)
    decreases |after|
  {
    if |after| > 0 {
      var prev := Exec(s, after[..|after| - 1]).value;
      QuietRun(s, after[..|after| - 1], prev, h);
      StepTokens(prev, after[|after| - 1], s');
      QuietStep(prev, after[|after| - 1], s', h);
    }
  }

  /** HandleTask leaves because somebody else has finished the task, or still runs it. */
  predicate LeavesQuietly(s: State, h: Thread, a: HandlerAct) {
    && h in s.handlers && s.handlers[h].task < |s.w.heap|
    && (a.SeeDone? || (s.handlers[h].pc.AwaitDone? && a.SeeShutdown?)
        || (a.Probe? && s.w.heap[s.handlers[h].task].registered))
  }

  lemma QuietBegins(s: State, h: Thread, a: HandlerAct, s': State)
    requires CustodyInv(s) && Step(s, HandlerAction(h, a)) == Some(s') && LeavesQuietly(s, h, a)
    ensures Quiet(s', h) && s'.w == s.w
  {
    HandlersBelowNext(s, h);
  }

  /** Then it leaves store, sessions, tasks and instances alone from there on. */
  lemma QuietExits(cfg: Config, now: int, before: seq<Action>, s: State, h: Thread, a: HandlerAct, s1: State,
                   after: seq<Action>, s2: State, b: HandlerAct, s3: State)
    requires Reaches(cfg, now, before, s) && LeavesQuietly(s, h, a)
    requires Step(s, HandlerAction(h, a)) == Some(s1) && Exec(s1, after) == Some(s2)
    requires Step(s2, HandlerAction(h, b)) == Some(s3)
    ensures s1.w == s.w && s3.w == s2.w
  {
    ReachableCustody(cfg, now, before, s);
    QuietBegins(s, h, a, s1);
    StepTokens(s, HandlerAction(h, a), s1);
    QuietRun(s1, after, s2, h);
    QuietStep(s2, HandlerAction(h, b), s3, h);
  }
}
