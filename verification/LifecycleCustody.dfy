/** No orphan tasks: whoever stops looking after a stored task has made sure
    that somebody else does. */
module LifecycleCustody {
  import opened Wrappers
  import opened Lifecycle
  import opened LifecycleTokens

  /** The store maps `r`'s id to `r`. */
  ghost predicate Stored(w: World, r: Ref) {
    r < |w.heap| && w.heap[r].id in w.store.tasks && w.store.tasks[w.heap[r].id] == r
  }

  ghost predicate HasSession(w: World, r: Ref) {
    exists k :: k in w.sessions && w.sessions[k].task == r
  }

  // ---- the possible custodians of a task ----

  ghost predicate AtPoller(pollers: seq<Poller>, r: Ref) {
    Sending(r) in pollers
  }

  /** A HandleTask that has not started to leave. */
  ghost predicate AtHandler(handlers: map<Thread, Handler>, r: Ref) {
    exists h :: h in handlers && handlers[h].task == r && !handlers[h].pc.Leaving?
  }

  /** A HandleTask on an exit path that has yet to remove the task. */
  ghost predicate HandlerRemoves(handlers: map<Thread, Handler>, r: Ref) {
    exists h :: h in handlers && handlers[h].task == r && handlers[h].pc.Leaving? && RemoveTask in handlers[h].pc.ops
  }

  /** A terminal UpdateTask part-way through its clean-up. */
  ghost predicate RpcRemoves(rpcs: map<Thread, Rpc>, r: Ref) {
    exists t :: t in rpcs && rpcs[t].Finishing? && rpcs[t].task == r
  }

  /** A GC pass that has taken the task's session and has yet to remove the task. */
  ghost predicate GcRemoves(gc: Gc, r: Ref) {
    match gc
    case Sweeping(todo) => r in todo.Values
    case Closing(r0, todo) => r0 == r || r in todo.Values
    case Removing(r0, todo) => r0 == r || r in todo.Values
    case _ => false
  }

  ghost predicate Removes(s: State, r: Ref) {
    HandlerRemoves(s.handlers, r) || RpcRemoves(s.rpcs, r) || GcRemoves(s.gc, r)
  }

  /** Not yet registered for good, but somebody holds it and will decide. */
  ghost predicate InHand(s: State, r: Ref) {
    AtPoller(s.pollers, r) || r in s.channel || s.dispatcher == Some(r) || AtHandler(s.handlers, r)
  }

  ghost predicate Accounted(s: State, r: Ref)
    requires r < |s.w.heap|
  {
    || InHand(s, r)
    || Removes(s, r)
    || (s.w.heap[r].registered && HasSession(s.w, r))
    || r in s.w.dropped
  }

  // ---- invariant ----

  ghost predicate Linkish(rpc: Rpc) {
    rpc.Linking? || rpc.Refreshing? || rpc.Registering?
  }

  /** `r` has had a session: its runner registered, or is about to be told so. */
  ghost predicate Sessioned(s: State, r: Ref)
    requires r < |s.w.heap|
  {
    s.w.heap[r].registered || exists t :: t in s.rpcs && Linkish(s.rpcs[t]) && s.rpcs[t].task == r
  }

  ghost predicate WorldRefs(w: World) {
    && (forall id :: id in w.store.tasks ==> w.store.tasks[id] < |w.heap| && w.heap[w.store.tasks[id]].id == id)
    && (forall k :: k in w.sessions ==> w.sessions[k].task < |w.heap|)
  }

  ghost predicate RefsInv(s: State) {
    var n := |s.w.heap|;
    && WorldRefs(s.w)
    && (forall p :: 0 <= p < |s.pollers| && s.pollers[p].Sending? ==> s.pollers[p].task < n)
    && (forall i :: 0 <= i < |s.channel| ==> s.channel[i] < n)
    && (s.dispatcher.Some? ==> s.dispatcher.value < n)
    && (forall h :: h in s.handlers ==> h < s.next && s.handlers[h].task < n)
    && (forall t :: t in s.rpcs ==> ValidRpc(s.rpcs[t], s.w))
    && (forall r: Ref :: GcRemoves(s.gc, r) ==> r < n)
  }

  /** A token a HandleTask has read, or a TaskCtx carries, names a session of that very task. */
  ghost predicate OwnToken(w: World, token: string, r: Ref) {
    token == "" || Born(w.births, token, r)
  }

  ghost predicate HandlerInv(w: World, hd: Handler) {
    && hd.task < |w.heap|
    && (hd.pc.AwaitDone? ==> w.heap[hd.task].registered)
    && (hd.pc.Leaving? ==>
          && OwnToken(w, hd.pc.token, hd.task)
          && (DropSession in hd.pc.ops && RemoveTask !in hd.pc.ops ==> !Stored(w, hd.task)))
  }

  ghost predicate CustodyInv(s: State) {
    && TokenInv(s)
    && RefsInv(s)
    && (forall r: Ref :: r < |s.w.heap| ==> OwnToken(s.w, s.w.heap[r].sessionToken, r))
    && (forall h :: h in s.handlers ==> HandlerInv(s.w, s.handlers[h]))
    && (forall r: Ref :: Stored(s.w, r) && s.w.heap[r].done ==> Removes(s, r))
    && (forall r: Ref :: Stored(s.w, r) && Sessioned(s, r) ==> HasSession(s.w, r) || Removes(s, r))
    && (forall r: Ref :: Stored(s.w, r) ==> Accounted(s, r))
  }

  // ---- what one step may do to one task ----

  /** The task does not come back into the store, its latches do not reopen, and whoever
      lets go of it leaves it registered, done, dropped or in somebody else's care. */
  ghost predicate Gentle(s: State, s': State, r: Ref)
    requires r < |s.w.heap| && r < |s'.w.heap|
  {
    && (s.w.heap[r].registered ==> s'.w.heap[r].registered)
    && (Stored(s'.w, r) ==>
          && Stored(s.w, r)
          && (Removes(s, r) ==> Removes(s', r))
          && (HasSession(s.w, r) ==> HasSession(s'.w, r) || Removes(s', r))
          && (s'.w.heap[r].done ==> s.w.heap[r].done || Removes(s', r))
          && (Sessioned(s', r) ==> Sessioned(s, r) || HasSession(s'.w, r))
          && (r in s.w.dropped ==> r in s'.w.dropped)
          && (InHand(s, r) ==>
                InHand(s', r) || Removes(s', r) || r in s'.w.dropped || s.w.heap[r].registered || s.w.heap[r].done))
  }

  lemma GentleKeeps(s: State, s': State, r: Ref)
    requires CustodyInv(s) && r < |s.w.heap| && r < |s'.w.heap| && Gentle(s, s', r) && Stored(s'.w, r)
    ensures s'.w.heap[r].done ==> Removes(s', r)
    ensures Sessioned(s', r) ==> HasSession(s'.w, r) || Removes(s', r)
    ensures Accounted(s', r)
  {
    assert Accounted(s, r);
  }

  /** No key belongs to two tasks. */
  lemma BornOnce(w: World, key: string, q: Ref, r: Ref)
    requires BirthsInv(w) && Born(w.births, key, q) && Born(w.births, key, r)
    ensures q == r && |key| > 0
  {
    var i :| 0 <= i < |w.births| && w.births[i].key == key && w.births[i].task == q;
    var j :| 0 <= j < |w.births| && w.births[j].key == key && w.births[j].task == r;
  }

  /** A live session found under a token that `r` owns is a session of `r`. */
  lemma SessionOwner(w: World, token: string, r: Ref)
    requires WorldInv(w) && OwnToken(w, token, r) && token in w.sessions
    ensures w.sessions[token].task == r
  {
    var q := w.sessions[token].task;
    BornOnce(w, token, q, q);
    BornOnce(w, token, q, r);
  }

  // ---- HandleTask ----

  /** Every way out of HandleTask removes the task, or saw it registered or done. */
  lemma ExitPathsRemove(cfg: Config, shutdown: bool, w: World, hd: Handler, a: HandlerAct)
    requires HandlerInv(w, hd)
    requires HandlerNext(cfg, shutdown, w.heap[hd.task], hd.pc, a).Some?
    ensures var pc' := HandlerNext(cfg, shutdown, w.heap[hd.task], hd.pc, a).value;
      pc'.Leaving? && !hd.pc.Leaving? ==>
        RemoveTask in pc'.ops || w.heap[hd.task].registered || w.heap[hd.task].done
  {
    assert RemoveTask == DROP_PATH[0] && RemoveTask == SHUTDOWN_PATH[2];
    assert forall c :: FailPath(c)[4] == RemoveTask;
  }

  /** An exit path that drops a session still removes the task, or has removed it. */
  lemma ExitPathsOrder(cfg: Config, shutdown: bool, w: World, hd: Handler, a: HandlerAct)
    requires HandlerInv(w, hd)
    requires HandlerNext(cfg, shutdown, w.heap[hd.task], hd.pc, a).Some?
    ensures var pc' := HandlerNext(cfg, shutdown, w.heap[hd.task], hd.pc, a).value;
      && (pc'.Leaving? && !hd.pc.Leaving? && DropSession in pc'.ops ==> RemoveTask in pc'.ops)
      && (hd.pc.Leaving? ==>
            && pc'.Leaving?
            && (RemoveTask in hd.pc.ops ==> RemoveTask in pc'.ops || NextOp(hd.pc, a) == Some(RemoveTask))
            && (DropSession in pc'.ops ==> DropSession in hd.pc.ops)
            && (RemoveTask in pc'.ops ==> RemoveTask in hd.pc.ops))
      && (NextOp(hd.pc, a) == Some(DropSession) ==> DropSession in hd.pc.ops)
  {
    if hd.pc.Leaving? {
      assert hd.pc.ops == [hd.pc.ops[0]] + hd.pc.ops[1..];
    } else {
      assert RemoveTask == DROP_PATH[0] && RemoveTask == SHUTDOWN_PATH[2];
      assert forall c :: FailPath(c)[4] == RemoveTask;
    }
  }

  /** Moving one handler leaves the others' care of `r` alone. */
  lemma HandlersOthers(handlers: map<Thread, Handler>, h: Thread, hd': Handler, r: Ref)
    requires h in handlers && handlers[h].task == hd'.task
    ensures var handlers' := handlers[h := hd'];
      && (AtHandler(handlers, r) ==>
            AtHandler(handlers', r) || (hd'.task == r && hd'.pc.Leaving? && !handlers[h].pc.Leaving?))
      && (HandlerRemoves(handlers, r) ==>
            || HandlerRemoves(handlers', r)
            || (handlers[h].task == r && handlers[h].pc.Leaving? && RemoveTask in handlers[h].pc.ops))
      && (hd'.task == r && hd'.pc.Leaving? && RemoveTask in hd'.pc.ops ==> HandlerRemoves(handlers', r))
  {
    var handlers' := handlers[h := hd'];
    if hd'.task == r {
      assert handlers'[h] == hd';
    }
    if AtHandler(handlers, r) {
      var k :| k in handlers && handlers[k].task == r && !handlers[k].pc.Leaving?;
      assert k in handlers';
    }
    if HandlerRemoves(handlers, r) {
      var k :| k in handlers && handlers[k].task == r && handlers[k].pc.Leaving? && RemoveTask in handlers[k].pc.ops;
      assert k in handlers';
    }
  }

  lemma HandlerRemovesKept(cfg: Config, shutdown: bool, w: World, handlers: map<Thread, Handler>, h: Thread,
                            a: HandlerAct, r: Ref)
    requires h in handlers && HandlerInv(w, handlers[h]) && r < |w.heap|
    requires HandlerNext(cfg, shutdown, w.heap[handlers[h].task], handlers[h].pc, a).Some?
    requires !(NextOp(handlers[h].pc, a) == Some(RemoveTask) && handlers[h].task == r)
    requires NextOp(handlers[h].pc, a) == Some(DropSession) ==> Stored(w, handlers[h].task) || handlers[h].task != r
    ensures var hd := handlers[h];
      var handlers' := handlers[h := Handler(hd.task, HandlerNext(cfg, shutdown, w.heap[hd.task], hd.pc, a).value)];
      && (HandlerRemoves(handlers, r) ==> HandlerRemoves(handlers', r))
      && (AtHandler(handlers, r) ==>
            AtHandler(handlers', r) || HandlerRemoves(handlers', r) || w.heap[r].registered || w.heap[r].done)
      && (NextOp(hd.pc, a) == Some(DropSession) && hd.task == r ==> HandlerRemoves(handlers', r))
  {
    var hd := handlers[h];
    var hd' := Handler(hd.task, HandlerNext(cfg, shutdown, w.heap[hd.task], hd.pc, a).value);
    HandlersOthers(handlers, h, hd', r);
    ExitPathsRemove(cfg, shutdown, w, hd, a);
    ExitPathsOrder(cfg, shutdown, w, hd, a);
  }

  lemma HandlerKeepsKey(w: World, hd: Handler, a: HandlerAct, k: string)
    requires hd.task < |w.heap| && k in w.sessions && !(NextOp(hd.pc, a) == Some(DropSession) && k == hd.pc.token)
    ensures var w' := HandlerWorld(w, hd.task, hd.pc, a); k in w'.sessions && w'.sessions[k] == w.sessions[k]
  {
  }

  /** HandleTask's own step ends no session but its task's. */
  lemma HandlerSessions(w: World, hd: Handler, a: HandlerAct, r: Ref)
    requires WorldInv(w) && HandlerInv(w, hd) && HasSession(w, r)
    requires !(NextOp(hd.pc, a) == Some(DropSession) && hd.task == r)
    ensures HasSession(HandlerWorld(w, hd.task, hd.pc, a), r)
  {
    var k :| k in w.sessions && w.sessions[k].task == r;
    if NextOp(hd.pc, a) == Some(DropSession) && k == hd.pc.token {
      SessionOwner(w, k, hd.task);
    } else {
      HandlerKeepsKey(w, hd, a, k);
    }
  }

  /** The step neither stores `r`, nor touches its latches, nor drops it. */
  ghost predicate Steady(w: World, w': World, r: Ref) {
    && |w'.heap| == |w.heap| && w'.dropped == w.dropped
    && (r < |w.heap| ==>
          && w'.heap[r].registered == w.heap[r].registered && w'.heap[r].done == w.heap[r].done
          && (Stored(w', r) ==> Stored(w, r)))
  }

  lemma HandlerSteady(w: World, hd: Handler, a: HandlerAct, r: Ref)
    requires hd.task < |w.heap|
    ensures var w' := HandlerWorld(w, hd.task, hd.pc, a);
      && Steady(w, w', r)
      && (NextOp(hd.pc, a) == Some(RemoveTask) ==> !Stored(w', hd.task))
  {
  }

  lemma HandlerGentle(s: State, h: Thread, a: HandlerAct, s': State, r: Ref)
    requires WorldInv(s.w) && HandlerStep(s, h, a) == Some(s') && r < |s.w.heap|
    requires HandlerInv(s.w, s.handlers[h])
    ensures |s'.w.heap| == |s.w.heap| && Gentle(s, s', r)
  {
    var hd := s.handlers[h];
    HandlerSteady(s.w, hd, a, r);
    if Stored(s'.w, r) {
      HandlerRemovesKept(s.cfg, s.shutdown, s.w, s.handlers, h, a, r);
      if HasSession(s.w, r) && !(NextOp(hd.pc, a) == Some(DropSession) && hd.task == r) {
        HandlerSessions(s.w, hd, a, r);
      }
      assert Sessioned(s', r) ==> Sessioned(s, r);
      assert InHand(s, r) ==> InHand(s', r) || Removes(s', r) || s.w.heap[r].registered || s.w.heap[r].done;
    }
  }

  // ---- southbound RPCs ----

  /** Moving one RPC thread leaves the others' care of `r` alone. */
  lemma RpcsOthers(rpcs: map<Thread, Rpc>, t: Thread, rpc': Rpc, r: Ref)
    requires t in rpcs
    ensures var rpcs' := rpcs[t := rpc'];
      && (RpcRemoves(rpcs, r) ==> RpcRemoves(rpcs', r) || (rpcs[t].Finishing? && rpcs[t].task == r))
      && (rpc'.Finishing? && rpc'.task == r ==> RpcRemoves(rpcs', r))
  {
    var rpcs' := rpcs[t := rpc'];
    if RpcRemoves(rpcs, r) {
      var u :| u in rpcs && rpcs[u].Finishing? && rpcs[u].task == r;
      assert u in rpcs';
    }
    assert rpcs'[t] == rpc';
  }

  lemma RpcLatches(cfg: Config, w: World, rpc: Rpc, o: Oracle, r: Ref)
    requires ValidRpc(rpc, w) && r < |w.heap| && RpcNext(cfg, w, rpc, o).Some?
    ensures var w', rpc' := RpcWorld(cfg, w, rpc, o), RpcNext(cfg, w, rpc, o).value;
      && |w'.heap| == |w.heap| && w'.dropped == w.dropped
      && (w.heap[r].registered ==> w'.heap[r].registered)
      && (w'.heap[r].registered ==> w.heap[r].registered || (Linkish(rpc) && rpc.task == r))
      && (w'.heap[r].done ==> w.heap[r].done || (rpc'.Finishing? && rpc'.task == r))
      && (Stored(w', r) ==> Stored(w, r))
      && (rpc.Finishing? && rpc.task == r && Stored(w', r) ==> rpc'.Finishing? && rpc'.task == r)
  {
  }

  lemma CreatingSessions(cfg: Config, w: World, rpc: Rpc, o: Oracle, r: Ref)
    requires WorldInv(w) && RpcInv(w, rpc) && ValidRpc(rpc, w) && RpcNext(cfg, w, rpc, o).Some?
    requires rpc.Creating?
    ensures var w' := RpcWorld(cfg, w, rpc, o);
      && (HasSession(w, r) ==> HasSession(w', r))
      && HasSession(w', rpc.task)
  {
    var w', rpc' := RpcWorld(cfg, w, rpc, o), RpcNext(cfg, w, rpc, o).value;
    CreateTokens(cfg, w, rpc, o);
    assert w'.sessions[rpc'.key].task == rpc.task;
    if HasSession(w, r) {
      var k :| k in w.sessions && w.sessions[k].task == r;
      assert k in w'.sessions && w'.sessions[k].task == r;
    }
  }

  lemma RpcKeepsKey(cfg: Config, w: World, rpc: Rpc, o: Oracle, k: string)
    requires ValidRpc(rpc, w) && !rpc.Creating? && k in w.sessions
    requires !(rpc.Finishing? && rpc.stage.EndSession? && rpc.key == k)
    ensures var w' := RpcWorld(cfg, w, rpc, o); k in w'.sessions && w'.sessions[k].task == w.sessions[k].task
  {
  }

  /** An RPC that creates no session ends none but its own. */
  lemma OtherRpcSessions(cfg: Config, w: World, rpc: Rpc, o: Oracle, r: Ref)
    requires WorldInv(w) && RpcInv(w, rpc) && ValidRpc(rpc, w) && !rpc.Creating? && HasSession(w, r)
    ensures HasSession(RpcWorld(cfg, w, rpc, o), r) || (rpc.Finishing? && rpc.stage.EndSession? && rpc.task == r)
  {
    var k :| k in w.sessions && w.sessions[k].task == r;
    if rpc.Finishing? && rpc.stage.EndSession? && rpc.key == k {
      SessionOwner(w, k, rpc.task);
    } else {
      RpcKeepsKey(cfg, w, rpc, o, k);
    }
  }

  lemma RpcSessions(cfg: Config, w: World, rpc: Rpc, o: Oracle, r: Ref)
    requires WorldInv(w) && RpcInv(w, rpc) && ValidRpc(rpc, w) && RpcNext(cfg, w, rpc, o).Some?
    ensures var w', rpc' := RpcWorld(cfg, w, rpc, o), RpcNext(cfg, w, rpc, o).value;
      && (HasSession(w, r) ==> HasSession(w', r) || (rpc'.Finishing? && rpc'.task == r))
      && (Linkish(rpc') && rpc'.task == r ==> HasSession(w', r) || (Linkish(rpc) && rpc.task == r))
  {
    if rpc.Creating? {
      CreatingSessions(cfg, w, rpc, o, r);
    } else if HasSession(w, r) {
      OtherRpcSessions(cfg, w, rpc, o, r);
    }
  }

  lemma RpcGentle(s: State, t: Thread, o: Oracle, s': State, r: Ref)
    requires WorldInv(s.w) && RpcStep(s, t, o) == Some(s') && r < |s.w.heap|
    requires RpcInv(s.w, s.rpcs[t])
    ensures |s'.w.heap| == |s.w.heap| && Gentle(s, s', r)
  {
    var rpc, rpc' := s.rpcs[t], s'.rpcs[t];
    RpcLatches(s.cfg, s.w, rpc, o, r);
    RpcSessions(s.cfg, s.w, rpc, o, r);
    RpcsOthers(s.rpcs, t, rpc', r);
    assert InHand(s', r) == InHand(s, r);
    if Stored(s'.w, r) {
      assert Sessioned(s', r) ==> Sessioned(s, r) || HasSession(s'.w, r) by {
        if !s'.w.heap[r].registered && Sessioned(s', r) {
          var u :| u in s'.rpcs && Linkish(s'.rpcs[u]) && s'.rpcs[u].task == r;
          assert u in s.rpcs;
        }
      }
    }
  }

  // ---- GC ----

  lemma GcLatches(cfg: Config, shutdown: bool, w: World, gc: Gc, a: GcAct, r: Ref)
    requires GcNext(cfg, shutdown, w, gc, a).Some? && r < |w.heap|
    ensures var w', gc' := GcWorld(cfg, w, gc, a), GcNext(cfg, shutdown, w, gc, a).value;
      && |w'.heap| == |w.heap| && w'.dropped == w.dropped
      && w'.heap[r].registered == w.heap[r].registered
      && (w'.heap[r].done ==> w.heap[r].done || GcRemoves(gc', r))
      && (Stored(w', r) ==> Stored(w, r))
  {
  }

  lemma GcKeeps(cfg: Config, shutdown: bool, w: World, gc: Gc, a: GcAct, r: Ref)
    requires GcNext(cfg, shutdown, w, gc, a).Some? && r < |w.heap|
    ensures var w', gc' := GcWorld(cfg, w, gc, a), GcNext(cfg, shutdown, w, gc, a).value;
      && (GcRemoves(gc, r) && Stored(w', r) ==> GcRemoves(gc', r))
      && (HasSession(w, r) ==> HasSession(w', r) || GcRemoves(gc', r))
  {
    var w', gc' := GcWorld(cfg, w, gc, a), GcNext(cfg, shutdown, w, gc, a).value;
    if HasSession(w, r) {
      var k :| k in w.sessions && w.sessions[k].task == r;
      if gc.Expiring? {
        assert k in w'.sessions || k in gc'.todo;
        assert k in gc'.todo ==> gc'.todo[k] == r && gc'.todo[k] in gc'.todo.Values;
      } else {
        assert k in w'.sessions;
      }
    }
    if gc.Sweeping? && a.ReportOrphan? && r in gc.todo.Values {
      var k :| k in gc.todo && gc.todo[k] == r;
      assert k == a.key || (gc.todo - {a.key})[k] == r;
    }
  }

  lemma GcGentle(s: State, a: GcAct, s': State, r: Ref)
    requires GcStep(s, a) == Some(s') && r < |s.w.heap|
    ensures |s'.w.heap| == |s.w.heap| && Gentle(s, s', r)
  {
    GcLatches(s.cfg, s.shutdown, s.w, s.gc, a, r);
    GcKeeps(s.cfg, s.shutdown, s.w, s.gc, a, r);
    assert InHand(s', r) == InHand(s, r);
    assert Sessioned(s', r) == Sessioned(s, r);
  }

  // ---- pollers, dispatcher, environment ----

  lemma PollerGentle(s: State, p: nat, a: PollerAct, s': State, r: Ref)
    requires PollerStep(s, p, a) == Some(s') && r < |s.w.heap|
    ensures r < |s'.w.heap| && Gentle(s, s', r)
  {
    if AtPoller(s.pollers, r) {
      var q :| 0 <= q < |s.pollers| && s.pollers[q] == Sending(r);
      if q != p {
        assert s'.pollers[q] == Sending(r);
      } else {
        assert s'.channel[..|s.channel|] == s.channel;
        assert a.Send? ==> s'.channel[|s.channel|] == r;
      }
    }
    if r in s.channel {
      var i :| 0 <= i < |s.channel| && s.channel[i] == r;
      assert s'.channel[i] == r;
    }
    assert Sessioned(s', r) == Sessioned(s, r);
  }

  lemma DispatcherGentle(s: State, a: DispatcherAct, s': State, r: Ref)
    requires RefsInv(s) && DispatcherStep(s, a) == Some(s') && r < |s.w.heap|
    ensures Gentle(s, s', r)
  {
    if a.Receive? && r in s.channel {
      assert s.channel == [s.channel[0]] + s.channel[1..];
    }
    if a.Spawn? {
      var h := s.next;
      assert s'.handlers[h] == Handler(s.dispatcher.value, Resolving);
      if AtHandler(s.handlers, r) {
        var k :| k in s.handlers && s.handlers[k].task == r && !s.handlers[k].pc.Leaving?;
        assert s'.handlers[k] == s.handlers[k];
      }
      if HandlerRemoves(s.handlers, r) {
        var k :| k in s.handlers && s.handlers[k].task == r && s.handlers[k].pc.Leaving?
            && RemoveTask in s.handlers[k].pc.ops;
        assert s'.handlers[k] == s.handlers[k];
      }
    }
    assert Sessioned(s', r) == Sessioned(s, r);
  }

  lemma OtherGentle(s: State, a: Action, s': State, r: Ref)
    requires Step(s, a) == Some(s') && r < |s.w.heap|
    requires a.BeatAction? || a.RpcStart? || a.Elapse? || a.Shutdown?
    requires forall t :: t in s.rpcs ==> t < s.next
    ensures |s'.w.heap| == |s.w.heap| && Gentle(s, s', r)
  {
    if a.RpcStart? {
      if RpcRemoves(s.rpcs, r) {
        var u :| u in s.rpcs && s.rpcs[u].Finishing? && s.rpcs[u].task == r;
        assert s'.rpcs[u] == s.rpcs[u];
      }
      assert forall u :: u in s'.rpcs && u != s.next ==> u in s.rpcs && s'.rpcs[u] == s.rpcs[u];
    }
  }

  // ---- the rest of the invariant ----

  /** How the world may change under a HandleTask that is not moving. */
  ghost predicate Later(w: World, w': World) {
    && |w.heap| <= |w'.heap|
    && w.births <= w'.births
    && (forall r: Ref :: r < |w.heap| ==>
          && (w.heap[r].registered ==> w'.heap[r].registered)
          && (w'.heap[r].sessionToken == w.heap[r].sessionToken || Born(w'.births, w'.heap[r].sessionToken, r))
          && (Stored(w', r) ==> Stored(w, r)))
    && (forall r: Ref :: |w.heap| <= r < |w'.heap| ==> w'.heap[r].sessionToken == "")
  }

  lemma HandlerInvLater(w: World, w': World, hd: Handler)
    requires Later(w, w') && HandlerInv(w, hd)
    ensures HandlerInv(w', hd)
  {
    if hd.pc.Leaving? && hd.pc.token != "" {
      BornGrows(w.births, w'.births, hd.pc.token, hd.task);
    }
  }

  lemma OwnTokenLater(w: World, w': World, r: Ref)
    requires Later(w, w') && r < |w'.heap|
    requires r < |w.heap| ==> OwnToken(w, w.heap[r].sessionToken, r)
    ensures OwnToken(w', w'.heap[r].sessionToken, r)
  {
    if r < |w.heap| && w.heap[r].sessionToken != "" && w'.heap[r].sessionToken == w.heap[r].sessionToken {
      BornGrows(w.births, w'.births, w.heap[r].sessionToken, r);
    }
  }

  lemma RpcLater(cfg: Config, w: World, rpc: Rpc, o: Oracle)
    requires ValidRpc(rpc, w) && RpcInv(w, rpc) && RpcNext(cfg, w, rpc, o).Some?
    ensures Later(w, RpcWorld(cfg, w, rpc, o))
  {
  }

  lemma HandlerLater(w: World, r: Ref, pc: HandlerPc, a: HandlerAct)
    requires r < |w.heap|
    ensures Later(w, HandlerWorld(w, r, pc, a))
  {
  }

  lemma GcLater(cfg: Config, w: World, gc: Gc, a: GcAct)
    requires GcNext(cfg, true, w, gc, a).Some?
    ensures Later(w, GcWorld(cfg, w, gc, a))
  {
  }

  lemma PollerLater(inst: Instance, w: World, p: nat, pc: Poller, a: PollerAct)
    requires pc.Fetching? && a.Fetch? ==> a.regToken !in w.minted
    ensures Later(w, PollerWorld(inst, w, p, pc, a))
  {
  }

  lemma StepLater(s: State, a: Action, s': State)
    requires Step(s, a) == Some(s')
    requires forall t :: t in s.rpcs ==> RpcInv(s.w, s.rpcs[t])
    ensures Later(s.w, s'.w)
  {
    match a
    case RpcAction(t, o) => RpcLater(s.cfg, s.w, s.rpcs[t], o);
    case HandlerAction(h, ha) => HandlerLater(s.w, s.handlers[h].task, s.handlers[h].pc, ha);
    case GcAction(ga) => GcLater(s.cfg, s.w, s.gc, ga);
    case PollerAction(p, pa) => PollerLater(s.cfg.instances[p], s.w, p, s.pollers[p], pa);
    case _ =>
  }

  lemma HandlerOwnInv(s: State, h: Thread, a: HandlerAct, s': State)
    requires HandlerStep(s, h, a) == Some(s') && HandlerInv(s.w, s.handlers[h])
    requires OwnToken(s.w, s.w.heap[s.handlers[h].task].sessionToken, s.handlers[h].task)
    ensures HandlerInv(s'.w, s'.handlers[h])
  {
    var hd := s.handlers[h];
    ExitPathsOrder(s.cfg, s.shutdown, s.w, hd, a);
    HandlerSteady(s.w, hd, a, hd.task);
  }

  /** A HandleTask that is not the one stepping was there before, or has just been spawned. */
  lemma StepOtherHandler(s: State, a: Action, s': State, h: Thread)
    requires Step(s, a) == Some(s') && h in s'.handlers && !(a.HandlerAction? && a.h == h)
    requires forall k :: k in s.handlers ==> k < s.next
    ensures h in s.handlers ==> s'.handlers[h] == s.handlers[h]
    ensures h !in s.handlers ==> s.dispatcher.Some? && s'.handlers[h] == Handler(s.dispatcher.value, Resolving)
  {
  }

  lemma StepHandlers(s: State, a: Action, s': State, h: Thread)
    requires CustodyInv(s) && Step(s, a) == Some(s') && Later(s.w, s'.w)
    requires h in s'.handlers
    ensures HandlerInv(s'.w, s'.handlers[h])
  {
    if a.HandlerAction? && a.h == h {
      HandlerOwnInv(s, h, a.hact, s');
    } else {
      StepOtherHandler(s, a, s', h);
      if h in s.handlers {
        HandlerInvLater(s.w, s'.w, s.handlers[h]);
      }
    }
  }

  lemma PollerRefs(s: State, p: nat, a: PollerAct, s': State)
    requires RefsInv(s) && PollerStep(s, p, a) == Some(s')
    ensures RefsInv(s')
  {
  }

  lemma HandlerRefs(s: State, h: Thread, a: HandlerAct, s': State)
    requires RefsInv(s) && HandlerStep(s, h, a) == Some(s')
    ensures RefsInv(s')
  {
  }

  lemma RpcNextRef(cfg: Config, w: World, rpc: Rpc, o: Oracle)
    requires WorldRefs(w) && ValidRpc(rpc, w) && RpcNext(cfg, w, rpc, o).Some?
    ensures ValidRpc(RpcNext(cfg, w, rpc, o).value, w)
  {
    if rpc.Finding? && rpc.token in w.store.byReg {
      var id := w.store.byReg[rpc.token];
      if id in w.store.tasks {
        assert w.store.tasks[id] < |w.heap|;
      }
    }
  }

  lemma RpcWorldRefs(cfg: Config, w: World, rpc: Rpc, o: Oracle)
    requires WorldRefs(w) && ValidRpc(rpc, w)
    ensures |RpcWorld(cfg, w, rpc, o).heap| == |w.heap| && WorldRefs(RpcWorld(cfg, w, rpc, o))
  {
  }

  lemma RpcRefs(s: State, t: Thread, o: Oracle, s': State)
    requires RefsInv(s) && RpcStep(s, t, o) == Some(s')
    ensures RefsInv(s')
  {
    RpcNextRef(s.cfg, s.w, s.rpcs[t], o);
    RpcWorldRefs(s.cfg, s.w, s.rpcs[t], o);
  }

  lemma GcNextRef(cfg: Config, shutdown: bool, w: World, gc: Gc, a: GcAct, r: Ref)
    requires WorldRefs(w) && GcNext(cfg, shutdown, w, gc, a).Some?
    requires forall q: Ref :: GcRemoves(gc, q) ==> q < |w.heap|
    requires GcRemoves(GcNext(cfg, shutdown, w, gc, a).value, r)
    ensures r < |w.heap|
  {
    var gc' := GcNext(cfg, shutdown, w, gc, a).value;
    if gc.Expiring? {
      var k :| k in gc'.todo && gc'.todo[k] == r;
      assert k in w.sessions && w.sessions[k].task == r;
    } else if gc.Sweeping? && a.ReportOrphan? && r != gc.todo[a.key] {
      var k :| k in gc'.todo && gc'.todo[k] == r;
      assert gc.todo[k] == r;
      assert GcRemoves(gc, r);
    } else if !a.ReportOrphan? {
      assert GcRemoves(gc, r);
    }
  }

  lemma GcRefs(s: State, a: GcAct, s': State)
    requires RefsInv(s) && GcStep(s, a) == Some(s')
    ensures RefsInv(s')
  {
    assert |s'.w.heap| == |s.w.heap|;
    forall r: Ref | GcRemoves(s'.gc, r) ensures r < |s'.w.heap| {
      GcNextRef(s.cfg, s.shutdown, s.w, s.gc, a, r);
    }
  }

  lemma DispatcherRefs(s: State, a: DispatcherAct, s': State)
    requires RefsInv(s) && DispatcherStep(s, a) == Some(s')
    ensures RefsInv(s')
  {
    if a.Receive? {
      assert s'.dispatcher.value == s.channel[0];
    }
  }

  lemma StepRefs(s: State, a: Action, s': State)
    requires RefsInv(s) && Step(s, a) == Some(s')
    ensures RefsInv(s')
  {
    match a
    case PollerAction(p, pa) => PollerRefs(s, p, pa, s');
    case HandlerAction(h, ha) => HandlerRefs(s, h, ha, s');
    case RpcAction(t, o) => RpcRefs(s, t, o, s');
    case GcAction(ga) => GcRefs(s, ga, s');
    case DispatcherAction(da) => DispatcherRefs(s, da, s');
    case RpcStart(rpc) => assert ValidRpc(rpc, s'.w);
    case _ =>
  }

  lemma StepGentle(s: State, a: Action, s': State, r: Ref)
    requires CustodyInv(s) && Step(s, a) == Some(s') && r < |s.w.heap|
    ensures r < |s'.w.heap| && Gentle(s, s', r)
  {
    match a
    case PollerAction(p, pa) => PollerGentle(s, p, pa, s', r);
    case DispatcherAction(da) => DispatcherGentle(s, da, s', r);
    case HandlerAction(h, ha) => HandlerGentle(s, h, ha, s', r);
    case RpcAction(t, o) => RpcGentle(s, t, o, s', r);
    case GcAction(ga) => GcGentle(s, ga, s', r);
    case _ => OtherGentle(s, a, s', r);
  }

  /** A task that appears in this step is the one its poller is about to send. */
  lemma NewTask(s: State, a: Action, s': State, r: Ref)
    requires RefsInv(s) && Step(s, a) == Some(s') && |s.w.heap| <= r < |s'.w.heap|
    requires Later(s.w, s'.w)
    ensures AtPoller(s'.pollers, r) && !s'.w.heap[r].done && !Sessioned(s', r)
  {
    match a
    case PollerAction(p, pa) => assert s'.pollers[p] == Sending(r);
    case _ =>
  }

  lemma StepCustody(s: State, a: Action, s': State)
    requires CustodyInv(s) && Step(s, a) == Some(s')
    ensures CustodyInv(s')
  {
    StepTokens(s, a, s');
    StepRefs(s, a, s');
    StepLater(s, a, s');
    forall h | h in s'.handlers ensures HandlerInv(s'.w, s'.handlers[h]) {
      StepHandlers(s, a, s', h);
    }
    forall r: Ref | r < |s'.w.heap| ensures OwnToken(s'.w, s'.w.heap[r].sessionToken, r) {
      OwnTokenLater(s.w, s'.w, r);
    }
    forall r: Ref | Stored(s'.w, r)
      ensures s'.w.heap[r].done ==> Removes(s', r)
      ensures Sessioned(s', r) ==> HasSession(s'.w, r) || Removes(s', r)
      ensures Accounted(s', r)
    {
      if r < |s.w.heap| {
        StepGentle(s, a, s', r);
        GentleKeeps(s, s', r);
      } else {
        NewTask(s, a, s', r);
      }
    }
  }

  lemma {:induction false} CustodyRun(s: State, acts: seq<Action>, s': State)
    requires CustodyInv(s) && Exec(s, acts) == Some(s')
    ensures CustodyInv(s')
    decreases |acts|
  {
    if |acts| > 0 {
      var prev := Exec(s, acts[..|acts| - 1]).value;
      CustodyRun(s, acts[..|acts| - 1], prev);
      StepCustody(prev, acts[|acts| - 1], s');
    }
  }

  lemma {:induction false} ReachableCustody(cfg: Config, now: int, acts: seq<Action>, s: State)
    requires Reaches(cfg, now, acts, s)
    ensures CustodyInv(s)
    decreases |acts|
  {
    if |acts| > 0 {
      var n := |acts| - 1;
      var prev := Exec(Init(cfg, now), acts[..n]).value;
      ReachableCustody(cfg, now, acts[..n], prev);
      StepCustody(prev, acts[n], s);
    }
  }

  // ---- main results ----

  /** In every reachable state every stored task is in the hands of a poller, the channel,
      the dispatcher or a HandleTask that has not started to leave; or somebody is about to
      remove it; or its runner has registered and has a live session; or a poller lost
      the send to the shutdown. */
  lemma NoOrphanTasks(cfg: Config, now: int, acts: seq<Action>, s: State, id: int)
    requires Reaches(cfg, now, acts, s) && id in s.w.store.tasks
    ensures var r := s.w.store.tasks[id];
      && r < |s.w.heap| && s.w.heap[r].id == id
      && (|| InHand(s, r)
          || Removes(s, r)
          || (s.w.heap[r].registered && !s.w.heap[r].done && HasSession(s.w, r))
          || (r in s.w.dropped))
  {
    ReachableCustody(cfg, now, acts, s);
    assert Stored(s.w, s.w.store.tasks[id]);
  }

  /** Everything but the HTTP servers has come to rest after a shutdown. */
  ghost predicate Quiescent(s: State) {
    && (forall p :: 0 <= p < |s.pollers| ==> s.pollers[p].Stopped?)
    && s.channel == [] && s.dispatcher.None?
    && (forall h :: h in s.handlers ==> Returned(s.handlers[h].pc))
    && (forall t :: t in s.rpcs ==> s.rpcs[t].Accepted? || s.rpcs[t].Rejected?)
    && s.gc.Finished?
  }

  /** What CountActive counts. */
  function ActiveIds(w: World): set<int> {
    set id | id in w.store.tasks && w.store.tasks[id] < |w.heap| && !w.heap[w.store.tasks[id]].status.Terminal?
  }

  /** At quiescence the drain phase waits only for tasks whose registered runner still has
      its session, and for those a poller dropped on shutdown. */
  lemma DrainCountsOnlyLiveTasks(cfg: Config, now: int, acts: seq<Action>, s: State)
    requires Reaches(cfg, now, acts, s) && Quiescent(s)
    ensures forall id :: id in ActiveIds(s.w) ==>
              var r := s.w.store.tasks[id];
              r in s.w.dropped || (s.w.heap[r].registered && !s.w.heap[r].done && HasSession(s.w, r))
  {
    forall id | id in ActiveIds(s.w)
      ensures var r := s.w.store.tasks[id];
        r in s.w.dropped || (s.w.heap[r].registered && !s.w.heap[r].done && HasSession(s.w, r))
    {
      NoOrphanTasks(cfg, now, acts, s, id);
    }
  }
}
