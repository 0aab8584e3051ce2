/** Registration tokens are single-use, and a session key that has left the
    manager is never accepted again. */
module LifecycleTokens {
  import opened Wrappers
  import opened Lifecycle

  /** Some session was created for `r` under `key`. */
  predicate Born(births: seq<Birth>, key: string, r: Ref) {
    exists i :: 0 <= i < |births| && births[i].key == key && births[i].task == r
  }

  /** Some session was paid for with the registration token `tok`. */
  predicate Paid(births: seq<Birth>, tok: string) {
    exists i :: 0 <= i < |births| && births[i].regToken == tok
  }

  /** The session key an RPC thread has obtained or is about to obtain. */
  function HeldKey(rpc: Rpc): Option<string> {
    match rpc
    case Touching(tok, _, _) => Some(tok)
    case Linking(_, _, key, _) => Some(key)
    case Refreshing(_, _, key, _) => Some(key)
    case Registering(_, _, key, _) => Some(key)
    case Authenticated(key, _, _) => Some(key)
    case Finishing(key, _, _) => Some(key)
    case _ => None
  }

  predicate BirthsInv(w: World) {
    && (forall i :: 0 <= i < |w.births| ==>
          var b := w.births[i];
          && |b.regToken| == REG_TOKEN_CHARS && b.regToken in w.minted && b.regToken !in w.store.byReg
          && b.key in w.minted && (b.key == b.regToken || |b.key| == SESSION_TOKEN_CHARS))
    && (forall i, j :: 0 <= i < j < |w.births| ==>
          w.births[i].regToken != w.births[j].regToken && w.births[i].key != w.births[j].key)
  }

  predicate WorldInv(w: World) {
    && BirthsInv(w)
    && (forall tok :: tok in w.store.byReg ==> |tok| == REG_TOKEN_CHARS && tok in w.minted)
    && (forall k :: k in w.sessions ==> Born(w.births, k, w.sessions[k].task))
  }

  /** A thread between consuming a token and creating its session holds a ticket for it. */
  predicate RpcInv(w: World, rpc: Rpc) {
    && (rpc.Creating? ==>
          && |rpc.token| == REG_TOKEN_CHARS && rpc.token in w.minted
          && rpc.token !in w.store.byReg && !Paid(w.births, rpc.token))
    && (HeldKey(rpc).Some? && RpcTask(rpc).Some? ==> Born(w.births, HeldKey(rpc).value, RpcTask(rpc).value))
  }

  predicate TokenInv(s: State) {
    && WorldInv(s.w)
    && (forall t :: t in s.rpcs ==> t < s.next && RpcInv(s.w, s.rpcs[t]))
    && (forall t, u :: t in s.rpcs && u in s.rpcs && t != u && s.rpcs[t].Creating? && s.rpcs[u].Creating? ==>
          s.rpcs[t].token != s.rpcs[u].token)
  }

  lemma BornGrows(a: seq<Birth>, b: seq<Birth>, key: string, r: Ref)
    requires a <= b && Born(a, key, r)
    ensures Born(b, key, r)
  {
    var i :| 0 <= i < |a| && a[i].key == key && a[i].task == r;
    assert b[i] == a[i];
  }

  lemma PaidAppend(a: seq<Birth>, b: Birth, tok: string)
    ensures Paid(a + [b], tok) <==> Paid(a, tok) || b.regToken == tok
  {
    if Paid(a, tok) {
      var i :| 0 <= i < |a| && a[i].regToken == tok;
      assert (a + [b])[i] == a[i];
    }
    assert (a + [b])[|a|] == b;
  }

  /** No session is added, none changes task, and no token becomes claimable. */
  predicate Quiet(w: World, w': World) {
    && w'.births == w.births && w'.minted == w.minted
    && (forall tok :: tok in w'.store.byReg ==> tok in w.store.byReg)
    && (forall k :: k in w'.sessions ==> k in w.sessions && w'.sessions[k].task == w.sessions[k].task)
  }

  /** Steps that add no session and no new index entry keep every thread's claims. */
  lemma QuietWorld(w: World, w': World)
    requires WorldInv(w)
    requires Quiet(w, w')
    ensures WorldInv(w')
    ensures forall rpc :: RpcInv(w, rpc) ==> RpcInv(w', rpc)
  {
  }

  lemma HandlerQuiet(w: World, r: Ref, pc: HandlerPc, a: HandlerAct)
    requires r < |w.heap|
    ensures Quiet(w, HandlerWorld(w, r, pc, a))
  {
  }

  lemma GcQuiet(cfg: Config, w: World, gc: Gc, a: GcAct)
    requires GcNext(cfg, true, w, gc, a).Some?
    ensures Quiet(w, GcWorld(cfg, w, gc, a))
  {
  }

  lemma RpcQuiet(cfg: Config, w: World, rpc: Rpc, o: Oracle)
    requires ValidRpc(rpc, w) && !rpc.Creating?
    ensures Quiet(w, RpcWorld(cfg, w, rpc, o))
  {
  }

  lemma FetchTokens(inst: Instance, w: World, p: nat, pc: Poller, a: PollerAct, s: State)
    requires WorldInv(w) && s.w == w && PollerNext(s, pc, a).Some?
    ensures WorldInv(PollerWorld(inst, w, p, pc, a))
    ensures forall rpc :: RpcInv(w, rpc) ==> RpcInv(PollerWorld(inst, w, p, pc, a), rpc)
  {
  }

  /** The step that creates a session: the ticket is spent and the key is new. */
  lemma CreateTokens(cfg: Config, w: World, rpc: Rpc, o: Oracle)
    requires WorldInv(w) && ValidRpc(rpc, w) && rpc.Creating? && RpcInv(w, rpc)
    requires RpcNext(cfg, w, rpc, o).Some?
    ensures var w', rpc' := RpcWorld(cfg, w, rpc, o), RpcNext(cfg, w, rpc, o).value;
      && WorldInv(w') && RpcInv(w', rpc') && rpc'.Linking?
      && rpc'.key !in w.sessions && (forall r :: !Born(w.births, rpc'.key, r))
      && w'.births == w.births + [Birth(rpc.token, rpc'.key, rpc.task)]
      && (forall other :: RpcInv(w, other) && (other.Creating? ==> other.token != rpc.token) ==> RpcInv(w', other))
  {
    var w', rpc' := RpcWorld(cfg, w, rpc, o), RpcNext(cfg, w, rpc, o).value;
    var b := Birth(rpc.token, rpc'.key, rpc.task);
    assert w'.births[|w.births|] == b;
    forall k | k in w'.sessions ensures Born(w'.births, k, w'.sessions[k].task) {
      if k != rpc'.key {
        BornGrows(w.births, w'.births, k, w.sessions[k].task);
      }
    }
    forall other | RpcInv(w, other) && (other.Creating? ==> other.token != rpc.token)
      ensures RpcInv(w', other)
    {
      if other.Creating? {
        PaidAppend(w.births, b, other.token);
      }
      if HeldKey(other).Some? && RpcTask(other).Some? {
        BornGrows(w.births, w'.births, HeldKey(other).value, RpcTask(other).value);
      }
    }
  }

  /** A thread holds the key it held before, or one it has just found in the manager. */
  lemma NextHeldKey(cfg: Config, w: World, rpc: Rpc, o: Oracle)
    requires ValidRpc(rpc, w) && !rpc.Creating? && RpcNext(cfg, w, rpc, o).Some?
    ensures var rpc' := RpcNext(cfg, w, rpc, o).value;
      && (rpc'.Creating? ==> rpc.Consuming? && rpc'.token == rpc.token && rpc.token in w.store.byReg
                             && RpcWorld(cfg, w, rpc, o) == w.(store := w.store.Consume(rpc.token)))
      && (HeldKey(rpc').Some? && RpcTask(rpc').Some? ==>
            || (HeldKey(rpc') == HeldKey(rpc) && RpcTask(rpc') == RpcTask(rpc))
            || (HeldKey(rpc').value in w.sessions && RpcTask(rpc').value == w.sessions[HeldKey(rpc').value].task))
  {
  }

  /** A token still in the index has paid for nothing. */
  lemma ConsumedTicket(w: World, tok: string)
    requires WorldInv(w) && tok in w.store.byReg
    ensures |tok| == REG_TOKEN_CHARS && tok in w.minted && !Paid(w.births, tok)
  {
  }

  /** A thread's own claims after a step that creates no session. */
  lemma RpcKeepsClaims(cfg: Config, w: World, rpc: Rpc, o: Oracle)
    requires WorldInv(w) && ValidRpc(rpc, w) && RpcInv(w, rpc) && !rpc.Creating?
    requires RpcNext(cfg, w, rpc, o).Some?
    ensures var rpc' := RpcNext(cfg, w, rpc, o).value;
      && RpcInv(RpcWorld(cfg, w, rpc, o), rpc')
      && (rpc'.Creating? ==> rpc'.token in w.store.byReg)
  {
    var w', rpc' := RpcWorld(cfg, w, rpc, o), RpcNext(cfg, w, rpc, o).value;
    NextHeldKey(cfg, w, rpc, o);
    if rpc'.Creating? {
      ConsumedTicket(w, rpc'.token);
      assert w'.births == w.births;
    } else {
      RpcQuiet(cfg, w, rpc, o);
      QuietWorld(w, w');
      assert RpcInv(w, rpc');
    }
  }

  lemma RpcTokens(s: State, t: Thread, o: Oracle, s': State)
    requires TokenInv(s) && RpcStep(s, t, o) == Some(s')
    ensures TokenInv(s')
  {
    var rpc := s.rpcs[t];
    if rpc.Creating? {
      CreateTokens(s.cfg, s.w, rpc, o);
    } else {
      RpcQuiet(s.cfg, s.w, rpc, o);
      QuietWorld(s.w, s'.w);
      RpcKeepsClaims(s.cfg, s.w, rpc, o);
    }
  }

  /** Steps of the dispatcher, HandleTask, the heartbeats, GC and the environment. */
  lemma OtherStepsQuiet(s: State, a: Action, s': State)
    requires Step(s, a) == Some(s') && !a.RpcAction? && !a.PollerAction?
    ensures Quiet(s.w, s'.w)
    ensures s.next <= s'.next
    ensures s'.rpcs == if a.RpcStart? then s.rpcs[s.next := a.rpc] else s.rpcs
    ensures a.RpcStart? ==> IsFirst(a.rpc) && s.next < s'.next
  {
    match a
    case HandlerAction(h, ha) => HandlerQuiet(s.w, s.handlers[h].task, s.handlers[h].pc, ha);
    case GcAction(ga) => GcQuiet(s.cfg, s.w, s.gc, ga);
    case _ =>
  }

  lemma BirthsGrow(s: State, a: Action, s': State)
    requires TokenInv(s) && Step(s, a) == Some(s')
    ensures s.w.births <= s'.w.births
  {
    if a.RpcAction? {
      if !s.rpcs[a.t].Creating? {
        RpcQuiet(s.cfg, s.w, s.rpcs[a.t], a.o);
      }
    } else if !a.PollerAction? {
      OtherStepsQuiet(s, a, s');
    }
  }

  lemma StepTokens(s: State, a: Action, s': State)
    requires TokenInv(s) && Step(s, a) == Some(s')
    ensures TokenInv(s')
  {
    if a.RpcAction? {
      RpcTokens(s, a.t, a.o, s');
    } else if a.PollerAction? {
      FetchTokens(s.cfg.instances[a.p], s.w, a.p, s.pollers[a.p], a.pact, s);
    } else {
      OtherStepsQuiet(s, a, s');
      QuietWorld(s.w, s'.w);
    }
  }

  lemma {:induction false} ReachableTokens(cfg: Config, now: int, acts: seq<Action>, s: State)
    requires Reaches(cfg, now, acts, s)
    ensures TokenInv(s)
    decreases |acts|
  {
    if |acts| > 0 {
      var n := |acts| - 1;
      var prev := Exec(Init(cfg, now), acts[..n]).value;
      ReachableTokens(cfg, now, acts[..n], prev);
      StepTokens(prev, acts[n], s);
    }
  }

  /** Over any run, however Register and one-job calls race: every registration token
      pays for at most one session, no session key is ever issued twice, and every
      session in the manager is one of those recorded. */
  lemma TokensSingleUse(cfg: Config, now: int, acts: seq<Action>, s: State)
    requires Reaches(cfg, now, acts, s)
    ensures forall i, j :: 0 <= i < j < |s.w.births| ==>
              s.w.births[i].regToken != s.w.births[j].regToken && s.w.births[i].key != s.w.births[j].key
    ensures forall i :: 0 <= i < |s.w.births| ==>
              var b := s.w.births[i];
              && b.regToken !in s.w.store.byReg && |b.regToken| == 64 && (b.key == b.regToken || |b.key| == 32)
    ensures forall k :: k in s.w.sessions ==> Born(s.w.births, k, s.w.sessions[k].task)
  {
    ReachableTokens(cfg, now, acts, s);
  }

  // ---- dead keys ----

  /** A session existed under `k` and is gone. */
  predicate Dead(w: World, k: string) {
    k !in w.sessions && exists i :: 0 <= i < |w.births| && w.births[i].key == k
  }

  /** The token or key an RPC thread presents or has been granted. */
  function PresentedKey(rpc: Rpc): Option<string> {
    match rpc
    case Checking(tok, _, _) => Some(tok)
    case Consuming(tok, _, _) => Some(tok)
    case Creating(tok, _, _) => Some(tok)
    case Accepted(key) => Some(key)
    case _ => HeldKey(rpc)
  }

  /** `authenticate` has accepted `k`, or Register has granted it. */
  predicate HasAccepted(rpc: Rpc, k: string) {
    (rpc.Linking? || rpc.Refreshing? || rpc.Registering? || rpc.Authenticated? || rpc.Finishing? || rpc.Accepted?)
    && rpc.key == k
  }

  lemma DeadKeyUnusable(s: State, k: string)
    requires TokenInv(s) && Dead(s.w, k)
    ensures k in s.w.minted && k !in s.w.store.byReg
    ensures forall t :: t in s.rpcs && s.rpcs[t].Creating? ==> s.rpcs[t].token != k
  {
    var i :| 0 <= i < |s.w.births| && s.w.births[i].key == k;
    forall t | t in s.rpcs && s.rpcs[t].Creating?
      ensures s.rpcs[t].token != k
    {
      if s.w.births[i].key == s.w.births[i].regToken {
        assert Paid(s.w.births, k);
      }
    }
  }

  /** `k` is dead and no thread numbered `n` or later has got anywhere with it. */
  predicate LateThreadsFail(s: State, k: string, n: Thread) {
    && Dead(s.w, k)
    && (forall t :: t in s.rpcs && t >= n ==> PresentedKey(s.rpcs[t]) != Some(k))
  }

  /** A session key created now is not the dead one. */
  lemma DeadKeyAvoided(w: World, w': World, k: string, key: string, rpc: Rpc)
    requires Dead(w, k) && w.births <= w'.births && (forall r :: !Born(w.births, key, r))
    requires forall l :: l in w'.sessions && l != key ==> l in w.sessions
    ensures Dead(w', k) && key != k
  {
    var i :| 0 <= i < |w.births| && w.births[i].key == k;
    assert Born(w.births, k, w.births[i].task);
    assert w'.births[i] == w.births[i];
  }

  /** A thread that has not got anywhere with a dead key does not get anywhere now. */
  lemma DeadKeyRefused(cfg: Config, w: World, rpc: Rpc, o: Oracle, k: string)
    requires ValidRpc(rpc, w) && RpcNext(cfg, w, rpc, o).Some?
    requires k !in w.sessions && k !in w.store.byReg && !rpc.Creating?
    requires PresentedKey(rpc) != Some(k)
    ensures PresentedKey(RpcNext(cfg, w, rpc, o).value) != Some(k)
  {
  }

  lemma DeadKeyWorld(cfg: Config, w: World, rpc: Rpc, o: Oracle, k: string)
    requires WorldInv(w) && RpcInv(w, rpc) && ValidRpc(rpc, w) && RpcNext(cfg, w, rpc, o).Some?
    requires Dead(w, k) && k !in w.store.byReg && (rpc.Creating? ==> rpc.token != k)
    ensures Dead(RpcWorld(cfg, w, rpc, o), k)
    ensures PresentedKey(rpc) != Some(k) ==> PresentedKey(RpcNext(cfg, w, rpc, o).value) != Some(k)
  {
    var w', rpc' := RpcWorld(cfg, w, rpc, o), RpcNext(cfg, w, rpc, o).value;
    if rpc.Creating? {
      CreateTokens(cfg, w, rpc, o);
      DeadKeyAvoided(w, w', k, rpc'.key, rpc);
    } else {
      RpcQuiet(cfg, w, rpc, o);
      if PresentedKey(rpc) != Some(k) {
        DeadKeyRefused(cfg, w, rpc, o, k);
      }
    }
  }

  lemma DeadKeyRpc(s: State, t: Thread, o: Oracle, s': State, k: string)
    requires TokenInv(s) && Dead(s.w, k) && RpcStep(s, t, o) == Some(s')
    ensures Dead(s'.w, k)
    ensures PresentedKey(s.rpcs[t]) != Some(k) ==> PresentedKey(s'.rpcs[t]) != Some(k)
  {
    DeadKeyUnusable(s, k);
    DeadKeyWorld(s.cfg, s.w, s.rpcs[t], o, k);
  }

  lemma DeadKeyStep(s: State, a: Action, s': State, k: string, n: Thread)
    requires TokenInv(s) && LateThreadsFail(s, k, n) && n <= s.next && Step(s, a) == Some(s')
    ensures LateThreadsFail(s', k, n) && n <= s'.next
  {
    DeadKeyUnusable(s, k);
    if a.RpcAction? {
      DeadKeyRpc(s, a.t, a.o, s', k);
    } else if a.PollerAction? {
    } else {
      OtherStepsQuiet(s, a, s');
    }
  }

  lemma DeadKeyStays(s: State, a: Action, s': State, key: string)
    requires TokenInv(s) && Step(s, a) == Some(s') && Dead(s.w, key)
    ensures key !in s'.w.sessions
  {
    if a.RpcAction? {
      DeadKeyRpc(s, a.t, a.o, s', key);
    } else if !a.PollerAction? {
      OtherStepsQuiet(s, a, s');
    }
  }

  lemma {:induction false} DeadKeyRun(s: State, acts: seq<Action>, s': State, k: string, n: Thread)
    requires TokenInv(s) && LateThreadsFail(s, k, n) && n <= s.next && Exec(s, acts) == Some(s')
    ensures TokenInv(s') && LateThreadsFail(s', k, n) && n <= s'.next
    decreases |acts|
  {
    if |acts| > 0 {
      var m := |acts| - 1;
      var prev := Exec(s, acts[..m]).value;
      DeadKeyRun(s, acts[..m], prev, k, n);
      StepTokens(prev, acts[m], s');
      DeadKeyStep(prev, acts[m], s', k, n);
    }
  }

  /** Once a session key has left the manager, however it left, it never comes back and
      no RPC thread that starts later is accepted with it, whatever else runs. */
  lemma DeadKeysStayDead(cfg: Config, now: int, before: seq<Action>, s: State, after: seq<Action>, s': State, k: string)
    requires Reaches(cfg, now, before, s) && Dead(s.w, k) && Exec(s, after) == Some(s')
    ensures k !in s'.w.sessions && k !in s'.w.store.byReg
    ensures forall t :: t in s'.rpcs && t >= s.next ==> !HasAccepted(s'.rpcs[t], k)
  {
    ReachableTokens(cfg, now, before, s);
    DeadKeyRun(s, after, s', k, s.next);
    DeadKeyUnusable(s', k);
  }
}
