/** The session table in the runs of the daemon: every run is a run of SessionExpiry
    (internal/session/manager.go, internal/south/handler.go, internal/app/app.go). */
module LifecycleSessions {
  import opened Wrappers
  import opened Lifecycle
  import X = SessionExpiry

  function OfRpc(rpc: Rpc, o: Oracle): Option<X.Event<Ref>> {
    match rpc
    case Touching(tok, _, _) => Some(X.Rpc(tok))
    case Creating(tok, r, why) => Some(X.Create(if why.OneJob? then tok else o.freshKey, r))
    case Refreshing(_, _, key, _) => Some(X.Rpc(key))
    case Finishing(key, _, EndSession) => Some(X.Drop(key))
    case _ => None
  }

  /** What a step of the daemon is to the session table. */
  function OfStep(s: State, a: Action): Option<X.Event<Ref>> {
    match a
    case RpcAction(t, o) => if t in s.rpcs then OfRpc(s.rpcs[t], o) else None
    case HandlerAction(h, ha) =>
      if h in s.handlers && NextOp(s.handlers[h].pc, ha) == Some(DropSession)
      then Some(X.Drop(s.handlers[h].pc.token)) else None
    case GcAction(ga) => if s.gc.Expiring? && ga.Advance? then Some(X.Pass(s.gc.at)) else None
    case _ => None
  }

  /** The session events within a run of the daemon. */
  function Events(s0: State, acts: seq<Action>): seq<X.Timed<Ref>> {
    if |acts| == 0 then [] else
      var prefix := acts[..|acts| - 1];
      match Exec(s0, prefix)
      case None => []
      case Some(s) =>
        (match OfStep(s, acts[|acts| - 1])
         case None => Events(s0, prefix)
         case Some(e) => Events(s0, prefix) + [X.Timed(s.w.now, e)])
  }

  lemma RpcTable(s: State, t: Thread, o: Oracle, s': State)
    requires RpcStep(s, t, o) == Some(s')
    ensures s'.w.now == s.w.now
    ensures s'.w.sessions == match OfRpc(s.rpcs[t], o)
                             case None => s.w.sessions
                             case Some(e) => X.StepTable(s.w.sessions, X.Timed(s.w.now, e), s.cfg.maxAge)
  {
  }

  lemma StepTable(s: State, a: Action, s': State)
    requires Step(s, a) == Some(s')
    ensures s.w.now <= s'.w.now
    ensures s'.w.sessions == match OfStep(s, a)
                             case None => s.w.sessions
                             case Some(e) => X.StepTable(s.w.sessions, X.Timed(s.w.now, e), s.cfg.maxAge)
  {
    match a
    case RpcAction(t, o) => RpcTable(s, t, o, s');
    case _ =>
  }

  lemma {:induction false} TableOfPrefix(run: seq<X.Timed<Ref>>, e: X.Timed<Ref>, maxAge: int, n: nat)
    requires n <= |run|
    ensures X.TableAfter(run + [e], maxAge, n) == X.TableAfter(run, maxAge, n)
    decreases n
  {
    if n > 0 {
      TableOfPrefix(run, e, maxAge, n - 1);
      assert (run + [e])[n - 1] == run[n - 1];
    }
  }

  /** A pass judges by a time stamp that is no later than the clock. */
  predicate TickInv(s: State) {
    (s.gc.Inspecting? ==> s.gc.at <= s.w.now) && (s.gc.Expiring? ==> s.gc.at <= s.w.now)
  }

  lemma StepTick(s: State, a: Action, s': State)
    requires TickInv(s) && Step(s, a) == Some(s') && s.w.now <= s'.w.now
    ensures TickInv(s')
  {
  }

  lemma NextEvent(s: State, a: Action, s': State, run: seq<X.Timed<Ref>>)
    requires TickInv(s) && Step(s, a) == Some(s') && X.Monotone(run) && (run != [] ==> run[|run| - 1].at <= s.w.now)
    requires s.w.sessions == X.TableAfter(run, s.cfg.maxAge, |run|)
    ensures var run' := match OfStep(s, a) case None => run case Some(e) => run + [X.Timed(s.w.now, e)];
      X.Monotone(run') && (run' != [] ==> run'[|run'| - 1].at <= s'.w.now)
      && s'.w.sessions == X.TableAfter(run', s.cfg.maxAge, |run'|)
  {
    StepTable(s, a, s');
    match OfStep(s, a)
    case None =>
    case Some(e) => TableOfPrefix(run, X.Timed(s.w.now, e), s.cfg.maxAge, |run|);
  }

  /** Every run of the daemon is a run of SessionExpiry that ends with the same session table,
      so what is proved there of sessions that talk and sessions that are silent holds of the
      daemon. */
  lemma {:induction false} DaemonIsSessionRun(cfg: Config, now: int, acts: seq<Action>, s: State)
    requires Reaches(cfg, now, acts, s)
    ensures var run := Events(Init(cfg, now), acts);
      X.Monotone(run) && s.w.sessions == X.TableAfter(run, cfg.maxAge, |run|)
      && (run != [] ==> run[|run| - 1].at <= s.w.now)
    ensures TickInv(s)
    decreases |acts|
  {
    if |acts| > 0 {
      var prefix, a := acts[..|acts| - 1], acts[|acts| - 1];
      var prev := Exec(Init(cfg, now), prefix).value;
      DaemonIsSessionRun(cfg, now, prefix, prev);
      ReachableConfig(cfg, now, prefix, prev);
      NextEvent(prev, a, s, Events(Init(cfg, now), prefix));
      StepTable(prev, a, s);
      StepTick(prev, a, s);
    }
  }
}
