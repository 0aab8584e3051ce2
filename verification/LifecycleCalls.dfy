/** Southbound calls that no other thread interrupts (internal/south/handler.go). */
module LifecycleCalls {
  import opened Wrappers
  import opened SessionTables
  import opened Lifecycle

  /** The run from `s` in which thread `t` takes `n` steps, its generated key being `key`. */
  function Alone(t: Thread, key: string, n: nat): seq<Action> {
    seq(n, _ => RpcAction(t, Oracle(key, true)))
  }

  /** One step of a call. */
  function Once(cfg: Config, at: Option<(World, Rpc)>, key: string): Option<(World, Rpc)> {
    match at
    case None => None
    case Some((w, rpc)) =>
      if !ValidRpc(rpc, w) then None else
      match RpcNext(cfg, w, rpc, Oracle(key, true))
      case None => None
      case Some(rpc') => Some((RpcWorld(cfg, w, rpc, Oracle(key, true)), rpc'))
  }

  function Iterate<T>(f: T -> T, x: T, n: nat): T {
    if n == 0 then x else f(Iterate(f, x, n - 1))
  }

  lemma {:induction false} IterateMore<T>(f: T -> T, x: T, m: nat, n: nat)
    ensures Iterate(f, x, m + n) == Iterate(f, Iterate(f, x, m), n)
    decreases n
  {
    if n > 0 {
      IterateMore(f, x, m, n - 1);
    }
  }

  function Stepping(cfg: Config, key: string): Option<(World, Rpc)> -> Option<(World, Rpc)> {
    at => Once(cfg, at, key)
  }

  /** `n` steps of it. */
  function Advanced(cfg: Config, w: World, rpc: Rpc, key: string, n: nat): Option<(World, Rpc)> {
    Iterate(Stepping(cfg, key), Some((w, rpc)), n)
  }

  lemma AdvancedNext(cfg: Config, w: World, rpc: Rpc, key: string, n: nat)
    ensures Advanced(cfg, w, rpc, key, 0) == Some((w, rpc))
    ensures Advanced(cfg, w, rpc, key, n + 1) == Once(cfg, Advanced(cfg, w, rpc, key, n), key)
  {
  }

  /** The state `s` once thread `t` and the shared objects have got to `at`. */
  function Reached(s: State, t: Thread, at: (World, Rpc)): State {
    s.(w := at.0, rpcs := s.rpcs[t := at.1])
  }

  lemma OnceIsStep(s: State, t: Thread, key: string, at: (World, Rpc))
    requires Once(s.cfg, Some(at), key).Some?
    ensures Step(Reached(s, t, at), RpcAction(t, Oracle(key, true))) ==
            Some(Reached(s, t, Once(s.cfg, Some(at), key).value))
  {
    var next := Once(s.cfg, Some(at), key).value.1;
    assert s.rpcs[t := at.1][t := next] == s.rpcs[t := next];
  }

  lemma NoneStays(cfg: Config, at: Option<(World, Rpc)>, key: string)
    requires Once(cfg, at, key).Some?
    ensures at.Some?
  {
  }

  lemma AloneNext(s: State, prev: State, t: Thread, key: string, n: nat)
    requires n > 0 && Exec(s, Alone(t, key, n - 1)) == Some(prev)
    ensures Exec(s, Alone(t, key, n)) == Step(prev, RpcAction(t, Oracle(key, true)))
  {
    assert Alone(t, key, n)[..n - 1] == Alone(t, key, n - 1);
  }

  /** `n` steps of thread `t` alone are `n` steps of its call. */
  lemma {:induction false} AloneIsAdvanced(s: State, t: Thread, key: string, n: nat)
    requires t in s.rpcs && Advanced(s.cfg, s.w, s.rpcs[t], key, n).Some?
    ensures Exec(s, Alone(t, key, n)) == Some(Reached(s, t, Advanced(s.cfg, s.w, s.rpcs[t], key, n).value))
    decreases n
  {
    if n == 0 {
      AdvancedNext(s.cfg, s.w, s.rpcs[t], key, 0);
      assert s.rpcs[t := s.rpcs[t]] == s.rpcs;
    } else {
      var at := Advanced(s.cfg, s.w, s.rpcs[t], key, n - 1);
      AdvancedNext(s.cfg, s.w, s.rpcs[t], key, n - 1);
      NoneStays(s.cfg, at, key);
      AloneIsAdvanced(s, t, key, n - 1);
      OnceIsStep(s, t, key, at.value);
      AloneNext(s, Reached(s, t, at.value), t, key, n);
    }
  }

  /** A key with a live session: the session is renewed and the request gets through. */
  lemma LiveKey(cfg: Config, w: World, tok: string, req: Request)
    requires tok in w.sessions && w.sessions[tok].task < |w.heap|
    ensures Advanced(cfg, w, LookingUp(tok, req), "", 2) ==
            Some((w.(sessions := w.sessions[tok := Session(w.sessions[tok].task, w.now)]),
                  Authenticated(tok, w.sessions[tok].task, req)))
  {
    var r := w.sessions[tok].task;
    assert Advanced(cfg, w, LookingUp(tok, req), "", 0) == Some((w, LookingUp(tok, req)));
    assert Advanced(cfg, w, LookingUp(tok, req), "", 1) == Some((w, Touching(tok, r, req)));
  }

  /** The registration token of a task whose deadline has not passed. */
  predicate OpensTask(w: World, tok: string, r: Ref) {
    w.store.Find(tok) == Some(r) && r < |w.heap| && w.now <= w.heap[r].createdAt + w.heap[r].ttl
  }

  /** The first three steps of a registration: token found, deadline checked, token consumed. */
  lemma Claimed(cfg: Config, w: World, tok: string, r: Ref, why: Purpose, key: string)
    requires OpensTask(w, tok, r)
    ensures Advanced(cfg, w, Finding(tok, why), key, 3) ==
            Some((w.(store := w.store.Consume(tok)), Creating(tok, r, why)))
  {
    assert Advanced(cfg, w, Finding(tok, why), key, 0) == Some((w, Finding(tok, why)));
    assert Advanced(cfg, w, Finding(tok, why), key, 1) == Some((w, Checking(tok, r, why)));
    assert Advanced(cfg, w, Finding(tok, why), key, 2) == Some((w, Consuming(tok, r, why)));
  }

  /** The shared objects after a registration of `r` under `key`, with everything it changes. */
  function WithSession(w: World, tok: string, r: Ref, key: string): World
    requires r < |w.heap|
  {
    w.(store := w.store.Consume(tok),
       sessions := w.sessions[key := Session(r, w.now)],
       minted := w.minted + {key},
       births := w.births + [Birth(tok, key, r)],
       heap := w.heap[r := w.heap[r].(sessionToken := key, status := Running, registered := true)])
  }

  lemma AdvancedMore(cfg: Config, w: World, rpc: Rpc, key: string, m: nat, n: nat)
    requires Advanced(cfg, w, rpc, key, m).Some?
    ensures var (w1, rpc1) := Advanced(cfg, w, rpc, key, m).value;
      Advanced(cfg, w, rpc, key, m + n) == Advanced(cfg, w1, rpc1, key, n)
  {
    IterateMore(Stepping(cfg, key), Some((w, rpc)), m, n);
  }

  lemma Chain(cfg: Config, w: World, rpc: Rpc, key: string, m: nat, n: nat, w1: World, rpc1: Rpc, w2: World, rpc2: Rpc)
    requires Advanced(cfg, w, rpc, key, m) == Some((w1, rpc1)) && Advanced(cfg, w1, rpc1, key, n) == Some((w2, rpc2))
    ensures Advanced(cfg, w, rpc, key, m + n) == Some((w2, rpc2))
  {
    AdvancedMore(cfg, w, rpc, key, m, n);
  }

  /** Session, link and marks of Register. */
  lemma Opened(cfg: Config, w: World, tok: string, r: Ref, key: string)
    requires r < |w.heap| && |key| == SESSION_TOKEN_CHARS && key !in w.minted && w.store.Consume(tok) == w.store
    ensures Advanced(cfg, w, Creating(tok, r, Explicit), key, 3) == Some((WithSession(w, tok, r, key), Accepted(key)))
  {
    var w1 := w.(sessions := w.sessions[key := Session(r, w.now)], minted := w.minted + {key},
                 births := w.births + [Birth(tok, key, r)]);
    var w2 := w1.(heap := w.heap[r := w.heap[r].(sessionToken := key)]);
    assert Advanced(cfg, w, Creating(tok, r, Explicit), key, 0) == Some((w, Creating(tok, r, Explicit)));
    assert Advanced(cfg, w, Creating(tok, r, Explicit), key, 1) == Some((w1, Linking(tok, r, key, Explicit)));
    assert Advanced(cfg, w, Creating(tok, r, Explicit), key, 2) == Some((w2, Registering(tok, r, key, Explicit)));
    assert w.heap[r := w.heap[r].(sessionToken := key)][r := w2.heap[r].(status := Running, registered := true)]
        == WithSession(w, tok, r, key).heap;
  }

  /** The same for a one-job runner, with the renewal at the same instant. */
  lemma OpenedOneJob(cfg: Config, w: World, tok: string, r: Ref, req: Request)
    requires r < |w.heap| && w.store.Consume(tok) == w.store
    ensures Advanced(cfg, w, Creating(tok, r, OneJob(req)), "", 4) ==
            Some((WithSession(w, tok, r, tok), Authenticated(tok, r, req)))
  {
    var why := OneJob(req);
    var w1 := w.(sessions := w.sessions[tok := Session(r, w.now)], minted := w.minted + {tok},
                 births := w.births + [Birth(tok, tok, r)]);
    var w2 := w1.(heap := w.heap[r := w.heap[r].(sessionToken := tok)]);
    assert w1.sessions[tok := Session(r, w.now)] == w1.sessions;
    assert Advanced(cfg, w, Creating(tok, r, why), "", 0) == Some((w, Creating(tok, r, why)));
    assert Advanced(cfg, w, Creating(tok, r, why), "", 1) == Some((w1, Linking(tok, r, tok, why)));
    assert Advanced(cfg, w, Creating(tok, r, why), "", 2) == Some((w2, Refreshing(tok, r, tok, why)));
    assert Advanced(cfg, w, Creating(tok, r, why), "", 3) == Some((w2, Registering(tok, r, tok, why)));
    assert w.heap[r := w.heap[r].(sessionToken := tok)][r := w2.heap[r].(status := Running, registered := true)]
        == WithSession(w, tok, r, tok).heap;
  }

  /** Register with a token that opens a task: six steps later the token is spent, the session
      exists, the task knows its key, is Running and registered, and the runner has its key. */
  lemma RegisterAlone(cfg: Config, w: World, tok: string, r: Ref, key: string)
    requires OpensTask(w, tok, r) && |key| == SESSION_TOKEN_CHARS && key !in w.minted
    ensures Advanced(cfg, w, Finding(tok, Explicit), key, 6) == Some((WithSession(w, tok, r, key), Accepted(key)))
  {
    var w1 := w.(store := w.store.Consume(tok));
    assert w1.store.byReg - {tok} == w1.store.byReg;
    Opened(cfg, w1, tok, r, key);
    Claimed(cfg, w, tok, r, Explicit, key);
    Chain(cfg, w, Finding(tok, Explicit), key, 3, 3, w1, Creating(tok, r, Explicit),
          WithSession(w, tok, r, key), Accepted(key));
  }

  /** Any other call with a token that opens a task and is no session key: registered and
      authenticated under the token itself. */
  lemma OneJobAlone(cfg: Config, w: World, tok: string, r: Ref, req: Request)
    requires OpensTask(w, tok, r) && tok !in w.sessions
    ensures Advanced(cfg, w, LookingUp(tok, req), "", 8) ==
            Some((WithSession(w, tok, r, tok), Authenticated(tok, r, req)))
  {
    assert Advanced(cfg, w, LookingUp(tok, req), "", 0) == Some((w, LookingUp(tok, req)));
    assert Advanced(cfg, w, LookingUp(tok, req), "", 1) == Some((w, Finding(tok, OneJob(req))));
    AdvancedMore(cfg, w, LookingUp(tok, req), "", 1, 3);
    Claimed(cfg, w, tok, r, OneJob(req), "");
    AdvancedMore(cfg, w, LookingUp(tok, req), "", 4, 4);
    var w1 := w.(store := w.store.Consume(tok));
    assert w1.store.byReg - {tok} == w1.store.byReg;
    OpenedOneJob(cfg, w1, tok, r, req);
  }

  /** A token that opens no task, one second after its deadline or never stored: refused, and
      nothing changes. */
  lemma RefusedAlone(cfg: Config, w: World, tok: string, why: Purpose) returns (n: nat)
    requires forall r :: !OpensTask(w, tok, r)
    requires w.store.Find(tok).Some? ==> w.store.Find(tok).value < |w.heap|
    ensures Advanced(cfg, w, Finding(tok, why), "", n) == Some((w, Rejected))
  {
    assert Advanced(cfg, w, Finding(tok, why), "", 0) == Some((w, Finding(tok, why)));
    if w.store.Find(tok).None? {
      n := 1;
    } else {
      var r := w.store.Find(tok).value;
      assert !OpensTask(w, tok, r);
      assert Advanced(cfg, w, Finding(tok, why), "", 1) == Some((w, Checking(tok, r, why)));
      n := 2;
    }
  }
}
