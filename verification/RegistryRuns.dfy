/** The lazily evicted token registry against one that never forgets, over the runs of the
    daemon (internal/south/proxy.go, internal/south/handler.go).

    `full` keeps the last entry put for every token and is never evicted from. */
module RegistryRuns {
  import opened Wrappers
  import opened Registry
  import opened LifecycleTokens

  datatype State = State(l: L.State, entries: Entries<L.Ref>, full: Entries<L.Ref>)

  datatype Action =
    | Daemon(a: L.Action)
    | Fetch(t: L.Thread, tokens: seq<string>)
    | Lookup(token: string)

  function Init(cfg: L.Config, now: int): State {
    State(L.Init(cfg, now), map[], map[])
  }

  predicate Routes(w: L.World, e: Entry<L.Ref>) {
    e.task < |w.heap| && Alive(e, w.now, w.heap[e.task].status.Terminal?, e.sessionToken in w.sessions)
  }

  /** What lookup answers from a given map of entries. */
  function Answer(w: L.World, entries: Entries<L.Ref>, token: string): Option<string> {
    if token in entries && Routes(w, entries[token]) then Some(entries[token].instance) else None
  }

  function Evicted(s: State, token: string): Entries<L.Ref> {
    if Answer(s.l.w, s.entries, token).Some? then s.entries else s.entries - {token}
  }

  /** FetchTask past `authenticate`: what putTaskTokens stores for its session. */
  function Fetched(l: L.State, t: L.Thread): Option<Entry<L.Ref>> {
    if t in l.rpcs && l.rpcs[t].Authenticated? && l.rpcs[t].req.FetchTask? && l.rpcs[t].task < |l.w.heap|
    then Some(Entry(l.w.heap[l.rpcs[t].task].instance, l.rpcs[t].task, l.rpcs[t].key, l.w.now + ENTRY_TTL))
    else None
  }

  function Step(s: State, a: Action): Option<State> {
    match a
    case Daemon(b) =>
      (match L.Step(s.l, b)
       case None => None
       case Some(l') => Some(s.(l := l')))
    case Fetch(t, tokens) =>
      (match Fetched(s.l, t)
       case None => None
       case Some(e) => Some(s.(entries := PutAll(s.entries, tokens, e), full := PutAll(s.full, tokens, e))))
    case Lookup(token) => Some(s.(entries := Evicted(s, token)))
  }

  function Exec(s: State, acts: seq<Action>): Option<State> {
    if |acts| == 0 then Some(s) else
    match Exec(s, acts[..|acts| - 1])
    case None => None
    case Some(s') => Step(s', acts[|acts| - 1])
  }

  /** Only FetchTask stores tokens, for its session's own task and for a day. */
  lemma FetchedIff(l: L.State, t: L.Thread, e: Entry<L.Ref>)
    ensures Fetched(l, t) == Some(e) <==>
            && t in l.rpcs && e.task < |l.w.heap| && l.rpcs[t] == L.Authenticated(e.sessionToken, e.task, L.FetchTask)
            && e.instance == l.w.heap[e.task].instance && e.expireAt == l.w.now + 86400
  {
  }

  // ---- what overwrites a status ----

  /** The task whose status this step sets to Dispatched or Running. */
  function Overwritten(l: L.State, a: L.Action): Option<L.Ref> {
    match a
    case HandlerAction(h, ha) =>
      if h in l.handlers && l.handlers[h].pc.Dispatching? && ha.MarkDispatched? then Some(l.handlers[h].task) else None
    case RpcAction(t, o) =>
      if t in l.rpcs && l.rpcs[t].Registering? then Some(l.rpcs[t].task) else None
    case _ => None
  }

  lemma RpcStatus(cfg: L.Config, w: L.World, rpc: L.Rpc, o: L.Oracle, r: L.Ref)
    requires L.ValidRpc(rpc, w) && r < |w.heap|
    ensures var w' := L.RpcWorld(cfg, w, rpc, o);
      && w'.now == w.now && |w'.heap| == |w.heap|
      && (rpc.Registering? ==> w'.sessions == w.sessions)
      && (w.heap[r].status.Terminal? ==> (!w'.heap[r].status.Terminal? <==> rpc.Registering? && rpc.task == r))
  {
  }

  lemma HandlerStatus(w: L.World, q: L.Ref, pc: L.HandlerPc, a: L.HandlerAct, r: L.Ref)
    requires q < |w.heap| && r < |w.heap|
    ensures var w' := L.HandlerWorld(w, q, pc, a);
      && w'.now == w.now && |w'.heap| == |w.heap|
      && (pc.Dispatching? ==> w'.sessions == w.sessions)
      && (w.heap[r].status.Terminal? ==>
            (!w'.heap[r].status.Terminal? <==> pc.Dispatching? && a.MarkDispatched? && q == r))
  {
  }

  /** A Terminal status gives way exactly to MarkDispatched and MarkRunnerRegistered. */
  lemma TerminalGivesWayIff(l: L.State, a: L.Action, l': L.State, r: L.Ref)
    requires L.Step(l, a) == Some(l') && r < |l.w.heap|
    ensures r < |l'.w.heap| && l.w.now <= l'.w.now
    ensures l.w.heap[r].status.Terminal? ==> (!l'.w.heap[r].status.Terminal? <==> Overwritten(l, a) == Some(r))
    ensures Overwritten(l, a).Some? ==> l'.w.sessions == l.w.sessions && l'.w.now == l.w.now
  {
    match a
    case RpcAction(t, o) => RpcStatus(l.cfg, l.w, l.rpcs[t], o, r);
    case HandlerAction(h, ha) => HandlerStatus(l.w, l.handlers[h].task, l.handlers[h].pc, ha, r);
    case _ =>
  }

  predicate KeyBorn(w: L.World, key: string) {
    exists i :: 0 <= i < |w.births| && w.births[i].key == key
  }

  /** A session that is gone stays gone. */
  lemma GoneForGood(l: L.State, a: L.Action, l': L.State, key: string)
    requires TokenInv(l) && L.Step(l, a) == Some(l') && KeyBorn(l.w, key)
    ensures KeyBorn(l'.w, key) && (key in l'.w.sessions ==> key in l.w.sessions)
  {
    BirthsGrow(l, a, l');
    var i :| 0 <= i < |l.w.births| && l.w.births[i].key == key;
    assert l'.w.births[i] == l.w.births[i];
    if key !in l.w.sessions {
      assert Dead(l.w, key);
      DeadKeyStays(l, a, l', key);
    }
  }

  // ---- invariant ----

  /** An entry of an allocated task and a session that has existed. */
  predicate Known(w: L.World, e: Entry<L.Ref>) {
    e.task < |w.heap| && KeyBorn(w, e.sessionToken)
  }

  predicate EntriesInv(s: State) {
    && (forall token :: token in s.full ==> Known(s.l.w, s.full[token]))
    && (forall token :: token in s.entries ==> token in s.full && s.full[token] == s.entries[token])
  }

  /** No evicted entry would route. */
  predicate Agrees(s: State) {
    forall token :: token in s.full && token !in s.entries ==> !Routes(s.l.w, s.full[token])
  }

  lemma AgreesIff(s: State)
    requires EntriesInv(s)
    ensures Agrees(s) <==> forall token :: Answer(s.l.w, s.entries, token) == Answer(s.l.w, s.full, token)
  {
    if !Agrees(s) {
      var token :| token in s.full && token !in s.entries && Routes(s.l.w, s.full[token]);
      assert Answer(s.l.w, s.entries, token) != Answer(s.l.w, s.full, token);
    }
  }

  /** The step makes `e` route again: it takes the entry's task out of Terminal while the
      entry is unexpired and its session live. */
  predicate Revives(l: L.State, a: L.Action, e: Entry<L.Ref>) {
    && Overwritten(l, a) == Some(e.task) && e.task < |l.w.heap| && l.w.heap[e.task].status.Terminal?
    && l.w.now < e.expireAt && e.sessionToken in l.w.sessions
  }

  lemma RevivesIff(l: L.State, a: L.Action, l': L.State, e: Entry<L.Ref>)
    requires TokenInv(l) && L.Step(l, a) == Some(l') && Known(l.w, e)
    ensures Known(l'.w, e)
    ensures !Routes(l.w, e) ==> (Routes(l'.w, e) <==> Revives(l, a, e))
  {
    TerminalGivesWayIff(l, a, l', e.task);
    GoneForGood(l, a, l', e.sessionToken);
  }

  lemma FetchedBorn(l: L.State, t: L.Thread)
    requires TokenInv(l) && Fetched(l, t).Some?
    ensures Known(l.w, Fetched(l, t).value)
  {
    assert RpcInv(l.w, l.rpcs[t]);
    var i :| 0 <= i < |l.w.births| && l.w.births[i].key == l.rpcs[t].key && l.w.births[i].task == l.rpcs[t].task;
  }

  lemma BothGet(s: State, m: Entries<L.Ref>)
    requires EntriesInv(s) && (forall token :: token in m ==> Known(s.l.w, m[token]))
    ensures var s' := s.(entries := s.entries + m, full := s.full + m); EntriesInv(s') && (Agrees(s) ==> Agrees(s'))
  {
  }

  lemma FetchEntries(s: State, t: L.Thread, tokens: seq<string>, s': State)
    requires TokenInv(s.l) && EntriesInv(s) && Step(s, Fetch(t, tokens)) == Some(s')
    ensures EntriesInv(s') && (Agrees(s) ==> Agrees(s'))
  {
    var e := Fetched(s.l, t).value;
    FetchedBorn(s.l, t);
    PutAllIs(s.entries, tokens, e);
    PutAllIs(s.full, tokens, e);
    BothGet(s, map token | token in tokens :: e);
  }

  /** The step is one of the daemon's that revives an evicted entry. */
  predicate Revived(s: State, a: Action) {
    a.Daemon? && exists token :: token in s.full && token !in s.entries && Revives(s.l, a.a, s.full[token])
  }

  lemma DaemonEntries(s: State, a: L.Action, s': State)
    requires TokenInv(s.l) && EntriesInv(s) && Step(s, Daemon(a)) == Some(s')
    ensures EntriesInv(s')
    ensures Agrees(s) ==> (Agrees(s') <==> !Revived(s, Daemon(a)))
  {
    forall token | token in s.full
      ensures Known(s'.l.w, s.full[token])
      ensures !Routes(s.l.w, s.full[token]) ==> (Routes(s'.l.w, s.full[token]) <==> Revives(s.l, a, s.full[token]))
    {
      RevivesIff(s.l, a, s'.l, s.full[token]);
    }
  }

  lemma StepEntries(s: State, a: Action, s': State)
    requires TokenInv(s.l) && EntriesInv(s) && Step(s, a) == Some(s')
    ensures EntriesInv(s') && (Agrees(s) ==> (Agrees(s') <==> !Revived(s, a)))
  {
    match a
    case Daemon(b) => DaemonEntries(s, b, s');
    case Fetch(t, tokens) => FetchEntries(s, t, tokens, s');
    case Lookup(token) =>
  }

  lemma {:induction false} Reachable(cfg: L.Config, now: int, acts: seq<Action>, s: State)
    requires Exec(Init(cfg, now), acts) == Some(s)
    ensures TokenInv(s.l) && EntriesInv(s)
    decreases |acts|
  {
    if |acts| > 0 {
      var n := |acts| - 1;
      var prev := Exec(Init(cfg, now), acts[..n]).value;
      Reachable(cfg, now, acts[..n], prev);
      StepEntries(prev, acts[n], s);
      if acts[n].Daemon? {
        StepTokens(prev.l, acts[n].a, s.l);
      }
    }
  }

  // ---- whole runs ----

  /** No step of the run revives an evicted entry. */
  ghost predicate NoneRevived(cfg: L.Config, now: int, acts: seq<Action>)
    decreases |acts|
  {
    |acts| > 0 ==>
      var prefix, a := acts[..|acts| - 1], acts[|acts| - 1];
      NoneRevived(cfg, now, prefix)
          && (Exec(Init(cfg, now), prefix).Some? ==> !Revived(Exec(Init(cfg, now), prefix).value, a))
  }

  /** After the first `n` actions every lookup answers what a registry that never evicts would
      answer. */
  ghost predicate SameAnswers(cfg: L.Config, now: int, acts: seq<Action>, n: nat)
    requires n <= |acts|
  {
    var s := Exec(Init(cfg, now), acts[..n]);
    s.Some? ==> forall token :: Answer(s.value.l.w, s.value.entries, token) == Answer(s.value.l.w, s.value.full, token)
  }

  lemma {:induction false} NoneRevivedAgrees(cfg: L.Config, now: int, acts: seq<Action>, s: State)
    requires Exec(Init(cfg, now), acts) == Some(s) && NoneRevived(cfg, now, acts)
    ensures Agrees(s)
    decreases |acts|
  {
    if |acts| > 0 {
      var n := |acts| - 1;
      var prev := Exec(Init(cfg, now), acts[..n]).value;
      NoneRevivedAgrees(cfg, now, acts[..n], prev);
      Reachable(cfg, now, acts[..n], prev);
      StepEntries(prev, acts[n], s);
    }
  }

  lemma {:induction false} NoneRevivedPrefix(cfg: L.Config, now: int, acts: seq<Action>, n: nat)
    requires NoneRevived(cfg, now, acts) && n <= |acts|
    ensures NoneRevived(cfg, now, acts[..n])
    decreases |acts|
  {
    if n < |acts| {
      NoneRevivedPrefix(cfg, now, acts[..|acts| - 1], n);
      assert acts[..|acts| - 1][..n] == acts[..n];
    } else {
      assert acts[..n] == acts;
    }
  }

  lemma {:induction false} RevivedShows(cfg: L.Config, now: int, acts: seq<Action>) returns (n: nat)
    requires Exec(Init(cfg, now), acts).Some? && !NoneRevived(cfg, now, acts)
    ensures n <= |acts| && !SameAnswers(cfg, now, acts, n)
    decreases |acts|
  {
    var prefix, a := acts[..|acts| - 1], acts[|acts| - 1];
    if NoneRevived(cfg, now, prefix) {
      var prev, s := Exec(Init(cfg, now), prefix).value, Exec(Init(cfg, now), acts).value;
      NoneRevivedAgrees(cfg, now, prefix, prev);
      Reachable(cfg, now, prefix, prev);
      StepEntries(prev, a, s);
      AgreesIff(s);
      n := |acts|;
      assert acts[..n] == acts;
    } else {
      n := RevivedShows(cfg, now, prefix);
      assert prefix[..n] == acts[..n];
    }
  }

  /** Lazy eviction is invisible, at every point of the run and for every token, if and only if
      no MarkDispatched or MarkRunnerRegistered takes a task out of Terminal while an evicted
      entry of it is unexpired and has a live session. */
  lemma LazyRegistryAgrees(cfg: L.Config, now: int, acts: seq<Action>)
    requires Exec(Init(cfg, now), acts).Some?
    ensures NoneRevived(cfg, now, acts) <==> forall n :: 0 <= n <= |acts| ==> SameAnswers(cfg, now, acts, n)
  {
    if NoneRevived(cfg, now, acts) {
      forall n | 0 <= n <= |acts| ensures SameAnswers(cfg, now, acts, n) {
        if Exec(Init(cfg, now), acts[..n]).Some? {
          var s := Exec(Init(cfg, now), acts[..n]).value;
          NoneRevivedPrefix(cfg, now, acts, n);
          NoneRevivedAgrees(cfg, now, acts[..n], s);
          Reachable(cfg, now, acts[..n], s);
          AgreesIff(s);
        }
      }
    } else {
      var n := RevivedShows(cfg, now, acts);
    }
  }
}
