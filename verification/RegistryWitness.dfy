/** A run in which lazy eviction from the token registry shows
    (internal/south/proxy.go, internal/run/runner.go). */
module RegistryWitness {
  import opened Wrappers
  import opened TaskTables
  import opened SessionTables
  import opened Lifecycle
  import opened Registry
  import R = RegistryRuns

  function OneInstance(): Config {
    Config([Instance("a", 900)], 1, 1800)
  }

  function Pulled(tok: string): Task {
    Task(7, "a", tok, 900, 0, Pending, "", false, false, 0)
  }

  predicate Ran(acts: seq<R.Action>, s: R.State) {
    R.Exec(R.Init(OneInstance(), 0), acts) == Some(s)
  }

  lemma Do(acts: seq<R.Action>, s: R.State, a: R.Action) returns (acts': seq<R.Action>, s': R.State)
    requires Ran(acts, s) && R.Step(s, a).Some?
    ensures Ran(acts', s') && Some(s') == R.Step(s, a)
  {
    acts', s' := acts + [a], R.Step(s, a).value;
    assert acts'[..|acts|] == acts;
  }

  /** One step of thread `t`, which changes nothing but the thread and the shared objects. */
  lemma DoRpc(acts: seq<R.Action>, s: R.State, t: Thread) returns (acts': seq<R.Action>, s': R.State)
    requires Ran(acts, s) && t in s.l.rpcs && ValidRpc(s.l.rpcs[t], s.l.w)
    requires RpcNext(s.l.cfg, s.l.w, s.l.rpcs[t], Oracle("", true)).Some?
    ensures Ran(acts', s') && s' == s.(l := s.l.(rpcs := s'.l.rpcs, w := s'.l.w)) && t in s'.l.rpcs
    ensures s'.l.rpcs[t] == RpcNext(s.l.cfg, s.l.w, s.l.rpcs[t], Oracle("", true)).value
    ensures s'.l.w == RpcWorld(s.l.cfg, s.l.w, s.l.rpcs[t], Oracle("", true))
  {
    acts', s' := Do(acts, s, R.Daemon(RpcAction(t, Oracle("", true))));
  }

  /** Task 7 has been triggered, and MarkDispatched is next. */
  predicate Triggered(s: R.State) {
    s.l.cfg == OneInstance() && s.l.handlers == map[0 := Handler(0, Dispatching(0))]
  }

  function Stored(tok: string): World {
    World(0, [Pulled(tok)], Tables(map[7 := 0], map[tok := 7]), map[], {tok}, [], {(0, 7)}, {}, {})
  }

  lemma Poll(tok: string) returns (acts: seq<R.Action>, s: R.State)
    requires |tok| == REG_TOKEN_CHARS
    ensures Ran(acts, s) && s == R.Init(OneInstance(), 0).(l := s.l) && s.l.w == Stored(tok)
    ensures s.l == Init(OneInstance(), 0).(w := s.l.w, used := 1, channel := [0])
  {
    acts, s := [], R.Init(OneInstance(), 0);
    acts, s := Do(acts, s, R.Daemon(PollerAction(0, Acquire)));
    acts, s := Do(acts, s, R.Daemon(PollerAction(0, Fetch(7, tok, 0))));
    acts, s := Do(acts, s, R.Daemon(PollerAction(0, Send)));
  }

  lemma PollAndTrigger(tok: string) returns (acts: seq<R.Action>, s: R.State)
    requires |tok| == REG_TOKEN_CHARS
    ensures Ran(acts, s) && Triggered(s) && s.l.next == 1 && s.l.w == Stored(tok) && s.entries == map[] == s.full
  {
    acts, s := Poll(tok);
    acts, s := Do(acts, s, R.Daemon(DispatcherAction(Receive)));
    acts, s := Do(acts, s, R.Daemon(DispatcherAction(Spawn)));
    assert Resolve(OneInstance().instances, "a") == Some(0);
    acts, s := Do(acts, s, R.Daemon(HandlerAction(0, DoResolve)));
    acts, s := Do(acts, s, R.Daemon(HandlerAction(0, TriggerOk)));
  }

  /** A one-job runner's FetchTask consumes the token ... */
  lemma ConsumeToken(tok: string) returns (acts: seq<R.Action>, s: R.State)
    requires |tok| == REG_TOKEN_CHARS
    ensures Ran(acts, s) && Triggered(s) && s.l.next == 2 && s.entries == map[] == s.full
    ensures s.l.w.now == 0 && s.l.w.heap == [Pulled(tok)] && s.l.w.sessions == map[] && s.l.w.births == []
    ensures 1 in s.l.rpcs && s.l.rpcs[1] == Creating(tok, 0, OneJob(FetchTask))
  {
    acts, s := PollAndTrigger(tok);
    assert s.l.w.store.Find(tok) == Some(0);
    acts, s := Do(acts, s, R.Daemon(RpcStart(LookingUp(tok, FetchTask))));
    acts, s := DoRpc(acts, s, 1);
    acts, s := DoRpc(acts, s, 1);
    acts, s := DoRpc(acts, s, 1);
    acts, s := DoRpc(acts, s, 1);
  }

  function Registered(tok: string): Task {
    Pulled(tok).(sessionToken := tok, status := Running, registered := true)
  }

  /** ... is authenticated ... */
  lemma OpenSession(tok: string) returns (acts: seq<R.Action>, s: R.State)
    requires |tok| == REG_TOKEN_CHARS
    ensures Ran(acts, s) && Triggered(s) && s.l.next == 2 && s.entries == map[] == s.full
    ensures s.l.w.now == 0 && s.l.w.births == [Birth(tok, tok, 0)] && s.l.w.sessions == map[tok := Session(0, 0)]
    ensures s.l.w.heap == [Registered(tok)]
    ensures 1 in s.l.rpcs && s.l.rpcs[1] == Authenticated(tok, 0, FetchTask)
  {
    acts, s := ConsumeToken(tok);
    acts, s := DoRpc(acts, s, 1);
    acts, s := DoRpc(acts, s, 1);
    acts, s := DoRpc(acts, s, 1);
    acts, s := DoRpc(acts, s, 1);
  }

  /** The task's runtime token routes to instance `a`. */
  function Routed(runtime: string, tok: string): Entries<Ref> {
    map[runtime := Entry("a", 0, tok, ENTRY_TTL)]
  }

  /** ... and routes the task's token `runtime`. */
  lemma RouteToken(tok: string, runtime: string) returns (acts: seq<R.Action>, s: R.State)
    requires |tok| == REG_TOKEN_CHARS
    ensures Ran(acts, s) && Triggered(s) && s.l.next == 2 && s.entries == s.full == Routed(runtime, tok)
    ensures s.l.w.now == 0 && s.l.w.births == [Birth(tok, tok, 0)] && s.l.w.sessions == map[tok := Session(0, 0)]
    ensures s.l.w.heap == [Registered(tok)]
  {
    acts, s := OpenSession(tok);
    var e := R.Fetched(s.l, 1).value;
    assert PutAll(s.entries, [runtime][..0], e) == s.entries;
    assert PutAll(s.entries, [runtime], e) == Routed(runtime, tok);
    acts, s := Do(acts, s, R.Fetch(1, [runtime]));
  }

  /** The runner reports a result: the task is Terminal, the session still there. */
  lemma Report(tok: string, runtime: string) returns (acts: seq<R.Action>, s: R.State)
    requires |tok| == REG_TOKEN_CHARS
    ensures Ran(acts, s) && Triggered(s) && s.entries == s.full == Routed(runtime, tok)
    ensures s.l.w.now == 0 && s.l.w.births == [Birth(tok, tok, 0)] && tok in s.l.w.sessions
    ensures s.l.w.heap == [Registered(tok).(status := Terminal)]
  {
    acts, s := RouteToken(tok, runtime);
    acts, s := Do(acts, s, R.Daemon(RpcStart(LookingUp(tok, UpdateTask(7, true)))));
    acts, s := DoRpc(acts, s, 2);
    acts, s := DoRpc(acts, s, 2);
    assert Resolve(OneInstance().instances, "a") == Some(0);
    acts, s := DoRpc(acts, s, 2);
    acts, s := DoRpc(acts, s, 2);
  }

  /** Only now does HandleTask get to MarkDispatched; a lookup in between has evicted the entry,
      and a registry that never evicts would still route the token.  There is one task, and it
      has one session. */
  lemma LateDispatchWitness() returns (acts: seq<R.Action>, s: R.State)
    ensures Ran(acts, s) && !R.SameAnswers(OneInstance(), 0, acts, |acts|) && |s.l.w.heap| == 1 && |s.l.w.births| == 1
  {
    var tok, runtime := seq(REG_TOKEN_CHARS, _ => '0'), "t";
    acts, s := Report(tok, runtime);
    acts, s := Do(acts, s, R.Lookup(runtime));
    assert s.entries == map[];
    acts, s := Do(acts, s, R.Daemon(HandlerAction(0, MarkDispatched)));
    assert R.Answer(s.l.w, s.full, runtime) == Some("a");
    assert acts[..|acts|] == acts;
  }
}
