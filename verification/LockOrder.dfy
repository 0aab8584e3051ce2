/** The daemon's mutexes are taken in one order, so no threads wait for each other in a circle
    (internal/south/proxy.go, internal/north/client.go, internal/store/memstore.go,
    internal/session/manager.go, internal/state/state.go).

    Nothing is assumed about when a lock is granted, so exclusive and shared locks, fair or
    not, are all covered. */
module LockOrder {
  import opened Wrappers

  type Thread = nat

  datatype Lock =
    | RegistryMu
    | RegMu(client: nat)
    | StoreMu
    | SessionsMu
    | TaskMu(task: nat)
    | IdMu(client: nat)
    | FileMu
    | BackoffMu(client: nat)

  function Rank(l: Lock): nat {
    if l.RegistryMu? || l.RegMu? then 0 else 1
  }

  datatype Event = Take(lock: Lock) | Give(lock: Lock)

  /** Operations by the locks they use.  `depth` and `path` say how far the nested ones get. */
  datatype Op =
    | StoreOp                        // every MemStore critical section, the two of GC apart
    | SessionsOp                     // every Manager method; CreateWithToken links the task afterwards
    | TaskOp(task: nat)              // every TaskCtx method
    | FileOp                         // Load, Save
    | IdentityOp(client: nat)
    | BackoffOp(client: nat)
    | PutTokens
    | Lookup(task: nat, depth: nat)  // stops at the entry, at the task's status, or at the session
    | Recover(client: nat, path: Path)

  /** How far the locked part of retryOnAuth gets. */
  datatype Path = Superseded | BackingOff | Refused(badToken: bool) | SaveFails | Registers

  /** Locks taken and given back one after another while the outer one is held. */
  function Inner(op: Op): seq<Lock> {
    match op
    case Lookup(task, depth) => [TaskMu(task), SessionsMu][..if depth > 2 then 2 else depth]
    case Recover(c, path) =>
      (match path
       case Superseded => []
       case BackingOff => [BackoffMu(c)]
       case Refused(bad) => if bad then [BackoffMu(c), BackoffMu(c)] else [BackoffMu(c), BackoffMu(c), BackoffMu(c)]
       case SaveFails => [BackoffMu(c), IdMu(c), FileMu, BackoffMu(c), BackoffMu(c)]
       case Registers => [BackoffMu(c), IdMu(c), FileMu, BackoffMu(c)])
    case _ => []
  }

  function Outer(op: Op): Lock {
    match op
    case StoreOp => StoreMu
    case SessionsOp => SessionsMu
    case TaskOp(t) => TaskMu(t)
    case FileOp => FileMu
    case IdentityOp(c) => IdMu(c)
    case BackoffOp(c) => BackoffMu(c)
    case PutTokens => RegistryMu
    case Lookup(_, _) => RegistryMu
    case Recover(c, _) => RegMu(c)
  }

  function Pairs(locks: seq<Lock>): seq<Event> {
    if |locks| == 0 then [] else [Take(locks[0]), Give(locks[0])] + Pairs(locks[1..])
  }

  function Script(op: Op): seq<Event> {
    [Take(Outer(op))] + (Pairs(Inner(op)) + [Give(Outer(op))])
  }

  /** A thread: the locks it holds and what it still does before its next operation. */
  datatype Runner = Runner(held: set<Lock>, rest: seq<Event>)

  type State = map<Thread, Runner>

  datatype Action = Start(t: Thread, op: Op) | Proceed(t: Thread)

  function Step(s: State, a: Action): Option<State> {
    match a
    case Start(t, op) =>
      if t !in s || s[t].rest == [] then Some(s[t := Runner(if t in s then s[t].held else {}, Script(op))]) else None
    case Proceed(t) =>
      if t !in s || s[t].rest == [] then None else
      var r := s[t];
      (match r.rest[0]
       case Take(l) => Some(s[t := Runner(r.held + {l}, r.rest[1..])])
       case Give(l) => Some(s[t := Runner(r.held - {l}, r.rest[1..])]))
  }

  function Exec(acts: seq<Action>): Option<State> {
    if |acts| == 0 then Some(map[]) else
    match Exec(acts[..|acts| - 1])
    case None => None
    case Some(s) => Step(s, acts[|acts| - 1])
  }

  /** From here on every lock is taken above all those held, and none is held at the end. */
  predicate Ordered(held: set<Lock>, rest: seq<Event>)
    decreases |rest|
  {
    if |rest| == 0 then held == {} else
    match rest[0]
    case Take(l) => (forall h :: h in held ==> Rank(h) < Rank(l)) && Ordered(held + {l}, rest[1..])
    case Give(l) => Ordered(held - {l}, rest[1..])
  }

  lemma {:induction false} PairsOrdered(outer: Lock, inner: seq<Lock>)
    requires forall i :: 0 <= i < |inner| ==> Rank(outer) < Rank(inner[i])
    ensures Ordered({outer}, Pairs(inner) + [Give(outer)])
    decreases |inner|
  {
    var tail := Pairs(inner) + [Give(outer)];
    if |inner| == 0 {
      assert tail == [Give(outer)] && tail[1..] == [];
      assert {outer} - {outer} == {};
    } else {
      PairsOrdered(outer, inner[1..]);
      var next := Pairs(inner[1..]) + [Give(outer)];
      assert tail[1..] == [Give(inner[0])] + next;
      assert tail[1..][1..] == next;
      assert ({outer} + {inner[0]}) - {inner[0]} == {outer};
    }
  }

  /** The locks a script takes, in order. */
  function Takes(events: seq<Event>): seq<Lock> {
    if |events| == 0 then []
    else (if events[0].Take? then [events[0].lock] else []) + Takes(events[1..])
  }

  lemma {:induction false} TakesPairs(locks: seq<Lock>, last: Lock)
    ensures Takes(Pairs(locks) + [Give(last)]) == locks
    decreases |locks|
  {
    if |locks| == 0 {
      assert Pairs(locks) + [Give(last)] == [Give(last)];
      assert [Give(last)][1..] == [];
    } else {
      var rest := Pairs(locks[1..]) + [Give(last)];
      var all := Pairs(locks) + [Give(last)];
      assert all[1..] == [Give(locks[0])] + rest;
      assert all[1..][1..] == rest;
      TakesPairs(locks[1..], last);
    }
  }

  lemma ScriptTakes(op: Op)
    ensures Takes(Script(op)) == [Outer(op)] + Inner(op)
  {
    TakesPairs(Inner(op), Outer(op));
    assert Script(op)[1..] == Pairs(Inner(op)) + [Give(Outer(op))];
  }

  /** Which locks a registry lookup takes, as far as it gets. */
  lemma LookupTakes(task: nat, depth: nat)
    ensures Takes(Script(Lookup(task, 0))) == [RegistryMu]
    ensures Takes(Script(Lookup(task, 1))) == [RegistryMu, TaskMu(task)]
    ensures depth >= 2 ==> Takes(Script(Lookup(task, depth))) == [RegistryMu, TaskMu(task), SessionsMu]
  {
    ScriptTakes(Lookup(task, 0));
    ScriptTakes(Lookup(task, 1));
    ScriptTakes(Lookup(task, depth));
  }

  /** Which locks the locked part of retryOnAuth takes: the gate, the identity in memory, the
      state file, and the gate again. */
  lemma RecoverTakes(c: nat)
    ensures Takes(Script(Recover(c, Superseded))) == [RegMu(c)]
    ensures Takes(Script(Recover(c, BackingOff))) == [RegMu(c), BackoffMu(c)]
    ensures Takes(Script(Recover(c, Refused(true)))) == [RegMu(c), BackoffMu(c), BackoffMu(c)]
    ensures Takes(Script(Recover(c, Refused(false)))) == [RegMu(c), BackoffMu(c), BackoffMu(c), BackoffMu(c)]
    ensures Takes(Script(Recover(c, Registers))) == [RegMu(c), BackoffMu(c), IdMu(c), FileMu, BackoffMu(c)]
    ensures Takes(Script(Recover(c, SaveFails)))
         == [RegMu(c), BackoffMu(c), IdMu(c), FileMu, BackoffMu(c), BackoffMu(c)]
  {
    ScriptTakes(Recover(c, Superseded));
    ScriptTakes(Recover(c, BackingOff));
    ScriptTakes(Recover(c, Refused(true)));
    ScriptTakes(Recover(c, Refused(false)));
    ScriptTakes(Recover(c, Registers));
    ScriptTakes(Recover(c, SaveFails));
  }

  lemma InnerAbove(op: Op)
    ensures forall i :: 0 <= i < |Inner(op)| ==> Rank(Outer(op)) < Rank(Inner(op)[i])
  {
  }

  /** Every operation of the daemon keeps to the order. */
  lemma ScriptsOrdered(op: Op)
    ensures Ordered({}, Script(op))
  {
    InnerAbove(op);
    PairsOrdered(Outer(op), Inner(op));
    assert Script(op)[1..] == Pairs(Inner(op)) + [Give(Outer(op))];
    assert {} + {Outer(op)} == {Outer(op)};
  }

  lemma {:induction false} ReachableOrdered(acts: seq<Action>, s: State)
    requires Exec(acts) == Some(s)
    ensures forall t :: t in s ==> Ordered(s[t].held, s[t].rest)
    decreases |acts|
  {
    if |acts| > 0 {
      var a := acts[|acts| - 1];
      ReachableOrdered(acts[..|acts| - 1], Exec(acts[..|acts| - 1]).value);
      if a.Start? {
        ScriptsOrdered(a.op);
      }
    }
  }

  /** A thread within an operation can always take its next step, as far as this model goes; a
      lock is held from being taken to being given back, and by nobody else's doing. */
  lemma StepHolds(s: State, t: Thread, l: Lock)
    requires t in s && s[t].rest != []
    ensures Step(s, Proceed(t)).Some?
    ensures var s' := Step(s, Proceed(t)).value;
      && (s[t].rest[0] == Take(l) ==> l in s'[t].held)
      && (s[t].rest[0] == Give(l) ==> l !in s'[t].held)
      && (s[t].rest[0].lock != l ==> (l in s'[t].held <==> l in s[t].held))
      && (forall u :: u in s && u != t ==> u in s' && s'[u] == s[u])
  {
  }

  /** A thread between two operations can begin any. */
  lemma StartBegins(s: State, t: Thread, op: Op)
    ensures t !in s ==> Step(s, Start(t, op)) == Some(s[t := Runner({}, Script(op))])
    ensures t in s && s[t].rest == [] ==> Step(s, Start(t, op)) == Some(s[t := Runner(s[t].held, Script(op))])
  {
  }

  // ---- no circle ----

  /** `t` waits for a lock that `u` holds. */
  predicate WaitsFor(s: State, t: Thread, u: Thread) {
    t in s && u in s && s[t].rest != [] && s[t].rest[0].Take? && s[t].rest[0].lock in s[u].held
  }

  /** Along a chain of waiting threads the awaited locks rise in rank. */
  lemma {:induction false} RanksRise(s: State, chain: seq<Thread>)
    requires forall t :: t in s ==> Ordered(s[t].held, s[t].rest)
    requires |chain| >= 2 && forall i :: 0 <= i < |chain| - 1 ==> WaitsFor(s, chain[i], chain[i + 1])
    requires WaitsFor(s, chain[0], chain[1])
    requires chain[|chain| - 1] in s && s[chain[|chain| - 1]].rest != [] && s[chain[|chain| - 1]].rest[0].Take?
    ensures Rank(s[chain[0]].rest[0].lock) < Rank(s[chain[|chain| - 1]].rest[0].lock)
    decreases |chain|
  {
    assert WaitsFor(s, chain[0], chain[1]);
    if |chain| > 2 {
      var rest := chain[1..];
      forall i | 0 <= i < |rest| - 1 ensures WaitsFor(s, rest[i], rest[i + 1]) {
        assert WaitsFor(s, chain[i + 1], chain[i + 2]);
      }
      assert WaitsFor(s, chain[1], chain[2]);
      RanksRise(s, rest);
    }
  }

  /** In no reachable state, with any number of threads, does a chain of threads waiting for
      each other's locks close into a circle. */
  lemma NoCyclicWait(acts: seq<Action>, s: State, chain: seq<Thread>)
    requires Exec(acts) == Some(s)
    requires |chain| >= 2 && forall i :: 0 <= i < |chain| - 1 ==> WaitsFor(s, chain[i], chain[i + 1])
    ensures chain[0] != chain[|chain| - 1]
  {
    ReachableOrdered(acts, s);
    if chain[0] == chain[|chain| - 1] {
      assert WaitsFor(s, chain[0], chain[1]);
      RanksRise(s, chain);
    }
  }
}
