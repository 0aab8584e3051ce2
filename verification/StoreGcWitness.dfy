/** Runs in which a collection is not harmless
    (internal/store/memstore.go, internal/south/handler.go). */
module StoreGcWitness {
  import opened Wrappers
  import opened TaskTables
  import opened StoreGc
  import opened StoreGcIds

  /** Task 7 of an instance whose registration tokens live for 10 seconds. */
  function Pulled(token: string, createdAt: int): L.Task {
    L.Task(7, "a", token, 10, createdAt, L.Pending, "", false, false, 0)
  }

  /** `acts` ends in `g`, and without its collections in `p`. */
  predicate Ends(acts: seq<Action>, g: State, p: State) {
    Exec(Init(0), acts) == Some(g) && Exec(Init(0), Strip(acts)) == Some(p)
  }

  lemma DoBoth(acts: seq<Action>, g: State, p: State, a: Action) returns (acts': seq<Action>, g': State, p': State)
    requires Ends(acts, g, p) && Step(g, a).Some? && (!IsGc(a) ==> Step(p, a).Some?)
    ensures Ends(acts', g', p') && Some(g') == Step(g, a) && (if IsGc(a) then p' == p else Some(p') == Step(p, a))
  {
    acts', g', p' := acts + [a], Step(g, a).value, if IsGc(a) then p else Step(p, a).value;
    assert acts'[..|acts|] == acts;
    assert !IsGc(a) ==> (Strip(acts) + [a])[..|Strip(acts)|] == Strip(acts);
  }

  lemma AppendBoth(acts: seq<Action>, g: State, p: State, more: seq<Action>)
    requires Ends(acts, g, p) && OnlyCalls(more) && Exec(g, more).Some? && Exec(p, more).Some?
    ensures Ends(acts + more, Exec(g, more).value, Exec(p, more).value)
  {
    ExecAppend(Init(0), acts, g, more);
    StripAppend(acts, more);
    ExecAppend(Init(0), Strip(acts), p, more);
  }

  /** The run goes on with a registration that only comes through without the collections. */
  lemma TurnedAway(acts: seq<Action>, g: State, p: State, token: string)
      returns (acts': seq<Action>, g': State, p': State)
    requires Ends(acts, g, p) && g.started == p.started == {} && g.accepted == p.accepted
    requires token !in g.store.byReg && Admits(p, token)
    ensures Ends(acts', g', p') && g'.accepted == g.accepted
    ensures p'.accepted == g.accepted + [Win(0, token, p.store.Find(token).value)]
  {
    Reachable(0, acts, g);
    Reachable(0, Strip(acts), p);
    var more := NewDiverges(g, p, 0, token);
    AppendBoth(acts, g, p, more);
    acts', g', p' := acts + more, Exec(g, more).value, Exec(p, more).value;
  }

  lemma Emptied(s: Tables<Ref>, token: string, r: Ref)
    requires s == Tables(map[7 := r], map[token := 7])
    ensures s.Remove(7) == Empty() == s.RemoveAll(map[7 := 0].Keys)
  {
    assert s.Remove(7).tasks == map[];
    assert s.RemoveAll(map[7 := 0].Keys).tasks == map[];
  }

  /** Task 7 is inspected, still Pending and past its deadline. */
  lemma InspectSeven(acts: seq<Action>, g: State, p: State) returns (acts': seq<Action>, g': State)
    requires Ends(acts, g, p) && g.gc.Idle? && g.store.tasks == map[7 := 0] && |g.heap| == 1
    requires g.heap[0].status.Pending? && L.RegTokenExpired(g.heap[0], g.now)
    ensures Ends(acts', g', p) && g' == g.(gc := Inspecting(g.now, map[], map[7 := 0]))
  {
    var p1;
    acts', g', p1 := DoBoth(acts, g, p, Scan(g.now));
    acts', g', p1 := DoBoth(acts', g', p1, Inspect(7));
    assert g'.gc.scanned == map[];
  }

  lemma StoreFirst() returns (acts: seq<Action>, g: State)
    ensures Ends(acts, g, g) && g == Init(0).(heap := [Pulled("A", 0)], tokens := {"A"}, store := g.store)
    ensures g.store == Tables(map[7 := 0], map["A" := 7])
  {
    var p;
    acts, g, p := DoBoth([], Init(0), Init(0), Store(Pulled("A", 0)));
  }

  /** Task 7 is stored with token A, its deadline passes and it is judged. */
  lemma Judged() returns (acts: seq<Action>, g: State, p: State)
    ensures Ends(acts, g, p) && g == p.(gc := Inspecting(11, map[], map[7 := 0]))
    ensures p == Init(0).(now := 11, heap := [Pulled("A", 0)], tokens := {"A"}, store := p.store)
    ensures p.store == Tables(map[7 := 0], map["A" := 7])
  {
    acts, g := StoreFirst();
    acts, g, p := DoBoth(acts, g, g, Elapse(11));
    acts, g := InspectSeven(acts, g, p);
  }

  /** It leaves the store and is pulled again, with token B. */
  lemma PulledAgain() returns (acts: seq<Action>, g: State, p: State)
    ensures Ends(acts, g, p) && g == p.(gc := Inspecting(11, map[], map[7 := 0]))
    ensures p == Init(0).(now := 11, heap := [Pulled("A", 0)] + [Pulled("B", 11)], tokens := {"A"} + {"B"},
            store := p.store)
    ensures p.store == Tables(map[7 := 1], map["B" := 7])
  {
    acts, g, p := Judged();
    Emptied(p.store, "A", 0);
    acts, g, p := DoBoth(acts, g, p, Unstore(7));
    assert p.lost == map[] == g.lost;
    acts, g, p := DoBoth(acts, g, p, Store(Pulled("B", 11)));
  }

  /** An id that comes back between scan and deletion: the deletion takes the task pulled
      again, and its token. */
  lemma ReturningIdWitness() returns (acts: seq<Action>, g: State, p: State)
    ensures Ends(acts, g, p) && g.accepted == [] && p.accepted == [Win(0, "B", 1)]
  {
    acts, g, p := PulledAgain();
    Emptied(g.store, "B", 1);
    acts, g, p := DoBoth(acts, g, p, Delete);
    assert p.store.Find("B") == Some(1);
    acts, g, p := TurnedAway(acts, g, p, "B");
  }

  /** An id that comes back after the deletion: without the collection token A would have
      been alive again. */
  lemma RevivedTokenWitness() returns (acts: seq<Action>, g: State, p: State)
    ensures Ends(acts, g, p) && g.accepted == [] && p.accepted == [Win(0, "A", 1)]
  {
    acts, g, p := Judged();
    Emptied(g.store, "A", 0);
    acts, g, p := DoBoth(acts, g, p, Delete);
    acts, g, p := DoBoth(acts, g, p, Store(Pulled("B", 11)));
    assert "A" !in g.store.byReg;
    assert p.store.Find("A") == Some(1);
    acts, g, p := TurnedAway(acts, g, p, "A");
  }

  /** A registration of the only task is checked just before its deadline. */
  lemma CheckedInTime() returns (acts: seq<Action>, g: State)
    ensures Ends(acts, g, g)
    ensures g == Init(0).(heap := [Pulled("A", 0)], tokens := {"A"}, store := g.store, started := {0}, calls := g.calls)
    ensures g.store == Tables(map[7 := 0], map["A" := 7]) && g.calls == map[0 := Unexpired("A", 0)]
  {
    var p;
    acts, g := StoreFirst();
    assert g.store.Find("A") == Some(0);
    acts, g, p := DoBoth(acts, g, g, Find(0, "A"));
    acts, g, p := DoBoth(acts, g, p, Check(0));
  }

  /** The deadline passes and the task is judged, with the registration still under way. */
  lemma JudgedMeanwhile() returns (acts: seq<Action>, g: State, p: State)
    ensures Ends(acts, g, p) && g == p.(gc := Inspecting(11, map[], map[7 := 0])) && p.gc.Idle?
    ensures p.heap == [Pulled("A", 0)] && p.accepted == [] && p.calls == map[0 := Unexpired("A", 0)]
    ensures p.store == Tables(map[7 := 0], map["A" := 7])
  {
    acts, g := CheckedInTime();
    acts, g, p := DoBoth(acts, g, g, Elapse(11));
    acts, g := InspectSeven(acts, g, p);
  }

  /** A registration overtaken by a collection: it passes the deadline check in time, the
      collection takes its token, and the consumption fails.  No id is shared. */
  lemma OvertakenWitness() returns (acts: seq<Action>, g: State, p: State)
    ensures Ends(acts, g, p) && DistinctIds(g.heap) && g.accepted == [] && p.accepted == [Win(0, "A", 0)]
  {
    acts, g, p := JudgedMeanwhile();
    Emptied(g.store, "A", 0);
    acts, g, p := DoBoth(acts, g, p, Delete);
    assert g.store == Empty();
    acts, g, p := DoBoth(acts, g, p, Take(0));
  }

  /** The token is consumed in time, and the deadline passes before MarkRunnerRegistered. */
  lemma ConsumedInTime() returns (acts: seq<Action>, s: State)
    ensures Ends(acts, s, s) && s.now == 11 && s.gc.Idle? && s.heap == [Pulled("A", 0)]
    ensures s.calls == map[0 := Consumed(0)] && s.accepted == [Win(0, "A", 0)] && s.store.tasks == map[7 := 0]
  {
    var p;
    acts, s := CheckedInTime();
    acts, s, p := DoBoth(acts, s, s, Take(0));
    acts, s, p := DoBoth(acts, s, p, Elapse(11));
  }

  /** A registered task that is collected: the inspection comes between consumption and
      MarkRunnerRegistered, the deletion after it.  No id is shared. */
  lemma RegisteredCollectedWitness() returns (acts: seq<Action>, s: State, s': State)
    ensures Exec(Init(0), acts) == Some(s) && Step(s, Delete) == Some(s') && DistinctIds(s.heap) && |s.heap| == 1
    ensures s.heap[0].registered && s.heap[0].status == L.Running && s.accepted == [Win(0, "A", 0)]
    ensures s.store.tasks == map[7 := 0] && 7 !in s'.store.tasks
  {
    var p;
    acts, s := ConsumedInTime();
    p := s;
    acts, s := InspectSeven(acts, s, p);
    acts, s, p := DoBoth(acts, s, p, Mark(0));
    s' := Step(s, Delete).value;
  }
}
