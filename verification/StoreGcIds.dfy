/** Collections of the task store in runs whose ids are distinct
    (internal/store/memstore.go, internal/south/handler.go). */
module StoreGcIds {
  import opened Wrappers
  import opened StoreGc

  /** No two tasks ever stored share an id. */
  predicate DistinctIds(heap: seq<L.Task>) {
    forall i: Ref, j: Ref :: i < |heap| && j < |heap| && heap[i].id == heap[j].id ==> i == j
  }

  predicate IdUsed(heap: seq<L.Task>, id: int) {
    exists r :: 0 <= r < |heap| && heap[r].id == id
  }

  /** The map leads from an id to a task with that id. */
  predicate Named(heap: seq<L.Task>, m: map<int, Ref>) {
    forall id :: id in m ==> m[id] < |heap| && heap[m[id]].id == id
  }

  /** Some registration has consumed a token for this task. */
  predicate Paid(accepted: seq<Win>, r: Ref) {
    exists i :: 0 <= i < |accepted| && accepted[i].task == r
  }

  // ---- in every run ----

  predicate IdsInv(s: State) {
    && Named(s.heap, s.store.tasks)
    && (s.gc.Inspecting? ==> Named(s.heap, s.gc.scanned) && Named(s.heap, s.gc.doomed))
    && (forall token :: token in s.lost ==> IdUsed(s.heap, s.lost[token]))
  }

  predicate TokensInv(s: State) {
    && (forall r :: 0 <= r < |s.heap| ==> s.heap[r].regToken in s.tokens)
    && (forall i: Ref, j: Ref :: i < |s.heap| && j < |s.heap| && s.heap[i].regToken == s.heap[j].regToken ==> i == j)
  }

  /** An accepted task is no longer Pending once its registration is through. */
  predicate PaidInv(s: State) {
    && (forall i :: 0 <= i < |s.accepted| ==> s.accepted[i].task < |s.heap|)
    && (forall k :: k in s.calls && s.calls[k].Consumed? ==> Paid(s.accepted, s.calls[k].task))
    && (forall r: Ref :: r < |s.heap| && s.heap[r].registered ==> Paid(s.accepted, r))
    && (forall r: Ref :: r < |s.heap| && s.heap[r].status.Pending? && Paid(s.accepted, r) ==>
          exists k :: k in s.calls && s.calls[k] == Consumed(r))
  }

  /** What no step changes about a stored task. */
  predicate SameTasks(heap: seq<L.Task>, heap': seq<L.Task>) {
    && |heap| <= |heap'|
    && (forall r: Ref :: r < |heap| ==> heap'[r].id == heap[r].id && heap'[r].regToken == heap[r].regToken)
  }

  lemma StepTasks(s: State, a: Action, s': State)
    requires Step(s, a) == Some(s')
    ensures SameTasks(s.heap, s'.heap) && (!a.Store? ==> |s'.heap| == |s.heap|)
    ensures DistinctIds(s'.heap) ==> DistinctIds(s.heap)
  {
  }

  lemma NamedLater(heap: seq<L.Task>, heap': seq<L.Task>)
    requires SameTasks(heap, heap')
    ensures forall m :: Named(heap, m) ==> Named(heap', m)
    ensures forall id :: IdUsed(heap, id) ==> IdUsed(heap', id)
  {
    forall id | IdUsed(heap, id) ensures IdUsed(heap', id) {
      var r :| 0 <= r < |heap| && heap[r].id == id;
      assert heap'[r].id == id;
    }
  }

  lemma SweptIds(s: State)
    requires Stored(s) && IdsInv(s)
    ensures forall token :: token in Swept(s) ==> IdUsed(s.heap, Swept(s)[token])
  {
  }

  lemma GcIds(s: State, a: Action, s': State)
    requires Stored(s) && IdsInv(s) && Step(s, a) == Some(s') && IsGc(a)
    ensures IdsInv(s')
  {
    SweptIds(s);
  }

  lemma UnstoreIds(s: State, id: int)
    requires IdsInv(s)
    ensures IdsInv(Step(s, Unstore(id)).value)
  {
  }

  lemma StoreIds(s: State, t: L.Task, s': State)
    requires IdsInv(s) && Step(s, Store(t)) == Some(s')
    ensures IdsInv(s')
  {
    StepTasks(s, Store(t), s');
    NamedLater(s.heap, s'.heap);
  }

  /** Steps that leave the store alone. */
  lemma OtherIds(s: State, s': State)
    requires IdsInv(s) && SameTasks(s.heap, s'.heap) && s'.store.tasks == s.store.tasks && s'.gc == s.gc
             && s'.lost == s.lost
    ensures IdsInv(s')
  {
    NamedLater(s.heap, s'.heap);
  }

  lemma StepIds(s: State, a: Action, s': State)
    requires Stored(s) && IdsInv(s) && Step(s, a) == Some(s')
    ensures IdsInv(s')
  {
    if a.Store? {
      StoreIds(s, a.t, s');
    } else if a.Unstore? {
      UnstoreIds(s, a.id);
    } else if IsGc(a) {
      GcIds(s, a, s');
    } else {
      StepTasks(s, a, s');
      OtherIds(s, s');
    }
  }

  lemma StepTokens(s: State, a: Action, s': State)
    requires TokensInv(s) && Step(s, a) == Some(s')
    ensures TokensInv(s')
  {
    StepTasks(s, a, s');
  }

  lemma PaidAppend(accepted: seq<Win>, w: Win, r: Ref)
    ensures Paid(accepted + [w], r) <==> Paid(accepted, r) || w.task == r
  {
    if Paid(accepted, r) {
      var i :| 0 <= i < |accepted| && accepted[i].task == r;
      assert (accepted + [w])[i].task == r;
    }
    assert (accepted + [w])[|accepted|] == w;
  }

  lemma PendingCall(s: State, s': State, k: Thread, r: Ref)
    requires PaidInv(s) && r < |s.heap| && s.heap[r].status.Pending?
    requires k in s.calls && s.calls[k].Unexpired? && s'.calls == s.calls[k := Consumed(s.calls[k].task)]
    requires Paid(s.accepted, r) || s.calls[k].task == r
    ensures exists l :: l in s'.calls && s'.calls[l] == Consumed(r)
  {
    if s.calls[k].task == r {
      assert s'.calls[k] == Consumed(r);
    } else {
      var l :| l in s.calls && s.calls[l] == Consumed(r);
      assert s'.calls[l] == Consumed(r);
    }
  }

  /** Only a call that has consumed nothing changes. */
  lemma KeepsConsumed(s: State, s': State, k: Thread)
    requires PaidInv(s) && s'.heap == s.heap && s'.accepted == s.accepted
    requires k in s.calls ==> !s.calls[k].Consumed?
    requires k in s'.calls ==> !s'.calls[k].Consumed?
    requires s'.calls - {k} == s.calls - {k}
    ensures PaidInv(s')
  {
    assert forall l :: l != k ==> (l in s.calls <==> l in s'.calls) && (l in s.calls ==> s'.calls[l] == s.calls[l]) by {
      forall l | l != k ensures (l in s.calls <==> l in s'.calls) && (l in s.calls ==> s'.calls[l] == s.calls[l]) {
        assert l in s.calls <==> l in s.calls - {k};
        assert l in s'.calls <==> l in s'.calls - {k};
        assert l in s.calls ==> (s.calls - {k})[l] == (s'.calls - {k})[l];
      }
    }
  }

  lemma TakePaid(s: State, k: Thread)
    requires Stored(s) && PaidInv(s)
    ensures PaidInv(Taking(s, k))
  {
    var s' := Taking(s, k);
    if s'.accepted != s.accepted {
      var w := Win(k, s.calls[k].token, s.calls[k].task);
      forall r: Ref ensures Paid(s'.accepted, r) <==> Paid(s.accepted, r) || w.task == r {
        PaidAppend(s.accepted, w, r);
      }
      forall r: Ref | r < |s.heap| && s.heap[r].status.Pending? && Paid(s'.accepted, r)
        ensures exists l :: l in s'.calls && s'.calls[l] == Consumed(r)
      {
        PendingCall(s, s', k, r);
      }
    } else if s' != s {
      KeepsConsumed(s, s', k);
    }
  }

  lemma MarkPaid(s: State, k: Thread)
    requires Stored(s) && PaidInv(s)
    ensures PaidInv(Marking(s, k))
  {
    var s' := Marking(s, k);
    forall r: Ref | r < |s'.heap| && s'.heap[r].status.Pending? && Paid(s'.accepted, r)
      ensures exists l :: l in s'.calls && s'.calls[l] == Consumed(r)
    {
      var l :| l in s.calls && s.calls[l] == Consumed(r);
      assert l in s'.calls && s'.calls[l] == Consumed(r);
    }
  }

  lemma FindPaid(s: State, k: Thread, token: string)
    requires Stored(s) && PaidInv(s)
    ensures PaidInv(Finding(s, k, token))
  {
    var s' := Finding(s, k, token);
    if k !in s.started {
      assert s'.calls - {k} == s.calls - {k};
      KeepsConsumed(s, s', k);
    }
  }

  lemma CheckPaid(s: State, k: Thread)
    requires Stored(s) && PaidInv(s)
    ensures PaidInv(Checking(s, k))
  {
    var s' := Checking(s, k);
    if s' != s {
      KeepsConsumed(s, s', k);
    }
  }

  lemma StorePaid(s: State, t: L.Task, s': State)
    requires Stored(s) && PaidInv(s) && Step(s, Store(t)) == Some(s')
    ensures PaidInv(s')
  {
    assert !Paid(s.accepted, |s.heap|);
  }

  lemma StepPaid(s: State, a: Action, s': State)
    requires Stored(s) && PaidInv(s) && Step(s, a) == Some(s')
    ensures PaidInv(s')
  {
    match a
    case Store(t) => StorePaid(s, t, s');
    case Find(k, token) => FindPaid(s, k, token);
    case Check(k) => CheckPaid(s, k);
    case Take(k) => TakePaid(s, k);
    case Mark(k) => MarkPaid(s, k);
    case Write(r, status) =>
    case Unstore(id) =>
    case Elapse(d) =>
    case _ =>
  }

  lemma {:induction false} ReachableIds(now: int, acts: seq<Action>, s: State)
    requires Exec(Init(now), acts) == Some(s)
    ensures Stored(s) && DoomedInv(s) && IdsInv(s) && TokensInv(s) && PaidInv(s)
    decreases |acts|
  {
    Reachable(now, acts, s);
    if |acts| > 0 {
      var prev := Exec(Init(now), acts[..|acts| - 1]).value;
      ReachableIds(now, acts[..|acts| - 1], prev);
      StepIds(prev, acts[|acts| - 1], s);
      StepTokens(prev, acts[|acts| - 1], s);
      StepPaid(prev, acts[|acts| - 1], s);
    }
  }

  // ---- with distinct ids ----

  /** A task still stored under a judged id is the one that was judged. */
  lemma SameId(s: State, m: map<int, Ref>, id: int)
    requires Named(s.heap, s.store.tasks) && Named(s.heap, m) && DistinctIds(s.heap)
    requires id in s.store.tasks && id in m
    ensures s.store.tasks[id] == m[id]
  {
  }

  /** No registration under way holds a token that the deletion takes. */
  predicate NoneHeld(s: State) {
    s.gc.Inspecting? ==>
      forall token, k :: token in s.store.byReg && s.store.byReg[token] in s.gc.doomed && k in s.calls ==>
          !Holds(s, k, token)
  }

  lemma DeleteSafeIff(s: State)
    requires Stored(s) && IdsInv(s) && DistinctIds(s.heap)
    ensures DeleteSafe(s) <==> NoneHeld(s)
  {
    if NoneHeld(s) && s.gc.Inspecting? {
      forall token | token in s.store.byReg && s.store.byReg[token] in s.gc.doomed
        ensures s.store.tasks[s.store.byReg[token]] == s.gc.doomed[s.store.byReg[token]]
      {
        SameId(s, s.gc.doomed, s.store.byReg[token]);
      }
    }
  }

  lemma NewIdIsSafe(s: State, t: L.Task, s': State)
    requires IdsInv(s) && Step(s, Store(t)) == Some(s') && DistinctIds(s'.heap)
    ensures StoreSafe(s, t)
  {
    forall token | token in s.lost ensures s.lost[token] != t.id {
      var r :| 0 <= r < |s.heap| && s.heap[r].id == s.lost[token];
      assert s'.heap[r].id == s.lost[token] && s'.heap[|s.heap|].id == t.id;
    }
  }

  /** Every deletion of the run takes no token that a registration under way holds. */
  ghost predicate NeverHeld(now: int, acts: seq<Action>)
    decreases |acts|
  {
    |acts| > 0 ==>
      var prefix, a := acts[..|acts| - 1], acts[|acts| - 1];
      NeverHeld(now, prefix) && (a.Delete? && Exec(Init(now), prefix).Some? ==> NoneHeld(Exec(Init(now), prefix).value))
  }

  /** With distinct ids a collection can change an outcome in one way only: by taking a token
      from a registration that is past its lookup. */
  lemma {:induction false} DistinctCarefulIff(now: int, acts: seq<Action>, s: State)
    requires Exec(Init(now), acts) == Some(s) && DistinctIds(s.heap)
    ensures Careful(now, acts) <==> NeverHeld(now, acts)
    decreases |acts|
  {
    if |acts| > 0 {
      var prefix, a := acts[..|acts| - 1], acts[|acts| - 1];
      var prev := Exec(Init(now), prefix).value;
      StepTasks(prev, a, s);
      DistinctCarefulIff(now, prefix, prev);
      ReachableIds(now, prefix, prev);
      if a.Delete? {
        DeleteSafeIff(prev);
      } else if a.Store? {
        NewIdIsSafe(prev, a.t, s);
      }
    }
  }

  // ---- what a collection takes ----

  /** With distinct ids: an index entry leads to the task minted with it, and a stored task
      has been accepted exactly when its entry is gone. */
  predicate IndexInv(s: State) {
    && (forall token :: token in s.store.byReg ==>
          s.store.byReg[token] in s.store.tasks && s.store.tasks[s.store.byReg[token]] < |s.heap|
          && s.heap[s.store.tasks[s.store.byReg[token]]].regToken == token)
    && (forall k :: k in s.calls && !s.calls[k].Consumed? ==>
          s.calls[k].task < |s.heap| && s.heap[s.calls[k].task].regToken == s.calls[k].token)
    && (forall id :: id in s.store.tasks ==>
          s.store.tasks[id] < |s.heap|
          && (Paid(s.accepted, s.store.tasks[id]) <==> s.heap[s.store.tasks[id]].regToken !in s.store.byReg))
  }

  /** The index entry of a stored task leads to its own id. */
  lemma OwnEntry(s: State, id: int)
    requires IndexInv(s) && Named(s.heap, s.store.tasks) && TokensInv(s) && id in s.store.tasks
    requires s.heap[s.store.tasks[id]].regToken in s.store.byReg
    ensures s.store.byReg[s.heap[s.store.tasks[id]].regToken] == id
  {
  }

  lemma RemoveIndex(s: State, ids: set<int>)
    requires IndexInv(s) && Named(s.heap, s.store.tasks) && TokensInv(s)
    ensures IndexInv(s.(store := s.store.RemoveAll(ids)))
  {
    forall id | id in s.store.tasks && id !in ids && s.heap[s.store.tasks[id]].regToken in s.store.byReg
      ensures s.heap[s.store.tasks[id]].regToken in s.store.RemoveAll(ids).byReg
    {
      OwnEntry(s, id);
    }
  }

  lemma TakeIndex(s: State, k: Thread)
    requires Stored(s) && IndexInv(s) && TokensInv(s)
    ensures IndexInv(Taking(s, k))
  {
    var s' := Taking(s, k);
    if s'.accepted != s.accepted {
      var c := s.calls[k];
      forall id | id in s.store.tasks
        ensures Paid(s'.accepted, s.store.tasks[id]) <==> s.heap[s.store.tasks[id]].regToken !in s'.store.byReg
      {
        var r := s.store.tasks[id];
        PaidAppend(s.accepted, Win(k, c.token, c.task), r);
      }
    }
  }

  lemma NewId(s: State, t: L.Task, s': State)
    requires IdsInv(s) && Step(s, Store(t)) == Some(s') && DistinctIds(s'.heap)
    ensures t.id !in s.store.tasks
  {
    assert forall id :: id in s.store.tasks ==> s'.heap[s.store.tasks[id]].id == id;
    assert s'.heap[|s.heap|].id == t.id;
  }

  lemma StoreIndex(s: State, t: L.Task, s': State)
    requires Stored(s) && IndexInv(s) && TokensInv(s) && PaidInv(s)
    requires Step(s, Store(t)) == Some(s') && t.id !in s.store.tasks
    ensures IndexInv(s')
  {
    assert !Paid(s.accepted, |s.heap|);
    assert forall id :: id in s.store.tasks ==>
        s'.store.tasks[id] == s.store.tasks[id] && s.heap[s.store.tasks[id]].regToken != t.regToken;
  }

  lemma CallIndex(s: State, a: Action, s': State)
    requires Stored(s) && IndexInv(s) && Step(s, a) == Some(s') && (a.Check? || a.Mark?)
    ensures IndexInv(s')
  {
    StepTasks(s, a, s');
  }

  lemma FindIndex(s: State, k: Thread, token: string)
    requires Stored(s) && IndexInv(s)
    ensures IndexInv(Finding(s, k, token))
  {
  }

  lemma StepIndex(s: State, a: Action, s': State)
    requires Stored(s) && IndexInv(s) && IdsInv(s) && TokensInv(s) && PaidInv(s)
    requires Step(s, a) == Some(s') && DistinctIds(s'.heap)
    ensures IndexInv(s')
  {
    match a
    case Store(t) =>
      NewId(s, t, s');
      StoreIndex(s, t, s');
    case Take(k) => TakeIndex(s, k);
    case Unstore(id) => RemoveIndex(s, {id});
    case Delete => RemoveIndex(s, s.gc.doomed.Keys);
    case Find(k, token) => FindIndex(s, k, token);
    case Check(k) => CallIndex(s, a, s');
    case Mark(k) => CallIndex(s, a, s');
    case Write(r, status) =>
    case _ =>
  }

  lemma {:induction false} ReachableIndex(now: int, acts: seq<Action>, s: State)
    requires Exec(Init(now), acts) == Some(s) && DistinctIds(s.heap)
    ensures IndexInv(s)
    decreases |acts|
  {
    if |acts| > 0 {
      var prev := Exec(Init(now), acts[..|acts| - 1]).value;
      StepTasks(prev, acts[|acts| - 1], s);
      ReachableIndex(now, acts[..|acts| - 1], prev);
      ReachableIds(now, acts[..|acts| - 1], prev);
      StepIndex(prev, acts[|acts| - 1], s);
    }
  }

  /** With distinct ids a collection takes only tasks past their deadline, and one that a
      registration has been accepted for exactly if the task's own token has left the index
      by then. */
  lemma CollectedRegisteredIff(now: int, acts: seq<Action>, s: State, s': State, id: int)
    requires Exec(Init(now), acts) == Some(s) && DistinctIds(s.heap) && Step(s, Delete) == Some(s')
    requires id in s.store.tasks && id !in s'.store.tasks
    ensures Lapsed(s, s.store.tasks[id])
    ensures Paid(s.accepted, s.store.tasks[id]) <==> s.heap[s.store.tasks[id]].regToken !in s.store.byReg
    ensures s.heap[s.store.tasks[id]].registered ==> Paid(s.accepted, s.store.tasks[id])
  {
    ReachableIds(now, acts, s);
    ReachableIndex(now, acts, s);
    SameId(s, s.gc.doomed, id);
  }

  // ---- inspections that no registration disturbs ----

  /** No registration of the inspected task is between its deadline check and
      MarkRunnerRegistered. */
  predicate Uncontested(s: State, id: int) {
    s.gc.Inspecting? && id in s.gc.scanned ==>
      forall k :: k in s.calls && s.calls[k].task == s.gc.scanned[id] ==> s.calls[k].Found?
  }

  /** Every inspection of the run is uncontested. */
  ghost predicate Undisturbed(now: int, acts: seq<Action>)
    decreases |acts|
  {
    |acts| > 0 ==>
      var prefix, a := acts[..|acts| - 1], acts[|acts| - 1];
      Undisturbed(now, prefix)
          && (a.Inspect? && Exec(Init(now), prefix).Some? ==> Uncontested(Exec(Init(now), prefix).value, a.id))
  }

  /** What has been judged has not been accepted and never will be. */
  predicate JudgedInv(s: State) {
    s.gc.Inspecting? ==>
      forall id :: id in s.gc.doomed ==>
        && !Paid(s.accepted, s.gc.doomed[id])
        && (forall k :: k in s.calls && s.calls[k].task == s.gc.doomed[id] ==> s.calls[k].Found?)
  }

  lemma InspectJudged(s: State, id: int, s': State)
    requires JudgedInv(s) && PaidInv(s) && Uncontested(s, id) && Step(s, Inspect(id)) == Some(s')
    ensures JudgedInv(s')
  {
    var r := s.gc.scanned[id];
    assert s.heap[r].status.Pending? ==> !Paid(s.accepted, r);
  }

  lemma TakeJudged(s: State, k: Thread)
    requires JudgedInv(s)
    ensures JudgedInv(Taking(s, k))
  {
    var s' := Taking(s, k);
    if s'.accepted != s.accepted && s.gc.Inspecting? {
      forall id | id in s.gc.doomed ensures !Paid(s'.accepted, s.gc.doomed[id]) {
        PaidAppend(s.accepted, Win(k, s.calls[k].token, s.calls[k].task), s.gc.doomed[id]);
      }
    }
  }

  lemma StepJudged(s: State, a: Action, s': State)
    requires DoomedInv(s) && PaidInv(s) && JudgedInv(s) && Step(s, a) == Some(s')
    requires a.Inspect? ==> Uncontested(s, a.id)
    ensures JudgedInv(s')
  {
    match a
    case Inspect(id) => InspectJudged(s, id, s');
    case Take(k) => TakeJudged(s, k);
    case _ =>
  }

  lemma {:induction false} ReachableJudged(now: int, acts: seq<Action>, s: State)
    requires Exec(Init(now), acts) == Some(s) && Undisturbed(now, acts)
    ensures JudgedInv(s)
    decreases |acts|
  {
    if |acts| > 0 {
      var prev := Exec(Init(now), acts[..|acts| - 1]).value;
      ReachableJudged(now, acts[..|acts| - 1], prev);
      ReachableIds(now, acts[..|acts| - 1], prev);
      StepJudged(prev, acts[|acts| - 1], s);
    }
  }

  lemma HeldTask(s: State, k: Thread, token: string)
    requires TokensInv(s) && IndexInv(s) && token in s.store.byReg && Holds(s, k, token)
    ensures s.calls[k].task == s.store.tasks[s.store.byReg[token]]
  {
  }

  lemma JudgedNotHeld(s: State)
    requires Stored(s) && DoomedInv(s) && IdsInv(s) && TokensInv(s) && IndexInv(s) && JudgedInv(s)
             && DistinctIds(s.heap)
    ensures NoneHeld(s)
  {
    forall token, k | s.gc.Inspecting? && token in s.store.byReg && s.store.byReg[token] in s.gc.doomed && k in s.calls
      ensures !Holds(s, k, token)
    {
      if Holds(s, k, token) {
        HeldTask(s, k, token);
        SameId(s, s.gc.doomed, s.store.byReg[token]);
      }
    }
  }

  /** With distinct ids and undisturbed inspections collections change no outcome. */
  lemma {:induction false} UndisturbedIsCareful(now: int, acts: seq<Action>, s: State)
    requires Exec(Init(now), acts) == Some(s) && DistinctIds(s.heap) && Undisturbed(now, acts)
    ensures NeverHeld(now, acts) && Careful(now, acts)
    decreases |acts|
  {
    if |acts| > 0 {
      var prefix, a := acts[..|acts| - 1], acts[|acts| - 1];
      var prev := Exec(Init(now), prefix).value;
      StepTasks(prev, a, s);
      UndisturbedIsCareful(now, prefix, prev);
      if a.Delete? {
        ReachableIds(now, prefix, prev);
        ReachableIndex(now, prefix, prev);
        ReachableJudged(now, prefix, prev);
        JudgedNotHeld(prev);
      }
    }
    DistinctCarefulIff(now, acts, s);
  }

  /** And no registered task is ever collected. */
  lemma RegisteredNeverCollected(now: int, acts: seq<Action>, s: State, s': State, id: int)
    requires Exec(Init(now), acts) == Some(s) && DistinctIds(s.heap) && Undisturbed(now, acts)
    requires Step(s, Delete) == Some(s') && id in s.store.tasks && id !in s'.store.tasks
    ensures Lapsed(s, s.store.tasks[id])
    ensures !s.heap[s.store.tasks[id]].registered && !Paid(s.accepted, s.store.tasks[id])
  {
    CollectedRegisteredIff(now, acts, s, s', id);
    ReachableIds(now, acts, s);
    ReachableJudged(now, acts, s);
    SameId(s, s.gc.doomed, id);
  }
}
