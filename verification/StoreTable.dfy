/** The two maps of the task store refine one table of records
    (internal/store/memstore.go). */
module StoreTable {
  import opened Wrappers
  import opened TaskTables

  datatype Record<T> = Record(task: T, token: string, consumed: bool)

  type Table<T> = map<int, Record<T>>

  /** The store's operations; Collect is the deletion half of GC. */
  datatype Op<T> =
    | Put(id: int, token: string, task: T)
    | Get(token: string)
    | Consume(token: string)
    | Remove(id: int)
    | Collect(ids: set<int>)

  datatype Out<T> = Nothing | Found(task: Option<T>) | Won(won: bool)

  // ---- two maps ----

  function MapsStep<T>(s: Tables<T>, op: Op<T>): Tables<T> {
    match op
    case Put(id, token, task) => s.Put(id, token, task)
    case Get(token) => s
    case Consume(token) => s.Consume(token)
    case Remove(id) => s.Remove(id)
    case Collect(ids) => s.RemoveAll(ids)
  }

  function MapsOut<T>(s: Tables<T>, op: Op<T>): Out<T> {
    match op
    case Get(token) => Found(s.Find(token))
    case Consume(token) => Won(token in s.byReg)
    case _ => Nothing
  }

  // ---- one table ----

  /** Record `id` holds `token`, unconsumed. */
  predicate Claims<T>(t: Table<T>, id: int, token: string) {
    id in t && t[id].token == token && !t[id].consumed
  }

  ghost function Holder<T>(t: Table<T>, token: string): Option<int> {
    if id :| Claims(t, id, token) then Some(id) else None
  }

  ghost function TableStep<T>(t: Table<T>, op: Op<T>): Table<T> {
    match op
    case Put(id, token, task) => t[id := Record(task, token, false)]
    case Get(token) => t
    case Consume(token) =>
      (match Holder(t, token)
       case None => t
       case Some(id) => if id in t then t[id := t[id].(consumed := true)] else t)
    case Remove(id) => t - {id}
    case Collect(ids) => t - ids
  }

  ghost function TableOut<T>(t: Table<T>, op: Op<T>): Out<T> {
    match op
    case Get(token) =>
      (match Holder(t, token)
       case None => Found(None)
       case Some(id) => if id in t then Found(Some(t[id].task)) else Found(None))
    case Consume(token) => Won(Holder(t, token).Some?)
    case _ => Nothing
  }

  // ---- refinement ----

  ghost predicate Refines<T>(s: Tables<T>, t: Table<T>) {
    && s.tasks.Keys == t.Keys
    && (forall id :: id in t ==> s.tasks[id] == t[id].task)
    && (forall token :: token in s.byReg ==> Claims(t, s.byReg[token], token))
    && (forall id :: id in t && !t[id].consumed ==> t[id].token in s.byReg && s.byReg[t[id].token] == id)
  }

  /** The condition under which a Put keeps the two in step: it replaces no record with
      another unconsumed token, and no other record holds its token. */
  predicate PutSafe<T>(t: Table<T>, id: int, token: string) {
    && (id in t && !t[id].consumed ==> t[id].token == token)
    && (forall other :: other in t && other != id && !t[other].consumed ==> t[other].token != token)
  }

  lemma HolderIs<T>(s: Tables<T>, t: Table<T>, token: string)
    requires Refines(s, t)
    ensures token in s.byReg ==> Holder(t, token) == Some(s.byReg[token])
    ensures token !in s.byReg ==> Holder(t, token) == None
  {
    if token in s.byReg {
      assert Claims(t, s.byReg[token], token);
    }
  }

  lemma PutRefinesIff<T>(s: Tables<T>, t: Table<T>, id: int, token: string, task: T)
    requires Refines(s, t)
    ensures Refines(s.Put(id, token, task), TableStep(t, Put(id, token, task))) <==> PutSafe(t, id, token)
  {
    var s', t' := s.Put(id, token, task), TableStep(t, Put(id, token, task));
    if !PutSafe(t, id, token) {
      if id in t && !t[id].consumed && t[id].token != token {
        assert s'.byReg[t[id].token] == id && !Claims(t', id, t[id].token);
      } else {
        var other :| other in t && other != id && !t[other].consumed && t[other].token == token;
        assert t'[other] == t[other] && s'.byReg[token] == id;
      }
    }
  }

  lemma StepRefines<T>(s: Tables<T>, t: Table<T>, op: Op<T>)
    requires Refines(s, t) && (op.Put? ==> PutSafe(t, op.id, op.token))
    ensures Refines(MapsStep(s, op), TableStep(t, op))
    ensures MapsOut(s, op) == TableOut(t, op)
  {
    match op
    case Put(id, token, task) => PutRefinesIff(s, t, id, token, task);
    case Get(token) => HolderIs(s, t, token);
    case Consume(token) => HolderIs(s, t, token);
    case Remove(id) =>
    case Collect(ids) =>
  }

  // ---- whole runs ----

  function MapsRun<T>(ops: seq<Op<T>>): Tables<T> {
    if |ops| == 0 then Empty() else MapsStep(MapsRun(ops[..|ops| - 1]), ops[|ops| - 1])
  }

  ghost function TableRun<T>(ops: seq<Op<T>>): Table<T> {
    if |ops| == 0 then map[] else TableStep(TableRun(ops[..|ops| - 1]), ops[|ops| - 1])
  }

  /** Every Put of the run meets PutSafe at its place. */
  ghost predicate SafePuts<T>(ops: seq<Op<T>>)
    decreases |ops|
  {
    |ops| > 0 ==>
      var n := |ops| - 1;
      SafePuts(ops[..n]) && (ops[n].Put? ==> PutSafe(TableRun(ops[..n]), ops[n].id, ops[n].token))
  }

  lemma {:induction false} SafePrefix<T>(ops: seq<Op<T>>, n: nat)
    requires SafePuts(ops) && n <= |ops|
    ensures SafePuts(ops[..n])
    decreases |ops|
  {
    if n < |ops| {
      SafePrefix(ops[..|ops| - 1], n);
      assert ops[..|ops| - 1][..n] == ops[..n];
    } else {
      assert ops[..n] == ops;
    }
  }

  lemma {:induction false} RunRefines<T>(ops: seq<Op<T>>)
    requires SafePuts(ops)
    ensures Refines(MapsRun(ops), TableRun(ops))
    decreases |ops|
  {
    if |ops| > 0 {
      var last := |ops| - 1;
      RunRefines(ops[..last]);
      StepRefines(MapsRun(ops[..last]), TableRun(ops[..last]), ops[last]);
    }
  }

  lemma {:induction false} UnsafeDiverges<T>(ops: seq<Op<T>>) returns (n: nat)
    requires !SafePuts(ops)
    ensures n <= |ops| && !Refines(MapsRun(ops[..n]), TableRun(ops[..n]))
    decreases |ops|
  {
    var last := |ops| - 1;
    if SafePuts(ops[..last]) {
      RunRefines(ops[..last]);
      PutRefinesIff(MapsRun(ops[..last]), TableRun(ops[..last]), ops[last].id, ops[last].token, ops[last].task);
      n := |ops|;
      assert ops[..n] == ops;
    } else {
      n := UnsafeDiverges(ops[..last]);
      assert ops[..last][..n] == ops[..n];
    }
  }

  // ---- what a client sees ----

  /** Every operation of the run answers as the table does. */
  ghost predicate Answers<T>(ops: seq<Op<T>>) {
    forall n :: 0 <= n < |ops| ==> MapsOut(MapsRun(ops[..n]), ops[n]) == TableOut(TableRun(ops[..n]), ops[n])
  }

  predicate NoPuts<T>(ops: seq<Op<T>>) {
    forall n :: 0 <= n < |ops| ==> !ops[n].Put?
  }

  lemma AnswersAgree<T>(s: Tables<T>, t: Table<T>, op: Op<T>)
    requires Refines(s, t)
    ensures MapsOut(s, op) == TableOut(t, op)
  {
    if op.Get? || op.Consume? {
      StepRefines(s, t, op);
    }
  }

  lemma SafeAnswers<T>(ops: seq<Op<T>>)
    requires SafePuts(ops)
    ensures Answers(ops)
  {
    forall n | 0 <= n < |ops| ensures MapsOut(MapsRun(ops[..n]), ops[n]) == TableOut(TableRun(ops[..n]), ops[n]) {
      SafePrefix(ops, n);
      RunRefines(ops[..n]);
      AnswersAgree(MapsRun(ops[..n]), TableRun(ops[..n]), ops[n]);
    }
  }

  lemma {:induction false} NoPutsAreSafe<T>(ops: seq<Op<T>>, more: seq<Op<T>>)
    requires SafePuts(ops) && NoPuts(more)
    ensures SafePuts(ops + more)
    decreases |more|
  {
    if more == [] {
      assert ops + more == ops;
    } else {
      var init, op := more[..|more| - 1], more[|more| - 1];
      assert !op.Put?;
      NoPutsAreSafe(ops, init);
      assert (ops + more)[..|ops + more| - 1] == ops + init;
    }
  }

  /** A token the Put leaves behind in the index leads to the new task. */
  lemma StaleToken<T>(s: Tables<T>, t: Table<T>, id: int, token: string, task: T)
    requires Refines(s, t) && id in t && !t[id].consumed && t[id].token != token
    ensures MapsOut(s.Put(id, token, task), Get(t[id].token))
         != TableOut(TableStep(t, Put(id, token, task)), Get(t[id].token))
  {
    var stale := t[id].token;
    var s', t' := s.Put(id, token, task), TableStep(t, Put(id, token, task));
    assert s'.Find(stale) == Some(task);
    assert forall other :: Claims(t, other, stale) ==> other == s.byReg[stale] == id;
    assert forall other :: Claims(t', other, stale) ==> other == id || Claims(t, other, stale);
  }

  /** A token the Put takes over is gone with the new task, although the other record still
      holds it. */
  lemma TakenToken<T>(s: Tables<T>, t: Table<T>, id: int, token: string, task: T, other: int)
    requires other in t && other != id && !t[other].consumed && t[other].token == token
    ensures var s', t' := s.Put(id, token, task), TableStep(t, Put(id, token, task));
      MapsOut(MapsStep(s', Remove(id)), Get(token)) != TableOut(TableStep(t', Remove(id)), Get(token))
  {
    var t'' := TableStep(TableStep(t, Put(id, token, task)), Remove(id));
    assert t''[other] == t[other];
    assert Claims(t'', other, token);
  }

  lemma OneMore<T>(ops: seq<Op<T>>, op: Op<T>)
    ensures MapsRun(ops + [op]) == MapsStep(MapsRun(ops), op) && TableRun(ops + [op]) == TableStep(TableRun(ops), op)
    ensures Answers(ops + [op]) ==> MapsOut(MapsRun(ops), op) == TableOut(TableRun(ops), op)
  {
    assert (ops + [op])[..|ops|] == ops && (ops + [op])[|ops|] == op;
  }

  lemma StaleShows<T>(ops: seq<Op<T>>, put: Op<T>)
    requires Refines(MapsRun(ops), TableRun(ops)) && put.Put?
    requires var t := TableRun(ops); put.id in t && !t[put.id].consumed && t[put.id].token != put.token
    ensures !Answers(ops + [put] + [Get(TableRun(ops)[put.id].token)])
  {
    StaleToken(MapsRun(ops), TableRun(ops), put.id, put.token, put.task);
    OneMore(ops, put);
    OneMore(ops + [put], Get(TableRun(ops)[put.id].token));
  }

  lemma TakenShows<T>(ops: seq<Op<T>>, put: Op<T>, other: int)
    requires put.Put?
    requires var t := TableRun(ops); other in t && other != put.id && !t[other].consumed && t[other].token == put.token
    ensures !Answers(ops + [put] + [Remove(put.id)] + [Get(put.token)])
  {
    TakenToken(MapsRun(ops), TableRun(ops), put.id, put.token, put.task, other);
    OneMore(ops, put);
    OneMore(ops + [put], Remove(put.id));
    OneMore(ops + [put] + [Remove(put.id)], Get(put.token));
  }

  lemma UnsafePutShows<T>(ops: seq<Op<T>>, put: Op<T>) returns (more: seq<Op<T>>)
    requires SafePuts(ops) && put.Put? && !PutSafe(TableRun(ops), put.id, put.token)
    ensures NoPuts(more) && !Answers(ops + [put] + more)
  {
    var t := TableRun(ops);
    RunRefines(ops);
    if put.id in t && !t[put.id].consumed && t[put.id].token != put.token {
      more := [Get(t[put.id].token)];
      StaleShows(ops, put);
    } else {
      var other :| other in t && other != put.id && !t[other].consumed && t[other].token == put.token;
      more := [Remove(put.id)] + [Get(put.token)];
      TakenShows(ops, put, other);
      assert ops + [put] + more == ops + [put] + [Remove(put.id)] + [Get(put.token)];
    }
  }

  lemma {:induction false} UnsafePutsShow<T>(ops: seq<Op<T>>) returns (n: nat, more: seq<Op<T>>)
    requires !SafePuts(ops)
    ensures n <= |ops| && NoPuts(more) && !Answers(ops[..n] + more)
    decreases |ops|
  {
    var init := ops[..|ops| - 1];
    if SafePuts(init) {
      more := UnsafePutShows(init, ops[|ops| - 1]);
      n := |ops|;
      assert ops[..n] == ops == init + [ops[|ops| - 1]];
    } else {
      n, more := UnsafePutsShow(init);
      assert init[..n] == ops[..n];
    }
  }

  /** The maps are in step with the table after every operation if and only if every Put is
      safe. */
  lemma StoreInStepIff<T>(ops: seq<Op<T>>)
    ensures SafePuts(ops) <==> forall n :: 0 <= n <= |ops| ==> Refines(MapsRun(ops[..n]), TableRun(ops[..n]))
  {
    if SafePuts(ops) {
      forall n | 0 <= n <= |ops| ensures Refines(MapsRun(ops[..n]), TableRun(ops[..n])) {
        SafePrefix(ops, n);
        RunRefines(ops[..n]);
      }
    } else {
      var n := UnsafeDiverges(ops);
    }
  }

  /** Whatever is done with the store except a further Put, at any point of the run, it answers
      as the table does, if and only if every Put is safe. */
  lemma StoreIsATable<T>(ops: seq<Op<T>>)
    ensures SafePuts(ops) <==> forall n, more :: 0 <= n <= |ops| && NoPuts(more) ==> Answers(ops[..n] + more)
  {
    if SafePuts(ops) {
      forall n, more | 0 <= n <= |ops| && NoPuts(more) ensures Answers(ops[..n] + more) {
        SafePrefix(ops, n);
        NoPutsAreSafe(ops[..n], more);
        SafeAnswers(ops[..n] + more);
      }
    } else {
      var n, more := UnsafePutsShow(ops);
    }
  }

  // ---- what makes Puts safe ----

  /** Ids are distinct among the tasks stored at the same time, and no token is stored twice:
      an id may come back once its earlier task has been removed. */
  ghost predicate LivePuts<T>(ops: seq<Op<T>>) {
    && (forall n :: 0 <= n < |ops| && ops[n].Put? ==> ops[n].id !in TableRun(ops[..n]))
    && (forall i, j :: 0 <= i < j < |ops| && ops[i].Put? && ops[j].Put? ==> ops[i].token != ops[j].token)
  }

  predicate WasPut<T>(ops: seq<Op<T>>, id: int, token: string) {
    exists i :: 0 <= i < |ops| && ops[i].Put? && ops[i].id == id && ops[i].token == token
  }

  lemma {:induction false} RecordsWerePut<T>(ops: seq<Op<T>>)
    ensures forall id :: id in TableRun(ops) ==> WasPut(ops, id, TableRun(ops)[id].token)
    decreases |ops|
  {
    if |ops| > 0 {
      var n := |ops| - 1;
      var t, t' := TableRun(ops[..n]), TableRun(ops);
      RecordsWerePut(ops[..n]);
      forall id | id in t' ensures WasPut(ops, id, t'[id].token) {
        if ops[n].Put? && ops[n].id == id {
          assert ops[n].token == t'[id].token;
        } else {
          assert id in t && t[id].token == t'[id].token;
          var i :| 0 <= i < n && ops[..n][i].Put? && ops[..n][i].id == id && ops[..n][i].token == t[id].token;
          assert ops[i].id == id;
        }
      }
    }
  }

  lemma FreshPutIsSafe<T>(ops: seq<Op<T>>)
    requires LivePuts(ops) && |ops| > 0 && ops[|ops| - 1].Put?
    ensures PutSafe(TableRun(ops[..|ops| - 1]), ops[|ops| - 1].id, ops[|ops| - 1].token)
  {
    var last := |ops| - 1;
    var t := TableRun(ops[..last]);
    RecordsWerePut(ops[..last]);
    forall id | id in t ensures t[id].token != ops[last].token {
      var i :| 0 <= i < last && ops[..last][i].Put? && ops[..last][i].id == id && ops[..last][i].token == t[id].token;
      assert ops[i].Put? && ops[i].token == t[id].token;
    }
  }

  lemma {:induction false} LivePutsAreSafe<T>(ops: seq<Op<T>>)
    requires LivePuts(ops)
    ensures SafePuts(ops)
    decreases |ops|
  {
    if |ops| > 0 {
      var n := |ops| - 1;
      assert LivePuts(ops[..n]) by {
        forall m | 0 <= m < n && ops[..n][m].Put? ensures ops[..n][m].id !in TableRun(ops[..n][..m]) {
          assert ops[..n][..m] == ops[..m] && ops[m].Put?;
        }
      }
      LivePutsAreSafe(ops[..n]);
      if ops[n].Put? {
        FreshPutIsSafe(ops);
      }
    }
  }

  /** Whatever is stored, no index entry ever dangles; this needs no hypothesis on ids. */
  lemma {:induction false} IndexNeverDangles<T>(ops: seq<Op<T>>)
    ensures MapsRun(ops).Linked()
    decreases |ops|
  {
    if |ops| > 0 {
      IndexNeverDangles(ops[..|ops| - 1]);
    }
  }
}
