/** The in-memory task store (internal/store/memstore.go): two maps, one mutex. */
module MemStore {
  import opened Wrappers
  import opened TaskTables
  import opened Lifecycle
  import opened Tasks

  predicate Overdue(t: TaskCtx, now: int)
    reads t
  {
    t.status == Pending && now - t.createdAt > t.regTokenTtl
  }

  /** The status checks of CountActive, outside the store lock. */
  method CountLive(ptrs: seq<TaskCtx>, ghost ids: seq<int>) returns (count: nat)
    requires |ptrs| == |ids| && forall i, j :: 0 <= i < j < |ids| ==> ids[i] != ids[j]
    ensures count == |set i | 0 <= i < |ids| && ptrs[i].status != Terminal :: ids[i]|
  {
    count := 0;
    var i := 0;
    ghost var seen: set<int> := {};
    while i < |ptrs|
      invariant i <= |ptrs| && count == |seen|
      invariant seen == set j | 0 <= j < i && ptrs[j].status != Terminal :: ids[j]
    {
      if ptrs[i].status != Terminal {
        assert ids[i] !in seen;
        count := count + 1;
        seen := seen + {ids[i]};
      }
      i := i + 1;
    }
  }

  function Ids(s: seq<int>): set<int> {
    set id | id in s
  }

  /** The status checks of GC, outside the store lock. */
  method Expired(ptrs: seq<TaskCtx>, ids: seq<int>, now: int) returns (doomed: seq<int>)
    requires |ptrs| == |ids|
    ensures forall id :: id in doomed ==> exists i :: 0 <= i < |ids| && ids[i] == id && Overdue(ptrs[i], now)
    ensures forall i :: 0 <= i < |ids| && Overdue(ptrs[i], now) ==> ids[i] in doomed
  {
    doomed := [];
    var i := 0;
    while i < |ptrs|
      invariant i <= |ptrs|
      invariant forall id :: id in doomed ==> exists j :: 0 <= j < i && ids[j] == id && Overdue(ptrs[j], now)
      invariant forall j :: 0 <= j < i && Overdue(ptrs[j], now) ==> ids[j] in doomed
    {
      if ptrs[i].status == Pending && now - ptrs[i].createdAt > ptrs[i].regTokenTtl {
        doomed := doomed + [ids[i]];
      }
      i := i + 1;
    }
  }

  lemma RemoveTwice<T>(s: Tables<T>, a: set<int>, b: set<int>)
    ensures s.RemoveAll(a).RemoveAll(b) == s.RemoveAll(a + b)
  {
    assert s.tasks - a - b == s.tasks - (a + b);
  }

  lemma RemoveNothing<T>(s: Tables<T>)
    ensures s.RemoveAll({}) == s
  {
    assert s.RemoveAll({}).byReg == s.byReg;
  }

  class Store {
    var tasks: map<int, TaskCtx>
    var byReg: map<string, int>

    function Contents(): Tables<TaskCtx>
      reads this
    {
      Tables(tasks, byReg)
    }

    /** What a collection at `now` would take. */
    ghost function OverdueIds(now: int): set<int>
      reads this, tasks.Values
    {
      set id | id in tasks && Overdue(tasks[id], now)
    }

    constructor ()
      ensures Contents() == Empty()
    {
      tasks, byReg := map[], map[];
    }

    method PutPending(t: TaskCtx)
      modifies this
      ensures Contents() == old(Contents()).Put(t.id, t.regToken, t)
    {
      tasks := tasks[t.id := t];
      byReg := byReg[t.regToken := t.id];
    }

    method GetByRegToken(regToken: string) returns (found: Option<TaskCtx>)
      ensures found == Contents().Find(regToken)
    {
      if regToken !in byReg { return None; }
      var id := byReg[regToken];
      if id !in tasks { return None; }
      return Some(tasks[id]);
    }

    /** True exactly for the caller that takes the token out of the index. */
    method MarkRegTokenConsumed(regToken: string) returns (won: bool)
      modifies this
      ensures won <==> regToken in old(byReg)
      ensures Contents() == old(Contents()).Consume(regToken)
    {
      if regToken !in byReg { return false; }
      byReg := byReg - {regToken};
      return true;
    }

    /** removeLocked: the task, and every token that points to it. */
    method RemoveLocked(id: int)
      modifies this
      ensures Contents() == old(Contents()).Remove(id)
    {
      tasks := tasks - {id};
      var todo := byReg.Keys;
      while todo != {}
        invariant tasks == old(tasks) - {id} && todo <= byReg.Keys <= old(byReg).Keys
        invariant forall tok :: tok in byReg ==> byReg[tok] == old(byReg)[tok]
        invariant forall tok :: tok in old(byReg) && tok !in todo ==> (tok in byReg <==> old(byReg)[tok] != id)
        decreases |todo|
      {
        var tok :| tok in todo;
        if byReg[tok] == id {
          byReg := byReg - {tok};
        }
        todo := todo - {tok};
      }
    }

    method Remove(id: int)
      modifies this
      ensures Contents() == old(Contents()).Remove(id)
    {
      RemoveLocked(id);
    }

    /** First critical section of GC: what is stored, in some order. */
    method Collect() returns (ptrs: seq<TaskCtx>, ids: seq<int>)
      ensures |ptrs| == |ids|
      ensures forall i :: 0 <= i < |ids| ==> ids[i] in tasks && ptrs[i] == tasks[ids[i]]
      ensures forall id :: id in tasks ==> id in ids
      ensures forall i, j :: 0 <= i < j < |ids| ==> ids[i] != ids[j]
    {
      ptrs, ids := [], [];
      var todo := tasks.Items;
      while todo != {}
        invariant todo <= tasks.Items && |ptrs| == |ids|
        invariant forall i :: 0 <= i < |ids| ==>
          ids[i] in tasks && ptrs[i] == tasks[ids[i]] && (ids[i], ptrs[i]) !in todo
        invariant forall id :: id in tasks ==> (id, tasks[id]) in todo || id in ids
        invariant forall i, j :: 0 <= i < j < |ids| ==> ids[i] != ids[j]
        decreases |todo|
      {
        var e :| e in todo;
        assert e in tasks.Items;
        ptrs, ids := ptrs + [e.1], ids + [e.0];
        todo := todo - {e};
      }
    }

    /** Second critical section of GC. */
    method Sweep(doomed: seq<int>)
      modifies this
      ensures Contents() == old(Contents()).RemoveAll(Ids(doomed))
    {
      var i := 0;
      while i < |doomed|
        invariant i <= |doomed| && Contents() == old(Contents()).RemoveAll(Ids(doomed[..i]))
      {
        RemoveLocked(doomed[i]);
        assert Ids(doomed[..i + 1]) == Ids(doomed[..i]) + {doomed[i]};
        RemoveTwice(old(Contents()), Ids(doomed[..i]), {doomed[i]});
        i := i + 1;
      }
      assert doomed[..i] == doomed;
    }

    /** GC run without interruption: it removes exactly the Pending tasks whose token has
        outlived its own TTL, and every token that leads to one. */
    method GC(now: int)
      modifies this
      ensures Contents() == old(Contents()).RemoveAll(old(OverdueIds(now)))
      ensures forall id :: id in tasks <==>
                id in old(tasks)
                && !(old(tasks)[id].status == Pending && now > old(tasks)[id].createdAt + old(tasks)[id].regTokenTtl)
    {
      var ptrs, ids := Collect();
      var doomed := Expired(ptrs, ids, now);
      assert Ids(doomed) == OverdueIds(now) by {
        forall id | id in tasks && Overdue(tasks[id], now) ensures id in doomed {
          var i :| 0 <= i < |ids| && ids[i] == id;
          assert Overdue(ptrs[i], now);
        }
        forall id | id in doomed ensures id in tasks && Overdue(tasks[id], now) {
          var i :| 0 <= i < |ids| && ids[i] == id && Overdue(ptrs[i], now);
        }
      }
      if |doomed| == 0 {
        RemoveNothing(Contents());
        return;
      }
      Sweep(doomed);
    }

    /** The number of stored tasks that are not Terminal. */
    method CountActive() returns (count: nat)
      ensures count == |set id | id in tasks && tasks[id].status != Terminal|
    {
      var ptrs, ids := Collect();
      count := CountLive(ptrs, ids);
      ghost var live := set i | 0 <= i < |ids| && ptrs[i].status != Terminal :: ids[i];
      assert live == set id | id in tasks && tasks[id].status != Terminal by {
        forall id | id in tasks && tasks[id].status != Terminal ensures id in live {
          var i :| 0 <= i < |ids| && ids[i] == id;
        }
      }
    }
  }
}
