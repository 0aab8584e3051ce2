/** The two maps of internal/store/memstore.go as one immutable value.
    `T` stands for whatever a task pointer is in the client of this module. */
module TaskTables {
  import opened Wrappers

  datatype Tables<T> = Tables(tasks: map<int, T>, byReg: map<string, int>) {

    function Put(id: int, regToken: string, t: T): Tables<T> {
      Tables(tasks[id := t], byReg[regToken := id])
    }

    /** Two-step lookup: registration token, then task id. */
    function Find(regToken: string): Option<T> {
      if regToken in byReg && byReg[regToken] in tasks then Some(tasks[byReg[regToken]]) else None
    }

    function Consume(regToken: string): Tables<T> {
      this.(byReg := byReg - {regToken})
    }

    function RemoveAll(ids: set<int>): Tables<T> {
      Tables(tasks - ids, map tok | tok in byReg && byReg[tok] !in ids :: byReg[tok])
    }

    function Remove(id: int): Tables<T> {
      RemoveAll({id})
    }

    /** Every index entry points at a stored task. */
    predicate Linked() {
      forall tok :: tok in byReg ==> byReg[tok] in tasks
    }
  }

  function Empty<T>(): Tables<T> {
    Tables(map[], map[])
  }
}
