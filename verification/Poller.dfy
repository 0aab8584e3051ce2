/** One round of PollLoop run alone over the real objects (internal/north/poller.go).
    Lifecycle has the same steps interleaved with every other thread. */
module Poller {
  import opened Wrappers
  import L = Lifecycle
  import opened Tasks
  import opened Slots
  import M = MemStore

  /** The buffered channel between pollers and dispatcher. */
  class TaskQueue {
    const capacity: nat
    var items: seq<TaskCtx>

    constructor (capacity: nat)
      ensures this.capacity == capacity && items == []
    {
      this.capacity, items := capacity, [];
    }
  }

  /** How a round ends: still waiting for a slot, stopped without one, nothing fetched, task
      handed over, task given up on shutdown, or still waiting to hand it over. */
  datatype Round = NoSlot | Stopped | NothingFetched | HandedOver(t: TaskCtx) | GivenUp(t: TaskCtx) | Stuck(t: TaskCtx)

  /** What Forgejo answers: an error or no task, or a task's id. */
  datatype Fetched = NoTask | Fetched(id: int)

  /** A slot is kept exactly for a task that is handed over or about to be; the task is
      stored before it is handed over, and stays stored when it is given up. */
  method PollOnce(pool: Pool, store: M.Store, queue: TaskQueue, instance: string, ttl: int,
                  fetched: Fetched, token: Option<string>, now: int, ctxDone: bool, preferSlot: bool)
    returns (round: Round)
    requires pool.Valid() && |queue.items| <= queue.capacity
    modifies pool, store, queue
    ensures pool.Valid() && |queue.items| <= queue.capacity
    ensures pool.held == if round.HandedOver? || round.Stuck? then old(pool.held) + 1 else old(pool.held)
    ensures round.NoSlot? <==> old(pool.held) == pool.capacity && !ctxDone
    ensures round.Stopped? || round.GivenUp? ==> ctxDone
    ensures round.HandedOver? || round.GivenUp? || round.Stuck? ==>
              && fetched.Fetched? && token.Some? && fresh(round.t) && round.t.Valid()
              && round.t.id == fetched.id && round.t.instance == instance && round.t.regToken == token.value
              && round.t.regTokenTtl == ttl && round.t.createdAt == now && round.t.status == L.Pending
              && store.Contents() == old(store.Contents()).Put(fetched.id, token.value, round.t)
    ensures round.NoSlot? || round.Stopped? || round.NothingFetched? ==> store.Contents() == old(store.Contents())
    ensures queue.items == if round.HandedOver? then old(queue.items) + [round.t] else old(queue.items)
    ensures round.Stuck? <==> !ctxDone && old(pool.held) < pool.capacity && fetched.Fetched? && token.Some?
                              && |old(queue.items)| == queue.capacity
  {
    var slot := pool.Acquire(ctxDone, preferSlot);
    if slot.Blocked? { return NoSlot; }
    if slot.Cancelled? { return Stopped; }
    if fetched.NoTask? || token.None? {
      pool.Release();
      return NothingFetched;
    }
    var t := new TaskCtx(fetched.id, instance, token.value, ttl, now);
    t.SetStatus(L.Pending);
    store.PutPending(t);
    if |queue.items| == queue.capacity && !ctxDone { return Stuck(t); }
    if {
      case |queue.items| < queue.capacity =>
        queue.items := queue.items + [t];
        round := HandedOver(t);
      case ctxDone =>
        pool.Release();
        round := GivenUp(t);
    }
  }
}
