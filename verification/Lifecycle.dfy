/** The task lifecycle as an interleaved transition system.

    One step is one mutex-protected operation, one channel operation or one
    northbound call of one thread; work that touches only thread-local data is
    merged into the step next to it.  Threads are the pollers, the dispatcher
    goroutine, one HandleTask per task with its heartbeat, one thread per
    southbound RPC, and the GC loop.  A `select` with several ready cases may
    take any of them; timers and tickers are steps that are always enabled. */
module Lifecycle {
  import opened Wrappers
  import opened TaskTables
  import opened SessionTables

  /** Identity of an allocated *TaskCtx. */
  type Ref = nat

  /** Identity of a goroutine. */
  type Thread = nat

  datatype Status = Pending | Dispatched | Running | Terminal

  /** A TaskCtx.  `poller` records which client fetched it; the code has no such field. */
  datatype Task = Task(id: int, instance: string, regToken: string, ttl: int, createdAt: int,
                       status: Status, sessionToken: string, done: bool, registered: bool,
                       poller: nat)

  datatype Instance = Instance(name: string, regTokenTtl: int)

  /** Instance `i` is served by northbound client `i`, which runs poller `i`. */
  datatype Config = Config(instances: seq<Instance>, capacity: nat, maxAge: int)

  /** The resolver map is filled in configuration order, so the last client of a name wins. */
  function Resolve(instances: seq<Instance>, name: string): Option<nat> {
    if |instances| == 0 then None
    else if instances[|instances| - 1].name == name then Some(|instances| - 1)
    else Resolve(instances[..|instances| - 1], name)
  }

  predicate UniqueNames(instances: seq<Instance>) {
    forall i, j :: 0 <= i < j < |instances| ==> instances[i].name != instances[j].name
  }

  datatype Poller =
    | Acquiring           // blocked in pool.Acquire
    | Fetching            // holds a slot
    | Sending(task: Ref)  // holds a slot; the task is stored
    | Pausing             // between two polls
    | Stopped

  /** What an exit path of HandleTask still has to do, in order. */
  datatype Op = Report(client: nat) | ReadToken | DropSession | ReleaseSlot | RemoveTask

  datatype HandlerPc =
    | Resolving
    | Triggering(client: nat)
    | Dispatching(client: nat)       // Trigger succeeded, before MarkDispatched
    | AwaitRegistration(client: nat) // phase 1 select
    | Probing                        // phase 1 woke on ctx.Done
    | AwaitDone                      // phase 2 select
    | Leaving(ops: seq<Op>, token: string) // an exit path; empty once HandleTask has returned

  datatype Handler = Handler(task: Ref, pc: HandlerPc)

  /** The heartbeat goroutine of one HandleTask. */
  datatype Heartbeat = Heartbeat(client: nat, task: Ref, cancelled: bool)

  datatype Request =
    | Declare
    | FetchTask
    | UpdateTask(id: int, terminal: bool)
    | UpdateLog(id: int)

  /** Why a registration token is being consumed: by the Register RPC, or by
      `authenticate` on behalf of a one-job runner. */
  datatype Purpose = Explicit | OneJob(req: Request)

  datatype Cleanup = SetTerminal | CloseDone | EndSession | Unstore

  datatype Rpc =
    | LookingUp(token: string, req: Request)
    | Touching(token: string, task: Ref, req: Request)
    | Finding(token: string, why: Purpose)
    | Checking(token: string, task: Ref, why: Purpose)
    | Consuming(token: string, task: Ref, why: Purpose)
    | Creating(token: string, task: Ref, why: Purpose)
    | Linking(token: string, task: Ref, key: string, why: Purpose)
    | Refreshing(token: string, task: Ref, key: string, why: Purpose)
    | Registering(token: string, task: Ref, key: string, why: Purpose)
    | Authenticated(key: string, task: Ref, req: Request)
    | Finishing(key: string, task: Ref, stage: Cleanup)
    | Accepted(key: string)
    | Rejected

  datatype Gc =
    | Idle
    | Inspecting(at: int, scanned: map<int, Ref>, doomed: set<int>)
    | Expiring(at: int)
    | Sweeping(todo: map<string, Ref>)
    | Closing(task: Ref, todo: map<string, Ref>)   // failure reported, before MarkDone
    | Removing(task: Ref, todo: map<string, Ref>)  // after MarkDone, before Remove
    | Finished

  /** A session creation: which token paid for it, under which key, for which task. */
  datatype Birth = Birth(regToken: string, key: string, task: Ref)

  /** The mutex-protected objects, plus history: `minted`, `births`, `fetched`, `sent`
      and `dropped` record what has happened and guide no step but the token oracles. */
  datatype World = World(
    now: int,
    heap: seq<Task>,
    store: Tables<Ref>,
    sessions: Sessions<Ref>,
    minted: set<string>,
    births: seq<Birth>,
    fetched: set<(nat, int)>,
    sent: set<(nat, int)>,
    dropped: set<Ref>)

  datatype State = State(
    cfg: Config,
    shutdown: bool,
    w: World,
    used: nat,
    pollers: seq<Poller>,
    channel: seq<Ref>,
    dispatcher: Option<Ref>,
    handlers: map<Thread, Handler>,
    beats: map<Thread, Heartbeat>,
    rpcs: map<Thread, Rpc>,
    gc: Gc,
    next: Thread)

  function Init(cfg: Config, now: int): State {
    State(cfg, false, World(now, [], Empty(), map[], {}, [], {}, {}, {}), 0,
          seq(|cfg.instances|, _ => Acquiring), [], None, map[], map[], map[], Idle, 0)
  }

  // ---- shared objects ----

  /** pool.Release: a no-op on an empty pool. */
  function Released(used: nat): nat {
    if used > 0 then used - 1 else 0
  }

  const REG_TOKEN_CHARS := 64
  const SESSION_TOKEN_CHARS := 32

  predicate RegTokenExpired(t: Task, now: int) {
    now - t.createdAt > t.ttl
  }

  // ---- pollers (internal/north/poller.go) ----

  datatype PollerAct =
    | Acquire
    | GiveUp
    | FetchNothing
    | Fetch(id: int, regToken: string, createdAt: int)
    | Wake
    | Send
    | Abandon

  /** Control flow of PollLoop; None when the action is not enabled. */
  function PollerNext(s: State, pc: Poller, a: PollerAct): Option<Poller> {
    match (pc, a)
    case (Acquiring, Acquire) => if s.used < s.cfg.capacity then Some(Fetching) else None
    case (Acquiring, GiveUp) => if s.shutdown then Some(Stopped) else None
    case (Fetching, FetchNothing) => Some(Pausing)
    case (Fetching, Fetch(id, tok, createdAt)) =>
      if |tok| == REG_TOKEN_CHARS && tok !in s.w.minted && createdAt <= s.w.now
      then Some(Sending(|s.w.heap|)) else None
    case (Sending(r), Send) => if |s.channel| < s.cfg.capacity then Some(Acquiring) else None
    case (Sending(r), Abandon) => if s.shutdown then Some(Stopped) else None
    case (Pausing, Wake) => Some(Acquiring)
    case (Pausing, GiveUp) => if s.shutdown then Some(Stopped) else None
    case _ => None
  }

  function PollerUsed(used: nat, a: PollerAct): nat {
    match a
    case Acquire => used + 1
    case FetchNothing => Released(used)
    case Abandon => Released(used)
    case _ => used
  }

  /** Wraps a fetched task in a TaskCtx and stores it, or gives a stored one up. */
  function PollerWorld(inst: Instance, w: World, p: nat, pc: Poller, a: PollerAct): World {
    match (pc, a)
    case (Fetching, Fetch(id, tok, createdAt)) =>
      var t := Task(id, inst.name, tok, inst.regTokenTtl, createdAt, Pending, "", false, false, p);
      w.(heap := w.heap + [t],
         store := w.store.Put(id, tok, |w.heap|),
         minted := w.minted + {tok},
         fetched := w.fetched + {(p, id)})
    case (Sending(r), Abandon) => w.(dropped := w.dropped + {r})
    case _ => w
  }

  function PollerStep(s: State, p: nat, a: PollerAct): Option<State> {
    if p >= |s.pollers| || p >= |s.cfg.instances| then None else
    match PollerNext(s, s.pollers[p], a)
    case None => None
    case Some(pc) =>
      Some(s.(pollers := s.pollers[p := pc],
              used := PollerUsed(s.used, a),
              channel := if s.pollers[p].Sending? && a.Send? then s.channel + [s.pollers[p].task] else s.channel,
              w := PollerWorld(s.cfg.instances[p], s.w, p, s.pollers[p], a)))
  }

  // ---- dispatcher goroutine (internal/app/app.go) ----

  datatype DispatcherAct = Receive | Spawn

  function DispatcherStep(s: State, a: DispatcherAct): Option<State> {
    match (s.dispatcher, a)
    case (None, Receive) =>
      if |s.channel| > 0 then Some(s.(channel := s.channel[1..], dispatcher := Some(s.channel[0]))) else None
    case (Some(r), Spawn) =>
      Some(s.(dispatcher := None, handlers := s.handlers[s.next := Handler(r, Resolving)], next := s.next + 1))
    case _ => None
  }

  // ---- HandleTask (internal/run/runner.go) ----

  const DROP_PATH: seq<Op> := [RemoveTask, ReadToken, DropSession, ReleaseSlot]
  function FailPath(client: nat): seq<Op> { [Report(client), ReadToken, DropSession, ReleaseSlot, RemoveTask] }
  const SHUTDOWN_PATH: seq<Op> := [ReadToken, DropSession, RemoveTask, ReleaseSlot]
  const EXIT_PATH: seq<Op> := [ReleaseSlot]

  datatype HandlerAct =
    | DoResolve
    | TriggerOk
    | TriggerFail
    | MarkDispatched
    | SeeDone
    | SeeRegistered
    | SeeTimeout
    | SeeShutdown
    | Probe
    | DoOp

  predicate Returned(pc: HandlerPc) {
    pc.Leaving? && pc.ops == []
  }

  /** Control flow of HandleTask for task `t`; None when the action is not enabled. */
  function HandlerNext(cfg: Config, shutdown: bool, t: Task, pc: HandlerPc, a: HandlerAct): Option<HandlerPc> {
    match (pc, a)
    case (Resolving, DoResolve) =>
      (match Resolve(cfg.instances, t.instance)
       case None => Some(Leaving(DROP_PATH, ""))
       case Some(c) => Some(Triggering(c)))
    case (Triggering(c), TriggerFail) => Some(Leaving(FailPath(c), ""))
    case (Triggering(c), TriggerOk) => Some(Dispatching(c))
    case (Dispatching(c), MarkDispatched) => Some(AwaitRegistration(c))
    case (AwaitRegistration(_), SeeDone) => if t.done then Some(Leaving(EXIT_PATH, "")) else None
    case (AwaitRegistration(_), SeeRegistered) => if t.registered then Some(AwaitDone) else None
    case (AwaitRegistration(c), SeeTimeout) => Some(Leaving(FailPath(c), ""))
    case (AwaitRegistration(_), SeeShutdown) => if shutdown then Some(Probing) else None
    case (Probing, Probe) => Some(Leaving(if t.registered then EXIT_PATH else SHUTDOWN_PATH, ""))
    case (AwaitDone, SeeDone) => if t.done then Some(Leaving(EXIT_PATH, "")) else None
    case (AwaitDone, SeeShutdown) => if shutdown then Some(Leaving(EXIT_PATH, "")) else None
    case (Leaving(ops, token), DoOp) =>
      if ops == [] then None
      else Some(Leaving(ops[1..], if ops[0].ReadToken? then t.sessionToken else token))
    case _ => None
  }

  function NextOp(pc: HandlerPc, a: HandlerAct): Option<Op> {
    if pc.Leaving? && pc.ops != [] && a.DoOp? then Some(pc.ops[0]) else None
  }

  function HandlerWorld(w: World, r: Ref, pc: HandlerPc, a: HandlerAct): World
    requires r < |w.heap|
  {
    var t := w.heap[r];
    if pc.Dispatching? && a.MarkDispatched? then w.(heap := w.heap[r := t.(status := Dispatched)]) else
    match NextOp(pc, a)
    case Some(Report(c)) => w.(sent := w.sent + {(c, t.id)})
    case Some(DropSession) => w.(sessions := Remove(w.sessions, pc.token))
    case Some(RemoveTask) => w.(store := w.store.Remove(t.id))
    case _ => w
  }

  function HandlerBeats(beats: map<Thread, Heartbeat>, h: Thread, r: Ref, pc: HandlerPc, pc': HandlerPc)
    : map<Thread, Heartbeat>
  {
    if pc.Dispatching? then beats[h := Heartbeat(pc.client, r, false)]
    else if pc'.Leaving? && h in beats then beats[h := beats[h].(cancelled := true)]
    else beats
  }

  function HandlerStep(s: State, h: Thread, a: HandlerAct): Option<State> {
    if h !in s.handlers || s.handlers[h].task >= |s.w.heap| then None else
    var r, pc := s.handlers[h].task, s.handlers[h].pc;
    match HandlerNext(s.cfg, s.shutdown, s.w.heap[r], pc, a)
    case None => None
    case Some(pc') =>
      Some(s.(handlers := s.handlers[h := Handler(r, pc')],
              beats := HandlerBeats(s.beats, h, r, pc, pc'),
              used := if NextOp(pc, a) == Some(ReleaseSlot) then Released(s.used) else s.used,
              w := HandlerWorld(s.w, r, pc, a)))
  }

  // ---- heartbeat goroutines (internal/north/client.go) ----

  datatype BeatAct = Beat | BeatStop

  function BeatStep(s: State, h: Thread, a: BeatAct): Option<State> {
    if h !in s.beats || s.beats[h].task >= |s.w.heap| then None else
    var b := s.beats[h];
    match a
    case Beat => Some(s.(w := s.w.(sent := s.w.sent + {(b.client, s.w.heap[b.task].id)})))
    case BeatStop => if b.cancelled || s.shutdown then Some(s.(beats := s.beats - {h})) else None
  }

  // ---- southbound RPCs (internal/south/handler.go) ----

  /** What a step takes from outside: a generated session token, a northbound outcome. */
  datatype Oracle = Oracle(freshKey: string, forwardOk: bool)

  predicate IsFirst(rpc: Rpc) {
    rpc.LookingUp? || (rpc.Finding? && rpc.why.Explicit?)
  }

  function RpcTask(rpc: Rpc): Option<Ref> {
    match rpc
    case Touching(_, r, _) => Some(r)
    case Checking(_, r, _) => Some(r)
    case Consuming(_, r, _) => Some(r)
    case Creating(_, r, _) => Some(r)
    case Linking(_, r, _, _) => Some(r)
    case Refreshing(_, r, _, _) => Some(r)
    case Registering(_, r, _, _) => Some(r)
    case Authenticated(_, r, _) => Some(r)
    case Finishing(_, r, _) => Some(r)
    case _ => None
  }

  predicate ValidRpc(rpc: Rpc, w: World) {
    RpcTask(rpc).Some? ==> RpcTask(rpc).value < |w.heap|
  }

  /** Where an authenticated request is routed once its task id has been checked. */
  function Route(cfg: Config, t: Task, req: Request): Option<nat> {
    if (req.UpdateTask? || req.UpdateLog?) && req.id == t.id then Resolve(cfg.instances, t.instance) else None
  }

  /** Control flow of Register and of `authenticate` with the RPC body behind it. */
  function RpcNext(cfg: Config, w: World, rpc: Rpc, o: Oracle): Option<Rpc>
    requires ValidRpc(rpc, w)
  {
    match rpc
    case LookingUp(tok, req) =>
      if tok in w.sessions then Some(Touching(tok, w.sessions[tok].task, req)) else Some(Finding(tok, OneJob(req)))
    case Touching(tok, r, req) => if tok in w.sessions then Some(Authenticated(tok, r, req)) else Some(Rejected)
    case Finding(tok, why) =>
      (match w.store.Find(tok)
       case None => Some(Rejected)
       case Some(r) => Some(Checking(tok, r, why)))
    case Checking(tok, r, why) =>
      if RegTokenExpired(w.heap[r], w.now) then Some(Rejected) else Some(Consuming(tok, r, why))
    case Consuming(tok, r, why) => if tok in w.store.byReg then Some(Creating(tok, r, why)) else Some(Rejected)
    case Creating(tok, r, why) =>
      if why.OneJob? then Some(Linking(tok, r, tok, why))
      else if |o.freshKey| == SESSION_TOKEN_CHARS && o.freshKey !in w.minted
      then Some(Linking(tok, r, o.freshKey, why)) else None
    case Linking(tok, r, key, why) =>
      if why.OneJob? then Some(Refreshing(tok, r, key, why)) else Some(Registering(tok, r, key, why))
    case Refreshing(tok, r, key, why) => Some(Registering(tok, r, key, why))
    case Registering(tok, r, key, why) =>
      if why.OneJob? then Some(Authenticated(key, r, why.req)) else Some(Accepted(key))
    case Authenticated(key, r, req) =>
      if req.Declare? || req.FetchTask? then Some(Accepted(key))
      else if Route(cfg, w.heap[r], req).None? || !o.forwardOk then Some(Rejected)
      else if req.UpdateTask? && req.terminal then Some(Finishing(key, r, SetTerminal))
      else Some(Accepted(key))
    case Finishing(key, r, SetTerminal) => Some(Finishing(key, r, CloseDone))
    case Finishing(key, r, CloseDone) => Some(Finishing(key, r, EndSession))
    case Finishing(key, r, EndSession) => Some(Finishing(key, r, Unstore))
    case Finishing(key, r, Unstore) => Some(Accepted(key))
    case _ => None
  }

  /** Effect of the same step on the shared objects. */
  function RpcWorld(cfg: Config, w: World, rpc: Rpc, o: Oracle): World
    requires ValidRpc(rpc, w)
  {
    match rpc
    case Touching(tok, r, req) => w.(sessions := Touch(w.sessions, tok, w.now))
    case Consuming(tok, r, why) => w.(store := w.store.Consume(tok))
    case Creating(tok, r, why) =>
      var key := if why.OneJob? then tok else o.freshKey;
      w.(sessions := Insert(w.sessions, key, r, w.now),
         minted := w.minted + {key},
         births := w.births + [Birth(tok, key, r)])
    case Linking(tok, r, key, why) => w.(heap := w.heap[r := w.heap[r].(sessionToken := key)])
    case Refreshing(tok, r, key, why) => w.(sessions := Touch(w.sessions, key, w.now))
    case Registering(tok, r, key, why) =>
      w.(heap := w.heap[r := w.heap[r].(status := Running, registered := true)])
    case Authenticated(key, r, req) =>
      (match Route(cfg, w.heap[r], req)
       case None => w
       case Some(c) => w.(sent := w.sent + {(c, req.id)}))
    case Finishing(key, r, SetTerminal) => w.(heap := w.heap[r := w.heap[r].(status := Terminal)])
    case Finishing(key, r, CloseDone) => w.(heap := w.heap[r := w.heap[r].(done := true)])
    case Finishing(key, r, EndSession) => w.(sessions := Remove(w.sessions, key))
    case Finishing(key, r, Unstore) => w.(store := w.store.Remove(w.heap[r].id))
    case _ => w
  }

  function RpcStep(s: State, t: Thread, o: Oracle): Option<State> {
    if t !in s.rpcs || !ValidRpc(s.rpcs[t], s.w) then None else
    match RpcNext(s.cfg, s.w, s.rpcs[t], o)
    case None => None
    case Some(rpc') => Some(s.(rpcs := s.rpcs[t := rpc'], w := RpcWorld(s.cfg, s.w, s.rpcs[t], o)))
  }

  // ---- GC loop (internal/app/app.go, internal/store/memstore.go, internal/session/manager.go) ----

  datatype GcAct =
    | Tick(at: int)
    | Inspect(id: int)
    | Advance
    | ReportOrphan(key: string)
    | StopGc

  function GcNext(cfg: Config, shutdown: bool, w: World, gc: Gc, a: GcAct): Option<Gc> {
    match (gc, a)
    case (Idle, Tick(at)) => if at <= w.now then Some(Inspecting(at, w.store.tasks, {})) else None
    case (Idle, StopGc) => if shutdown then Some(Finished) else None
    case (Inspecting(at, scanned, doomed), Inspect(id)) =>
      if id in scanned && scanned[id] < |w.heap| then
        var t := w.heap[scanned[id]];
        Some(Inspecting(at, scanned - {id},
                        if t.status == Pending && RegTokenExpired(t, at) then doomed + {id} else doomed))
      else None
    case (Inspecting(at, scanned, doomed), Advance) => if scanned == map[] then Some(Expiring(at)) else None
    case (Expiring(at), Advance) =>
      var reaped := Reaped(w.sessions, at, cfg.maxAge);
      Some(Sweeping(map k | k in reaped :: reaped[k].task))
    case (Sweeping(todo), ReportOrphan(k)) =>
      if k in todo && todo[k] < |w.heap| then Some(Closing(todo[k], todo - {k})) else None
    case (Sweeping(todo), Advance) => if todo == map[] then Some(Idle) else None
    case (Closing(r, todo), Advance) => if r < |w.heap| then Some(Removing(r, todo)) else None
    case (Removing(r, todo), Advance) => if r < |w.heap| then Some(Sweeping(todo)) else None
    case _ => None
  }

  function GcWorld(cfg: Config, w: World, gc: Gc, a: GcAct): World
    requires GcNext(cfg, true, w, gc, a).Some?
  {
    match (gc, a)
    case (Inspecting(at, scanned, doomed), Advance) => w.(store := w.store.RemoveAll(doomed))
    case (Expiring(at), Advance) => w.(sessions := Kept(w.sessions, at, cfg.maxAge))
    case (Sweeping(todo), ReportOrphan(k)) =>
      var t := w.heap[todo[k]];
      (match Resolve(cfg.instances, t.instance)
       case None => w
       case Some(c) => w.(sent := w.sent + {(c, t.id)}))
    case (Closing(r, todo), Advance) => w.(heap := w.heap[r := w.heap[r].(done := true)])
    case (Removing(r, todo), Advance) => w.(store := w.store.Remove(w.heap[r].id))
    case _ => w
  }

  function GcStep(s: State, a: GcAct): Option<State> {
    match GcNext(s.cfg, s.shutdown, s.w, s.gc, a)
    case None => None
    case Some(gc') => Some(s.(gc := gc', w := GcWorld(s.cfg, s.w, s.gc, a)))
  }

  // ---- the whole system ----

  datatype Action =
    | PollerAction(p: nat, pact: PollerAct)
    | DispatcherAction(dact: DispatcherAct)
    | HandlerAction(h: Thread, hact: HandlerAct)
    | BeatAction(b: Thread, bact: BeatAct)
    | RpcStart(rpc: Rpc)
    | RpcAction(t: Thread, o: Oracle)
    | GcAction(gact: GcAct)
    | Elapse(d: nat)
    | Shutdown

  /** One step of the system; None when the action is not enabled. */
  function Step(s: State, a: Action): Option<State> {
    match a
    case PollerAction(p, pa) => PollerStep(s, p, pa)
    case DispatcherAction(da) => DispatcherStep(s, da)
    case HandlerAction(h, ha) => HandlerStep(s, h, ha)
    case BeatAction(b, ba) => BeatStep(s, b, ba)
    case RpcStart(rpc) =>
      if IsFirst(rpc) then Some(s.(rpcs := s.rpcs[s.next := rpc], next := s.next + 1)) else None
    case RpcAction(t, o) => RpcStep(s, t, o)
    case GcAction(ga) => GcStep(s, ga)
    case Elapse(d) => Some(s.(w := s.w.(now := s.w.now + d)))
    case Shutdown => Some(s.(shutdown := true))
  }

  /** Runs a list of actions; None when one of them is not enabled. */
  function Exec(s: State, acts: seq<Action>): Option<State> {
    if |acts| == 0 then Some(s) else
    match Exec(s, acts[..|acts| - 1])
    case None => None
    case Some(s') => Step(s', acts[|acts| - 1])
  }

  /** `acts` is a run of the daemon from its start that ends in `s`. */
  predicate Reaches(cfg: Config, now: int, acts: seq<Action>, s: State) {
    Exec(Init(cfg, now), acts) == Some(s)
  }

  lemma StepConfig(s: State, a: Action, s': State)
    requires Step(s, a) == Some(s')
    ensures s'.cfg == s.cfg && |s'.pollers| == |s.pollers|
  {
    match a
    case PollerAction(p, pa) =>
    case _ =>
  }

  lemma {:induction false} ReachableConfig(cfg: Config, now: int, acts: seq<Action>, s: State)
    requires Reaches(cfg, now, acts, s)
    ensures s.cfg == cfg && |s.pollers| == |cfg.instances|
    decreases |acts|
  {
    if |acts| > 0 {
      var n := |acts| - 1;
      var prev := Exec(Init(cfg, now), acts[..n]).value;
      ReachableConfig(cfg, now, acts[..n], prev);
      StepConfig(prev, acts[n], s);
    }
  }
}
