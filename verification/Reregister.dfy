/** The re-registration protocol of retryOnAuth under any number of concurrent RPCs.

    One step is one atomic load, one mutex-protected operation or one northbound
    call.  Forgejo's answers and the outcome of each Save are chosen freely; Forgejo
    never issues the same identity twice. */
module Reregister {
  import opened Wrappers
  import opened Backoff

  type Thread = nat

  datatype Identity = Identity(uuid: string, token: string)

  /** An RPC that was answered under `gen` with an auth error: `shown` is the identity it
      presented.  `readAt` and `failsAt` are the lengths of `log` and `lost` at that read. */
  datatype Attempt = Attempt(gen: nat, shown: Identity, readAt: nat, failsAt: nat)

  datatype Pc =
    | Loading                                       // before generation.Load
    | Calling(gen: nat)                             // before the RPC reads the identity
    | InFlight(a: Attempt)                          // RPC sent
    | Blocked(a: Attempt)                           // rejected; before regMu.Lock
    | Comparing(a: Attempt)                         // holds regMu from here ...
    | Gated(a: Attempt)
    | Registering(a: Attempt)
    | Adopting(a: Attempt, issued: Identity)        // Register answered; before setIdentity
    | Saving(a: Attempt, issued: Identity)          // before identities.Save
    | Bumping(a: Attempt, issued: Identity)         // before generation.Add
    | Resetting(a: Attempt)                         // before resetBackoff
    | Noting(a: Attempt, kind: Failing)             // before reading backoffWait
    | Arming(a: Attempt, kind: Failing, wait: nat)  // before setBackoff
    | Unlocking(gen: nat, retry: bool)              // ... to here
    | Retrying                                      // before the second try
    | Done

  predicate Critical(pc: Pc) {
    pc.Comparing? || pc.Gated? || pc.Registering? || pc.Adopting? || pc.Saving? || pc.Bumping?
    || pc.Resetting? || pc.Noting? || pc.Arming? || pc.Unlocking?
  }

  /** One identity replacing another after a rejection; `readAt` is that of the rejected attempt. */
  datatype Replacement = Replacement(rejected: Identity, issued: Identity, readAt: nat)

  /** The client's fields, and history: `log` lists every identity ever held in memory, in
      order, `rows` every identity Forgejo issued to a re-registration, `lost` those whose
      Save failed, `chain` the completed replacements, `fails` the failed re-registrations
      since the last completed one. */
  datatype State = State(
    now: int,
    memory: Identity,
    disk: Identity,
    generation: nat,
    gate: Gate,
    regMu: Option<Thread>,
    threads: map<Thread, Pc>,
    next: Thread,
    log: seq<Identity>,
    rows: seq<Identity>,
    lost: seq<Identity>,
    chain: seq<Replacement>,
    fails: seq<FailedAt>)

  /** After startup: an identity restored from, or just saved to, the state file. */
  function Init(id: Identity, now: int): State {
    State(now, id, id, 1, OPEN, None, map[], 0, [id], [], [], [], [])
  }

  /** What a step takes from outside. */
  datatype Answer = Ok | AuthError | OtherError | Issued(id: Identity) | RegisterFailed(kind: Failing) | SaveFailed

  predicate Fresh(s: State, id: Identity) {
    id !in s.log && id !in s.rows
  }

  /** Control flow of retryOnAuth and of the Register it calls; None when not enabled. */
  function NextPc(s: State, pc: Pc, ans: Answer): Option<Pc> {
    match pc
    case Loading => Some(Calling(s.generation))
    case Calling(gen) => Some(InFlight(Attempt(gen, s.memory, |s.log|, |s.lost|)))
    case InFlight(a) =>
      if ans.AuthError? then Some(Blocked(a)) else if ans.Ok? || ans.OtherError? then Some(Done) else None
    case Blocked(a) => if s.regMu.None? then Some(Comparing(a)) else None
    case Comparing(a) => if s.generation != a.gen then Some(Unlocking(a.gen, true)) else Some(Gated(a))
    case Gated(a) => if Remaining(s.gate, s.now) > 0 then Some(Unlocking(a.gen, false)) else Some(Registering(a))
    case Registering(a) =>
      (match ans
       case Issued(id) => if Fresh(s, id) then Some(Adopting(a, id)) else None
       case RegisterFailed(kind) => Some(Noting(a, kind))
       case _ => None)
    case Adopting(a, id) => Some(Saving(a, id))
    case Saving(a, id) =>
      if ans.SaveFailed? then Some(Noting(a, Transient)) else if ans.Ok? then Some(Bumping(a, id)) else None
    case Bumping(a, id) => Some(Resetting(a))
    case Resetting(a) => Some(Unlocking(a.gen, true))
    case Noting(a, kind) => Some(Arming(a, kind, NextWait(s.gate.wait, kind)))
    case Arming(a, kind, wait) => Some(Unlocking(a.gen, false))
    case Unlocking(_, retry) => if retry then Some(Retrying) else Some(Done)
    case Retrying => Some(Done)
    case Done => None
  }

  /** Effect of the same step on the client, the disk and the history. */
  function Effect(s: State, t: Thread, pc: Pc, ans: Answer): State {
    match pc
    case Blocked(a) => s.(regMu := Some(t))
    case Registering(a) => if ans.Issued? then s.(rows := s.rows + [ans.id]) else s
    case Adopting(a, id) => s.(memory := id, log := s.log + [id])
    case Saving(a, id) => if ans.SaveFailed? then s.(lost := s.lost + [id]) else s.(disk := id)
    case Bumping(a, id) =>
      s.(generation := s.generation + 1, chain := s.chain + [Replacement(a.shown, id, a.readAt)])
    case Resetting(a) => s.(gate := OPEN, fails := [])
    case Arming(a, kind, wait) => s.(gate := Armed(wait, s.now), fails := s.fails + [FailedAt(kind, s.now)])
    case Unlocking(_, _) => s.(regMu := None)
    case _ => s
  }

  function ThreadStep(s: State, t: Thread, ans: Answer): Option<State> {
    if t !in s.threads then None else
    match NextPc(s, s.threads[t], ans)
    case None => None
    case Some(pc) => Some(Effect(s, t, s.threads[t], ans).(threads := s.threads[t := pc]))
  }

  datatype Action = Start | Act(t: Thread, ans: Answer) | Elapse(d: nat)

  function Step(s: State, a: Action): Option<State> {
    match a
    case Start => Some(s.(threads := s.threads[s.next := Loading], next := s.next + 1))
    case Act(t, ans) => ThreadStep(s, t, ans)
    case Elapse(d) => Some(s.(now := s.now + d))
  }

  function Exec(s: State, acts: seq<Action>): Option<State> {
    if |acts| == 0 then Some(s) else
    match Exec(s, acts[..|acts| - 1])
    case None => None
    case Some(s') => Step(s', acts[|acts| - 1])
  }

  predicate Reaches(id: Identity, now: int, acts: seq<Action>, s: State) {
    Exec(Init(id, now), acts) == Some(s)
  }

  // ---- invariant ----

  /** The thread in the critical section has put an identity in memory that it has
      neither failed to save nor finished installing. */
  function Pending(pc: Pc): nat {
    if pc.Saving? || pc.Bumping? then 1 else 0
  }

  function PendingIn(s: State): nat {
    if s.regMu.Some? && s.regMu.value in s.threads then Pending(s.threads[s.regMu.value]) else 0
  }

  function AttemptOf(pc: Pc): Option<Attempt> {
    match pc
    case InFlight(a) => Some(a)
    case Blocked(a) => Some(a)
    case Comparing(a) => Some(a)
    case Gated(a) => Some(a)
    case Registering(a) => Some(a)
    case Adopting(a, _) => Some(a)
    case Saving(a, _) => Some(a)
    case Bumping(a, _) => Some(a)
    case Resetting(a) => Some(a)
    case Noting(a, _) => Some(a)
    case Arming(a, _, _) => Some(a)
    case Unlocking(_, _) => None
    case _ => None
  }

  predicate LockInv(s: State) {
    && (forall t :: t in s.threads ==> t < s.next && (Critical(s.threads[t]) <==> s.regMu == Some(t)))
    && (s.regMu.Some? ==> s.regMu.value in s.threads)
  }

  predicate Distinct(ids: seq<Identity>) {
    forall i, j :: 0 <= i < j < |ids| ==> ids[i] != ids[j]
  }

  predicate Within(part: seq<Identity>, ids: seq<Identity>) {
    forall k :: 0 <= k < |part| ==> part[k] in ids
  }

  predicate LogInv(s: State) {
    && |s.log| > 0 && s.memory == s.log[|s.log| - 1]
    && Distinct(s.log) && Within(s.lost, s.log) && PendingIn(s) < |s.log|
  }

  /** Whatever was put in memory since a read was lost since that read. */
  predicate LostSince(log: seq<Identity>, lost: seq<Identity>, readAt: nat, failsAt: nat)
    requires failsAt <= |lost|
  {
    forall j :: readAt <= j < |log| ==> log[j] in lost[failsAt..]
  }

  /** Reading `a.shown` happened at position `readAt` of the log. */
  predicate AttemptInv(s: State, a: Attempt) {
    && a.gen <= s.generation
    && 0 < a.readAt <= |s.log| && a.shown == s.log[a.readAt - 1]
    && a.failsAt <= |s.lost|
    && (a.gen == s.generation ==> LostSince(s.log[..|s.log| - PendingIn(s)], s.lost, a.readAt, a.failsAt))
  }

  /** What the thread in the critical section knows. */
  predicate CriticalInv(s: State, pc: Pc) {
    && (pc.Gated? || pc.Registering? || pc.Adopting? || pc.Saving? || pc.Bumping? ==> pc.a.gen == s.generation)
    && (pc.Adopting? ==> pc.issued !in s.log)
    && (pc.Saving? || pc.Bumping? ==> s.memory == pc.issued && pc.a.readAt < |s.log|)
    && (pc.Bumping? || pc.Resetting? ==> s.disk == s.memory)
  }

  predicate ProtocolInv(s: State) {
    && LockInv(s) && LogInv(s)
    && (forall t :: t in s.threads ==> CriticalInv(s, s.threads[t]))
    && (forall t :: t in s.threads && s.threads[t].Calling? ==> s.threads[t].gen <= s.generation)
    && (forall t :: t in s.threads && AttemptOf(s.threads[t]).Some? ==> AttemptInv(s, AttemptOf(s.threads[t]).value))
  }

  lemma StepLock(s: State, t: Thread, ans: Answer, s': State)
    requires LockInv(s) && ThreadStep(s, t, ans) == Some(s')
    ensures LockInv(s')
  {
  }

  /** How a step moves the pending identity. */
  lemma StepPending(s: State, t: Thread, ans: Answer, s': State)
    requires LockInv(s) && ThreadStep(s, t, ans) == Some(s')
    ensures var pc := s.threads[t];
      && (Critical(pc) ==> PendingIn(s) == Pending(pc))
      && PendingIn(s') == (if pc.Unlocking? then 0
                             else if Critical(pc) then Pending(s'.threads[t])
                             else PendingIn(s))
      && (pc.Blocked? ==> PendingIn(s) == 0)
  {
  }

  /** What a step does to the history. */
  lemma StepLog(s: State, t: Thread, ans: Answer, s': State)
    requires LockInv(s) && ThreadStep(s, t, ans) == Some(s')
    ensures var pc := s.threads[t];
      && s'.log == (if pc.Adopting? then s.log + [pc.issued] else s.log)
      && s'.lost == (if pc.Saving? && ans.SaveFailed? then s.lost + [pc.issued] else s.lost)
      && s'.memory == (if pc.Adopting? then pc.issued else s.memory)
      && s'.generation == (if pc.Bumping? then s.generation + 1 else s.generation)
      && |s'.log| - PendingIn(s') == (if (pc.Saving? && ans.SaveFailed?) || pc.Bumping? then |s.log|
                                        else |s.log| - PendingIn(s))
  {
    StepPending(s, t, ans, s');
  }

  lemma Grows(log: seq<Identity>, lost: seq<Identity>, id: Identity)
    requires Distinct(log) && Within(lost, log)
    ensures id !in log ==> Distinct(log + [id])
    ensures Within(lost, log + [id]) && (id in log ==> Within(lost + [id], log))
  {
  }

  /** The log only grows, by new identities, and what is lost was in it. */
  lemma StepHistory(s: State, t: Thread, ans: Answer, s': State)
    requires LockInv(s) && LogInv(s) && ThreadStep(s, t, ans) == Some(s') && CriticalInv(s, s.threads[t])
    ensures LogInv(s')
    ensures s.log <= s'.log && s.lost <= s'.lost && s.generation <= s'.generation
  {
    StepLog(s, t, ans, s');
    var pc := s.threads[t];
    if pc.Adopting? || pc.Saving? {
      Grows(s.log, s.lost, pc.issued);
    }
  }

  /** The stepping thread's own claims. */
  lemma StepOwn(s: State, t: Thread, ans: Answer, s': State)
    requires LockInv(s) && LogInv(s) && ThreadStep(s, t, ans) == Some(s') && CriticalInv(s, s.threads[t])
    requires AttemptOf(s.threads[t]).Some? ==> AttemptInv(s, AttemptOf(s.threads[t]).value)
    ensures CriticalInv(s', s'.threads[t])
    ensures s'.threads[t].Calling? ==> s'.threads[t].gen <= s'.generation
  {
  }

  /** A failing Save moves the identity it was for from pending to lost. */
  lemma LostGrows(log: seq<Identity>, lost: seq<Identity>, id: Identity, readAt: nat, failsAt: nat)
    requires failsAt <= |lost| && |log| > 0 && log[|log| - 1] == id
             && LostSince(log[..|log| - 1], lost, readAt, failsAt)
    ensures LostSince(log, lost + [id], readAt, failsAt)
  {
    assert (lost + [id])[failsAt..] == lost[failsAt..] + [id];
    forall j | readAt <= j < |log| ensures log[j] in lost[failsAt..] + [id] {
      if j < |log| - 1 {
        assert log[..|log| - 1][j] == log[j];
      }
    }
  }

  lemma Prefix(log: seq<Identity>, id: Identity, n: nat)
    requires n <= |log|
    ensures (log + [id])[..n] == log[..n]
  {
  }

  lemma StepLost(s: State, t: Thread, ans: Answer, s': State, a: Attempt)
    requires LockInv(s) && LogInv(s) && ThreadStep(s, t, ans) == Some(s') && CriticalInv(s, s.threads[t])
    requires LogInv(s') && s'.generation == s.generation && a.failsAt <= |s.lost| <= |s'.lost|
    requires LostSince(s.log[..|s.log| - PendingIn(s)], s.lost, a.readAt, a.failsAt)
    ensures LostSince(s'.log[..|s'.log| - PendingIn(s')], s'.lost, a.readAt, a.failsAt)
  {
    StepLog(s, t, ans, s');
    StepPending(s, t, ans, s');
    var pc := s.threads[t];
    if pc.Adopting? {
      Prefix(s.log, pc.issued, |s.log|);
    } else if pc.Saving? && ans.SaveFailed? {
      assert s.log[..|s.log|] == s.log;
      LostGrows(s.log, s.lost, pc.issued, a.readAt, a.failsAt);
    }
  }

  lemma StepAttempt(s: State, t: Thread, ans: Answer, s': State, a: Attempt)
    requires LockInv(s) && LogInv(s) && ThreadStep(s, t, ans) == Some(s') && CriticalInv(s, s.threads[t])
    requires AttemptInv(s, a)
    ensures AttemptInv(s', a)
  {
    StepHistory(s, t, ans, s');
    assert s'.log[a.readAt - 1] == s.log[a.readAt - 1];
    if a.gen == s'.generation {
      StepLost(s, t, ans, s', a);
    }
  }

  /** A new attempt starts with an up-to-date reading of the log. */
  lemma StepReads(s: State, t: Thread, ans: Answer, s': State)
    requires LockInv(s) && LogInv(s) && ThreadStep(s, t, ans) == Some(s')
    requires s.threads[t].Calling? ==> s.threads[t].gen <= s.generation
    requires AttemptOf(s.threads[t]).Some? ==> AttemptInv(s, AttemptOf(s.threads[t]).value)
    requires AttemptOf(s'.threads[t]).Some?
    ensures AttemptInv(s, AttemptOf(s'.threads[t]).value)
  {
  }

  /** Only the lock holder changes what the critical section relies on. */
  lemma StepOthers(s: State, t: Thread, ans: Answer, s': State, u: Thread)
    requires LockInv(s) && ThreadStep(s, t, ans) == Some(s')
    requires u in s.threads && u != t && CriticalInv(s, s.threads[u])
    ensures CriticalInv(s', s'.threads[u])
  {
  }

  /** Any thread's claims after a step of `t`. */
  lemma StepClaims(s: State, t: Thread, ans: Answer, s': State, u: Thread)
    requires ProtocolInv(s) && ThreadStep(s, t, ans) == Some(s') && u in s'.threads
    ensures CriticalInv(s', s'.threads[u])
    ensures s'.threads[u].Calling? ==> s'.threads[u].gen <= s'.generation
    ensures AttemptOf(s'.threads[u]).Some? ==> AttemptInv(s', AttemptOf(s'.threads[u]).value)
  {
    if u == t {
      StepOwn(s, t, ans, s');
    } else {
      StepOthers(s, t, ans, s', u);
      StepHistory(s, t, ans, s');
    }
    if AttemptOf(s'.threads[u]).Some? {
      if u == t {
        StepReads(s, t, ans, s');
      }
      StepAttempt(s, t, ans, s', AttemptOf(s'.threads[u]).value);
    }
  }

  lemma ActProtocol(s: State, t: Thread, ans: Answer, s': State)
    requires ProtocolInv(s) && ThreadStep(s, t, ans) == Some(s')
    ensures ProtocolInv(s')
  {
    StepLock(s, t, ans, s');
    StepHistory(s, t, ans, s');
    forall u | u in s'.threads
      ensures CriticalInv(s', s'.threads[u])
      ensures s'.threads[u].Calling? ==> s'.threads[u].gen <= s'.generation
      ensures AttemptOf(s'.threads[u]).Some? ==> AttemptInv(s', AttemptOf(s'.threads[u]).value)
    {
      StepClaims(s, t, ans, s', u);
    }
  }

  lemma StartProtocol(s: State, s': State)
    requires ProtocolInv(s) && Step(s, Start) == Some(s')
    ensures ProtocolInv(s')
  {
    assert PendingIn(s') == PendingIn(s);
    forall u | u in s'.threads
      ensures CriticalInv(s', s'.threads[u])
      ensures AttemptOf(s'.threads[u]).Some? ==> AttemptInv(s', AttemptOf(s'.threads[u]).value)
    {
      if u in s.threads {
        assert s'.threads[u] == s.threads[u] && CriticalInv(s, s.threads[u]);
      }
    }
  }

  lemma StepProtocol(s: State, a: Action, s': State)
    requires ProtocolInv(s) && Step(s, a) == Some(s')
    ensures ProtocolInv(s')
  {
    match a
    case Act(t, ans) => ActProtocol(s, t, ans, s');
    case Start => StartProtocol(s, s');
    case Elapse(d) =>
  }

  lemma {:induction false} ReachableProtocol(id: Identity, now: int, acts: seq<Action>, s: State)
    requires Reaches(id, now, acts, s)
    ensures ProtocolInv(s)
    decreases |acts|
  {
    if |acts| > 0 {
      var n := |acts| - 1;
      var prev := Exec(Init(id, now), acts[..n]).value;
      ReachableProtocol(id, now, acts[..n], prev);
      StepProtocol(prev, acts[n], s);
    }
  }

  // ---- main results ----

  /** When retryOnAuth reaches Register, everything put in memory since its RPC read the
      identity belongs to a Save that failed since then; and memory still holds the rejected
      identity if and only if every Save that failed since the read was of an identity that
      was in memory by then. */
  lemma RegisterReplacesRejectedIff(id: Identity, now: int, acts: seq<Action>, s: State, t: Thread)
    requires Reaches(id, now, acts, s) && t in s.threads && s.threads[t].Registering?
    ensures var a := s.threads[t].a;
      && a.gen == s.generation && a.readAt <= |s.log| && a.failsAt <= |s.lost|
      && (forall j :: a.readAt <= j < |s.log| ==> s.log[j] in s.lost[a.failsAt..])
      && (s.memory == a.shown <==> forall k :: a.failsAt <= k < |s.lost| ==> s.lost[k] in s.log[..a.readAt])
  {
    ReachableProtocol(id, now, acts, s);
    var a := s.threads[t].a;
    assert CriticalInv(s, s.threads[t]) && AttemptInv(s, AttemptOf(s.threads[t]).value);
    assert s.log[..|s.log| - PendingIn(s)] == s.log;
    if s.memory == a.shown {
      assert s.log[..a.readAt] == s.log;
    } else {
      assert s.log[a.readAt] in s.lost[a.failsAt..];
      var k :| a.failsAt <= k < |s.lost| && s.lost[k] == s.log[a.readAt];
      assert s.lost[k] !in s.log[..a.readAt];
    }
  }

  /** As long as every Save has succeeded, Register is reached only with the rejected
      identity still in memory. */
  lemma RegisterReplacesOnlyRejected(id: Identity, now: int, acts: seq<Action>, s: State, t: Thread)
    requires Reaches(id, now, acts, s) && t in s.threads && s.threads[t].Registering?
    requires s.lost == []
    ensures s.memory == s.threads[t].a.shown
  {
    RegisterReplacesRejectedIff(id, now, acts, s, t);
  }

  /** What the thread in the critical section knows of the generation once it has decided. */
  predicate GenInv(s: State, pc: Pc) {
    && (pc.Noting? || pc.Arming? ==> pc.a.gen == s.generation)
    && (pc.Resetting? ==> pc.a.gen < s.generation)
    && (pc.Unlocking? ==> (pc.retry <==> pc.gen < s.generation))
  }

  lemma StepGen(s: State, t: Thread, ans: Answer, s': State, u: Thread)
    requires LockInv(s) && ThreadStep(s, t, ans) == Some(s') && u in s.threads && GenInv(s, s.threads[u])
    requires CriticalInv(s, s.threads[t]) && (s.threads[t].Comparing? ==> s.threads[t].a.gen <= s.generation)
    ensures GenInv(s', s'.threads[u])
  {
  }

  lemma GenKept(s: State, t: Thread, ans: Answer, s': State)
    requires ProtocolInv(s) && ThreadStep(s, t, ans) == Some(s')
    requires forall u :: u in s.threads ==> GenInv(s, s.threads[u])
    ensures forall u :: u in s'.threads ==> GenInv(s', s'.threads[u])
  {
    forall u | u in s'.threads ensures GenInv(s', s'.threads[u]) {
      if s.threads[t].Comparing? {
        assert AttemptInv(s, AttemptOf(s.threads[t]).value);
      }
      StepGen(s, t, ans, s', u);
    }
  }

  lemma {:induction false} ReachableGen(id: Identity, now: int, acts: seq<Action>, s: State)
    requires Reaches(id, now, acts, s)
    ensures forall t :: t in s.threads ==> GenInv(s, s.threads[t])
    decreases |acts|
  {
    if |acts| > 0 {
      var prev, a := Exec(Init(id, now), acts[..|acts| - 1]).value, acts[|acts| - 1];
      ReachableGen(id, now, acts[..|acts| - 1], prev);
      ReachableProtocol(id, now, acts[..|acts| - 1], prev);
      if a.Act? {
        GenKept(prev, a.t, a.ans, s);
      }
    }
  }

  /** An RPC is tried again exactly if, by the time it leaves the lock, an identity has been
      installed that is newer than the one it was answered under. */
  lemma RetriesIffNewer(id: Identity, now: int, acts: seq<Action>, s: State, t: Thread, ans: Answer)
    requires Reaches(id, now, acts, s) && t in s.threads && s.threads[t].Unlocking?
    ensures Step(s, Act(t, ans)).Some?
    ensures Step(s, Act(t, ans)).value.threads[t].Retrying? <==> s.threads[t].gen < s.generation
    ensures !Step(s, Act(t, ans)).value.threads[t].Retrying? ==> Step(s, Act(t, ans)).value.threads[t].Done?
  {
    ReachableGen(id, now, acts, s);
    assert GenInv(s, s.threads[t]);
  }

  // ---- progress ----

  /** How far a thread is from its answer. */
  function Distance(pc: Pc): nat {
    match pc
    case Loading => 15
    case Calling(_) => 14
    case InFlight(_) => 13
    case Blocked(_) => 12
    case Comparing(_) => 11
    case Gated(_) => 10
    case Registering(_) => 9
    case Adopting(_, _) => 8
    case Saving(_, _) => 7
    case Bumping(_, _) => 6
    case Resetting(_) => 5
    case Noting(_, _) => 4
    case Arming(_, _, _) => 3
    case Unlocking(_, _) => 2
    case Retrying => 1
    case Done => 0
  }

  /** What Forgejo and the disk may answer at this point. */
  predicate Fits(s: State, pc: Pc, ans: Answer) {
    && (pc.InFlight? ==> ans.Ok? || ans.AuthError? || ans.OtherError?)
    && (pc.Registering? ==> ans.RegisterFailed? || (ans.Issued? && Fresh(s, ans.id)))
    && (pc.Saving? ==> ans.Ok? || ans.SaveFailed?)
  }

  lemma NextMoves(s: State, pc: Pc, ans: Answer)
    requires !pc.Done? && Fits(s, pc, ans)
    ensures NextPc(s, pc, ans).Some? <==> !(pc.Blocked? && s.regMu.Some?)
    ensures NextPc(s, pc, ans).Some? ==> Distance(NextPc(s, pc, ans).value) < Distance(pc)
  {
  }

  /** Whatever the answer, a thread is held up by nothing but the lock, and every step brings it
      closer to its own answer; the holder of the lock is never held up. */
  lemma ThreadsMove(id: Identity, now: int, acts: seq<Action>, s: State, t: Thread, ans: Answer)
    requires Reaches(id, now, acts, s) && t in s.threads && !s.threads[t].Done? && Fits(s, s.threads[t], ans)
    ensures Step(s, Act(t, ans)).Some? <==> !(s.threads[t].Blocked? && s.regMu.Some?)
    ensures Step(s, Act(t, ans)).Some? ==>
              Distance(Step(s, Act(t, ans)).value.threads[t]) < Distance(s.threads[t])
    ensures s.regMu.Some? ==> s.regMu.value in s.threads && Critical(s.threads[s.regMu.value])
  {
    ReachableProtocol(id, now, acts, s);
    NextMoves(s, s.threads[t], ans);
  }

  // ---- one new runner per lost identity ----

  /** Issued by Forgejo, but not yet installed or lost. */
  function InstallingIn(s: State): nat {
    if s.regMu.Some? && s.regMu.value in s.threads then
      var pc := s.threads[s.regMu.value];
      if pc.Adopting? || pc.Saving? || pc.Bumping? then 1 else 0
    else 0
  }

  /** Forgejo's rows are accounted for. */
  predicate RowsInv(s: State) {
    && s.generation >= 1 && |s.chain| == s.generation - 1
    && |s.rows| == |s.chain| + |s.lost| + InstallingIn(s)
  }

  /** With no identity lost, the identities held in memory form one chain of replacements. */
  predicate LinksInv(s: State) {
    s.lost == [] ==>
      && |s.log| == s.generation + PendingIn(s) && |s.chain| == s.generation - 1
      && (forall i :: 0 <= i < |s.chain| ==> s.chain[i] == Replacement(s.log[i], s.log[i + 1], i + 1))
  }

  /** With no identity lost, only a thread about to save holds one that is not on disk. */
  predicate DiskInv(s: State) {
    s.lost == [] ==>
      s.disk == s.memory || (s.regMu.Some? && s.regMu.value in s.threads && s.threads[s.regMu.value].Saving?)
  }

  predicate ChainInv(s: State) {
    RowsInv(s) && LinksInv(s) && DiskInv(s)
  }

  lemma StepRows(s: State, t: Thread, ans: Answer, s': State)
    requires LockInv(s) && ThreadStep(s, t, ans) == Some(s') && RowsInv(s)
    ensures RowsInv(s')
  {
  }

  lemma StepLinks(s: State, t: Thread, ans: Answer, s': State)
    requires LockInv(s) && LogInv(s) && ThreadStep(s, t, ans) == Some(s') && LinksInv(s) && !s.threads[t].Bumping?
    ensures LinksInv(s')
  {
    StepLog(s, t, ans, s');
    assert s'.chain == s.chain;
  }

  /** Installing an identity adds the link from the rejected one. */
  lemma BumpLinks(s: State, t: Thread, ans: Answer, s': State)
    requires LockInv(s) && LogInv(s) && ThreadStep(s, t, ans) == Some(s') && LinksInv(s)
    requires s.threads[t].Bumping? && CriticalInv(s, s.threads[t]) && AttemptInv(s, s.threads[t].a)
    ensures LinksInv(s')
  {
    StepLog(s, t, ans, s');
    StepPending(s, t, ans, s');
  }

  lemma StepDisk(s: State, t: Thread, ans: Answer, s': State)
    requires LockInv(s) && ThreadStep(s, t, ans) == Some(s') && CriticalInv(s, s.threads[t]) && DiskInv(s)
    ensures DiskInv(s')
  {
  }

  lemma StepChain(s: State, t: Thread, ans: Answer, s': State)
    requires LockInv(s) && LogInv(s) && ThreadStep(s, t, ans) == Some(s') && CriticalInv(s, s.threads[t])
    requires AttemptOf(s.threads[t]).Some? ==> AttemptInv(s, AttemptOf(s.threads[t]).value)
    requires ChainInv(s)
    ensures ChainInv(s')
  {
    StepRows(s, t, ans, s');
    StepDisk(s, t, ans, s');
    if s.threads[t].Bumping? {
      BumpLinks(s, t, ans, s');
    } else {
      StepLinks(s, t, ans, s');
    }
  }

  lemma {:induction false} ReachableChain(id: Identity, now: int, acts: seq<Action>, s: State)
    requires Reaches(id, now, acts, s)
    ensures ChainInv(s)
    decreases |acts|
  {
    if |acts| > 0 {
      var n := |acts| - 1;
      var prev := Exec(Init(id, now), acts[..n]).value;
      ReachableChain(id, now, acts[..n], prev);
      ReachableProtocol(id, now, acts[..n], prev);
      if acts[n].Act? {
        StepChain(prev, acts[n].t, acts[n].ans, s);
      }
    }
  }

  // ---- no identity is replaced twice ----

  /** Replacements were rejected in the order of the log. */
  predicate RiseInv(log: seq<Identity>, chain: seq<Replacement>) {
    && (forall i :: 0 <= i < |chain| ==>
          0 < chain[i].readAt < |log| && chain[i].rejected == log[chain[i].readAt - 1])
    && (forall i, j :: 0 <= i < j < |chain| ==> chain[i].readAt < chain[j].readAt)
  }

  /** An attempt under the current generation was read after the last replacement. */
  predicate LateAttempt(s: State, a: Attempt) {
    a.gen == s.generation && |s.chain| > 0 ==> s.chain[|s.chain| - 1].readAt < a.readAt
  }

  predicate RisingInv(s: State) {
    && RiseInv(s.log, s.chain)
    && (forall t :: t in s.threads && AttemptOf(s.threads[t]).Some? ==> LateAttempt(s, AttemptOf(s.threads[t]).value))
  }

  lemma RiseAppend(log: seq<Identity>, chain: seq<Replacement>, r: Replacement)
    requires RiseInv(log, chain) && 0 < r.readAt < |log| && r.rejected == log[r.readAt - 1]
    requires |chain| > 0 ==> chain[|chain| - 1].readAt < r.readAt
    ensures RiseInv(log, chain + [r])
  {
  }

  lemma RiseLonger(log: seq<Identity>, log': seq<Identity>, chain: seq<Replacement>)
    requires RiseInv(log, chain) && log <= log'
    ensures RiseInv(log', chain)
  {
  }

  lemma StepRise(s: State, t: Thread, ans: Answer, s': State)
    requires LockInv(s) && ThreadStep(s, t, ans) == Some(s') && CriticalInv(s, s.threads[t])
    requires RiseInv(s.log, s.chain)
    requires AttemptOf(s.threads[t]).Some? ==>
               AttemptInv(s, AttemptOf(s.threads[t]).value) && LateAttempt(s, AttemptOf(s.threads[t]).value)
    ensures RiseInv(s'.log, s'.chain)
  {
    StepLog(s, t, ans, s');
    if s.threads[t].Bumping? {
      var a := s.threads[t].a;
      RiseAppend(s.log, s.chain, Replacement(a.shown, s.threads[t].issued, a.readAt));
    } else {
      assert s'.chain == s.chain;
      RiseLonger(s.log, s'.log, s.chain);
    }
  }

  /** No attempt has seen the generation a Bumping step installs. */
  lemma BumpIsNewer(s: State, t: Thread, ans: Answer, s': State, u: Thread)
    requires ProtocolInv(s) && ThreadStep(s, t, ans) == Some(s') && s.threads[t].Bumping?
    requires u in s'.threads && AttemptOf(s'.threads[u]).Some?
    ensures AttemptOf(s'.threads[u]).value.gen < s'.generation
  {
    assert u in s.threads && AttemptOf(s.threads[u]) == AttemptOf(s'.threads[u]);
    assert AttemptInv(s, AttemptOf(s.threads[u]).value);
  }

  /** A read made now is later than every replacement so far. */
  lemma StepLate(s: State, t: Thread, ans: Answer, s': State, u: Thread)
    requires ProtocolInv(s) && RisingInv(s) && ThreadStep(s, t, ans) == Some(s')
    requires u in s'.threads && AttemptOf(s'.threads[u]).Some?
    ensures LateAttempt(s', AttemptOf(s'.threads[u]).value)
  {
    var a := AttemptOf(s'.threads[u]).value;
    if s.threads[t].Bumping? {
      BumpIsNewer(s, t, ans, s', u);
    } else {
      assert s'.chain == s.chain && s'.generation == s.generation;
      if u == t && s.threads[t].Calling? {
        assert a.readAt == |s.log|;
      } else {
        assert AttemptOf(s.threads[u]) == Some(a);
      }
    }
  }

  lemma StepRising(s: State, a: Action, s': State)
    requires ProtocolInv(s) && RisingInv(s) && Step(s, a) == Some(s')
    ensures RisingInv(s')
  {
    if a.Act? {
      StepRise(s, a.t, a.ans, s');
      forall u | u in s'.threads && AttemptOf(s'.threads[u]).Some?
        ensures LateAttempt(s', AttemptOf(s'.threads[u]).value)
      {
        StepLate(s, a.t, a.ans, s', u);
      }
    }
  }

  lemma {:induction false} ReachableRising(id: Identity, now: int, acts: seq<Action>, s: State)
    requires Reaches(id, now, acts, s)
    ensures RisingInv(s)
    decreases |acts|
  {
    if |acts| > 0 {
      var n := |acts| - 1;
      var prev := Exec(Init(id, now), acts[..n]).value;
      ReachableRising(id, now, acts[..n], prev);
      ReachableProtocol(id, now, acts[..n], prev);
      StepRising(prev, acts[n], s);
    }
  }

  lemma {:induction false} LogStart(id: Identity, now: int, acts: seq<Action>, s: State)
    requires Reaches(id, now, acts, s)
    ensures |s.log| > 0 && s.log[0] == id
    decreases |acts|
  {
    if |acts| > 0 {
      var n := |acts| - 1;
      LogStart(id, now, acts[..n], Exec(Init(id, now), acts[..n]).value);
    }
  }

  lemma ChainLinks(s: State)
    requires ChainInv(s) && s.lost == []
    ensures |s.chain| < |s.log|
    ensures forall i :: 0 <= i < |s.chain| ==> s.chain[i].rejected == s.log[i] && s.chain[i].issued == s.log[i + 1]
  {
    forall i | 0 <= i < |s.chain|
      ensures s.chain[i].rejected == s.log[i] && s.chain[i].issued == s.log[i + 1]
    {
      assert s.chain[i] == Replacement(s.log[i], s.log[i + 1], i + 1);
    }
  }

  /** Over any run Forgejo has been asked for exactly one runner per generation installed,
      per Save that failed, and per Register still in progress, and no identity is ever
      replaced twice.  While no Save has failed, each replacement follows the previous one. */
  lemma OneRunnerPerLostIdentity(id: Identity, now: int, acts: seq<Action>, s: State)
    requires Reaches(id, now, acts, s)
    ensures |s.rows| == (s.generation - 1) + |s.lost| + InstallingIn(s)
    ensures forall i, j :: 0 <= i < j < |s.chain| ==> s.chain[i].rejected != s.chain[j].rejected
    ensures s.lost == [] && |s.chain| > 0 ==> s.chain[0].rejected == id
    ensures s.lost == [] ==> forall i :: 0 < i < |s.chain| ==> s.chain[i].rejected == s.chain[i - 1].issued
  {
    ReachableChain(id, now, acts, s);
    ReachableProtocol(id, now, acts, s);
    ReachableRising(id, now, acts, s);
    LogStart(id, now, acts, s);
    forall i, j | 0 <= i < j < |s.chain| ensures s.chain[i].rejected != s.chain[j].rejected {
      assert s.log[s.chain[i].readAt - 1] != s.log[s.chain[j].readAt - 1];
    }
    if s.lost == [] {
      ChainLinks(s);
    }
  }

  /** When Register is about to return nil, the disk holds the identity in memory, which is
      what a restart restores; while no Save has failed the same holds whenever nobody is
      re-registering. */
  lemma RestartRestoresIdentity(id: Identity, now: int, acts: seq<Action>, s: State)
    requires Reaches(id, now, acts, s)
    ensures forall t :: t in s.threads && s.threads[t].Resetting? ==> s.disk == s.memory
    ensures s.lost == [] && s.regMu.None? ==> s.disk == s.memory
  {
    ReachableProtocol(id, now, acts, s);
    ReachableChain(id, now, acts, s);
    forall t | t in s.threads && s.threads[t].Resetting?
      ensures s.disk == s.memory
    {
      assert CriticalInv(s, s.threads[t]);
    }
  }

  // ---- backoff over runs ----

  predicate GateMatches(gate: Gate, fails: seq<FailedAt>, now: int) {
    && (fails == [] ==> gate == OPEN)
    && (fails != [] ==>
          var last := fails[|fails| - 1];
          last.at <= now && gate == Armed(WaitAfter(Kinds(fails)), last.at))
    && Spaced(fails)
  }

  predicate GateInv(s: State) {
    GateMatches(s.gate, s.fails, s.now)
  }

  /** A thread that has passed the backoff check keeps it passed until it re-arms it. */
  predicate PastGate(s: State, pc: Pc) {
    && (pc.Registering? || pc.Adopting? || pc.Saving? || pc.Bumping? || pc.Noting? || pc.Arming? ==>
          Remaining(s.gate, s.now) == 0)
    && (pc.Arming? ==> pc.wait == NextWait(s.gate.wait, pc.kind))
  }

  predicate BackoffInv(s: State) {
    GateInv(s) && forall t :: t in s.threads ==> PastGate(s, s.threads[t])
  }

  lemma ArmKeepsGate(s: State, kind: Failing, fails': seq<FailedAt>)
    requires GateInv(s) && Remaining(s.gate, s.now) == 0 && fails' == s.fails + [FailedAt(kind, s.now)]
    ensures Spaced(fails') && WaitAfter(Kinds(fails')) == NextWait(s.gate.wait, kind)
  {
    var n := |s.fails|;
    assert fails'[..n] == s.fails;
    assert Kinds(fails')[..n] == Kinds(s.fails);
    WaitBounds(Kinds(s.fails));
  }

  lemma ArmBackoff(s: State, t: Thread, ans: Answer, s': State)
    requires GateInv(s) && ThreadStep(s, t, ans) == Some(s') && s.threads[t].Arming? && PastGate(s, s.threads[t])
    ensures GateInv(s') && PastGate(s', s'.threads[t])
  {
    ArmKeepsGate(s, s.threads[t].kind, s'.fails);
  }

  /** Only arming and resetting touch the gate. */
  lemma GateUntouched(s: State, t: Thread, ans: Answer, s': State)
    requires ThreadStep(s, t, ans) == Some(s') && !s.threads[t].Arming?
    ensures s'.now == s.now
    ensures if s.threads[t].Resetting? then s'.gate == OPEN && s'.fails == []
            else s'.gate == s.gate && s'.fails == s.fails
  {
  }

  lemma PcPastGate(s: State, t: Thread, ans: Answer, s': State)
    requires ThreadStep(s, t, ans) == Some(s') && PastGate(s, s.threads[t]) && !s.threads[t].Arming?
    requires s'.now == s.now && (s'.gate == s.gate || s.threads[t].Resetting?)
    ensures PastGate(s', s'.threads[t])
  {
  }

  lemma OwnBackoff(s: State, t: Thread, ans: Answer, s': State)
    requires GateInv(s) && ThreadStep(s, t, ans) == Some(s') && PastGate(s, s.threads[t])
    ensures GateInv(s') && PastGate(s', s'.threads[t]) && s'.now == s.now
    ensures s'.gate == s.gate || Critical(s.threads[t])
  {
    if s.threads[t].Arming? {
      ArmBackoff(s, t, ans, s');
    } else {
      GateUntouched(s, t, ans, s');
      PcPastGate(s, t, ans, s');
    }
  }

  lemma StepBackoff(s: State, a: Action, s': State)
    requires LockInv(s) && BackoffInv(s) && Step(s, a) == Some(s')
    ensures BackoffInv(s')
  {
    if a.Act? {
      OwnBackoff(s, a.t, a.ans, s');
      forall u | u in s'.threads && u != a.t ensures PastGate(s', s'.threads[u]) {
        assert PastGate(s, s.threads[u]);
      }
    }
  }

  lemma {:induction false} ReachableBackoff(id: Identity, now: int, acts: seq<Action>, s: State)
    requires Reaches(id, now, acts, s)
    ensures BackoffInv(s)
    decreases |acts|
  {
    if |acts| > 0 {
      var n := |acts| - 1;
      var prev := Exec(Init(id, now), acts[..n]).value;
      ReachableBackoff(id, now, acts[..n], prev);
      ReachableProtocol(id, now, acts[..n], prev);
      StepBackoff(prev, acts[n], s);
    }
  }

  lemma {:induction false} KindsAt(fs: seq<FailedAt>)
    ensures forall i :: 0 <= i < |fs| ==> Kinds(fs)[i] == fs[i].kind
    decreases |fs|
  {
    if |fs| > 0 {
      KindsAt(fs[..|fs| - 1]);
    }
  }

  /** However the RPCs interleave: n failed re-registrations in a row, of any mix of error
      kinds, take at least LeastSpan(n) seconds; the wait in force is 0 or between the base
      and the ceiling, and min(30 * 2^(n-1), 300) when all n were transient. */
  lemma FailedRegistrationsSpread(id: Identity, now: int, acts: seq<Action>, s: State)
    requires Reaches(id, now, acts, s)
    ensures s.fails != [] ==> s.fails[|s.fails| - 1].at - s.fails[0].at >= LeastSpan(|s.fails|)
    ensures s.gate.wait == 0 || BASE <= s.gate.wait <= MAX
    ensures s.fails != [] && (forall i :: 0 <= i < |s.fails| ==> s.fails[i].kind.Transient?) ==>
              s.gate.wait == Min(BASE * Pow2(|s.fails| - 1), MAX)
  {
    ReachableBackoff(id, now, acts, s);
    WaitBounds(Kinds(s.fails));
    if s.fails != [] {
      SpanBound(s.fails);
      if forall i :: 0 <= i < |s.fails| ==> s.fails[i].kind.Transient? {
        KindsAt(s.fails);
        TransientWait(Kinds(s.fails));
      }
    }
  }

  // ---- what a failed Save does ----

  lemma Do(s0: State, acts: seq<Action>, s: State, a: Action) returns (acts': seq<Action>, s': State)
    requires Exec(s0, acts) == Some(s) && Step(s, a).Some?
    ensures Some(s') == Step(s, a) && Exec(s0, acts') == Some(s')
  {
    acts', s' := acts + [a], Step(s, a).value;
    assert acts'[..|acts|] == acts;
  }

  lemma DoAct(s0: State, acts: seq<Action>, s: State, t: Thread, ans: Answer, pc: Pc)
      returns (acts': seq<Action>, s': State)
    requires Exec(s0, acts) == Some(s) && t in s.threads && NextPc(s, s.threads[t], ans) == Some(pc)
    ensures Exec(s0, acts') == Some(s') && s' == Effect(s, t, s.threads[t], ans).(threads := s.threads[t := pc])
  {
    acts', s' := Do(s0, acts, s, Act(t, ans));
  }

  /** What a failed registration arms, once its thread has gone on: five minutes for a bad
      registration token, else half a minute, doubled up to five minutes. */
  lemma FailureArms(s0: State, acts: seq<Action>, s: State, t: Thread, kind: Failing)
    returns (acts': seq<Action>, s': State)
    requires Exec(s0, acts) == Some(s) && t in s.threads && s.threads[t].Registering?
    ensures Exec(s0, acts') == Some(s') && s'.memory == s.memory && s'.disk == s.disk && s'.generation == s.generation
    ensures s'.gate.wait == (if kind.BadToken? then 300 else if s.gate.wait == 0 then 30
                             else if s.gate.wait <= 150 then 2 * s.gate.wait else 300)
    ensures s'.gate.next == Some(s.now + s'.gate.wait)
            && s'.threads == s.threads[t := Unlocking(s.threads[t].a.gen, false)]
  {
    var a := s.threads[t].a;
    acts', s' := DoAct(s0, acts, s, t, RegisterFailed(kind), Noting(a, kind));
    acts', s' := DoAct(s0, acts', s', t, Ok, Arming(a, kind, NextWait(s.gate.wait, kind)));
    acts', s' := DoAct(s0, acts', s', t, Ok, Unlocking(a.gen, false));
  }

  /** What a completed one does. */
  lemma SuccessInstalls(s0: State, acts: seq<Action>, s: State, t: Thread, id: Identity)
    returns (acts': seq<Action>, s': State)
    requires Exec(s0, acts) == Some(s) && t in s.threads && s.threads[t].Registering? && Fresh(s, id)
    ensures Exec(s0, acts') == Some(s') && s'.memory == id == s'.disk && s'.generation == s.generation + 1
    ensures s'.gate == Gate(None, 0) && s'.threads == s.threads[t := Unlocking(s.threads[t].a.gen, true)]
  {
    var a := s.threads[t].a;
    acts', s' := DoAct(s0, acts, s, t, Issued(id), Adopting(a, id));
    acts', s' := DoAct(s0, acts', s', t, Ok, Saving(a, id));
    acts', s' := DoAct(s0, acts', s', t, Ok, Bumping(a, id));
    acts', s' := DoAct(s0, acts', s', t, Ok, Resetting(a));
    acts', s' := DoAct(s0, acts', s', t, Ok, Unlocking(a.gen, true));
  }

  /** One RPC is issued and answered with an auth error. */
  lemma Reject(s0: State, acts: seq<Action>, s: State, a: Identity, t: Thread) returns (acts': seq<Action>, s': State)
    requires Exec(s0, acts) == Some(s) && t in s.threads && s.threads[t].Loading?
    requires s.generation == 1 && s.memory == a && |s.log| == 1 && s.lost == []
    ensures Exec(s0, acts') == Some(s') && s' == s.(threads := s.threads[t := Blocked(Attempt(1, a, 1, 0))])
  {
    acts', s' := Do(s0, acts, s, Act(t, Ok));
    acts', s' := Do(s0, acts', s', Act(t, Ok));
    acts', s' := Do(s0, acts', s', Act(t, AuthError));
  }

  /** Two RPCs are rejected under the same identity and the first has got past the backoff check. */
  lemma TwoRejected(a: Identity) returns (acts: seq<Action>, s: State)
    ensures Reaches(a, 0, acts, s)
    ensures var first, second := Attempt(1, a, 1, 0), Attempt(1, a, 1, 0);
      s == Init(a, 0).(next := 2, threads := map[0 := Registering(first), 1 := Blocked(second)], regMu := Some(0))
  {
    var s0 := Init(a, 0);
    acts, s := [], s0;
    acts, s := Do(s0, acts, s, Start);
    acts, s := Do(s0, acts, s, Start);
    assert s == s0.(next := 2, threads := map[0 := Loading, 1 := Loading]);
    acts, s := Reject(s0, acts, s, a, 1);
    acts, s := Reject(s0, acts, s, a, 0);
    var first := Attempt(1, a, 1, 0);
    assert s == s0.(next := 2, threads := map[0 := Blocked(first), 1 := Blocked(first)]);
    acts, s := DoAct(s0, acts, s, 0, Ok, Comparing(first));
    acts, s := DoAct(s0, acts, s, 0, Ok, Gated(first));
    acts, s := DoAct(s0, acts, s, 0, Ok, Registering(first));
  }

  /** A failed re-registration arms the backoff and lets go of the lock. */
  lemma BackOff(s0: State, acts: seq<Action>, s: State, t: Thread, a: Attempt) returns (acts': seq<Action>, s': State)
    requires Exec(s0, acts) == Some(s) && t in s.threads && s.threads[t] == Noting(a, Transient) && s.gate == OPEN
    ensures Exec(s0, acts') == Some(s')
    ensures s' == s.(gate := Armed(BASE, s.now), fails := s.fails + [FailedAt(Transient, s.now)],
                     regMu := None, threads := s.threads[t := Done])
  {
    acts', s' := DoAct(s0, acts, s, t, Ok, Arming(a, Transient, BASE));
    acts', s' := DoAct(s0, acts', s', t, Ok, Unlocking(a.gen, false));
    acts', s' := DoAct(s0, acts', s', t, Ok, Done);
  }

  /** The first re-registers as `b` but cannot save it. */
  lemma LostSave(a: Identity, b: Identity) returns (acts: seq<Action>, s: State)
    requires a != b
    ensures Reaches(a, 0, acts, s) && s.now == 0 && s.generation == 1 && s.memory == b && s.disk == a && s.lost == [b]
    ensures s.regMu.None? && s.gate == Armed(BASE, 0)
    ensures 1 in s.threads && s.threads[1] == Blocked(Attempt(1, a, 1, 0))
  {
    var s0 := Init(a, 0);
    acts, s := TwoRejected(a);
    var first := Attempt(1, a, 1, 0);
    acts, s := Do(s0, acts, s, Act(0, Issued(b)));
    assert s.threads[0] == Adopting(first, b);
    acts, s := Do(s0, acts, s, Act(0, Ok));
    assert s.threads[0] == Saving(first, b) && s.memory == b;
    acts, s := Do(s0, acts, s, Act(0, SaveFailed));
    acts, s := BackOff(s0, acts, s, 0, first);
  }

  /** Without the hypothesis on Save the claim is false: a second RPC, rejected under the old
      identity, reaches Register while a newer identity it never presented is in memory. */
  lemma FailedSaveWitness(a: Identity, b: Identity) returns (acts: seq<Action>, s: State)
    requires a != b
    ensures Reaches(a, 0, acts, s) && s.lost == [b]
    ensures 1 in s.threads && s.threads[1].Registering? && s.threads[1].a.shown == a && s.memory == b
  {
    acts, s := LostSave(a, b);
    var s0 := Init(a, 0);
    acts, s := Do(s0, acts, s, Elapse(BASE));
    acts, s := Do(s0, acts, s, Act(1, Ok));
    acts, s := Do(s0, acts, s, Act(1, Ok));
    acts, s := Do(s0, acts, s, Act(1, Ok));
  }
}
