/** Concurrent Saves and crashes (internal/state/state.go).

    One step is one lock operation or one file-system call of one Save.  A crash may come
    between any two steps; it ends every thread, frees the lock and leaves of the state file
    what survives of it. */
module StateRuns {
  import opened Codecs
  import opened Wrappers
  import opened StateFile

  type Thread = nat

  datatype Job = Job(url: string, id: R.Identity)

  datatype Pc =
    | Waiting(job: Job)                            // before mu.Lock
    | Reading(job: Job)                            // holds mu from here ...
    | Creating(job: Job, data: Bytes)
    | Writing(job: Job, data: Bytes)
    | Syncing(job: Job, data: Bytes, temp: File)
    | Closing(job: Job, data: Bytes, temp: File)
    | Renaming(job: Job, data: Bytes, temp: File)
    | Removing(job: Job, ok: bool)
    | Unlocking(job: Job, ok: bool)                // ... to here
    | Returned(job: Job, ok: bool)

  predicate Critical(pc: Pc) {
    !pc.Waiting? && !pc.Returned?
  }

  /** `commits` lists the Saves whose rename has happened. */
  datatype State = State(
    file: Option<File>,
    mu: Option<Thread>,
    threads: map<Thread, Pc>,
    next: Thread,
    commits: seq<Job>)

  datatype Action =
    | Start(job: Job)
    | Act(t: Thread, fails: bool)
    | Crash(data: Bytes)

  function Init(file: Option<File>): State {
    State(file, None, map[], 0, [])
  }

  function NextPc(c: Codec<Format>, s: State, pc: Pc, fails: bool): Option<Pc> {
    match pc
    case Waiting(job) => if s.mu.None? then Some(Reading(job)) else None
    case Reading(job) =>
      if fails || Parse(c, s.file).Failure? then Some(Unlocking(job, false)) else
      (match Merged(c, s.file, job.url, job.id)
       case None => Some(Unlocking(job, false))
       case Some(data) => Some(Creating(job, data)))
    case Creating(job, data) => Some(if fails then Unlocking(job, false) else Writing(job, data))
    case Writing(job, data) =>
      if fails then Some(Removing(job, false)) else Some(Syncing(job, data, File(data, false)))
    case Syncing(job, data, temp) =>
      Some(if fails then Removing(job, false) else Closing(job, data, temp.(synced := true)))
    case Closing(job, data, temp) => Some(if fails then Removing(job, false) else Renaming(job, data, temp))
    case Renaming(job, data, temp) => Some(Removing(job, !fails))
    case Removing(job, ok) => Some(Unlocking(job, ok))
    case Unlocking(job, ok) => Some(Returned(job, ok))
    case Returned(_, _) => None
  }

  function Effect(s: State, t: Thread, pc: Pc, fails: bool): State {
    match pc
    case Waiting(_) => s.(mu := Some(t))
    case Renaming(job, data, temp) => if fails then s else s.(file := Some(temp), commits := s.commits + [job])
    case Unlocking(_, _) => s.(mu := None)
    case _ => s
  }

  function Step(c: Codec<Format>, s: State, a: Action): Option<State> {
    match a
    case Start(job) => Some(s.(threads := s.threads[s.next := Waiting(job)], next := s.next + 1))
    case Act(t, fails) =>
      if t !in s.threads then None else
      (match NextPc(c, s, s.threads[t], fails)
       case None => None
       case Some(pc) => Some(Effect(s, t, s.threads[t], fails).(threads := s.threads[t := pc])))
    case Crash(data) =>
      (match s.file
       case None => Some(s.(mu := None, threads := map[]))
       case Some(f) =>
         if Survives(f, data) then Some(s.(file := Some(File(data, true)), mu := None, threads := map[])) else None)
  }

  function Exec(c: Codec<Format>, s: State, acts: seq<Action>): Option<State> {
    if |acts| == 0 then Some(s) else
    match Exec(c, s, acts[..|acts| - 1])
    case None => None
    case Some(s') => Step(c, s', acts[|acts| - 1])
  }

  // ---- invariant ----

  predicate LockInv(s: State) {
    && (forall t :: t in s.threads ==> t < s.next && (Critical(s.threads[t]) <==> s.mu == Some(t)))
    && (s.mu.Some? ==> s.mu.value in s.threads)
  }

  function Applied(ids: map<string, R.Identity>, jobs: seq<Job>): map<string, R.Identity> {
    if |jobs| == 0 then ids
    else Applied(ids, jobs[..|jobs| - 1])[jobs[|jobs| - 1].url := jobs[|jobs| - 1].id]
  }

  /** The file is complete, and holds what the renames so far have put there. */
  predicate FileInv(c: Codec<Format>, start: Option<File>, s: State) {
    && (s.commits == [] ==> s.file == start)
    && (s.commits != [] ==> Parse(c, s.file).Success?)
    && (s.file.Some? ==> s.file.value.synced)
    && Identities(c, s.file) == Applied(Identities(c, start), s.commits)
  }

  /** What a thread in the critical section is about to install. */
  predicate PcInv(c: Codec<Format>, s: State, pc: Pc) {
    && (pc.Creating? || pc.Writing? || pc.Syncing? || pc.Closing? || pc.Renaming? ==>
          Parse(c, s.file).Success? && Merged(c, s.file, pc.job.url, pc.job.id) == Some(pc.data))
    && (pc.Syncing? || pc.Closing? || pc.Renaming? ==> pc.temp.data == pc.data)
    && (pc.Closing? || pc.Renaming? ==> pc.temp.synced)
    && ((pc.Removing? || pc.Unlocking? || pc.Returned?) && pc.ok ==> pc.job in s.commits)
  }

  predicate Inv(c: Codec<Format>, start: Option<File>, s: State) {
    LockInv(s) && FileInv(c, start, s) && forall t :: t in s.threads ==> PcInv(c, s, s.threads[t])
  }

  lemma StepLock(c: Codec<Format>, s: State, a: Action, s': State)
    requires LockInv(s) && Step(c, s, a) == Some(s')
    ensures LockInv(s')
  {
  }

  /** The image written for a job holds that job's entry and all the others. */
  lemma MergedHolds(c: Codec<Format>, file: Option<File>, job: Job, data: Bytes)
    requires RoundTrips(c) && Merged(c, file, job.url, job.id) == Some(data)
    ensures Parse(c, Some(File(data, true))).Success?
    ensures Identities(c, Some(File(data, true))) == Identities(c, file)[job.url := job.id]
  {
  }

  lemma StepFile(c: Codec<Format>, start: Option<File>, s: State, a: Action, s': State)
    requires RoundTrips(c) && FileInv(c, start, s) && Step(c, s, a) == Some(s')
    requires a.Act? && a.t in s.threads ==> PcInv(c, s, s.threads[a.t])
    ensures FileInv(c, start, s')
  {
    if a.Act? && s.threads[a.t].Renaming? && !a.fails {
      MergedHolds(c, s.file, s.threads[a.t].job, s.threads[a.t].data);
      assert s'.commits[..|s.commits|] == s.commits;
    }
  }

  lemma OwnPc(c: Codec<Format>, start: Option<File>, s: State, t: Thread, fails: bool, s': State)
    requires Inv(c, start, s) && t in s.threads && Step(c, s, Act(t, fails)) == Some(s')
    ensures PcInv(c, s', s'.threads[t])
  {
    assert PcInv(c, s, s.threads[t]);
  }

  lemma OtherPc(c: Codec<Format>, start: Option<File>, s: State, t: Thread, fails: bool, s': State, u: Thread)
    requires Inv(c, start, s) && t in s.threads && Step(c, s, Act(t, fails)) == Some(s') && u in s.threads && u != t
    ensures PcInv(c, s', s'.threads[u])
  {
    assert PcInv(c, s, s.threads[u]);
  }

  lemma StepPcs(c: Codec<Format>, start: Option<File>, s: State, a: Action, s': State)
    requires Inv(c, start, s) && Step(c, s, a) == Some(s')
    ensures forall t :: t in s'.threads ==> PcInv(c, s', s'.threads[t])
  {
    forall t | t in s'.threads ensures PcInv(c, s', s'.threads[t]) {
      if a.Act? && t == a.t {
        OwnPc(c, start, s, t, a.fails, s');
      } else if a.Act? {
        OtherPc(c, start, s, a.t, a.fails, s', t);
      } else if t in s.threads {
        assert PcInv(c, s, s.threads[t]);
      }
    }
  }

  lemma {:induction false} Reachable(c: Codec<Format>, start: Option<File>, acts: seq<Action>, s: State)
    requires RoundTrips(c) && (start.Some? ==> start.value.synced)
    requires Exec(c, Init(start), acts) == Some(s)
    ensures Inv(c, start, s)
    decreases |acts|
  {
    if |acts| > 0 {
      var n := |acts| - 1;
      var prev := Exec(c, Init(start), acts[..n]).value;
      Reachable(c, start, acts[..n], prev);
      StepLock(c, prev, acts[n], s);
      StepFile(c, start, prev, acts[n], s);
      StepPcs(c, start, prev, acts[n], s);
    }
  }

  // ---- progress ----

  /** How far a Save is from returning. */
  function Distance(pc: Pc): nat {
    match pc
    case Waiting(_) => 9
    case Reading(_) => 8
    case Creating(_, _) => 7
    case Writing(_, _) => 6
    case Syncing(_, _, _) => 5
    case Closing(_, _, _) => 4
    case Renaming(_, _, _) => 3
    case Removing(_, _) => 2
    case Unlocking(_, _) => 1
    case Returned(_, _) => 0
  }

  lemma NextMoves(c: Codec<Format>, s: State, pc: Pc, fails: bool)
    requires !pc.Returned?
    ensures NextPc(c, s, pc, fails).Some? <==> !(pc.Waiting? && s.mu.Some?)
    ensures NextPc(c, s, pc, fails).Some? ==> Distance(NextPc(c, s, pc, fails).value) < Distance(pc)
  {
  }

  /** A Save is held up by nothing but the lock, every step brings it closer to its return, and
      the holder of the lock can always move: no Save is blocked for good. */
  lemma SavesMove(c: Codec<Format>, start: Option<File>, acts: seq<Action>, s: State, t: Thread, fails: bool)
    requires RoundTrips(c) && (start.Some? ==> start.value.synced)
    requires Exec(c, Init(start), acts) == Some(s) && t in s.threads && !s.threads[t].Returned?
    ensures Step(c, s, Act(t, fails)).Some? <==> !(s.threads[t].Waiting? && s.mu.Some?)
    ensures Step(c, s, Act(t, fails)).Some? ==>
              Distance(Step(c, s, Act(t, fails)).value.threads[t]) < Distance(s.threads[t])
    ensures s.mu.Some? ==> s.mu.value in s.threads && Step(c, s, Act(s.mu.value, fails)).Some?
  {
    Reachable(c, start, acts, s);
    NextMoves(c, s, s.threads[t], fails);
    if s.mu.Some? {
      NextMoves(c, s, s.threads[s.mu.value], fails);
    }
  }

  /** A new Save can always begin, and a crash that leaves a complete file can always come. */
  lemma OutsideMoves(c: Codec<Format>, s: State, job: Job)
    ensures Step(c, s, Start(job)).Some? && s.next in Step(c, s, Start(job)).value.threads
    ensures s.file.None? ==> forall data :: Step(c, s, Crash(data)) == Some(s.(mu := None, threads := map[]))
    ensures s.file.Some? ==> Step(c, s, Crash(s.file.value.data)).Some?
  {
  }

  lemma Do(c: Codec<Format>, s0: State, acts: seq<Action>, s: State, t: Thread, pc: Pc)
    returns (acts': seq<Action>, s': State)
    requires Exec(c, s0, acts) == Some(s) && t in s.threads && NextPc(c, s, s.threads[t], false) == Some(pc)
    ensures Exec(c, s0, acts') == Some(s') && s' == Effect(s, t, s.threads[t], false).(threads := s.threads[t := pc])
  {
    acts' := acts + [Act(t, false)];
    s' := Step(c, s, Act(t, false)).value;
    assert acts'[..|acts|] == acts;
  }

  /** Up to the synced temporary file. */
  lemma WrittenAlone(c: Codec<Format>, s: State, t: Thread, job: Job, data: Bytes)
      returns (acts: seq<Action>, s': State)
    requires t in s.threads && s.threads[t] == Waiting(job) && s.mu.None? && Parse(c, s.file).Success?
    requires Merged(c, s.file, job.url, job.id) == Some(data)
    ensures Exec(c, s, acts) == Some(s')
    ensures s' == s.(mu := Some(t), threads := s.threads[t := Closing(job, data, File(data, true))])
  {
    acts, s' := [], s;
    acts, s' := Do(c, s, acts, s', t, Reading(job));
    acts, s' := Do(c, s, acts, s', t, Creating(job, data));
    acts, s' := Do(c, s, acts, s', t, Writing(job, data));
    acts, s' := Do(c, s, acts, s', t, Syncing(job, data, File(data, false)));
    acts, s' := Do(c, s, acts, s', t, Closing(job, data, File(data, true)));
  }

  /** A Save that finds the lock free and a file it understands, and whose calls all succeed
      without interruption, installs its image and returns success. */
  lemma SaveAlone(c: Codec<Format>, s: State, t: Thread, job: Job, data: Bytes) returns (acts: seq<Action>, s': State)
    requires t in s.threads && s.threads[t] == Waiting(job) && s.mu.None? && Parse(c, s.file).Success?
    requires Merged(c, s.file, job.url, job.id) == Some(data)
    ensures Exec(c, s, acts) == Some(s') && s'.threads == s.threads[t := Returned(job, true)] && s'.mu.None?
    ensures s'.file == Some(File(data, true)) && s'.commits == s.commits + [job]
  {
    acts, s' := WrittenAlone(c, s, t, job, data);
    acts, s' := Do(c, s, acts, s', t, Renaming(job, data, File(data, true)));
    acts, s' := Do(c, s, acts, s', t, Removing(job, true));
    acts, s' := Do(c, s, acts, s', t, Unlocking(job, true));
    acts, s' := Do(c, s, acts, s', t, Returned(job, true));
  }

  /** The Save is bound to return an error. */
  predicate Failed(pc: Pc) {
    (pc.Removing? || pc.Unlocking? || pc.Returned?) && !pc.ok
  }

  /** Once one of a Save's calls has failed, or it did not understand the file, it changes the
      file no more and returns an error. */
  lemma FailureAborts(c: Codec<Format>, s: State, t: Thread, fails: bool, s': State)
    requires t in s.threads && Step(c, s, Act(t, fails)) == Some(s')
    ensures fails && !s.threads[t].Waiting? && !s.threads[t].Removing? && !s.threads[t].Unlocking? ==>
            Failed(s'.threads[t])
    ensures s.threads[t].Reading? && Parse(c, s.file).Failure? ==> Failed(s'.threads[t])
    ensures Failed(s.threads[t]) ==> Failed(s'.threads[t])
    ensures Failed(s'.threads[t]) ==> s'.file == s.file && s'.commits == s.commits
  {
  }

  // ---- main results ----

  /** In every reachable state, crashes included, the file holds under each URL the identity
      of the last Save of that URL to have renamed, and the entries it started with under all
      other URLs; and every Save that returned success is among those. */
  lemma SavesSurvive(c: Codec<Format>, start: Option<File>, acts: seq<Action>, s: State)
    requires RoundTrips(c) && (start.Some? ==> start.value.synced)
    requires Exec(c, Init(start), acts) == Some(s)
    ensures Identities(c, s.file) == Applied(Identities(c, start), s.commits)
    ensures s.commits != [] ==> Parse(c, s.file).Success?
    ensures forall t :: t in s.threads && s.threads[t].Returned? && s.threads[t].ok ==> s.threads[t].job in s.commits
  {
    Reachable(c, start, acts, s);
  }

  /** One step, a crash included, leaves the file as it was or installs one complete new
      image under the lock. */
  lemma FileChangesOnlyByRename(c: Codec<Format>, start: Option<File>, acts: seq<Action>, s: State, a: Action,
                                s': State)
    requires RoundTrips(c) && (start.Some? ==> start.value.synced)
    requires Exec(c, Init(start), acts) == Some(s) && Step(c, s, a) == Some(s')
    ensures s'.file == s.file ||
            (a.Act? && s.mu == Some(a.t) && a.t in s.threads && s.threads[a.t].Renaming? &&
             s'.file == Some(File(s.threads[a.t].data, true)) &&
             Identities(c, s'.file) == Identities(c, s.file)[s.threads[a.t].job.url := s.threads[a.t].job.id])
  {
    Reachable(c, start, acts, s);
    if a.Act? && s.threads[a.t].Renaming? && !a.fails {
      MergedHolds(c, s.file, s.threads[a.t].job, s.threads[a.t].data);
    }
  }

  /** A file that cannot be understood is never overwritten. */
  lemma MalformedNeverOverwritten(c: Codec<Format>, start: Option<File>, acts: seq<Action>, s: State)
    requires RoundTrips(c) && start.Some? && start.value.synced && Parse(c, start).Failure?
    requires Exec(c, Init(start), acts) == Some(s)
    ensures s.file == start && s.commits == []
    decreases |acts|
  {
    if |acts| > 0 {
      var n := |acts| - 1;
      var prev := Exec(c, Init(start), acts[..n]).value;
      MalformedNeverOverwritten(c, start, acts[..n], prev);
      Reachable(c, start, acts[..n], prev);
    }
  }

  /** The last Save of a URL decides its entry. */
  lemma {:induction false} LastSaveWins(ids: map<string, R.Identity>, jobs: seq<Job>, i: nat)
    requires i < |jobs| && forall j :: i < j < |jobs| ==> jobs[j].url != jobs[i].url
    ensures jobs[i].url in Applied(ids, jobs) && Applied(ids, jobs)[jobs[i].url] == jobs[i].id
    decreases |jobs|
  {
    if i < |jobs| - 1 {
      LastSaveWins(ids, jobs[..|jobs| - 1], i);
    }
  }

  lemma {:induction false} OthersKept(ids: map<string, R.Identity>, jobs: seq<Job>, url: string)
    requires forall j :: 0 <= j < |jobs| ==> jobs[j].url != url
    ensures url in Applied(ids, jobs) <==> url in ids
    ensures url in ids ==> Applied(ids, jobs)[url] == ids[url]
    decreases |jobs|
  {
    if |jobs| > 0 {
      OthersKept(ids, jobs[..|jobs| - 1], url);
    }
  }
}
