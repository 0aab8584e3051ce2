/** Session expiry over whole runs (internal/session/manager.go, internal/south/handler.go,
    internal/app/app.go).

    A run is a list of time-stamped events.  An Rpc is one authenticated call: it looks the
    session up and renews it, and is refused when the session is gone.  A Pass is one expiry
    pass, which judges by the tick's own time stamp. */
module SessionExpiry {
  import opened SessionTables

  datatype Event<T> =
    | Create(key: string, task: T)
    | Rpc(key: string)
    | Drop(key: string)
    | Pass(tick: int)

  datatype Timed<T> = Timed(at: int, ev: Event<T>)

  /** The clock never goes back, and a tick is handled no earlier than it was sent. */
  predicate Monotone<T>(run: seq<Timed<T>>) {
    && (forall i, j :: 0 <= i <= j < |run| ==> run[i].at <= run[j].at)
    && (forall i :: 0 <= i < |run| && run[i].ev.Pass? ==> run[i].ev.tick <= run[i].at)
  }

  function StepTable<T>(m: Sessions<T>, e: Timed<T>, maxAge: int): Sessions<T> {
    match e.ev
    case Create(key, task) => Insert(m, key, task, e.at)
    case Rpc(key) => Touch(m, key, e.at)
    case Drop(key) => Remove(m, key)
    case Pass(tick) => Kept(m, tick, maxAge)
  }

  /** The table after the first `n` events. */
  function TableAfter<T>(run: seq<Timed<T>>, maxAge: int, n: nat): Sessions<T>
    requires n <= |run|
  {
    if n == 0 then map[] else StepTable(TableAfter(run, maxAge, n - 1), run[n - 1], maxAge)
  }

  /** Event `i` starts the session or presents its key. */
  predicate Active<T>(e: Timed<T>, key: string) {
    (e.ev.Create? && e.ev.key == key) || (e.ev.Rpc? && e.ev.key == key)
  }

  /** Index of the last activity on `key` among the first `n` events, from `i` on. */
  function LastActive<T>(run: seq<Timed<T>>, key: string, i: nat, n: nat): (l: nat)
    requires i < n <= |run| && Active(run[i], key)
    ensures i <= l < n && Active(run[l], key)
    ensures forall m :: l < m < n ==> !Active(run[m], key)
    decreases n
  {
    if n == i + 1 || Active(run[n - 1], key) then n - 1 else LastActive(run, key, i, n - 1)
  }

  // ---- an active session is never expired ----

  /** From event `i` to event `j` no call with `key` comes more than `maxAge` after the
      activity before it. */
  predicate KeepsTalking<T>(run: seq<Timed<T>>, key: string, i: nat, j: nat, maxAge: int)
    requires i < j < |run| && Active(run[i], key)
  {
    forall n :: i < n <= j && Active(run[n], key) ==> run[n].at - run[LastActive(run, key, i, n)].at <= maxAge
  }

  predicate NotDropped<T>(run: seq<Timed<T>>, key: string, i: nat, j: nat)
    requires i <= j < |run|
  {
    forall n :: i <= n <= j ==> !(run[n].ev.Drop? && run[n].ev.key == key)
  }

  /** Between two activities no pass is late enough to expire the session. */
  lemma {:induction false} StaysUntil<T>(run: seq<Timed<T>>, key: string, i: nat, l: nat, n: nat, maxAge: int)
    requires Monotone(run) && i <= l < n < |run| && NotDropped(run, key, i, n)
    requires forall m :: l < m < n ==> !Active(run[m], key)
    requires run[n].at - run[l].at <= maxAge
    requires key in TableAfter(run, maxAge, l + 1) && TableAfter(run, maxAge, l + 1)[key].lastActivity == run[l].at
    ensures key in TableAfter(run, maxAge, n) && TableAfter(run, maxAge, n)[key].lastActivity == run[l].at
    decreases n
  {
    if n > l + 1 {
      assert run[n - 1].at <= run[n].at;
      StaysUntil(run, key, i, l, n - 1, maxAge);
    }
  }

  lemma {:induction false} LiveAtActivity<T>(run: seq<Timed<T>>, key: string, i: nat, j: nat, maxAge: int)
    requires Monotone(run) && i < j < |run| && run[i].ev.Create? && run[i].ev.key == key
    requires KeepsTalking(run, key, i, j, maxAge) && NotDropped(run, key, i, j) && Active(run[j], key)
    ensures key in TableAfter(run, maxAge, j)
    decreases j
  {
    var l := LastActive(run, key, i, j);
    if l > i {
      LiveAtActivity(run, key, i, l, maxAge);
    }
    StaysUntil(run, key, i, l, j, maxAge);
  }

  /** Expiry is never too early: a session whose calls are never more than maxAge apart, and
      which nobody removes, is there for every one of them. */
  lemma ActiveNeverExpired<T>(run: seq<Timed<T>>, key: string, i: nat, j: nat, maxAge: int)
    requires Monotone(run) && i < j < |run| && run[i].ev.Create? && run[i].ev.key == key
    requires KeepsTalking(run, key, i, j, maxAge) && NotDropped(run, key, i, j)
    ensures forall n :: i < n <= j && Active(run[n], key) ==> key in TableAfter(run, maxAge, n)
  {
    forall n | i < n <= j && Active(run[n], key) ensures key in TableAfter(run, maxAge, n) {
      LiveAtActivity(run, key, i, n, maxAge);
    }
  }

  // ---- a silent session is expired in time ----

  predicate SilentFrom<T>(run: seq<Timed<T>>, key: string, i: nat, j: nat)
    requires i <= j < |run|
  {
    forall n :: i < n <= j ==> !Active(run[n], key)
  }

  predicate PassWithin<T>(run: seq<Timed<T>>, i: nat, j: nat, t: int, gap: nat)
    requires i <= j < |run|
  {
    exists n :: i < n <= j && run[n].ev.Pass? && t < run[n].ev.tick <= t + gap
  }

  /** In every stretch of length `gap` up to event `j` there is a pass: its tick is later
      than `t` and no more than `gap` later. */
  predicate PassesEvery<T>(run: seq<Timed<T>>, i: nat, j: nat, gap: nat)
    requires i <= j < |run|
  {
    forall t: int :: run[i].at <= t && t + gap <= run[j].at ==> PassWithin(run, i, j, t, gap)
  }

  /** While silent the session's time stamp does not move. */
  lemma {:induction false} StampStays<T>(run: seq<Timed<T>>, key: string, i: nat, n: nat, maxAge: int)
    requires Monotone(run) && i < n <= |run| && Active(run[i], key) && SilentFrom(run, key, i, n - 1)
    ensures key in TableAfter(run, maxAge, n) ==> TableAfter(run, maxAge, n)[key].lastActivity == run[i].at
    decreases n
  {
    if n > i + 1 {
      StampStays(run, key, i, n - 1, maxAge);
    }
  }

  lemma {:induction false} GoneStaysGone<T>(run: seq<Timed<T>>, key: string, m: nat, n: nat, maxAge: int)
    requires m <= n <= |run| && key !in TableAfter(run, maxAge, m)
    requires forall x :: m <= x < n ==> !Active(run[x], key)
    ensures key !in TableAfter(run, maxAge, n)
    decreases n
  {
    if n > m {
      GoneStaysGone(run, key, m, n - 1, maxAge);
    }
  }

  /** Expiry is never too late: silent since time t, with passes at most `gap` apart, a
      session is gone by t + maxAge + gap. */
  lemma SilentIsGone<T>(run: seq<Timed<T>>, key: string, i: nat, j: nat, maxAge: nat, gap: nat)
    requires Monotone(run) && i <= j < |run| && Active(run[i], key) && SilentFrom(run, key, i, j)
    requires PassesEvery(run, i, j, gap) && run[j].at >= run[i].at + maxAge + gap
    ensures key !in TableAfter(run, maxAge, j + 1)
  {
    var t := run[i].at + maxAge;
    assert PassWithin(run, i, j, t, gap);
    var n :| i < n <= j && run[n].ev.Pass? && t < run[n].ev.tick <= t + gap;
    StampStays(run, key, i, n, maxAge);
    GoneStaysGone(run, key, n + 1, j + 1, maxAge);
  }

  /** A pass splits the table: what it takes was silent for longer than maxAge, what it leaves
      was not, and nothing is lost or changed in between. */
  lemma PassIsExact<T>(m: Sessions<T>, tick: int, maxAge: int)
    ensures var gone, left := Reaped(m, tick, maxAge), Kept(m, tick, maxAge);
      && gone.Keys !! left.Keys && gone + left == m
      && (forall k :: k in m ==> (k in gone <==> tick - m[k].lastActivity > maxAge))
  {
    var gone, left := Reaped(m, tick, maxAge), Kept(m, tick, maxAge);
    assert gone.Keys + left.Keys == m.Keys;
  }
}
