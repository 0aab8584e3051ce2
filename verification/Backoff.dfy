/** The failure backoff of re-registration (internal/north/client.go), in seconds. */
module Backoff {
  import opened Wrappers

  const BASE := 30
  const MAX := 300

  /** A failed Register: the deterministic bad-registration-token error, or anything else. */
  datatype Failing = BadToken | Transient

  /** `next` is None while no backoff is armed. */
  datatype Gate = Gate(next: Option<int>, wait: nat)

  const OPEN := Gate(None, 0)

  /** backoffRemaining. */
  function Remaining(g: Gate, now: int): nat {
    if g.next.Some? && g.next.value > now then g.next.value - now else 0
  }

  function NextWait(wait: nat, f: Failing): nat {
    if f.BadToken? then MAX
    else if wait == 0 then BASE
    else if wait * 2 > MAX then MAX else wait * 2
  }

  /** setBackoff. */
  function Armed(wait: nat, now: int): Gate {
    Gate(Some(now + wait), wait)
  }

  /** The wait in force after a series of consecutive failures. */
  function WaitAfter(fs: seq<Failing>): nat {
    if |fs| == 0 then 0 else NextWait(WaitAfter(fs[..|fs| - 1]), fs[|fs| - 1])
  }

  function Pow2(k: nat): nat {
    if k == 0 then 1 else 2 * Pow2(k - 1)
  }

  function Min(a: nat, b: nat): nat {
    if a < b then a else b
  }

  /** The wait is 0 before any failure and between the base and the ceiling afterwards. */
  lemma {:induction false} WaitBounds(fs: seq<Failing>)
    ensures WaitAfter(fs) == 0 <==> fs == []
    ensures fs != [] ==> BASE <= WaitAfter(fs) <= MAX
    decreases |fs|
  {
    if fs != [] {
      WaitBounds(fs[..|fs| - 1]);
    }
  }

  /** A bad registration token goes straight to five minutes, whatever came before. */
  lemma BadTokenWait(fs: seq<Failing>)
    ensures WaitAfter(fs + [BadToken]) == 300
  {
  }

  /** Any other failure starts at half a minute and doubles up to five. */
  lemma DoublingWait(fs: seq<Failing>)
    ensures WaitAfter(fs + [Transient]) ==
            if fs == [] then 30 else if WaitAfter(fs) <= 150 then 2 * WaitAfter(fs) else 300
  {
    assert (fs + [Transient])[..|fs|] == fs;
    WaitBounds(fs);
  }

  /** The gate is closed until the wait armed by the last failure is over, and open then. */
  lemma ArmedUntil(wait: nat, since: int, now: int)
    ensures Remaining(Armed(wait, since), now) == if now < since + wait then since + wait - now else 0
    ensures Remaining(OPEN, now) == 0
  {
  }

  /** k consecutive transient failures: min(30 * 2^(k-1), 300). */
  lemma {:induction false} TransientWait(fs: seq<Failing>)
    requires fs != [] && forall i :: 0 <= i < |fs| ==> fs[i].Transient?
    ensures WaitAfter(fs) == Min(BASE * Pow2(|fs| - 1), MAX)
    decreases |fs|
  {
    if |fs| > 1 {
      assert fs[..|fs| - 1][0].Transient?;
      TransientWait(fs[..|fs| - 1]);
      WaitBounds(fs[..|fs| - 1]);
    }
  }

  /** Whatever the mix of errors, the wait is at least what transient failures alone give. */
  lemma {:induction false} AnyWait(fs: seq<Failing>)
    requires fs != []
    ensures WaitAfter(fs) >= Min(BASE * Pow2(|fs| - 1), MAX)
    decreases |fs|
  {
    if |fs| > 1 {
      AnyWait(fs[..|fs| - 1]);
      WaitBounds(fs[..|fs| - 1]);
    }
  }

  // ---- spans of failure series ----

  datatype FailedAt = FailedAt(kind: Failing, at: int)

  function Kinds(fs: seq<FailedAt>): (ks: seq<Failing>)
    ensures |ks| == |fs|
  {
    if |fs| == 0 then [] else Kinds(fs[..|fs| - 1]) + [fs[|fs| - 1].kind]
  }

  /** Each failure of the series comes no earlier than the wait armed by the one before. */
  predicate Spaced(fs: seq<FailedAt>)
    decreases |fs|
  {
    |fs| <= 1 || (Spaced(fs[..|fs| - 1]) && fs[|fs| - 1].at >= fs[|fs| - 2].at + WaitAfter(Kinds(fs[..|fs| - 1])))
  }

  /** The least time from the first to the n-th of n consecutive failures. */
  function LeastSpan(n: nat): int {
    if n == 0 then 0
    else if n <= 5 then BASE * (Pow2(n - 1) - 1)
    else 450 + MAX * (n - 5)
  }

  lemma PowersOfTwo()
    ensures Pow2(0) == 1 && Pow2(1) == 2 && Pow2(2) == 4 && Pow2(3) == 8 && Pow2(4) == 16
  {
    assert Pow2(1) == 2 * Pow2(0);
    assert Pow2(2) == 2 * Pow2(1);
    assert Pow2(3) == 2 * Pow2(2);
    assert Pow2(4) == 2 * Pow2(3);
  }

  lemma {:induction false} PowGrows(k: nat)
    requires k >= 4
    ensures Pow2(k) >= 16
  {
    PowersOfTwo();
    if k > 4 {
      PowGrows(k - 1);
    }
  }

  /** One more failure lengthens the least span by the least wait. */
  lemma LeastSpanStep(n: nat)
    requires n >= 1
    ensures LeastSpan(n + 1) - LeastSpan(n) == Min(BASE * Pow2(n - 1), MAX)
  {
    PowersOfTwo();
    if n >= 5 {
      PowGrows(n - 1);
    }
  }

  lemma {:induction false} SpanBound(fs: seq<FailedAt>)
    requires fs != [] && Spaced(fs)
    ensures fs[|fs| - 1].at - fs[0].at >= LeastSpan(|fs|)
    decreases |fs|
  {
    var n := |fs| - 1;
    if n == 0 {
      PowersOfTwo();
    } else {
      SpanBound(fs[..n]);
      AnyWait(Kinds(fs[..n]));
      LeastSpanStep(n);
    }
  }
}
