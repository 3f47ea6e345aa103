/** The freestanding C runtime underneath: the block copies the connection moves its buffers with, and the timeout test
    behind every wait loop. */
module Runtime {
  const TWO64: int := 0x1_0000_0000_0000_0000

  function Low64(n: int): nat {
    n % TWO64
  }

  // ---- block copies ----

  /** What an array is after n elements have moved from s to d. */
  function Moved<T>(a: seq<T>, d: nat, s: nat, n: nat): (r: seq<T>)
    requires d + n <= |a| && s + n <= |a|
    ensures |r| == |a|
  {
    a[..d] + a[s..s + n] + a[d + n..]
  }

  /** Overlap does no harm in either direction: forwards when the target is in front, backwards when it is behind. */
  method MemMove<T>(a: array<T>, d: nat, s: nat, n: nat)
    requires d + n <= a.Length && s + n <= a.Length
    modifies a
    ensures a[..] == Moved(old(a[..]), d, s, n)
  {
    ghost var was := a[..];
    if d == s || n == 0 {
      MovedIs(was, a[..], d, s, n);
      return;
    }
    if d < s {
      MoveDown(a, d, s, n);
    } else {
      MoveUp(a, d, s, n);
    }
    MovedIs(was, a[..], d, s, n);
  }

  /** Where each element of the moved array comes from. */
  function Source(d: nat, s: nat, from: nat, to: nat, k: nat): int {
    if d + from <= k < d + to then s + (k - d) else k
  }

  lemma MovedIs<T>(was: seq<T>, now: seq<T>, d: nat, s: nat, n: nat)
    requires d + n <= |was| && s + n <= |was| && |now| == |was|
    requires forall k :: 0 <= k < |was| ==> now[k] == was[Source(d, s, 0, n, k)]
    ensures now == Moved(was, d, s, n)
  {
    var m := Moved(was, d, s, n);
    forall k | 0 <= k < |was|
      ensures now[k] == m[k]
    {
      assert now[k] == was[Source(d, s, 0, n, k)];
    }
  }

  method MoveDown<T>(a: array<T>, d: nat, s: nat, n: nat)
    requires d < s && s + n <= a.Length
    modifies a
    ensures forall k :: 0 <= k < a.Length ==> a[k] == old(a[..])[Source(d, s, 0, n, k)]
  {
    ghost var was := a[..];
    var i := 0;
    while i < n
      invariant 0 <= i <= n
      invariant forall k :: 0 <= k < a.Length ==> a[k] == was[Source(d, s, 0, i, k)]
    {
      assert Source(d, s, 0, i, s + i) == s + i;
      a[d + i] := a[s + i];
      i := i + 1;
    }
  }

  method MoveUp<T>(a: array<T>, d: nat, s: nat, n: nat)
    requires s < d && d + n <= a.Length
    modifies a
    ensures forall k :: 0 <= k < a.Length ==> a[k] == old(a[..])[Source(d, s, 0, n, k)]
  {
    ghost var was := a[..];
    var i := n;
    while i > 0
      invariant 0 <= i <= n
      invariant forall k :: 0 <= k < a.Length ==> a[k] == was[Source(d, s, i, n, k)]
    {
      i := i - 1;
      assert Source(d, s, i + 1, n, s + i) == s + i;
      a[d + i] := a[s + i];
    }
  }

  method MemCpy<T>(a: array<T>, d: nat, src: seq<T>)
    requires d + |src| <= a.Length
    modifies a
    ensures a[..] == old(a[..])[..d] + src + old(a[..])[d + |src|..]
  {
    var i := 0;
    while i < |src|
      invariant 0 <= i <= |src|
      invariant forall k :: 0 <= k < a.Length ==> a[k] == if d <= k < d + i then src[k - d] else old(a[k])
    {
      a[d + i] := src[i];
      i := i + 1;
    }
  }

  // ---- timeouts ----

  /** RtTimedOut, with what the clock says at the moment; 0 is a clock that does not work. Every 64th spin looks at
      the clock, and the spins themselves count against four times the limit. */
  predicate TimedOut(startSec: nat, spins: nat, usPerSpin: nat, limitMs: nat, now: nat) {
    (startSec != 0 && spins % 64 == 0 && now != 0 && now > startSec && Low64((now - startSec) * 1000) > Low64(limitMs + 1000))
    || Low64(spins * usPerSpin) > Low64(limitMs * 4000)
  }

  /** How many spins a wait can take whatever the clock does. */
  function SpinLimit(usPerSpin: nat, limitMs: nat): nat
    requires usPerSpin > 0
  {
    limitMs * 4000 / usPerSpin + 1
  }

  /** With no help from the clock a wait ends at exactly the spin that passes four times the limit. */
  lemma SpinsEnd(startSec: nat, spins: nat, usPerSpin: nat, limitMs: nat, now: nat)
    requires 0 < usPerSpin && limitMs * 4000 + usPerSpin < TWO64 && spins <= SpinLimit(usPerSpin, limitMs)
    ensures spins == SpinLimit(usPerSpin, limitMs) ==> TimedOut(startSec, spins, usPerSpin, limitMs, now)
    ensures startSec == 0 && spins < SpinLimit(usPerSpin, limitMs) ==> !TimedOut(startSec, spins, usPerSpin, limitMs, now)
  {
    var l, q := limitMs * 4000, limitMs * 4000 / usPerSpin;
    assert l == q * usPerSpin + l % usPerSpin;
    if spins == q + 1 {
      assert spins * usPerSpin == q * usPerSpin + usPerSpin;
      SmallLow64(spins * usPerSpin);
    } else {
      MulMonotone(spins, q, usPerSpin);
      SmallLow64(spins * usPerSpin);
    }
    SmallLow64(l);
  }

  /** Where nothing wraps, a wait ends exactly when its spins have passed four times the limit, or a working clock that is looked
      at on this spin shows more than the limit and a second. */
  lemma EndsIff(startSec: nat, spins: nat, usPerSpin: nat, limitMs: nat, now: nat)
    requires spins * usPerSpin < TWO64 && limitMs * 4000 < TWO64 && now * 1000 < TWO64
    ensures TimedOut(startSec, spins, usPerSpin, limitMs, now) <==>
      || spins * usPerSpin > 4000 * limitMs
      || (spins % 64 == 0 && 0 < startSec < now && 1000 * (now - startSec) > limitMs + 1000)
  {
    SmallLow64(spins * usPerSpin);
    SmallLow64(limitMs * 4000);
    if limitMs * 4000 >= limitMs + 1000 {
      SmallLow64(limitMs + 1000);
    } else {
      assert limitMs == 0;
      SmallLow64(1000);
    }
    if now > startSec {
      SmallLow64((now - startSec) * 1000);
    }
  }

  lemma MulMonotone(a: nat, b: nat, c: nat)
    requires a <= b
    ensures a * c <= b * c
  {
  }

  lemma SmallLow64(n: nat)
    requires n < TWO64
    ensures Low64(n) == n
  {
  }

  /** A wait that ends early ends because more than the limit and a second have really passed. */
  lemma NeverEarly(startSec: nat, spins: nat, usPerSpin: nat, limitMs: nat, now: nat)
    requires TimedOut(startSec, spins, usPerSpin, limitMs, now)
    requires spins * usPerSpin <= limitMs * 4000 < TWO64 && now * 1000 < TWO64
    ensures startSec < now && (now - startSec) * 1000 > limitMs + 1000
  {
    SmallLow64(spins * usPerSpin);
    SmallLow64(limitMs * 4000);
    SmallLow64(limitMs + 1000);
    if now > startSec {
      SmallLow64((now - startSec) * 1000);
    }
  }
}
