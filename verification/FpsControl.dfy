/** The frame-rate limiter: of frames coming at a full rate F it takes a target number T in every F,
    spread evenly, by adding T to a 32-bit key and taking a frame whenever the key reaches F. */
module FpsControl {
  const WORD := 0x1_0000_0000

  datatype Ticked = Ticked(key: nat, take: bool)

  /** One call; the addition is kept in 32 bits. */
  function Tick(key: nat, full: nat, target: nat): Ticked {
    var k := (key + target) % WORD;
    if k >= full then Ticked(k - full, true) else Ticked(k, false)
  }

  /** The key after `n` calls, and how many of them took a frame. */
  function Key(n: nat, full: nat, target: nat): nat {
    if n == 0 then 0 else Tick(Key(n - 1, full, target), full, target).key
  }

  function Taken(n: nat, full: nat, target: nat): nat {
    if n == 0 then 0
    else Taken(n - 1, full, target) + if Tick(Key(n - 1, full, target), full, target).take then 1 else 0
  }

  /** Rates the limiter is made for, small enough that the key never wraps. */
  predicate Rates(full: nat, target: nat) {
    0 < target <= full && full - 1 + target < WORD
  }

  lemma TickExact(key: nat, full: nat, target: nat)
    requires Rates(full, target) && key < full
    ensures var t := Tick(key, full, target);
      t.key < full && key + target == t.key + (if t.take then full else 0)
  {
  }

  lemma {:induction false} Accounted(n: nat, full: nat, target: nat)
    requires Rates(full, target)
    ensures Key(n, full, target) < full && n * target == Taken(n, full, target) * full + Key(n, full, target)
  {
    if n > 0 {
      Accounted(n - 1, full, target);
      TickExact(Key(n - 1, full, target), full, target);
      Distribute(n - 1, 1, target);
      var q := Taken(n - 1, full, target);
      Distribute(q, 1, full);
    }
  }

  lemma Distribute(a: int, b: int, c: int)
    ensures (a + b) * c == a * c + b * c
  {
  }

  lemma Quotient(a: nat, q: int, r: nat, d: nat)
    requires r < d && a == q * d + r
    ensures a / d == q && a % d == r
  {
    var e := a / d - q;
    Distribute(a / d, -q, d);
    assert e * d == r - a % d;
    if e >= 1 { Grows(e, d); } else if e <= -1 { Grows(-e, d); }
  }

  lemma Grows(e: int, d: nat)
    requires e >= 1
    ensures e * d >= d && (-e) * d == -(e * d)
  {
    Distribute(e - 1, 1, d);
    assert (e - 1) * d >= 0;
  }

  lemma Share(n: nat, target: nat, q: nat, r: nat, full: nat)
    requires n * target == q * full + r && r < full
    ensures n * target / full == q && n * target % full == r
  {
    Quotient(n * target, q, r, full);
  }

  /** After `n` calls exactly `n * T / F` frames, rounded down, have been taken. */
  lemma TakesItsShare(n: nat, full: nat, target: nat)
    requires Rates(full, target)
    ensures Taken(n, full, target) == n * target / full && Key(n, full, target) == n * target % full
  {
    Accounted(n, full, target);
    Share(n, target, Taken(n, full, target), Key(n, full, target), full);
  }

  lemma Difference(n: nat, k: nat, target: nat, q1: nat, q2: nat, full: nat, r1: nat, r2: nat)
    requires n * target == q1 * full + r1 && (n + k) * target == q2 * full + r2
    ensures k * target == (q2 - q1) * full + (r2 - r1)
  {
    Distribute(n, k, target);
    Distribute(q2 - q1, q1, full);
  }

  /** A quotient told with a remainder off by less than the divisor either way. */
  lemma NearQuotient(a: nat, q: int, r: int, d: int)
    requires -d < r < d && a == q * d + r
    ensures q == a / d || (q == a / d + 1 && a % d != 0)
  {
    if r >= 0 {
      Quotient(a, q, r, d);
    } else {
      Distribute(q, -1, d);
      Quotient(a, q - 1, r + d, d);
    }
  }

  lemma Spread(n: nat, k: nat, target: nat, q1: nat, q2: nat, full: nat, r1: nat, r2: nat)
    requires n * target == q1 * full + r1 && (n + k) * target == q2 * full + r2 && r1 < full && r2 < full
    ensures var share := k * target / full;
      q2 - q1 == share || (q2 - q1 == share + 1 && k * target % full != 0)
  {
    Difference(n, k, target, q1, q2, full, r1, r2);
    NearQuotient(k * target, q2 - q1, r2 - r1, full);
  }

  /** Any `k` calls in a row take `k * T / F` frames, rounded down or up: the frames are spread evenly. */
  lemma SpreadEvenly(n: nat, k: nat, full: nat, target: nat)
    requires Rates(full, target)
    ensures var d := Taken(n + k, full, target) - Taken(n, full, target); var share := k * target / full;
      d == share || (d == share + 1 && k * target % full != 0)
  {
    Accounted(n, full, target);
    Accounted(n + k, full, target);
    Spread(n, k, target, Taken(n, full, target), Taken(n + k, full, target), full, Key(n, full, target),
      Key(n + k, full, target));
  }

  // ----- a target above the full rate -----

  lemma TickAbove(key: nat, full: nat, target: nat)
    requires full < target && key + target < WORD
    ensures Tick(key, full, target) == Ticked(key + target - full, true)
  {
  }

  /** Then every call takes its frame, and the key grows until it wraps. */
  lemma {:induction false} AboveTakesAll(n: nat, full: nat, target: nat, excess: nat)
    requires target == full + excess && excess > 0 && n * excess + full < WORD
    ensures Taken(n, full, target) == n && Key(n, full, target) == n * excess
  {
    if n > 0 {
      Distribute(n - 1, 1, excess);
      AboveTakesAll(n - 1, full, target, excess);
      TickAbove(Key(n - 1, full, target), full, target);
    }
  }

  /** So the share is right exactly as long as it is one frame a call. */
  lemma AboveShareIff(n: nat, full: nat, target: nat, excess: nat)
    requires target == full + excess && excess > 0 && 0 < full && n * excess + full < WORD
    ensures Taken(n, full, target) == n * target / full <==> n * excess < full
  {
    AboveTakesAll(n, full, target, excess);
    Over(n, full, target, excess);
    ShareIff(n, full, n * target, n * excess);
  }

  /** Thirty of twenty-five: after five calls five frames have been taken, where six are due. */
  lemma AboveFallsShort()
    ensures Taken(5, 25, 30) == 5 && 5 * 30 / 25 == 6
  {
    AboveTakesAll(5, 25, 30, 5);
  }

  lemma ShareIff(n: nat, full: nat, nt: nat, ne: nat)
    requires 0 < full && nt == n * full + ne
    ensures nt / full == n <==> ne < full
  {
    if ne < full { Quotient(nt, n, ne, full); }
  }

  lemma Over(n: nat, full: nat, target: nat, excess: nat)
    requires target == full + excess
    ensures n * target == n * full + n * excess
  {
  }

  class FpsCtrl {
    var full: nat
    var target: nat
    var key: nat
    /** The calls made since `Init`. */
    ghost var calls: nat

    ghost predicate Valid()
      reads this
    {
      key == Key(calls, full, target)
    }

    /** `InitFps`. */
    constructor (full: nat, target: nat)
      requires full < WORD && target < WORD
      ensures Valid() && calls == 0 && this.full == full && this.target == target
    {
      this.full, this.target, this.key, this.calls := full, target, 0, 0;
    }

    /** `FpsControl`: whether this frame is to be taken. */
    method Control() returns (take: bool)
      requires Valid()
      modifies this`key, this`calls
      ensures Valid() && calls == old(calls) + 1
      ensures Taken(calls, full, target) == Taken(old(calls), full, target) + if take then 1 else 0
    {
      take := false;
      key := (key + target) % WORD;
      if key >= full {
        key := key - full;
        take := true;
      }
      calls := calls + 1;
    }
  }
}
