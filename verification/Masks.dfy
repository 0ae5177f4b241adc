/** The wheel's slot mask: `tick & mask` for a power-of-two number of slots
    (src/timer.rs:151-153, 311-313). */
module Masks {

  // The bitwise and of two non-negative numbers.
  function And(x: nat, y: nat): nat {
    if x == 0 || y == 0 then 0 else 2 * And(x / 2, y / 2) + (x % 2) * (y % 2)
  }

  function Pow2(k: nat): (p: nat)
    ensures p > 0
  {
    if k == 0 then 1 else 2 * Pow2(k - 1)
  }

  ghost predicate IsPowerOfTwo(n: nat) { exists k: nat :: Pow2(k) == n }

  // usize::next_power_of_two
  function NextPowerOfTwo(n: nat): (p: nat)
    ensures p > 0
  {
    Grow(1, n)
  }

  function Grow(p: nat, n: nat): (r: nat)
    requires p > 0
    ensures r > 0
    decreases n - p
  {
    if p >= n then p else Grow(2 * p, n)
  }

  lemma {:induction false} GrowIsPower(k: nat, n: nat)
    ensures IsPowerOfTwo(Grow(Pow2(k), n)) && Grow(Pow2(k), n) >= n
    ensures Pow2(k) < 2 * n ==> Grow(Pow2(k), n) < 2 * n
    decreases n - Pow2(k)
  {
    if Pow2(k) < n {
      assert Pow2(k + 1) == 2 * Pow2(k);
      GrowIsPower(k + 1, n);
    }
  }

  // The number of slots is the least power of two that is large enough.
  lemma SlotsArePowerOfTwo(n: nat)
    ensures IsPowerOfTwo(NextPowerOfTwo(n)) && NextPowerOfTwo(n) >= n
    ensures n > 0 ==> NextPowerOfTwo(n) < 2 * n
  {
    assert Pow2(0) == 1;
    GrowIsPower(0, n);
  }

  lemma {:induction false} AndMask(x: nat, k: nat)
    ensures And(x, Pow2(k) - 1) == x % Pow2(k)
  {
    if k == 0 {
      assert Pow2(0) == 1 && x % 1 == 0;
    } else if x == 0 {
      ModUnique(0, Pow2(k), 0, 0);
    } else {
      var p := Pow2(k - 1);
      AndMask(x / 2, k - 1);
      AndHalves(x, p, Pow2(k));
    }
  }

  lemma AndHalves(x: nat, p: nat, p2: nat)
    requires x > 0 && p > 0 && p2 == 2 * p && And(x / 2, p - 1) == x / 2 % p
    ensures And(x, p2 - 1) == x % p2
  {
    AndOdd(x, p);
    HalfMod(x, p);
  }

  lemma AndOdd(x: nat, p: nat)
    requires x > 0 && p > 0
    ensures And(x, 2 * p - 1) == 2 * And(x / 2, p - 1) + x % 2
  {
    var m := 2 * p - 1;
    assert m / 2 == p - 1 && m % 2 == 1;
  }

  lemma HalfMod(x: nat, p: nat)
    requires p > 0
    ensures x % (2 * p) == 2 * (x / 2 % p) + x % 2
  {
    var q, r := x / 2 / p, x / 2 % p;
    assert x / 2 == q * p + r;
    assert x == q * (2 * p) + (2 * r + x % 2);
    ModUnique(x, 2 * p, q, 2 * r + x % 2);
  }

  lemma ModUnique(x: nat, m: nat, q: nat, r: nat)
    requires m > 0 && x == q * m + r && r < m
    ensures x % m == r
  {
    var q' := x / m;
    assert x == q' * m + x % m;
    if q' > q { MulLess(q, q', m); }
    if q' < q { MulLess(q', q, m); }
  }

  lemma {:induction false} MulLess(a: nat, b: nat, m: nat)
    requires a < b
    ensures a * m + m <= b * m
    decreases b
  {
    assert b * m == (b - 1) * m + m;
    if a < b - 1 { MulLess(a, b - 1, m); }
  }

  // tick & mask is the tick modulo the number of slots.
  lemma SlotIsModulo(tick: nat, slots: nat)
    requires IsPowerOfTwo(slots)
    ensures slots > 0 && And(slots - 1, tick) == tick % slots
  {
    var k: nat :| Pow2(k) == slots;
    AndMask(tick, k);
    AndCommutes(slots - 1, tick);
  }

  lemma {:induction false} AndCommutes(x: nat, y: nat)
    ensures And(x, y) == And(y, x)
  {
    if x > 0 && y > 0 { AndCommutes(x / 2, y / 2); }
  }
}
