/** Durations, milliseconds and ticks (src/lib.rs:48-56, src/timer.rs:138-145, 332-336). */
module TimeArithmetic {

  const U64_MAX: nat := 0xFFFF_FFFF_FFFF_FFFF
  const NANOS_PER_MILLI: nat := 1_000_000
  const NANOS_PER_SEC: nat := 1_000_000_000
  const MILLIS_PER_SEC: nat := 1_000

  // std::time::Duration
  datatype Duration = Duration(secs: nat, nanos: nat) {
    predicate Valid() { secs <= U64_MAX && nanos < NANOS_PER_SEC }

    function TotalNanos(): nat { secs * NANOS_PER_SEC + nanos }
  }

  function SaturatingAdd(a: nat, b: nat): nat { if a + b <= U64_MAX then a + b else U64_MAX }

  function SaturatingMul(a: nat, b: nat): nat { if a * b <= U64_MAX then a * b else U64_MAX }

  // convert::millis
  function Millis(d: Duration): nat {
    SaturatingAdd(SaturatingMul(d.secs, MILLIS_PER_SEC), (d.nanos + NANOS_PER_MILLI - 1) / NANOS_PER_MILLI)
  }

  function DurationToTick(elapsed: Duration, tickMs: nat): nat
    requires tickMs > 0
  {
    Quotient(SaturatingAdd(Millis(elapsed), tickMs / 2), tickMs)
  }

  function Quotient(x: nat, t: nat): nat
    requires t > 0
  {
    x / t
  }

  // Neither conversion reaches the end of the u64 range.
  predicate InRange(d: Duration, tickMs: nat) {
    d.Valid() && d.secs * MILLIS_PER_SEC + MILLIS_PER_SEC + tickMs / 2 <= U64_MAX
  }

  // millis is the exact ceiling.
  lemma MillisIsCeiling(d: Duration)
    requires d.Valid() && d.secs * MILLIS_PER_SEC + MILLIS_PER_SEC <= U64_MAX
    ensures (Millis(d) - 1) * NANOS_PER_MILLI < d.TotalNanos() <= Millis(d) * NANOS_PER_MILLI
  {
    var part := (d.nanos + NANOS_PER_MILLI - 1) / NANOS_PER_MILLI;
    assert part <= MILLIS_PER_SEC;
    assert Millis(d) == d.secs * MILLIS_PER_SEC + part;
  }

  lemma DivBounds(x: nat, t: nat)
    requires t > 0
    ensures x / t * t <= x < (x / t + 1) * t
  {
  }

  lemma DivMonotone(x: nat, y: nat, t: nat)
    requires t > 0 && x <= y
    ensures x / t <= y / t
  {
    DivBounds(x, t);
    DivBounds(y, t);
    if x / t > y / t {
      assert (y / t + 1) * t <= x / t * t by { MulMonotone(y / t + 1, x / t, t); }
      assert false;
    }
  }

  lemma MulMonotone(a: nat, b: nat, t: nat)
    requires a <= b
    ensures a * t <= b * t
  {
  }

  // The tick of a duration is the nearest one: off by at most half a tick.
  lemma TickIsNearest(d: Duration, tickMs: nat)
    requires tickMs > 0 && InRange(d, tickMs)
    ensures var tick := DurationToTick(d, tickMs); var ms := Millis(d);
      ms - tickMs / 2 <= tick * tickMs <= ms + tickMs / 2
  {
    MillisIsCeiling(d);
    DivBounds(Millis(d) + tickMs / 2, tickMs);
  }

  // A later point in time has no earlier tick, saturated or not.
  lemma TickIsMonotone(d: Duration, e: Duration, tickMs: nat)
    requires tickMs > 0 && d.Valid() && e.Valid() && d.TotalNanos() <= e.TotalNanos()
    ensures Millis(d) <= Millis(e) && DurationToTick(d, tickMs) <= DurationToTick(e, tickMs)
  {
    assert d.secs <= e.secs;
    MillisMonotone(d, e);
    DivMonotone(SaturatingAdd(Millis(d), tickMs / 2), SaturatingAdd(Millis(e), tickMs / 2), tickMs);
  }

  lemma MillisMonotone(d: Duration, e: Duration)
    requires d.Valid() && e.Valid() && d.secs <= e.secs && (d.secs == e.secs ==> d.nanos <= e.nanos)
    ensures Millis(d) <= Millis(e)
  {
    var part := (d.nanos + NANOS_PER_MILLI - 1) / NANOS_PER_MILLI;
    var part' := (e.nanos + NANOS_PER_MILLI - 1) / NANOS_PER_MILLI;
    assert part <= MILLIS_PER_SEC;
    if d.secs == e.secs {
      DivMonotone(d.nanos + NANOS_PER_MILLI - 1, e.nanos + NANOS_PER_MILLI - 1, NANOS_PER_MILLI);
    }
  }

  // A timeout due at d and found due at e is early by less than one tick.
  lemma EarlyByLessThanATick(d: Duration, e: Duration, tickMs: nat)
    requires tickMs > 0 && InRange(d, tickMs) && InRange(e, tickMs)
    requires DurationToTick(e, tickMs) >= DurationToTick(d, tickMs)
    ensures Millis(e) > Millis(d) - tickMs
  {
    var i, j := DurationToTick(d, tickMs), DurationToTick(e, tickMs);
    MillisIsCeiling(d);
    MillisIsCeiling(e);
    DivBounds(Millis(d) + tickMs / 2, tickMs);
    DivBounds(Millis(e) + tickMs / 2, tickMs);
    MulMonotone(i, j, tickMs);
    assert (i + 1) * tickMs == i * tickMs + tickMs;
  }

  // Sleeping for the wakeup thread's park time, in whole milliseconds, reaches the tick slept for.
  lemma ParkReachesTick(start: Duration, end: Duration, until: nat, tickMs: nat)
    requires tickMs > 0 && InRange(start, tickMs) && InRange(end, tickMs)
    requires DurationToTick(start, tickMs) < until
    requires end.TotalNanos() >= start.TotalNanos() + tickMs * (until - DurationToTick(start, tickMs)) * NANOS_PER_MILLI
    ensures DurationToTick(end, tickMs) >= until
  {
    var now := DurationToTick(start, tickMs);
    var sleep := tickMs * (until - now);
    MillisIsCeiling(start);
    MillisIsCeiling(end);
    assert (Millis(start) - 1 + sleep) * NANOS_PER_MILLI < Millis(end) * NANOS_PER_MILLI;
    assert Millis(end) >= Millis(start) + sleep;
    DivBounds(Millis(start) + tickMs / 2, tickMs);
    assert until * tickMs == now * tickMs + sleep;
    DivMonotone(until * tickMs, Millis(end) + tickMs / 2, tickMs);
    assert until * tickMs / tickMs == until by { DivExact(until, tickMs); }
  }

  lemma DivExact(a: nat, t: nat)
    requires t > 0
    ensures a * t / t == a
  {
    DivBounds(a * t, t);
    var q := a * t / t;
    assert (a + 1) * t == a * t + t;
    if q < a { MulMonotone(q + 1, a, t); }
    if q > a { MulMonotone(a + 1, q, t); }
  }
}
