/** When entries fire: the lateness bound of the wheel as written, punctuality when every deadline
    is inserted ahead of the cursor, and the lower bounds behind `next_tick`. */
module WheelTiming {
  import opened Lists
  import opened Wheel
  import opened WheelSteps
  import opened Masks

  // ---------- how each operation moves the part of the list still to be scanned ----------

  lemma InsertAhead<T>(w: Wheel<T>, key: nat, tick: nat, state: T, x: nat)
    requires Valid(w) && key !in w.entries && (x in w.entries || x == key)
    ensures Ahead(Insert(w, key, tick, state), x) <==> x != key && Ahead(w, x)
  {
    var s := w.SlotOf(tick);
    assert key !in w.lists[s];
    PrependFacts(w.lists[s], key);
  }

  // Taking k out of a list, and stepping the position over it, keeps what is ahead of the position.
  lemma WithoutAhead(xs: seq<nat>, next: Token, k: nat, x: nat)
    requires Distinct(xs) && k in xs && x != k && (next.Key? ==> next.k in xs)
    ensures var next' := if next == Key(k) then Successor(xs, k) else next;
      AheadIn(Without(xs, k), next', x) <==> AheadIn(xs, next, x)
  {
    WithoutFacts(xs, k);
    SuccessorFacts(xs, k);
    if x in xs { assert IndexOf(xs, x) != IndexOf(xs, k); }
  }

  lemma UnlinkAhead<T>(w: Wheel<T>, k: nat, x: nat)
    requires Valid(w) && k in w.entries && x != k
    ensures Linked(w, k) && (Ahead(Unlink(w, k), x) <==> Ahead(w, x))
  {
    var s := w.SlotOf(w.entries[k].tick);
    if s == w.SlotOf(w.tick) { WithoutAhead(w.lists[s], w.next, k, x); }
  }

  lemma SkipAhead<T>(w: Wheel<T>, x: nat)
    requires Valid(w) && w.next.Key? && x in w.entries
    ensures Steppable(w) && (Ahead(Skip(w), x) <==> Ahead(w, x) && x != w.next.k)
  {
    var xs := w.lists[w.SlotOf(w.tick)];
    SuccessorFacts(xs, w.next.k);
    if x in xs && x != w.next.k { assert IndexOf(xs, x) != IndexOf(xs, w.next.k); }
  }

  lemma AdvanceAhead<T>(w: Wheel<T>, x: nat)
    requires Valid(w) && w.next.Empty? && x in w.entries
    ensures !Ahead(w, x)
    ensures Ahead(Advance(w), x) <==> w.SlotOf(w.entries[x].tick) == w.SlotOf(w.tick + 1)
  {
    var xs := w.lists[w.SlotOf(w.tick + 1)];
    if x in xs { assert IndexOf(xs, xs[0]) == 0; }
  }

  lemma FireAhead<T>(w: Wheel<T>, x: nat)
    requires Valid(w) && w.next.Key? && x in w.entries && x != w.next.k
    ensures Steppable(w) && Linked(Reset(w), w.next.k) && (Ahead(Fire(w), x) <==> Ahead(w, x))
  {
    FireValid(w);
    ResetValid(w);
    UnlinkAhead(Reset(w), w.next.k, x);
  }

  // ---------- the three invariants ----------

  // No entry is left behind for more than one turn of the wheel.
  ghost predicate LateOk<T>(w: Wheel<T>, d: nat, ahead: bool) {
    w.tick <= d + w.Slots() && (w.tick == d + w.Slots() ==> ahead)
  }

  ghost predicate Late<T>(w: Wheel<T>)
    requires Valid(w)
  {
    forall k | k in w.entries :: LateOk(w, w.entries[k].tick, Ahead(w, k))
  }

  // No entry is left behind at all.
  ghost predicate PunctualOk<T>(w: Wheel<T>, d: nat, ahead: bool) { w.tick <= d && (w.tick == d ==> ahead) }

  ghost predicate Punctual<T>(w: Wheel<T>)
    requires Valid(w)
  {
    forall k | k in w.entries :: PunctualOk(w, w.entries[k].tick, Ahead(w, k))
  }

  // The slot's next_tick bounds the scanned and the newly inserted entries from below; right after
  // the cursor has loaded a slot, all entries.
  ghost predicate Bounded<T>(w: Wheel<T>, all: bool)
    requires Valid(w)
  {
    forall k | k in w.entries && (all || !Ahead(w, k)) :: w.nextTick[w.SlotOf(w.entries[k].tick)] <= w.entries[k].tick
  }

  // ---------- the lateness bound ----------

  lemma InsertLate<T>(w: Wheel<T>, key: nat, tick: nat, state: T)
    requires Valid(w) && key !in w.entries && Late(w) && tick >= w.tick
    ensures Valid(Insert(w, key, tick, state)) && Late(Insert(w, key, tick, state))
  {
    InsertValid(w, key, tick, state);
    var w' := Insert(w, key, tick, state);
    forall k | k in w'.entries ensures LateOk(w', w'.entries[k].tick, Ahead(w', k)) {
      InsertAhead(w, key, tick, state, k);
    }
  }

  lemma UnlinkLate<T>(w: Wheel<T>, k: nat)
    requires Valid(w) && k in w.entries && Late(w)
    ensures Linked(w, k) && Valid(Unlink(w, k)) && Late(Unlink(w, k))
  {
    UnlinkValid(w, k);
    var w' := Unlink(w, k);
    forall x | x in w'.entries ensures LateOk(w', w'.entries[x].tick, Ahead(w', x)) {
      UnlinkAhead(w, k, x);
    }
  }

  lemma AdvanceLate<T>(w: Wheel<T>)
    requires Valid(w) && Late(w) && w.next.Empty?
    ensures Valid(Advance(w)) && Late(Advance(w))
  {
    AdvanceValid(w);
    var w' := Advance(w);
    forall k | k in w'.entries ensures LateOk(w', w'.entries[k].tick, Ahead(w', k)) {
      AdvanceAhead(w, k);
      var d := w.entries[k].tick;
      if w'.tick == d + w.Slots() { SameSlot(d, w.Slots()); }
    }
  }

  lemma SameSlot(d: nat, n: nat)
    requires n > 0
    ensures (d + n) % n == d % n
  {
    assert d + n == (d / n + 1) * n + d % n;
    ModUnique(d + n, n, d / n + 1, d % n);
  }

  lemma SkipLate<T>(w: Wheel<T>)
    requires Valid(w) && Late(w) && w.next.Key? && Steppable(w) && !Due(w)
    ensures Valid(Skip(w)) && Late(Skip(w))
  {
    SkipValid(w);
    var w' := Skip(w);
    forall k | k in w'.entries ensures LateOk(w', w'.entries[k].tick, Ahead(w', k)) {
      SkipAhead(w, k);
    }
  }

  lemma FireLate<T>(w: Wheel<T>)
    requires Valid(w) && Late(w) && w.next.Key? && Steppable(w) && Due(w)
    ensures Linked(Reset(w), w.next.k) && Valid(Fire(w)) && Late(Fire(w))
    ensures var d := w.entries[w.next.k].tick; d <= w.tick <= d + w.Slots()
  {
    FireValid(w);
    var w' := Fire(w);
    forall k | k in w'.entries ensures LateOk(w', w'.entries[k].tick, Ahead(w', k)) {
      FireAhead(w, k);
    }
  }

  /** The lateness bound, for the code as written: whatever poll_to returns, at whatever target,
      is due, and not more than one turn of the wheel late. */
  lemma {:induction false} ScanLate<T>(w: Wheel<T>, target: nat)
    requires Valid(w) && Late(w)
    ensures var (f, w') := Scan(w, target);
      && Late(w') && w'.Slots() == w.Slots()
      && (f.Some? ==> f.entry.tick <= w'.tick <= f.entry.tick + w.Slots())
    decreases if w.tick <= target then target + 1 - w.tick else 0, Remaining(w)
  {
    if w.tick <= target {
      if w.next.Empty? {
        AdvanceLate(w);
        ScanLate(Advance(w), target);
      } else {
        SkipValid(w);
        FireValid(w);
        if Due(w) {
          FireLate(w);
        } else {
          SkipLate(w);
          ScanLate(Skip(w), target);
        }
      }
    }
  }

  // ---------- punctuality ----------

  lemma InsertPunctual<T>(w: Wheel<T>, key: nat, tick: nat, state: T)
    requires Valid(w) && key !in w.entries && Punctual(w) && tick > w.tick
    ensures Valid(Insert(w, key, tick, state)) && Punctual(Insert(w, key, tick, state))
  {
    InsertValid(w, key, tick, state);
    var w' := Insert(w, key, tick, state);
    forall k | k in w'.entries ensures PunctualOk(w', w'.entries[k].tick, Ahead(w', k)) {
      InsertAhead(w, key, tick, state, k);
    }
  }

  lemma UnlinkPunctual<T>(w: Wheel<T>, k: nat)
    requires Valid(w) && k in w.entries && Punctual(w)
    ensures Linked(w, k) && Valid(Unlink(w, k)) && Punctual(Unlink(w, k))
  {
    UnlinkValid(w, k);
    var w' := Unlink(w, k);
    forall x | x in w'.entries ensures PunctualOk(w', w'.entries[x].tick, Ahead(w', x)) {
      UnlinkAhead(w, k, x);
    }
  }

  lemma AdvancePunctual<T>(w: Wheel<T>)
    requires Valid(w) && Punctual(w) && w.next.Empty?
    ensures Valid(Advance(w)) && Punctual(Advance(w))
  {
    AdvanceValid(w);
    var w' := Advance(w);
    forall k | k in w'.entries ensures PunctualOk(w', w'.entries[k].tick, Ahead(w', k)) {
      AdvanceAhead(w, k);
    }
  }

  lemma SkipPunctual<T>(w: Wheel<T>)
    requires Valid(w) && Punctual(w) && w.next.Key? && Steppable(w) && !Due(w)
    ensures Valid(Skip(w)) && Punctual(Skip(w))
  {
    SkipValid(w);
    var w' := Skip(w);
    forall k | k in w'.entries ensures PunctualOk(w', w'.entries[k].tick, Ahead(w', k)) {
      SkipAhead(w, k);
    }
  }

  lemma FirePunctual<T>(w: Wheel<T>)
    requires Valid(w) && Punctual(w) && w.next.Key? && Steppable(w) && Due(w)
    ensures Linked(Reset(w), w.next.k) && Valid(Fire(w)) && Punctual(Fire(w))
    ensures w.entries[w.next.k].tick == w.tick
  {
    FireValid(w);
    var w' := Fire(w);
    forall k | k in w'.entries ensures PunctualOk(w', w'.entries[k].tick, Ahead(w', k)) {
      FireAhead(w, k);
    }
  }

  // ---------- the bounds ----------

  lemma InsertBounded<T>(w: Wheel<T>, key: nat, tick: nat, state: T, all: bool)
    requires Valid(w) && key !in w.entries && Bounded(w, all)
    ensures Valid(Insert(w, key, tick, state)) && Bounded(Insert(w, key, tick, state), all)
  {
    InsertValid(w, key, tick, state);
    var w' := Insert(w, key, tick, state);
    forall k | k in w'.entries && (all || !Ahead(w', k))
      ensures w'.nextTick[w'.SlotOf(w'.entries[k].tick)] <= w'.entries[k].tick
    {
      InsertAhead(w, key, tick, state, k);
    }
  }

  lemma UnlinkBounded<T>(w: Wheel<T>, k: nat, all: bool)
    requires Valid(w) && k in w.entries && Bounded(w, all)
    ensures Linked(w, k) && Valid(Unlink(w, k)) && Bounded(Unlink(w, k), all)
  {
    UnlinkValid(w, k);
    var w' := Unlink(w, k);
    forall x | x in w'.entries && (all || !Ahead(w', x))
      ensures w'.nextTick[w'.SlotOf(w'.entries[x].tick)] <= w'.entries[x].tick
    {
      UnlinkAhead(w, k, x);
    }
  }

  lemma AdvanceBounded<T>(w: Wheel<T>)
    requires Valid(w) && Bounded(w, false) && w.next.Empty?
    ensures Valid(Advance(w)) && Bounded(Advance(w), true)
  {
    AdvanceValid(w);
    var w' := Advance(w);
    forall k | k in w'.entries ensures w'.nextTick[w'.SlotOf(w'.entries[k].tick)] <= w'.entries[k].tick {
      AdvanceAhead(w, k);
    }
  }

  lemma HeadAhead(xs: seq<nat>)
    requires xs != []
    ensures forall k | k in xs :: AheadIn(xs, Key(xs[0]), k)
  {
    assert IndexOf(xs, xs[0]) == 0;
  }

  // At the head nothing has been scanned, so nothing is lost by forgetting the bound.
  lemma ResetBounded<T>(w: Wheel<T>)
    requires Valid(w) && Bounded(w, false) && w.next.Key?
    ensures Steppable(w) && Valid(Reset(w)) && Bounded(Reset(w), false)
  {
    ResetValid(w);
    var w' := Reset(w);
    var xs := w.lists[w.SlotOf(w.tick)];
    HeadAhead(xs);
    forall k | k in w'.entries && !Ahead(w', k)
      ensures w'.nextTick[w'.SlotOf(w'.entries[k].tick)] <= w'.entries[k].tick
    {
      assert !Ahead(w, k);
    }
  }

  lemma SkipBounded<T>(w: Wheel<T>)
    requires Valid(w) && Bounded(w, false) && w.next.Key?
    ensures Steppable(w) && Valid(Skip(w)) && Bounded(Skip(w), false)
  {
    SkipValid(w);
    ResetBounded(w);
    var w', w1 := Skip(w), Reset(w);
    forall k | k in w'.entries && !Ahead(w', k)
      ensures w'.nextTick[w'.SlotOf(w'.entries[k].tick)] <= w'.entries[k].tick
    {
      SkipAhead(w, k);
      assert k != w.next.k ==> !Ahead(w1, k);
    }
  }

  lemma FireBounded<T>(w: Wheel<T>)
    requires Valid(w) && Bounded(w, false) && w.next.Key?
    ensures Steppable(w) && Linked(Reset(w), w.next.k) && Valid(Fire(w)) && Bounded(Fire(w), false)
  {
    ResetBounded(w);
    UnlinkBounded(Reset(w), w.next.k, false);
  }

  // When poll_to finds nothing more, the bounds are complete.
  lemma {:induction false} ScanBounded<T>(w: Wheel<T>, target: nat)
    requires Valid(w) && Bounded(w, w.tick > target)
    ensures var (f, w') := Scan(w, target); Bounded(w', f.None?)
    decreases if w.tick <= target then target + 1 - w.tick else 0, Remaining(w)
  {
    if w.tick <= target {
      if w.next.Empty? {
        AdvanceBounded(w);
        assert Bounded(Advance(w), false);
        ScanBounded(Advance(w), target);
      } else {
        SkipValid(w);
        FireValid(w);
        FireBounded(w);
        SkipBounded(w);
        if !Due(w) { ScanBounded(Skip(w), target); }
      }
    }
  }

  lemma MinBelow(xs: seq<nat>, i: nat)
    requires i < |xs|
    ensures MinOf(xs) <= xs[i]
  {
    assert xs[i] in xs;
  }

  lemma NextTickIs<T>(w: Wheel<T>)
    requires Steppable(w)
    ensures NextTick(w) == w.tick || NextTick(w) == MinOf(w.nextTick)
  {
  }

  // next_tick is never later than a pending deadline, or than the cursor if that deadline is past.
  lemma NextTickBound<T>(w: Wheel<T>, k: nat)
    requires Valid(w) && Bounded(w, true) && k in w.entries
    ensures Steppable(w)
    ensures NextTick(w) <= Max(w.entries[k].tick, w.tick)
    ensures NextTick(w) == w.tick || NextTick(w) <= w.entries[k].tick
  {
    SteppableValid(w);
    NextTickIs(w);
    MinBelow(w.nextTick, w.SlotOf(w.entries[k].tick));
  }

  function Max(a: nat, b: nat): nat { if a < b then b else a }

  lemma NextTickBounds<T>(w: Wheel<T>)
    requires Valid(w) && Bounded(w, true)
    ensures Steppable(w) && forall k | k in w.entries :: NextTick(w) <= Max(w.entries[k].tick, w.tick)
  {
    SteppableValid(w);
    var t := NextTick(w);
    forall k | k in w.entries ensures t <= Max(w.entries[k].tick, w.tick) {
      NextTickBound(w, k);
    }
  }

  lemma PunctualPending<T>(w: Wheel<T>)
    requires Valid(w) && Punctual(w)
    ensures forall k | k in w.entries :: w.entries[k].tick >= w.tick
  {
    forall k | k in w.entries ensures w.entries[k].tick >= w.tick {
      assert PunctualOk(w, w.entries[k].tick, Ahead(w, k));
    }
  }

  /** Wakeups are never planned late: when poll_to returns None, next_tick() is at or before every
      pending deadline, or the cursor if that deadline is past. With all deadlines inserted ahead of
      the cursor none is. */
  lemma NextTickIsEarly<T>(w: Wheel<T>, target: nat)
    requires Valid(w) && Bounded(w, false) && PollTo(w, target).0.None?
    ensures var w' := PollTo(w, target).1;
      && Steppable(w') && (forall k | k in w'.entries :: NextTick(w') <= Max(w'.entries[k].tick, w'.tick))
      && (Punctual(w) ==> forall k | k in w'.entries :: w'.entries[k].tick >= w'.tick)
  {
    ScanBounded(w, Target(w, target));
    NextTickBounds(PollTo(w, target).1);
    if Punctual(w) {
      ScanPunctual(w, Target(w, target));
      PunctualPending(PollTo(w, target).1);
    }
  }

  lemma {:induction false} ScanPunctual<T>(w: Wheel<T>, target: nat)
    requires Valid(w) && Punctual(w)
    ensures var (f, w') := Scan(w, target);
      && Punctual(w')
      && (f.Some? ==> f.entry.tick == w'.tick <= target)
      && (f.None? ==> w'.tick == if w.tick <= target then target + 1 else w.tick)
      && w.tick <= w'.tick
    decreases if w.tick <= target then target + 1 - w.tick else 0, Remaining(w)
  {
    if w.tick <= target {
      if w.next.Empty? {
        AdvancePunctual(w);
        ScanPunctual(Advance(w), target);
      } else {
        SkipValid(w);
        FireValid(w);
        if Due(w) {
          FirePunctual(w);
        } else {
          SkipPunctual(w);
          ScanPunctual(Skip(w), target);
        }
      }
    }
  }
}
