/** Whole runs of a timer: any mix of set_timeout_at, cancel_timeout and poll_to, from a new wheel,
    also with a scan of a slot interrupted half-way. */
module WheelRuns {
  import opened Wheel
  import opened WheelSteps
  import opened WheelTiming
  import opened WheelDrain

  // `key` is the free key that the slab hands out.
  datatype Op<T> =
    | SetTimeout(request: nat, key: nat, state: T)
    | CancelTimeout(handle: nat, tick: nat)
    | Poll(target: nat)

  // The wheel, and which of the insertions so far (by number) were cancelled and which fired.
  datatype History<T> = History(wheel: Wheel<T>, cancelled: set<nat>, fired: set<nat>)

  predicate Allowed<T>(w: Wheel<T>, op: Op<T>) { op.SetTimeout? ==> op.key !in w.entries }

  function Stamp<T>(f: Fired<T>): set<nat> { if f.Some? then {f.entry.born} else {} }

  function Apply<T>(h: History<T>, op: Op<T>): History<T>
    requires Valid(h.wheel) && Allowed(h.wheel, op)
  {
    match op
    case SetTimeout(request, key, state) => h.(wheel := Insert(h.wheel, key, Adjusted(h.wheel, request), state))
    case CancelTimeout(handle, tick) =>
      var (w', f) := Cancel(h.wheel, handle, tick);
      h.(wheel := w', cancelled := h.cancelled + Stamp(f))
    case Poll(target) =>
      var (f, w') := PollTo(h.wheel, target);
      h.(wheel := w', fired := h.fired + Stamp(f))
  }

  ghost predicate Run<T>(hs: seq<History<T>>, ops: seq<Op<T>>, slots: nat) {
    && |hs| == |ops| + 1 && slots > 0 && hs[0] == History(New(slots), {}, {})
    && forall i | 0 <= i < |ops| ::
         Valid(hs[i].wheel) && Allowed(hs[i].wheel, ops[i]) && hs[i + 1] == Apply(hs[i], ops[i])
  }

  // ---------- every insertion is pending, cancelled or fired, and only one of these ----------

  ghost predicate Pending<T>(w: Wheel<T>, b: nat) { exists k :: k in w.entries && w.entries[k].born == b }

  ghost predicate Account<T>(h: History<T>) {
    && Separate(h) && Complete(h)
    && h.wheel.clock == |h.wheel.entries| + |h.cancelled| + |h.fired|
  }

  // No insertion is accounted for twice.
  ghost predicate Separate<T>(h: History<T>) {
    && (forall k | k in h.wheel.entries ::
          var b := h.wheel.entries[k].born; b < h.wheel.clock && b !in h.cancelled && b !in h.fired)
    && (forall j, k | j in h.wheel.entries && k in h.wheel.entries && j != k ::
          h.wheel.entries[j].born != h.wheel.entries[k].born)
    && h.cancelled !! h.fired
    && (forall b :: b in h.cancelled || b in h.fired ==> b < h.wheel.clock)
  }

  // None is forgotten.
  ghost predicate Complete<T>(h: History<T>) {
    forall b | 0 <= b < h.wheel.clock :: b in h.cancelled || b in h.fired || Pending(h.wheel, b)
  }

  lemma CompleteInsert<T>(h: History<T>, key: nat, tick: nat, state: T)
    requires Valid(h.wheel) && key !in h.wheel.entries && Complete(h)
    ensures Complete(h.(wheel := Insert(h.wheel, key, tick, state)))
  {
    var w, w' := h.wheel, Insert(h.wheel, key, tick, state);
    assert w'.entries[key].born == w.clock;
    forall b | 0 <= b < w'.clock ensures b in h.cancelled || b in h.fired || Pending(w', b) {
      if b < w.clock && Pending(w, b) {
        var k :| k in w.entries && w.entries[k].born == b;
        assert w'.entries[k].born == b;
      }
    }
  }

  lemma SeparateInsert<T>(h: History<T>, key: nat, tick: nat, state: T)
    requires Valid(h.wheel) && key !in h.wheel.entries && Separate(h)
    ensures Separate(h.(wheel := Insert(h.wheel, key, tick, state)))
  {
    var es, es' := h.wheel.entries, Insert(h.wheel, key, tick, state).entries;
    forall j, k | j in es' && k in es' && j != k ensures es'[j].born != es'[k].born {
      assert j != key ==> es'[j] == es[j];
      assert k != key ==> es'[k] == es[k];
    }
  }

  lemma AccountInsert<T>(h: History<T>, key: nat, tick: nat, state: T)
    requires Valid(h.wheel) && key !in h.wheel.entries && Account(h)
    ensures Account(h.(wheel := Insert(h.wheel, key, tick, state)))
  {
    CompleteInsert(h, key, tick, state);
    SeparateInsert(h, key, tick, state);
    assert Insert(h.wheel, key, tick, state).entries.Keys == h.wheel.entries.Keys + {key};
  }

  ghost predicate RemovedFrom<T>(h: History<T>, k: nat, h': History<T>) {
    && k in h.wheel.entries && h'.wheel.entries == h.wheel.entries - {k} && h'.wheel.clock == h.wheel.clock
    && var b := h.wheel.entries[k].born;
      || (h'.cancelled == h.cancelled + {b} && h'.fired == h.fired)
      || (h'.cancelled == h.cancelled && h'.fired == h.fired + {b})
  }

  // An entry that leaves the wheel is written down once.
  lemma AccountRemove<T>(h: History<T>, k: nat, h': History<T>)
    requires Account(h) && RemovedFrom(h, k, h')
    ensures Account(h')
  {
    assert h'.wheel.entries.Keys == h.wheel.entries.Keys - {k};
    CompleteRemove(h, k, h');
  }

  lemma CompleteRemove<T>(h: History<T>, k: nat, h': History<T>)
    requires Complete(h) && RemovedFrom(h, k, h')
    ensures Complete(h')
  {
    var w, w' := h.wheel, h'.wheel;
    forall b | 0 <= b < w'.clock ensures b in h'.cancelled || b in h'.fired || Pending(w', b) {
      if Pending(w, b) && b != w.entries[k].born {
        var j :| j in w.entries && w.entries[j].born == b;
        assert w'.entries[j].born == b;
      }
    }
  }

  lemma AccountKept<T>(h: History<T>, w': Wheel<T>)
    requires Account(h) && w'.entries == h.wheel.entries && w'.clock == h.wheel.clock
    ensures Account(History(w', h.cancelled, h.fired))
  {
    forall b | Pending(h.wheel, b) ensures Pending(w', b) {
      var k :| k in h.wheel.entries && h.wheel.entries[k].born == b;
      assert w'.entries[k].born == b;
    }
  }

  lemma CancelAccount<T>(h: History<T>, op: Op<T>)
    requires Valid(h.wheel) && op.CancelTimeout? && Account(h)
    ensures Account(Apply(h, op))
  {
    var w, h' := h.wheel, Apply(h, op);
    if op.handle in w.entries && w.entries[op.handle].tick == op.tick {
      UnlinkValid(w, op.handle);
      AccountRemove(h, op.handle, h');
    } else {
      AccountKept(h, w);
      assert h.cancelled + {} == h.cancelled;
    }
  }

  lemma PollAccount<T>(h: History<T>, op: Op<T>)
    requires Valid(h.wheel) && op.Poll? && Account(h)
    ensures Account(Apply(h, op))
  {
    PollMoves(h.wheel, op.target);
    var (f, w') := PollTo(h.wheel, op.target);
    if f.Some? {
      AccountRemove(h, f.key, History(w', h.cancelled, h.fired + {f.entry.born}));
    } else {
      AccountKept(h, w');
      assert h.fired + {} == h.fired;
    }
  }

  lemma ApplyAccount<T>(h: History<T>, op: Op<T>)
    requires Valid(h.wheel) && Allowed(h.wheel, op) && Account(h)
    ensures Account(Apply(h, op))
  {
    match op
    case SetTimeout(request, key, state) => AccountInsert(h, key, Adjusted(h.wheel, request), state);
    case CancelTimeout(_, _) => CancelAccount(h, op);
    case Poll(_) => PollAccount(h, op);
  }

  // ---------- what every operation keeps ----------

  ghost predicate Inv<T>(w: Wheel<T>, slots: nat) {
    Valid(w) && w.Slots() == slots && Late(w) && Bounded(w, false) && Newest(w)
  }

  lemma NewInv<T>(slots: nat)
    requires slots > 0
    ensures Inv<T>(New(slots), slots) && Punctual<T>(New(slots))
  {
    var w: Wheel<T> := New(slots);
    assert Valid(w);
    forall s | 0 <= s < slots ensures Sorted(w.lists[s], w.entries) {}
  }

  lemma InsertInv<T>(w: Wheel<T>, slots: nat, key: nat, tick: nat, state: T)
    requires Inv(w, slots) && key !in w.entries && tick >= w.tick
    ensures Inv(Insert(w, key, tick, state), slots)
  {
    InsertLate(w, key, tick, state);
    InsertBounded(w, key, tick, state, false);
    InsertNewest(w, key, tick, state);
  }

  lemma UnlinkInv<T>(w: Wheel<T>, slots: nat, k: nat)
    requires Inv(w, slots) && k in w.entries
    ensures Linked(w, k) && Inv(Unlink(w, k), slots)
  {
    UnlinkLate(w, k);
    UnlinkBounded(w, k, false);
    UnlinkNewest(w, k);
  }

  // The order of insertion survives a scan of any wheel, punctual or not.
  lemma {:induction false} ScanSorted<T>(w: Wheel<T>, target: nat)
    requires Valid(w) && Newest(w)
    ensures Newest(Scan(w, target).1)
    decreases if w.tick <= target then target + 1 - w.tick else 0, Remaining(w)
  {
    if w.tick <= target {
      if w.next.Empty? {
        AdvanceValid(w);
        ScanSorted(Advance(w), target);
      } else {
        SkipValid(w);
        FireValid(w);
        if Due(w) {
          ResetValid(w);
          UnlinkNewest(Reset(w), w.next.k);
        } else {
          ScanSorted(Skip(w), target);
        }
      }
    }
  }

  lemma PollInv<T>(w: Wheel<T>, slots: nat, target: nat)
    requires Inv(w, slots)
    ensures Inv(PollTo(w, target).1, slots)
  {
    PollMoves(w, target);
    ScanLate(w, Target(w, target));
    ScanBounded(w, Target(w, target));
    ScanSorted(w, Target(w, target));
  }

  lemma ApplyInv<T>(h: History<T>, op: Op<T>, slots: nat)
    requires Valid(h.wheel) && Allowed(h.wheel, op) && Inv(h.wheel, slots)
    ensures Inv(Apply(h, op).wheel, slots)
  {
    var w := h.wheel;
    match op
    case SetTimeout(request, key, state) => InsertInv(w, slots, key, Adjusted(w, request), state);
    case CancelTimeout(handle, tick) => if handle in w.entries { UnlinkInv(w, slots, handle); }
    case Poll(target) => PollInv(w, slots, target);
  }

  /** After any run the lists are well formed, the bounds hold for what was scanned or inserted, the
      lists are in order of insertion, and every insertion is accounted for. */
  lemma {:induction false} RunInv<T>(hs: seq<History<T>>, ops: seq<Op<T>>, slots: nat, i: nat)
    requires Run(hs, ops, slots) && i < |hs|
    ensures Inv(hs[i].wheel, slots) && Account(hs[i])
  {
    if i == 0 {
      NewInv<T>(slots);
    } else {
      RunInv(hs, ops, slots, i - 1);
      ApplyInv(hs[i - 1], ops[i - 1], slots);
      ApplyAccount(hs[i - 1], ops[i - 1]);
    }
  }

  // ---------- theorems ----------

  // Where an insertion has gone.
  ghost predicate OnlyPending<T>(h: History<T>, b: nat) { Pending(h.wheel, b) && b !in h.cancelled && b !in h.fired }

  ghost predicate OnlyCancelled<T>(h: History<T>, b: nat) { !Pending(h.wheel, b) && b in h.cancelled && b !in h.fired }

  ghost predicate OnlyFired<T>(h: History<T>, b: nat) { !Pending(h.wheel, b) && b !in h.cancelled && b in h.fired }

  lemma AccountOfOne<T>(h: History<T>, b: nat)
    requires Account(h)
    ensures b < h.wheel.clock <==> OnlyPending(h, b) || OnlyCancelled(h, b) || OnlyFired(h, b)
  {
    if Pending(h.wheel, b) {
      var k :| k in h.wheel.entries && h.wheel.entries[k].born == b;
    }
  }

  /** In every run every insertion is pending, cancelled or fired, exactly one of these, so that
      inserted = pending + cancelled + fired. */
  lemma Conservation<T>(hs: seq<History<T>>, ops: seq<Op<T>>, slots: nat, i: nat)
    requires Run(hs, ops, slots) && i < |hs|
    ensures var h := hs[i]; h.wheel.clock == |h.wheel.entries| + |h.cancelled| + |h.fired|
    ensures var h := hs[i];
      forall b: nat :: b < h.wheel.clock <==> OnlyPending(h, b) || OnlyCancelled(h, b) || OnlyFired(h, b)
  {
    RunInv(hs, ops, slots, i);
    forall b: nat
      ensures b < hs[i].wheel.clock <==> OnlyPending(hs[i], b) || OnlyCancelled(hs[i], b) || OnlyFired(hs[i], b)
    {
      AccountOfOne(hs[i], b);
    }
  }

  /** In every run, with no condition on the deadlines, a timeout never fires before the cursor has
      reached its tick, and never more than one turn of the wheel after; no entry is overdue by more than that, and one
      overdue by that much is still to be looked at in the slot being scanned. */
  lemma NeverMoreThanOneTurnLate<T>(hs: seq<History<T>>, ops: seq<Op<T>>, slots: nat, i: nat)
    requires Run(hs, ops, slots) && i < |ops|
    ensures var w := hs[i].wheel; forall k | k in w.entries ::
              w.tick <= w.entries[k].tick + slots && (w.tick == w.entries[k].tick + slots ==> Ahead(w, k))
    ensures ops[i].Poll? ==>
      var (f, w') := PollTo(hs[i].wheel, ops[i].target);
      f.Some? ==> f.entry.tick <= w'.tick <= f.entry.tick + slots
  {
    RunInv(hs, ops, slots, i);
    var w := hs[i].wheel;
    assert forall k | k in w.entries :: LateOk(w, w.entries[k].tick, Ahead(w, k));
    if ops[i].Poll? { ScanLate(w, Target(w, ops[i].target)); }
  }

  lemma ApplyPunctual<T>(h: History<T>, op: Op<T>)
    requires Valid(h.wheel) && Allowed(h.wheel, op) && Punctual(h.wheel)
    ensures Valid(Apply(h, op).wheel)
    ensures Punctual(Apply(h, op).wheel) <==> !(op.SetTimeout? && op.request == h.wheel.tick)
  {
    var w := h.wheel;
    match op
    case SetTimeout(request, key, state) => PunctualInsert(w, key, request, state);
    case CancelTimeout(handle, tick) => if handle in w.entries { UnlinkPunctual(w, handle); }
    case Poll(target) => ScanPunctual(w, Target(w, target));
  }

  lemma {:induction false} RunPunctual<T>(hs: seq<History<T>>, ops: seq<Op<T>>, slots: nat, i: nat)
    requires Run(hs, ops, slots) && i < |hs|
    requires forall j | 0 <= j < |ops| && ops[j].SetTimeout? :: ops[j].request != hs[j].wheel.tick
    ensures Valid(hs[i].wheel) && Punctual(hs[i].wheel)
  {
    if i == 0 {
      NewInv<T>(slots);
    } else {
      RunPunctual(hs, ops, slots, i - 1);
      ApplyPunctual(hs[i - 1], ops[i - 1]);
    }
  }

  ghost predicate AlwaysPunctual<T>(hs: seq<History<T>>) {
    forall i | 0 <= i < |hs| :: Valid(hs[i].wheel) && Punctual(hs[i].wheel)
  }

  /** The wheel is punctual throughout a run, that is no pending entry has ever been passed by the
      cursor, exactly when no timeout was ever set for the cursor's own tick. */
  lemma PunctualExactly<T>(hs: seq<History<T>>, ops: seq<Op<T>>, slots: nat)
    requires Run(hs, ops, slots)
    ensures AlwaysPunctual(hs)
            <==> forall j | 0 <= j < |ops| && ops[j].SetTimeout? :: ops[j].request != hs[j].wheel.tick
  {
    if AlwaysPunctual(hs) {
      forall j | 0 <= j < |ops| && ops[j].SetTimeout? ensures ops[j].request != hs[j].wheel.tick {
        assert Punctual(hs[j + 1].wheel);
        ApplyPunctual(hs[j], ops[j]);
      }
    } else if forall j | 0 <= j < |ops| && ops[j].SetTimeout? :: ops[j].request != hs[j].wheel.tick {
      forall i | 0 <= i < |hs| ensures Valid(hs[i].wheel) && Punctual(hs[i].wheel) { RunPunctual(hs, ops, slots, i); }
    }
  }
}
