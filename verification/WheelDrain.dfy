/** Polling until nothing more is due (src/net/event_loop.rs:129-131): what a drain returns, in
    which order, and what an entry inserted at the cursor itself costs. */
module WheelDrain {
  import opened Lists
  import opened Wheel
  import opened WheelSteps
  import opened WheelTiming
  import Masks

  lemma StepMoves<T>(w: Wheel<T>)
    requires Valid(w) && w.next.Key?
    ensures Steppable(w) && Linked(Reset(w), w.next.k)
    ensures var w' := Fire(w);
      && w'.tick == w.tick && w'.Slots() == w.Slots() && w'.clock == w.clock
      && w'.entries == w.entries - {w.next.k}
    ensures var w' := Skip(w);
      w'.tick == w.tick && w'.Slots() == w.Slots() && w'.clock == w.clock && w'.entries == w.entries
  {
    FireValid(w);
  }

  // The cursor only moves forward, and gets past `target` exactly when nothing is returned.
  lemma {:induction false} ScanCursor<T>(w: Wheel<T>, target: nat)
    requires Valid(w)
    ensures var (f, w') := Scan(w, target);
      && w.tick <= w'.tick && w'.Slots() == w.Slots() && w'.clock == w.clock
      && (f.None? ==> w'.tick == if w.tick <= target then target + 1 else w.tick)
      && (f.Some? ==> f.entry.tick <= w'.tick <= target)
    decreases if w.tick <= target then target + 1 - w.tick else 0, Remaining(w)
  {
    if w.tick <= target {
      if w.next.Empty? {
        AdvanceValid(w);
        ScanCursor(Advance(w), target);
      } else {
        SkipValid(w);
        FireValid(w);
        StepMoves(w);
        if !Due(w) { ScanCursor(Skip(w), target); }
      }
    }
  }

  // One call takes out the entry it returns and no other.
  lemma {:induction false} ScanEntries<T>(w: Wheel<T>, target: nat)
    requires Valid(w)
    ensures var (f, w') := Scan(w, target);
      && (f.None? ==> w'.entries == w.entries)
      && (f.Some? ==> f.key in w.entries && f.entry == w.entries[f.key] && w'.entries == w.entries - {f.key})
    decreases if w.tick <= target then target + 1 - w.tick else 0, Remaining(w)
  {
    if w.tick <= target {
      if w.next.Empty? {
        AdvanceValid(w);
        ScanEntries(Advance(w), target);
      } else {
        SkipValid(w);
        FireValid(w);
        StepMoves(w);
        if !Due(w) { ScanEntries(Skip(w), target); }
      }
    }
  }

  lemma PollMoves<T>(w: Wheel<T>, target: nat)
    requires Valid(w)
    ensures var (f, w') := PollTo(w, target);
      && w.tick <= w'.tick && w'.Slots() == w.Slots() && w'.clock == w.clock
      && (f.None? ==> w'.entries == w.entries && w'.tick == Target(w, target) + 1)
      && (f.Some? ==> f.key in w.entries && f.entry == w.entries[f.key] && w'.entries == w.entries - {f.key}
                      && f.entry.tick <= w'.tick <= Target(w, target) && |w'.entries| + 1 == |w.entries|)
  {
    ScanCursor(w, Target(w, target));
    ScanEntries(w, Target(w, target));
    var (f, w') := PollTo(w, target);
    if f.Some? { assert w.entries.Keys == w'.entries.Keys + {f.key}; }
  }

  // Readings of the clock, one for each poll that might be made.
  ghost predicate Readings<T>(w: Wheel<T>, clock: seq<nat>) {
    |clock| > |w.entries| && forall i, j | 0 <= i <= j < |clock| :: clock[i] <= clock[j]
  }

  // `while let Some(t) = timer.poll()`, where each poll reads the clock again: the entries
  // returned, in order, and the wheel afterwards.
  function Drain<T>(w: Wheel<T>, clock: seq<nat>): (r: (seq<Fired<T>>, Wheel<T>))
    requires Valid(w) && |clock| > |w.entries|
    ensures Valid(r.1) && |r.0| < |clock|
    decreases |clock|
  {
    PollMoves(w, clock[0]);
    var (f, w1) := PollTo(w, clock[0]);
    if f.None? then ([], w1) else
      var (fs, w2) := Drain(w1, clock[1..]);
      ([f] + fs, w2)
  }

  // The tick that the last poll of the drain, the one that finds nothing, looks up to.
  function Last<T>(w: Wheel<T>, clock: seq<nat>): nat
    requires Valid(w) && |clock| > |w.entries|
  {
    Target(w, clock[|Drain(w, clock).0|])
  }

  lemma LaterReadings<T>(w: Wheel<T>, w1: Wheel<T>, clock: seq<nat>, n: nat)
    requires Readings(w, clock) && |w1.entries| < |w.entries| && n + 1 < |clock|
    requires w.tick <= w1.tick <= Target(w, clock[0])
    ensures Readings(w1, clock[1..]) && Target(w1, clock[1..][n]) == Target(w, clock[n + 1]) >= Target(w, clock[0])
  {
    assert clock[1..][n] == clock[n + 1] >= clock[0];
  }

  // The first poll of a drain, and the drain that is left.
  lemma DrainHead<T>(w: Wheel<T>, clock: seq<nat>)
    requires Valid(w) && Readings(w, clock)
    ensures var (f, w1) := PollTo(w, clock[0]);
      && (f.None? ==> Drain(w, clock) == ([], w1) && Last(w, clock) == Target(w, clock[0]))
      && (f.Some? ==> Readings(w1, clock[1..])
                      && Drain(w, clock) == ([f] + Drain(w1, clock[1..]).0, Drain(w1, clock[1..]).1)
                      && Last(w1, clock[1..]) == Last(w, clock) >= Target(w, clock[0]))
  {
    PollMoves(w, clock[0]);
    var (f, w1) := PollTo(w, clock[0]);
    if f.Some? {
      var rest := Drain(w1, clock[1..]).0;
      LaterReadings(w, w1, clock, |rest|);
      assert |[f] + rest| == |rest| + 1;
    }
  }

  ghost predicate Occurs<T>(fs: seq<Fired<T>>, k: nat) { exists i :: 0 <= i < |fs| && fs[i].Some? && fs[i].key == k }

  // Every element is an entry of w, and no key comes twice.
  ghost predicate Once<T>(fs: seq<Fired<T>>, w: Wheel<T>) {
    && (forall i | 0 <= i < |fs| :: fs[i].Some? && fs[i].key in w.entries && fs[i].entry == w.entries[fs[i].key])
    && (forall i, j | 0 <= i < j < |fs| :: fs[i].Some? && fs[j].Some? ==> fs[i].key != fs[j].key)
  }

  // The drain splits the entries: each is either returned, once, or still there unchanged.
  lemma {:induction false} DrainSplits<T>(w: Wheel<T>, clock: seq<nat>)
    requires Valid(w) && Readings(w, clock)
    ensures var (fs, w') := Drain(w, clock);
      && w'.tick == Last(w, clock) + 1 && w'.Slots() == w.Slots() && Once(fs, w)
      && (forall k | k in w'.entries :: k in w.entries && w'.entries[k] == w.entries[k])
      && (forall k | k in w.entries :: k in w'.entries <==> !Occurs(fs, k))
    decreases |clock|
  {
    PollMoves(w, clock[0]);
    DrainHead(w, clock);
    var (f, w1) := PollTo(w, clock[0]);
    if f.Some? {
      DrainSplits(w1, clock[1..]);
      var (rest, w') := Drain(w1, clock[1..]);
      OnceCons(f, rest, w, w1);
      forall k | k in w.entries ensures k in w'.entries <==> !Occurs([f] + rest, k) {
        OccursCons(f, rest, k);
      }
    }
  }

  lemma OnceCons<T>(f: Fired<T>, rest: seq<Fired<T>>, w: Wheel<T>, w1: Wheel<T>)
    requires f.Some? && f.key in w.entries && f.entry == w.entries[f.key]
    requires w1.entries == w.entries - {f.key} && Once(rest, w1)
    ensures Once([f] + rest, w)
  {
    var fs := [f] + rest;
    forall i | 0 <= i < |fs| ensures fs[i].Some? && fs[i].key in w.entries && fs[i].entry == w.entries[fs[i].key] {
      if i > 0 { assert fs[i] == rest[i - 1]; }
    }
    forall i, j | 0 <= i < j < |fs| && fs[i].Some? && fs[j].Some? ensures fs[i].key != fs[j].key {
      assert fs[j] == rest[j - 1];
      if i > 0 { assert fs[i] == rest[i - 1]; }
    }
  }

  lemma OccursCons<T>(f: Fired<T>, rest: seq<Fired<T>>, k: nat)
    requires f.Some?
    ensures Occurs([f] + rest, k) <==> f.key == k || Occurs(rest, k)
  {
    var fs := [f] + rest;
    assert fs[0] == f && forall i | 0 <= i < |rest| :: fs[i + 1] == rest[i];
    if Occurs(rest, k) {
      var i :| 0 <= i < |rest| && rest[i].Some? && rest[i].key == k;
      assert fs[i + 1].key == k;
    }
    if Occurs(fs, k) && f.key != k {
      var i :| 0 <= i < |fs| && fs[i].Some? && fs[i].key == k;
      assert rest[i - 1].key == k;
    }
  }

  lemma {:induction false} DrainPunctual<T>(w: Wheel<T>, clock: seq<nat>)
    requires Valid(w) && Readings(w, clock) && Punctual(w)
    ensures Punctual(Drain(w, clock).1)
    decreases |clock|
  {
    DrainHead(w, clock);
    ScanPunctual(w, Target(w, clock[0]));
    var (f, w1) := PollTo(w, clock[0]);
    if f.Some? { DrainPunctual(w1, clock[1..]); }
  }

  ghost predicate FiredBy<T>(fs: seq<Fired<T>>, last: nat) {
    forall i | 0 <= i < |fs| :: fs[i].Some? && fs[i].entry.tick <= last
  }

  lemma FiredByCons<T>(f: Fired<T>, rest: seq<Fired<T>>, last: nat)
    requires f.Some? && f.entry.tick <= last && FiredBy(rest, last)
    ensures FiredBy([f] + rest, last)
  {
    var fs := [f] + rest;
    forall i | 0 <= i < |fs| ensures fs[i].Some? && fs[i].entry.tick <= last {
      if i > 0 { assert fs[i] == rest[i - 1]; }
    }
  }

  lemma {:induction false} DrainFiredBy<T>(w: Wheel<T>, clock: seq<nat>)
    requires Valid(w) && Readings(w, clock)
    ensures FiredBy(Drain(w, clock).0, Last(w, clock))
    decreases |clock|
  {
    DrainHead(w, clock);
    PollMoves(w, clock[0]);
    var (f, w1) := PollTo(w, clock[0]);
    if f.Some? {
      DrainFiredBy(w1, clock[1..]);
      FiredByCons(f, Drain(w1, clock[1..]).0, Last(w, clock));
    }
  }

  // An exact split of the entries at `last`, from what each part is known to hold.
  lemma ExactSplit<T>(w: Wheel<T>, fs: seq<Fired<T>>, w': Wheel<T>, last: nat)
    requires Once(fs, w) && FiredBy(fs, last)
    requires forall k | k in w'.entries :: k in w.entries && w'.entries[k] == w.entries[k] && w'.entries[k].tick > last
    requires forall k | k in w.entries :: k in w'.entries <==> !Occurs(fs, k)
    ensures forall k | k in w.entries :: Occurs(fs, k) <==> w.entries[k].tick <= last
    ensures w'.entries == (map k | k in w.entries && w.entries[k].tick > last :: w.entries[k])
  {
    forall k | k in w.entries ensures Occurs(fs, k) <==> w.entries[k].tick <= last {
      if Occurs(fs, k) {
        var i :| 0 <= i < |fs| && fs[i].Some? && fs[i].key == k;
      }
    }
  }

  /** The wheel refines the simple timer: with the deadlines inserted ahead of the cursor, polling
      until None from cursor c, with T the clock as the last poll reads it, returns exactly the
      entries with deadline at or before max(T, c), each once, leaves exactly the others, and the
      cursor at max(T, c) + 1. */
  lemma DrainIsExact<T>(w: Wheel<T>, clock: seq<nat>)
    requires Valid(w) && Readings(w, clock) && Punctual(w)
    ensures var (fs, w') := Drain(w, clock); var now := clock[|fs|]; var last := if now < w.tick then w.tick else now;
      && Once(fs, w) && (forall k | k in w.entries :: Occurs(fs, k) <==> w.entries[k].tick <= last)
      && w'.entries == (map k | k in w.entries && w.entries[k].tick > last :: w.entries[k])
      && w'.tick == last + 1
  {
    DrainSplits(w, clock);
    DrainPunctual(w, clock);
    DrainFiredBy(w, clock);
    var (fs, w') := Drain(w, clock);
    PunctualPending(w');
    ExactSplit(w, fs, w', Last(w, clock));
  }

  // ---------- firing order ----------

  ghost predicate AllSorted<T>(entries: map<nat, Entry<T>>, lists: seq<seq<nat>>)
    requires |lists| > 0 && Threaded(entries, lists)
  {
    forall s | 0 <= s < |lists| :: Sorted(lists[s], entries)
  }

  // Newer entries come first in their list.
  ghost predicate Newest<T>(w: Wheel<T>)
    requires Valid(w)
  {
    && (forall k | k in w.entries :: w.entries[k].born < w.clock)
    && AllSorted(w.entries, w.lists)
  }

  lemma InsertNewest<T>(w: Wheel<T>, key: nat, tick: nat, state: T)
    requires Valid(w) && key !in w.entries && Newest(w)
    ensures Valid(Insert(w, key, tick, state)) && Newest(Insert(w, key, tick, state))
  {
    InsertValid(w, key, tick, state);
  }

  // Taking an entry out of a list keeps the order of the others.
  lemma WithoutOrder(xs: seq<nat>, k: nat, i: nat, j: nat) returns (i': nat, j': nat)
    requires k in xs && i < j < |xs| - 1
    ensures i' < j' < |xs| && Without(xs, k)[i] == xs[i'] && Without(xs, k)[j] == xs[j']
  {
    var m := IndexOf(xs, k);
    i' := if i < m then i else i + 1;
    j' := if j < m then j else j + 1;
  }

  ghost predicate Sorted<T>(xs: seq<nat>, entries: map<nat, Entry<T>>)
    requires forall k | k in xs :: k in entries
  {
    forall i, j | 0 <= i < j < |xs| :: entries[xs[j]].born < entries[xs[i]].born
  }

  lemma WithoutSorted<T>(xs: seq<nat>, k: nat, entries: map<nat, Entry<T>>)
    requires Distinct(xs) && k in xs && (forall x | x in xs :: x in entries) && Sorted(xs, entries)
    ensures (forall x | x in Without(xs, k) :: x in entries - {k}) && Sorted(Without(xs, k), entries - {k})
  {
    WithoutFacts(xs, k);
    var ys := Without(xs, k);
    forall i, j | 0 <= i < j < |ys| ensures entries[ys[j]].born < entries[ys[i]].born {
      var i', j' := WithoutOrder(xs, k, i, j);
    }
  }

  lemma OthersSorted<T>(xs: seq<nat>, k: nat, entries: map<nat, Entry<T>>)
    requires k !in xs && (forall x | x in xs :: x in entries) && Sorted(xs, entries)
    ensures (forall x | x in xs :: x in entries - {k}) && Sorted(xs, entries - {k})
  {
    forall i, j | 0 <= i < j < |xs| ensures (entries - {k})[xs[j]].born < (entries - {k})[xs[i]].born {
      assert xs[i] in xs && xs[j] in xs;
    }
  }

  lemma AllSortedWithout<T>(entries: map<nat, Entry<T>>, lists: seq<seq<nat>>, sk: nat, k: nat)
    requires |lists| > 0 && Threaded(entries, lists) && k in entries && sk == entries[k].tick % |lists|
    requires k in lists[sk]
    requires AllSorted(entries, lists)
    ensures Threaded(entries - {k}, lists[sk := Without(lists[sk], k)])
    ensures AllSorted(entries - {k}, lists[sk := Without(lists[sk], k)])
  {
    ThreadedWithout(entries, lists, sk, k);
    var lists' := lists[sk := Without(lists[sk], k)];
    forall s | 0 <= s < |lists'| ensures Sorted(lists'[s], entries - {k}) {
      if s == sk { WithoutSorted(lists[sk], k, entries); } else { OthersSorted(lists[s], k, entries); }
    }
  }

  lemma UnlinkNewest<T>(w: Wheel<T>, k: nat)
    requires Valid(w) && k in w.entries && Newest(w)
    ensures Linked(w, k) && Valid(Unlink(w, k)) && Newest(Unlink(w, k))
  {
    UnlinkValid(w, k);
    AllSortedWithout(w.entries, w.lists, w.SlotOf(w.entries[k].tick), k);
  }

  // Of two entries in the scanned list, the later one is older.
  lemma AheadIsOlder<T>(w: Wheel<T>, k: nat)
    requires Valid(w) && Newest(w) && Ahead(w, k) && w.next != Key(k)
    ensures w.entries[k].born < w.entries[w.next.k].born
  {
    var xs := w.lists[w.SlotOf(w.tick)];
    assert IndexOf(xs, w.next.k) < IndexOf(xs, k);
  }

  lemma {:induction false} ScanNewest<T>(w: Wheel<T>, target: nat)
    requires Valid(w) && Punctual(w) && Newest(w)
    ensures var (f, w') := Scan(w, target);
      && Newest(w')
      && (f.Some? ==> forall k | k in w'.entries :: Before(f.entry, w'.entries[k]))
    decreases if w.tick <= target then target + 1 - w.tick else 0, Remaining(w)
  {
    if w.tick <= target {
      if w.next.Empty? {
        AdvancePunctual(w);
        ScanNewest(Advance(w), target);
      } else {
        SkipValid(w);
        FireValid(w);
        if Due(w) {
          FirePunctual(w);
          ResetValid(w);
          UnlinkNewest(Reset(w), w.next.k);
          forall k | k in Fire(w).entries ensures Before(w.entries[w.next.k], w.entries[k]) {
            assert PunctualOk(w, w.entries[k].tick, Ahead(w, k));
            if Ahead(w, k) { AheadIsOlder(w, k); }
          }
        } else {
          SkipPunctual(w);
          ScanNewest(Skip(w), target);
        }
      }
    }
  }

  // Earlier deadline first; among equal deadlines, the one inserted last first.
  predicate Before<T>(a: Entry<T>, b: Entry<T>) { a.tick < b.tick || (a.tick == b.tick && b.born < a.born) }

  ghost predicate Ordered<T>(fs: seq<Fired<T>>) {
    forall i, j | 0 <= i < j < |fs| :: fs[i].Some? && fs[j].Some? && Before(fs[i].entry, fs[j].entry)
  }

  lemma OrderCons<T>(f: Fired<T>, rest: seq<Fired<T>>, w1: Wheel<T>)
    requires f.Some? && Once(rest, w1) && Ordered(rest)
    requires forall k | k in w1.entries :: Before(f.entry, w1.entries[k])
    ensures Ordered([f] + rest)
  {
    var fs := [f] + rest;
    forall i, j | 0 <= i < j < |fs| ensures fs[i].Some? && fs[j].Some? && Before(fs[i].entry, fs[j].entry) {
      assert fs[j] == rest[j - 1];
      if i > 0 { assert fs[i] == rest[i - 1]; }
    }
  }

  /** Firing order: a drain returns its entries by non-decreasing deadline, and among equal
      deadlines the newest first. */
  lemma {:induction false} DrainOrder<T>(w: Wheel<T>, clock: seq<nat>)
    requires Valid(w) && Readings(w, clock) && Punctual(w) && Newest(w)
    ensures Ordered(Drain(w, clock).0)
    decreases |clock|
  {
    PollMoves(w, clock[0]);
    DrainHead(w, clock);
    ScanPunctual(w, Target(w, clock[0]));
    ScanNewest(w, Target(w, clock[0]));
    var (f, w1) := PollTo(w, clock[0]);
    if f.Some? {
      DrainOrder(w1, clock[1..]);
      DrainSplits(w1, clock[1..]);
      OrderCons(f, Drain(w1, clock[1..]).0, w1);
    }
  }

  // ---------- an entry that fires before its time ----------

  /** Exactly when a poll returns an entry whose tick the clock has not reached: the cursor is ahead of
      the clock, and an entry is due at the cursor. */
  lemma FiresEarlyExactly<T>(w: Wheel<T>, now: nat)
    requires Valid(w) && Punctual(w)
    ensures var f := PollTo(w, now).0;
      f.Some? && f.entry.tick > now <==> w.tick > now && exists k :: k in w.entries && w.entries[k].tick == w.tick
  {
    PollMoves(w, now);
    ScanPunctual(w, Target(w, now));
    PunctualPending(w);
    var (f, w') := PollTo(w, now);
    if f.None? { PunctualPending(w'); }
  }

  /** A poll that returns None leaves the cursor one ahead of the clock. So the next poll, at the same
      reading, returns an entry early if and only if one is due at the next tick. */
  lemma SecondPollIsEarly<T>(w: Wheel<T>, now: nat)
    requires Valid(w) && Punctual(w) && w.tick <= now && PollTo(w, now).0.None?
    ensures var f := PollTo(PollTo(w, now).1, now).0;
      f.Some? && f.entry.tick > now <==> exists k :: k in w.entries && w.entries[k].tick == now + 1
  {
    PollMoves(w, now);
    ScanPunctual(w, Target(w, now));
    FiresEarlyExactly(PollTo(w, now).1, now);
  }

  // ---------- an entry inserted at the cursor ----------

  /** Exactly when a new entry is punctual: set_timeout_at turns the requested tick into one ahead
      of the cursor unless the request is the cursor itself. */
  lemma PunctualInsert<T>(w: Wheel<T>, key: nat, request: nat, state: T)
    requires Valid(w) && Punctual(w) && key !in w.entries
    ensures var w' := Insert(w, key, Adjusted(w, request), state);
      Valid(w') && (Punctual(w') <==> request != w.tick)
  {
    var tick := Adjusted(w, request);
    var w' := Insert(w, key, tick, state);
    InsertValid(w, key, tick, state);
    InsertAhead(w, key, tick, state, key);
    if request != w.tick {
      InsertPunctual(w, key, tick, state);
    } else {
      assert !PunctualOk(w', w'.entries[key].tick, Ahead(w', key));
    }
  }

  // The cursor has gone past the entry on the entry's own tick.
  ghost predicate Passed<T>(w: Wheel<T>, k: nat)
    requires Valid(w)
  {
    k in w.entries && w.entries[k].tick <= w.tick && !(w.entries[k].tick == w.tick && Ahead(w, k))
  }

  lemma {:induction false} ScanPassed<T>(w: Wheel<T>, target: nat, k: nat)
    requires Valid(w) && Late(w) && Passed(w, k) && target < w.entries[k].tick + w.Slots()
    ensures Passed(Scan(w, target).1, k)
    decreases if w.tick <= target then target + 1 - w.tick else 0, Remaining(w)
  {
    if w.tick <= target {
      if w.next.Empty? {
        AdvanceLate(w);
        ScanPassed(Advance(w), target, k);
      } else {
        SkipValid(w);
        FireValid(w);
        CursorNotOn(w, k, target);
        if Due(w) {
          FireAhead(w, k);
        } else {
          SkipLate(w);
          SkipAhead(w, k);
          ScanPassed(Skip(w), target, k);
        }
      }
    }
  }

  // An entry that the cursor has not passed is returned on its own tick, or not passed yet.
  lemma {:induction false} ScanUnpassed<T>(w: Wheel<T>, target: nat, k: nat)
    requires Valid(w) && k in w.entries && !Passed(w, k)
    ensures var (f, w') := Scan(w, target); (f.Some? && f.key == k) || !Passed(w', k)
    decreases if w.tick <= target then target + 1 - w.tick else 0, Remaining(w)
  {
    if w.tick <= target {
      if w.next.Empty? {
        AdvanceValid(w);
        AdvanceAhead(w, k);
        ScanUnpassed(Advance(w), target, k);
      } else {
        SkipValid(w);
        FireValid(w);
        if Due(w) {
          if w.next != Key(k) { FireAhead(w, k); }
        } else {
          SkipAhead(w, k);
          ScanUnpassed(Skip(w), target, k);
        }
      }
    }
  }

  // Between its own tick and the next turn of the wheel, a passed entry is not under the cursor.
  lemma CursorNotOn<T>(w: Wheel<T>, k: nat, target: nat)
    requires Valid(w) && Passed(w, k) && w.tick <= target < w.entries[k].tick + w.Slots()
    ensures w.next != Key(k)
  {
    if w.next == Key(k) {
      NoTurn(w.entries[k].tick, w.tick, w.Slots());
      assert Ahead(w, k);
    }
  }

  lemma NoTurn(d: nat, t: nat, n: nat)
    requires n > 0 && d <= t < d + n && t % n == d % n
    ensures t == d
  {
    var a: nat, b: nat := d / n, t / n;
    assert d == a * n + d % n && t == b * n + t % n;
    if a < b { Masks.MulLess(a, b, n); }
    if b < a { Masks.MulLess(b, a, n); }
  }

  lemma {:induction false} DrainPassed<T>(w: Wheel<T>, clock: seq<nat>, k: nat)
    requires Valid(w) && Readings(w, clock) && Late(w) && Passed(w, k)
    requires Last(w, clock) < w.entries[k].tick + w.Slots()
    ensures Passed(Drain(w, clock).1, k)
    decreases |clock|
  {
    PollMoves(w, clock[0]);
    DrainHead(w, clock);
    ScanLate(w, Target(w, clock[0]));
    ScanPassed(w, Target(w, clock[0]), k);
    var (f, w1) := PollTo(w, clock[0]);
    if f.Some? { DrainPassed(w1, clock[1..], k); }
  }

  lemma {:induction false} DrainLate<T>(w: Wheel<T>, clock: seq<nat>)
    requires Valid(w) && Readings(w, clock) && Late(w)
    ensures var w' := Drain(w, clock).1; forall k | k in w'.entries :: w'.tick <= w'.entries[k].tick + w'.Slots()
    decreases |clock|
  {
    DrainHead(w, clock);
    PollMoves(w, clock[0]);
    ScanLate(w, Target(w, clock[0]));
    var (f, w1) := PollTo(w, clock[0]);
    if f.Some? {
      DrainLate(w1, clock[1..]);
    } else {
      forall k | k in w1.entries ensures w1.tick <= w1.entries[k].tick + w1.Slots() {
        assert LateOk(w1, w1.entries[k].tick, Ahead(w1, k));
      }
    }
  }

  lemma PassedExactly<T>(w: Wheel<T>, k: nat, clock: seq<nat>)
    requires Valid(w) && Readings(w, clock) && Late(w) && Passed(w, k)
    ensures k in Drain(w, clock).1.entries <==> Last(w, clock) < w.entries[k].tick + w.Slots()
  {
    DrainSplits(w, clock);
    if Last(w, clock) < w.entries[k].tick + w.Slots() {
      DrainPassed(w, clock, k);
    } else {
      DrainLate(w, clock);
    }
  }

  lemma InsertAtCursor<T>(w: Wheel<T>, key: nat, state: T)
    requires Valid(w) && Late(w) && key !in w.entries
    ensures var w0 := Insert(w, key, Adjusted(w, w.tick), state);
      Valid(w0) && Late(w0) && Passed(w0, key) && w0.entries[key].tick == w.tick && w0.Slots() == w.Slots()
      && |w0.entries| == |w.entries| + 1
  {
    var w0 := Insert(w, key, w.tick, state);
    InsertLate(w, key, w.tick, state);
    InsertAhead(w, key, w.tick, state, key);
    assert w0.entries.Keys == w.entries.Keys + {key};
  }

  /** What the comparison `tick < self.tick` costs: an entry inserted at the cursor itself is left
      by every drain before the wheel has turned once, and returned by the first one after. */
  lemma CursorInsertIsOneTurnLate<T>(w: Wheel<T>, key: nat, state: T, clock: seq<nat>)
    requires Valid(w) && Late(w) && key !in w.entries
    requires |clock| > |w.entries| + 1 && forall i, j | 0 <= i <= j < |clock| :: clock[i] <= clock[j]
    ensures var w0 := Insert(w, key, Adjusted(w, w.tick), state);
      && Valid(w0) && w0.entries[key].tick == w.tick && Readings(w0, clock)
      && (key in Drain(w0, clock).1.entries <==> Last(w0, clock) < w.tick + w.Slots())
  {
    InsertAtCursor(w, key, state);
    PassedExactly(Insert(w, key, Adjusted(w, w.tick), state), key, clock);
  }

  /** And until then it keeps the loop busy: while a passed entry is pending, each poll that returns None
      plans the next wakeup at the cursor or at a tick not after the entry's, which is already past. */
  lemma PassedIsReplanned<T>(w: Wheel<T>, target: nat, k: nat)
    requires Valid(w) && Bounded(w, false) && PollTo(w, target).0.None? && Passed(PollTo(w, target).1, k)
    ensures var w' := PollTo(w, target).1;
      Steppable(w') && (NextTick(w') == w'.tick || NextTick(w') <= w'.entries[k].tick <= w'.tick)
  {
    ScanBounded(w, Target(w, target));
    NextTickBound(PollTo(w, target).1, k);
  }
}
