/** The timer of src/timer.rs:127-314, updating its linked lists in place, against the wheel of
    Wheel.dfy. */
module Timers {
  import opened Wheel
  import W = Wheel
  import opened WheelSteps
  import opened WheelLinks
  import opened Masks

  datatype Timeout = Timeout(token: nat, tick: nat)

  datatype Maybe<T> = Nothing | Just(state: T)

  function StateOf<T>(f: Fired<T>): Maybe<T> { if f.Some? then Just(f.entry.state) else Nothing }

  // What the timer does to its readiness and to its wakeup thread.
  datatype Signal = ClearReadiness | Schedule(tick: nat)

  class Timer<T> {
    var entries: map<nat, Node<T>>
    const wheel: array<WheelEntry>
    var tick: nat
    var next: Token
    const mask: nat
    var registered: bool
    var signals: seq<Signal>
    ghost var born: map<nat, nat>
    ghost var lists: seq<seq<nat>>
    ghost var clock: nat

    ghost function Mem(): Memory<T>
      reads this, wheel
    {
      Memory(entries, wheel[..], tick, next, mask, born, lists, clock)
    }

    ghost predicate Valid()
      reads this, wheel
    {
      Shape(Mem())
    }

    ghost function Contents(): Wheel<T>
      requires Valid()
      reads this, wheel
    {
      Abs(Mem())
    }

    constructor (slots: nat)
      ensures Valid() && fresh(wheel) && Contents() == New(NextPowerOfTwo(slots))
      ensures !registered && signals == []
    {
      var n := NextPowerOfTwo(slots);
      SlotsArePowerOfTwo(slots);
      entries, tick, next, registered, signals := map[], 0, Empty, false, [];
      mask := n - 1;
      wheel := new WheelEntry[n](i => WheelEntry(TICK_MAX, Empty));
      born, lists, clock := map[], seq(n, i => []), 0;
    }

    function SlotFor(t: nat): (slot: nat)
      requires Valid()
      reads this, wheel
      ensures slot == Contents().SlotOf(t) && slot < wheel.Length
    {
      SlotIsModulo(t, mask + 1);
      And(mask, t)
    }

    method ScheduleReadiness(t: nat)
      modifies this`signals
      ensures signals == old(signals) + if registered then [Schedule(t)] else []
    {
      if registered { signals := signals + [Schedule(t)]; }
    }

    method SetTimeoutAt(request: nat, state: T) returns (timeout: Timeout)
      requires Valid()
      modifies this, wheel
      ensures Valid() && registered == old(registered)
      ensures timeout.tick == Adjusted(old(Contents()), request) && timeout.token !in old(entries)
      ensures Contents() == W.Insert(old(Contents()), timeout.token, timeout.tick, state)
      ensures signals == old(signals) + if registered then [Schedule(timeout.tick)] else []
    {
      var t := request;
      if t < tick { t := tick + 1; }
      timeout := Insert(t, state);
    }

    method Insert(t: nat, state: T) returns (timeout: Timeout)
      requires Valid()
      modifies this, wheel
      ensures Valid() && registered == old(registered)
      ensures timeout.tick == t && timeout.token !in old(entries)
      ensures Contents() == W.Insert(old(Contents()), timeout.token, t, state)
      ensures signals == old(signals) + if registered then [Schedule(t)] else []
    {
      var token := VacantKey();
      timeout := Timeout(token, t);
      PushedShape(Mem(), timeout.token, t, state);
      Link(timeout.token, t, state);
      ScheduleReadiness(t);
    }

    // Puts the new entry into the slab and at the head of its slot.
    method Link(token: nat, t: nat, state: T)
      requires token !in entries && mask + 1 == wheel.Length == |lists| && IsPowerOfTwo(mask + 1)
      requires forall s | 0 <= s < wheel.Length :: wheel[s].head.Key? ==> wheel[s].head.k in entries
      modifies this`entries, this`born, this`lists, this`clock, wheel
      ensures Mem() == Pushed(old(Mem()), token, t, state)
    {
      AndCommutes(t, mask);
      SlotIsModulo(t, mask + 1);
      var slot := And(t, mask);
      var curr := wheel[slot];
      entries := entries[token := Node(state, Links(t, Empty, curr.head))];
      if curr.head != Empty {
        var e := entries[curr.head.k];
        entries := entries[curr.head.k := e.(links := e.links.(prev := Key(token)))];
      }
      wheel[slot] := WheelEntry(Min(t, curr.nextTick), Key(token));
      born, lists, clock := born[token := clock], lists[slot := [token] + lists[slot]], clock + 1;
    }

    // Evented::register: refused the second time, else the wakeup thread is told of the next tick.
    method Register() returns (ok: bool)
      requires Valid()
      modifies this`registered, this`signals
      ensures ok == !old(registered) && registered && Valid()
      ensures signals == old(signals) + if ok then [Schedule(W.NextTick(Contents()))] else []
    {
      if registered { return false; }
      registered, ok := true, true;
      var t := NextTick();
      ScheduleReadiness(t);
    }

    // The slab's choice of a free key.
    method VacantKey() returns (key: nat)
      ensures key !in entries
    {
      FreeKey(entries.Keys);
      key :| key !in entries;
    }

    method CancelTimeout(timeout: Timeout) returns (r: Maybe<T>)
      requires Valid()
      modifies this, wheel
      ensures Valid() && registered == old(registered) && signals == old(signals)
      ensures var (w', f) := Cancel(old(Contents()), timeout.token, timeout.tick); Contents() == w' && r == StateOf(f)
    {
      CancelMemory(Mem(), timeout.token, timeout.tick);
      if timeout.token !in entries { return Nothing; }
      var links := entries[timeout.token].links;
      if links.tick != timeout.tick { return Nothing; }
      r := TakeOut(links, timeout.token);
    }

    // unlink, then the removal from the slab.
    method TakeOut(links: Links, token: nat) returns (r: Maybe<T>)
      requires mask + 1 == wheel.Length && IsPowerOfTwo(mask + 1)
      requires Removable(Mem(), token) && entries[token].links == links
      modifies this`entries, this`next, this`born, this`lists, wheel
      ensures Mem() == Taken(old(Mem()), token)
      ensures r == Just(old(entries)[token].state)
    {
      Unlink(links, token);
      r := Remove(token);
    }

    // Takes the entry out of its list; it is still in the slab.
    method Unlink(links: Links, token: nat)
      requires mask + 1 == wheel.Length == |lists| && IsPowerOfTwo(mask + 1)
      requires (links.prev.Key? ==> links.prev.k in entries) && (links.next.Key? ==> links.next.k in entries)
      modifies this`entries, this`next, wheel
      ensures Mem() == Detached(old(Mem()), links, token)
    {
      if links.prev == Empty {
        SlotIsModulo(links.tick, mask + 1);
        var slot := And(mask, links.tick);
        wheel[slot] := wheel[slot].(head := links.next);
      } else {
        var e := entries[links.prev.k];
        entries := entries[links.prev.k := e.(links := e.links.(next := links.next))];
      }
      if links.next != Empty {
        var e := entries[links.next.k];
        entries := entries[links.next.k := e.(links := e.links.(prev := links.prev))];
        if Key(token) == next { next := links.next; }
      } else if Key(token) == next {
        next := Empty;
      }
    }

    // The removal from the slab that follows unlink.
    method Remove(token: nat) returns (r: Maybe<T>)
      requires token in entries && |lists| > 0
      requires token in lists[entries[token].links.tick % |lists|]
      modifies this`entries, this`born, this`lists
      ensures Mem() == Removed(old(Mem()), old(entries)[token].links.tick % |old(lists)|, token)
      ensures r == Just(old(entries)[token].state)
    {
      r := Just(entries[token].state);
      ghost var s := entries[token].links.tick % |lists|;
      lists := lists[s := Without(lists[s], token)];
      entries, born := entries - {token}, born - {token};
    }

    method PollTo(target: nat) returns (r: Maybe<T>)
      requires Valid()
      modifies this, wheel
      ensures Valid() && registered == old(registered)
      ensures var (f, w') := WheelSteps.PollTo(old(Contents()), target); Contents() == w' && r == StateOf(f)
      ensures signals == old(signals)
              + if registered && r.Nothing? then [ClearReadiness, Schedule(W.NextTick(Contents()))] else []
    {
      r := ScanTo(if target < tick then tick else target);
      if r.Nothing? { GoIdle(); }
    }

    // The loop of poll_to.
    method ScanTo(last: nat) returns (r: Maybe<T>)
      requires Valid()
      modifies this`tick, this`entries, this`next, this`born, this`lists, wheel
      ensures Valid()
      ensures var (f, w') := Scan(old(Contents()), last); Contents() == w' && r == StateOf(f)
    {
      while tick <= last
        invariant Valid() && Scan(Contents(), last) == Scan(old(Contents()), last)
        decreases if tick <= last then last + 1 - tick else 0, Remaining(Contents())
      {
        r := Turn();
        if r.Just? { return; }
      }
      r := Nothing;
    }

    // poll_to's branch for an empty `next`.
    method LoadNextSlot()
      requires Valid()
      modifies this`tick, this`next, wheel
      ensures Valid() && Contents() == Advance(old(Contents()))
    {
      ghost var m := Mem();
      AdvancedShape(m);
      tick := tick + 1;
      SlotIsModulo(tick, mask + 1);
      var slot := And(mask, tick);
      next := wheel[slot].head;
      if next == Empty { wheel[slot] := wheel[slot].(nextTick := TICK_MAX); }
      assert Mem() == Advanced(m);
    }

    // poll_to's branch for an entry under the cursor: it is taken out if it is due.
    method Examine() returns (r: Maybe<T>)
      requires mask + 1 == wheel.Length && IsPowerOfTwo(mask + 1)
      requires next.Key? && next.k in entries && Removable(Restarted(Mem()), next.k)
      modifies this`entries, this`next, this`born, this`lists, wheel
      ensures Mem() == Examined(old(Mem()))
      ensures r == if DueIn(old(Mem())) then Just(old(entries[next.k].state)) else Nothing
    {
      StartSlot();
      var curr := next.k;
      var links := entries[curr].links;
      if links.tick <= tick {
        r := TakeOut(links, curr);
      } else {
        SlotIsModulo(tick, mask + 1);
        var slot := And(mask, tick);
        wheel[slot] := wheel[slot].(nextTick := Min(wheel[slot].nextTick, links.tick));
        next := links.next;
        r := Nothing;
      }
    }

    // One turn of the loop of poll_to.
    method Turn() returns (r: Maybe<T>)
      requires Valid()
      modifies this`tick, this`entries, this`next, this`born, this`lists, wheel
      ensures Valid()
      ensures var (f, w') := WheelSteps.Turn(old(Contents())); Contents() == w' && r == StateOf(f)
    {
      if next == Empty {
        LoadNextSlot();
        r := Nothing;
      } else {
        ExaminedShape(Mem());
        r := Examine();
      }
    }

    // At the head of its slot a scan forgets the slot's bound.
    method StartSlot()
      requires mask + 1 == wheel.Length && IsPowerOfTwo(mask + 1)
      modifies wheel
      ensures Mem() == Restarted(old(Mem()))
    {
      SlotIsModulo(tick, mask + 1);
      var slot := And(mask, tick);
      if next == wheel[slot].head { wheel[slot] := wheel[slot].(nextTick := TICK_MAX); }
    }

    // poll_to when nothing more is due.
    method GoIdle()
      requires Valid()
      modifies this`signals
      ensures signals == old(signals) + if registered then [ClearReadiness, Schedule(W.NextTick(Contents()))] else []
    {
      if registered {
        signals := signals + [ClearReadiness];
        var t := NextTick();
        ScheduleReadiness(t);
      }
    }

    method NextTick() returns (t: nat)
      requires Valid()
      ensures t == W.NextTick(Contents())
    {
      if next != Empty {
        UnderCursor(Mem());
        var slot := SlotFor(entries[next.k].links.tick);
        if wheel[slot].nextTick == tick { return tick; }
      }
      t := EarliestBound();
    }

    method EarliestBound() returns (t: nat)
      requires wheel.Length > 0
      ensures t == MinOf(NextTicks(wheel[..]))
    {
      t := wheel[0].nextTick;
      assert t == NextTicks(wheel[..])[0];
      var i := 1;
      while i < wheel.Length
        invariant 1 <= i <= wheel.Length && t in NextTicks(wheel[..])
        invariant forall j | 0 <= j < i :: t <= NextTicks(wheel[..])[j]
      {
        t := Min(t, wheel[i].nextTick);
        assert t in NextTicks(wheel[..]) by { assert NextTicks(wheel[..])[i] == wheel[i].nextTick; }
        i := i + 1;
      }
    }
  }

  // What cancel_timeout does to the memory is what Cancel does to the wheel.
  lemma CancelMemory<T>(m: Memory<T>, k: nat, tick: nat)
    requires Shape(m)
    ensures k in m.entries && m.entries[k].links.tick == tick ==>
      && Removable(m, k) && Shape(Taken(m, k))
      && Cancel(Abs(m), k, tick).0 == Abs(Taken(m, k)) && StateOf(Cancel(Abs(m), k, tick).1) == Just(m.entries[k].state)
    ensures !(k in m.entries && m.entries[k].links.tick == tick) ==> Cancel(Abs(m), k, tick) == (Abs(m), None)
  {
    if k in m.entries {
      RemovalReady(m, k);
      RemovedShape(m, k);
    }
  }

  lemma {:induction false} FreeKey(keys: set<nat>)
    ensures exists k: nat :: k !in keys
  {
    var k := Above(keys);
    assert k !in keys;
  }

  // A number above all of them.
  lemma {:induction false} Above(keys: set<nat>) returns (b: nat)
    ensures forall k | k in keys :: k < b
    decreases |keys|
  {
    if keys == {} {
      b := 0;
    } else {
      var k :| k in keys;
      var b' := Above(keys - {k});
      b := if k < b' then b' else k + 1;
      assert keys == (keys - {k}) + {k};
    }
  }
}
