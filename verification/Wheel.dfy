/** The hashed timer wheel (src/timer.rs:149-314) as a value: one list of keys per slot, newest
    first, and the cursor `tick`, `next` that survives between the calls of poll_to. The class
    in Timer.dfy is proved to compute these functions with its linked lists. */
module Wheel {
  import opened Lists

  const TICK_MAX: nat := 0xFFFF_FFFF_FFFF_FFFF

  datatype Token = Empty | Key(k: nat)

  // `born` is history: how many entries had been inserted before this one.
  datatype Entry<T> = Entry(state: T, tick: nat, born: nat)

  datatype Wheel<T> = Wheel(
    entries: map<nat, Entry<T>>, lists: seq<seq<nat>>, nextTick: seq<nat>,
    tick: nat, next: Token, clock: nat)
  {
    function Slots(): nat { |lists| }

    function SlotOf(t: nat): nat
      requires |lists| > 0
    {
      t % |lists|
    }
  }

  datatype Fired<T> = None | Some(key: nat, entry: Entry<T>)

  // ---------- lists of keys ----------

  function IndexOf(xs: seq<nat>, k: nat): (i: nat)
    requires k in xs
    ensures i < |xs| && xs[i] == k && k !in xs[..i]
  {
    if xs[0] == k then 0 else 1 + IndexOf(xs[1..], k)
  }

  function Without(xs: seq<nat>, k: nat): seq<nat>
    requires k in xs
  {
    xs[..IndexOf(xs, k)] + xs[IndexOf(xs, k) + 1..]
  }

  function HeadOf(xs: seq<nat>): Token { if xs == [] then Empty else Key(xs[0]) }

  function Successor(xs: seq<nat>, k: nat): Token
    requires k in xs
  {
    HeadOf(xs[IndexOf(xs, k) + 1..])
  }

  function Min(a: nat, b: nat): nat { if a < b then a else b }

  // ---------- well-formed wheels ----------

  // Each entry is once in the list of its slot, and the lists hold nothing else.
  ghost predicate Threaded<T>(entries: map<nat, Entry<T>>, lists: seq<seq<nat>>)
    requires |lists| > 0
  {
    && (forall i | 0 <= i < |lists| :: Distinct(lists[i]))
    && (forall i, k | 0 <= i < |lists| && k in lists[i] :: k in entries && entries[k].tick % |lists| == i)
    && (forall k | k in entries :: k in lists[entries[k].tick % |lists|])
  }

  ghost predicate Valid<T>(w: Wheel<T>) {
    && |w.lists| == |w.nextTick| > 0
    && Threaded(w.entries, w.lists)
    && (w.next.Key? ==> w.next.k in w.lists[w.SlotOf(w.tick)])
  }

  function New<T>(slots: nat): Wheel<T> {
    Wheel(map[], seq(slots, i => []), seq(slots, i => TICK_MAX), 0, Empty, 0)
  }

  // ---------- the operations ----------

  function Insert<T>(w: Wheel<T>, key: nat, tick: nat, state: T): Wheel<T>
    requires |w.lists| == |w.nextTick| > 0
  {
    var s := w.SlotOf(tick);
    w.(entries := w.entries[key := Entry(state, tick, w.clock)],
       lists := w.lists[s := [key] + w.lists[s]],
       nextTick := w.nextTick[s := Min(tick, w.nextTick[s])],
       clock := w.clock + 1)
  }

  // What set_timeout_at makes of the tick it is asked for.
  function Adjusted<T>(w: Wheel<T>, tick: nat): nat { if tick < w.tick then w.tick + 1 else tick }

  // unlink, and the removal from the slab.
  function Unlink<T>(w: Wheel<T>, k: nat): Wheel<T>
    requires Linked(w, k)
  {
    var s := w.SlotOf(w.entries[k].tick);
    w.(entries := w.entries - {k},
       lists := w.lists[s := Without(w.lists[s], k)],
       next := if w.next == Key(k) then Successor(w.lists[s], k) else w.next)
  }

  predicate Linked<T>(w: Wheel<T>, k: nat) {
    |w.lists| > 0 && k in w.entries && k in w.lists[w.SlotOf(w.entries[k].tick)]
  }

  // ---------- one turn of the loop of poll_to ----------

  predicate Steppable<T>(w: Wheel<T>) {
    && |w.lists| == |w.nextTick| > 0
    && (w.next.Key? ==> w.next.k in w.lists[w.SlotOf(w.tick)] && Linked(w, w.next.k)
                        && w.SlotOf(w.entries[w.next.k].tick) == w.SlotOf(w.tick))
  }

  // The cursor moves to the next tick and loads the head of its slot.
  function Advance<T>(w: Wheel<T>): Wheel<T>
    requires |w.lists| == |w.nextTick| > 0
  {
    var s := w.SlotOf(w.tick + 1);
    w.(tick := w.tick + 1, next := HeadOf(w.lists[s]),
       nextTick := if w.lists[s] == [] then w.nextTick[s := TICK_MAX] else w.nextTick)
  }

  // The scan starts anew at the head: the slot's bound is forgotten.
  function Reset<T>(w: Wheel<T>): Wheel<T>
    requires Steppable(w) && w.next.Key?
  {
    var s := w.SlotOf(w.tick);
    if w.lists[s][0] == w.next.k then w.(nextTick := w.nextTick[s := TICK_MAX]) else w
  }

  // The entry under the cursor is not due: the cursor moves on.
  function Skip<T>(w: Wheel<T>): Wheel<T>
    requires Steppable(w) && w.next.Key?
  {
    var s := w.SlotOf(w.tick);
    var w1 := Reset(w);
    w1.(nextTick := w1.nextTick[s := Min(w1.nextTick[s], w.entries[w.next.k].tick)],
        next := Successor(w.lists[s], w.next.k))
  }

  predicate Due<T>(w: Wheel<T>)
    requires Steppable(w) && w.next.Key?
  {
    w.entries[w.next.k].tick <= w.tick
  }

  // The entry under the cursor is due: it is taken out.
  function Fire<T>(w: Wheel<T>): Wheel<T>
    requires Steppable(w) && w.next.Key?
  {
    Unlink(Reset(w), w.next.k)
  }

  // ---------- next_tick ----------

  function MinOf(xs: seq<nat>): (m: nat)
    requires xs != []
    ensures m in xs && forall x | x in xs :: m <= x
  {
    assert xs == [xs[0]] + xs[1..];
    if |xs| == 1 then xs[0] else Min(xs[0], MinOf(xs[1..]))
  }

  function NextTick<T>(w: Wheel<T>): nat
    requires Steppable(w)
  {
    if w.next.Key? && w.nextTick[w.SlotOf(w.entries[w.next.k].tick)] == w.tick then w.tick
    else MinOf(w.nextTick)
  }

  // ---------- positions ----------

  // x is at or after the position `next` in the list.
  predicate AheadIn(xs: seq<nat>, next: Token, x: nat) {
    next.Key? && next.k in xs && x in xs && IndexOf(xs, next.k) <= IndexOf(xs, x)
  }

  // The entry is at or after the cursor in the list that is being scanned.
  predicate Ahead<T>(w: Wheel<T>, k: nat)
    requires |w.lists| > 0
  {
    AheadIn(w.lists[w.SlotOf(w.tick)], w.next, k)
  }

  // The part of the current list that is still to be scanned.
  function Remaining<T>(w: Wheel<T>): nat
    requires |w.lists| > 0
  {
    var xs := w.lists[w.SlotOf(w.tick)];
    if w.next.Key? && w.next.k in xs then |xs| - IndexOf(xs, w.next.k) else 0
  }

  // ---------- facts about the lists ----------

  lemma IndexUnique(xs: seq<nat>, i: nat)
    requires Distinct(xs) && i < |xs|
    ensures IndexOf(xs, xs[i]) == i
  {
  }

  // Taking k out keeps the order of the others.
  lemma WithoutFacts(xs: seq<nat>, k: nat)
    requires Distinct(xs) && k in xs
    ensures var ys := Without(xs, k);
      && Distinct(ys) && |ys| == |xs| - 1
      && (forall x :: x in ys <==> x in xs && x != k)
      && (forall x | x in ys ::
            IndexOf(ys, x) == if IndexOf(xs, x) < IndexOf(xs, k) then IndexOf(xs, x) else IndexOf(xs, x) - 1)
  {
    var i := IndexOf(xs, k);
    var ys := Without(xs, k);
    assert forall j | 0 <= j < |ys| :: ys[j] == if j < i then xs[j] else xs[j + 1];
    forall x | x in xs && x != k ensures x in ys {
      var j := IndexOf(xs, x);
      assert ys[if j < i then j else j - 1] == x;
    }
    forall x | x in ys
      ensures x in xs && x != k
      ensures IndexOf(ys, x) == if IndexOf(xs, x) < i then IndexOf(xs, x) else IndexOf(xs, x) - 1
    {
      var j := IndexOf(ys, x);
      IndexUnique(xs, if j < i then j else j + 1);
    }
  }

  // The successor of k is in the list and comes right after k.
  lemma SuccessorFacts(xs: seq<nat>, k: nat)
    requires Distinct(xs) && k in xs
    ensures var t := Successor(xs, k);
      && (t.Key? <==> IndexOf(xs, k) + 1 < |xs|)
      && (t.Key? ==> t.k in xs && t.k != k && IndexOf(xs, t.k) == IndexOf(xs, k) + 1)
  {
    var i := IndexOf(xs, k);
    if i + 1 < |xs| { IndexUnique(xs, i + 1); }
  }

  lemma PrependFacts(xs: seq<nat>, k: nat)
    requires Distinct(xs) && k !in xs
    ensures var ys := [k] + xs;
      Distinct(ys) && IndexOf(ys, k) == 0 && forall x | x in xs :: x in ys && IndexOf(ys, x) == IndexOf(xs, x) + 1
  {
    var ys := [k] + xs;
    forall x | x in xs ensures x in ys && IndexOf(ys, x) == IndexOf(xs, x) + 1 {
      assert ys[1..] == xs;
    }
  }
}
