/** The memory of the timer (src/timer.rs:65-136): a slab of entries threaded into one doubly
    linked list per slot. Here as a value, with the effect of each update of the links. */
module WheelLinks {
  import opened Lists
  import opened Wheel
  import opened WheelSteps
  import opened Masks

  datatype Links = Links(tick: nat, prev: Token, next: Token)

  datatype Node<T> = Node(state: T, links: Links)

  datatype WheelEntry = WheelEntry(nextTick: nat, head: Token)

  // `born`, `lists` and `clock` are history; the rest are the fields of Timer.
  datatype Memory<T> = Memory(
    entries: map<nat, Node<T>>, wheel: seq<WheelEntry>, tick: nat, next: Token, mask: nat,
    born: map<nat, nat>, lists: seq<seq<nat>>, clock: nat)

  function Contents<T>(entries: map<nat, Node<T>>, born: map<nat, nat>): map<nat, Entry<T>>
    requires entries.Keys == born.Keys
  {
    map k | k in entries :: Entry(entries[k].state, entries[k].links.tick, born[k])
  }

  function NextTicks(wheel: seq<WheelEntry>): seq<nat> {
    seq(|wheel|, i requires 0 <= i < |wheel| => wheel[i].nextTick)
  }

  // The wheel that the memory stands for.
  function Abs<T>(m: Memory<T>): Wheel<T>
    requires m.entries.Keys == m.born.Keys
  {
    Wheel(Contents(m.entries, m.born), m.lists, NextTicks(m.wheel), m.tick, m.next, m.clock)
  }

  function At(xs: seq<nat>, i: int): Token { if 0 <= i < |xs| then Key(xs[i]) else Empty }

  // The list from `head` along `next` is xs, and `prev` leads back.
  predicate ListOk<T>(xs: seq<nat>, head: Token, entries: map<nat, Node<T>>) {
    && head == At(xs, 0)
    && forall i | 0 <= i < |xs| ::
         && xs[i] in entries
         && entries[xs[i]].links.prev == At(xs, i - 1) && entries[xs[i]].links.next == At(xs, i + 1)
  }

  ghost predicate Shape<T>(m: Memory<T>) {
    && m.entries.Keys == m.born.Keys && |m.wheel| == |m.lists| == m.mask + 1 && IsPowerOfTwo(m.mask + 1)
    && Valid(Abs(m))
    && forall s | 0 <= s < |m.lists| :: ListOk(m.lists[s], m.wheel[s].head, m.entries)
  }

  // ---------- updates of the links ----------

  function SetNext<T>(entries: map<nat, Node<T>>, at: Token, to: Token): map<nat, Node<T>>
    requires at.Key? ==> at.k in entries
  {
    if at.Empty? then entries else
      var e := entries[at.k];
      entries[at.k := e.(links := e.links.(next := to))]
  }

  function SetPrev<T>(entries: map<nat, Node<T>>, at: Token, to: Token): map<nat, Node<T>>
    requires at.Key? ==> at.k in entries
  {
    if at.Empty? then entries else
      var e := entries[at.k];
      entries[at.k := e.(links := e.links.(prev := to))]
  }

  lemma SameContents<T>(entries: map<nat, Node<T>>, born: map<nat, nat>, at: Token, to: Token)
    requires entries.Keys == born.Keys && (at.Key? ==> at.k in entries)
    ensures SetNext(entries, at, to).Keys == entries.Keys
    ensures Contents(SetNext(entries, at, to), born) == Contents(entries, born)
    ensures SetPrev(entries, at, to).Keys == entries.Keys
    ensures Contents(SetPrev(entries, at, to), born) == Contents(entries, born)
  {
  }

  // ---------- a slot's bound, the cursor ----------

  function WithNextTick<T>(m: Memory<T>, slot: nat, t: nat): Memory<T>
    requires slot < |m.wheel|
  {
    m.(wheel := m.wheel[slot := m.wheel[slot].(nextTick := t)])
  }

  lemma NextTickShape<T>(m: Memory<T>, slot: nat, t: nat)
    requires Shape(m) && slot < |m.wheel|
    ensures Shape(WithNextTick(m, slot, t))
    ensures Abs(WithNextTick(m, slot, t)) == Abs(m).(nextTick := Abs(m).nextTick[slot := t])
  {
    var m' := WithNextTick(m, slot, t);
    assert NextTicks(m'.wheel) == NextTicks(m.wheel)[slot := t];
    forall s | 0 <= s < |m'.lists| ensures ListOk(m'.lists[s], m'.wheel[s].head, m'.entries) {
      assert m'.wheel[s].head == m.wheel[s].head;
    }
  }

  lemma CursorShape<T>(m: Memory<T>, tick: nat, next: Token)
    requires Shape(m) && (next.Key? ==> next.k in m.lists[tick % |m.lists|])
    ensures Shape(m.(tick := tick, next := next))
    ensures Abs(m.(tick := tick, next := next)) == Abs(m).(tick := tick, next := next)
  {
  }

  // The cursor's entry is in the memory, and its links lead on to its successor.
  lemma EntryAt<T>(m: Memory<T>, k: nat)
    requires Shape(m) && k in m.entries
    ensures var s := m.entries[k].links.tick % |m.lists|; var xs := m.lists[s];
      && k in xs && Linked(Abs(m), k)
      && m.entries[k].links.next == Successor(xs, k) == At(xs, IndexOf(xs, k) + 1)
      && m.entries[k].links.prev == At(xs, IndexOf(xs, k) - 1)
      && (m.entries[k].links.prev.Empty? <==> m.wheel[s].head == Key(k))
  {
    var s := m.entries[k].links.tick % |m.lists|;
    assert Abs(m).entries[k].tick == m.entries[k].links.tick;
    ListAt(m.lists[s], m.wheel[s].head, m.entries, k);
  }

  lemma ListAt<T>(xs: seq<nat>, head: Token, entries: map<nat, Node<T>>, k: nat)
    requires ListOk(xs, head, entries) && k in xs
    ensures k in entries && entries[k].links.next == Successor(xs, k) == At(xs, IndexOf(xs, k) + 1)
    ensures entries[k].links.prev == At(xs, IndexOf(xs, k) - 1) && (entries[k].links.prev.Empty? <==> head == Key(k))
  {
    var i := IndexOf(xs, k);
    assert xs[i] == k && (i > 0 ==> xs[0] != k);
  }

  lemma HeadAt<T>(m: Memory<T>, s: nat)
    requires Shape(m) && s < |m.lists|
    ensures m.wheel[s].head == HeadOf(m.lists[s])
  {
    assert ListOk(m.lists[s], m.wheel[s].head, m.entries);
  }

  // ---------- insert ----------

  function Pushed<T>(m: Memory<T>, key: nat, tick: nat, state: T): Memory<T>
    requires |m.wheel| == |m.lists| > 0
    requires forall s | 0 <= s < |m.wheel| :: m.wheel[s].head.Key? ==> m.wheel[s].head.k in m.entries
  {
    var s := tick % |m.wheel|;
    var curr := m.wheel[s];
    m.(entries := SetPrev(m.entries[key := Node(state, Links(tick, Empty, curr.head))], curr.head, Key(key)),
       wheel := m.wheel[s := WheelEntry(Min(tick, curr.nextTick), Key(key))],
       born := m.born[key := m.clock], lists := m.lists[s := [key] + m.lists[s]], clock := m.clock + 1)
  }

  lemma HeadsIn<T>(m: Memory<T>)
    requires Shape(m)
    ensures forall s | 0 <= s < |m.wheel| :: m.wheel[s].head.Key? ==> m.wheel[s].head.k in m.entries
  {
    forall s | 0 <= s < |m.wheel| && m.wheel[s].head.Key? ensures m.wheel[s].head.k in m.entries {
      assert ListOk(m.lists[s], m.wheel[s].head, m.entries);
    }
  }

  // A list of other entries is not touched.
  lemma OtherList<T>(xs: seq<nat>, head: Token, entries: map<nat, Node<T>>, entries': map<nat, Node<T>>)
    requires ListOk(xs, head, entries)
    requires forall k | k in xs && k in entries :: k in entries' && entries'[k].links == entries[k].links
    ensures ListOk(xs, head, entries')
  {
    forall i | 0 <= i < |xs|
      ensures xs[i] in entries' && entries'[xs[i]].links.prev == At(xs, i - 1)
      ensures entries'[xs[i]].links.next == At(xs, i + 1)
    {
      assert xs[i] in xs && xs[i] in entries;
    }
  }

  lemma PushedList<T>(xs: seq<nat>, head: Token, entries: map<nat, Node<T>>, key: nat, e: Node<T>)
    requires ListOk(xs, head, entries) && Distinct(xs) && key !in entries
    requires e.links.prev == Empty && e.links.next == head
    ensures head.Key? ==> head.k in entries
    ensures ListOk([key] + xs, Key(key), SetPrev(entries[key := e], head, Key(key)))
  {
    var ys, es := [key] + xs, SetPrev(entries[key := e], head, Key(key));
    forall i | 0 <= i < |ys|
      ensures ys[i] in es && es[ys[i]].links.prev == At(ys, i - 1) && es[ys[i]].links.next == At(ys, i + 1)
    {
      if i > 0 { assert ys[i] == xs[i - 1] && xs[i - 1] in entries; }
    }
  }

  lemma PushedShape<T>(m: Memory<T>, key: nat, tick: nat, state: T)
    requires Shape(m) && key !in m.entries
    ensures forall s | 0 <= s < |m.wheel| :: m.wheel[s].head.Key? ==> m.wheel[s].head.k in m.entries
    ensures Shape(Pushed(m, key, tick, state))
    ensures Abs(Pushed(m, key, tick, state)) == Insert(Abs(m), key, tick, state)
  {
    HeadsIn(m);
    InsertValid(Abs(m), key, tick, state);
    PushedAbs(m, key, tick, state);
    PushedLists(m, key, tick, state);
  }

  lemma PushedAbs<T>(m: Memory<T>, key: nat, tick: nat, state: T)
    requires Shape(m) && key !in m.entries
    requires forall s | 0 <= s < |m.wheel| :: m.wheel[s].head.Key? ==> m.wheel[s].head.k in m.entries
    ensures var m' := Pushed(m, key, tick, state);
      m'.entries.Keys == m'.born.Keys && Abs(m') == Insert(Abs(m), key, tick, state)
  {
    var m' := Pushed(m, key, tick, state);
    var s := tick % |m.wheel|;
    var curr := m.wheel[s];
    var e1 := m.entries[key := Node(state, Links(tick, Empty, curr.head))];
    SameContents(e1, m'.born, curr.head, Key(key));
    assert Contents(e1, m'.born) == Contents(m.entries, m.born)[key := Entry(state, tick, m.clock)];
    assert NextTicks(m'.wheel) == NextTicks(m.wheel)[s := Min(tick, curr.nextTick)];
  }

  lemma PushedLists<T>(m: Memory<T>, key: nat, tick: nat, state: T)
    requires Shape(m) && key !in m.entries
    requires forall s | 0 <= s < |m.wheel| :: m.wheel[s].head.Key? ==> m.wheel[s].head.k in m.entries
    ensures var m' := Pushed(m, key, tick, state);
      forall i | 0 <= i < |m'.lists| :: ListOk(m'.lists[i], m'.wheel[i].head, m'.entries)
  {
    var m' := Pushed(m, key, tick, state);
    var s := tick % |m.wheel|;
    var curr := m.wheel[s];
    forall i | 0 <= i < |m'.lists| ensures ListOk(m'.lists[i], m'.wheel[i].head, m'.entries) {
      assert ListOk(m.lists[i], m.wheel[i].head, m.entries);
      if i == s {
        PushedList(m.lists[s], curr.head, m.entries, key, Node(state, Links(tick, Empty, curr.head)));
      } else {
        forall k | k in m.lists[i] && k in m.entries
          ensures k in m'.entries && m'.entries[k].links == m.entries[k].links
        {
          NotShared(m, i, s, k);
        }
        OtherList(m.lists[i], m.wheel[i].head, m.entries, m'.entries);
      }
    }
  }

  // An entry of one list is neither the head nor any other entry of another.
  lemma NotShared<T>(m: Memory<T>, i: nat, s: nat, k: nat)
    requires Shape(m) && i < |m.lists| && s < |m.lists| && i != s && k in m.lists[i]
    ensures k !in m.lists[s] && m.wheel[s].head != Key(k)
  {
    HeadAt(m, s);
    SlotOfListed(m, i, k);
    if k in m.lists[s] { SlotOfListed(m, s, k); }
  }

  lemma SlotOfListed<T>(m: Memory<T>, i: nat, k: nat)
    requires Shape(m) && i < |m.lists| && k in m.lists[i]
    ensures k in m.entries && m.entries[k].links.tick % |m.lists| == i
  {
    var w := Abs(m);
    assert k in w.lists[i] && w.SlotOf(w.entries[k].tick) == i;
  }

  // ---------- unlink ----------

  // What unlink does to the memory; the entry itself is still in the slab.
  function Detached<T>(m: Memory<T>, links: Links, token: nat): Memory<T>
    requires |m.wheel| > 0 && (links.prev.Key? ==> links.prev.k in m.entries)
    requires links.next.Key? ==> links.next.k in m.entries
  {
    var s := links.tick % |m.wheel|;
    m.(wheel := if links.prev.Empty? then m.wheel[s := m.wheel[s].(head := links.next)] else m.wheel,
       entries := SetPrev(SetNext(m.entries, links.prev, links.next), links.next, links.prev),
       next := if m.next == Key(token) then links.next else m.next)
  }

  // The removal from the slab that follows.
  function Removed<T>(m: Memory<T>, slot: nat, k: nat): Memory<T>
    requires slot < |m.lists| && k in m.lists[slot]
  {
    m.(entries := m.entries - {k}, born := m.born - {k}, lists := m.lists[slot := Without(m.lists[slot], k)])
  }

  // The two together, for the entry's own links.
  predicate Removable<T>(m: Memory<T>, k: nat) {
    && |m.wheel| == |m.lists| > 0 && k in m.entries
    && var l := m.entries[k].links;
    && (l.prev.Key? ==> l.prev.k in m.entries) && (l.next.Key? ==> l.next.k in m.entries)
    && l.prev != Key(k) && l.next != Key(k) && k in m.lists[l.tick % |m.lists|]
  }

  function Taken<T>(m: Memory<T>, k: nat): Memory<T>
    requires Removable(m, k)
  {
    var l := m.entries[k].links;
    Removed(Detached(m, l, k), l.tick % |m.lists|, k)
  }

  lemma LinksIn<T>(m: Memory<T>, k: nat)
    requires Shape(m) && k in m.entries
    ensures var l := m.entries[k].links; var xs := m.lists[l.tick % |m.lists|];
      && (l.prev.Key? ==> l.prev.k in m.entries && l.prev.k in xs && l.prev.k != k)
      && (l.next.Key? ==> l.next.k in m.entries && l.next.k in xs && l.next.k != k)
      && (l.prev.Key? && l.next.Key? ==> l.prev.k != l.next.k)
  {
    EntryAt(m, k);
    var xs := m.lists[m.entries[k].links.tick % |m.lists|];
    assert Distinct(xs);
    var i := IndexOf(xs, k);
    assert forall j | 0 <= j < |xs| :: xs[j] in xs;
  }

  // The entry between p and n is bypassed; every other link stays.
  lemma Bypassed<T>(entries: map<nat, Node<T>>, p: Token, n: Token, x: nat)
    requires (p.Key? ==> p.k in entries) && (n.Key? ==> n.k in entries) && x in entries
    ensures var es := SetPrev(SetNext(entries, p, n), n, p);
      && x in es && es[x].links.prev == (if n == Key(x) then p else entries[x].links.prev)
      && es[x].links.next == if p == Key(x) then n else entries[x].links.next
  {
  }

  // Neighbours in a list without its i-th element.
  lemma WithoutAt(xs: seq<nat>, k: nat, j: nat) returns (o: nat)
    requires Distinct(xs) && k in xs && j + 1 < |xs|
    ensures var i: int := IndexOf(xs, k); var ys := Without(xs, k);
      && |ys| == |xs| - 1 && o < |xs| && o != i && ys[j] == xs[o]
      && At(ys, j - 1) == (if o == i + 1 then At(xs, i - 1) else At(xs, o - 1))
      && At(ys, j + 1) == (if o == i - 1 then At(xs, i + 1) else At(xs, o + 1))
      && (At(xs, i + 1) == Key(xs[o]) <==> o == i + 1)
      && (At(xs, i - 1) == Key(xs[o]) <==> o == i - 1)
  {
    var i: int := IndexOf(xs, k);
    o := if j < i then j else j + 1;
  }

  lemma DetachedList<T>(xs: seq<nat>, head: Token, entries: map<nat, Node<T>>, k: nat)
    requires ListOk(xs, head, entries) && Distinct(xs) && k in xs
    ensures var i: int := IndexOf(xs, k); var p, n := At(xs, i - 1), At(xs, i + 1);
      && (p.Key? ==> p.k in entries) && (n.Key? ==> n.k in entries)
      && ListOk(Without(xs, k), if p.Empty? then n else head, SetPrev(SetNext(entries, p, n), n, p) - {k})
  {
    var i: int := IndexOf(xs, k);
    var p, n := At(xs, i - 1), At(xs, i + 1);
    assert forall j | 0 <= j < |xs| :: xs[j] in entries;
    var es, ys := SetPrev(SetNext(entries, p, n), n, p) - {k}, Without(xs, k);
    forall j | 0 <= j < |ys|
      ensures ys[j] in es && es[ys[j]].links.prev == At(ys, j - 1) && es[ys[j]].links.next == At(ys, j + 1)
    {
      var o := WithoutAt(xs, k, j);
      assert xs[o] != k;
      Bypassed(entries, p, n, xs[o]);
    }
  }

  lemma RemovedShape<T>(m: Memory<T>, k: nat)
    requires Shape(m) && k in m.entries
    ensures Removable(m, k) && Linked(Abs(m), k)
    ensures Shape(Taken(m, k)) && Abs(Taken(m, k)) == Unlink(Abs(m), k)
  {
    LinksIn(m, k);
    EntryAt(m, k);
    UnlinkValid(Abs(m), k);
    RemovedAbs(m, k);
    RemovedLists(m, k);
  }

  lemma RemovalReady<T>(m: Memory<T>, k: nat)
    requires Shape(m) && k in m.entries
    ensures Removable(m, k)
  {
    LinksIn(m, k);
    EntryAt(m, k);
  }

  lemma RemovedAbs<T>(m: Memory<T>, k: nat)
    requires Shape(m) && Removable(m, k) && Linked(Abs(m), k)
    ensures var m' := Taken(m, k); m'.entries.Keys == m'.born.Keys && Abs(m') == Unlink(Abs(m), k)
  {
    EntryAt(m, k);
    var l := m.entries[k].links;
    DetachedContents(m.entries, m.born, l.prev, l.next, k);
    RemovedParts(m, k);
  }

  // The parts of the wheel besides its entries.
  lemma RemovedParts<T>(m: Memory<T>, k: nat)
    requires Removable(m, k) && m.entries.Keys == m.born.Keys && Linked(Abs(m), k)
    requires m.entries[k].links.next == Successor(m.lists[m.entries[k].links.tick % |m.lists|], k)
    ensures var m', w' := Taken(m, k), Unlink(Abs(m), k);
      && m'.lists == w'.lists && NextTicks(m'.wheel) == w'.nextTick
      && m'.next == w'.next && m'.tick == w'.tick && m'.clock == w'.clock
  {
    var m1 := Detached(m, m.entries[k].links, k);
    assert NextTicks(m1.wheel) == NextTicks(m.wheel);
    assert Abs(m).entries[k].tick == m.entries[k].links.tick;
  }

  lemma DetachedContents<T>(entries: map<nat, Node<T>>, born: map<nat, nat>, p: Token, n: Token, k: nat)
    requires entries.Keys == born.Keys && (p.Key? ==> p.k in entries) && (n.Key? ==> n.k in entries)
    ensures var es := SetPrev(SetNext(entries, p, n), n, p);
      (es - {k}).Keys == (born - {k}).Keys && Contents(es - {k}, born - {k}) == Contents(entries, born) - {k}
  {
    SameContents(entries, born, p, n);
    SameContents(SetNext(entries, p, n), born, n, p);
  }

  lemma RemovedLists<T>(m: Memory<T>, k: nat)
    requires Shape(m) && Removable(m, k)
    ensures var m' := Taken(m, k); forall i | 0 <= i < |m'.lists| :: ListOk(m'.lists[i], m'.wheel[i].head, m'.entries)
  {
    var s := m.entries[k].links.tick % |m.lists|;
    var m' := Taken(m, k);
    forall i | 0 <= i < |m'.lists| ensures ListOk(m'.lists[i], m'.wheel[i].head, m'.entries) {
      if i == s { RemovedOwnList(m, k); } else { RemovedOtherList(m, k, i); }
    }
  }

  lemma RemovedOwnList<T>(m: Memory<T>, k: nat)
    requires Shape(m) && Removable(m, k)
    ensures var m' := Taken(m, k); var s := m.entries[k].links.tick % |m.lists|;
      ListOk(m'.lists[s], m'.wheel[s].head, m'.entries)
  {
    EntryAt(m, k);
    var s := m.entries[k].links.tick % |m.lists|;
    assert ListOk(m.lists[s], m.wheel[s].head, m.entries);
    DetachedList(m.lists[s], m.wheel[s].head, m.entries, k);
  }

  lemma RemovedOtherList<T>(m: Memory<T>, k: nat, i: nat)
    requires Shape(m) && Removable(m, k) && i < |m.lists| && i != m.entries[k].links.tick % |m.lists|
    ensures var m' := Taken(m, k); ListOk(m'.lists[i], m'.wheel[i].head, m'.entries)
  {
    LinksIn(m, k);
    var l := m.entries[k].links;
    var m' := Taken(m, k);
    assert ListOk(m.lists[i], m.wheel[i].head, m.entries);
    forall x | x in m.lists[i] && x in m.entries ensures x in m'.entries && m'.entries[x].links == m.entries[x].links {
      NotShared(m, i, l.tick % |m.lists|, x);
      Bypassed(m.entries, l.prev, l.next, x);
    }
    OtherList(m.lists[i], m.wheel[i].head, m.entries, m'.entries);
  }

  // ---------- the turns of the loop of poll_to ----------

  function Advanced<T>(m: Memory<T>): Memory<T>
    requires |m.wheel| > 0
  {
    var s := (m.tick + 1) % |m.wheel|;
    var m1 := m.(tick := m.tick + 1, next := m.wheel[s].head);
    if m1.next.Empty? then WithNextTick(m1, s, TICK_MAX) else m1
  }

  lemma AdvancedShape<T>(m: Memory<T>)
    requires Shape(m)
    ensures Shape(Advanced(m)) && Abs(Advanced(m)) == Advance(Abs(m))
  {
    var s := (m.tick + 1) % |m.wheel|;
    HeadAt(m, s);
    CursorShape(m, m.tick + 1, m.wheel[s].head);
    NextTickShape(m.(tick := m.tick + 1, next := m.wheel[s].head), s, TICK_MAX);
  }

  function Restarted<T>(m: Memory<T>): Memory<T>
    requires |m.wheel| > 0
  {
    var s := m.tick % |m.wheel|;
    if m.next == m.wheel[s].head then WithNextTick(m, s, TICK_MAX) else m
  }

  lemma RestartedShape<T>(m: Memory<T>)
    requires Shape(m) && m.next.Key?
    ensures Steppable(Abs(m)) && Shape(Restarted(m)) && Abs(Restarted(m)) == Reset(Abs(m))
  {
    var s := m.tick % |m.wheel|;
    HeadAt(m, s);
    NextTickShape(m, s, TICK_MAX);
  }

  function Skipped<T>(m: Memory<T>): Memory<T>
    requires |m.wheel| > 0 && m.next.Key? && m.next.k in m.entries
  {
    var s := m.tick % |m.wheel|;
    var l := m.entries[m.next.k].links;
    var m1 := Restarted(m);
    WithNextTick(m1, s, Min(m1.wheel[s].nextTick, l.tick)).(next := l.next)
  }

  // The entry under the cursor, as the loop sees it.
  lemma UnderCursor<T>(m: Memory<T>)
    requires Shape(m) && m.next.Key?
    ensures m.next.k in m.entries && Steppable(Abs(m))
    ensures Abs(m).entries[m.next.k].tick == m.entries[m.next.k].links.tick
    ensures m.entries[m.next.k].links.tick % |m.lists| == m.tick % |m.lists|
    ensures m.entries[m.next.k].links.next == Successor(m.lists[m.tick % |m.lists|], m.next.k)
  {
    SlotOfListed(m, m.tick % |m.lists|, m.next.k);
    EntryAt(m, m.next.k);
  }

  lemma SkippedShape<T>(m: Memory<T>)
    requires Shape(m) && m.next.Key?
    ensures m.next.k in m.entries && Steppable(Abs(m)) && Shape(Skipped(m)) && Abs(Skipped(m)) == Skip(Abs(m))
  {
    UnderCursor(m);
    RestartedShape(m);
    var s := m.tick % |m.wheel|;
    var l := m.entries[m.next.k].links;
    var m1 := Restarted(m);
    NextTickShape(m1, s, Min(m1.wheel[s].nextTick, l.tick));
    SuccessorFacts(m.lists[s], m.next.k);
    CursorShape(WithNextTick(m1, s, Min(m1.wheel[s].nextTick, l.tick)), m.tick, l.next);
  }

  lemma FiredShape<T>(m: Memory<T>)
    requires Shape(m) && m.next.Key?
    ensures m.next.k in m.entries && Steppable(Abs(m)) && Shape(Restarted(m)) && Removable(Restarted(m), m.next.k)
    ensures Linked(Reset(Abs(m)), m.next.k) && Shape(Taken(Restarted(m), m.next.k))
    ensures Abs(Taken(Restarted(m), m.next.k)) == Fire(Abs(m))
  {
    UnderCursor(m);
    RestartedShape(m);
    RemovedShape(Restarted(m), m.next.k);
  }

  predicate DueIn<T>(m: Memory<T>) {
    m.next.Key? && m.next.k in m.entries && m.entries[m.next.k].links.tick <= m.tick
  }

  // The loop's look at the entry under the cursor.
  function Examined<T>(m: Memory<T>): Memory<T>
    requires |m.wheel| > 0 && m.next.Key? && m.next.k in m.entries && Removable(Restarted(m), m.next.k)
  {
    if DueIn(m) then Taken(Restarted(m), m.next.k) else Skipped(m)
  }

  lemma ExaminedShape<T>(m: Memory<T>)
    requires Shape(m) && m.next.Key?
    ensures m.next.k in m.entries && Steppable(Abs(m)) && Removable(Restarted(m), m.next.k)
    ensures Shape(Examined(m)) && (DueIn(m) <==> Due(Abs(m)))
    ensures Linked(Reset(Abs(m)), m.next.k)
    ensures Abs(Examined(m)) == if Due(Abs(m)) then Fire(Abs(m)) else Skip(Abs(m))
    ensures Abs(m).entries[m.next.k].state == m.entries[m.next.k].state
  {
    UnderCursor(m);
    FiredShape(m);
    SkippedShape(m);
  }
}
