/** Every operation on the wheel keeps it well formed; `poll_to` and its loop as functions. */
module WheelSteps {
  import opened Lists
  import opened Wheel

  lemma InsertValid<T>(w: Wheel<T>, key: nat, tick: nat, state: T)
    requires Valid(w) && key !in w.entries
    ensures Valid(Insert(w, key, tick, state))
  {
    var w' := Insert(w, key, tick, state);
    var s := w.SlotOf(tick);
    assert key !in w.lists[s];
    PrependFacts(w.lists[s], key);
  }

  lemma SteppableValid<T>(w: Wheel<T>)
    requires Valid(w)
    ensures Steppable(w)
  {
  }

  lemma UnlinkLists<T>(w: Wheel<T>, k: nat)
    requires Valid(w) && k in w.entries
    ensures Linked(w, k)
    ensures var w' := Unlink(w, k); var s := w.SlotOf(w.entries[k].tick);
      && |w'.lists| == |w.lists|
      && (forall i | 0 <= i < |w.lists| && i != s :: w'.lists[i] == w.lists[i])
      && Distinct(w'.lists[s]) && (forall x :: x in w'.lists[s] <==> x in w.lists[s] && x != k)
  {
    WithoutFacts(w.lists[w.SlotOf(w.entries[k].tick)], k);
  }

  // The cursor steps over the entry that is taken out.
  lemma UnlinkNext<T>(w: Wheel<T>, k: nat)
    requires Valid(w) && k in w.entries && Linked(w, k)
    ensures var w' := Unlink(w, k);
      |w'.lists| == |w.lists| && (w'.next.Key? ==> w'.next.k in w'.lists[w.SlotOf(w.tick)])
  {
    UnlinkLists(w, k);
    if w.next == Key(k) { SuccessorFacts(w.lists[w.SlotOf(w.entries[k].tick)], k); }
  }

  lemma UnlinkValid<T>(w: Wheel<T>, k: nat)
    requires Valid(w) && k in w.entries
    ensures Linked(w, k) && Valid(Unlink(w, k))
  {
    UnlinkLists(w, k);
    UnlinkNext(w, k);
    ThreadedWithout(w.entries, w.lists, w.SlotOf(w.entries[k].tick), k);
  }

  // The lists hold what they should, and every entry is listed, once k is taken out.
  lemma ListedWithout<T>(entries: map<nat, Entry<T>>, lists: seq<seq<nat>>, s: nat, k: nat, i: nat, x: nat)
    requires |lists| > 0 && Threaded(entries, lists) && k in entries && s == entries[k].tick % |lists| && k in lists[s]
    requires i < |lists| && x in lists[s := Without(lists[s], k)][i]
    ensures x in entries - {k} && entries[x].tick % |lists| == i
  {
    WithoutFacts(lists[s], k);
    assert x in lists[i];
  }

  lemma EntryWithout<T>(entries: map<nat, Entry<T>>, lists: seq<seq<nat>>, s: nat, k: nat, x: nat)
    requires |lists| > 0 && Threaded(entries, lists) && k in entries && s == entries[k].tick % |lists| && k in lists[s]
    requires x in entries && x != k
    ensures x in lists[s := Without(lists[s], k)][entries[x].tick % |lists|]
  {
    WithoutFacts(lists[s], k);
    assert x in lists[entries[x].tick % |lists|];
  }

  lemma ThreadedWithout<T>(entries: map<nat, Entry<T>>, lists: seq<seq<nat>>, s: nat, k: nat)
    requires |lists| > 0 && Threaded(entries, lists) && k in entries && s == entries[k].tick % |lists| && k in lists[s]
    ensures Threaded(entries - {k}, lists[s := Without(lists[s], k)])
  {
    var lists' := lists[s := Without(lists[s], k)];
    WithoutFacts(lists[s], k);
    forall i, x | 0 <= i < |lists'| && x in lists'[i] ensures x in entries - {k} && entries[x].tick % |lists| == i {
      ListedWithout(entries, lists, s, k, i, x);
    }
    forall x | x in entries - {k} ensures x in lists'[entries[x].tick % |lists|] {
      EntryWithout(entries, lists, s, k, x);
    }
  }

  lemma AdvanceValid<T>(w: Wheel<T>)
    requires Valid(w)
    ensures Valid(Advance(w))
  {
  }

  lemma ResetValid<T>(w: Wheel<T>)
    requires Valid(w) && w.next.Key?
    ensures Steppable(w) && Valid(Reset(w))
  {
    SteppableValid(w);
    assert Reset(w).lists == w.lists && Reset(w).entries == w.entries;
  }

  lemma SkipValid<T>(w: Wheel<T>)
    requires Valid(w) && w.next.Key?
    ensures Steppable(w) && Valid(Skip(w)) && Remaining(Skip(w)) < Remaining(w) && Skip(w).tick == w.tick
  {
    SuccessorFacts(w.lists[w.SlotOf(w.tick)], w.next.k);
  }

  lemma FireValid<T>(w: Wheel<T>)
    requires Valid(w) && w.next.Key?
    ensures Steppable(w) && Linked(Reset(w), w.next.k) && Valid(Fire(w)) && Fire(w).tick == w.tick
  {
    ResetValid(w);
    UnlinkValid(Reset(w), w.next.k);
  }

  function Cancel<T>(w: Wheel<T>, k: nat, tick: nat): (r: (Wheel<T>, Fired<T>))
    requires Valid(w)
    ensures Valid(r.0)
  {
    if k in w.entries && w.entries[k].tick == tick then
      UnlinkValid(w, k);
      (Unlink(w, k), Some(k, w.entries[k]))
    else (w, None)
  }

  // ---------- poll_to ----------

  // One turn of the loop of poll_to.
  function Turn<T>(w: Wheel<T>): (r: (Fired<T>, Wheel<T>))
    requires Valid(w)
    ensures Valid(r.1) && r.1.tick == w.tick + (if w.next.Empty? then 1 else 0)
    ensures w.next.Key? && r.0.None? ==> Remaining(r.1) < Remaining(w)
  {
    if w.next.Empty? then
      AdvanceValid(w);
      (None, Advance(w))
    else
      SkipValid(w);
      FireValid(w);
      if Due(w) then (Some(w.next.k, w.entries[w.next.k]), Fire(w)) else (None, Skip(w))
  }

  // The loop of poll_to up to tick `target`, until it fires an entry or runs out.
  function Scan<T>(w: Wheel<T>, target: nat): (r: (Fired<T>, Wheel<T>))
    requires Valid(w)
    ensures Valid(r.1)
    decreases if w.tick <= target then target + 1 - w.tick else 0, Remaining(w)
  {
    if w.tick > target then (None, w) else
      var (f, w') := Turn(w);
      if f.Some? then (f, w') else Scan(w', target)
  }

  function Target<T>(w: Wheel<T>, target: nat): nat { if target < w.tick then w.tick else target }

  function PollTo<T>(w: Wheel<T>, target: nat): (r: (Fired<T>, Wheel<T>))
    requires Valid(w)
    ensures Valid(r.1)
  {
    Scan(w, Target(w, target))
  }
}
