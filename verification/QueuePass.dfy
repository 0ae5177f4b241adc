/** One pass of ReadinessQueue::poll over the queue while nobody else pushes (src/poll.rs:449-505).
    The queue is a sequence of nodes here; QueuePassRun.dfy shows that the pass is a run of the
    queue's machine. Everything concurrent about the pass is in Registration.dfy. */
module QueuePass {
  import opened Lists
  import opened ReadinessWord
  import opened Registration
  import Q = ReadyQueue

  // ---------- what the pass does with one node ----------

  predicate Comes(c: Cell) { !c.word.dropped && c.word.Effective() != 0 }

  // A level-triggered node with readiness is queued again.
  predicate Returns(c: Cell) { Comes(c) && !c.word.Edge() }

  function Rejoins(n: nat, c: Cell): seq<nat> { if Returns(c) then [n] else [] }

  function Said(n: nat, c: Cell): seq<Event> { if Comes(c) then [EventOf(n, c)] else [] }

  function EventOf(n: nat, c: Cell): Event { Event(n, c.word.Effective(), c.slots.Get(c.word.wr), c.job) }

  function Visited(c: Cell): Cell {
    if c.word.dropped then ReleaseQueueRef(c)
    else c.(word := Consumed(c.word), job := if Comes(c) then Noop else c.job)
  }

  // The node's state afterwards: queued exactly if it returns, disarmed exactly if it was a
  // oneshot edge event, its readiness untouched, its token read position moved to the write position.
  lemma VisitedMeans(c: Cell)
    requires !c.word.dropped && c.word.queued
    ensures var w, w' := c.word, Visited(c).word;
      && (w'.queued <==> Returns(c)) && !w'.dropped
      && w'.readiness == w.readiness && w'.rd == w'.wr == w.wr && w'.opt == w.opt
      && w'.interest == if w.Edge() && w.Oneshot() && Comes(c) then 0 else w.interest
  {
  }

  // ---------- the queue and the events of a pass over the nodes ns, in order ----------

  ghost predicate Known(ns: seq<nat>, cells: map<nat, Cell>) { forall n | n in ns :: n in cells }

  function Again(ns: seq<nat>, cells: map<nat, Cell>): seq<nat>
    requires Known(ns, cells)
  {
    if ns == [] then [] else
      var n := ns[|ns| - 1];
      Again(ns[..|ns| - 1], cells) + Rejoins(n, cells[n])
  }

  function EventsOf(ns: seq<nat>, cells: map<nat, Cell>): seq<Event>
    requires Known(ns, cells)
  {
    if ns == [] then [] else
      var n := ns[|ns| - 1];
      EventsOf(ns[..|ns| - 1], cells) + Said(n, cells[n])
  }

  lemma {:induction false} AgainIn(ns: seq<nat>, cells: map<nat, Cell>, x: nat)
    requires Known(ns, cells)
    ensures x in Again(ns, cells) <==> x in ns && Returns(cells[x])
  {
    if ns != [] {
      var n := ns[|ns| - 1];
      AgainIn(ns[..|ns| - 1], cells, x);
      assert ns == ns[..|ns| - 1] + [n];
    }
  }

  lemma {:induction false} AgainDistinct(ns: seq<nat>, cells: map<nat, Cell>)
    requires Known(ns, cells) && Distinct(ns)
    ensures Distinct(Again(ns, cells))
  {
    if ns != [] {
      var front, n := ns[..|ns| - 1], ns[|ns| - 1];
      AgainDistinct(front, cells);
      AgainIn(front, cells, n);
    }
  }

  // The events are those of the live nodes with effective readiness, one each.
  lemma {:induction false} EventsIn(ns: seq<nat>, cells: map<nat, Cell>, e: Event)
    requires Known(ns, cells)
    ensures e in EventsOf(ns, cells) <==> e.n in ns && Comes(cells[e.n]) && e == EventOf(e.n, cells[e.n])
    ensures |EventsOf(ns, cells)| <= |ns|
  {
    if ns != [] {
      EventsIn(ns[..|ns| - 1], cells, e);
      assert ns == ns[..|ns| - 1] + [ns[|ns| - 1]];
    }
  }

  lemma NextPrefix(ns: seq<nat>, cells: map<nat, Cell>, m: nat)
    requires Known(ns, cells) && m < |ns|
    ensures Known(ns[..m], cells) && Known(ns[..m + 1], cells)
    ensures Again(ns[..m + 1], cells) == Again(ns[..m], cells) + Rejoins(ns[m], cells[ns[m]])
    ensures EventsOf(ns[..m + 1], cells) == EventsOf(ns[..m], cells) + Said(ns[m], cells[ns[m]])
  {
    assert ns[..m + 1][..m] == ns[..m];
  }

  class ReadinessQueue {
    var queue: seq<nat>
    var cells: map<nat, Cell>

    // Every node is queued once, and knows it.
    ghost predicate Valid()
      reads this
    {
      Ready(queue, cells)
    }

    /** One pass visits the first `visited` nodes of the queue, each once, and stops at the end of
        the old queue or with the events full; the rest of the queue stays in front of the nodes
        that return, and the events of the visited nodes are appended in queue order. */
    method Poll(events: seq<Event>, capacity: nat) returns (dst: seq<Event>, ghost visited: nat)
      requires Valid()
      modifies this
      ensures visited <= |old(queue)| && (visited == |old(queue)| || |dst| >= capacity)
      ensures Passed(old(queue), old(cells), events, visited, queue, cells, dst)
      ensures Valid()
    {
      dst, visited := events, 0;
      var until := Q.Nobody;
      while |dst| < capacity
        invariant Passed(old(queue), old(cells), events, visited, queue, cells, dst)
        invariant until == First(Again(old(queue)[..visited], old(cells)))
        decreases |old(queue)| - visited
      {
        StopsAtEnd(old(queue), old(cells), visited, queue, until);
        if queue == [] || until == Q.Stop(Q.Data(queue[0])) { break; }
        PassStep(old(queue), old(cells), events, visited, queue, cells, dst);
        dst, until := Visit(dst, until);
        visited := visited + 1;
      }
      PassKeepsValid(old(queue), old(cells), events, visited, queue, cells, dst);
    }

    // The body of the loop, for the node at the front.
    method Visit(events: seq<Event>, stop: Q.Until) returns (dst: seq<Event>, until: Q.Until)
      requires queue != [] && queue[0] in cells && cells[queue[0]].word.queued
      modifies this
      ensures var n := old(queue)[0]; var c := old(cells)[n];
        && queue == old(queue)[1..] + Rejoins(n, c)
        && cells == old(cells)[n := Visited(c)]
        && dst == events + Said(n, c)
        && until == if stop == Q.Nobody && Returns(c) then Q.Stop(Q.Data(n)) else stop
    {
      dst, until := events, stop;
      var n := queue[0];
      queue := queue[1..];
      var state := cells[n].word;
      if state.dropped {
        cells := cells[n := ReleaseQueueRef(cells[n])];
      } else {
        var next, readiness := Consumed(state), state.Effective();
        cells := cells[n := cells[n].(word := next)];
        if next.queued {
          if until == Q.Nobody { until := Q.Stop(Q.Data(n)); }
          queue := queue + [n];
        }
        if readiness != 0 {
          dst := dst + [Event(n, readiness, cells[n].slots.Get(next.rd), cells[n].job)];
          cells := cells[n := cells[n].(job := Noop)];
        }
      }
    }
  }

  function First(ns: seq<nat>): Q.Until { if ns == [] then Q.Nobody else Q.Stop(Q.Data(ns[0])) }

  /** A pass over the first m nodes of q0, which had the cells c0 and the events e0 before it. */
  ghost predicate Passed(q0: seq<nat>, c0: map<nat, Cell>, e0: seq<Event>, m: nat,
      queue: seq<nat>, cells: map<nat, Cell>, dst: seq<Event>)
  {
    && m <= |q0| && Known(q0[..m], c0)
    && queue == q0[m..] + Again(q0[..m], c0)
    && dst == e0 + EventsOf(q0[..m], c0)
    && CellsOf(q0[..m], c0, cells)
  }

  ghost predicate Ready(q0: seq<nat>, c0: map<nat, Cell>) {
    Distinct(q0) && Known(q0, c0) && forall n | n in q0 :: c0[n].word.queued
  }

  ghost predicate CellsOf(ns: seq<nat>, c0: map<nat, Cell>, cells: map<nat, Cell>) {
    cells.Keys == c0.Keys && forall n | n in cells :: cells[n] == if n in ns then Visited(c0[n]) else c0[n]
  }

  lemma CellsStep(ns: seq<nat>, n: nat, c0: map<nat, Cell>, cells: map<nat, Cell>)
    requires CellsOf(ns, c0, cells) && n in c0 && n !in ns
    ensures cells[n] == c0[n] && CellsOf(ns + [n], c0, cells[n := Visited(c0[n])])
  {
    var cells' := cells[n := Visited(c0[n])];
    forall x | x in cells' ensures cells'[x] == if x in ns + [n] then Visited(c0[x]) else c0[x] {}
  }

  lemma FreshNext(ns: seq<nat>, m: nat)
    requires Distinct(ns) && m < |ns|
    ensures ns[..m + 1] == ns[..m] + [ns[m]] && ns[m] in ns && ns[m] !in ns[..m]
  {
  }

  // One more node.
  lemma PassStep(q0: seq<nat>, c0: map<nat, Cell>, e0: seq<Event>, m: nat,
      queue: seq<nat>, cells: map<nat, Cell>, dst: seq<Event>)
    requires Ready(q0, c0) && Passed(q0, c0, e0, m, queue, cells, dst) && m < |q0|
    ensures queue != [] && queue[0] == q0[m] && q0[m] in cells && cells[q0[m]] == c0[q0[m]] && cells[q0[m]].word.queued
    ensures Known(q0[..m + 1], c0) && Again(q0[..m + 1], c0) == Again(q0[..m], c0) + Rejoins(q0[m], c0[q0[m]])
    ensures var n := q0[m]; var c := c0[n];
      Passed(q0, c0, e0, m + 1, queue[1..] + Rejoins(n, c), cells[n := Visited(c)], dst + Said(n, c))
  {
    NextPrefix(q0, c0, m);
    FreshNext(q0, m);
    var n := q0[m];
    CellsStep(q0[..m], n, c0, cells);
    QueueStep(q0, m, Again(q0[..m], c0), Rejoins(n, c0[n]));
  }

  lemma QueueStep(q0: seq<nat>, m: nat, again: seq<nat>, more: seq<nat>)
    requires m < |q0|
    ensures (q0[m..] + again)[1..] + more == q0[m + 1..] + (again + more)
  {
  }

  // The loop breaks exactly when the whole of the old queue has been visited.
  lemma StopsAtEnd(q0: seq<nat>, c0: map<nat, Cell>, m: nat, queue: seq<nat>, until: Q.Until)
    requires Distinct(q0) && Known(q0, c0) && m <= |q0|
    requires queue == q0[m..] + Again(q0[..m], c0) && until == First(Again(q0[..m], c0))
    ensures queue == [] || until == Q.Stop(Q.Data(queue[0])) <==> m == |q0|
  {
    var back := Again(q0[..m], c0);
    if m < |q0| && back != [] { AgainIn(q0[..m], c0, back[0]); }
  }

  /** The pass keeps every node of the queue queued exactly once. */
  lemma PassKeepsValid(q0: seq<nat>, c0: map<nat, Cell>, e0: seq<Event>, m: nat,
      queue: seq<nat>, cells: map<nat, Cell>, dst: seq<Event>)
    requires Ready(q0, c0) && Passed(q0, c0, e0, m, queue, cells, dst)
    ensures Ready(queue, cells)
  {
    var back := Again(q0[..m], c0);
    AgainDistinct(q0[..m], c0);
    forall n ensures n in back <==> n in q0[..m] && Returns(c0[n]) { AgainIn(q0[..m], c0, n); }
    forall n | n in queue ensures n in cells && cells[n].word.queued {
      if n in back { VisitedMeans(c0[n]); }
    }
    forall i, j | 0 <= i < j < |queue| ensures queue[i] != queue[j] {
      assert queue[i] == if i < |q0| - m then q0[m + i] else back[i - (|q0| - m)];
      assert j >= |q0| - m ==> queue[j] in back;
    }
  }
}
