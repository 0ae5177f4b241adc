/** Dropping the queue: what the drain of `ReadinessQueue::drop` reaches and what it can leave
    behind; and the queue without concurrent producers. */
module QueueClose {
  import opened ReadyQueue
  import opened QueueProofs

  // ---------- the drain ----------

  // The queue is being closed and no producer is half-way behind a marker, nor can be: until the
  // closed marker is the head, the head is a data node.
  ghost predicate CleanlyClosed(s: State) {
    && s.closing && (Closed in s.order || (s.con.CloseMark? && s.head.Data?))
    && (forall p | p in s.linker :: p.Data? || s.linker[p] == POLLER)
    && !s.con.SleepClear? && !s.con.SleepSwap?
    && (s.con.PushEnd? && POLLER in s.enq ==> !s.enq[POLLER].Link?)
    && (s.con.Done? ==> s.order == [Closed])
  }

  lemma LinkerLinks(s: State, p: Node)
    requires Inv(s) && p in s.linker
    ensures s.linker[p] in s.enq && s.enq[s.linker[p]].Link?
  {
    var k := InOrder(s, p);
    assert GapInv(s, k);
  }

  lemma PollerLinksNothing(s: State)
    requires Inv(s) && CleanlyClosed(s) && !s.con.CloseMark?
    ensures POLLER in s.enq ==> !s.enq[POLLER].Link?
  {
    assert POLLER in s.enq ==> ThreadInv(s, POLLER);
  }

  lemma CleanLinks(s: State)
    requires Inv(s) && CleanlyClosed(s) && !s.con.CloseMark?
    ensures forall p | p in s.linker :: p.Data?
    ensures s.tail.Data? || s.tail == Closed || s.tail in s.next
    ensures s.tail == Closed ==> s.order == [Closed]
  {
    forall p | p in s.linker ensures p.Data? {
      LinkerLinks(s, p);
      PollerLinksNothing(s);
    }
    if s.tail == Closed {
      Single(s);
    } else {
      assert s.order[0] != s.order[|s.order| - 1];
      assert GapInv(s, 0);
    }
  }

  lemma CleanStep(s: State, a: Action)
    requires Inv(s) && CleanlyClosed(s) && Enabled(s, a)
    ensures CleanlyClosed(Step(s, a))
  {
    StepKeeps(s, a);
    if a.Advance? {
      assert ThreadInv(s, a.t);
      CleanAdvance(s, a.t);
    }
    if a.Consume? && !s.con.CloseMark? {
      CleanLinks(s);
      CleanConsume(s);
    }
  }

  lemma CleanAdvance(s: State, t: nat)
    requires CleanlyClosed(s) && ListInv(s) && MarkerInv(s) && t in s.enq && ThreadInv(s, t)
    ensures CleanlyClosed(EnqueueStep(s, t))
  {
    assert s.head in s.order by { assert s.order[|s.order| - 1] == s.head; }
  }

  lemma CleanConsume(s: State)
    requires Inv(s) && CleanlyClosed(s) && Enabled(s, Consume) && !s.con.CloseMark?
    requires (forall p | p in s.linker :: p.Data?) && (s.tail.Data? || s.tail == Closed || s.tail in s.next)
    requires s.tail == Closed ==> s.order == [Closed]
    ensures CleanlyClosed(ConsumeStep(s))
  {
    if s.tail in s.next { StillClosed(s); }
  }

  lemma {:induction false} CleanRun(s: State, run: seq<Action>)
    requires Inv(s) && CleanlyClosed(s) && ValidRun(s, run)
    ensures Inv(Run(s, run)) && CleanlyClosed(Run(s, run))
    decreases |run|
  {
    if run != [] {
      StepKeeps(s, run[0]);
      CleanStep(s, run[0]);
      CleanRun(Step(s, run[0]), run[1..]);
    }
  }

  // Whenever drop returns after that, all that was ever pushed has been returned.
  lemma CleanDrains(s: State, run: seq<Action>)
    requires Inv(s) && CleanlyClosed(s) && ValidRun(s, run) && Run(s, run).con.Done?
    ensures var s' := Run(s, run); s'.popped == s'.pushed && s'.order == [Closed]
  {
    CleanRun(s, run);
    NoIds([Closed]);
  }

  /** If no producer is half-way behind a marker when the closed marker becomes the head, then
      whenever drop returns, all that was ever pushed has been returned. A producer half-way
      behind a data node does not matter: the drain waits for it. */
  lemma CleanCloseDrains(s: State, run: seq<Action>)
    requires Inv(s) && s.con.CloseMark? && SwapHit(s, POLLER) && forall p | p in s.linker :: p.Data?
    requires ValidRun(EnqueueStep(s, POLLER), run) && Run(EnqueueStep(s, POLLER), run).con.Done?
    ensures var s' := Run(EnqueueStep(s, POLLER), run); s'.popped == s'.pushed && s'.order == [Closed]
  {
    var s1 := EnqueueStep(s, POLLER);
    AdvanceKeeps(s, POLLER);
    assert ThreadInv(s, POLLER);
    assert s1.order == s.order + [Closed];
    assert Closed in s1.order;
    CleanDrains(s1, run);
  }

  // In general drop returns on the first Dequeue::Empty. Where it gives up, the queue is
  // fully drained exactly if no producer is about to link a node to the marker at the tail.
  lemma DrainGivesUp(s: State)
    requires Inv(s) && s.closing && s.con.LoadNext? && Enabled(s, Consume)
    requires Step(s, Consume).con.Done? || Step(s, Consume).con.SleepClear?
    ensures s.popped == s.pushed && s.order == [Closed]
            <==> !exists t :: t in s.enq && s.enq[t].Link? && s.enq[t].prev == s.tail
  {
    assert s.tail !in s.next && !s.tail.Data?;
    if s.tail == Closed {
      Single(s);
      assert Ids([Closed]) == [] by { assert [Closed][1..] == []; }
      forall t | t in s.enq && s.enq[t].Link? ensures s.enq[t].prev != s.tail {
        assert ThreadInv(s, t);
      }
    } else {
      assert s.order[|s.order| - 1] == Closed;
      assert s.order[0] != Closed;
      assert GapInv(s, 0);
      assert s.enq[s.linker[s.tail]].Link?;
    }
  }

  // The second half of clear_sleep_marker cannot help: the closed marker is the head.
  lemma DrainEndsAfterSleepClear(s: State)
    requires Inv(s) && s.closing && (s.con.SleepClear? || s.con.SleepSwap?) && Enabled(s, Consume)
    ensures Step(s, Consume).order == s.order && Step(s, Consume).popped == s.popped
    ensures s.con.SleepSwap? ==> Step(s, Consume).con.Done?
  {
  }

  ghost predicate Reaches(s: State, s': State) {
    exists run :: ValidRun(s, run) && Run(s, run) == s'
  }

  lemma StepReaches(s: State, a: Action, s': State)
    requires Enabled(s, a) && Reaches(Step(s, a), s')
    ensures Reaches(s, s')
  {
    var rest :| ValidRun(Step(s, a), rest) && Run(Step(s, a), rest) == s';
    assert ([a] + rest)[1..] == rest;
    assert ValidRun(s, [a] + rest) && Run(s, [a] + rest) == s';
  }

  // A producer of node 7 has exchanged the head and not stored its link.
  const HALF_PUSHED := State(Data(7), End, map[], 0, map[1 := Link(Data(7), End)], Idle, Nobody, false,
                             [End, Data(7)], map[End := 1], [7], [])

  // The closed marker is linked behind it and the drain starts.
  const DRAINING := State(Closed, End, map[Data(7) := Closed], 0, map[1 := Link(Data(7), End)], Pass, Nobody, true,
                          [End, Data(7), Closed], map[End := 1], [7], [])

  lemma ReachHalfPushed(s': State)
    requires Reaches(HALF_PUSHED, s')
    ensures Reaches(Init(), s')
  {
    var s1 := Step(Init(), Begin(1, Data(7)));
    var s2 := Step(s1, Advance(1));
    var s3 := Step(s2, Advance(1));
    assert s3.enq == map[1 := Swap(Data(7), End)];
    assert Ids([Data(7)]) == [7];
    assert Step(s3, Advance(1)) == HALF_PUSHED;
    StepReaches(s3, Advance(1), s');
    StepReaches(s2, Advance(1), s');
    StepReaches(s1, Advance(1), s');
    StepReaches(Init(), Begin(1, Data(7)), s');
  }

  // The closed marker is the head, about to be linked behind node 7.
  const CLOSING := State(Closed, End, map[], 0, map[1 := Link(Data(7), End), POLLER := Link(Closed, Data(7))],
                         CloseMark, Nobody, true, [End, Data(7), Closed], map[End := 1, Data(7) := POLLER], [7], [])

  lemma ReachClosing(s': State)
    requires Reaches(CLOSING, s')
    ensures Reaches(HALF_PUSHED, s')
  {
    var s1 := Step(HALF_PUSHED, Close);
    var s2 := Step(s1, Advance(POLLER));
    var s3 := Step(s2, Advance(POLLER));
    assert Ids([Closed]) == [];
    assert Step(s3, Advance(POLLER)) == CLOSING;
    StepReaches(s3, Advance(POLLER), s');
    StepReaches(s2, Advance(POLLER), s');
    StepReaches(s1, Advance(POLLER), s');
    StepReaches(HALF_PUSHED, Close, s');
  }

  lemma ReachDraining(s': State)
    requires Reaches(DRAINING, s')
    ensures Reaches(CLOSING, s')
  {
    var s1 := Step(CLOSING, Advance(POLLER));
    assert s1.enq == map[1 := Link(Data(7), End)];
    assert s1.linker == map[End := 1];
    assert Step(s1, Consume) == DRAINING;
    StepReaches(s1, Consume, s');
    StepReaches(CLOSING, Advance(POLLER), s');
  }

  /** A producer that has exchanged the head but not stored its link is enough for drop to
      return with a pushed node left in the queue: its reference is never released. */
  lemma DrainCanLeaveNodes()
    ensures exists s :: Reaches(Init(), s) && s.con.Done? && s.pushed == [7] && s.popped == []
  {
    var s1 := Step(DRAINING, Dequeue);
    var s2 := Step(s1, Consume);
    assert s2.con.Done?;
    assert ValidRun(s2, []) && Run(s2, []) == s2;
    StepReaches(s1, Consume, s2);
    StepReaches(DRAINING, Dequeue, s2);
    ReachDraining(s2);
    ReachClosing(s2);
    ReachHalfPushed(s2);
  }

  // ---------- dequeue_node without concurrent producers ----------

  // The consumer runs on alone for at most k steps, through its own enqueue_node as well.
  function Alone(s: State, k: nat): State
    decreases k
  {
    if k == 0 then s
    else if POLLER in s.enq then Alone(EnqueueStep(s, POLLER), k - 1)
    else if ConsumerStep(s.con) then Alone(ConsumeStep(s), k - 1)
    else s
  }

  lemma AllLinked(s: State)
    requires Inv(s) && s.enq == map[]
    ensures s.tail != s.head ==> s.tail in s.next && |s.order| > 1 && s.next[s.tail] == s.order[1]
    ensures s.tail == s.head ==> s.order == [s.tail]
  {
    if s.tail == s.head {
      Single(s);
    } else {
      assert GapInv(s, 0);
    }
  }

  // With the end marker pushed behind it, the last node can be popped.
  lemma EndPushed(s: State) returns (s6: State)
    requires Inv(s) && s.enq == map[] && !s.closing && s.tail.Data? && s.con.CheckHead? && s.head == s.tail
    ensures Alone(s, 6) == Alone(s6, 1) && s6.enq == map[] && s6.con == PushEnd && s6.tail == s.tail
    ensures s6.tail in s6.next
    ensures s6.popped == s.popped && s6.pushed == s.pushed
  {
    var s2 := ConsumeStep(s);
    var s3 := EnqueueStep(s2, POLLER);
    var s4 := EnqueueStep(s3, POLLER);
    assert s4.enq[POLLER] == Swap(End, s.tail);
    var s5 := EnqueueStep(s4, POLLER);
    assert Ids([End]) == [];
    assert s5.enq[POLLER] == Link(End, s.tail);
    s6 := EnqueueStep(s5, POLLER);
    assert s6.enq == map[] && s6.con == PushEnd && s6.next[s6.tail] == End;
    assert Alone(s, 6) == Alone(s2, 5) == Alone(s3, 4) == Alone(s4, 3);
    assert Alone(s4, 3) == Alone(s5, 2) == Alone(s6, 1);
  }

  lemma LastAlone(s: State)
    requires Inv(s) && s.enq == map[] && !s.closing && s.tail.Data? && s.con.CheckHead? && s.head == s.tail
    ensures var s' := Alone(s, 6);
      s'.con == Got(s.tail) && s'.popped == s.popped + Ids([s.tail]) && s'.pushed == s.pushed && s'.enq == map[]
  {
    var s6 := EndPushed(s);
    assert Alone(s6, 1) == Pop(s6);
  }

  // From the point where tail.next is loaded and tail is a data node.
  lemma DecideAlone(s: State)
    requires Inv(s) && s.enq == map[] && !s.closing && s.tail.Data? && (s.con.LoadNext? || s.con.SkipMarker?)
    ensures var s' := Alone(s, 7);
      if s.until == Stop(s.tail) then s' == s.(con := Idle)
      else s'.con == Got(s.tail) && s'.popped == s.popped + Ids([s.tail]) && s'.pushed == s.pushed && s'.enq == map[]
  {
    var s1 := ConsumeStep(s);
    assert s1 == Decide(s);
    AllLinked(s);
    assert Alone(s, 7) == Alone(s1, 6);
    if s.until != Stop(s.tail) && s.tail !in s.next {
      DecideKeeps(s);
      LastAlone(s1);
    }
  }

  // The tail is a marker, a linked data node follows.
  lemma SkipAlone(s: State)
    requires Inv(s) && s.enq == map[] && !s.closing && s.con.LoadNext? && !s.tail.Data? && s.tail in s.next
    ensures var s1 := ConsumeStep(s); var s' := Alone(s, 8);
      && Ids(s.order) == Ids(s1.order) && s1.tail.Data? && s1.order != [] && s1.order[0] == s1.tail
      && if s.until == Stop(s1.tail) then s' == s1.(con := Idle)
         else
          && s'.con == Got(s1.tail) && s'.popped == s.popped + Ids([s1.tail])
          && s'.pushed == s.pushed && s'.enq == map[]
  {
    var s1 := ConsumeStep(s);
    SkipKeeps(s);
    assert s1.tail.Data?;
    IdsHead(s.order);
    assert Ids([s.tail]) == [];
    assert Alone(s, 8) == Alone(s1, 7);
    DecideAlone(s1);
  }

  // The tail is a marker and the list is empty.
  lemma EmptyAlone(s: State)
    requires Inv(s) && s.enq == map[] && !s.closing && s.con.LoadNext? && !s.tail.Data? && s.tail !in s.next
    ensures Ids(s.order) == []
    ensures var s' := Alone(s, 8); s'.con.Idle? && s'.enq == map[] && s'.pushed == s.pushed && s'.popped == s.popped
  {
    AllLinked(s);
    assert s.order == [s.tail] && s.order[1..] == [];
    var s1 := ConsumeStep(s);
    if s.tail == Sleep {
      var s2 := ConsumeStep(s1);
      var s3 := ConsumeStep(s2);
      assert Alone(s, 8) == Alone(s1, 7) == Alone(s2, 6) == Alone(s3, 5) == s3;
    } else {
      assert Alone(s, 8) == Alone(s1, 7) == s1;
    }
  }

  /** Without concurrent producers dequeue_node is the dequeue of a plain queue: it returns
      the front node, or nothing if the queue is empty or the front is the `until` node. */
  lemma DequeueAloneIsFifo(s: State)
    requires Inv(s) && s.enq == map[] && !s.closing && s.con.LoadNext?
    ensures var q := s.pushed[|s.popped|..]; var s' := Alone(s, 8);
      && s'.enq == map[] && s'.pushed == s.pushed
      && (if q == [] || s.until == Stop(Data(q[0])) then s'.con.Idle? && s'.popped == s.popped
          else s'.con == Got(Data(q[0])) && s'.popped == s.popped + [q[0]])
  {
    assert s.pushed[|s.popped|..] == Ids(s.order);
    if s.tail.Data? {
      DecideAlone(s);
      AloneMore(s, 7);
      FrontOf(s.order, s.tail);
    } else if s.tail in s.next {
      SkipAlone(s);
      FrontOf(ConsumeStep(s).order, ConsumeStep(s).tail);
    } else {
      EmptyAlone(s);
    }
  }

  lemma FrontOf(order: seq<Node>, tail: Node)
    requires order != [] && order[0] == tail && tail.Data?
    ensures Ids(order) != [] && Ids(order)[0] == tail.id && Ids([tail]) == [tail.id]
  {
    IdsHead(order);
  }

  // Nothing moves any more once the call has returned.
  lemma {:induction false} AloneMore(s: State, k: nat)
    requires POLLER !in Alone(s, k).enq && !ConsumerStep(Alone(s, k).con)
    ensures Alone(s, k + 1) == Alone(s, k)
    decreases k
  {
    if k > 0 {
      if POLLER in s.enq { AloneMore(EnqueueStep(s, POLLER), k - 1); }
      else if ConsumerStep(s.con) { AloneMore(ConsumeStep(s), k - 1); }
    }
  }
}
