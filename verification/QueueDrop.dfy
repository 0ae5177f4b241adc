/** When the drop of the queue is complete: the exact condition at the call. */
module QueueDrop {
  import opened ReadyQueue
  import opened QueueProofs
  import opened QueueClose

  // Some run from here ends the drop with a pushed node that was not returned.
  ghost predicate Leaves(s: State) { exists s' :: Reaches(s, s') && s'.con.Done? && s'.popped != s'.pushed }

  lemma LeavesBefore(s: State, a: Action)
    requires Enabled(s, a) && Leaves(Step(s, a))
    ensures Leaves(s)
  {
    var s' :| Reaches(Step(s, a), s') && s'.con.Done? && s'.popped != s'.pushed;
    StepReaches(s, a, s');
  }

  lemma LeavesNow(s: State)
    requires s.con.Done? && s.popped != s.pushed
    ensures Leaves(s)
  {
    assert ValidRun(s, []) && Run(s, []) == s;
    assert Reaches(s, s);
  }

  // ---------- a producer half-way behind a marker ----------

  // Between two dequeues of the drain, with a half-linked marker k places from the tail.
  ghost predicate Stuck(s: State, k: nat) {
    && Inv(s) && s.closing && s.con.Pass? && s.head == Closed
    && k + 1 < |s.order| && !s.order[k].Data? && s.order[k + 1].Data? && s.order[k] !in s.next
    && forall i | 0 <= i < k :: s.order[i].Data?
  }

  lemma {:induction false} SomeIds(xs: seq<Node>, i: nat)
    requires i < |xs| && xs[i].Data?
    ensures Ids(xs) != []
    decreases i
  {
    if i > 0 { SomeIds(xs[1..], i - 1); }
  }

  // At the tail: the drain stops.
  lemma StuckAtTail(s: State)
    requires Stuck(s, 0)
    ensures Leaves(s)
  {
    SomeIds(s.order, 1);
    PollerOutside(s);
    var s1 := Step(s, Dequeue);
    var s2 := Step(s1, Consume);
    if s.tail == Sleep {
      var s3 := Step(s2, Consume);
      var s4 := Step(s3, Consume);
      assert s4.con.Done? && s4.popped == s.popped && s4.pushed == s.pushed;
      LeavesNow(s4);
      LeavesBefore(s3, Consume);
      LeavesBefore(s2, Consume);
    } else {
      assert s2.con.Done? && s2.popped == s.popped;
      LeavesNow(s2);
    }
    LeavesBefore(s1, Consume);
    LeavesBefore(s, Dequeue);
  }

  // The producer behind the data node at the tail stores its link.
  lemma LinkTail(s: State, k: nat) returns (t: nat)
    requires Stuck(s, k) && k > 0 && s.tail !in s.next
    ensures t in s.enq && Stuck(Step(s, Advance(t)), k) && s.tail in Step(s, Advance(t)).next
  {
    assert GapInv(s, 0);
    t := s.linker[s.tail];
    PollerOutside(s);
    StepKeeps(s, Advance(t));
    var s' := Step(s, Advance(t));
    assert s'.order == s.order && s'.next == s.next[s.tail := s.order[1]];
    assert s.order[k] != s.order[0];
  }

  // A linked data node at the tail is returned.
  lemma PopTail(s: State, k: nat)
    requires Stuck(s, k) && k > 0 && s.tail in s.next
    ensures var s1 := Step(s, Dequeue);
      && POLLER !in s1.enq && var s2 := Step(s1, Consume);
      && s2.con.Got? && Stuck(Step(s2, Forget), k - 1)
  {
    PollerOutside(s);
    var s1 := Step(s, Dequeue);
    var s2 := Step(s1, Consume);
    assert s.order[0].Data?;
    StepKeeps(s, Dequeue);
    StepKeeps(s1, Consume);
    StepKeeps(s2, Forget);
    assert s2.order == s.order[1..];
  }

  lemma {:induction false} StuckLeaves(s: State, k: nat)
    requires Stuck(s, k)
    ensures Leaves(s)
    decreases k, 1
  {
    if k == 0 {
      StuckAtTail(s);
    } else if s.tail in s.next {
      PopStuck(s, k);
    } else {
      var t := LinkTail(s, k);
      PopStuck(Step(s, Advance(t)), k);
      LeavesBefore(s, Advance(t));
    }
  }

  lemma {:induction false} PopStuck(s: State, k: nat)
    requires Stuck(s, k) && k > 0 && s.tail in s.next
    ensures Leaves(s)
    decreases k, 0
  {
    PopTail(s, k);
    var s1 := Step(s, Dequeue);
    var s2 := Step(s1, Consume);
    StuckLeaves(Step(s2, Forget), k - 1);
    LeavesBefore(s2, Forget);
    LeavesBefore(s1, Consume);
    LeavesBefore(s, Dequeue);
  }

  // ---------- from the call of drop ----------

  // The closed marker has become the head behind a half-linked marker.
  lemma HalfLinkedLeaves(s: State, p: Node)
    requires Inv(s) && s.con.CloseMark? && SwapHit(s, POLLER) && p in s.linker && !p.Data?
    ensures Leaves(EnqueueStep(s, POLLER))
  {
    AdvanceKeeps(s, POLLER);
    var s1 := EnqueueStep(s, POLLER);
    var k := InOrder(s, p);
    MarkerPlace(s, k);
    AdvanceKeeps(s1, POLLER);
    var s2 := EnqueueStep(s1, POLLER);
    assert s1.enq[POLLER] == Link(Closed, s.head) by { assert ThreadInv(s, POLLER); }
    StepKeeps(s2, Consume);
    var s3 := Step(s2, Consume);
    assert s3.order == s.order + [Closed];
    assert p !in s.next && p != s.head;
    assert Stuck(s3, k);
    StuckLeaves(s3, k);
    LeavesBefore(s2, Consume);
    LeavesBefore(s1, Advance(POLLER));
  }

  // A half-linked marker has only data nodes before it and one right after it.
  lemma MarkerPlace(s: State, k: nat)
    requires Inv(s) && k < |s.order| && !s.order[k].Data? && s.order[k] in s.linker && Closed !in s.order
    ensures k + 1 < |s.order| && s.order[k] !in s.next && s.order[k + 1].Data?
    ensures forall i | 0 <= i < k :: s.order[i].Data?
  {
    assert s.order[k] in s.order && s.order[k] != s.head;
    assert GapInv(s, k);
    assert s.order[k + 1] in s.order;
    forall i | 0 <= i < k ensures s.order[i].Data? {
      assert s.order[i] in s.order;
    }
  }

  // A marker is half-linked before the closed marker is pushed.
  lemma ClosingLeaves(s1: State, p: Node)
    requires Inv(s1) && s1.con.CloseMark? && POLLER in s1.enq && s1.enq[POLLER] == ClearNext(Closed)
    requires p in s1.linker && !p.Data? && Closed !in s1.order
    ensures Leaves(s1)
  {
    var s2 := EnqueueStep(s1, POLLER);
    StepKeeps(s1, Advance(POLLER));
    var s3 := EnqueueStep(s2, POLLER);
    StepKeeps(s2, Advance(POLLER));
    assert s1.head in s1.order by { assert s1.order[|s1.order| - 1] == s1.head; }
    assert s3.enq[POLLER] == Swap(Closed, s1.head) && s3.head == s1.head && s3.linker == s1.linker;
    HalfLinkedLeaves(s3, p);
    LeavesBefore(s3, Advance(POLLER));
    LeavesBefore(s2, Advance(POLLER));
    LeavesBefore(s1, Advance(POLLER));
  }

  // After the call a producer can still begin a push.
  lemma {:induction false} Above(ids: set<nat>) returns (b: nat)
    ensures b > 0 && forall x | x in ids :: x < b
    decreases |ids|
  {
    if ids == {} {
      b := 1;
    } else {
      var x :| x in ids;
      var c := Above(ids - {x});
      b := if x < c then c else x + 1;
      assert ids == (ids - {x}) + {x};
    }
  }

  // A thread that is not pushing, and a node that nobody has.
  lemma SomebodyElse(s: State) returns (t: nat, id: nat)
    ensures t != POLLER && t !in s.enq && Fresh(s, Data(id))
  {
    t := Above(s.enq.Keys);
    var held := set u | u in s.enq && !s.enq[u].Awaken? && s.enq[u].node.Data? :: s.enq[u].node.id;
    var listed := set n | n in s.order && n.Data? :: n.id;
    id := Above(held + listed);
    assert forall n | n in s.order && n.Data? :: n.id in listed;
    assert forall u | u in s.enq && !s.enq[u].Awaken? && s.enq[u].node.Data? :: s.enq[u].node.id in held;
  }

  // A producer gets half-way behind the head.
  lemma PushHalf(s1: State, t: nat, n: Node)
    requires Inv(s1) && s1.con.CloseMark? && POLLER in s1.enq && s1.enq[POLLER] == ClearNext(Closed)
    requires s1.head != Closed
    requires Closed !in s1.order && t != POLLER && t !in s1.enq && n.Data? && Fresh(s1, n) && !s1.head.Data?
    ensures Leaves(s1)
  {
    var s2 := Step(s1, Begin(t, n));
    StepKeeps(s1, Begin(t, n));
    var s3 := Step(s2, Advance(t));
    StepKeeps(s2, Advance(t));
    var s4 := Step(s3, Advance(t));
    StepKeeps(s3, Advance(t));
    assert s4.enq[t] == Swap(n, s1.head) && s4.head == s1.head && s4.order == s1.order;
    SwapHalf(s4, t, n);
    LeavesBefore(s3, Advance(t));
    LeavesBefore(s2, Advance(t));
    LeavesBefore(s1, Begin(t, n));
  }

  lemma SwapHalf(s4: State, t: nat, n: Node)
    requires Inv(s4) && s4.con.CloseMark? && POLLER in s4.enq && s4.enq[POLLER] == ClearNext(Closed)
    requires Closed !in s4.order
    requires t in s4.enq && t != POLLER && n.Data? && s4.enq[t] == Swap(n, s4.head) && s4.head != Closed
    requires !s4.head.Data?
    ensures Leaves(s4)
  {
    var s5 := Step(s4, Advance(t));
    StepKeeps(s4, Advance(t));
    assert s5.linker == s4.linker[s4.head := t];
    ClosingLeaves(s5, s4.head);
    LeavesBefore(s4, Advance(t));
  }

  // drop is called while a marker is the head: a producer may get half-way behind it before the
  // closed marker is the head.
  lemma HeadLeaves(s: State)
    requires Inv(s) && s.con.Idle? && !s.head.Data?
    ensures Leaves(Step(s, Close))
  {
    PollerOutside(s);
    var t, id := SomebodyElse(s);
    StepKeeps(s, Close);
    assert s.head in s.order by { assert s.order[|s.order| - 1] == s.head; }
    PushHalf(Step(s, Close), t, Data(id));
  }

  // ---------- the theorem ----------

  // No marker is the head or half-linked.
  ghost predicate Passable(s: State) { s.head.Data? && forall p | p in s.linker :: p.Data? }

  // Whenever the drop that is called now returns, every node ever pushed has been returned.
  ghost predicate DropComplete(s: State)
    requires Enabled(s, Close)
  {
    forall run :: ValidRun(Step(s, Close), run) && Run(Step(s, Close), run).con.Done? ==>
      Run(Step(s, Close), run).popped == Run(Step(s, Close), run).pushed
  }

  lemma PassableDrains(s: State, run: seq<Action>)
    requires Inv(s) && s.con.Idle? && Passable(s)
    requires ValidRun(Step(s, Close), run) && Run(Step(s, Close), run).con.Done?
    ensures Run(Step(s, Close), run).popped == Run(Step(s, Close), run).pushed
  {
    PollerOutside(s);
    StepKeeps(s, Close);
    CleanDrains(Step(s, Close), run);
  }

  /** Exactly when the drop of the queue is complete, as far as the call can tell: in every run from
      the call that returns, with any producers, everything pushed has been returned, if and only if at the call
      the head is a data node and no producer is half-way behind a marker. */
  lemma DropDrainsExactly(s: State)
    requires Inv(s) && s.con.Idle?
    ensures DropComplete(s) <==> Passable(s)
  {
    if Passable(s) {
      forall run | ValidRun(Step(s, Close), run) && Run(Step(s, Close), run).con.Done?
        ensures Run(Step(s, Close), run).popped == Run(Step(s, Close), run).pushed
      {
        PassableDrains(s, run);
      }
    } else {
      if !s.head.Data? {
        HeadLeaves(s);
      } else {
        var p :| p in s.linker && !p.Data?;
        CloseLeaves(s, p);
      }
      var s' :| Reaches(Step(s, Close), s') && s'.con.Done? && s'.popped != s'.pushed;
      var run :| ValidRun(Step(s, Close), run) && Run(Step(s, Close), run) == s';
    }
  }

  // drop is called while a marker is half-linked.
  lemma CloseLeaves(s: State, p: Node)
    requires Inv(s) && s.con.Idle? && p in s.linker && !p.Data?
    ensures Leaves(Step(s, Close))
  {
    StepKeeps(s, Close);
    ClosingLeaves(Step(s, Close), p);
  }
}
