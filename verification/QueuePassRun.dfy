/** The pass of QueuePass.dfy as a run of the queue's machine: with no push in flight when it starts
    and none begun meanwhile, the steps of dequeue_node and of the re-push do to the list what
    ReadinessQueue.Poll does to its sequence. */
module QueuePassRun {
  import opened Lists
  import opened ReadyQueue
  import opened QueueProofs
  import opened QueueClose
  import P = QueuePass
  import R = Registration

  // The nodes in the queue.
  function Queue(s: State): seq<nat>
    requires |s.popped| <= |s.pushed|
  {
    s.pushed[|s.popped|..]
  }

  // Between two dequeues of a pass, nobody pushing.
  ghost predicate InPass(s: State) { Inv(s) && s.enq == map[] && !s.closing && s.con.Pass? && |s.popped| <= |s.pushed| }

  lemma {:induction false} ReachesTrans(a: State, b: State, c: State, run: seq<Action>)
    requires ValidRun(a, run) && Run(a, run) == b && Reaches(b, c)
    ensures Reaches(a, c)
    decreases |run|
  {
    if run != [] {
      ReachesTrans(Step(a, run[0]), b, c, run[1..]);
      StepReaches(a, run[0], c);
    }
  }

  lemma Then(a: State, b: State, c: State)
    requires Reaches(a, b) && Reaches(b, c)
    ensures Reaches(a, c)
  {
    var run :| ValidRun(a, run) && Run(a, run) == b;
    ReachesTrans(a, b, c, run);
  }

  lemma Here(s: State)
    ensures Reaches(s, s)
  {
    assert ValidRun(s, []) && Run(s, []) == s;
  }

  lemma One(s: State, a: Action)
    requires Enabled(s, a)
    ensures Reaches(s, Step(s, a))
  {
    Here(Step(s, a));
    StepReaches(s, a, Step(s, a));
  }

  // The consumer's own steps are steps of the machine.
  lemma {:induction false} AloneReaches(s: State, k: nat)
    requires Inv(s)
    ensures Reaches(s, Alone(s, k)) && Inv(Alone(s, k))
    decreases k
  {
    if k > 0 && POLLER in s.enq {
      StepKeeps(s, Advance(POLLER));
      AloneReaches(Step(s, Advance(POLLER)), k - 1);
      StepReaches(s, Advance(POLLER), Alone(s, k));
    } else if k > 0 && ConsumerStep(s.con) {
      StepKeeps(s, Consume);
      AloneReaches(Step(s, Consume), k - 1);
      StepReaches(s, Consume, Alone(s, k));
    } else {
      Here(s);
    }
  }

  lemma {:induction false} AloneUntil(s: State, k: nat)
    ensures Alone(s, k).until == s.until && Alone(s, k).closing == s.closing
    decreases k
  {
    if k > 0 && POLLER in s.enq {
      AloneUntil(EnqueueStep(s, POLLER), k - 1);
    } else if k > 0 && ConsumerStep(s.con) {
      ConsumeUntil(s);
      AloneUntil(ConsumeStep(s), k - 1);
    }
  }

  lemma ConsumeUntil(s: State)
    requires ConsumerStep(s.con)
    ensures ConsumeStep(s).until == s.until && ConsumeStep(s).closing == s.closing
  {
    if s.con.LoadNext? || s.con.SkipMarker? { DecideUntil(s); }
  }

  lemma DecideUntil(s: State)
    ensures Decide(s).until == s.until && Decide(s).closing == s.closing
  {
  }

  // A node is in the list exactly if it is in the queue, and there once.
  lemma {:induction false} IdsIn(xs: seq<Node>, n: nat)
    ensures n in Ids(xs) <==> Data(n) in xs
    decreases |xs|
  {
    if xs != [] { IdsIn(xs[1..], n); }
  }

  lemma {:induction false} IdsOnce(xs: seq<Node>)
    requires Distinct(xs)
    ensures Distinct(Ids(xs))
    decreases |xs|
  {
    if xs != [] {
      IdsOnce(xs[1..]);
      if xs[0].Data? { IdsIn(xs[1..], xs[0].id); }
    }
  }

  // ---------- one node ----------

  // The dequeue that returns the front node.
  lemma DequeueFront(s: State) returns (s': State)
    requires InPass(s) && Queue(s) != [] && s.until != Stop(Data(Queue(s)[0]))
    ensures Reaches(s, s') && Inv(s') && s'.enq == map[] && !s'.closing && s'.until == s.until
    ensures s'.con == Got(Data(Queue(s)[0])) && s'.pushed == s.pushed && s'.popped == s.popped + [Queue(s)[0]]
  {
    var s1 := Step(s, Dequeue);
    StepKeeps(s, Dequeue);
    One(s, Dequeue);
    DequeueAloneIsFifo(s1);
    AloneReaches(s1, 8);
    AloneUntil(s1, 8);
    s' := Alone(s1, 8);
    Then(s, s1, s');
  }

  // The dequeue that ends the pass.
  lemma DequeueNothing(s: State) returns (s': State)
    requires InPass(s) && (Queue(s) == [] || s.until == Stop(Data(Queue(s)[0])))
    ensures Reaches(s, s') && Inv(s') && s'.con.Idle? && s'.pushed == s.pushed && s'.popped == s.popped
  {
    var s1 := Step(s, Dequeue);
    StepKeeps(s, Dequeue);
    One(s, Dequeue);
    DequeueAloneIsFifo(s1);
    AloneReaches(s1, 8);
    AloneUntil(s1, 8);
    s' := Alone(s1, 8);
    Then(s, s1, s');
  }

  // enqueue_node for the node just dequeued, with nobody else pushing.
  lemma PutBackAlone(s: State, n: nat) returns (s': State)
    requires Inv(s) && s.enq == map[] && !s.closing && s.con == Got(Data(n)) && Data(n) !in s.order
    ensures Reaches(s, s') && InPass(s') && s'.pushed == s.pushed + [n] && s'.popped == s.popped
    ensures s'.until == if s.until.Nobody? then Stop(Data(n)) else s.until
  {
    var s1 := Step(s, PutBack);
    StepKeeps(s, PutBack);
    One(s, PutBack);
    PushedBack(s, n);
    AloneReaches(s1, 5);
    AloneUntil(s1, 5);
    s' := Alone(s1, 5);
    Then(s, s1, s');
  }

  // The four steps of enqueue_node and the return.
  lemma PushedBack(s: State, n: nat)
    requires Inv(s) && s.enq == map[] && !s.closing && s.con == Got(Data(n)) && Data(n) !in s.order
    ensures var s' := Alone(Step(s, PutBack), 5);
      s'.enq == map[] && s'.con.Pass? && s'.pushed == s.pushed + [n] && s'.popped == s.popped
  {
    NotClosed(s);
    var s1 := Step(s, PutBack);
    var s2 := EnqueueStep(s1, POLLER);
    var s3 := EnqueueStep(s2, POLLER);
    assert s3.enq[POLLER] == Swap(Data(n), s.head);
    var s4 := EnqueueStep(s3, POLLER);
    assert Ids([Data(n)]) == [n] by { assert [Data(n)][1..] == []; }
    assert s4.enq[POLLER] == Link(Data(n), s.head);
    var s5 := EnqueueStep(s4, POLLER);
    assert s5.enq == map[] && s5.con == Requeue(Data(n));
    assert Alone(s1, 5) == Alone(s2, 4) == Alone(s3, 3);
    assert Alone(s3, 3) == Alone(s4, 2) == Alone(s5, 1) == ConsumeStep(s5);
  }

  lemma NotClosed(s: State)
    requires Inv(s) && !s.closing
    ensures s.head != Closed
  {
    assert s.head in s.order by { assert s.order[|s.order| - 1] == s.head; }
  }

  // One turn of the loop of poll, which pushes the node back or not.
  lemma VisitFront(s: State, back: bool) returns (s': State)
    requires InPass(s) && Queue(s) != [] && s.until != Stop(Data(Queue(s)[0]))
    ensures var q, n := Queue(s), Queue(s)[0];
      && Reaches(s, s') && InPass(s') && s'.popped == s.popped + [n]
      && Queue(s') == q[1..] + (if back then [n] else [])
      && s'.until == if back && s.until.Nobody? then Stop(Data(n)) else s.until
  {
    var n := Queue(s)[0];
    var s1 := DequeueFront(s);
    OutOfList(s, s1, n);
    if back {
      s' := PutBackAlone(s1, n);
    } else {
      s' := Step(s1, Forget);
      StepKeeps(s1, Forget);
      One(s1, Forget);
    }
    Then(s, s1, s');
  }

  lemma OutOfList(s: State, s1: State, n: nat)
    requires Inv(s) && Inv(s1) && |s.popped| < |s.pushed| && n == s.pushed[|s.popped|]
    requires s1.pushed == s.pushed && s1.popped == s.popped + [n]
    ensures Data(n) !in s1.order
  {
    assert s.pushed[|s.popped|..] == Ids(s.order);
    assert s1.pushed[|s1.popped|..] == Ids(s1.order);
    assert Ids(s.order) == [n] + Ids(s1.order);
    IdsOnce(s.order);
    IdsIn(s1.order, n);
  }

  // ---------- the pass ----------

  lemma QueueOnce(s: State)
    requires Inv(s) && |s.popped| <= |s.pushed|
    ensures Distinct(Queue(s))
  {
    assert Queue(s) == Ids(s.order);
    IdsOnce(s.order);
  }

  // The queue after m visits.
  ghost predicate Visited(s: State, cells: map<nat, R.Cell>, m: nat, s': State)
    requires InPass(s)
  {
    var q := Queue(s);
    && m <= |q| && P.Known(q[..m], cells)
    && Reaches(s, s') && InPass(s') && s'.popped == s.popped + q[..m]
    && Queue(s') == q[m..] + P.Again(q[..m], cells)
    && s'.until == P.First(P.Again(q[..m], cells))
  }

  lemma NextVisit(s: State, cells: map<nat, R.Cell>, m: nat, s1: State) returns (s': State)
    requires InPass(s) && m < |Queue(s)| && P.Known(Queue(s), cells) && Distinct(Queue(s)) && Visited(s, cells, m, s1)
    ensures Visited(s, cells, m + 1, s')
  {
    var q := Queue(s);
    var n, c := q[m], cells[q[m]];
    P.NextPrefix(q, cells, m);
    P.StopsAtEnd(q, cells, m, Queue(s1), s1.until);
    assert Queue(s1)[0] == n;
    s' := VisitFront(s1, P.Returns(c));
    Then(s, s1, s');
    P.QueueStep(q, m, P.Again(q[..m], cells), P.Rejoins(n, c));
    P.FreshNext(q, m);
  }

  /** From the start of a pass, with no push in flight, the machine can visit any number m of the nodes
      of its queue; then the queue is the unvisited rest and the nodes that return, `until` is the first
      of these, and exactly if m is all of them the next dequeue finds nothing. */
  lemma {:induction false} PassIsRun(s: State, cells: map<nat, R.Cell>, m: nat) returns (s': State)
    requires InPass(s) && s.until.Nobody? && m <= |Queue(s)| && P.Known(Queue(s), cells)
    ensures Visited(s, cells, m, s')
    ensures Queue(s') == [] || s'.until == Stop(Data(Queue(s')[0])) <==> m == |Queue(s)|
    decreases m
  {
    QueueOnce(s);
    if m == 0 {
      s' := s;
      Here(s);
    } else {
      var s1 := PassIsRun(s, cells, m - 1);
      s' := NextVisit(s, cells, m - 1, s1);
    }
    P.StopsAtEnd(Queue(s), cells, m, Queue(s'), s'.until);
  }

  /** So the complete pass is a run of the machine that ends the poll, with every node visited once and
      the level nodes that return left in the queue, in their order. */
  lemma CompletePass(s: State, cells: map<nat, R.Cell>) returns (s': State)
    requires InPass(s) && s.until.Nobody? && P.Known(Queue(s), cells)
    ensures Reaches(s, s') && s'.con.Idle? && |s'.popped| <= |s'.pushed|
    ensures s'.popped == s.popped + Queue(s) && Queue(s') == P.Again(Queue(s), cells)
  {
    var q := Queue(s);
    var s1 := PassIsRun(s, cells, |q|);
    assert q[..|q|] == q;
    s' := DequeueNothing(s1);
    Then(s, s1, s');
  }
}
