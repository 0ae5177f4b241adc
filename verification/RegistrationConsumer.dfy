/** The consumer's steps, and the calls that start and end, keep the invariant of the protocol. */
module RegistrationConsumer {
  import opened Lists
  import opened ReadinessWord
  import opened Registration
  import opened RegistrationInv
  import opened RegistrationSteps
  import Q = ReadyQueue
  import QP = QueueProofs

  // ---------- the consumer in the queue ----------

  // At most some nodes moved between the list and the consumer's hand.
  ghost predicate PlacesOnly(s: State, s': State) {
    && s'.cell.Keys == s.cell.Keys
    && forall m | m in s.cell ::
      || s'.cell[m] == s.cell[m]
      || (s'.cell[m] == s.cell[m].(place := s'.cell[m].place) && Handled(s.cell[m].place) && Handled(s'.cell[m].place))
  }

  predicate Handled(p: Place) { p.InList? || p.Held? }

  ghost predicate ConsumerShape(s: State, s': State) {
    && s' == s.(q := s'.q, cell := s'.cell, hand := s'.hand)
    && s'.q.enq - {POLLER} == s.q.enq - {POLLER}
    && (s'.q.closing == s.q.closing || (forall t | t in s.pc :: !s.pc[t].Updating()))
  }

  lemma ConsumerThreads(s: State, s': State)
    requires Threads(s) && ConsumerShape(s, s') && PlacesOnly(s, s')
    ensures Threads(s')
  {
    SameElsewhere(s.q.enq, s'.q.enq, POLLER);
    forall u | u in s'.pc
      ensures s'.pc[u].n in s'.cell && PcOk(u, s'.pc[u], s'.cell[s'.pc[u].n], EnqOf(s'.q, u), s'.q.closing)
    {
      assert PcOk(u, s.pc[u], s.cell[s.pc[u].n], EnqOf(s.q, u), s.q.closing);
      assert EnqOf(s'.q, u) == EnqOf(s.q, u);
    }
  }

  lemma ConsumerCells(s: State, s': State)
    requires Threads(s) && Cells(s) && ConsumerShape(s, s') && PlacesOnly(s, s')
    ensures Cells(s')
  {
    SameElsewhere(s.q.enq, s'.q.enq, POLLER);
    forall m | m in s'.cell ensures CellOk(s'.cell[m]) && NamedOk(s', m) {
      assert CellOk(s.cell[m]) && NamedOk(s, m);
      var c := s'.cell[m];
      if c.place.Owed? {
        ThreadFacts(s, c.place.t);
        assert EnqOf(s'.q, c.place.t) == EnqOf(s.q, c.place.t);
      }
    }
  }

  lemma ConsumerKeeps(s: State, s': State)
    requires Inv(s) && ConsumerShape(s, s') && PlacesOnly(s, s')
    requires QP.Inv(s'.q) && Places(s') && HandInv(s') && EventsInv(s')
    ensures Inv(s')
  {
    ConsumerThreads(s, s');
    ConsumerCells(s, s');
  }

  // The order may have changed, but not in its data nodes.
  ghost predicate SameData(q: Q.State, q': Q.State) {
    forall m :: Q.Data(m) in q'.order <==> Q.Data(m) in q.order
  }

  // With an empty hand, steps that neither dequeue nor push a data node.
  lemma IdleHandKeeps(s: State, s': State)
    requires Inv(s) && ConsumerShape(s, s') && s'.cell == s.cell && s.hand.Empty? && s'.hand.Empty?
    requires QP.Inv(s'.q) && SameData(s.q, s'.q) && !s'.q.con.Got? && !s'.q.con.Requeue?
    ensures Inv(s')
  {
    forall n | n in s'.cell
      ensures s'.cell[n].place == InList <==> Q.Data(n) in s'.q.order
      ensures s'.cell[n].place == Held <==> InHand(s', n)
    {
      assert s.cell[n].place == InList <==> Q.Data(n) in s.q.order;
      assert s.cell[n].place == Held <==> InHand(s, n);
    }
    ConsumerKeeps(s, s');
  }

  lemma ControlShape(q: Q.State, a: Q.Action)
    requires QP.Inv(q) && Q.Enabled(q, a)
    requires a.Poll? || a.Returned? || a.StartPass? || a.Dequeue? || a.StopPass? || a.Close?
    ensures var q' := Q.Step(q, a);
      && q'.order == q.order && q'.enq - {POLLER} == q.enq - {POLLER} && (q'.closing == q.closing || a.Close?)
      && !q'.con.Got? && !q'.con.Requeue?
  {
  }

  lemma ControlKeeps(s: State, a: Q.Action)
    requires Inv(s) && Enabled(s, Queue(a))
    requires a.Poll? || a.Returned? || a.StartPass? || a.Dequeue? || a.StopPass? || a.Close?
    ensures Inv(QueueStep(s, a))
  {
    ControlShape(s.q, a);
    QP.StepKeeps(s.q, a);
    IdleHandKeeps(s, QueueStep(s, a));
  }

  // ---------- the consumer pushes ----------

  lemma MarkerPushShape(q: Q.State)
    requires QP.Inv(q) && POLLER in q.enq && !q.con.Requeue?
    ensures var q' := Q.EnqueueStep(q, POLLER);
      q'.enq - {POLLER} == q.enq - {POLLER} && q'.con == q.con && q'.closing == q.closing && SameData(q, q')
  {
    assert QP.ThreadInv(q, POLLER);
    var q' := Q.EnqueueStep(q, POLLER);
    if q'.order != q.order {
      assert q'.order == q.order + [q.enq[POLLER].node];
    }
  }

  lemma MarkerPushKeeps(s: State)
    requires Inv(s) && POLLER in s.q.enq && s.hand.Empty?
    ensures Inv(QueueStep(s, Q.Advance(POLLER)))
  {
    MarkerPushShape(s.q);
    QP.AdvanceKeeps(s.q, POLLER);
    IdleHandKeeps(s, QueueStep(s, Q.Advance(POLLER)));
  }

  // Pushing the node in hand back: from the head exchange on it is in the list.
  lemma BackPushShape(q: Q.State, n: nat)
    requires QP.Inv(q) && POLLER in q.enq && q.con == Q.Requeue(Q.Data(n)) && !q.closing
    ensures var q' := Q.EnqueueStep(q, POLLER); var m := Q.Data(n); var e, e' := q.enq[POLLER], EnqOf(q', POLLER);
      && q'.enq - {POLLER} == q.enq - {POLLER} && q'.con == q.con && q'.closing == q.closing
      && (e.Holds(m) || (e.Link? && m in q.order))
      && (e'.Some? ==> e'.e.Holds(m) || (e'.e.Link? && e'.e.node == m))
      && (if e.Holds(m) && e'.Some? && e'.e.Link? then q'.order == q.order + [m] else q'.order == q.order)
      && (e.Link? ==> e'.None?) && (e.Holds(m) ==> e'.Some?)
  {
    assert QP.ThreadInv(q, POLLER);
    if q.enq[POLLER].Link? { QP.LinkLinks(q, POLLER); }
  }

  // The node that is pushed back moves from the hand to the list.
  lemma BackPushPlaces(s: State, s': State, n: nat)
    requires Places(s) && n in s.cell && s.hand.Back? && s.hand.n == n && s'.hand == s.hand && POLLER in s.q.enq
    requires var m := Q.Data(n); var e, e' := s.q.enq[POLLER], EnqOf(s'.q, POLLER);
      && (e.Holds(m) || (e.Link? && m in s.q.order))
      && (e'.Some? ==> e'.e.Holds(m) || (e'.e.Link? && e'.e.node == m))
      && (if e.Holds(m) && e'.Some? && e'.e.Link? then s'.q.order == s.q.order + [m] else s'.q.order == s.q.order)
      && (e.Link? ==> e'.None?) && (e.Holds(m) ==> e'.Some?)
      && s'.cell == if e'.Some? && e'.e.Link? then s.cell[n := s.cell[n].(place := InList)] else s.cell
    ensures PlacesOnly(s, s') && Places(s')
  {
    assert s.cell[n].place == Held <==> InHand(s, n);
    assert s.cell[n].place == InList <==> Q.Data(n) in s.q.order;
    assert forall m | m != n :: Q.Data(m) in s'.q.order <==> Q.Data(m) in s.q.order;
    forall m | m in s'.cell
      ensures s'.cell[m].place == InList <==> Q.Data(m) in s'.q.order
      ensures s'.cell[m].place == Held <==> InHand(s', m)
    {
      assert s.cell[m].place == InList <==> Q.Data(m) in s.q.order;
      assert s.cell[m].place == Held <==> InHand(s, m);
    }
  }

  lemma BackPushHand(s: State, s': State, n: nat)
    requires HandInv(s) && EventsInv(s) && s.hand.Back? && s.hand.n == n && n in s.cell
    requires s' == s.(q := s'.q, cell := s'.cell) && s'.q.con == s.q.con && s'.q.closing == s.q.closing
    requires n in s'.cell && s'.cell[n] == s.cell[n].(place := s'.cell[n].place)
    ensures HandInv(s') && EventsInv(s')
  {
  }

  lemma BackPushKeeps(s: State)
    requires Inv(s) && POLLER in s.q.enq && s.hand.Back?
    ensures Inv(QueueStep(s, Q.Advance(POLLER)))
  {
    var n := s.hand.n;
    var s' := QueueStep(s, Q.Advance(POLLER));
    assert HandOk(s.hand, s.cell[n], s.q.con, s.q.closing);
    BackPushShape(s.q, n);
    BackPushPlaces(s, s', n);
    BackPushHand(s, s', n);
    QP.AdvanceKeeps(s.q, POLLER);
    ConsumerKeeps(s, s');
  }

  // ---------- the consumer dequeues ----------

  // How one step of the consumer moves the list.
  ghost predicate Moves(q: Q.State, q': Q.State) {
    && (q'.con.Got? ==>
          q.tail in q.next && q'.con.node == q.tail && (q.con.LoadNext? || q.con.SkipMarker? || q.con.PushEnd?))
    && (if q'.con.Got? || q'.con.SkipMarker? then q'.order == (if q.order == [] then [] else q.order[1..])
        else q'.order == q.order || (q.con.PrepSwap? && q.head == Q.End && q'.order == [Q.Sleep])
             || (q.con.SleepSwap? && q.head == Q.Sleep && q'.order == [Q.End]))
    && (q'.con.SkipMarker? ==> q.con.LoadNext? && !q.tail.Data?)
    && q'.closing == q.closing && !q'.con.Requeue?
  }

  lemma DecideMoves(q: Q.State)
    requires q.con.LoadNext? || q.con.SkipMarker?
    ensures Moves(q, Q.Decide(q)) && Q.Decide(q).enq == q.enq
  {
  }

  lemma ConsumeMoves(q: Q.State)
    requires Q.ConsumerStep(q.con) && !q.con.Requeue? && POLLER !in q.enq
    ensures Moves(q, Q.ConsumeStep(q)) && Q.ConsumeStep(q).enq - {POLLER} == q.enq - {POLLER}
  {
    if q.con.LoadNext? || q.con.SkipMarker? { DecideMoves(q); }
  }

  lemma ConsumeShape(q: Q.State)
    requires QP.Inv(q) && Q.ConsumerStep(q.con) && POLLER !in q.enq && !q.con.Requeue?
    ensures var q' := Q.ConsumeStep(q);
      && q'.enq - {POLLER} == q.enq - {POLLER} && q'.closing == q.closing && !q'.con.Requeue?
      && (q'.con.Got? ==> q'.con.node == q.tail && q.tail.Data? && q.order == [q.tail] + q'.order && Distinct(q.order))
      && (!q'.con.Got? ==> SameData(q, q'))
  {
    ConsumeMoves(q);
    var q' := Q.ConsumeStep(q);
    if q'.con.Got? {
      QP.PopKeeps(q);
      QP.StillClosed(q);
      assert q.order == [q.tail] + q.order[1..];
    } else {
      ConsumeSameData(q, q');
    }
  }

  lemma ConsumeSameData(q: Q.State, q': Q.State)
    requires QP.Inv(q)
    requires q'.order == q.order || (q'.order == [Q.Sleep] && q.head == q.tail && q.tail == Q.End)
             || (q'.order == [Q.End] && q.head == q.tail && q.tail == Q.Sleep)
             || (q'.order == q.order[1..] && !q.tail.Data?)
    ensures SameData(q, q')
  {
    if q'.order == [Q.Sleep] || q'.order == [Q.End] {
      if q'.order != q.order && q.head == q.tail { QP.Single(q); }
    }
    if q'.order == q.order[1..] && !q.tail.Data? {
      assert q.order == [q.tail] + q'.order;
    }
  }

  lemma PopShape(s: State, q': Q.State, n: nat)
    requires Inv(s) && s.hand.Empty? && n in s.cell
    requires s.q.order == [Q.Data(n)] + q'.order && Distinct(s.q.order)
    requires q'.con == Q.Got(Q.Data(n)) && q'.enq - {POLLER} == s.q.enq - {POLLER} && q'.closing == s.q.closing
    ensures var s' := s.(q := q', hand := Load(n), cell := s.cell[n := s.cell[n].(place := Held)]);
      && ConsumerShape(s, s') && PlacesOnly(s, s') && Places(s') && HandInv(s')
  {
    var s' := s.(q := q', hand := Load(n), cell := s.cell[n := s.cell[n].(place := Held)]);
    assert s.q.order[0] == Q.Data(n);
    assert CellOk(s.cell[n]) && (s.cell[n].place == InList <==> Q.Data(n) in s.q.order);
    forall i | 0 <= i < |q'.order| ensures q'.order[i] != Q.Data(n) {
      assert q'.order[i] == s.q.order[i + 1];
    }
    forall m | m in s'.cell
      ensures s'.cell[m].place == InList <==> Q.Data(m) in s'.q.order
      ensures s'.cell[m].place == Held <==> InHand(s', m)
    {
      assert s.cell[m].place == InList <==> Q.Data(m) in s.q.order;
      assert s.cell[m].place == Held <==> InHand(s, m);
    }
  }

  lemma PopStepKeeps(s: State)
    requires Inv(s) && s.hand.Empty? && Q.Enabled(s.q, Q.Consume) && !s.q.con.Requeue?
    requires Q.ConsumeStep(s.q).con.Got?
    ensures Inv(QueueStep(s, Q.Consume))
  {
    ConsumeShape(s.q);
    QP.ConsumeKeeps(s.q);
    var n := s.q.tail.id;
    assert s.q.order[0] == Q.Data(n);
    assert Q.Data(n) in s.q.order;
    PopShape(s, Q.ConsumeStep(s.q), n);
    ConsumerKeeps(s, QueueStep(s, Q.Consume));
  }

  lemma ConsumeStepKeeps(s: State)
    requires Inv(s) && Q.Enabled(s.q, Q.Consume) && s.hand.Empty?
    ensures Inv(QueueStep(s, Q.Consume))
  {
    ConsumeShape(s.q);
    QP.ConsumeKeeps(s.q);
    if Q.ConsumeStep(s.q).con.Got? {
      PopStepKeeps(s);
    } else {
      IdleHandKeeps(s, QueueStep(s, Q.Consume));
    }
  }

  // The push back is over; the event is still to be reported.
  lemma BackDoneKeeps(s: State)
    requires Inv(s) && Q.Enabled(s.q, Q.Consume) && s.hand.Back?
    ensures Inv(QueueStep(s, Q.Consume))
  {
    var s' := QueueStep(s, Q.Consume);
    QP.ConsumeKeeps(s.q);
    assert s'.hand == Emit(s.hand.n, s.hand.eff, s.hand.rd, s.hand.tok);
    forall m | m in s'.cell ensures s'.cell[m].place == Held <==> InHand(s', m) {
      assert s.cell[m].place == Held <==> InHand(s, m);
    }
    ConsumerKeeps(s, s');
  }

  lemma QueueActionKeeps(s: State, a: Q.Action)
    requires Inv(s) && Enabled(s, Queue(a))
    ensures Inv(QueueStep(s, a))
  {
    match a
    case Advance(_) => if s.hand.Back? { BackPushKeeps(s); } else { AdvanceHandEmpty(s); MarkerPushKeeps(s); }
    case Consume => if s.hand.Back? { BackDoneKeeps(s); } else { ConsumeStepKeeps(s); }
    case _ => ControlKeeps(s, a);
  }

  lemma AdvanceHandEmpty(s: State)
    requires Inv(s) && POLLER in s.q.enq && !s.hand.Back?
    ensures s.hand.Empty?
  {
    assert QP.ThreadInv(s.q, POLLER);
  }
}
