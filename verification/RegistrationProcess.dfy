/** The consumer's steps on the node in its hand, the calls that begin and end outside any
    function, and with them: every run keeps the invariant. */
module RegistrationProcess {
  import opened ReadinessWord
  import opened Registration
  import opened RegistrationInv
  import opened RegistrationSteps
  import opened RegistrationConsumer
  import Q = ReadyQueue
  import QP = QueueProofs

  // ---------- the node in hand ----------

  // s' is s after a consumer's step on node n.
  ghost predicate HandShape(s: State, s': State, n: nat, c': Cell) {
    && s' == s.(q := s'.q, hand := s'.hand, cell := s.cell[n := c'], events := s'.events, claims := s'.claims)
    && s'.q.enq - {POLLER} == s.q.enq - {POLLER} && s'.q.closing == s.q.closing && s'.q.order == s.q.order
  }

  // The names on the node stay, and nobody else relied on what changed.
  ghost predicate HandCell(c: Cell, c': Cell) {
    && CellOk(c') && (c'.place == c.place || (c.place.Held? && (c'.place.Held? || c'.place.Nowhere?)))
    && c'.adding == c.adding && c'.lock == c.lock && c'.reg == c.reg
    && c'.attached == c.attached && c'.setters == c.setters
    && c'.word.dropped == c.word.dropped && c'.slots == c.slots && c'.word.wr == c.word.wr
    && (c'.word.rd == c.word.rd || c'.word.rd == c.word.wr)
  }

  lemma HandThreads(s: State, s': State, n: nat, c': Cell)
    requires Threads(s) && n in s.cell && HandShape(s, s', n, c') && HandCell(s.cell[n], c')
    ensures Threads(s')
  {
    SameElsewhere(s.q.enq, s'.q.enq, POLLER);
    forall u | u in s'.pc
      ensures s'.pc[u].n in s'.cell && PcOk(u, s'.pc[u], s'.cell[s'.pc[u].n], EnqOf(s'.q, u), s'.q.closing)
    {
      assert PcOk(u, s.pc[u], s.cell[s.pc[u].n], EnqOf(s.q, u), s.q.closing);
      assert EnqOf(s'.q, u) == EnqOf(s.q, u);
      if s.pc[u].n == n { QuietKeeps(u, s.pc[u], s.cell[n], c', EnqOf(s.q, u), s.q.closing); }
    }
  }

  lemma HandCells(s: State, s': State, n: nat, c': Cell)
    requires Inv(s) && n in s.cell && HandShape(s, s', n, c') && HandCell(s.cell[n], c')
    ensures Cells(s')
  {
    SameElsewhere(s.q.enq, s'.q.enq, POLLER);
    forall m | m in s'.cell ensures CellOk(s'.cell[m]) && NamedOk(s', m) {
      assert CellOk(s.cell[m]) && NamedOk(s, m);
      var c := s.cell[m];
      if c.place.Owed? {
        ThreadFacts(s, c.place.t);
        assert EnqOf(s'.q, c.place.t) == EnqOf(s.q, c.place.t);
      }
    }
  }

  lemma HandPlaces(s: State, s': State, n: nat, c': Cell)
    requires Places(s) && n in s.cell && HandShape(s, s', n, c') && HandCell(s.cell[n], c')
    requires !s.hand.Empty? && s.hand.n == n && (s'.hand.Empty? || s'.hand.n == n)
    requires c'.place == Held <==> InHand(s', n)
    ensures Places(s')
  {
    assert s.cell[n].place == InList <==> Q.Data(n) in s.q.order;
    forall m | m in s'.cell
      ensures s'.cell[m].place == InList <==> Q.Data(m) in s'.q.order
      ensures s'.cell[m].place == Held <==> InHand(s', m)
    {
      assert s.cell[m].place == InList <==> Q.Data(m) in s.q.order;
      assert s.cell[m].place == Held <==> InHand(s, m);
    }
  }

  lemma HandKeeps(s: State, s': State, n: nat, c': Cell)
    requires Inv(s) && n in s.cell && HandShape(s, s', n, c') && HandCell(s.cell[n], c') && QP.Inv(s'.q)
    requires !s.hand.Empty? && s.hand.n == n && (s'.hand.Empty? || s'.hand.n == n) && HandInv(s') && EventsInv(s')
    requires c'.place == Held <==> InHand(s', n)
    ensures Inv(s')
  {
    HandThreads(s, s', n, c');
    HandCells(s, s', n, c');
    HandPlaces(s, s', n, c');
  }

  lemma HandFacts(s: State)
    requires Inv(s) && !s.hand.Empty?
    ensures var n := s.hand.n;
      n in s.cell && CellOk(s.cell[n]) && NamedOk(s, n) && HandOk(s.hand, s.cell[n], s.q.con, s.q.closing)
    ensures InHand(s, s.hand.n) <==> s.cell[s.hand.n].place == Held
    ensures !s.hand.Back? ==> POLLER !in s.q.enq
  {
    if !s.hand.Back? { QP.PollerOutside(s.q); }
  }

  lemma LoadKeeps(s: State)
    requires Inv(s) && s.hand.Load? && ProcessEnabled(s)
    ensures Inv(ProcessStep(s))
  {
    HandFacts(s);
    var n := s.hand.n;
    assert s.cell[n := s.cell[n]] == s.cell;
    HandKeeps(s, ProcessStep(s), n, s.cell[n]);
  }

  lemma RetryKeeps(s: State)
    requires Inv(s) && s.hand.Swap? && ProcessEnabled(s)
    requires s.hand.seen.dropped || (Consumed(s.hand.seen) != s.hand.seen && s.cell[s.hand.n].word != s.hand.seen)
    ensures Inv(ProcessStep(s))
  {
    HandFacts(s);
    var n := s.hand.n;
    assert s.cell[n := s.cell[n]] == s.cell;
    HandKeeps(s, ProcessStep(s), n, s.cell[n]);
  }

  lemma ConsumedFacts(w: Word)
    requires w.queued
    ensures var w' := Consumed(w);
      && w' == w.(rd := w.wr, interest := w'.interest, queued := w'.queued)
      && (w'.queued <==> !w.Edge() && w.Effective() != 0)
      && (w'.interest == if w.Edge() && w.Oneshot() && w.Effective() != 0 then 0 else w.interest)
      && (w' == w ==> w.rd == w.wr && w.queued && !w.Edge() && w.Effective() != 0)
      && (w.Effective() != 0 ==> w.interest != 0)
  {
  }

  function SettledCell(c: Cell, seen: Word): Cell {
    var next := Consumed(seen);
    var c1 := c.(word := if next == seen then c.word else next,
                 fired := if seen.Effective() != 0 && seen.Edge() && seen.Oneshot() then c.fired + 1 else c.fired);
    if next.queued then c1 else c1.(place := Nowhere)
  }

  // The state left behind: what the node promises still holds, and the slot to read is right.
  lemma SettledOk(c: Cell, seen: Word, tok: nat)
    requires CellOk(c) && c.qref && c.place == Held && seen.queued && !seen.dropped && seen.Positions()
    requires seen.rd == c.word.rd && (seen.rd == seen.wr ==> c.slots.Get(seen.rd) == tok)
    requires Consumed(seen) == seen || c.word == seen
    ensures var next := Consumed(seen); var c' := SettledCell(c, seen);
      var tok' := if next == seen then tok else c.token;
      && HandCell(c, c') && c'.qref && c'.word.rd == next.rd && c'.slots.Get(next.rd) == tok'
      && (next.queued ==> seen.Effective() != 0) && (c'.place == Held <==> next.queued)
  {
    ConsumedFacts(seen);
  }

  lemma BackFresh(s: State)
    requires Inv(s) && s.hand.Swap?
    ensures s.q.con.Got? && Q.Enabled(s.q, Q.PutBack)
  {
    HandFacts(s);
    var n := s.hand.n;
    var m := Q.Data(n);
    assert s.cell[n].place == InList <==> m in s.q.order;
    forall u | u in s.q.enq ensures !s.q.enq[u].Holds(m) {
      if s.q.enq[u].Holds(m) { ThreadFacts(s, u); }
    }
  }

  // The consumer's hand once the compare-exchange loop is left with state `next`.
  function HandAfter(n: nat, next: Word, eff: bv4, tok: nat): Hand {
    if next.queued then Back(n, eff, next.rd, tok)
    else if eff != 0 then Emit(n, eff, next.rd, tok)
    else Empty
  }

  lemma SettleShape(s: State)
    requires Inv(s) && s.hand.Swap? && ProcessEnabled(s) && !s.hand.seen.dropped
    requires Consumed(s.hand.seen) == s.hand.seen || s.cell[s.hand.n].word == s.hand.seen
    ensures var s' := ProcessStep(s); var n := s.hand.n; var seen := s.hand.seen; var c := s.cell[n];
      var next := Consumed(seen); var eff := seen.Effective(); var tok := if next == seen then s.hand.tok else c.token;
      && s' == s.(q := s'.q, hand := s'.hand, cell := s.cell[n := SettledCell(c, seen)], claims := s'.claims)
      && s'.claims == (if eff != 0 then s.claims + [(n, eff, tok)] else s.claims)
      && s'.q == Q.Step(s.q, if next.queued then Q.PutBack else Q.Forget)
      && s'.hand == HandAfter(n, next, eff, tok)
  {
    BackFresh(s);
    HandFacts(s);
  }

  lemma SettleEvents(s: State, s': State, e: (nat, bv4, nat), has: bool)
    requires EventsInv(s) && s.hand.Swap? && s'.events == s.events && s'.handled == s.handled
    requires s'.claims == (if has then s.claims + [e] else s.claims)
    requires if has then (s'.hand.Back? || s'.hand.Emit?) && e == (s'.hand.n, s'.hand.eff, s'.hand.tok)
             else s'.hand.Empty?
    ensures EventsInv(s')
  {
  }

  // The consumer's hand after the settled step.
  lemma SettleHand(s: State, s': State, n: nat, c': Cell, next: Word, eff: bv4, tok: nat)
    requires EventsInv(s) && s.hand.Swap? && s.hand.n == n && n in s.cell && !s.q.closing
    requires s' == s.(q := s'.q, hand := s'.hand, cell := s.cell[n := c'], claims := s'.claims)
    requires s'.claims == (if eff != 0 then s.claims + [(n, eff, tok)] else s.claims)
    requires s'.hand == HandAfter(n, next, eff, tok)
    requires s'.q.closing == s.q.closing && (next.queued ==> eff != 0)
    requires if next.queued then
               s'.q.con == Q.Requeue(Q.Data(n)) && POLLER in s'.q.enq && s'.q.enq[POLLER].Holds(Q.Data(n))
             else s'.q.con == Q.Pass
    requires c'.qref && c'.word.rd == next.rd && c'.slots.Get(next.rd) == tok && (c'.place == Held <==> next.queued)
    ensures HandInv(s') && EventsInv(s') && (c'.place == Held <==> InHand(s', n))
  {
    SettleEvents(s, s', (n, eff, tok), eff != 0);
  }

  lemma SettleKeeps(s: State)
    requires Inv(s) && s.hand.Swap? && ProcessEnabled(s) && !s.hand.seen.dropped
    requires Consumed(s.hand.seen) == s.hand.seen || s.cell[s.hand.n].word == s.hand.seen
    ensures Inv(ProcessStep(s))
  {
    HandFacts(s);
    BackFresh(s);
    SettleShape(s);
    var n, seen, c := s.hand.n, s.hand.seen, s.cell[s.hand.n];
    var s' := ProcessStep(s);
    SettledOk(c, seen, s.hand.tok);
    var next := Consumed(seen);
    QP.StepKeeps(s.q, if next.queued then Q.PutBack else Q.Forget);
    SettleQueue(s.q, n, next.queued);
    SettleHand(s, s', n, SettledCell(c, seen), next, seen.Effective(), if next == seen then s.hand.tok else c.token);
    HandKeeps(s, s', n, SettledCell(c, seen));
  }

  lemma SettleQueue(q: Q.State, n: nat, back: bool)
    requires q.con == Q.Got(Q.Data(n)) && POLLER !in q.enq
    requires if back then Q.Enabled(q, Q.PutBack) else Q.Enabled(q, Q.Forget)
    ensures var q' := Q.Step(q, if back then Q.PutBack else Q.Forget);
      && q'.enq - {POLLER} == q.enq - {POLLER} && q'.closing == q.closing && q'.order == q.order
      && (if back then q'.con == Q.Requeue(Q.Data(n)) && POLLER in q'.enq && q'.enq[POLLER].Holds(Q.Data(n))
          else q'.con == Q.Pass && POLLER !in q'.enq)
  {
  }

  lemma EmitKeeps(s: State)
    requires Inv(s) && s.hand.Emit? && ProcessEnabled(s)
    ensures Inv(ProcessStep(s))
  {
    HandFacts(s);
    var s' := ProcessStep(s);
    assert s.cell[s.hand.n].place != Held;
    HandKeeps(s, s', s.hand.n, s'.cell[s.hand.n]);
  }

  lemma FreeCell(c: Cell)
    requires CellOk(c) && c.qref && c.place == Held && c.adding.Nobody?
    ensures HandCell(c, ReleaseQueueRef(c))
  {
  }

  lemma FreeKeeps(s: State)
    requires Inv(s) && s.hand.Free? && ProcessEnabled(s)
    ensures Inv(ProcessStep(s))
  {
    HandFacts(s);
    var n := s.hand.n;
    if s.q.closing { NobodyAdding(s, n); }
    FreeCell(s.cell[n]);
    QP.StepKeeps(s.q, Q.Forget);
    SettleQueue(s.q, n, false);
    HandKeeps(s, ProcessStep(s), n, ReleaseQueueRef(s.cell[n]));
  }

  lemma ProcessKeeps(s: State)
    requires Inv(s) && ProcessEnabled(s)
    ensures Inv(ProcessStep(s))
  {
    match s.hand
    case Load(_) => LoadKeeps(s);
    case Swap(n, seen, _) =>
      if seen.dropped || (Consumed(seen) != seen && s.cell[n].word != seen) { RetryKeeps(s); } else { SettleKeeps(s); }
    case Emit(_, _, _, _) => EmitKeeps(s);
    case Free(_) => FreeKeeps(s);
  }

  // ---------- nodes and calls ----------

  lemma CreateThreads(s: State, n: nat, c: Cell)
    requires Inv(s) && n !in s.cell
    ensures Threads(s.(cell := s.cell[n := c]))
  {
    forall u | u in s.pc
      ensures s.pc[u].n in s.cell && PcOk(u, s.pc[u], s.cell[n := c][s.pc[u].n], EnqOf(s.q, u), s.q.closing)
    {
      assert PcOk(u, s.pc[u], s.cell[s.pc[u].n], EnqOf(s.q, u), s.q.closing);
    }
  }

  lemma CreateCells(s: State, n: nat, c: Cell)
    requires Inv(s) && n !in s.cell && CellOk(c)
    requires c.adding.Nobody? && c.lock.Nobody? && c.reg.Live? && c.place.Nowhere?
    ensures Cells(s.(cell := s.cell[n := c]))
  {
    var s' := s.(cell := s.cell[n := c]);
    forall m | m in s'.cell ensures CellOk(s'.cell[m]) && NamedOk(s', m) {
      if m != n { assert CellOk(s.cell[m]) && NamedOk(s, m); }
    }
  }

  lemma CreatePlaces(s: State, n: nat, c: Cell)
    requires Places(s) && HandInv(s) && n !in s.cell && c.place.Nowhere?
    ensures Places(s.(cell := s.cell[n := c]))
  {
    var s' := s.(cell := s.cell[n := c]);
    forall m | m in s'.cell
      ensures s'.cell[m].place == InList <==> Q.Data(m) in s'.q.order
      ensures s'.cell[m].place == Held <==> InHand(s', m)
    {
      if m == n {
        assert !InHand(s, n);
      } else {
        assert s.cell[m].place == InList <==> Q.Data(m) in s.q.order;
        assert s.cell[m].place == Held <==> InHand(s, m);
      }
    }
  }

  lemma CreateKeeps(s: State, n: nat, c: Cell)
    requires Inv(s) && n !in s.cell && CellOk(c)
    requires c.adding.Nobody? && c.lock.Nobody? && c.reg.Live? && c.place.Nowhere?
    ensures Inv(s.(cell := s.cell[n := c]))
  {
    CreateThreads(s, n, c);
    CreateCells(s, n, c);
    CreatePlaces(s, n, c);
  }

  lemma NewCellOk(word: Word, token: nat, refs: int, attached: bool, life: Life)
    requires word == ZERO.(interest := word.interest, opt := word.opt) && refs == (if attached then 3 else 2)
    requires !attached ==> word.interest == 0
    ensures CellOk(NewCell(word, token, refs, attached, life))
  {
    assert word.Effective() == 0;
  }

  // A change of one node by nobody's step: a handle cloned or dropped, a call noted.
  lemma HandleKeeps(s: State, n: nat, c': Cell)
    requires Inv(s) && n in s.cell
    requires c' == s.cell[n].(refs := c'.refs, setters := c'.setters, life := c'.life)
    requires c'.refs - c'.setters == s.cell[n].refs - s.cell[n].setters
    requires s.cell[n].setters > 0 && (c'.setters > 0 || NoSetting(s, n))
    ensures Inv(s.(cell := s.cell[n := c']))
  {
    var s' := s.(cell := s.cell[n := c']);
    if POLLER in s.pc { ThreadFacts(s, POLLER); }
    assert CellOk(s.cell[n]) && NamedOk(s, n);
    assert s.cell[n].place == InList <==> Q.Data(n) in s.q.order;
    LocalKeeps(s, s', POLLER, n);
  }

  lemma IdleThread(s: State, t: nat, n: nat)
    requires Inv(s) && t != POLLER && t !in s.pc && n in s.cell
    ensures t !in s.q.enq && CellOk(s.cell[n]) && NamedOk(s, n) && NamedAs(s.cell[n], t, SetLoad(n, 0), None)
    ensures Unnamed(s.cell[n], t)
  {
    assert NamedOk(s, n);
  }

  // The node as a thread starts set_readiness or update on it.
  lemma CallNodeOk(t: nat, p: Pc, c: Cell, c': Cell, closing: bool)
    requires CellOk(c) && c' == c.(life := c'.life) && t != POLLER
    requires Unnamed(c, t)
    requires (p.SetLoad? && c.setters > 0) || (p.UpQueue? && c.reg.Live? && !closing)
    ensures NodeOk(t, c, c', At(p), closing)
  {
  }

  lemma CallKeeps(s: State, a: Action)
    requires Inv(s) && (a.CallSet? || a.CallUpdate?) && Enabled(s, a)
    ensures Inv(Step(s, a))
  {
    var t, n := a.t, a.n;
    IdleThread(s, t, n);
    var s' := Step(s, a);
    CallNodeOk(t, s'.pc[t], s.cell[n], s'.cell[n], s.q.closing);
    NodeKeeps(s, s', t, n, s'.cell[n], At(s'.pc[t]));
  }

  lemma CallDropNode(t: nat, n: nat, c: Cell, closing: bool)
    requires CellOk(c) && c.reg.Live? && c.adding.Nobody? && t != POLLER
    requires c.lock != By(t) && c.place != Owed(t)
    ensures var c' := c.(reg := Dropping(t));
      && CellOk(c') && PcOk(t, DropFlag(n), c', None, closing) && NamedAs(c', t, DropFlag(n), None)
      && NamesBy(c, c', t) && QuietHand(c, c') && (forall u | u != t :: Quiet(c, c', u))
  {
  }

  lemma CallDropKeeps(s: State, t: nat, n: nat)
    requires Inv(s) && Enabled(s, CallDrop(t, n))
    ensures Inv(Step(s, CallDrop(t, n)))
  {
    IdleThread(s, t, n);
    NotAdding(s, n);
    CallDropNode(t, n, s.cell[n], s.q.closing);
    StartDropKeeps(s, t, n);
  }

  lemma StartDropKeeps(s: State, t: nat, n: nat)
    requires Inv(s) && t !in s.pc && t !in s.q.enq && n in s.cell && NoUpdating(s, n)
    requires var c := s.cell[n]; var c' := c.(reg := Dropping(t));
      && CellOk(c') && PcOk(t, DropFlag(n), c', None, s.q.closing) && NamedAs(c', t, DropFlag(n), None)
      && NamesBy(c, c', t) && QuietHand(c, c') && (forall u | u != t :: Quiet(c, c', u))
    ensures Inv(s.(pc := s.pc[t := DropFlag(n)], cell := s.cell[n := s.cell[n].(reg := Dropping(t))]))
  {
    assert s.cell[n].place == InList <==> Q.Data(n) in s.q.order;
    LocalKeeps(s, s.(pc := s.pc[t := DropFlag(n)], cell := s.cell[n := s.cell[n].(reg := Dropping(t))]), t, n);
  }

  lemma NotAdding(s: State, n: nat)
    requires Inv(s) && n in s.cell && NoUpdating(s, n)
    ensures s.cell[n].adding.Nobody?
  {
    assert NamedOk(s, n);
  }

  lemma PipeFullShape(s: State, t: nat)
    requires Enabled(s, PipeFull(t)) && s.pc[t].n in s.cell
    ensures var s' := Step(s, PipeFull(t)); var p := s.pc[t];
      && PushShape(s, s', t, p.n, s.cell[p.n], AfterPc(p, None)) && s'.q == Q.Step(s.q, Q.PipeFull(t))
      && t !in s'.q.enq && s'.q.order == s.q.order && t in s.q.enq && s.q.enq[t].Awaken?
  {
    assert s.cell[s.pc[t].n := s.cell[s.pc[t].n]] == s.cell;
  }

  lemma PipeFullKeeps(s: State, t: nat)
    requires Inv(s) && Enabled(s, PipeFull(t))
    ensures Inv(Step(s, PipeFull(t)))
  {
    ThreadFacts(s, t);
    PipeFullShape(s, t);
    var p := s.pc[t];
    PushNodeOk(t, p, s.cell[p.n], s.q.enq[t], None, s.q.closing);
    QP.StepKeeps(s.q, Q.PipeFull(t));
    assert s.cell[p.n].place == InList <==> Q.Data(p.n) in s.q.order;
    QueueKeeps(s, Step(s, PipeFull(t)), t, p.n, s.cell[p.n], AfterPc(p, None));
  }

  lemma ThreadKeeps(s: State, t: nat)
    requires Inv(s) && t in s.pc && s.pc[t].n in s.cell && ThreadEnabled(s, t)
    ensures Inv(ThreadStep(s, t))
  {
    if s.pc[t].Pushing? { PushThreadKeeps(s, t); }
    else if QueuePc(s.pc[t], s.cell[s.pc[t].n]) { BeginKeeps(s, t); }
    else { NodeThreadKeeps(s, t); }
  }

  // io_process touches neither the queue nor the nodes.
  lemma HandleStepKeeps(s: State)
    requires Inv(s)
    ensures Inv(HandleStep(s))
  {
    var s' := HandleStep(s);
    forall m | m in s.cell ensures NamedOk(s', m) && (s'.cell[m].place == Held <==> InHand(s', m)) {
      assert NamedOk(s, m);
      assert InHand(s', m) <==> InHand(s, m);
    }
  }

  lemma CreateActionKeeps(s: State, a: Action)
    requires Inv(s) && (a.New2? || a.NewIn? || a.EnqueueJob?) && Enabled(s, a)
    ensures Inv(Step(s, a))
  {
    match a
    case New2(n) => NewCellOk(ZERO, 0, 2, false, Plain); CreateKeeps(s, n, NewCell(ZERO, 0, 2, false, Plain));
    case NewIn(n, token, interest, opt) =>
      var w := ZERO.(interest := interest, opt := opt);
      NewCellOk(w, token, 3, true, Plain);
      CreateKeeps(s, n, NewCell(w, token, 3, true, Plain));
    case EnqueueJob(n, cb) =>
      NewCellOk(ZERO, 0, 2, false, Created(cb));
      CreateKeeps(s, n, NewCell(ZERO, 0, 2, false, Created(cb)));
  }

  lemma HandleActionKeeps(s: State, a: Action)
    requires Inv(s) && (a.CloneSetter? || a.DropSetter?) && Enabled(s, a)
    ensures Inv(Step(s, a))
  {
    HandleKeeps(s, a.n, Step(s, a).cell[a.n]);
  }

  lemma CallActionKeeps(s: State, a: Action)
    requires Inv(s) && (a.CallSet? || a.CallUpdate? || a.CallDrop?) && Enabled(s, a)
    ensures Inv(Step(s, a))
  {
    if a.CallDrop? { CallDropKeeps(s, a.t, a.n); } else { CallKeeps(s, a); }
  }

  lemma MachineKeeps(s: State, a: Action)
    requires Inv(s) && (a.Thread? || a.PipeFull? || a.Queue? || a.Process? || a.Handle?) && Enabled(s, a)
    ensures Inv(Step(s, a))
  {
    match a
    case Thread(t) => ThreadKeeps(s, t);
    case PipeFull(t) => PipeFullKeeps(s, t);
    case Queue(b) => QueueActionKeeps(s, b);
    case Process => ProcessKeeps(s);
    case Handle => HandleStepKeeps(s);
  }

  // One step of any thread, of the consumer, or of the world around.
  lemma StepKeeps(s: State, a: Action)
    requires Inv(s) && Enabled(s, a)
    ensures Inv(Step(s, a))
  {
    if a.New2? || a.NewIn? || a.EnqueueJob? { CreateActionKeeps(s, a); }
    else if a.CloneSetter? || a.DropSetter? { HandleActionKeeps(s, a); }
    else if a.CallSet? || a.CallUpdate? || a.CallDrop? { CallActionKeeps(s, a); }
    else { MachineKeeps(s, a); }
  }
}
