/** Every step of the registration protocol keeps the invariant. */
module RegistrationSteps {
  import opened ReadinessWord
  import opened Registration
  import opened RegistrationInv
  import Q = ReadyQueue
  import QP = QueueProofs

  // ---------- one thread on one node ----------

  lemma SetReadyFacts(w: Word, ready: bv4)
    ensures var w' := SetReady(w, ready);
      && w' == w.(readiness := ready, queued := w'.queued) && (w'.queued <==> w.queued || w'.Effective() != 0)
      && (w.interest == 0 ==> w'.Effective() == 0)
  {
  }

  lemma UpdatedFacts(w: Word, arg: Arg, pos: bv2)
    ensures var w' := Updated(w, arg, pos);
      && w' == w.(wr := pos, interest := arg.interest, opt := arg.opt, queued := w'.queued)
      && (w'.queued <==> w.queued || w'.Effective() != 0)
  {
  }

  ghost predicate NodePre(t: nat, p: Pc, c: Cell, closing: bool) {
    PcOk(t, p, c, None, closing) && CellOk(c) && NamedAs(c, t, p, None) && !QueuePc(p, c)
  }

  lemma SetNode(t: nat, p: Pc, c: Cell, closing: bool)
    requires NodePre(t, p, c, closing) && (p.SetLoad? || p.QueueLoad?)
    ensures NodeOk(t, c, NodeStep(t, p, c).0, NodeStep(t, p, c).1, closing)
  {
  }

  // set_readiness's exchange, when it succeeds.
  lemma SwapCell(t: nat, p: Pc, c: Cell)
    requires p.SetSwap? && CellOk(c) && !c.word.dropped && c.word == p.seen && c.setters > 0
    ensures CellOk(NodeStep(t, p, c).0)
  {
    SetReadyFacts(c.word, p.ready);
  }

  lemma SwapNode(t: nat, p: Pc, c: Cell, closing: bool)
    requires NodePre(t, p, c, closing) && p.SetSwap?
    ensures NodeOk(t, c, NodeStep(t, p, c).0, NodeStep(t, p, c).1, closing)
  {
    if !p.seen.dropped && c.word == p.seen {
      SwapCell(t, p, c);
      SwapHit(t, p, c, closing);
    }
  }

  lemma SwapHit(t: nat, p: Pc, c: Cell, closing: bool)
    requires NodePre(t, p, c, closing) && p.SetSwap? && !p.seen.dropped && c.word == p.seen
    requires CellOk(NodeStep(t, p, c).0)
    ensures NodeOk(t, c, NodeStep(t, p, c).0, NodeStep(t, p, c).1, closing)
  {
    SetReadyFacts(c.word, p.ready);
  }

  lemma LockNode(t: nat, p: Pc, c: Cell, closing: bool)
    requires NodePre(t, p, c, closing) && (p.UpQueue? || p.UpLock?)
    ensures NodeOk(t, c, NodeStep(t, p, c).0, NodeStep(t, p, c).1, closing)
  {
  }

  lemma CountNode(t: nat, p: Pc, c: Cell, closing: bool)
    requires NodePre(t, p, c, closing) && (p.UpAttach? || p.UpCount?)
    ensures NodeOk(t, c, NodeStep(t, p, c).0, NodeStep(t, p, c).1, closing)
  {
  }

  lemma TokenNode(t: nat, p: Pc, c: Cell, closing: bool)
    requires NodePre(t, p, c, closing) && (p.UpLoad? || p.UpCompare? || p.UpWrite? || p.UpUnlock?)
    ensures NodeOk(t, c, NodeStep(t, p, c).0, NodeStep(t, p, c).1, closing)
  {
    if p.UpCompare? { NextPosIsFree(p.seen); }
  }

  lemma CommitNode(t: nat, p: Pc, c: Cell, closing: bool)
    requires NodePre(t, p, c, closing) && p.UpSwap?
    ensures NodeOk(t, c, NodeStep(t, p, c).0, NodeStep(t, p, c).1, closing)
  {
    UpdatedFacts(c.word, p.arg, p.pos);
  }

  lemma DropNode(t: nat, p: Pc, c: Cell, closing: bool)
    requires NodePre(t, p, c, closing) && (p.DropFlag? || p.DropRelease?)
    ensures NodeOk(t, c, NodeStep(t, p, c).0, NodeStep(t, p, c).1, closing)
  {
  }

  lemma NodeStepOk(t: nat, p: Pc, c: Cell, closing: bool)
    requires NodePre(t, p, c, closing)
    ensures NodeOk(t, c, NodeStep(t, p, c).0, NodeStep(t, p, c).1, closing)
  {
    if p.SetLoad? || p.QueueLoad? { SetNode(t, p, c, closing); }
    else if p.SetSwap? { SwapNode(t, p, c, closing); }
    else if p.UpQueue? || p.UpLock? { LockNode(t, p, c, closing); }
    else if p.UpAttach? || p.UpCount? { CountNode(t, p, c, closing); }
    else if p.UpLoad? || p.UpCompare? || p.UpWrite? || p.UpUnlock? { TokenNode(t, p, c, closing); }
    else if p.UpSwap? { CommitNode(t, p, c, closing); }
    else { DropNode(t, p, c, closing); }
  }

  lemma NodeStepKeepsN(t: nat, p: Pc, c: Cell)
    requires !QueuePc(p, c) && (p.UpCompare? ==> p.seen.Positions())
    ensures NodeStep(t, p, c).1.At? ==> NodeStep(t, p, c).1.p.n == p.n
  {
  }

  lemma NodeThreadKeeps(s: State, t: nat)
    requires Inv(s) && t in s.pc && s.pc[t].n in s.cell && !QueuePc(s.pc[t], s.cell[s.pc[t].n])
    requires ThreadEnabled(s, t)
    ensures Inv(ThreadStep(s, t))
  {
    ThreadFacts(s, t);
    var p := s.pc[t];
    var c := s.cell[p.n];
    NodeStepOk(t, p, c, s.q.closing);
    NodeStepKeepsN(t, p, c);
    NodeKeeps(s, ThreadStep(s, t), t, p.n, NodeStep(t, p, c).0, NodeStep(t, p, c).1);
  }

  // ---------- a thread in the queue ----------

  lemma PollerHolds(s: State, n: nat)
    requires Inv(s) && n in s.cell && POLLER in s.q.enq && s.q.enq[POLLER].Holds(Q.Data(n))
    ensures s.hand.Back? && s.hand.n == n && s.cell[n].place == Held
  {
    assert QP.ThreadInv(s.q, POLLER);
    assert InHand(s, n);
  }

  // The thread that owes the push of a node is alone with it.
  lemma OwnerIsAlone(s: State, t: nat)
    requires Inv(s) && t in s.pc && !s.pc[t].Pushing? && OwesNow(s.pc[t], None)
    requires s.pc[t].n in s.cell && s.cell[s.pc[t].n].attached
    ensures Q.Enabled(s.q, Q.Begin(t, Q.Data(s.pc[t].n)))
  {
    ThreadFacts(s, t);
    var n := s.pc[t].n;
    var m := Q.Data(n);
    assert s.cell[n].place == Owed(t);
    forall u | u in s.q.enq ensures !s.q.enq[u].Holds(m) {
      if s.q.enq[u].Holds(m) {
        if u == POLLER {
          PollerHolds(s, n);
        } else {
          ThreadFacts(s, u);
        }
      }
    }
  }

  // How a push may change the node.
  ghost predicate PushCell(t: nat, c: Cell, c': Cell) {
    || c' == c.(job := c'.job)
    || (c.place == Owed(t) && c' == c.(place := InList))
    || (c.place == Owed(t) && c.qref && c' == ReleaseQueueRef(c))
  }

  lemma PushCellOk(t: nat, c: Cell, c': Cell)
    requires CellOk(c) && PushCell(t, c, c')
    requires c' == ReleaseQueueRef(c) ==> c.adding.Nobody?
    ensures CellOk(c') && NamesBy(c, c', t)
    ensures forall u | u != t :: Quiet(c, c', u)
  {
  }

  ghost predicate PushShape(s: State, s': State, t: nat, n: nat, c': Cell, p': MaybePc) {
    && s'.cell == s.cell[n := c']
    && s' == s.(cell := s'.cell, pc := s'.pc, q := s'.q)
    && s'.pc == (if p'.At? then s.pc[t := p'.p] else s.pc - {t})
    && s'.q.enq - {t} == s.q.enq - {t}
    && s'.q.con == s.q.con && s'.q.closing == s.q.closing
  }

  lemma SameElsewhere<V>(m: map<nat, V>, m': map<nat, V>, t: nat)
    requires m' - {t} == m - {t}
    ensures forall u | u != t :: (u in m' <==> u in m) && (u in m ==> m'[u] == m[u])
  {
    forall u | u != t ensures (u in m' <==> u in m) && (u in m ==> m'[u] == m[u]) {
      assert u in m' <==> u in m' - {t};
      assert u in m <==> u in m - {t};
      if u in m { assert m'[u] == (m' - {t})[u] == (m - {t})[u]; }
    }
  }

  lemma QueueLocal(s: State, s': State, t: nat, n: nat, c': Cell, p': MaybePc)
    requires Places(s) && t in s.pc && t != POLLER && s.pc[t].n == n && n in s.cell && CellOk(s.cell[n])
    requires p'.At? ==> p'.p.n == n
    requires PushShape(s, s', t, n, c', p') && PushCell(t, s.cell[n], c')
    requires c' == ReleaseQueueRef(s.cell[n]) ==> s.cell[n].adding.Nobody? && (s.hand.Empty? || s.hand.n != n)
    requires p'.At? ==> PcOk(t, p'.p, c', EnqOf(s'.q, t), s'.q.closing) && NamedAs(c', t, p'.p, EnqOf(s'.q, t))
    requires p'.Rest? ==> t !in s'.q.enq && Unnamed(c', t)
    requires forall m | m != n :: Q.Data(m) in s'.q.order <==> Q.Data(m) in s.q.order
    requires c'.place == InList <==> Q.Data(n) in s'.q.order
    ensures Local(s, s', t, n) && LocalOk(s, s', t, n)
  {
    PushCellOk(t, s.cell[n], c');
    SameElsewhere(s.q.enq, s'.q.enq, t);
  }

  lemma QueueKeeps(s: State, s': State, t: nat, n: nat, c': Cell, p': MaybePc)
    requires Inv(s) && t in s.pc && s.pc[t].n == n && n in s.cell && (p'.At? ==> p'.p.n == n)
    requires PushShape(s, s', t, n, c', p') && PushCell(t, s.cell[n], c') && QP.Inv(s'.q)
    requires c' == ReleaseQueueRef(s.cell[n]) ==> s.cell[n].adding.Nobody? && (s.hand.Empty? || s.hand.n != n)
    requires p'.At? ==> PcOk(t, p'.p, c', EnqOf(s'.q, t), s'.q.closing) && NamedAs(c', t, p'.p, EnqOf(s'.q, t))
    requires p'.Rest? ==> t !in s'.q.enq && Unnamed(c', t)
    requires forall m | m != n :: Q.Data(m) in s'.q.order <==> Q.Data(m) in s.q.order
    requires c'.place == InList <==> Q.Data(n) in s'.q.order
    ensures Inv(s')
  {
    QueueLocal(s, s', t, n, c', p');
    LocalKeeps(s, s', t, n);
  }

  function BeginPc(p: Pc): Pc
    requires p.UpJob? || p.QueueLoad?
  {
    Pushing(p.n, if p.UpJob? then ForUpdate else p.why)
  }

  function BeginCell(p: Pc, c: Cell): Cell { if p.UpJob? then c.(job := Run(p.arg.job)) else c }

  lemma BeginNode(t: nat, p: Pc, c: Cell, closing: bool)
    requires PcOk(t, p, c, None, closing) && CellOk(c) && NamedAs(c, t, p, None) && !p.Pushing? && QueuePc(p, c)
    ensures var e := Some(Q.ClearNext(Q.Data(p.n))); var c' := BeginCell(p, c);
      && PcOk(t, BeginPc(p), c', e, closing) && NamedAs(c', t, BeginPc(p), e)
      && OwesNow(p, None) && PushCell(t, c, c') && c.place == Owed(t)
  {
  }

  lemma BeginShape(s: State, t: nat)
    requires t in s.pc && s.pc[t].n in s.cell && !s.pc[t].Pushing? && QueuePc(s.pc[t], s.cell[s.pc[t].n])
    requires ThreadEnabled(s, t) && t !in s.q.enq
    ensures PushShape(s, ThreadStep(s, t), t, s.pc[t].n, BeginCell(s.pc[t], s.cell[s.pc[t].n]), At(BeginPc(s.pc[t])))
    ensures ThreadStep(s, t).q == Q.Step(s.q, Q.Begin(t, Q.Data(s.pc[t].n)))
    ensures EnqOf(ThreadStep(s, t).q, t) == Some(Q.ClearNext(Q.Data(s.pc[t].n)))
    ensures ThreadStep(s, t).q.order == s.q.order
  {
    assert s.cell[s.pc[t].n := s.cell[s.pc[t].n]] == s.cell;
  }

  lemma BeginEnabled(s: State, t: nat)
    requires Inv(s) && t in s.pc && s.pc[t].n in s.cell && !s.pc[t].Pushing? && QueuePc(s.pc[t], s.cell[s.pc[t].n])
    ensures ThreadEnabled(s, t) && Q.Enabled(s.q, Q.Begin(t, Q.Data(s.pc[t].n))) && s.cell[s.pc[t].n].attached
  {
    ThreadFacts(s, t);
    OwnerIsAlone(s, t);
  }

  lemma BeginKeeps(s: State, t: nat)
    requires Inv(s) && t in s.pc && s.pc[t].n in s.cell && !s.pc[t].Pushing? && QueuePc(s.pc[t], s.cell[s.pc[t].n])
    requires ThreadEnabled(s, t)
    ensures Inv(ThreadStep(s, t))
  {
    BeginEnabled(s, t);
    ThreadFacts(s, t);
    BeginShape(s, t);
    BeginNode(t, s.pc[t], s.cell[s.pc[t].n], s.q.closing);
    QP.StepKeeps(s.q, Q.Begin(t, Q.Data(s.pc[t].n)));
    QueueKeeps(s, ThreadStep(s, t), t, s.pc[t].n, BeginCell(s.pc[t], s.cell[s.pc[t].n]), At(BeginPc(s.pc[t])));
  }

  // ---------- a thread inside enqueue_node ----------

  function PushNode(c: Cell, e: Q.Enq, e': MaybeEnq): Cell {
    if e.Rejected? then ReleaseQueueRef(c)
    else if e'.Some? && e'.e.Link? then c.(place := InList)
    else c
  }

  function AfterPc(p: Pc, e': MaybeEnq): MaybePc
    requires p.Pushing?
  {
    if e'.Some? then At(p) else if p.why == ForDrop then At(DropRelease(p.n)) else Rest
  }

  // What enqueue_node makes of the thread's own place.
  lemma EnqueueShape(q: Q.State, t: nat)
    requires QP.Inv(q) && t in q.enq && t != POLLER
    ensures var q' := Q.EnqueueStep(q, t); var e, e' := q.enq[t], EnqOf(q', t);
      && q'.enq - {t} == q.enq - {t} && q'.con == q.con && q'.closing == q.closing
      && Follows(e, e')
      && (if e.Swap? && e'.Some? && e'.e.Link? then q'.order == q.order + [e.node] else q'.order == q.order)
      && (e.Link? ==> e.node in q.order)
      && (!e.Awaken? && !e.Link? ==> e.node !in q.order)
      && (e.Rejected? ==> q.closing)
  {
    assert QP.ThreadInv(q, t);
    if q.enq[t].Link? { QP.LinkLinks(q, t); }
  }

  // The possible successions of a thread's place in enqueue_node.
  ghost predicate Follows(e: Q.Enq, e': MaybeEnq) {
    && (e'.Some? ==> e'.e.Awaken? || (!e.Awaken? && e'.e.node == e.node && !e'.e.Rejected?) ||
                     (e.Swap? && e'.e == Q.Rejected(e.node)))
    && (e'.Some? && e'.e.Awaken? ==> e.Link?)
    && (e.Link? || e.Awaken? || e.Rejected? ==> e'.None? || e'.e.Awaken?)
    && (e.ClearNext? || e.LoadHead? ==> e'.Some? && e'.e.Holds(e.node))
    && (e.Swap? ==> e'.Some? && (e'.e.Link? || e'.e.Holds(e.node)))
  }

  lemma PushNodeOk(t: nat, p: Pc, c: Cell, e: Q.Enq, e': MaybeEnq, closing: bool)
    requires PcOk(t, p, c, Some(e), closing) && CellOk(c) && NamedAs(c, t, p, Some(e)) && p.Pushing? && Follows(e, e')
    requires e.Rejected? ==> closing && c.adding.Nobody?
    ensures var c' := PushNode(c, e, e'); var p' := AfterPc(p, e');
      && PushCell(t, c, c')
      && (p'.At? ==> p'.p.n == p.n && PcOk(t, p'.p, c', e', closing) && NamedAs(c', t, p'.p, e'))
      && (p'.Rest? ==> e'.None? && Unnamed(c', t))
      && (e.Holds(Q.Data(p.n)) ==> c.place == Owed(t))
      && (c'.place == InList <==> c.place == InList || (e'.Some? && e'.e.Link?))
      && (c' == ReleaseQueueRef(c) ==> e.Rejected?)
  {
  }

  // While the queue is being closed nobody is attaching a node.
  lemma NobodyAdding(s: State, n: nat)
    requires Inv(s) && n in s.cell && s.q.closing
    ensures s.cell[n].adding.Nobody?
  {
    assert NamedOk(s, n);
    if s.cell[n].adding.By? {
      ThreadFacts(s, s.cell[n].adding.t);
    }
  }

  lemma RejectedOutOfHand(s: State, t: nat)
    requires Inv(s) && t in s.pc && s.pc[t].Pushing? && t in s.q.enq && s.q.enq[t].Rejected? && s.q.closing
    ensures s.hand.Empty? || s.hand.n != s.pc[t].n
  {
    ThreadFacts(s, t);
    var n := s.pc[t].n;
    assert s.cell[n].place == Owed(t);
    assert s.cell[n].place == Held <==> InHand(s, n);
  }

  lemma PushStepShape(s: State, t: nat)
    requires t in s.pc && s.pc[t].Pushing? && t in s.q.enq && s.pc[t].n in s.cell
    requires t in s.pc && Follows(s.q.enq[t], EnqOf(Q.EnqueueStep(s.q, t), t))
    requires var q' := Q.EnqueueStep(s.q, t);
      q'.enq - {t} == s.q.enq - {t} && q'.con == s.q.con && q'.closing == s.q.closing
    ensures var p := s.pc[t]; var e' := EnqOf(Q.EnqueueStep(s.q, t), t);
      && PushShape(s, ThreadStep(s, t), t, p.n, PushNode(s.cell[p.n], s.q.enq[t], e'), AfterPc(p, e'))
      && ThreadStep(s, t).q == Q.EnqueueStep(s.q, t)
  {
    assert s.pc[t := s.pc[t]] == s.pc;
  }

  lemma PushThreadKeeps(s: State, t: nat)
    requires Inv(s) && t in s.pc && s.pc[t].Pushing? && s.pc[t].n in s.cell && ThreadEnabled(s, t)
    ensures Inv(ThreadStep(s, t))
  {
    ThreadFacts(s, t);
    EnqueueShape(s.q, t);
    var p := s.pc[t];
    var q' := Q.EnqueueStep(s.q, t);
    var e, e' := s.q.enq[t], EnqOf(q', t);
    assert Follows(e, e');
    if e.Rejected? {
      NobodyAdding(s, p.n);
      RejectedOutOfHand(s, t);
    }
    PushNodeOk(t, p, s.cell[p.n], e, e', s.q.closing);
    PushStepShape(s, t);
    QP.AdvanceKeeps(s.q, t);
    PushOrder(s, t);
    QueueKeeps(s, ThreadStep(s, t), t, p.n, PushNode(s.cell[p.n], e, e'), AfterPc(p, e'));
  }

  lemma PushOrder(s: State, t: nat)
    requires Inv(s) && t in s.pc && s.pc[t].Pushing? && s.pc[t].n in s.cell && t in s.q.enq
    ensures var n := s.pc[t].n; var q' := Q.EnqueueStep(s.q, t); var e' := EnqOf(q', t);
      && (forall m | m != n :: Q.Data(m) in q'.order <==> Q.Data(m) in s.q.order)
      && (Q.Data(n) in q'.order <==> s.cell[n].place == InList || (e'.Some? && e'.e.Link?))
  {
    ThreadFacts(s, t);
    EnqueueShape(s.q, t);
    var n := s.pc[t].n;
    assert s.cell[n].place == InList <==> Q.Data(n) in s.q.order;
    var q' := Q.EnqueueStep(s.q, t);
    var e, e' := s.q.enq[t], EnqOf(q', t);
    if e.Swap? && e'.Some? && e'.e.Link? {
      assert q'.order == s.q.order + [Q.Data(n)];
    }
  }
}
