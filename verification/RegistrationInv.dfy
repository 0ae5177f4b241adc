/** The invariant of the registration protocol: for every node and every thread, what the
    packed word, the list, the reference count and the token slots have to do with each other. */
module RegistrationInv {
  import opened ReadinessWord
  import opened Registration
  import Q = ReadyQueue
  import QP = QueueProofs

  datatype MaybeEnq = None | Some(e: Q.Enq)

  ghost function EnqOf(q: Q.State, t: nat): MaybeEnq { if t in q.enq then Some(q.enq[t]) else None }

  // The thread must still push the node: it set QUEUED and has not yet exchanged the head.
  ghost predicate OwesNow(p: Pc, e: MaybeEnq) {
    p.QueueLoad? || p.UpJob? || (p.UpUnlock? && p.owes) || (p.Pushing? && e.Some? && e.e.Holds(Q.Data(p.n)))
  }

  // ---------- one thread and its node ----------

  ghost predicate PcOk(t: nat, p: Pc, c: Cell, e: MaybeEnq, closing: bool) {
    && t != POLLER
    && (p.Pushing? <==> e.Some?)
    && (e.Some? ==> e.e.Awaken? || e.e.node == Q.Data(p.n))
    && (p.Setting() ==> c.setters > 0)
    && (p.Updating() ==> c.reg.Live? && !closing)
    && (p.Updating() && !p.UpQueue? && !p.UpAttach? ==> c.attached)
    && (p.UpCount? ==> c.adding == By(t))
    && (p.Locking() ==> c.lock == By(t))
    && (p.QueueLoad? ==> p.why != ForUpdate && (p.why == ForSet ==> c.attached))
    && DropOk(t, p, c)
    && (OwesNow(p, e) ==> (p.QueueLoad? && !c.attached) || (c.qref && c.place == Owed(t)))
    && TokenOk(p, c)
  }

  predicate DropPc(p: Pc) { p.DropFlag? || p.DropRelease? || ((p.QueueLoad? || p.Pushing?) && p.why == ForDrop) }

  ghost predicate DropOk(t: nat, p: Pc, c: Cell) {
    DropPc(p) ==> c.reg == Dropping(t) && (c.word.dropped <==> !p.DropFlag?)
  }

  // The slot an update writes is neither the one last committed nor the one being read.
  ghost predicate TokenOk(p: Pc, c: Cell) {
    match p
    case UpCompare(_, _, seen) =>
      seen.Positions() && seen.wr == c.word.wr && (seen.rd == c.word.rd || c.word.rd == c.word.wr)
    case UpWrite(_, _, seen, pos) => seen.wr == c.word.wr && pos < 3 && pos != c.word.wr && pos != c.word.rd
    case UpSwap(_, arg, seen, pos) =>
      seen.wr == c.word.wr && pos < 3 && c.slots.Get(pos) == arg.token && (pos == c.word.wr || pos != c.word.rd)
    case _ => true
  }

  // ---------- one node ----------

  function Count(b: bool): int { if b then 1 else 0 }

  ghost predicate CellOk(c: Cell) {
    // reference count
    && c.refs == c.setters + Count(!c.reg.Gone?) + Count(c.qref) - Count(c.adding.By?)
    && (c.adding.By? ==> c.qref && c.reg.Live?)
    // attached or not
    && (!c.attached ==> !c.qref && c.word.interest == 0 && c.released == 0 && (c.word.queued ==> c.word.dropped))
    && (c.attached ==> c.released == Count(!c.qref) && (c.qref || c.word.queued))
    // the two flags
    && (c.word.dropped ==> c.word.queued)
    && (c.reg.Live? ==> !c.word.dropped)
    && (c.reg.Gone? ==> c.word.dropped)
    // QUEUED says that somebody is responsible
    && (c.qref ==> (c.word.queued <==> c.place != Nowhere))
    && (!c.qref ==> c.place == Nowhere)
    // tokens
    && c.word.Positions() && c.slots.Get(c.word.wr) == c.token
    // triggers
    && (!c.word.dropped && !c.word.Edge() && c.word.Effective() != 0 ==> c.word.queued)
    && (c.word.Edge() && c.word.Oneshot() ==> c.fired <= 1 && (c.fired == 1 ==> c.word.interest == 0))
  }

  // Whoever a node names as responsible is where the node says it is.
  ghost predicate NamedOk(s: State, n: nat)
    requires n in s.cell
  {
    var c := s.cell[n];
    && (c.adding.By? ==> c.adding.t in s.pc && s.pc[c.adding.t].n == n && s.pc[c.adding.t].UpCount?)
    && (c.lock.By? ==> c.lock.t in s.pc && s.pc[c.lock.t].n == n && s.pc[c.lock.t].Locking())
    && (c.reg.Dropping? ==> c.reg.t in s.pc && s.pc[c.reg.t].n == n && DropPc(s.pc[c.reg.t]))
    && (c.place.Owed? ==> c.place.t in s.pc && s.pc[c.place.t].n == n &&
                          OwesNow(s.pc[c.place.t], EnqOf(s.q, c.place.t)))
  }

  // ---------- the consumer's hand ----------

  ghost predicate InHand(s: State, n: nat) {
    match s.hand
    case Empty => false
    case Load(m) => m == n
    case Swap(m, _, _) => m == n
    case Free(m) => m == n
    case Back(m, _, _, _) => m == n && POLLER in s.q.enq && s.q.enq[POLLER].Holds(Q.Data(n))
    case Emit(_, _, _, _) => false
  }

  ghost predicate HandOk(h: Hand, c: Cell, con: Q.Consumer, closing: bool) {
    match h
    case Empty => true
    case Load(n) => con == Q.Got(Q.Data(n)) && c.qref
    case Swap(n, seen, tok) =>
      && con == Q.Got(Q.Data(n)) && c.qref && !closing
      && seen.queued && seen.Positions() && seen.rd == c.word.rd
      && (seen.rd == seen.wr ==> c.slots.Get(seen.rd) == tok)
      && (seen.dropped ==> c.word.dropped)
    case Free(n) => con == Q.Got(Q.Data(n)) && c.qref && (c.word.dropped || closing)
    case Back(n, eff, rd, tok) => con == Q.Requeue(Q.Data(n)) && PendingOk(c, eff, rd, tok, closing)
    case Emit(n, eff, rd, tok) => con == Q.Pass && PendingOk(c, eff, rd, tok, closing)
  }

  // The slot the consumer is about to read still holds the token it is to report.
  ghost predicate PendingOk(c: Cell, eff: bv4, rd: bv2, tok: nat, closing: bool) {
    c.qref && !closing && eff != 0 && rd == c.word.rd && c.slots.Get(rd) == tok
  }

  // ---------- the whole ----------

  ghost predicate Threads(s: State) {
    && (forall t | t in s.pc :: s.pc[t].n in s.cell && PcOk(t, s.pc[t], s.cell[s.pc[t].n], EnqOf(s.q, t), s.q.closing))
    && (forall t | t in s.q.enq && t != POLLER :: t in s.pc)
  }

  ghost predicate Cells(s: State) {
    forall n | n in s.cell :: CellOk(s.cell[n]) && NamedOk(s, n)
  }

  ghost predicate Places(s: State) {
    && (forall n | n in s.cell :: s.cell[n].place == InList <==> Q.Data(n) in s.q.order)
    && (forall n | n in s.cell :: s.cell[n].place == Held <==> InHand(s, n))
    && (forall n | Q.Data(n) in s.q.order :: n in s.cell)
  }

  ghost predicate HandInv(s: State) {
    if s.hand.Empty? then !s.q.con.Got? && !s.q.con.Requeue?
    else s.hand.n in s.cell && HandOk(s.hand, s.cell[s.hand.n], s.q.con, s.q.closing)
  }

  // The events say what was claimed when their nodes were consumed.
  ghost predicate EventsInv(s: State) {
    && s.handled <= |s.events|
    && |s.claims| == |s.events| + (if s.hand.Back? || s.hand.Emit? then 1 else 0)
    && (forall i :: 0 <= i < |s.events| ==> s.claims[i] == (s.events[i].n, s.events[i].ready, s.events[i].token))
    && (s.hand.Back? || s.hand.Emit? ==> s.claims[|s.events|] == (s.hand.n, s.hand.eff, s.hand.tok))
  }

  ghost predicate Inv(s: State) {
    QP.Inv(s.q) && Threads(s) && Cells(s) && Places(s) && HandInv(s) && EventsInv(s)
  }

  // ---------- what the other threads and the consumer are owed by a change of a node ----------

  // The change of a node from c to c' takes nothing away that thread u relies on.
  ghost predicate Quiet(c: Cell, c': Cell, u: nat) {
    && (c.reg == Dropping(u) ==> c'.reg == c.reg && c'.word.dropped == c.word.dropped)
    && (c.attached ==> c'.attached)
    && (!c.attached && c'.attached ==> c.reg.Live?)
    && (c.adding == By(u) ==> c'.adding == c.adding)
    && (c.lock == By(u) ==> c'.lock == c.lock && c'.slots == c.slots && c'.word.wr == c.word.wr &&
                            (c'.word.rd == c.word.rd || c'.word.rd == c.word.wr))
    && (c.place == Owed(u) && c.qref ==> c'.place == c.place && c'.qref)
  }

  lemma QuietKeeps(u: nat, p: Pc, c: Cell, c': Cell, e: MaybeEnq, closing: bool)
    requires PcOk(u, p, c, e, closing) && Quiet(c, c', u)
    requires (p.Setting() ==> c'.setters > 0) && (p.Updating() ==> c'.reg.Live?)
    ensures PcOk(u, p, c', e, closing)
  {
  }

  // The names a node holds change only from and to t.
  ghost predicate NamesBy(c: Cell, c': Cell, t: nat) {
    && (c'.adding != c.adding ==> c'.adding.By? ==> c'.adding.t == t)
    && (c'.lock != c.lock ==> c'.lock.By? ==> c'.lock.t == t)
    && (c'.reg != c.reg ==> c'.reg.Dropping? ==> c'.reg.t == t)
    && (c'.place != c.place ==> c'.place.Owed? ==> c'.place.t == t)
  }

  ghost predicate NamedAs(c: Cell, t: nat, p: Pc, e: MaybeEnq) {
    && (c.adding == By(t) ==> p.UpCount?)
    && (c.lock == By(t) ==> p.Locking())
    && (c.reg == Dropping(t) ==> DropPc(p))
    && (c.place == Owed(t) ==> OwesNow(p, e))
  }

  // The node does not name t as one of its threads.
  predicate Unnamed(c: Cell, t: nat) {
    c.adding != By(t) && c.lock != By(t) && c.reg != Dropping(t) && c.place != Owed(t)
  }

  // What the consumer relies on while the node is in its hand.
  ghost predicate QuietHand(c: Cell, c': Cell) {
    && (c.qref ==> c'.qref)
    && c'.word.rd == c.word.rd && c'.slots.Get(c.word.rd) == c.slots.Get(c.word.rd)
    && (c.word.dropped ==> c'.word.dropped)
  }

  // ---------- a step of one thread on one node ----------

  /** s' is s after a step of thread t on node n: only t's place and push, and node n, differ. */
  ghost predicate Local(s: State, s': State, t: nat, n: nat) {
    && n in s.cell && n in s'.cell && (t == POLLER ==> s'.q == s.q)
    && s'.cell == s.cell[n := s'.cell[n]]
    && s'.hand == s.hand && s'.events == s.events && s'.claims == s.claims && s'.handled == s.handled
    && (forall u | u != t :: (u in s'.pc <==> u in s.pc) && (u in s.pc ==> s'.pc[u] == s.pc[u]))
    && (forall u | u != t :: (u in s'.q.enq <==> u in s.q.enq) && (u in s.q.enq ==> s'.q.enq[u] == s.q.enq[u]))
    && (t in s.pc ==> s.pc[t].n == n) && (t in s'.pc ==> s'.pc[t].n == n)
    && s'.q.con == s.q.con && s'.q.closing == s.q.closing
    && (forall m | m != n :: Q.Data(m) in s'.q.order <==> Q.Data(m) in s.q.order)
  }

  /** Its obligations. */
  ghost predicate LocalOk(s: State, s': State, t: nat, n: nat)
    requires Local(s, s', t, n)
  {
    var c, c' := s.cell[n], s'.cell[n];
    && CellOk(c')
    && (forall u | u != t :: Quiet(c, c', u))
    && ((c.setters > 0 ==> c'.setters > 0) || NoSetting(s, n))
    && ((c.reg.Live? ==> c'.reg.Live?) || NoUpdating(s, n))
    && NamesBy(c, c', t)
    && (if t in s'.pc then
          PcOk(t, s'.pc[t], c', EnqOf(s'.q, t), s'.q.closing) && NamedAs(c', t, s'.pc[t], EnqOf(s'.q, t))
        else (t in s'.q.enq ==> t == POLLER) && Unnamed(c', t))
    && (c'.place == InList <==> Q.Data(n) in s'.q.order)
    && (c'.place == Held <==> c.place == Held)
    && (!s.hand.Empty? && s.hand.n == n ==> QuietHand(c, c'))
  }

  lemma LocalThreads(s: State, s': State, t: nat, n: nat)
    requires Threads(s) && Local(s, s', t, n) && LocalOk(s, s', t, n)
    ensures Threads(s')
  {
    var c, c' := s.cell[n], s'.cell[n];
    forall u | u in s'.pc
      ensures s'.pc[u].n in s'.cell && PcOk(u, s'.pc[u], s'.cell[s'.pc[u].n], EnqOf(s'.q, u), s'.q.closing)
    {
      if u != t {
        assert PcOk(u, s.pc[u], s.cell[s.pc[u].n], EnqOf(s.q, u), s.q.closing);
        if s.pc[u].n == n { QuietKeeps(u, s.pc[u], c, c', EnqOf(s.q, u), s.q.closing); }
      }
    }
  }

  lemma LocalNamedOther(s: State, s': State, t: nat, n: nat, m: nat)
    requires Cells(s) && Local(s, s', t, n) && m != n && m in s.cell
    ensures m in s'.cell && s'.cell[m] == s.cell[m] && NamedOk(s', m)
  {
    assert NamedOk(s, m);
    var c := s.cell[m];
    assert c.adding.By? ==> c.adding.t != t;
    assert c.lock.By? ==> c.lock.t != t;
    assert c.reg.Dropping? ==> c.reg.t != t;
    assert c.place.Owed? ==> c.place.t != t;
  }

  lemma LocalNamedSame(s: State, s': State, t: nat, n: nat)
    requires Cells(s) && Local(s, s', t, n) && LocalOk(s, s', t, n)
    ensures NamedOk(s', n)
  {
    assert NamedOk(s, n);
    var c, c' := s.cell[n], s'.cell[n];
    if c'.adding.By? && c'.adding.t != t { assert c'.adding == c.adding; }
    if c'.lock.By? && c'.lock.t != t { assert c'.lock == c.lock; }
    if c'.reg.Dropping? && c'.reg.t != t { assert c'.reg == c.reg; }
    if c'.place.Owed? && c'.place.t != t { assert c'.place == c.place; }
  }

  lemma LocalCells(s: State, s': State, t: nat, n: nat)
    requires Cells(s) && Local(s, s', t, n) && LocalOk(s, s', t, n)
    ensures Cells(s')
  {
    forall m | m in s'.cell ensures CellOk(s'.cell[m]) && NamedOk(s', m) {
      if m == n { LocalNamedSame(s, s', t, n); } else { LocalNamedOther(s, s', t, n, m); }
    }
  }

  lemma LocalRest(s: State, s': State, t: nat, n: nat)
    requires Places(s) && HandInv(s) && EventsInv(s) && Local(s, s', t, n) && LocalOk(s, s', t, n)
    ensures Places(s') && HandInv(s') && EventsInv(s')
  {
    forall m | m in s'.cell ensures s'.cell[m].place == Held <==> InHand(s', m) {
      assert InHand(s', m) <==> InHand(s, m);
    }
  }

  lemma LocalKeeps(s: State, s': State, t: nat, n: nat)
    requires Inv(s) && Local(s, s', t, n) && LocalOk(s, s', t, n) && QP.Inv(s'.q)
    ensures Inv(s')
  {
    LocalThreads(s, s', t, n);
    LocalCells(s, s', t, n);
    LocalRest(s, s', t, n);
  }

  // ---------- steps that leave the queue alone ----------

  ghost predicate Mine(o: Owner, t: nat) { o == Nobody || o == By(t) }

  /** What a step of thread t makes of its node, as far as one node and one thread show it:
      everything the node promises still holds, and nothing others rely on is touched. */
  ghost predicate NodeOk(t: nat, c: Cell, c': Cell, p': MaybePc, closing: bool) {
    && CellOk(c')
    && (p'.At? ==> PcOk(t, p'.p, c', None, closing) && NamedAs(c', t, p'.p, None))
    && (p'.Rest? ==> Unnamed(c', t))
    && NamesBy(c, c', t)
    && (c'.place == InList <==> c.place == InList) && (c'.place == Held <==> c.place == Held)
    && QuietHand(c, c')
    && (c'.reg == c.reg || c.reg == Dropping(t))
    && c'.setters == c.setters
    && (c'.word.dropped == c.word.dropped || c.reg == Dropping(t))
    && (c.attached ==> c'.attached) && (!c.attached && c'.attached ==> c.reg.Live?)
    && (c'.adding == c.adding || Mine(c.adding, t))
    && (Mine(c.lock, t) || (c'.lock == c.lock && c'.slots == c.slots && c'.word.wr == c.word.wr))
    && (c'.place == c.place || c.place == Owed(t) || c.place == Nowhere)
    && (c.qref ==> c'.qref)
  }

  lemma NodeOkQuiet(t: nat, c: Cell, c': Cell, p': MaybePc, closing: bool, u: nat)
    requires NodeOk(t, c, c', p', closing) && u != t
    ensures Quiet(c, c', u)
  {
  }

  ghost predicate NodeShape(s: State, s': State, t: nat, n: nat, c': Cell, p': MaybePc) {
    s' == s.(cell := s.cell[n := c'], pc := if p'.At? then s.pc[t := p'.p] else s.pc - {t})
  }

  lemma NodeKeeps(s: State, s': State, t: nat, n: nat, c': Cell, p': MaybePc)
    requires Inv(s) && n in s.cell && (p'.At? ==> p'.p.n == n) && t != POLLER && t !in s.q.enq
    requires (t in s.pc ==> s.pc[t].n == n) && NodeShape(s, s', t, n, c', p')
    requires NodeOk(t, s.cell[n], c', p', s.q.closing)
    ensures Inv(s')
  {
    forall u | u != t ensures Quiet(s.cell[n], c', u) {
      NodeOkQuiet(t, s.cell[n], c', p', s.q.closing, u);
    }
    NodeLocal(s, s', t, n, c', p');
    LocalKeeps(s, s', t, n);
  }

  lemma NodeLocal(s: State, s': State, t: nat, n: nat, c': Cell, p': MaybePc)
    requires Places(s) && n in s.cell && (p'.At? ==> p'.p.n == n) && t != POLLER && t !in s.q.enq
    requires (t in s.pc ==> s.pc[t].n == n) && NodeShape(s, s', t, n, c', p')
    requires NodeOk(t, s.cell[n], c', p', s.q.closing)
    requires forall u | u != t :: Quiet(s.cell[n], c', u)
    ensures Local(s, s', t, n) && LocalOk(s, s', t, n)
  {
    assert EnqOf(s'.q, t) == None;
  }

  lemma ThreadFacts(s: State, t: nat)
    requires Threads(s) && Cells(s) && t in s.pc
    ensures var n := s.pc[t].n;
      && t != POLLER && n in s.cell && PcOk(t, s.pc[t], s.cell[n], EnqOf(s.q, t), s.q.closing) && CellOk(s.cell[n])
      && (!s.pc[t].Pushing? ==> t !in s.q.enq)
      && NamedAs(s.cell[n], t, s.pc[t], EnqOf(s.q, t))
  {
    var n := s.pc[t].n;
    assert NamedOk(s, n);
    assert PcOk(t, s.pc[t], s.cell[n], EnqOf(s.q, t), s.q.closing);
  }
}
