/** Jobs handed to `enqueue_job` (src/net/event_loop.rs:300-324): the node is signalled, then
    registered once, and its two handles live in the job's closure until the job has run. */
module JobDelivery {
  import opened ReadinessWord
  import opened Registration
  import opened RegistrationInv
  import opened RegistrationSteps
  import opened RegistrationConsumer
  import opened RegistrationProcess
  import opened RegistrationTheorems
  import Q = ReadyQueue

  function CountOf(events: seq<Event>, n: nat): nat {
    if events == [] then 0 else CountOf(events[..|events| - 1], n) + (if events[|events| - 1].n == n then 1 else 0)
  }

  // ---------- the invariant of a job node ----------

  // The node by itself.
  ghost predicate JobCell(c: Cell) {
    match c.life
    case Plain => true
    case Created(_) => !c.attached && c.reg.Live? && c.job.Noop? && c.word.interest == 0 && !c.word.queued
    case Armed(_) => !c.attached && c.reg.Live? && c.job.Noop? && c.word.interest == 0 && !c.word.queued
    case Submitted(cb) =>
      && c.reg.Live? && c.word.readiness == READABLE
      && (c.word.interest == 0 ==> c.job.Noop? && !c.word.queued)
      && (c.word.interest != 0 ==> Armed1(c.word) && (c.job.Noop? || c.job == Run(cb)))
    case Delivered(_) =>
      c.job.Noop? && c.word.readiness == READABLE && Armed1(c.word) && (c.word.queued ==> c.word.dropped)
  }

  predicate Armed1(w: Word) { w.interest == READABLE && w.opt == EDGE }

  predicate Uncommitted(p: Pc) {
    p.UpQueue? || p.UpAttach? || p.UpCount? || p.UpLock? || p.UpLoad? || p.UpCompare? || p.UpWrite? || p.UpSwap?
  }

  // The thread at work on the node.
  ghost predicate JobThread(p: Pc, c: Cell) {
    match c.life
    case Plain => true
    case Created(_) => false
    case Armed(_) => (p.SetLoad? || p.SetSwap?) && p.ready == READABLE && (p.SetSwap? ==> !p.seen.dropped)
    case Submitted(cb) =>
      && p.Updating() && !p.QueueLoad?
      && (!p.Pushing? ==> p.arg == JobArg(cb))
      && (Uncommitted(p) <==> c.word.interest == 0)
      && (p.UpUnlock? ==> p.owes)
      && (p.UpUnlock? || p.UpJob? <==> c.word.interest != 0 && c.job.Noop?)
    case Delivered(_) => (p.Pushing? && p.why == ForUpdate) || DropPc(p)
  }

  // The consumer with the node in hand.
  ghost predicate JobHand(h: Hand, c: Cell, closing: bool) {
    match c.life
    case Plain => true
    case Created(_) => true
    case Armed(_) => true
    case Submitted(cb) =>
      && !h.Back? && (h.Free? ==> closing) && c.word.interest != 0
      && (h.Swap? ==> h.seen == c.word)
      && (h.Emit? ==> h.eff == READABLE && c.job == Run(cb) && !c.word.queued)
    case Delivered(_) => !h.Back? && !h.Emit? && (h.Swap? ==> h.seen.dropped)
  }

  ghost predicate OnNode(s: State, t: nat, n: nat) { t in s.pc && s.pc[t].n == n }

  ghost predicate JobNode(s: State, n: nat)
    requires n in s.cell
  {
    var c := s.cell[n];
    c.life.Plain? ||
    (&& JobCell(c)
     && (forall t | OnNode(s, t, n) :: JobThread(s.pc[t], c))
     && (forall t, u | OnNode(s, t, n) && OnNode(s, u, n) :: t == u)
     && (!s.hand.Empty? && s.hand.n == n ==> JobHand(s.hand, c, s.q.closing))
     && (c.life.Armed? ==> c.word.readiness == READABLE || exists t :: OnNode(s, t, n))
     && (c.life.Submitted? && c.word.interest == 0 ==> exists t :: OnNode(s, t, n))
     && (c.life.Submitted? && c.word.interest != 0 ==>
           (c.word.queued || (s.hand.Emit? && s.hand.n == n)) && (c.job.Noop? ==> c.place.Owed?))
     && (n in s.q.popped && !s.q.closing ==> c.life.Delivered? || (!s.hand.Empty? && s.hand.n == n))
     && CountOf(s.events, n) == (if c.life.Delivered? then 1 else 0)
     && (c.life.Delivered? ==> forall i :: 0 <= i < |s.events| && s.events[i].n == n ==>
           s.events[i].job == Run(c.life.cb) && s.events[i].ready == READABLE))
  }

  ghost predicate JobInv(s: State) {
    && (forall n | n in s.cell :: JobNode(s, n))
    && (forall i :: 0 <= i < |s.events| ==> s.events[i].n in s.cell)
    && (forall n | n in s.q.popped :: n in s.cell)
  }

  // ---------- a thread's step on a job node ----------

  lemma Bits()
    ensures READABLE != 0 && READABLE & READABLE == READABLE && EDGE & EDGE == EDGE && 0 != READABLE
    ensures EDGE & ONESHOT != ONESHOT
  {
  }

  lemma JobNodeStep(t: nat, p: Pc, c: Cell, closing: bool)
    requires NodePre(t, p, c, closing) && !c.life.Plain? && JobCell(c) && JobThread(p, c)
    requires p.UpLock? ==> c.lock.Nobody?
    ensures var (c', p') := NodeStep(t, p, c);
      && JobCell(c') && (p'.At? ==> JobThread(p'.p, c')) && c'.life == c.life
      && (p'.Rest? ==> (c.life.Armed? && c'.word.readiness == READABLE) || c.life.Delivered?)
      && (c.life.Armed? && c.word.readiness == READABLE ==> c'.word.readiness == READABLE)
      && (c.life.Submitted? && c'.word.interest != 0 && c.word.interest == 0 ==> c'.word.queued && c'.place.Owed?)
      && (c.life.Submitted? && c.word.interest != 0 ==>
            c'.word == c.word && c'.place == c.place && c'.job == c.job && c'.word.interest != 0)
      && (c.life.Delivered? && c.word.dropped ==> c'.word.dropped)
  {
    Bits();
    if p.SetSwap? { SetReadyFacts(c.word, p.ready); }
    if p.UpSwap? {
      UpdatedFacts(c.word, p.arg, p.pos);
      assert Updated(c.word, p.arg, p.pos).Effective() == READABLE & READABLE;
    }
  }

  // ---------- frames ----------

  // Nothing that node n's invariant speaks of has changed.
  ghost predicate SameFor(s: State, s': State, n: nat) {
    && n in s.cell && n in s'.cell && s'.cell[n] == s.cell[n]
    && (forall t :: OnNode(s', t, n) <==> OnNode(s, t, n))
    && (forall t | OnNode(s, t, n) :: s'.pc[t] == s.pc[t])
    && (s'.hand == s.hand || ((s.hand.Empty? || s.hand.n != n) && (s'.hand.Empty? || s'.hand.n != n)))
    && (s.q.closing ==> s'.q.closing)
    && (n in s'.q.popped ==> n in s.q.popped)
  }

  lemma SameKeeps(s: State, s': State, n: nat)
    requires SameFor(s, s', n) && JobNode(s, n) && s'.events == s.events
    ensures JobNode(s', n)
  {
    if !s.cell[n].life.Plain? {
      if t :| OnNode(s, t, n) { assert OnNode(s', t, n); }
    }
  }

  // A step of thread t on node n0 that leaves the consumer, the events and the popped nodes alone.
  ghost predicate ThreadShape(s: State, s': State, t: nat, n0: nat) {
    && n0 in s.cell && n0 in s'.cell && s'.cell == s.cell[n0 := s'.cell[n0]]
    && (forall u | u != t :: (u in s'.pc <==> u in s.pc) && (u in s.pc ==> s'.pc[u] == s.pc[u]))
    && (t in s.pc ==> s.pc[t].n == n0) && (t in s'.pc ==> s'.pc[t].n == n0)
    && s'.hand == s.hand && s'.events == s.events && s'.q.closing == s.q.closing && s'.q.popped == s.q.popped
  }

  lemma ThreadShapeKeeps(s: State, s': State, t: nat, n0: nat)
    requires JobInv(s) && ThreadShape(s, s', t, n0) && JobNode(s', n0)
    ensures JobInv(s')
  {
    forall n | n in s'.cell ensures JobNode(s', n) {
      if n != n0 {
        assert SameFor(s, s', n);
        SameKeeps(s, s', n);
      }
    }
  }

  // What is to be shown of the node itself, when its thread was or becomes t.
  ghost predicate NodeGoal(s: State, s': State, t: nat, n: nat)
    requires n in s.cell && n in s'.cell
  {
    var c, c' := s.cell[n], s'.cell[n];
    (c'.life.Plain? ||
     (&& JobCell(c') && (forall u | OnNode(s, u, n) :: u == t)
      && CountOf(s.events, n) == (if c'.life.Delivered? then 1 else 0)
      && (t in s'.pc ==> JobThread(s'.pc[t], c'))
      && (t !in s'.pc ==> (c'.life.Armed? && c'.word.readiness == READABLE) || c'.life.Delivered? || c'.life.Created?
                          || (c'.life.Submitted? && c'.word.interest != 0))
      && (!s.hand.Empty? && s.hand.n == n ==> JobHand(s.hand, c', s.q.closing))
      && (c'.life.Submitted? && c'.word.interest != 0 ==>
            (c'.word.queued || (s.hand.Emit? && s.hand.n == n)) && (c'.job.Noop? ==> c'.place.Owed?))
      && (n in s.q.popped && !s.q.closing ==> c'.life.Delivered? || (!s.hand.Empty? && s.hand.n == n))
      && (c'.life.Delivered? ==> c.life == c'.life)))
  }

  lemma ThreadNode(s: State, s': State, t: nat, n: nat)
    requires ThreadShape(s, s', t, n) && JobNode(s, n) && NodeGoal(s, s', t, n)
    ensures JobNode(s', n)
  {
    var c' := s'.cell[n];
    if !c'.life.Plain? {
      forall u | OnNode(s', u, n) ensures u == t && JobThread(s'.pc[u], c') {
        if u != t { assert OnNode(s, u, n); }
      }
      if t in s'.pc { assert OnNode(s', t, n); }
    }
  }

  // The hand of the consumer does not see what a thread does to a job node.
  lemma HandUnaffected(h: Hand, c: Cell, c': Cell, closing: bool)
    requires JobHand(h, c, closing) && c'.life == c.life
    requires c.life.Submitted? && c.word.interest != 0 ==> c'.word == c.word && c'.job == c.job
    requires !c.life.Plain?
    ensures JobHand(h, c', closing)
  {
  }

  lemma JobLock(s: State, t: nat)
    requires Inv(s) && t in s.pc && s.pc[t].n in s.cell && JobNode(s, s.pc[t].n) && !s.cell[s.pc[t].n].life.Plain?
    ensures s.pc[t].UpLock? ==> s.cell[s.pc[t].n].lock.Nobody?
    ensures forall u | OnNode(s, u, s.pc[t].n) :: u == t
  {
    var n := s.pc[t].n;
    assert NamedOk(s, n) && OnNode(s, t, n);
    if s.cell[n].lock.By? { assert OnNode(s, s.cell[n].lock.t, n); }
  }

  lemma NodeThreadGoal(s: State, t: nat)
    requires JobInv(s) && t in s.pc && s.pc[t].n in s.cell && ThreadEnabled(s, t) && t !in s.q.enq
    requires !QueuePc(s.pc[t], s.cell[s.pc[t].n]) && !s.cell[s.pc[t].n].life.Plain?
    requires NodePre(t, s.pc[t], s.cell[s.pc[t].n], s.q.closing)
    requires s.pc[t].UpLock? ==> s.cell[s.pc[t].n].lock.Nobody?
    requires forall u | OnNode(s, u, s.pc[t].n) :: u == t
    ensures NodeGoal(s, ThreadStep(s, t), t, s.pc[t].n)
  {
    var p := s.pc[t];
    var n, c := p.n, s.cell[p.n];
    assert JobNode(s, n) && OnNode(s, t, n);
    JobNodeStep(t, p, c, s.q.closing);
    if !s.hand.Empty? && s.hand.n == n { HandUnaffected(s.hand, c, NodeStep(t, p, c).0, s.q.closing); }
  }

  lemma NodeThreadShape(s: State, t: nat)
    requires t in s.pc && s.pc[t].n in s.cell && ThreadEnabled(s, t) && !QueuePc(s.pc[t], s.cell[s.pc[t].n])
    ensures var s' := ThreadStep(s, t); var n := s.pc[t].n;
      ThreadShape(s, s', t, n) && s'.cell[n].life == s.cell[n].life
  {
    var p := s.pc[t];
    NodeStepKeepsN(t, p, s.cell[p.n]);
    NodeStepLife(t, p, s.cell[p.n]);
  }

  lemma JobNodeThread(s: State, t: nat)
    requires Inv(s) && JobInv(s) && t in s.pc && s.pc[t].n in s.cell && ThreadEnabled(s, t)
    requires !QueuePc(s.pc[t], s.cell[s.pc[t].n])
    ensures JobInv(ThreadStep(s, t))
  {
    var n := s.pc[t].n;
    var s' := ThreadStep(s, t);
    NodeThreadShape(s, t);
    if !s.cell[n].life.Plain? {
      ThreadFacts(s, t);
      JobLock(s, t);
      NodeThreadGoal(s, t);
    }
    ThreadNode(s, s', t, n);
    ThreadShapeKeeps(s, s', t, n);
  }

  lemma NodeStepLife(t: nat, p: Pc, c: Cell)
    requires !QueuePc(p, c) && (p.UpCompare? ==> p.seen.Positions())
    ensures NodeStep(t, p, c).0.life == c.life
  {
  }

  // ---------- a thread in the queue ----------

  // What the thread's step in the queue leaves of a job node.
  ghost predicate PushedOk(c: Cell, c': Cell, p': MaybePc) {
    && c'.life == c.life && c'.word == c.word && JobCell(c')
    && (p'.At? ==> JobThread(p'.p, c'))
    && (p'.Rest? ==> c.life.Delivered? || (c.life.Submitted? && c.word.interest != 0))
    && (c.life.Submitted? && c.word.interest != 0 ==> c'.job.Run?)
  }

  lemma BeginJobNode(t: nat, p: Pc, c: Cell, closing: bool)
    requires PcOk(t, p, c, None, closing) && CellOk(c) && JobCell(c) && JobThread(p, c) && !c.life.Plain?
    requires !p.Pushing? && QueuePc(p, c)
    ensures PushedOk(c, BeginCell(p, c), At(BeginPc(p)))
  {
  }

  lemma PushJobNode(p: Pc, c: Cell, e: Q.Enq, e': MaybeEnq)
    requires JobCell(c) && JobThread(p, c) && !c.life.Plain? && p.Pushing?
    ensures PushedOk(c, PushNode(c, e, e'), AfterPc(p, e'))
  {
  }

  ghost predicate QueueStepOf(s: State, s': State, t: nat, c': Cell, p': MaybePc) {
    && t in s.pc && s.pc[t].n in s.cell && (p'.At? ==> p'.p.n == s.pc[t].n)
    && s'.cell == s.cell[s.pc[t].n := c'] && s'.pc == (if p'.At? then s.pc[t := p'.p] else s.pc - {t})
    && s'.hand == s.hand && s'.events == s.events && s'.q.closing == s.q.closing && s'.q.popped == s.q.popped
  }

  lemma QueueStepGoal(s: State, s': State, t: nat, c': Cell, p': MaybePc)
    requires QueueStepOf(s, s', t, c', p') && JobNode(s, s.pc[t].n) && !s.cell[s.pc[t].n].life.Plain?
    requires PushedOk(s.cell[s.pc[t].n], c', p')
    requires forall u | OnNode(s, u, s.pc[t].n) :: u == t
    requires !s.hand.Empty? && s.hand.n == s.pc[t].n ==> s.hand.Emit? || s.cell[s.pc[t].n].job == c'.job
    requires !s.hand.Empty? && s.hand.n == s.pc[t].n && s.hand.Emit? ==> s.cell[s.pc[t].n].job == c'.job
    ensures NodeGoal(s, s', t, s.pc[t].n)
  {
  }

  lemma QueueStepKeeps(s: State, s': State, t: nat, c': Cell, p': MaybePc)
    requires JobInv(s) && QueueStepOf(s, s', t, c', p') && c'.life == s.cell[s.pc[t].n].life
    requires s.cell[s.pc[t].n].life.Plain? || NodeGoal(s, s', t, s.pc[t].n)
    ensures JobInv(s')
  {
    var n := s.pc[t].n;
    assert JobNode(s, n);
    assert NodeGoal(s, s', t, n);
    ThreadNode(s, s', t, n);
    ThreadShapeKeeps(s, s', t, n);
  }

  // While a thread is about to install the job, the consumer does not have the node.
  lemma JobNotYetInHand(s: State, t: nat)
    requires Inv(s) && t in s.pc && s.pc[t].UpJob? && s.pc[t].n in s.cell && JobNode(s, s.pc[t].n)
    requires !s.cell[s.pc[t].n].life.Plain?
    ensures s.hand.Empty? || s.hand.n != s.pc[t].n
  {
    ThreadFacts(s, t);
    assert OnNode(s, t, s.pc[t].n);
    if !s.hand.Empty? && s.hand.n == s.pc[t].n { HandFacts(s); }
  }

  lemma JobBegin(s: State, t: nat)
    requires Inv(s) && JobInv(s) && t in s.pc && s.pc[t].n in s.cell && ThreadEnabled(s, t)
    requires !s.pc[t].Pushing? && QueuePc(s.pc[t], s.cell[s.pc[t].n])
    ensures JobInv(ThreadStep(s, t))
  {
    ThreadFacts(s, t);
    BeginShape(s, t);
    var p := s.pc[t];
    var n, c := p.n, s.cell[p.n];
    var s' := ThreadStep(s, t);
    assert JobNode(s, n) && OnNode(s, t, n);
    if !c.life.Plain? {
      JobLock(s, t);
      BeginJobNode(t, p, c, s.q.closing);
      if p.UpJob? { JobNotYetInHand(s, t); }
      QueueStepGoal(s, s', t, BeginCell(p, c), At(BeginPc(p)));
    }
    QueueStepKeeps(s, s', t, BeginCell(p, c), At(BeginPc(p)));
  }

  lemma EnqueuePopped(q: Q.State, t: nat)
    requires t in q.enq
    ensures Q.EnqueueStep(q, t).popped == q.popped
  {
  }

  lemma JobPush(s: State, s': State, t: nat, e': MaybeEnq)
    requires Inv(s) && JobInv(s) && t in s.pc && s.pc[t].Pushing? && t in s.q.enq && s.pc[t].n in s.cell
    requires QueueStepOf(s, s', t, PushNode(s.cell[s.pc[t].n], s.q.enq[t], e'), AfterPc(s.pc[t], e'))
    ensures JobInv(s')
  {
    var p := s.pc[t];
    var n, c := p.n, s.cell[p.n];
    assert JobNode(s, n) && OnNode(s, t, n);
    if !c.life.Plain? {
      JobLock(s, t);
      PushJobNode(p, c, s.q.enq[t], e');
      QueueStepGoal(s, s', t, PushNode(c, s.q.enq[t], e'), AfterPc(p, e'));
    }
    QueueStepKeeps(s, s', t, PushNode(c, s.q.enq[t], e'), AfterPc(p, e'));
  }

  lemma JobThreadKeeps(s: State, t: nat)
    requires Inv(s) && JobInv(s) && t in s.pc && s.pc[t].n in s.cell && ThreadEnabled(s, t)
    ensures JobInv(ThreadStep(s, t))
  {
    if s.pc[t].Pushing? {
      ThreadFacts(s, t);
      EnqueueShape(s.q, t);
      PushStepShape(s, t);
      EnqueuePopped(s.q, t);
      JobPush(s, ThreadStep(s, t), t, EnqOf(Q.EnqueueStep(s.q, t), t));
    } else if QueuePc(s.pc[t], s.cell[s.pc[t].n]) {
      JobBegin(s, t);
    } else {
      JobNodeThread(s, t);
    }
  }

  lemma JobPipeFull(s: State, t: nat)
    requires Inv(s) && JobInv(s) && Enabled(s, PipeFull(t))
    ensures JobInv(Step(s, PipeFull(t)))
  {
    ThreadFacts(s, t);
    FullStepShape(s, t);
    JobPush(s, Step(s, PipeFull(t)), t, None);
  }

  lemma FullStepShape(s: State, t: nat)
    requires Enabled(s, PipeFull(t)) && s.pc[t].n in s.cell
    ensures QueueStepOf(s, Step(s, PipeFull(t)), t,
                        PushNode(s.cell[s.pc[t].n], s.q.enq[t], None), AfterPc(s.pc[t], None))
  {
    assert s.cell[s.pc[t].n := s.cell[s.pc[t].n]] == s.cell;
  }

  // ---------- the consumer ----------

  // A consumer's step on at most one node, without an event.
  ghost predicate ConsumerOnly(s: State, s': State, n0: nat) {
    && n0 in s.cell && n0 in s'.cell && s'.cell == s.cell[n0 := s'.cell[n0]]
    && s'.pc == s.pc && s'.events == s.events && (s.q.closing ==> s'.q.closing)
    && (s.hand.Empty? || s.hand.n == n0) && (s'.hand.Empty? || s'.hand.n == n0)
    && (forall m | m in s'.q.popped :: m in s.q.popped || m == n0)
  }

  ghost predicate ConsumerGoal(s: State, s': State, n: nat)
    requires n in s.cell && n in s'.cell
  {
    var c, c' := s.cell[n], s'.cell[n];
    && c'.life == c.life && c'.job == c.job
    && c'.word.readiness == c.word.readiness && c'.word.opt == c.word.opt && c'.word.dropped == c.word.dropped
    && (!c.life.Plain? ==>
         && c'.word.interest == c.word.interest && JobCell(c')
         && (!s'.hand.Empty? ==> JobHand(s'.hand, c', s'.q.closing))
         && (c'.life.Submitted? && c'.word.interest != 0 ==>
               (c'.word.queued || s'.hand.Emit?) && (c'.job.Noop? ==> c'.place.Owed?))
         && (n in s'.q.popped && !s'.q.closing ==> c'.life.Delivered? || !s'.hand.Empty?)
         && c'.attached == c.attached && c'.reg == c.reg)
  }

  lemma ConsumerNode(s: State, s': State, n0: nat)
    requires JobInv(s) && ConsumerOnly(s, s', n0) && ConsumerGoal(s, s', n0)
    ensures JobInv(s')
  {
    forall n | n in s'.cell ensures JobNode(s', n) {
      assert JobNode(s, n);
      forall t ensures OnNode(s', t, n) <==> OnNode(s, t, n) { }
      if n != n0 {
        SameKeeps(s, s', n);
      } else if !s.cell[n].life.Plain? {
        if t :| OnNode(s, t, n) { assert OnNode(s', t, n); }
      }
    }
  }

  // With an empty hand and no node returned.
  lemma ConsumerIdle(s: State, s': State)
    requires JobInv(s) && s.hand.Empty? && s'.hand.Empty? && s'.cell == s.cell && s'.pc == s.pc && s'.events == s.events
    requires (s.q.closing ==> s'.q.closing) && s'.q.popped == s.q.popped
    ensures JobInv(s')
  {
    forall n | n in s'.cell ensures JobNode(s', n) {
      assert SameFor(s, s', n);
      SameKeeps(s, s', n);
    }
  }

  lemma PopGoal(s: State, n: nat)
    requires n in s.cell && JobNode(s, n) && CellOk(s.cell[n]) && s.cell[n].place == InList && s.cell[n].qref
    requires s.hand.Empty?
    requires Q.Enabled(s.q, Q.Consume) && Q.ConsumeStep(s.q).con == Q.Got(Q.Data(n))
    requires Q.ConsumeStep(s.q).popped == s.q.popped + [n] && Q.ConsumeStep(s.q).closing == s.q.closing
    ensures ConsumerOnly(s, QueueStep(s, Q.Consume), n) && ConsumerGoal(s, QueueStep(s, Q.Consume), n)
  {
  }

  lemma PopJob(s: State)
    requires Inv(s) && JobInv(s) && s.hand.Empty? && Q.Enabled(s.q, Q.Consume) && !s.q.con.Requeue?
    requires Q.ConsumeStep(s.q).con.Got?
    ensures JobInv(QueueStep(s, Q.Consume))
  {
    ConsumeShape(s.q);
    var n := s.q.tail.id;
    assert s.q.order[0] == Q.Data(n);
    InListAlive(s, n);
    assert CellOk(s.cell[n]) && (s.cell[n].place == InList <==> Q.Data(n) in s.q.order);
    PopPopped(s.q);
    PopGoal(s, n);
    ConsumerNode(s, QueueStep(s, Q.Consume), n);
  }

  lemma PopPopped(q: Q.State)
    requires Q.ConsumerStep(q.con) && !q.con.Got?
    ensures var q' := Q.ConsumeStep(q);
      q'.popped == if q'.con.Got? then q.popped + Q.Ids([q.tail]) else q.popped
    ensures q.tail.Data? ==> Q.Ids([q.tail]) == [q.tail.id]
  {
    if q.con.LoadNext? || q.con.SkipMarker? { DecidePopped(q); }
  }

  lemma DecidePopped(q: Q.State)
    requires !q.con.Got?
    ensures var q' := Q.Decide(q); q'.popped == if q'.con.Got? then q.popped + Q.Ids([q.tail]) else q.popped
  {
  }

  lemma IdlePopped(q: Q.State, a: Q.Action)
    requires Q.Enabled(q, a) && (a.Poll? || a.Returned? || a.StartPass? || a.Dequeue? || a.StopPass? || a.Close?)
    ensures Q.Step(q, a).popped == q.popped && (q.closing ==> Q.Step(q, a).closing)
  {
  }

  // Only plain nodes are pushed back.
  lemma BackIsPlain(s: State)
    requires Inv(s) && JobInv(s) && s.hand.Back?
    ensures s.hand.n in s.cell && s.cell[s.hand.n].life.Plain?
  {
    HandFacts(s);
    assert JobNode(s, s.hand.n);
  }

  lemma BackGoal(s: State, s': State, n: nat)
    requires n in s.cell && JobNode(s, n) && s.cell[n].life.Plain? && s.hand.Back? && s.hand.n == n
    requires s'.pc == s.pc && s'.events == s.events && s'.q.closing == s.q.closing && s'.q.popped == s.q.popped
    requires n in s'.cell && s'.cell == s.cell[n := s'.cell[n]] && s'.cell[n] == s.cell[n].(place := s'.cell[n].place)
    requires s'.hand == s.hand || (s'.hand.Emit? && s'.hand.n == n)
    ensures ConsumerOnly(s, s', n) && ConsumerGoal(s, s', n)
  {
  }

  lemma BackStep(s: State, a: Q.Action)
    requires s.hand.Back? && s.hand.n in s.cell && Q.Enabled(s.q, a)
    requires a == Q.Advance(POLLER) || (a == Q.Consume && s.q.con.Requeue?)
    ensures var s' := QueueStep(s, a); var n := s.hand.n;
      && s'.pc == s.pc && s'.events == s.events && s'.q.closing == s.q.closing && s'.q.popped == s.q.popped
      && n in s'.cell && s'.cell == s.cell[n := s'.cell[n]] && s'.cell[n] == s.cell[n].(place := s'.cell[n].place)
      && (s'.hand == s.hand || (s'.hand.Emit? && s'.hand.n == n))
  {
    assert s.cell[s.hand.n := s.cell[s.hand.n]] == s.cell;
    if a.Advance? {
      EnqueuePopped(s.q, POLLER);
      EnqueueClosing(s.q, POLLER);
    }
  }

  lemma JobBack(s: State, a: Q.Action)
    requires Inv(s) && JobInv(s) && s.hand.Back? && Q.Enabled(s.q, a) && (a == Q.Advance(POLLER) || a == Q.Consume)
    ensures JobInv(QueueStep(s, a))
  {
    BackIsPlain(s);
    HandFacts(s);
    BackStep(s, a);
    BackGoal(s, QueueStep(s, a), s.hand.n);
    ConsumerNode(s, QueueStep(s, a), s.hand.n);
  }

  lemma JobIdleStep(s: State, a: Q.Action)
    requires Inv(s) && JobInv(s) && s.hand.Empty? && Q.Enabled(s.q, a) && (a == Q.Advance(POLLER) || a == Q.Consume)
    ensures JobInv(QueueStep(s, a))
  {
    if a.Advance? {
      EnqueuePopped(s.q, POLLER);
      EnqueueClosing(s.q, POLLER);
      ConsumerIdle(s, QueueStep(s, a));
    } else {
      ConsumeShape(s.q);
      PopPopped(s.q);
      if Q.ConsumeStep(s.q).con.Got? { PopJob(s); } else { ConsumerIdle(s, QueueStep(s, a)); }
    }
  }

  lemma JobControl(s: State, a: Q.Action)
    requires Inv(s) && JobInv(s) && s.hand.Empty? && Q.Enabled(s.q, a)
    requires a.Poll? || a.Returned? || a.StartPass? || a.Dequeue? || a.StopPass? || a.Close?
    ensures JobInv(QueueStep(s, a))
  {
    IdlePopped(s.q, a);
    ConsumerIdle(s, QueueStep(s, a));
  }

  lemma JobQueueKeeps(s: State, a: Q.Action)
    requires Inv(s) && JobInv(s) && Enabled(s, Queue(a))
    ensures JobInv(QueueStep(s, a))
  {
    if a.Advance? || a.Consume? {
      if s.hand.Back? { JobBack(s, a); }
      else {
        if a.Advance? { AdvanceHandEmpty(s); }
        JobIdleStep(s, a);
      }
    } else {
      JobControl(s, a);
    }
  }

  lemma EnqueueClosing(q: Q.State, t: nat)
    requires t in q.enq
    ensures Q.EnqueueStep(q, t).closing == q.closing
  {
  }

  // ---------- the consumer on the node ----------

  lemma JobSettleCell(c: Cell, seen: Word)
    requires JobCell(c) && c.life.Submitted? && c.word.interest != 0 && seen == c.word && c.word.queued
    ensures Consumed(seen) != seen && !Consumed(seen).queued && seen.Effective() == READABLE
    ensures SettledCell(c, seen).word == c.word.(queued := false, rd := c.word.wr)
  {
    Bits();
    assert seen.Effective() == READABLE & READABLE;
  }

  lemma SettleGoal(s: State, s': State, n: nat, tok: nat)
    requires n in s.cell && JobNode(s, n) && CellOk(s.cell[n]) && s.hand.Swap? && s.hand.n == n
    requires !s.hand.seen.dropped && s.hand.seen.queued
    requires s.cell[n].place == Held
    requires Consumed(s.hand.seen) == s.hand.seen || s.cell[n].word == s.hand.seen
    requires s' == s.(q := s'.q, hand := s'.hand, cell := s.cell[n := SettledCell(s.cell[n], s.hand.seen)],
                      claims := s'.claims)
    requires var next := Consumed(s.hand.seen); var eff := s.hand.seen.Effective();
      s'.hand == HandAfter(n, next, eff, tok)
    requires s'.q.popped == s.q.popped && s'.q.closing == s.q.closing
    ensures ConsumerOnly(s, s', n) && ConsumerGoal(s, s', n)
  {
    ConsumedFacts(s.hand.seen);
    if s.cell[n].life.Submitted? { JobSettleCell(s.cell[n], s.hand.seen); }
  }

  lemma JobSettle(s: State)
    requires Inv(s) && JobInv(s) && s.hand.Swap? && ProcessEnabled(s) && !s.hand.seen.dropped
    requires Consumed(s.hand.seen) == s.hand.seen || s.cell[s.hand.n].word == s.hand.seen
    ensures JobInv(ProcessStep(s))
  {
    HandFacts(s);
    SettleShape(s);
    var n := s.hand.n;
    var s' := ProcessStep(s);
    SettleJobQueue(s.q, Consumed(s.hand.seen).queued);
    SettleGoal(s, s', n, if Consumed(s.hand.seen) == s.hand.seen then s.hand.tok else s.cell[n].token);
    ConsumerNode(s, s', n);
  }

  lemma SettleJobQueue(q: Q.State, back: bool)
    requires if back then Q.Enabled(q, Q.PutBack) else Q.Enabled(q, Q.Forget)
    ensures var q' := Q.Step(q, if back then Q.PutBack else Q.Forget); q'.popped == q.popped && q'.closing == q.closing
  {
  }

  lemma JobRetry(s: State)
    requires Inv(s) && JobInv(s) && ProcessEnabled(s)
    requires s.hand.Load? || (s.hand.Swap? && (s.hand.seen.dropped
               || (Consumed(s.hand.seen) != s.hand.seen && s.cell[s.hand.n].word != s.hand.seen)))
    ensures JobInv(ProcessStep(s))
  {
    HandFacts(s);
    var n := s.hand.n;
    assert JobNode(s, n);
    assert s.cell[n := s.cell[n]] == s.cell;
    ConsumerNode(s, ProcessStep(s), n);
  }

  lemma JobFree(s: State)
    requires Inv(s) && JobInv(s) && s.hand.Free? && ProcessEnabled(s)
    ensures JobInv(ProcessStep(s))
  {
    HandFacts(s);
    var n := s.hand.n;
    assert JobNode(s, n);
    SettleJobQueue(s.q, false);
    ConsumerNode(s, ProcessStep(s), n);
  }

  lemma CountAppend(events: seq<Event>, e: Event, n: nat)
    ensures CountOf(events + [e], n) == CountOf(events, n) + (if e.n == n then 1 else 0)
  {
    assert (events + [e])[..|events|] == events;
  }

  lemma {:induction false} CountZero(events: seq<Event>, n: nat)
    requires forall i :: 0 <= i < |events| ==> events[i].n != n
    ensures CountOf(events, n) == 0
  {
    if events != [] { CountZero(events[..|events| - 1], n); }
  }

  // The event is reported: the job is taken out of the node.
  lemma EmitNode(s: State, s': State, n: nat)
    requires Inv(s) && n in s.cell && JobNode(s, n) && s.hand.Emit? && s.hand.n == n && !s.cell[n].life.Plain?
    requires var c := s.cell[n];
      s' == s.(hand := Empty, events := s.events + [Event(n, s.hand.eff, c.slots.Get(s.hand.rd), c.job)],
               cell := s.cell[n := c.(job := Noop, life := if c.life.Submitted? then Delivered(c.life.cb) else c.life)])
    ensures JobNode(s', n) && s.cell[n].life.Submitted?
  {
    HandFacts(s);
    CountAppend(s.events, Event(n, s.hand.eff, s.cell[n].slots.Get(s.hand.rd), s.cell[n].job), n);
    assert s.cell[n].life.Submitted?;
    EmitThreads(s, s', n);
    forall i | 0 <= i < |s'.events| && s'.events[i].n == n
      ensures s'.events[i].job == Run(s'.cell[n].life.cb) && s'.events[i].ready == READABLE
    {
      if i < |s.events| { CountSome(s.events, i); }
    }
  }

  lemma {:induction false} CountSome(events: seq<Event>, i: nat)
    requires i < |events|
    ensures CountOf(events, events[i].n) > 0
  {
    if i < |events| - 1 { CountSome(events[..|events| - 1], i); }
  }

  lemma EmitThreads(s: State, s': State, n: nat)
    requires n in s.cell && JobNode(s, n) && s.cell[n].life.Submitted? && s.cell[n].job.Run?
    requires s.cell[n].word.interest != 0
    requires s'.pc == s.pc && n in s'.cell
    requires s'.cell[n] == s.cell[n].(job := Noop, life := Delivered(s.cell[n].life.cb))
    ensures forall t | OnNode(s', t, n) :: JobThread(s'.pc[t], s'.cell[n])
    ensures forall t, u | OnNode(s', t, n) && OnNode(s', u, n) :: t == u
  {
    forall t | OnNode(s', t, n) ensures OnNode(s, t, n) && JobThread(s'.pc[t], s'.cell[n]) {
      assert OnNode(s, t, n);
    }
  }

  lemma JobEmit(s: State)
    requires Inv(s) && JobInv(s) && s.hand.Emit? && ProcessEnabled(s)
    ensures JobInv(ProcessStep(s))
  {
    var n := s.hand.n;
    var s' := ProcessStep(s);
    forall m | m in s'.cell ensures JobNode(s', m) {
      assert JobNode(s, m);
      if m != n {
        OtherEvent(s, s', m);
      } else if !s.cell[n].life.Plain? {
        EmitNode(s, s', n);
      }
    }
    HandFacts(s);
  }

  // Another node's event.
  lemma OtherEvent(s: State, s': State, m: nat)
    requires SameFor(s, s', m) && JobNode(s, m)
    requires |s'.events| == |s.events| + 1 && s'.events[..|s.events|] == s.events && s'.events[|s.events|].n != m
    ensures JobNode(s', m)
  {
    assert s'.events == s.events + [s'.events[|s.events|]];
    CountAppend(s.events, s'.events[|s.events|], m);
    if !s.cell[m].life.Plain? {
      if t :| OnNode(s, t, m) { assert OnNode(s', t, m); }
    }
  }

  lemma JobProcessKeeps(s: State)
    requires Inv(s) && JobInv(s) && ProcessEnabled(s)
    ensures JobInv(ProcessStep(s))
  {
    match s.hand
    case Load(_) => JobRetry(s);
    case Swap(n, seen, _) =>
      if seen.dropped || (Consumed(seen) != seen && s.cell[n].word != seen) { JobRetry(s); } else { JobSettle(s); }
    case Emit(_, _, _, _) => JobEmit(s);
    case Free(_) => JobFree(s);
  }

  // ---------- calls ----------

  lemma JobCreate(s: State, n: nat, c: Cell)
    requires Inv(s) && JobInv(s) && n !in s.cell && (c.life.Plain? || (c.life.Created? && JobCell(c)))
    ensures JobInv(s.(cell := s.cell[n := c]))
  {
    var s' := s.(cell := s.cell[n := c]);
    forall m | m in s'.cell ensures JobNode(s', m) {
      if m != n {
        assert SameFor(s, s', m);
        SameKeeps(s, s', m);
      } else {
        CountZero(s.events, n);
        forall t ensures !OnNode(s', t, n) {
          if OnNode(s', t, n) { ThreadFacts(s, t); }
        }
        if !s.hand.Empty? { HandFacts(s); }
      }
    }
  }

  lemma JobHandle(s: State, a: Action)
    requires JobInv(s) && (a.CloneSetter? || a.DropSetter?) && Enabled(s, a)
    ensures JobInv(Step(s, a))
  {
    var n := a.n;
    var s' := Step(s, a);
    forall m | m in s'.cell ensures JobNode(s', m) {
      assert JobNode(s, m);
      if m != n {
        assert SameFor(s, s', m);
        SameKeeps(s, s', m);
      } else if !s.cell[n].life.Plain? {
        assert forall t | OnNode(s', t, n) :: OnNode(s, t, n);
      }
    }
  }

  // In the states that allow a call on a job node no other thread is at work on it.
  lemma CallAlone(s: State, a: Action)
    requires Inv(s) && JobInv(s) && (a.CallSet? || a.CallUpdate? || a.CallDrop?) && Enabled(s, a)
    requires !s.cell[a.n].life.Plain?
    ensures forall t :: !OnNode(s, t, a.n)
    ensures a.CallUpdate? ==> s.cell[a.n].word.readiness == READABLE
  {
    var n := a.n;
    assert JobNode(s, n);
    forall t ensures !OnNode(s, t, n) {
      if OnNode(s, t, n) { ThreadFacts(s, t); }
    }
  }

  lemma CallHand(s: State, n: nat)
    requires Inv(s) && n in s.cell && !s.cell[n].attached
    ensures s.hand.Empty? || s.hand.n != n
  {
    assert CellOk(s.cell[n]);
    if !s.hand.Empty? { HandFacts(s); }
  }

  // The call of t on node n starts at place p and leaves node c'.
  lemma CallNode(s: State, s': State, t: nat, n: nat, p: Pc, c': Cell)
    requires JobInv(s) && n in s.cell && p.n == n && t !in s.pc
    requires s' == s.(pc := s.pc[t := p], cell := s.cell[n := c'])
    requires c'.life.Plain? || NodeGoal(s, s', t, n)
    ensures JobInv(s')
  {
    assert JobNode(s, n);
    assert NodeGoal(s, s', t, n);
    ThreadNode(s, s', t, n);
    ThreadShapeKeeps(s, s', t, n);
  }

  lemma JobUnattached(s: State, n: nat)
    requires n in s.cell && JobNode(s, n) && (s.cell[n].life.Created? || s.cell[n].life.Armed?)
    ensures !s.cell[n].attached
  {
  }

  lemma CallSetGoal(s: State, a: Action)
    requires JobInv(s) && a.CallSet? && Enabled(s, a) && !s.cell[a.n].life.Plain?
    requires forall t :: !OnNode(s, t, a.n)
    requires s.hand.Empty? || s.hand.n != a.n
    ensures NodeGoal(s, Step(s, a), a.t, a.n)
  {
    assert JobNode(s, a.n);
  }

  lemma JobCallSet(s: State, a: Action)
    requires Inv(s) && JobInv(s) && a.CallSet? && Enabled(s, a)
    ensures JobInv(Step(s, a))
  {
    var c := s.cell[a.n];
    if !c.life.Plain? {
      CallAlone(s, a);
      JobUnattached(s, a.n);
      CallHand(s, a.n);
      CallSetGoal(s, a);
    }
    CallNode(s, Step(s, a), a.t, a.n, SetLoad(a.n, a.ready),
             c.(life := if c.life.Created? then Armed(c.life.cb) else c.life));
  }

  lemma CallUpdateGoal(s: State, a: Action)
    requires JobInv(s) && a.CallUpdate? && Enabled(s, a) && !s.cell[a.n].life.Plain?
    requires forall t :: !OnNode(s, t, a.n)
    requires s.cell[a.n].word.readiness == READABLE && (s.hand.Empty? || s.hand.n != a.n)
    ensures NodeGoal(s, Step(s, a), a.t, a.n)
  {
    assert JobNode(s, a.n);
  }

  lemma JobCallUpdate(s: State, a: Action)
    requires Inv(s) && JobInv(s) && a.CallUpdate? && Enabled(s, a)
    ensures JobInv(Step(s, a))
  {
    var c := s.cell[a.n];
    if !c.life.Plain? {
      CallAlone(s, a);
      JobUnattached(s, a.n);
      CallHand(s, a.n);
      CallUpdateGoal(s, a);
    }
    CallNode(s, Step(s, a), a.t, a.n, UpQueue(a.n, a.arg),
             c.(life := if c.life.Armed? then Submitted(c.life.cb) else c.life));
  }

  lemma CallDropGoal(s: State, a: Action)
    requires JobInv(s) && a.CallDrop? && Enabled(s, a) && !s.cell[a.n].life.Plain?
    requires forall t :: !OnNode(s, t, a.n)
    ensures NodeGoal(s, Step(s, a), a.t, a.n)
  {
    assert JobNode(s, a.n);
  }

  lemma JobCallDrop(s: State, a: Action)
    requires Inv(s) && JobInv(s) && a.CallDrop? && Enabled(s, a)
    ensures JobInv(Step(s, a))
  {
    if !s.cell[a.n].life.Plain? {
      CallAlone(s, a);
      CallDropGoal(s, a);
    }
    CallNode(s, Step(s, a), a.t, a.n, DropFlag(a.n), s.cell[a.n].(reg := Dropping(a.t)));
  }

  lemma JobCreateStep(s: State, a: Action)
    requires Inv(s) && JobInv(s) && (a.New2? || a.NewIn? || a.EnqueueJob?) && Enabled(s, a)
    ensures JobInv(Step(s, a))
  {
    match a
    case New2(n) => JobCreate(s, n, NewCell(ZERO, 0, 2, false, Plain));
    case NewIn(n, token, interest, opt) =>
      JobCreate(s, n, NewCell(ZERO.(interest := interest, opt := opt), token, 3, true, Plain));
    case EnqueueJob(n, cb) => JobCreate(s, n, NewCell(ZERO, 0, 2, false, Created(cb)));
  }

  lemma JobCallStep(s: State, a: Action)
    requires Inv(s) && JobInv(s) && (a.CallSet? || a.CallUpdate? || a.CallDrop?) && Enabled(s, a)
    ensures JobInv(Step(s, a))
  {
    if a.CallSet? { JobCallSet(s, a); } else if a.CallUpdate? { JobCallUpdate(s, a); } else { JobCallDrop(s, a); }
  }

  lemma JobMachineStep(s: State, a: Action)
    requires Inv(s) && JobInv(s) && (a.Thread? || a.PipeFull? || a.Queue? || a.Process? || a.Handle?) && Enabled(s, a)
    ensures JobInv(Step(s, a))
  {
    match a
    case Thread(t) => JobThreadKeeps(s, t);
    case PipeFull(t) => JobPipeFull(s, t);
    case Queue(b) => JobQueueKeeps(s, b);
    case Process => JobProcessKeeps(s);
    case Handle => JobIoProcess(s);
  }

  lemma JobStepKeeps(s: State, a: Action)
    requires Inv(s) && JobInv(s) && Enabled(s, a)
    ensures JobInv(Step(s, a))
  {
    if a.New2? || a.NewIn? || a.EnqueueJob? { JobCreateStep(s, a); }
    else if a.CloneSetter? || a.DropSetter? { JobHandle(s, a); }
    else if a.CallSet? || a.CallUpdate? || a.CallDrop? { JobCallStep(s, a); }
    else { JobMachineStep(s, a); }
  }

  lemma JobIoProcess(s: State)
    requires JobInv(s)
    ensures JobInv(HandleStep(s))
  {
    var s' := HandleStep(s);
    forall m | m in s'.cell ensures JobNode(s', m) {
      assert SameFor(s, s', m);
      SameKeeps(s, s', m);
    }
  }

  lemma {:induction false} JobRun(s: State, run: seq<Action>)
    requires Inv(s) && JobInv(s) && ValidRun(s, run)
    ensures JobInv(EndOf(s, run))
    decreases |run|
  {
    if run != [] {
      StepKeeps(s, run[0]);
      JobStepKeeps(s, run[0]);
      JobRun(Step(s, run[0]), run[1..]);
    }
  }

  lemma JobReachable(s: State)
    requires Reachable(s)
    ensures Inv(s) && JobInv(s)
  {
    var run :| ValidRun(Init(), run) && EndOf(Init(), run) == s;
    JobRun(Init(), run);
    RunKeeps(Init(), run);
  }

  // ---------- exactly-once delivery ----------

  /** The job of a node made by enqueue_job is reported, that is passed to push_event, at most once,
      and then it is the callback that was enqueued. On a queue that is not being dropped, once the node
      has been dequeued and processed it has been reported exactly once. Until then the registration is
      live, and not flagged as dropped: the node cannot be released unreported. */
  lemma JobExactlyOnce(s: State, n: nat)
    requires Reachable(s) && n in s.cell && !s.cell[n].life.Plain?
    ensures CountOf(s.events, n) <= 1
    ensures forall i :: 0 <= i < |s.events| && s.events[i].n == n ==>
              s.events[i].job == Run(s.cell[n].life.cb) && s.events[i].ready == READABLE
    ensures n in s.q.popped && !s.q.closing && (s.hand.Empty? || s.hand.n != n) ==> CountOf(s.events, n) == 1
    ensures CountOf(s.events, n) == 0 ==> s.cell[n].reg.Live? && !s.cell[n].word.dropped
  {
    JobReachable(s);
    assert JobNode(s, n) && CellOk(s.cell[n]);
    forall i | 0 <= i < |s.events| && s.events[i].n == n ensures s.cell[n].life.Delivered? {
      CountSome(s.events, i);
    }
  }

  /** The job is installed before the node can be reached by the consumer: whenever a job node that has
      not been reported is in the list or in the consumer's hand, its job is the callback, and its state is that
      of a readable, armed, edge-triggered node, so that processing it reports it. */
  lemma JobInstalledFirst(s: State, n: nat)
    requires Reachable(s) && n in s.cell && !s.cell[n].life.Plain? && CountOf(s.events, n) == 0
    requires Responsible(s, n, TheList) || Responsible(s, n, TheConsumer)
    ensures s.cell[n].job == Run(s.cell[n].life.cb)
    ensures s.cell[n].word.Effective() == READABLE && s.cell[n].word.Edge() && s.cell[n].word.queued
  {
    JobReachable(s);
    Bits();
    assert JobNode(s, n) && CellOk(s.cell[n]);
    assert s.cell[n].place == InList <==> Q.Data(n) in s.q.order;
    assert s.cell[n].place == Held <==> InHand(s, n);
    assert s.cell[n].word.Effective() == s.cell[n].word.readiness & s.cell[n].word.interest;
    assert s.cell[n].word.readiness == READABLE && s.cell[n].word.interest == READABLE;
  }

  // After the report the node passes through the queue only as a dropped one: the consumer
  // releases it and reports nothing.
  lemma JobDropIsSilent(s: State, n: nat)
    requires Reachable(s) && n in s.cell && !s.cell[n].life.Plain? && CountOf(s.events, n) == 1
    requires !s.hand.Empty? && s.hand.n == n
    ensures s.hand.Load? || (s.hand.Swap? && s.hand.seen.dropped) || s.hand.Free?
    ensures s.hand.Swap? && ProcessEnabled(s) ==> ProcessStep(s).hand == Free(n)
  {
    JobReachable(s);
    assert JobNode(s, n);
  }
}
