/** What the registration protocol guarantees in every state of every run. */
module RegistrationTheorems {
  import opened ReadinessWord
  import opened Registration
  import opened RegistrationInv
  import opened RegistrationSteps
  import opened RegistrationConsumer
  import opened RegistrationProcess
  import Q = ReadyQueue
  import QP = QueueProofs

  ghost predicate ValidRun(s: State, run: seq<Action>)
    decreases |run|
  {
    run == [] || (Enabled(s, run[0]) && ValidRun(Step(s, run[0]), run[1..]))
  }

  ghost function EndOf(s: State, run: seq<Action>): State
    requires ValidRun(s, run)
    decreases |run|
  {
    if run == [] then s else EndOf(Step(s, run[0]), run[1..])
  }

  lemma {:induction false} RunKeeps(s: State, run: seq<Action>)
    requires Inv(s) && ValidRun(s, run)
    ensures Inv(EndOf(s, run))
    decreases |run|
  {
    if run != [] {
      StepKeeps(s, run[0]);
      RunKeeps(Step(s, run[0]), run[1..]);
    }
  }

  ghost predicate Reachable(s: State) {
    exists run :: ValidRun(Init(), run) && EndOf(Init(), run) == s
  }

  lemma ReachableInv(s: State)
    requires Reachable(s)
    ensures Inv(s)
  {
    var run :| ValidRun(Init(), run) && EndOf(Init(), run) == s;
    RunKeeps(Init(), run);
  }

  // ---------- the guards are not restrictions ----------

  // A thread in a call can always take its next step: in particular nobody else holds the node
  // it is about to push. The same goes for the consumer and the node in its hand.
  lemma NeverRefused(s: State)
    requires Reachable(s)
    ensures forall t | t in s.pc :: Enabled(s, Thread(t))
    ensures !s.hand.Empty? && !s.hand.Back? ==> Enabled(s, Process)
  {
    ReachableInv(s);
    forall t | t in s.pc ensures Enabled(s, Thread(t)) {
      ThreadFacts(s, t);
      if !s.pc[t].Pushing? && QueuePc(s.pc[t], s.cell[s.pc[t].n]) { BeginEnabled(s, t); }
    }
    if !s.hand.Empty? {
      HandFacts(s);
      if s.hand.Swap? { BackFresh(s); }
    }
  }

  // ---------- exclusive ownership through QUEUED ----------

  datatype Who = TheList | TheConsumer | TheThread(t: nat)

  ghost predicate Responsible(s: State, n: nat, w: Who) {
    match w
    case TheList => Q.Data(n) in s.q.order
    case TheConsumer => InHand(s, n)
    case TheThread(t) => t in s.pc && s.pc[t].n == n && OwesNow(s.pc[t], EnqOf(s.q, t))
  }

  // A node's place says who is responsible for it.
  function WhoIs(p: Place): set<Who> {
    match p
    case Nowhere => {}
    case InList => {TheList}
    case Held => {TheConsumer}
    case Owed(t) => {TheThread(t)}
  }

  lemma ResponsibleIs(s: State, n: nat, w: Who)
    requires Inv(s) && n in s.cell && s.cell[n].qref
    ensures Responsible(s, n, w) <==> w in WhoIs(s.cell[n].place)
  {
    assert CellOk(s.cell[n]) && NamedOk(s, n);
    assert s.cell[n].place == InList <==> Q.Data(n) in s.q.order;
    assert s.cell[n].place == Held <==> InHand(s, n);
    if w.TheThread? && Responsible(s, n, w) { ThreadFacts(s, w.t); }
  }

  // While the queue holds its reference to a node, QUEUED is set exactly if the node is in the
  // list, in the consumer's hand, or owed by a thread, and then it is at one of them only.
  lemma ExclusiveOwner(s: State, n: nat)
    requires Reachable(s) && n in s.cell && s.cell[n].qref
    ensures s.cell[n].word.queued <==> exists w :: Responsible(s, n, w)
    ensures forall v, w :: Responsible(s, n, v) && Responsible(s, n, w) ==> v == w
  {
    ReachableInv(s);
    forall w ensures Responsible(s, n, w) <==> w in WhoIs(s.cell[n].place) { ResponsibleIs(s, n, w); }
    assert CellOk(s.cell[n]);
    OneOwner(s, n);
  }

  lemma OneOwner(s: State, n: nat)
    requires n in s.cell && s.cell[n].qref && CellOk(s.cell[n])
    requires forall w :: Responsible(s, n, w) <==> w in WhoIs(s.cell[n].place)
    ensures s.cell[n].word.queued <==> exists w :: Responsible(s, n, w)
    ensures forall v, w :: Responsible(s, n, v) && Responsible(s, n, w) ==> v == w
  {
    match s.cell[n].place
    case Nowhere =>
    case InList => assert Responsible(s, n, TheList);
    case Held => assert Responsible(s, n, TheConsumer);
    case Owed(t) => assert Responsible(s, n, TheThread(t));
  }

  // A node the queue has let go is nowhere in it and never pushed again.
  lemma ReleasedIsOut(s: State, n: nat, w: Who)
    requires Reachable(s) && n in s.cell && s.cell[n].attached && !s.cell[n].qref
    ensures s.cell[n].word.queued && !Responsible(s, n, w)
  {
    ReachableInv(s);
    assert CellOk(s.cell[n]);
    assert s.cell[n].place == InList <==> Q.Data(n) in s.q.order;
    assert s.cell[n].place == Held <==> InHand(s, n);
    if w.TheThread? && w.t in s.pc { ThreadFacts(s, w.t); }
  }

  // ---------- reference count and lifetime ----------

  // The count is the live handles plus the queue's reference, except between lines 828 and 834
  // of `update`, where the latter is held and not yet counted. The queue lets go at most once.
  lemma ReferenceCount(s: State, n: nat)
    requires Reachable(s) && n in s.cell
    ensures var c := s.cell[n];
      && c.refs == c.setters + Count(!c.reg.Gone?) + Count(c.qref)
                   - Count(exists t :: t in s.pc && s.pc[t].n == n && s.pc[t].UpCount?)
      && c.released <= 1 && (c.attached ==> (c.released == 1 <==> !c.qref))
  {
    ReachableInv(s);
    assert CellOk(s.cell[n]) && NamedOk(s, n);
    forall t | t in s.pc && s.pc[t].n == n && s.pc[t].UpCount? ensures s.cell[n].adding == By(t) {
      ThreadFacts(s, t);
    }
  }

  // The data nodes whose fields a step reads or writes.
  ghost predicate Touches(s: State, a: Action, n: nat) {
    match a
    case Thread(t) => t in s.pc && (s.pc[t].n == n || Links(s, t, n))
    case PipeFull(t) => t in s.pc && s.pc[t].n == n
    case Queue(Advance(t)) => t in s.q.enq && (s.q.enq[t].Holds(Q.Data(n)) || Links(s, t, n))
    case Queue(Consume) => (s.q.con.LoadNext? || s.q.con.SkipMarker? || s.q.con.PushEnd?) && s.q.tail == Q.Data(n)
    case Process => !s.hand.Empty? && s.hand.n == n
    case CloneSetter(m) => m == n
    case DropSetter(m) => m == n
    case _ => false
  }

  // t is about to store the next pointer of n.
  ghost predicate Links(s: State, t: nat, n: nat) {
    t in s.q.enq && s.q.enq[t].Link? && s.q.enq[t].prev == Q.Data(n)
  }

  lemma InListAlive(s: State, n: nat)
    requires Inv(s) && Q.Data(n) in s.q.order
    ensures n in s.cell && s.cell[n].refs > 0 && s.cell[n].qref
  {
    assert CellOk(s.cell[n]) && (s.cell[n].place == InList <==> Q.Data(n) in s.q.order);
  }

  lemma LinkAlive(s: State, t: nat, n: nat)
    requires Inv(s) && Links(s, t, n)
    ensures n in s.cell && s.cell[n].refs > 0
  {
    assert QP.ThreadInv(s.q, t);
    InListAlive(s, n);
  }

  lemma ThreadAlive(s: State, t: nat)
    requires Inv(s) && t in s.pc
    ensures s.pc[t].n in s.cell && s.cell[s.pc[t].n].refs > 0
  {
    ThreadFacts(s, t);
    var p := s.pc[t];
    assert p.Setting() || p.Updating() || DropPc(p);
  }

  lemma HandAlive(s: State)
    requires Inv(s) && !s.hand.Empty?
    ensures s.hand.n in s.cell && s.cell[s.hand.n].refs > 0
  {
    HandFacts(s);
  }

  // No use after free: every node a step touches has a positive reference count, so it was not
  // freed by the step that took the count from one to zero.
  lemma NoUseAfterFree(s: State, a: Action, n: nat)
    requires Reachable(s) && Enabled(s, a) && Touches(s, a, n)
    ensures n in s.cell && s.cell[n].refs > 0
  {
    ReachableInv(s);
    match a
    case Thread(t) => ThreadAlive(s, t); if s.pc[t].n != n { LinkAlive(s, t, n); }
    case PipeFull(t) => ThreadAlive(s, t);
    case Queue(Advance(t)) =>
      if Links(s, t, n) { LinkAlive(s, t, n); }
      else {
        assert QP.ThreadInv(s.q, t);
        HandAlive(s);
      }
    case Queue(Consume) => assert s.q.order[0] == s.q.tail; InListAlive(s, n);
    case Process => HandAlive(s);
    case CloneSetter(_) => assert CellOk(s.cell[n]);
    case DropSetter(_) => assert CellOk(s.cell[n]);
    case _ =>
  }

  // Nothing leaks from an open queue: a dropped node that no thread is working on and that is no
  // longer in the queue has been let go, and is freed with its last handle.
  lemma DroppedIsReleased(s: State, n: nat)
    requires Reachable(s) && n in s.cell && s.cell[n].word.dropped && forall t | t in s.pc :: s.pc[t].n != n
    requires Q.Data(n) !in s.q.order && !InHand(s, n)
    ensures !s.cell[n].qref && s.cell[n].refs == s.cell[n].setters
  {
    ReachableInv(s);
    assert CellOk(s.cell[n]) && NamedOk(s, n);
    assert s.cell[n].place == InList <==> Q.Data(n) in s.q.order;
    assert s.cell[n].place == Held <==> InHand(s, n);
  }

  // After the drain of a cleanly closed queue, every queued node has been let go exactly once,
  // and a node without handles is freed.
  lemma ClosedIsReleased(s: State, n: nat)
    requires Reachable(s) && n in s.cell && s.q.con.Done? && s.q.order == [Q.Closed]
    requires forall t | t in s.pc :: s.pc[t].n != n
    ensures s.cell[n].attached && s.cell[n].word.queued ==> s.cell[n].released == 1
    ensures s.cell[n].reg.Gone? && s.cell[n].setters == 0 ==> s.cell[n].refs == 0
  {
    ReachableInv(s);
    ClosedReleases(s, n);
  }

  lemma ClosedReleases(s: State, n: nat)
    requires Inv(s) && n in s.cell && s.q.con.Done? && s.q.order == [Q.Closed]
    requires forall t | t in s.pc :: s.pc[t].n != n
    ensures s.cell[n].attached && s.cell[n].word.queued ==> s.cell[n].released == 1
    ensures s.cell[n].reg.Gone? && s.cell[n].setters == 0 ==> s.cell[n].refs == 0
  {
    assert CellOk(s.cell[n]) && NamedOk(s, n);
    assert s.cell[n].place == InList <==> Q.Data(n) in s.q.order;
    assert s.cell[n].place == Held <==> InHand(s, n);
    if s.hand.Empty? { } else { HandFacts(s); }
  }

  // ---------- the token slots ----------

  // No token slot is written while the consumer is to read it, nor by two threads at once.
  lemma NoTornToken(s: State, t: nat, n: nat)
    requires Reachable(s) && t in s.pc && s.pc[t].UpWrite? && s.pc[t].n == n
    ensures n in s.cell && s.pc[t].pos < 3 && s.pc[t].pos != s.cell[n].word.rd && s.pc[t].pos != s.cell[n].word.wr
    ensures (s.hand.Emit? || s.hand.Back?) && s.hand.n == n ==> s.hand.rd != s.pc[t].pos
    ensures forall u | u in s.pc && s.pc[u].UpWrite? && s.pc[u].n == n :: u == t
  {
    ReachableInv(s);
    ThreadFacts(s, t);
    if !s.hand.Empty? { HandFacts(s); }
    forall u | u in s.pc && s.pc[u].UpWrite? && s.pc[u].n == n ensures u == t {
      ThreadFacts(s, u);
    }
  }

  lemma OnlyProcessClaims(s: State, a: Action)
    requires Enabled(s, a) && !a.Process?
    ensures Step(s, a).claims == s.claims && Step(s, a).events == s.events
  {
  }

  // A step that claims an event claims it with the readiness of the state it consumes and the
  // token of the last committed update: at its compare-exchange, or, when the state is left as
  // it is and there is none, at its load.
  lemma ClaimIsCommitted(s: State, a: Action)
    requires Reachable(s) && Enabled(s, a) && Step(s, a).claims != s.claims
    ensures a.Process? && s.hand.Swap? && !s.hand.seen.dropped
    ensures var n := s.hand.n; var seen := s.hand.seen; var eff := seen.Effective();
      && n in s.cell && eff != 0
      && (if Consumed(seen) != seen then
            s.cell[n].word == seen && Step(s, a).claims == s.claims + [(n, eff, s.cell[n].token)]
          else !seen.Edge() && Step(s, a).claims == s.claims + [(n, eff, s.hand.tok)])
  {
    ReachableInv(s);
    if !a.Process? { OnlyProcessClaims(s, a); }
    HandFacts(s);
    assert Settles(s);
    SettleShape(s);
    ConsumedFacts(s.hand.seen);
  }

  // At the load, and at each failed compare-exchange, the token noted is the committed one.
  lemma LoadNotesCommitted(s: State)
    requires ProcessEnabled(s) && ProcessStep(s).hand.Swap?
    ensures s.hand.n in s.cell && ProcessStep(s).hand == Swap(s.hand.n, s.cell[s.hand.n].word, s.cell[s.hand.n].token)
  {
  }

  // What an update commits.
  lemma CommitSetsToken(s: State, t: nat)
    requires Reachable(s) && t in s.pc && s.pc[t].UpSwap?
    requires Enabled(s, Thread(t)) && s.cell[s.pc[t].n].word == s.pc[t].seen
    ensures var n := s.pc[t].n; var c' := Step(s, Thread(t)).cell[n];
      c'.token == s.pc[t].arg.token == c'.slots.Get(c'.word.wr)
  {
    ReachableInv(s);
    ThreadFacts(s, t);
  }

  // The events reported are the claims, in order: the token read from the slot is the one claimed.
  lemma EventsAreClaims(s: State, i: nat)
    requires Reachable(s) && i < |s.events|
    ensures i < |s.claims| <= |s.events| + 1 && s.claims[i] == (s.events[i].n, s.events[i].ready, s.events[i].token)
  {
    ReachableInv(s);
  }

  // ---------- triggers ----------

  // A live node that is not edge-triggered is queued whenever a readiness it asked for is set;
  // an edge-triggered oneshot node yields at most one event between two updates, and is then
  // disarmed.
  lemma Triggers(s: State, n: nat)
    requires Reachable(s) && n in s.cell && !s.cell[n].word.dropped
    ensures var c := s.cell[n];
      && (!c.word.Edge() && c.word.Effective() != 0 ==> c.word.queued)
      && (c.word.Edge() && c.word.Oneshot() ==> c.fired <= 1 && (c.fired == 1 ==> c.word.interest == 0))
  {
    ReachableInv(s);
    assert CellOk(s.cell[n]);
  }

  // The step that claims an event from an edge-triggered oneshot state of n.
  ghost predicate ClaimsOneshot(s: State, a: Action, n: nat)
    requires Enabled(s, a)
  {
    && a.Process? && s.hand.Swap? && s.hand.n == n && s.hand.seen.Edge() && s.hand.seen.Oneshot()
    && Step(s, a).claims != s.claims
  }

  // The step by which an update of n takes effect.
  predicate Commits(s: State, a: Action, n: nat) {
    && a.Thread? && a.t in s.pc && s.pc[a.t].UpSwap? && s.pc[a.t].n == n && n in s.cell
    && s.cell[n].word == s.pc[a.t].seen
  }

  lemma NodeFired(t: nat, p: Pc, c: Cell)
    requires !QueuePc(p, c) && (p.UpCompare? ==> p.seen.Positions())
    ensures var c' := NodeStep(t, p, c).0;
      if p.UpSwap? && p.seen == c.word then c'.fired == 0 else c'.fired == c.fired && c'.word.opt == c.word.opt
  {
  }

  lemma OtherFired(s: State, a: Action, n: nat)
    requires Enabled(s, a) && !a.Process? && !a.Thread? && n in s.cell
    ensures n in Step(s, a).cell
    ensures Step(s, a).cell[n].fired == s.cell[n].fired && Step(s, a).cell[n].word == s.cell[n].word
  {
  }

  lemma ThreadFired(s: State, t: nat, n: nat)
    requires Enabled(s, Thread(t)) && n in s.cell
    ensures n in ThreadStep(s, t).cell
    ensures var c, c' := s.cell[n], ThreadStep(s, t).cell[n];
      if Commits(s, Thread(t), n) then c'.fired == 0 else c'.fired == c.fired && c'.word.opt == c.word.opt
  {
    if !QueuePc(s.pc[t], s.cell[s.pc[t].n]) { NodeFired(t, s.pc[t], s.cell[s.pc[t].n]); }
  }

  // Of the settled states only the edge-triggered oneshot ones with readiness count.
  lemma SettledFired(c: Cell, seen: Word)
    requires seen.queued && (Consumed(seen) == seen || c.word == seen)
    ensures SettledCell(c, seen).word.opt == c.word.opt
    ensures SettledCell(c, seen).fired == c.fired + Count(seen.Edge() && seen.Oneshot() && seen.Effective() != 0)
    ensures seen.Edge() ==> c.word == seen
  {
    ConsumedFacts(seen);
  }

  // The compare-exchange loop is left by this step.
  predicate Settles(s: State) {
    && s.hand.Swap? && !s.hand.seen.dropped && s.hand.n in s.cell
    && (Consumed(s.hand.seen) == s.hand.seen || s.cell[s.hand.n].word == s.hand.seen)
  }

  lemma SettleFired(s: State)
    requires Inv(s) && ProcessEnabled(s) && Settles(s)
    ensures ProcessStep(s).cell == s.cell[s.hand.n := SettledCell(s.cell[s.hand.n], s.hand.seen)]
    ensures ProcessStep(s).claims != s.claims <==> s.hand.seen.Effective() != 0
    ensures s.hand.seen.queued
  {
    HandFacts(s);
    SettleShape(s);
  }

  lemma NoSettleFired(s: State, n: nat)
    requires ProcessEnabled(s) && !Settles(s) && n in s.cell
    ensures ProcessStep(s).claims == s.claims && n in ProcessStep(s).cell
    ensures var c, c' := s.cell[n], ProcessStep(s).cell[n]; c'.word == c.word && c'.fired == c.fired
  {
  }

  lemma SettleClaims(s: State, n: nat)
    requires Inv(s) && ProcessEnabled(s) && Settles(s)
    ensures ClaimsOneshot(s, Process, n)
            <==> n == s.hand.n && s.hand.seen.Edge() && s.hand.seen.Oneshot() && s.hand.seen.Effective() != 0
  {
    SettleFired(s);
  }

  lemma SettleCounts(s: State, n: nat)
    requires Inv(s) && ProcessEnabled(s) && Settles(s) && n in s.cell
    ensures n in ProcessStep(s).cell
    ensures var c, c' := s.cell[n], ProcessStep(s).cell[n];
      c'.word.opt == c.word.opt && c'.fired == c.fired + Count(ClaimsOneshot(s, Process, n))
  {
    SettleFired(s);
    SettleClaims(s, n);
    if n == s.hand.n { SettledFired(s.cell[n], s.hand.seen); }
  }

  lemma ProcessFired(s: State, n: nat)
    requires Inv(s) && ProcessEnabled(s) && n in s.cell
    ensures n in ProcessStep(s).cell
    ensures var c, c' := s.cell[n], ProcessStep(s).cell[n];
      c'.word.opt == c.word.opt && c'.fired == c.fired + Count(ClaimsOneshot(s, Process, n))
    ensures ClaimsOneshot(s, Process, n) ==> s.cell[n].word == s.hand.seen
  {
    if Settles(s) { SettleCounts(s, n); } else { NoSettleFired(s, n); }
  }

  /** `fired` is what its name says: it grows by one with each event claimed from an edge-triggered
      oneshot state, is reset by each committed update, and changes at no other step. */
  lemma FiredCounts(s: State, a: Action, n: nat)
    requires Reachable(s) && Enabled(s, a) && n in s.cell
    ensures n in Step(s, a).cell
    ensures Step(s, a).cell[n].fired == if Commits(s, a, n) then 0 else s.cell[n].fired + Count(ClaimsOneshot(s, a, n))
  {
    ReachableInv(s);
    StepFired(s, a, n);
  }

  // An update aside, no step changes the options, and claims are all that is counted.
  lemma StepFired(s: State, a: Action, n: nat)
    requires Inv(s) && Enabled(s, a) && n in s.cell
    ensures n in Step(s, a).cell
    ensures var c, c' := s.cell[n], Step(s, a).cell[n];
      if Commits(s, a, n) then c'.fired == 0
      else c'.fired == c.fired + Count(ClaimsOneshot(s, a, n)) && c'.word.opt == c.word.opt
    ensures ClaimsOneshot(s, a, n) ==> s.cell[n].word == s.hand.seen
  {
    if a.Process? { ProcessFired(s, n); }
    else if a.Thread? { ThreadFired(s, a.t, n); }
    else { OtherFired(s, a, n); }
  }

  // ---------- the source's debug assertions ----------

  // Wherever the source asserts something about the state of a node, it holds.
  lemma AssertionsHold(s: State)
    requires Reachable(s)
    // line 208: a registration is flagged as dropped once
    ensures forall t | t in s.pc && s.pc[t].DropFlag? :: s.pc[t].n in s.cell && !s.cell[s.pc[t].n].word.dropped
    // lines 111 and 872: no update, and no queueing, of a dropped node
    ensures forall t | t in s.pc && s.pc[t].UpSwap? :: s.pc[t].n in s.cell && !s.cell[s.pc[t].n].word.dropped
    // line 883: the write position is the updater's
    ensures forall t | t in s.pc && s.pc[t].UpSwap? ::
              s.pc[t].n in s.cell && s.cell[s.pc[t].n].word.wr == s.pc[t].seen.wr
    // line 336: two references when the queue turns out closed
    ensures forall t | t in s.pc && s.pc[t].Pushing? && t in s.q.enq && s.q.enq[t].Rejected? ::
              s.pc[t].n in s.cell && s.cell[s.pc[t].n].refs >= 2
    // line 348: the link is stored once
    ensures forall t | t in s.q.enq && s.q.enq[t].Link? :: s.q.enq[t].prev !in s.q.next
    // lines 115, 468 and 553: a dequeued node is queued
    ensures s.hand.Load? || s.hand.Swap? ==> s.hand.n in s.cell && s.cell[s.hand.n].word.queued
    ensures s.hand.Swap? ==> s.hand.seen.queued
  {
    ReachableInv(s);
    forall t | t in s.pc
      ensures s.pc[t].n in s.cell
      ensures s.pc[t].DropFlag? || s.pc[t].UpSwap? ==> !s.cell[s.pc[t].n].word.dropped
      ensures s.pc[t].UpSwap? ==> s.cell[s.pc[t].n].word.wr == s.pc[t].seen.wr
      ensures s.pc[t].Pushing? && t in s.q.enq && s.q.enq[t].Rejected? ==> s.cell[s.pc[t].n].refs >= 2
    {
      ThreadFacts(s, t);
      if s.pc[t].Pushing? && s.q.enq[t].Rejected? { RejectedCount(s, t); }
    }
    forall t | t in s.q.enq && s.q.enq[t].Link? ensures s.q.enq[t].prev !in s.q.next {
      QP.LinkLinks(s.q, t);
    }
    if !s.hand.Empty? { HandFacts(s); }
  }

  lemma RejectedCount(s: State, t: nat)
    requires Inv(s) && t in s.pc && s.pc[t].Pushing? && t in s.q.enq && s.q.enq[t].Rejected?
    ensures s.pc[t].n in s.cell && s.cell[s.pc[t].n].refs >= 2
  {
    ThreadFacts(s, t);
    EnqueueShape(s.q, t);
    NobodyAdding(s, s.pc[t].n);
  }

  // ---------- nothing is slept over ----------

  /** Whenever the consumer may block in select, a queued node that the queue still holds has made the
      pipe readable, or some producer is between its head exchange and its wakeup, or a thread still
      owes the push of this very node. With Triggers: a live level-triggered node whose readiness meets
      its interest is never slept over. */
  lemma QueuedIsNotSleptOver(s: State, n: nat)
    requires Reachable(s) && s.q.con == Q.Select(true)
    requires n in s.cell && s.cell[n].qref && s.cell[n].word.queued
    ensures || s.q.pipe > 0
            || (exists t :: t in s.q.enq && t != POLLER && QP.Waking(s.q.enq[t]))
            || (exists t :: t in s.pc && s.pc[t].n == n && OwesNow(s.pc[t], EnqOf(s.q, t)))
  {
    ReachableInv(s);
    assert CellOk(s.cell[n]) && NamedOk(s, n);
    assert s.cell[n].place == InList <==> Q.Data(n) in s.q.order;
    assert s.cell[n].place == Held <==> InHand(s, n);
    if !s.hand.Empty? { HandFacts(s); }
    if s.cell[n].place.InList? {
      QP.SleepIsWatched(s.q);
      if s.q.head == Q.Sleep { QP.Single(s.q); }
    }
  }
}
