/** What holds over stretches of a run of registrations: events between two updates, the state an
    event was claimed from, and the drop of the queue with all its nodes. */
module RegistrationRuns {
  import opened ReadinessWord
  import opened Registration
  import opened RegistrationInv
  import opened RegistrationProcess
  import opened RegistrationTheorems
  import Q = ReadyQueue
  import QP = QueueProofs
  import QC = QueueClose
  import QD = QueueDrop

  // ---------- an edge-triggered oneshot node between two updates ----------

  // The events claimed from edge-triggered oneshot states of n during the run.
  ghost function OneshotClaims(s: State, run: seq<Action>, n: nat): nat
    requires ValidRun(s, run)
    decreases |run|
  {
    if run == [] then 0
    else Count(ClaimsOneshot(s, run[0], n)) + OneshotClaims(Step(s, run[0]), run[1..], n)
  }

  // No update of n takes effect during the run.
  ghost predicate NoCommit(s: State, run: seq<Action>, n: nat)
    requires ValidRun(s, run)
    decreases |run|
  {
    run == [] || (!Commits(s, run[0], n) && NoCommit(Step(s, run[0]), run[1..], n))
  }

  // The events the present arming of the node has yielded.
  function Yielded(c: Cell): int { if c.word.Edge() && c.word.Oneshot() then c.fired else 0 }

  lemma StepYields(s: State, a: Action, n: nat)
    requires Inv(s) && Enabled(s, a) && n in s.cell && !Commits(s, a, n)
    ensures n in Step(s, a).cell && Yielded(Step(s, a).cell[n]) == Yielded(s.cell[n]) + Count(ClaimsOneshot(s, a, n))
  {
    StepFired(s, a, n);
  }

  lemma {:induction false} ClaimsAndYield(s: State, run: seq<Action>, n: nat)
    requires Inv(s) && ValidRun(s, run) && n in s.cell && NoCommit(s, run, n)
    ensures OneshotClaims(s, run, n) + Yielded(s.cell[n]) <= 1
    decreases |run|
  {
    if run == [] {
      assert CellOk(s.cell[n]);
    } else {
      StepYields(s, run[0], n);
      StepKeeps(s, run[0]);
      ClaimsAndYield(Step(s, run[0]), run[1..], n);
    }
  }

  /** In any stretch of a run without an update of n taking effect, at most one event is claimed from
      n in edge-triggered oneshot state. */
  lemma OneshotFiresOnce(s: State, run: seq<Action>, n: nat)
    requires Reachable(s) && ValidRun(s, run) && n in s.cell && NoCommit(s, run, n)
    ensures OneshotClaims(s, run, n) <= 1
  {
    ReachableInv(s);
    ClaimsAndYield(s, run, n);
    assert CellOk(s.cell[n]);
  }

  // ---------- the state an event was claimed from ----------

  // The consumer is between the dequeue of n and its claim, all through the run.
  ghost predicate Holding(s: State, run: seq<Action>, n: nat)
    requires ValidRun(s, run)
    decreases |run|
  {
    (s.hand.Load? || s.hand.Swap?) && s.hand.n == n && (run == [] || Holding(Step(s, run[0]), run[1..], n))
  }

  ghost predicate Has(s: State, n: nat, w: Word, token: nat) {
    n in s.cell && s.cell[n].word == w && s.cell[n].token == token
  }

  // At some moment of the run the node had this state, with this token committed.
  ghost predicate Had(s: State, run: seq<Action>, n: nat, w: Word, token: nat)
    requires ValidRun(s, run)
    decreases |run|
  {
    Has(s, n, w, token) || (run != [] && Had(Step(s, run[0]), run[1..], n, w, token))
  }

  lemma ProcessViews(s: State)
    requires ProcessEnabled(s) && ProcessStep(s).hand.Swap?
    ensures Has(s, s.hand.n, ProcessStep(s).hand.seen, ProcessStep(s).hand.tok)
  {
  }

  lemma OthersKeepHand(s: State, a: Action)
    requires Enabled(s, a) && !a.Process? && (s.hand.Load? || s.hand.Swap?)
    ensures Step(s, a).hand == s.hand
  {
  }

  // The consumer's view of the node is renewed from the node, or stays.
  lemma StepViews(s: State, a: Action)
    requires Inv(s) && Enabled(s, a) && (s.hand.Load? || s.hand.Swap?)
    requires Step(s, a).hand.Swap? && Step(s, a).hand.n == s.hand.n
    ensures Step(s, a).hand == s.hand || Has(s, s.hand.n, Step(s, a).hand.seen, Step(s, a).hand.tok)
  {
    if a.Process? { ProcessViews(s); } else { OthersKeepHand(s, a); }
  }

  lemma {:induction false} ViewWasTrue(s: State, run: seq<Action>, n: nat)
    requires Inv(s) && ValidRun(s, run) && Holding(s, run, n) && EndOf(s, run).hand.Swap?
    ensures var h := EndOf(s, run).hand; h == s.hand || Had(s, run, n, h.seen, h.tok)
    decreases |run|
  {
    if run != [] {
      var s1 := Step(s, run[0]);
      StepKeeps(s, run[0]);
      ViewWasTrue(s1, run[1..], n);
      if EndOf(s, run).hand == s1.hand { StepViews(s, run[0]); }
    }
  }

  // The state seen and the token that go into the claim at the end of the run.
  lemma ClaimedStateOf(s: State, run: seq<Action>, n: nat) returns (w: Word, token: nat)
    requires Inv(s) && ValidRun(s, run) && s.hand.Load? && Holding(s, run, n) && Inv(EndOf(s, run))
    requires ProcessEnabled(EndOf(s, run)) && ProcessStep(EndOf(s, run)).claims != EndOf(s, run).claims
    ensures Had(s, run, n, w, token)
    ensures ProcessStep(EndOf(s, run)).claims == EndOf(s, run).claims + [(n, w.Effective(), token)]
  {
    var s' := EndOf(s, run);
    EndHolds(s, run, n);
    ClaimHasView(s');
    w := s'.hand.seen;
    if Consumed(w) == w {
      token := s'.hand.tok;
      ViewWasTrue(s, run, n);
    } else {
      token := s'.cell[n].token;
      EndHad(s, run, n, w, token);
    }
  }

  lemma {:induction false} EndHolds(s: State, run: seq<Action>, n: nat)
    requires ValidRun(s, run) && Holding(s, run, n)
    ensures (EndOf(s, run).hand.Load? || EndOf(s, run).hand.Swap?) && EndOf(s, run).hand.n == n
    decreases |run|
  {
    if run != [] { EndHolds(Step(s, run[0]), run[1..], n); }
  }

  /** Whatever threads do meanwhile, the event claimed from a dequeued node has the readiness and the
      committed token of one state the node was in between its dequeue and the claim. */
  lemma ClaimedStateWasReal(s: State, run: seq<Action>, n: nat)
    requires Reachable(s) && ValidRun(s, run) && s.hand.Load? && Holding(s, run, n)
    requires Enabled(EndOf(s, run), Process) && ProcessStep(EndOf(s, run)).claims != EndOf(s, run).claims
    ensures exists w, token :: Had(s, run, n, w, token)
              && ProcessStep(EndOf(s, run)).claims == EndOf(s, run).claims + [(n, w.Effective(), token)]
  {
    ReachableInv(s);
    RunKeeps(s, run);
    var w, token := ClaimedStateOf(s, run, n);
  }

  // What is claimed: the state seen, with the token noted, or the one committed at the exchange.
  lemma ClaimHasView(s: State)
    requires Inv(s) && ProcessEnabled(s) && ProcessStep(s).claims != s.claims
    ensures s.hand.Swap? && s.hand.n in s.cell
    ensures var n, seen := s.hand.n, s.hand.seen;
      if Consumed(seen) == seen then ProcessStep(s).claims == s.claims + [(n, seen.Effective(), s.hand.tok)]
      else s.cell[n].word == seen && ProcessStep(s).claims == s.claims + [(n, seen.Effective(), s.cell[n].token)]
  {
    HandFacts(s);
    if Settles(s) { SettleShape(s); } else { NoSettleFired(s, s.hand.n); }
  }

  lemma {:induction false} EndHad(s: State, run: seq<Action>, n: nat, w: Word, token: nat)
    requires ValidRun(s, run) && Has(EndOf(s, run), n, w, token)
    ensures Had(s, run, n, w, token)
    decreases |run|
  {
    if run != [] { EndHad(Step(s, run[0]), run[1..], n, w, token); }
  }

  // ---------- the drop of the queue ----------

  datatype MaybeStep = Stays | Moves(a: Q.Action)

  // What a step does to the queue.
  ghost function QueueStepOf(s: State, a: Action): MaybeStep
    requires Enabled(s, a)
  {
    match a
    case Thread(t) =>
      var p := s.pc[t];
      if p.Pushing? then Moves(Q.Advance(t))
      else if QueuePc(p, s.cell[p.n]) then Moves(Q.Begin(t, Q.Data(p.n)))
      else Stays
    case PipeFull(t) => Moves(Q.PipeFull(t))
    case Queue(b) => Moves(b)
    case Process =>
      if s.hand.Free? then Moves(Q.Forget)
      else if Settles(s) then Moves(if Consumed(s.hand.seen).queued then Q.PutBack else Q.Forget)
      else Stays
    case _ => Stays
  }

  lemma OtherIsQueueStep(s: State, a: Action)
    requires Enabled(s, a) && !a.Process? && !a.Thread?
    ensures match QueueStepOf(s, a)
            case Stays => Step(s, a).q == s.q
            case Moves(b) => Q.Enabled(s.q, b) && Step(s, a).q == Q.Step(s.q, b)
  {
  }

  lemma PushIsQueueStep(s: State, t: nat)
    requires Enabled(s, Thread(t)) && s.pc[t].Pushing?
    ensures Q.Enabled(s.q, Q.Advance(t)) && ThreadStep(s, t).q == Q.Step(s.q, Q.Advance(t))
  {
  }

  lemma ThreadIsQueueStep(s: State, t: nat)
    requires Enabled(s, Thread(t))
    ensures match QueueStepOf(s, Thread(t))
            case Stays => ThreadStep(s, t).q == s.q
            case Moves(b) => Q.Enabled(s.q, b) && ThreadStep(s, t).q == Q.Step(s.q, b)
  {
    if s.pc[t].Pushing? { PushIsQueueStep(s, t); }
  }

  lemma SettleIsQueueStep(s: State)
    requires Inv(s) && ProcessEnabled(s) && Settles(s)
    ensures var b := if Consumed(s.hand.seen).queued then Q.PutBack else Q.Forget;
      Q.Enabled(s.q, b) && ProcessStep(s).q == Q.Step(s.q, b)
  {
    HandFacts(s);
    SettleShape(s);
    BackFresh(s);
  }

  lemma ProcessIsQueueStep(s: State)
    requires Inv(s) && ProcessEnabled(s)
    ensures match QueueStepOf(s, Process)
            case Stays => ProcessStep(s).q == s.q
            case Moves(b) => Q.Enabled(s.q, b) && ProcessStep(s).q == Q.Step(s.q, b)
  {
    if Settles(s) { SettleIsQueueStep(s); } else { HandFacts(s); }
  }

  // A step of the registrations leaves the queue alone or is one step of the queue.
  lemma StepIsQueueStep(s: State, a: Action)
    requires Inv(s) && Enabled(s, a)
    ensures match QueueStepOf(s, a)
            case Stays => Step(s, a).q == s.q
            case Moves(b) => Q.Enabled(s.q, b) && Step(s, a).q == Q.Step(s.q, b)
  {
    match a
    case Process => ProcessIsQueueStep(s);
    case Thread(t) => ThreadIsQueueStep(s, t);
    case _ => OtherIsQueueStep(s, a);
  }

  lemma {:induction false} CleanlyClosedRun(s: State, run: seq<Action>)
    requires Inv(s) && ValidRun(s, run) && QC.CleanlyClosed(s.q)
    ensures QC.CleanlyClosed(EndOf(s, run).q)
    decreases |run|
  {
    if run != [] {
      StepIsQueueStep(s, run[0]);
      if QueueStepOf(s, run[0]).Moves? { QC.CleanStep(s.q, QueueStepOf(s, run[0]).a); }
      StepKeeps(s, run[0]);
      CleanlyClosedRun(Step(s, run[0]), run[1..]);
    }
  }

  /** The queue's reference is released exactly once, at the drop at the latest: if at the call of drop
      the head is a data node and no producer is half-way behind a marker, then whenever drop has returned, each
      queued node that no thread is working on has been released once, and one without handles is freed. */
  lemma DropReleasesAll(s: State, run: seq<Action>, n: nat)
    requires Reachable(s) && Enabled(s, Queue(Q.Close)) && QD.Passable(s.q)
    requires ValidRun(Step(s, Queue(Q.Close)), run)
    requires var s' := EndOf(Step(s, Queue(Q.Close)), run);
      s'.q.con.Done? && n in s'.cell && forall t | t in s'.pc :: s'.pc[t].n != n
    ensures var c := EndOf(Step(s, Queue(Q.Close)), run).cell[n];
      && (c.attached && c.word.queued ==> c.released == 1)
      && (c.reg.Gone? && c.setters == 0 ==> c.refs == 0)
  {
    ReachableInv(s);
    var s1 := Step(s, Queue(Q.Close));
    StepKeeps(s, Queue(Q.Close));
    QP.PollerOutside(s.q);
    assert QC.CleanlyClosed(s1.q);
    CleanlyClosedRun(s1, run);
    RunKeeps(s1, run);
    ClosedReleases(EndOf(s1, run), n);
  }
}
