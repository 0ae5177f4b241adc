/** The jobs that `io_process` calls: what becomes of the events of the readiness queue. */
module JobCalls {
  import opened Registration
  import opened RegistrationInv
  import opened RegistrationProcess
  import opened RegistrationTheorems
  import opened JobDelivery
  import L = EventLoops
  import E = EventLoopProofs

  function CallCount(calls: seq<Call>, n: nat): nat {
    if calls == [] then 0 else CallCount(calls[..|calls| - 1], n) + (if calls[|calls| - 1].n == n then 1 else 0)
  }

  // ---------- the calls are the events that were handled ----------

  ghost predicate CallsInv(s: State) {
    && s.handled <= |s.events| && s.calls == CallsOf(s.events[..s.handled])
    && forall i | 0 <= i < |s.events| :: s.events[i].ready != 0
  }

  // The events of s' are those of s, perhaps with one more, which has a readiness.
  ghost predicate Grown(s: State, s': State) {
    || s'.events == s.events
    || (|s'.events| == |s.events| + 1 && s'.events[..|s.events|] == s.events && s'.events[|s.events|].ready != 0)
  }

  lemma ProcessGrows(s: State)
    requires Inv(s) && ProcessEnabled(s)
    ensures Grown(s, ProcessStep(s)) && ProcessStep(s).calls == s.calls && ProcessStep(s).handled == s.handled
  {
    if s.hand.Emit? { HandFacts(s); }
  }

  lemma OthersDoNotGrow(s: State, a: Action)
    requires Enabled(s, a) && !a.Process? && !a.Handle?
    ensures Step(s, a).events == s.events && Step(s, a).calls == s.calls && Step(s, a).handled == s.handled
  {
  }

  lemma CallsAppend(a: seq<Event>, b: seq<Event>)
    ensures CallsOf(a + b) == CallsOf(a) + CallsOf(b)
  {
  }

  lemma HandleCalls(s: State)
    requires CallsInv(s)
    ensures CallsInv(HandleStep(s))
  {
    CallsAppend(s.events[..s.handled], s.events[s.handled..]);
    assert s.events[..s.handled] + s.events[s.handled..] == s.events == s.events[..|s.events|];
  }

  lemma GrownCalls(s: State, s': State)
    requires CallsInv(s) && Grown(s, s') && s'.calls == s.calls && s'.handled == s.handled
    ensures CallsInv(s')
  {
    assert s'.events[..s.handled] == s.events[..s.handled];
  }

  lemma StepCalls(s: State, a: Action)
    requires Inv(s) && CallsInv(s) && Enabled(s, a)
    ensures CallsInv(Step(s, a))
  {
    if a.Handle? {
      HandleCalls(s);
    } else if a.Process? {
      ProcessGrows(s);
      GrownCalls(s, ProcessStep(s));
    } else {
      OthersDoNotGrow(s, a);
      GrownCalls(s, Step(s, a));
    }
  }

  lemma {:induction false} RunCalls(s: State, run: seq<Action>)
    requires Inv(s) && CallsInv(s) && ValidRun(s, run)
    ensures CallsInv(EndOf(s, run))
    decreases |run|
  {
    if run != [] {
      StepKeeps(s, run[0]);
      StepCalls(s, run[0]);
      RunCalls(Step(s, run[0]), run[1..]);
    }
  }

  lemma CallsReachable(s: State)
    requires Reachable(s)
    ensures CallsInv(s)
  {
    var run :| ValidRun(Init(), run) && EndOf(Init(), run) == s;
    assert CallsOf([]) == [];
    RunCalls(Init(), run);
  }

  // ---------- exactly once ----------

  lemma {:induction false} CallsCount(es: seq<Event>, n: nat)
    ensures CallCount(CallsOf(es), n) == CountOf(es, n)
    decreases |es|
  {
    if es != [] {
      var front := es[..|es| - 1];
      CallsCount(front, n);
      assert CallsOf(es)[..|es| - 1] == CallsOf(front);
    }
  }

  lemma {:induction false} CountPrefix(es: seq<Event>, k: nat, n: nat)
    requires k <= |es|
    ensures CountOf(es[..k], n) <= CountOf(es, n)
    decreases |es|
  {
    if k < |es| {
      CountPrefix(es[..|es| - 1], k, n);
      assert es[..|es| - 1][..k] == es[..k];
    } else {
      assert es[..k] == es;
    }
  }

  /** End to end, for a job given to enqueue_job: io_process calls it at most once, and then it is
      the callback that was enqueued; on a queue that is not being dropped, once its node has been dequeued and
      processed and io_process has run after that, it has been called exactly once. */
  lemma JobCalledOnce(s: State, n: nat)
    requires Reachable(s) && n in s.cell && !s.cell[n].life.Plain?
    ensures CallCount(s.calls, n) <= 1
    ensures forall i | 0 <= i < |s.calls| && s.calls[i].n == n :: s.calls[i].job == Run(s.cell[n].life.cb)
    ensures n in s.q.popped && !s.q.closing && (s.hand.Empty? || s.hand.n != n) && s.handled == |s.events| ==>
              CallCount(s.calls, n) == 1
  {
    CallsReachable(s);
    JobExactlyOnce(s, n);
    CallsCount(s.events[..s.handled], n);
    CountPrefix(s.events, s.handled, n);
    assert s.events[..|s.events|] == s.events;
    forall i | 0 <= i < |s.calls| && s.calls[i].n == n ensures s.calls[i].job == Run(s.cell[n].life.cb) {
      assert s.calls[i] == CallOf(s.events[i]);
    }
  }

  /** What is lost on the way: every event of the readiness queue has a readiness, and no job is ever
      called with it. */
  lemma ReadinessIsLost(s: State, i: nat)
    requires Reachable(s) && i < |s.calls|
    ensures i < |s.events| && s.calls[i].n == s.events[i].n && s.calls[i].job == s.events[i].job
    ensures s.calls[i].ready == 0 && s.events[i].ready != 0
  {
    CallsReachable(s);
    assert s.calls[i] == CallOf(s.events[i]);
  }

  // ---------- a job whose node is still queued when the queue is closed ----------

  // The queue has let go of a node of enqueue_job.
  ghost predicate LetGo(s: State, n: nat) {
    n in s.cell && s.cell[n].attached && !s.cell[n].qref && !s.cell[n].life.Plain?
  }

  lemma NodeLetGo(t: nat, p: Pc, c: Cell)
    requires !QueuePc(p, c) && (p.UpCompare? ==> p.seen.Positions()) && c.attached && !c.qref && !c.life.Plain?
    ensures var c' := NodeStep(t, p, c).0; c'.attached && !c'.qref && !c'.life.Plain?
  {
  }

  lemma ThreadLetGo(s: State, t: nat, n: nat)
    requires Enabled(s, Thread(t)) && LetGo(s, n)
    ensures LetGo(ThreadStep(s, t), n)
  {
    if s.pc[t].n == n && !QueuePc(s.pc[t], s.cell[n]) { NodeLetGo(t, s.pc[t], s.cell[s.pc[t].n]); }
  }

  lemma ProcessLetGo(s: State, n: nat)
    requires Inv(s) && ProcessEnabled(s) && LetGo(s, n)
    ensures LetGo(ProcessStep(s), n) && CountOf(ProcessStep(s).events, n) == CountOf(s.events, n)
  {
    HandFacts(s);
    if s.hand.Emit? {
      CountAppend(s.events, ProcessStep(s).events[|s.events|], n);
    } else if Settles(s) {
      SettleShape(s);
    }
  }

  lemma OthersLetGo(s: State, a: Action, n: nat)
    requires Enabled(s, a) && !a.Process? && !a.Thread? && LetGo(s, n)
    ensures LetGo(Step(s, a), n)
  {
  }

  lemma StepLetGo(s: State, a: Action, n: nat)
    requires Inv(s) && Enabled(s, a) && LetGo(s, n)
    ensures LetGo(Step(s, a), n) && CountOf(Step(s, a).events, n) == CountOf(s.events, n)
  {
    if a.Process? {
      ProcessLetGo(s, n);
    } else if a.Thread? {
      ThreadLetGo(s, a.t, n);
      OthersDoNotGrow(s, a);
    } else {
      OthersLetGo(s, a, n);
      if !a.Handle? { OthersDoNotGrow(s, a); }
    }
  }

  lemma {:induction false} RunLetGo(s: State, run: seq<Action>, n: nat)
    requires Inv(s) && ValidRun(s, run) && LetGo(s, n)
    ensures LetGo(EndOf(s, run), n) && CountOf(EndOf(s, run).events, n) == CountOf(s.events, n)
    decreases |run|
  {
    if run != [] {
      StepKeeps(s, run[0]);
      StepLetGo(s, run[0], n);
      RunLetGo(Step(s, run[0]), run[1..], n);
    }
  }

  lemma {:induction false} ReachableOn(s: State, run: seq<Action>)
    requires Reachable(s) && ValidRun(s, run)
    ensures Reachable(EndOf(s, run))
  {
    var first :| ValidRun(Init(), first) && EndOf(Init(), first) == s;
    RunsJoin(Init(), first, run);
  }

  lemma {:induction false} RunsJoin(s: State, first: seq<Action>, run: seq<Action>)
    requires ValidRun(s, first) && ValidRun(EndOf(s, first), run)
    ensures ValidRun(s, first + run) && EndOf(s, first + run) == EndOf(EndOf(s, first), run)
    decreases |first|
  {
    if first == [] {
      assert first + run == run;
    } else {
      RunsJoin(Step(s, first[0]), first[1..], run);
      assert (first + run)[1..] == first[1..] + run;
    }
  }

  /** A job that the queue lets go of before it was reported is leaked: it is never called, and its
      node, whose handles are in the job itself, is never freed. */
  lemma UnreportedJobLeaks(s: State, run: seq<Action>, n: nat)
    requires Reachable(s) && ValidRun(s, run) && LetGo(s, n) && CountOf(s.events, n) == 0
    ensures var s' := EndOf(s, run);
      && n in s'.cell && s'.cell[n].refs > 0 && CountOf(s'.events, n) == 0 && CallCount(s'.calls, n) == 0
  {
    var s' := EndOf(s, run);
    ReachableInv(s);
    RunLetGo(s, run, n);
    ReachableOn(s, run);
    ReachableInv(s');
    JobExactlyOnce(s', n);
    assert CellOk(s'.cell[n]);
    CallsReachable(s');
    CallsCount(s'.events[..s'.handled], n);
    CountPrefix(s'.events, s'.handled, n);
  }

  // ---------- the step of io_process is the event loop's ----------

  function JobId(j: Job): nat { match j case Noop => 0 case Run(id) => id + 1 }

  // The batch that io_process finds after a pass over the readiness queue.
  function Batch(es: seq<Event>): seq<L.Event> {
    seq(|es|, i requires 0 <= i < |es| => L.PushEvent(JobId(es[i].job), es[i].ready as nat))
  }

  function Pairs(calls: seq<Call>): seq<(nat, nat)> {
    seq(|calls|, i requires 0 <= i < |calls| => (JobId(calls[i].job), calls[i].ready as nat))
  }

  lemma {:induction false} BatchJobs(es: seq<Event>)
    ensures E.JobsOf(Batch(es)) == Pairs(CallsOf(es))
    decreases |es|
  {
    if es != [] {
      BatchJobs(es[1..]);
      assert Batch(es)[1..] == Batch(es[1..]);
      assert Pairs(CallsOf(es)) == [(JobId(es[0].job), 0)] + Pairs(CallsOf(es[1..]));
    }
  }

  /** The jobs that the Handle step calls are those that EventLoop.IoProcess calls for the batch, in
      the same order and with the same readiness, whatever its timer and whatever the callbacks do to it. */
  lemma HandleIsIoProcess<T(!new)>(s: State, l: L.Loop<T>, l': L.Loop<T>)
    requires s.handled <= |s.events| && Enabled(s, Handle)
    requires L.Leads(l, l') && L.Done(l') && l.rest == Batch(s.events[s.handled..])
    ensures var more := Step(s, Handle).calls[|s.calls|..];
      Step(s, Handle).calls == s.calls + more && E.JobCalls(l'.calls) == E.JobCalls(l.calls) + Pairs(more)
  {
    E.JobsCalledOnce(l, l');
    BatchJobs(s.events[s.handled..]);
  }
}
