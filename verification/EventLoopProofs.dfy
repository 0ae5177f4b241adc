/** What a batch of io_process means, whatever its callbacks do to the timer. */
module EventLoopProofs {
  import opened Wheel
  import opened WheelSteps
  import opened WheelTiming
  import opened WheelDrain
  import opened WheelRuns
  import opened EventLoops

  // The first step of a run, and the run that is left.
  lemma RunTail<T>(ss: seq<Loop<T>>, keys: seq<nat>)
    requires Trace(ss, keys) && keys != []
    ensures Next(ss[0], keys[0], ss[1]) && Ready(ss[1]) && Trace(ss[1..], keys[1..])
  {
    assert Next(ss[0], keys[0], ss[1]);
    forall i | 0 <= i < |keys[1..]| ensures Next(ss[1..][i], keys[1..][i], ss[1..][i + 1]) {
      assert Next(ss[i + 1], keys[i + 1], ss[i + 2]);
    }
  }

  // ---------- the jobs ----------

  function JobsOf(events: seq<Event>): seq<(nat, nat)> {
    if events == [] then []
    else (if events[0].JobEvent? then [(events[0].job, events[0].ready)] else []) + JobsOf(events[1..])
  }

  function JobCalls<T>(calls: seq<Call<T>>): seq<(nat, nat)> {
    if calls == [] then [] else
      var last := calls[|calls| - 1];
      JobCalls(calls[..|calls| - 1]) + if last.Ran? then [(last.job, last.ready)] else []
  }

  lemma JobCallsOne<T>(calls: seq<Call<T>>, c: Call<T>)
    ensures JobCalls(calls + [c]) == JobCalls(calls) + if c.Ran? then [(c.job, c.ready)] else []
  {
    assert (calls + [c])[..|calls|] == calls;
  }

  lemma BeginShape<T>(s: Loop<T>, c: Call<T>)
    ensures var s' := Begin(s, c);
      s'.calls == s.calls + [c] && s'.history == s.history && s'.rest == s.rest && s'.clock == s.clock
  {
  }

  // What a step does to the calls and to the events to come.
  lemma StepShape<T>(s: Loop<T>, key: nat, s': Loop<T>)
    requires Next(s, key, s')
    ensures s.calls <= s'.calls
    ensures s.deeds != [] ==> s'.calls == s.calls && s'.rest == s.rest
    ensures s.deeds == [] && s.rest[0].JobEvent? ==>
      s'.calls == s.calls + [Ran(s.rest[0].job, s.rest[0].ready)] && s'.rest == s.rest[1..]
    ensures s.deeds == [] && s.rest[0].TimersEvent? ==>
      match PollTo(s.history.wheel, s.clock[0]).0
      case Some(_, entry) => s'.calls == s.calls + [Expired(entry.state)] && s'.rest == s.rest
      case None => s'.calls == s.calls && s'.rest == s.rest[1..]
  {
  }

  lemma JobMoves<T>(calls: seq<Call<T>>, rest: seq<Event>)
    requires rest != [] && rest[0].JobEvent?
    ensures JobCalls(calls + [Ran(rest[0].job, rest[0].ready)]) + JobsOf(rest[1..]) == JobCalls(calls) + JobsOf(rest)
  {
    JobCallsOne(calls, Ran(rest[0].job, rest[0].ready));
  }

  // The jobs called and those still to be called are the same before and after a step.
  lemma StepJobs<T>(s: Loop<T>, key: nat, s': Loop<T>)
    requires Next(s, key, s')
    ensures JobCalls(s'.calls) + JobsOf(s'.rest) == JobCalls(s.calls) + JobsOf(s.rest)
  {
    StepShape(s, key, s');
    if s.deeds == [] {
      if s.rest[0].JobEvent? {
        JobMoves(s.calls, s.rest);
      } else if s'.calls != s.calls {
        JobCallsOne(s.calls, s'.calls[|s.calls|]);
      } else {
        assert JobsOf(s.rest) == JobsOf(s.rest[1..]);
      }
    }
  }

  lemma {:induction false} RunJobs<T>(ss: seq<Loop<T>>, keys: seq<nat>)
    requires Trace(ss, keys)
    ensures JobCalls(ss[|keys|].calls) + JobsOf(ss[|keys|].rest) == JobCalls(ss[0].calls) + JobsOf(ss[0].rest)
    decreases |keys|
  {
    if keys != [] {
      RunTail(ss, keys);
      StepJobs(ss[0], keys[0], ss[1]);
      RunJobs(ss[1..], keys[1..]);
    }
  }

  /** Every job of the batch is called exactly once, with the readiness of its entry, in the order of the
      events, whatever the callbacks do. */
  lemma JobsCalledOnce<T(!new)>(s: Loop<T>, s': Loop<T>)
    requires Leads(s, s') && Done(s')
    ensures JobCalls(s'.calls) == JobCalls(s.calls) + JobsOf(s.rest)
  {
    var ss, keys :| Between(ss, keys, s, s');
    RunJobs(ss, keys);
    assert JobCalls(s'.calls) + JobsOf([]) == JobCalls(s'.calls);
  }

  // An event as it was raised: by a descriptor or by the readiness queue.
  datatype Raised = BySelect(job: nat, ready: nat) | ByQueue(job: nat, ready: nat)

  function EntryOf(r: Raised): Event { if r.BySelect? then Selected(r.job, r.ready) else PushEvent(r.job, r.ready) }

  function Entries(rs: seq<Raised>): seq<Event> {
    if rs == [] then [] else [EntryOf(rs[0])] + Entries(rs[1..])
  }

  // What the jobs would be called with if each got the readiness of its event.
  function Meant(rs: seq<Raised>): seq<(nat, nat)> {
    if rs == [] then [] else [(rs[0].job, rs[0].ready)] + Meant(rs[1..])
  }

  // No event of the readiness queue has a readiness.
  ghost predicate NoneLost(rs: seq<Raised>) { forall i | 0 <= i < |rs| :: rs[i].BySelect? || rs[i].ready == 0 }

  lemma NoneLostTail(rs: seq<Raised>)
    requires rs != []
    ensures NoneLost(rs) <==> (rs[0].BySelect? || rs[0].ready == 0) && NoneLost(rs[1..])
  {
    assert forall i | 0 < i < |rs| :: rs[i] == rs[1..][i - 1];
  }

  lemma {:induction false} EntriesMean(rs: seq<Raised>)
    ensures JobsOf(Entries(rs)) == Meant(rs) <==> NoneLost(rs)
    ensures |JobsOf(Entries(rs))| == |Meant(rs)|
    decreases |rs|
  {
    if rs != [] {
      EntriesMean(rs[1..]);
      NoneLostTail(rs);
      var es := Entries(rs);
      assert es[1..] == Entries(rs[1..]);
      assert JobsOf(es) == [(es[0].job, es[0].ready)] + JobsOf(es[1..]);
      assert JobsOf(es)[1..] == JobsOf(es[1..]) && Meant(rs)[1..] == Meant(rs[1..]);
    }
  }

  /** The jobs of a batch are called with the readiness of their events exactly if no event of the
      readiness queue among them has any. */
  lemma ReadinessReachesJobs<T(!new)>(s: Loop<T>, s': Loop<T>, rs: seq<Raised>)
    requires Leads(s, s') && Done(s') && s.rest == Entries(rs)
    ensures JobCalls(s'.calls) == JobCalls(s.calls) + Meant(rs) <==> NoneLost(rs)
  {
    JobsCalledOnce(s, s');
    EntriesMean(rs);
    var a, b, c := JobCalls(s.calls), JobsOf(Entries(rs)), Meant(rs);
    assert (a + b)[|a|..] == b && (a + c)[|a|..] == c;
  }

  // ---------- the timer ----------

  // The wheel is in order, and every timeout is accounted for.
  ghost predicate InOrder<T>(s: Loop<T>, slots: nat) { Inv(s.history.wheel, slots) && Account(s.history) }

  // The operation on the timer that a step does: a request of the callback, a poll, or none.
  ghost predicate Applies<T>(s: Loop<T>, key: nat, h: History<T>)
    requires Valid(s.history.wheel)
  {
    if s.deeds != [] then
      Allowed(s.history.wheel, OpOf(s.deeds[0], key)) && h == Apply(s.history, OpOf(s.deeds[0], key))
    else if s.rest != [] && s.rest[0].TimersEvent? then s.clock != [] && h == Apply(s.history, Poll(s.clock[0]))
    else h == s.history
  }

  lemma StepApplies<T>(s: Loop<T>, key: nat, s': Loop<T>)
    requires Next(s, key, s')
    ensures Valid(s.history.wheel) && !Done(s) && Applies(s, key, s'.history)
  {
  }

  lemma StepInOrder<T>(s: Loop<T>, key: nat, s': Loop<T>, slots: nat)
    requires Next(s, key, s') && InOrder(s, slots)
    ensures InOrder(s', slots)
  {
    StepApplies(s, key, s');
    if s.deeds != [] || s.rest[0].TimersEvent? {
      var op := if s.deeds != [] then OpOf(s.deeds[0], key) else Poll(s.clock[0]);
      ApplyInv(s.history, op, slots);
      ApplyAccount(s.history, op);
    }
  }

  lemma {:induction false} RunInOrder<T>(ss: seq<Loop<T>>, keys: seq<nat>, slots: nat)
    requires Trace(ss, keys) && InOrder(ss[0], slots)
    ensures InOrder(ss[|keys|], slots)
    decreases |keys|
  {
    if keys != [] {
      RunTail(ss, keys);
      StepInOrder(ss[0], keys[0], ss[1], slots);
      RunInOrder(ss[1..], keys[1..], slots);
    }
  }

  /** Whatever the callbacks set and cancel while the timer is drained, the timer's invariant and the
      account of its timeouts survive, at every point of a batch. */
  lemma CallbacksKeepOrder<T(!new)>(s: Loop<T>, s': Loop<T>, slots: nat)
    requires Leads(s, s') && InOrder(s, slots)
    ensures InOrder(s', slots)
  {
    var ss, keys :| Between(ss, keys, s, s');
    RunInOrder(ss, keys, slots);
  }

  // ---------- each expiry is called once ----------

  function TimerCalls<T>(calls: seq<Call<T>>): nat {
    if calls == [] then 0
    else TimerCalls(calls[..|calls| - 1]) + if calls[|calls| - 1].Expired? then 1 else 0
  }

  lemma TimerCallsOne<T>(calls: seq<Call<T>>, c: Call<T>)
    ensures TimerCalls(calls + [c]) == TimerCalls(calls) + if c.Expired? then 1 else 0
  {
    assert (calls + [c])[..|calls|] == calls;
  }

  lemma PollFires<T>(h: History<T>, now: nat)
    requires Valid(h.wheel) && Account(h)
    ensures |Apply(h, Poll(now)).fired| == |h.fired| + if PollTo(h.wheel, now).0.Some? then 1 else 0
  {
    PollMoves(h.wheel, now);
    var f := PollTo(h.wheel, now).0;
    if f.Some? {
      assert f.entry.born !in h.fired;
    } else {
      assert h.fired + {} == h.fired;
    }
  }

  lemma StepFires<T>(s: Loop<T>, key: nat, s': Loop<T>)
    requires Next(s, key, s') && Account(s.history)
    ensures TimerCalls(s'.calls) - |s'.history.fired| == TimerCalls(s.calls) - |s.history.fired|
  {
    StepShape(s, key, s');
    if s'.calls != s.calls { TimerCallsOne(s.calls, s'.calls[|s.calls|]); }
    if s.deeds == [] && s.rest[0].TimersEvent? { PollFires(s.history, s.clock[0]); }
  }

  lemma {:induction false} RunFires<T>(ss: seq<Loop<T>>, keys: seq<nat>, slots: nat)
    requires Trace(ss, keys) && InOrder(ss[0], slots)
    ensures TimerCalls(ss[|keys|].calls) - |ss[|keys|].history.fired| == TimerCalls(ss[0].calls) - |ss[0].history.fired|
    decreases |keys|
  {
    if keys != [] {
      RunTail(ss, keys);
      StepFires(ss[0], keys[0], ss[1]);
      StepInOrder(ss[0], keys[0], ss[1], slots);
      RunFires(ss[1..], keys[1..], slots);
    }
  }

  /** At every point of a batch the timer's callbacks called are as many as the timeouts fired. */
  lemma EachExpiryIsCalled<T(!new)>(s: Loop<T>, s': Loop<T>, slots: nat)
    requires Leads(s, s') && InOrder(s, slots)
    ensures TimerCalls(s'.calls) - TimerCalls(s.calls) == |s'.history.fired| - |s.history.fired|
  {
    var ss, keys :| Between(ss, keys, s, s');
    RunFires(ss, keys, slots);
  }

  // ---------- what becomes of an entry that is due ----------

  ghost predicate CalledSince<T>(s: Loop<T>, n: nat, state: T) {
    exists i :: n <= i < |s.calls| && s.calls[i] == Expired(state)
  }

  // The entry was cancelled, or it fired and its callback is among the calls from the n-th on.
  ghost predicate Settled<T>(s: Loop<T>, n: nat, e: Entry<T>) {
    e.born in s.history.cancelled || (e.born in s.history.fired && CalledSince(s, n, e.state))
  }

  predicate Holds<T(==)>(w: Wheel<T>, k: nat, e: Entry<T>) { k in w.entries && w.entries[k] == e }

  // Nothing is taken back.
  lemma StepAdds<T>(s: Loop<T>, key: nat, s': Loop<T>)
    requires Next(s, key, s')
    ensures s.history.cancelled <= s'.history.cancelled && s.history.fired <= s'.history.fired
  {
    StepApplies(s, key, s');
  }

  lemma CallsGrow<T>(s: Loop<T>, s': Loop<T>, n: nat, m: nat, state: T)
    requires CalledSince(s, n, state) && m <= n && s.calls <= s'.calls
    ensures CalledSince(s', m, state)
  {
    var i :| n <= i < |s.calls| && s.calls[i] == Expired(state);
    assert s'.calls[i] == Expired(state);
  }

  lemma StepSettled<T>(s: Loop<T>, key: nat, s': Loop<T>, n: nat, e: Entry<T>)
    requires Next(s, key, s') && Settled(s, n, e)
    ensures Settled(s', n, e)
  {
    StepShape(s, key, s');
    StepAdds(s, key, s');
    if CalledSince(s, n, e.state) { CallsGrow(s, s', n, n, e.state); }
  }

  lemma {:induction false} RunSettled<T>(ss: seq<Loop<T>>, keys: seq<nat>, n: nat, e: Entry<T>)
    requires Trace(ss, keys) && Settled(ss[0], n, e)
    ensures Settled(ss[|keys|], n, e)
    decreases |keys|
  {
    if keys != [] {
      RunTail(ss, keys);
      StepSettled(ss[0], keys[0], ss[1], n, e);
      RunSettled(ss[1..], keys[1..], n, e);
    }
  }

  // A request of a callback cancels the entry, or leaves it and what the cursor has passed.
  lemma DeedTracks<T>(h: History<T>, d: Deed<T>, key: nat, k: nat)
    requires Valid(h.wheel) && k in h.wheel.entries && Allowed(h.wheel, OpOf(d, key))
    ensures var h' := Apply(h, OpOf(d, key));
      && Valid(h'.wheel) && h'.fired == h.fired
      && (h.wheel.entries[k].born in h'.cancelled
          || (Holds(h'.wheel, k, h.wheel.entries[k]) && (Passed(h'.wheel, k) <==> Passed(h.wheel, k))))
  {
    match d
    case Set(request, state) =>
      InsertValid(h.wheel, key, Adjusted(h.wheel, request), state);
      InsertAhead(h.wheel, key, Adjusted(h.wheel, request), state, k);
    case Clear(handle, tick) =>
      if handle in h.wheel.entries && handle != k { UnlinkAhead(h.wheel, handle, k); }
  }

  // A poll that does not return the entry leaves it.
  lemma PollTracks<T>(h: History<T>, now: nat, k: nat)
    requires Valid(h.wheel) && k in h.wheel.entries
    ensures var f := PollTo(h.wheel, now).0; var h' := Apply(h, Poll(now));
      && (f.Some? && f.key == k ==> f.entry == h.wheel.entries[k] && f.entry.born in h'.fired)
      && (!(f.Some? && f.key == k) ==> Holds(h'.wheel, k, h.wheel.entries[k]))
      && (!(f.Some? && f.key == k) && !Passed(h.wheel, k) ==> !Passed(h'.wheel, k))
  {
    PollMoves(h.wheel, now);
    if !Passed(h.wheel, k) { ScanUnpassed(h.wheel, Target(h.wheel, now), k); }
  }

  // A step settles a pending entry or leaves it; if the cursor has not passed it, then not after the step either.
  lemma StepTracks<T>(s: Loop<T>, key: nat, s': Loop<T>, k: nat, e: Entry<T>)
    requires Next(s, key, s') && Holds(s.history.wheel, k, e)
    ensures Settled(s', |s.calls|, e)
      || (Holds(s'.history.wheel, k, e) && (!Passed(s.history.wheel, k) ==> !Passed(s'.history.wheel, k)))
  {
    StepShape(s, key, s');
    StepApplies(s, key, s');
    if s.deeds != [] {
      DeedTracks(s.history, s.deeds[0], key, k);
    } else if s.rest[0].TimersEvent? {
      PollTracks(s.history, s.clock[0], k);
      var f := PollTo(s.history.wheel, s.clock[0]).0;
      if f.Some? && f.key == k { assert s'.calls[|s.calls|] == Expired(e.state); }
    }
  }

  lemma {:induction false} RunTracks<T>(ss: seq<Loop<T>>, keys: seq<nat>, k: nat, e: Entry<T>)
    requires Trace(ss, keys) && Holds(ss[0].history.wheel, k, e)
    ensures Settled(ss[|keys|], |ss[0].calls|, e) || Holds(ss[|keys|].history.wheel, k, e)
    decreases |keys|
  {
    if keys != [] {
      RunTail(ss, keys);
      StepShape(ss[0], keys[0], ss[1]);
      StepTracks(ss[0], keys[0], ss[1], k, e);
      if Settled(ss[1], |ss[0].calls|, e) {
        RunSettled(ss[1..], keys[1..], |ss[0].calls|, e);
      } else {
        RunTracks(ss[1..], keys[1..], k, e);
        if Settled(ss[|keys|], |ss[1].calls|, e) { EarlierToo(ss[|keys|], |ss[1].calls|, |ss[0].calls|, e); }
      }
    }
  }

  lemma EarlierToo<T>(s: Loop<T>, n: nat, m: nat, e: Entry<T>)
    requires Settled(s, n, e) && m <= n
    ensures Settled(s, m, e)
  {
    if CalledSince(s, n, e.state) { CallsGrow(s, s, n, m, e.state); }
  }

  lemma StepCursor<T>(s: Loop<T>, key: nat, h: History<T>)
    requires Valid(s.history.wheel) && Applies(s, key, h)
    ensures s.history.wheel.tick <= h.wheel.tick
    ensures s.deeds == [] && s.rest != [] && s.rest[0].TimersEvent? ==>
      && s.clock != []
      && (PollTo(s.history.wheel, s.clock[0]).0.None? ==> h.wheel.tick == Target(s.history.wheel, s.clock[0]) + 1)
  {
    if s.deeds == [] && s.rest != [] && s.rest[0].TimersEvent? { PollMoves(s.history.wheel, s.clock[0]); }
  }

  lemma StepClock<T>(s: Loop<T>, key: nat, s': Loop<T>)
    requires Next(s, key, s')
    ensures s.rest != [] ==> s.clock != []
    ensures s'.rest != [] ==> s.clock != [] && s'.clock != [] && s.clock[0] <= s'.clock[0]
  {
  }

  // The event that a step is done with is the first one.
  lemma StepRest<T>(s: Loop<T>, key: nat, s': Loop<T>)
    requires Next(s, key, s') && TimersEvent in s.rest && TimersEvent !in s'.rest
    ensures s.deeds == [] && s.rest[0].TimersEvent? && PollTo(s.history.wheel, s.clock[0]).0.None?
  {
    StepShape(s, key, s');
    assert s.rest == [s.rest[0]] + s.rest[1..];
  }

  // While the timer's event is to come the clock does not go back, and the poll that ends it passes what was due.
  lemma StepToCome<T>(s: Loop<T>, key: nat, s': Loop<T>)
    requires Next(s, key, s') && TimersEvent in s.rest
    ensures s.clock != []
    ensures TimersEvent in s'.rest || s'.history.wheel.tick == Target(s.history.wheel, s.clock[0]) + 1
    ensures TimersEvent in s'.rest ==> s'.clock != [] && s'.clock[0] >= s.clock[0]
  {
    StepClock(s, key, s');
    if TimersEvent !in s'.rest {
      StepRest(s, key, s');
      StepApplies(s, key, s');
      StepCursor(s, key, s'.history);
    }
  }

  // An entry that is due and that the cursor has not passed is settled by the time the timer's event is done with.
  lemma {:induction false} RunSettles<T>(ss: seq<Loop<T>>, keys: seq<nat>, k: nat, e: Entry<T>)
    requires Trace(ss, keys) && Done(ss[|keys|]) && TimersEvent in ss[0].rest
    requires Holds(ss[0].history.wheel, k, e) && !Passed(ss[0].history.wheel, k) && ss[0].clock != []
    requires e.tick <= ss[0].clock[0]
    ensures Settled(ss[|keys|], |ss[0].calls|, e)
    decreases |keys|
  {
    RunTail(ss, keys);
    StepShape(ss[0], keys[0], ss[1]);
    StepTracks(ss[0], keys[0], ss[1], k, e);
    if Settled(ss[1], |ss[0].calls|, e) {
      RunSettled(ss[1..], keys[1..], |ss[0].calls|, e);
    } else {
      StepToCome(ss[0], keys[0], ss[1]);
      RunSettles(ss[1..], keys[1..], k, e);
      EarlierToo(ss[|keys|], |ss[1].calls|, |ss[0].calls|, e);
    }
  }

  // The cursor at the end of a batch is past everything that its polls looked up to.
  lemma {:induction false} RunReaches<T>(ss: seq<Loop<T>>, keys: seq<nat>)
    requires Trace(ss, keys) && Done(ss[|keys|])
    ensures ss[0].history.wheel.tick <= ss[|keys|].history.wheel.tick
    ensures TimersEvent in ss[0].rest ==>
      ss[0].clock != [] && Target(ss[0].history.wheel, ss[0].clock[0]) < ss[|keys|].history.wheel.tick
    decreases |keys|
  {
    if keys != [] {
      RunTail(ss, keys);
      RunReaches(ss[1..], keys[1..]);
      StepApplies(ss[0], keys[0], ss[1]);
      StepCursor(ss[0], keys[0], ss[1].history);
      if TimersEvent in ss[0].rest { StepToCome(ss[0], keys[0], ss[1]); }
    }
  }

  // Before the wheel has turned once a passed entry is not returned.
  lemma PollPasses<T>(h: History<T>, now: nat, k: nat)
    requires Valid(h.wheel) && Late(h.wheel) && Passed(h.wheel, k)
    requires Target(h.wheel, now) < h.wheel.entries[k].tick + h.wheel.Slots()
    ensures var h' := Apply(h, Poll(now)); Passed(h'.wheel, k) && Holds(h'.wheel, k, h.wheel.entries[k])
  {
    PollMoves(h.wheel, now);
    ScanPassed(h.wheel, Target(h.wheel, now), k);
  }

  lemma StepPasses<T>(s: Loop<T>, key: nat, s': Loop<T>, slots: nat, k: nat, e: Entry<T>)
    requires Next(s, key, s') && Inv(s.history.wheel, slots) && Holds(s.history.wheel, k, e)
    requires Passed(s.history.wheel, k)
    requires TimersEvent in s.rest ==> s.clock != [] && Target(s.history.wheel, s.clock[0]) < e.tick + slots
    ensures e.born in s'.history.cancelled || (Holds(s'.history.wheel, k, e) && Passed(s'.history.wheel, k))
  {
    StepApplies(s, key, s');
    if s.deeds != [] {
      DeedTracks(s.history, s.deeds[0], key, k);
    } else if s.rest[0].TimersEvent? {
      PollPasses(s.history, s.clock[0], k);
    }
  }

  lemma {:induction false} RunPasses<T>(ss: seq<Loop<T>>, keys: seq<nat>, slots: nat, k: nat, e: Entry<T>)
    requires Trace(ss, keys) && Done(ss[|keys|]) && InOrder(ss[0], slots)
    requires e.born in ss[0].history.cancelled || (Holds(ss[0].history.wheel, k, e) && Passed(ss[0].history.wheel, k))
    requires ss[|keys|].history.wheel.tick <= e.tick + slots
    ensures var s' := ss[|keys|]; e.born in s'.history.cancelled || Holds(s'.history.wheel, k, e)
    decreases |keys|
  {
    if keys != [] {
      RunTail(ss, keys);
      StepInOrder(ss[0], keys[0], ss[1], slots);
      if e.born in ss[0].history.cancelled {
        StepAdds(ss[0], keys[0], ss[1]);
      } else {
        RunReaches(ss, keys);
        StepPasses(ss[0], keys[0], ss[1], slots, k, e);
      }
      RunPasses(ss[1..], keys[1..], slots, k, e);
    }
  }

  // Where the account of a history puts an insertion that is pending, or that was settled.
  lemma AccountTells<T>(s: Loop<T>, n: nat, k: nat, e: Entry<T>)
    requires Account(s.history) && (Settled(s, n, e) || Holds(s.history.wheel, k, e))
    ensures e.born in s.history.fired ==> Settled(s, n, e) && CalledSince(s, n, e.state)
    ensures e.born !in s.history.fired && e.born !in s.history.cancelled ==> Holds(s.history.wheel, k, e)
    ensures Holds(s.history.wheel, k, e) || e.born in s.history.cancelled ==> e.born !in s.history.fired
  {
  }

  lemma NotOverdue<T>(w: Wheel<T>, slots: nat)
    requires Inv(w, slots)
    ensures forall k | k in w.entries :: w.tick <= w.entries[k].tick + slots
  {
    assert forall k | k in w.entries :: LateOk(w, w.entries[k].tick, Ahead(w, k));
  }

  /** What becomes of an entry that is due when a batch with the timer's event begins, whatever the callbacks
      do: unless one of them cancels it, it fires in the batch, and its callback is called, exactly if the cursor had
      not passed it before, or the wheel has turned once since its tick. */
  lemma DueIsCalled<T(!new)>(s: Loop<T>, s': Loop<T>, slots: nat, k: nat)
    requires Leads(s, s') && Done(s') && InOrder(s, slots) && TimersEvent in s.rest && s.clock != []
    requires k in s.history.wheel.entries && s.history.wheel.entries[k].tick <= s.clock[0]
    ensures var e := s.history.wheel.entries[k];
      && (e.born !in s'.history.cancelled ==>
            (e.born in s'.history.fired <==> !Passed(s.history.wheel, k) || s'.history.wheel.tick > e.tick + slots))
      && (e.born in s'.history.fired ==> CalledSince(s', |s.calls|, e.state))
  {
    var ss, keys :| Between(ss, keys, s, s');
    var e := s.history.wheel.entries[k];
    RunInOrder(ss, keys, slots);
    RunTracks(ss, keys, k, e);
    AccountTells(s', |s.calls|, k, e);
    if !Passed(s.history.wheel, k) {
      RunSettles(ss, keys, k, e);
    } else if s'.history.wheel.tick <= e.tick + slots {
      RunPasses(ss, keys, slots, k, e);
    } else {
      NotOverdue(s'.history.wheel, slots);
    }
  }

  // ---------- callbacks that leave the timer alone ----------

  function Expiries<T>(fs: seq<Fired<T>>): seq<Call<T>> {
    if fs == [] then [] else (if fs[0].Some? then [Expired(fs[0].entry.state)] else []) + Expiries(fs[1..])
  }

  ghost predicate Passive<T>(s: Loop<T>) { s.deeds == [] && forall i | 0 <= i < |s.script| :: s.script[i] == [] }

  lemma PassiveReadings<T>(s: Loop<T>)
    requires Ready(s) && s.deeds == [] && s.rest == [TimersEvent]
    ensures Readings(s.history.wheel, s.clock)
  {
  }

  lemma PassivePoll<T>(s: Loop<T>, key: nat, s': Loop<T>)
    requires Next(s, key, s') && Passive(s) && s.rest == [TimersEvent]
    ensures Passive(s') && s.clock != [] && s'.clock == s.clock[1..]
    ensures s'.history.wheel == PollTo(s.history.wheel, s.clock[0]).1
  {
  }

  // s' is what the drain of s gives.
  ghost predicate Drained<T>(s: Loop<T>, s': Loop<T>) {
    && Valid(s.history.wheel) && Readings(s.history.wheel, s.clock)
    && var (fs, w') := Drain(s.history.wheel, s.clock);
      s'.history.wheel == w' && s'.calls == s.calls + Expiries(fs)
  }

  lemma ExpiriesCons<T>(f: Fired<T>, fs: seq<Fired<T>>, calls: seq<Call<T>>)
    requires f.Some?
    ensures calls + Expiries([f] + fs) == calls + [Expired(f.entry.state)] + Expiries(fs)
  {
    assert ([f] + fs)[1..] == fs;
  }

  // One poll of a drain, and the drain that is left.
  lemma DrainedBack<T>(s: Loop<T>, s1: Loop<T>, s': Loop<T>)
    requires Valid(s.history.wheel) && Readings(s.history.wheel, s.clock) && s1.clock == s.clock[1..]
    requires s1.history.wheel == PollTo(s.history.wheel, s.clock[0]).1
    requires match PollTo(s.history.wheel, s.clock[0]).0
      case Some(_, entry) => s1.calls == s.calls + [Expired(entry.state)] && Drained(s1, s')
      case None => s1.calls == s.calls && s1 == s'
    ensures Drained(s, s')
  {
    DrainHead(s.history.wheel, s.clock);
    var f := PollTo(s.history.wheel, s.clock[0]).0;
    if f.Some? { ExpiriesCons(f, Drain(s1.history.wheel, s1.clock).0, s.calls); }
  }

  lemma DoneEnds<T>(ss: seq<Loop<T>>, keys: seq<nat>)
    requires Trace(ss, keys) && Done(ss[0])
    ensures keys == []
  {
    if keys != [] { RunTail(ss, keys); }
  }

  lemma {:induction false} RunPassive<T>(ss: seq<Loop<T>>, keys: seq<nat>)
    requires Trace(ss, keys) && Done(ss[|keys|]) && Passive(ss[0]) && ss[0].rest == [TimersEvent]
    ensures Drained(ss[0], ss[|keys|])
    decreases |keys|
  {
    RunTail(ss, keys);
    PassiveReadings(ss[0]);
    PassivePoll(ss[0], keys[0], ss[1]);
    StepShape(ss[0], keys[0], ss[1]);
    if PollTo(ss[0].history.wheel, ss[0].clock[0]).0.Some? {
      RunPassive(ss[1..], keys[1..]);
    } else {
      DoneEnds(ss[1..], keys[1..]);
    }
    DrainedBack(ss[0], ss[1], ss[|keys|]);
  }

  /** If the callbacks leave the timer alone, an event of the timer calls what Drain returns, in its order. */
  lemma PassiveIsDrain<T(!new)>(s: Loop<T>, s': Loop<T>)
    requires Leads(s, s') && Done(s') && Passive(s) && s.rest == [TimersEvent]
    ensures Drained(s, s')
  {
    var ss, keys :| Between(ss, keys, s, s');
    RunPassive(ss, keys);
  }
}
