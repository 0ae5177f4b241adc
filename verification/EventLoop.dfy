/** The event loop's handling of a batch of events (src/net/event_loop.rs:118-150): each job is
    called, and an event of the timer drains the timer. What a callback does to the timer while it
    runs, through `timeout` and `clear_timeout` (lines 75-84), is a parameter. */
module EventLoops {
  import opened Wheel
  import opened WheelDrain
  import opened WheelSteps
  import opened WheelRuns
  import opened Timers
  import W = Wheel

  datatype Event = TimersEvent | JobEvent(job: nat, ready: nat)

  // An event of the readiness queue: push_event stores an empty readiness with the job
  // (src/sys/unix/epoll.rs:249-262), where select stores the one it was told (line 84).
  function PushEvent(job: nat, ready: nat): Event { JobEvent(job, 0) }

  function Selected(job: nat, ready: nat): Event { JobEvent(job, ready) }

  datatype Call<T> = Ran(job: nat, ready: nat) | Expired(state: T)

  // What a callback asks of the timer.
  datatype Deed<T> = Set(request: nat, state: T) | Clear(handle: nat, tick: nat)

  // `key` is the free key that the slab hands out.
  function OpOf<T>(d: Deed<T>, key: nat): Op<T> {
    match d
    case Set(request, state) => SetTimeout(request, key, state)
    case Clear(handle, tick) => CancelTimeout(handle, tick)
  }

  // A batch half-way: the timer and its history, what the callback that runs has still to do, the
  // events to come, the readings of the clock to come, what the callbacks to come will do, the calls made.
  datatype Loop<T> = Loop(
    history: History<T>, deeds: seq<Deed<T>>, rest: seq<Event>,
    clock: seq<nat>, script: seq<seq<Deed<T>>>, calls: seq<Call<T>>)

  // ---------- enough readings of the clock ----------

  function Sets<T>(ds: seq<Deed<T>>): nat { if ds == [] then 0 else (if ds[0].Set? then 1 else 0) + Sets(ds[1..]) }

  function AllSets<T>(script: seq<seq<Deed<T>>>): nat {
    if script == [] then 0 else Sets(script[0]) + AllSets(script[1..])
  }

  ghost predicate Ascending(clock: seq<nat>) { forall i, j | 0 <= i <= j < |clock| :: clock[i] <= clock[j] }

  // The polls that there can be: one for each entry found, and one for each event of the timer.
  function Polls<T>(s: Loop<T>): nat { |s.history.wheel.entries| + Sets(s.deeds) + AllSets(s.script) + |s.rest| }

  ghost predicate Ready<T>(s: Loop<T>) { Valid(s.history.wheel) && Ascending(s.clock) && |s.clock| >= Polls(s) }

  // ---------- the steps ----------

  predicate Done<T>(s: Loop<T>) { s.deeds == [] && s.rest == [] }

  predicate Enabled<T>(s: Loop<T>, key: nat) {
    !Done(s) && (s.deeds != [] ==> Allowed(s.history.wheel, OpOf(s.deeds[0], key)))
  }

  lemma SetMoves<T>(w: Wheel<T>, key: nat, tick: nat, state: T)
    requires Valid(w) && key !in w.entries
    ensures Valid(Insert(w, key, tick, state)) && |Insert(w, key, tick, state).entries| == |w.entries| + 1
  {
    InsertValid(w, key, tick, state);
    assert Insert(w, key, tick, state).entries.Keys == w.entries.Keys + {key};
  }

  lemma ClearMoves<T>(w: Wheel<T>, handle: nat, tick: nat)
    requires Valid(w)
    ensures |Cancel(w, handle, tick).0.entries| <= |w.entries|
  {
    if handle in w.entries { assert w.entries.Keys == (w.entries - {handle}).Keys + {handle}; }
  }

  lemma DeedMoves<T>(h: History<T>, d: Deed<T>, key: nat)
    requires Valid(h.wheel) && Allowed(h.wheel, OpOf(d, key))
    ensures var w' := Apply(h, OpOf(d, key)).wheel;
      Valid(w') && |w'.entries| <= |h.wheel.entries| + (if d.Set? then 1 else 0)
  {
    match d
    case Set(request, state) => SetMoves(h.wheel, key, Adjusted(h.wheel, request), state);
    case Clear(handle, tick) => ClearMoves(h.wheel, handle, tick);
  }

  // A callback is called, and what it will do begins.
  function Begin<T>(s: Loop<T>, call: Call<T>): Loop<T> {
    if s.script == [] then s.(calls := s.calls + [call])
    else s.(calls := s.calls + [call], deeds := s.script[0], script := s.script[1..])
  }

  lemma BeginPolls<T>(s: Loop<T>, call: Call<T>)
    requires s.deeds == []
    ensures Polls(Begin(s, call)) == Polls(s)
  {
  }

  // One request of the callback that runs.
  function DeedStep<T>(s: Loop<T>, key: nat): (r: Loop<T>)
    requires Ready(s) && Enabled(s, key) && s.deeds != []
    ensures Ready(r)
  {
    DeedMoves(s.history, s.deeds[0], key);
    s.(history := Apply(s.history, OpOf(s.deeds[0], key)), deeds := s.deeds[1..])
  }

  // One poll of the timer, at the next reading of the clock.
  function Polled<T>(s: Loop<T>): Loop<T>
    requires Valid(s.history.wheel) && s.clock != []
  {
    s.(history := Apply(s.history, Poll(s.clock[0])), clock := s.clock[1..])
  }

  lemma PolledPolls<T>(s: Loop<T>)
    requires Valid(s.history.wheel) && s.clock != []
    ensures Valid(Polled(s).history.wheel)
    ensures Polls(s) == Polls(Polled(s)) + (if PollTo(s.history.wheel, s.clock[0]).0.Some? then 1 else 0)
  {
    PollMoves(s.history.wheel, s.clock[0]);
  }

  // The state that a poll returns is called; if it returns none the event is done with.
  function PollStep<T>(s: Loop<T>): (r: Loop<T>)
    requires Ready(s) && s.deeds == [] && s.rest != []
    ensures Ready(r)
  {
    PolledPolls(s);
    var f := PollTo(s.history.wheel, s.clock[0]).0;
    if f.Some? then
      BeginPolls(Polled(s), Expired(f.entry.state));
      Begin(Polled(s), Expired(f.entry.state))
    else Polled(s).(rest := s.rest[1..])
  }

  function RunStep<T>(s: Loop<T>, job: nat, ready: nat): (r: Loop<T>)
    requires Ready(s) && s.deeds == [] && s.rest != []
    ensures Ready(r)
  {
    BeginPolls(s.(rest := s.rest[1..]), Ran(job, ready));
    Begin(s.(rest := s.rest[1..]), Ran(job, ready))
  }

  function Step<T>(s: Loop<T>, key: nat): (r: Loop<T>)
    requires Ready(s) && Enabled(s, key)
    ensures Ready(r)
  {
    if s.deeds != [] then DeedStep(s, key) else
      match s.rest[0]
      case TimersEvent => PollStep(s)
      case JobEvent(job, ready) => RunStep(s, job, ready)
  }

  ghost predicate Next<T>(s: Loop<T>, key: nat, s': Loop<T>) { Ready(s) && Enabled(s, key) && s' == Step(s, key) }

  ghost predicate Trace<T>(ss: seq<Loop<T>>, keys: seq<nat>) {
    |ss| == |keys| + 1 && Ready(ss[0]) && forall i | 0 <= i < |keys| :: Next(ss[i], keys[i], ss[i + 1])
  }

  ghost predicate Between<T>(ss: seq<Loop<T>>, keys: seq<nat>, s: Loop<T>, s': Loop<T>) {
    Trace(ss, keys) && ss[0] == s && ss[|keys|] == s'
  }

  ghost predicate Leads<T(!new)>(s: Loop<T>, s': Loop<T>) { exists ss, keys :: Between(ss, keys, s, s') }

  lemma LeadsNowhere<T(!new)>(s: Loop<T>)
    requires Ready(s)
    ensures Leads(s, s)
  {
    assert Between([s], [], s, s);
  }

  lemma RunOn<T>(ss: seq<Loop<T>>, keys: seq<nat>, key: nat, s': Loop<T>)
    requires Trace(ss, keys) && Next(ss[|keys|], key, s')
    ensures Trace(ss + [s'], keys + [key])
  {
    var ss', keys' := ss + [s'], keys + [key];
    forall i | 0 <= i < |keys'| ensures Next(ss'[i], keys'[i], ss'[i + 1]) {
      if i < |keys| { assert Next(ss[i], keys[i], ss[i + 1]); }
    }
  }

  lemma LeadsReady<T(!new)>(s0: Loop<T>, s: Loop<T>)
    requires Leads(s0, s)
    ensures Ready(s)
  {
    var ss, keys :| Between(ss, keys, s0, s);
    if keys != [] { assert Next(ss[|keys| - 1], keys[|keys| - 1], ss[|keys|]); }
  }

  lemma LeadsOn<T(!new)>(s0: Loop<T>, s: Loop<T>, key: nat)
    requires Leads(s0, s) && Enabled(s, key)
    ensures Ready(s) && Leads(s0, Step(s, key))
  {
    LeadsReady(s0, s);
    var ss, keys :| Between(ss, keys, s0, s);
    RunOn(ss, keys, key, Step(s, key));
    assert Between(ss + [Step(s, key)], keys + [key], s0, Step(s, key));
  }

  lemma LeadsToPoll<T(!new)>(s0: Loop<T>, s: Loop<T>)
    requires Leads(s0, s) && s.deeds == [] && s.rest != [] && s.rest[0].TimersEvent?
    ensures Ready(s) && s.clock != []
    ensures match PollTo(s.history.wheel, s.clock[0]).0
      case Some(_, entry) => Leads(s0, Begin(Polled(s), Expired(entry.state)))
      case None => Leads(s0, Polled(s).(rest := s.rest[1..]))
  {
    LeadsOn(s0, s, 0);
  }

  lemma LeadsToRun<T(!new)>(s0: Loop<T>, s: Loop<T>)
    requires Leads(s0, s) && s.deeds == [] && s.rest != [] && s.rest[0].JobEvent?
    ensures Ready(s) && Leads(s0, RunStep(s, s.rest[0].job, s.rest[0].ready))
  {
    LeadsOn(s0, s, 0);
  }

  lemma LeadsToDeed<T(!new)>(s0: Loop<T>, s: Loop<T>, key: nat)
    requires Leads(s0, s) && s.deeds != [] && Allowed(s.history.wheel, OpOf(s.deeds[0], key))
    ensures Ready(s) && Leads(s0, DeedStep(s, key))
  {
    LeadsOn(s0, s, key);
  }

  // The events that the loop over i < cnt will look at.
  function Batch(events: seq<Event>, cnt: nat): seq<Event> { if cnt < |events| then events[..cnt] else events }

  function Rest(events: seq<Event>, cnt: nat, i: nat): seq<Event> {
    if i < |Batch(events, cnt)| then Batch(events, cnt)[i..] else []
  }

  lemma RestTurn(events: seq<Event>, cnt: nat, i: nat)
    requires i < cnt
    ensures i < |events| ==> Rest(events, cnt, i) == [events[i]] + Rest(events, cnt, i + 1)
    ensures i >= |events| ==> Rest(events, cnt, i) == Rest(events, cnt, i + 1)
  {
  }

  class EventLoop<T(!new)> {
    const timer: Timer<T>
    var events: seq<Event>
    // The readings of the clock that the polls of the timer will make.
    var clock: seq<nat>
    // What the callbacks to come will ask of the timer.
    var script: seq<seq<Deed<T>>>
    // The callbacks called so far.
    var calls: seq<Call<T>>
    ghost var cancelled: set<nat>
    ghost var fired: set<nat>

    constructor (timer: Timer<T>, clock: seq<nat>, script: seq<seq<Deed<T>>>)
      ensures this.timer == timer && this.clock == clock && this.script == script && events == [] && calls == []
    {
      this.timer, this.clock, this.script := timer, clock, script;
      events, calls, cancelled, fired := [], [], {}, {};
    }

    ghost function At(deeds: seq<Deed<T>>, rest: seq<Event>): Loop<T>
      requires timer.Valid()
      reads this, timer, timer.wheel
    {
      Loop(History(timer.Contents(), cancelled, fired), deeds, rest, clock, script, calls)
    }

    /** Handles the first `cnt` events and clears them all. */
    method IoProcess(cnt: nat)
      requires timer.Valid() && Ready(At([], Batch(events, cnt)))
      modifies this, timer, timer.wheel
      ensures timer.Valid() && events == []
      ensures Leads(old(At([], Batch(events, cnt))), At([], []))
    {
      ghost var s0 := At([], Batch(events, cnt));
      assert Rest(events, cnt, 0) == Batch(events, cnt);
      LeadsNowhere(s0);
      var i := 0;
      while i < cnt
        invariant timer.Valid() && i <= cnt && events == old(events)
        invariant Leads(s0, At([], Rest(events, cnt, i)))
      {
        HandleNext(cnt, i, s0);
        i := i + 1;
      }
      assert Rest(events, cnt, i) == [];
      events := [];
    }

    // The body of that loop.
    method HandleNext(cnt: nat, i: nat, ghost s0: Loop<T>)
      requires i < cnt && timer.Valid() && Leads(s0, At([], Rest(events, cnt, i)))
      modifies this`calls, this`clock, this`script, this`cancelled, this`fired, timer, timer.wheel
      ensures timer.Valid() && Leads(s0, At([], Rest(events, cnt, i + 1)))
    {
      RestTurn(events, cnt, i);
      if i < |events| { HandleEvent(events[i], s0, Rest(events, cnt, i + 1)); }
    }

    // One event of the batch, with the events `rest` to come.
    method HandleEvent(e: Event, ghost s0: Loop<T>, ghost rest: seq<Event>)
      requires timer.Valid() && Leads(s0, At([], [e] + rest))
      modifies this`calls, this`clock, this`script, this`cancelled, this`fired, timer, timer.wheel
      ensures timer.Valid() && Leads(s0, At([], rest))
    {
      match e
      case TimersEvent => DrainTimer(s0, rest);
      case JobEvent(job, ready) =>
        ghost var s := At([], [e] + rest);
        assert s.rest[1..] == rest;
        LeadsToRun(s0, s);
        CallBack(Ran(job, ready), s0, rest);
    }

    // `while let Some(mut t) = timer.poll() { t(); }`
    method DrainTimer(ghost s0: Loop<T>, ghost rest: seq<Event>)
      requires timer.Valid() && Leads(s0, At([], [TimersEvent] + rest))
      modifies this`calls, this`clock, this`script, this`cancelled, this`fired, timer, timer.wheel
      ensures timer.Valid() && Leads(s0, At([], rest))
    {
      var more := true;
      while more
        invariant timer.Valid() && Leads(s0, At([], if more then [TimersEvent] + rest else rest))
        decreases more, |clock|
      {
        more := DrainOnce(s0, rest);
      }
    }

    // One turn of that loop.
    method DrainOnce(ghost s0: Loop<T>, ghost rest: seq<Event>) returns (more: bool)
      requires timer.Valid() && Leads(s0, At([], [TimersEvent] + rest))
      modifies this`calls, this`clock, this`script, this`cancelled, this`fired, timer, timer.wheel
      ensures timer.Valid() && (more ==> |clock| < |old(clock)|)
      ensures Leads(s0, At([], if more then [TimersEvent] + rest else rest))
    {
      ghost var s := At([], [TimersEvent] + rest);
      assert s.rest[1..] == rest;
      LeadsToPoll(s0, s);
      var r := PollTimer(s);
      more := r.Just?;
      if more { CallBack(Expired(r.state), s0, s.rest); }
    }

    // A callback is called and runs.
    method CallBack(call: Call<T>, ghost s0: Loop<T>, ghost rest: seq<Event>)
      requires timer.Valid() && Leads(s0, Begin(At([], rest), call))
      modifies this`calls, this`script, this`cancelled, timer, timer.wheel
      ensures timer.Valid() && Leads(s0, At([], rest))
    {
      calls := calls + [call];
      var ds := [];
      if script != [] { ds, script := script[0], script[1..]; }
      assert At(ds, rest) == Begin(old(At([], rest)), call);
      Perform(ds, s0, rest);
    }

    // The requests of the callback that runs.
    method Perform(ds: seq<Deed<T>>, ghost s0: Loop<T>, ghost rest: seq<Event>)
      requires timer.Valid() && Leads(s0, At(ds, rest))
      modifies this`cancelled, timer, timer.wheel
      ensures timer.Valid() && Leads(s0, At([], rest))
    {
      var i := 0;
      assert ds[0..] == ds;
      while i < |ds|
        invariant i <= |ds| && timer.Valid() && Leads(s0, At(ds[i..], rest))
      {
        ghost var s := At(ds[i..], rest);
        assert s.deeds[1..] == ds[i + 1..];
        LeadsReady(s0, s);
        ghost var key := Ask(ds[i]);
        LeadsToDeed(s0, s, key);
        assert At(ds[i + 1..], rest) == DeedStep(s, key);
        i := i + 1;
      }
      assert ds[i..] == [];
    }

    // EventLoop::timeout and EventLoop::clear_timeout.
    method Ask(d: Deed<T>) returns (ghost key: nat)
      requires timer.Valid()
      modifies this`cancelled, timer, timer.wheel
      ensures timer.Valid() && Allowed(old(timer.Contents()), OpOf(d, key))
      ensures History(timer.Contents(), cancelled, fired)
           == Apply(old(History(timer.Contents(), cancelled, fired)), OpOf(d, key))
    {
      match d
      case Set(request, state) =>
        var timeout := timer.SetTimeoutAt(request, state);
        key := timeout.token;
      case Clear(handle, tick) =>
        key := 0;
        cancelled := cancelled + Stamp(Cancel(timer.Contents(), handle, tick).1);
        var _ := timer.CancelTimeout(Timeout(handle, tick));
    }

    // Timer::poll: the clock is read anew.
    method PollTimer(ghost s: Loop<T>) returns (r: Maybe<T>)
      requires timer.Valid() && s == At([], s.rest) && clock != []
      modifies this`clock, this`fired, timer, timer.wheel
      ensures timer.Valid() && At([], s.rest) == Polled(s) && clock == s.clock[1..]
      ensures r == StateOf(PollTo(s.history.wheel, s.clock[0]).0)
    {
      var now := clock[0];
      clock := clock[1..];
      fired := fired + Stamp(PollTo(timer.Contents(), now).0);
      r := timer.PollTo(now);
    }
  }
}
