/** No timer wakeup is ever late or lost, whatever the interleaving of owner and wakeup thread. */
module TimerWakeupProofs {
  import opened Wheel
  import opened WheelSteps
  import opened WheelTiming
  import opened WheelDrain
  import opened TimerWakeup
  import R = WheelRuns

  // ---------- the handshake ----------

  predicate Notified<T>(s: State<T>) { s.token || s.owner.Unpark? || s.owner.Drop? }

  // What the thread is going to sleep until is the scheduled tick, or it has been notified.
  predicate Handshake<T>(s: State<T>) {
    && s.wakeup <= NEVER && (s.owner.Exchange? ==> s.owner.t < s.owner.curr <= NEVER)
    && match s.thread
       case Reload => true
       case Check(u) => s.wakeup <= u <= NEVER && (s.wakeup < u ==> Notified(s))
       case Park(u) => s.wakeup <= u <= NEVER && u != TERMINATE && (s.wakeup < u ==> Notified(s))
       case Swap(u) => s.wakeup <= u <= NEVER && u != TERMINATE
       case Raise => s.wakeup < NEVER ==> Notified(s)
       case Dead => s.wakeup == TERMINATE
  }

  lemma StepHandshake<T>(s: State<T>, a: Action<T>)
    requires Valid(s.wheel) && Enabled(s, a) && Handshake(s)
    ensures Handshake(Step(s, a))
  {
  }

  // ---------- every pending entry will be signalled ----------

  predicate Scheduling<T>(s: State<T>) { s.owner.Clear? || s.owner.Load? || s.owner.Exchange? }

  // `d` is a pending deadline, or the cursor if the deadline is past.
  predicate Covered<T>(s: State<T>, d: nat) {
    && (s.owner.Clear? ==> s.owner.t <= d)
    && (s.wakeup <= d || s.readable || s.thread.Raise? || (Scheduling(s) && s.owner.t <= d))
  }

  function Due<T>(w: Wheel<T>, k: nat): nat
    requires k in w.entries
  {
    Max(w.entries[k].tick, w.tick)
  }

  ghost predicate Watched<T>(s: State<T>) {
    Valid(s.wheel) && Bounded(s.wheel, false) && forall k | k in s.wheel.entries :: Covered(s, Due(s.wheel, k))
  }

  // The owner or the thread moves: cover is kept.
  lemma MoveCovers<T>(s: State<T>, a: Action<T>, d: nat)
    requires Valid(s.wheel) && Enabled(s, a) && Handshake(s) && Covered(s, d)
    requires a.OwnerStep? || a.DropTimer? || a.ThreadStep? || a.Spurious? || a.Tick?
    ensures Covered(Step(s, a), d)
  {
  }

  lemma SetCovers<T>(s: State<T>, a: Action<T>)
    requires a.SetTimeout? && Watched(s) && Enabled(s, a)
    ensures Watched(Step(s, a))
  {
    var tick := Adjusted(s.wheel, a.request);
    var s' := Step(s, a);
    InsertBounded(s.wheel, a.key, tick, a.state, false);
    forall k | k in s'.wheel.entries ensures Covered(s', Due(s'.wheel, k)) {
      if k != a.key { assert Covered(s, Due(s.wheel, k)); }
    }
  }

  lemma CancelCovers<T>(s: State<T>, a: Action<T>)
    requires a.CancelTimeout? && Watched(s) && Enabled(s, a)
    ensures Watched(Step(s, a))
  {
    var s' := Step(s, a);
    if a.handle in s.wheel.entries { UnlinkBounded(s.wheel, a.handle, false); }
    forall k | k in s'.wheel.entries ensures Covered(s', Due(s'.wheel, k)) {
      assert Covered(s, Due(s.wheel, k));
    }
  }

  // What next_tick gives is scheduled.
  lemma PlannedCovers<T>(s: State<T>, w': Wheel<T>, k: nat)
    requires Steppable(w') && k in w'.entries && NextTick(w') <= Max(w'.entries[k].tick, w'.tick)
    ensures Covered(s.(wheel := w', owner := Clear(NextTick(w'))), Due(w', k))
  {
  }

  // An entry that stays is still covered: the cursor only moves on.
  lemma StaysCovered<T>(s: State<T>, w': Wheel<T>, k: nat)
    requires s.owner.Idle? && k in s.wheel.entries && Covered(s, Due(s.wheel, k))
    requires k in w'.entries && w'.entries[k] == s.wheel.entries[k] && s.wheel.tick <= w'.tick
    ensures Covered(s.(wheel := w', owner := Idle), Due(w', k))
  {
  }

  lemma AllPlanned<T>(s: State<T>, w': Wheel<T>)
    requires Steppable(w') && forall k | k in w'.entries :: NextTick(w') <= Max(w'.entries[k].tick, w'.tick)
    ensures forall k | k in w'.entries :: Covered(s.(wheel := w', owner := Clear(NextTick(w'))), Due(w', k))
  {
    forall k | k in w'.entries ensures Covered(s.(wheel := w', owner := Clear(NextTick(w'))), Due(w', k)) {
      PlannedCovers(s, w', k);
    }
  }

  lemma AllStay<T>(s: State<T>, w': Wheel<T>)
    requires s.owner.Idle? && s.wheel.tick <= w'.tick && forall k | k in s.wheel.entries :: Covered(s, Due(s.wheel, k))
    requires forall k | k in w'.entries :: k in s.wheel.entries && w'.entries[k] == s.wheel.entries[k]
    ensures forall k | k in w'.entries :: Covered(s.(wheel := w', owner := Idle), Due(w', k))
  {
    forall k | k in w'.entries ensures Covered(s.(wheel := w', owner := Idle), Due(w', k)) { StaysCovered(s, w', k); }
  }

  lemma PollCovers<T>(s: State<T>)
    requires Watched(s) && s.owner.Idle?
    ensures Watched(PollOf(s))
  {
    ScanBounded(s.wheel, Target(s.wheel, s.now));
    PollMoves(s.wheel, s.now);
    var (f, w') := PollTo(s.wheel, s.now);
    if f.None? {
      NextTickIsEarly(s.wheel, s.now);
      AllPlanned(s, w');
    } else {
      AllStay(s, w');
    }
  }

  lemma StepWatched<T>(s: State<T>, a: Action<T>)
    requires Watched(s) && Enabled(s, a) && Handshake(s)
    ensures Watched(Step(s, a))
  {
    if a.SetTimeout? {
      SetCovers(s, a);
    } else if a.CancelTimeout? {
      CancelCovers(s, a);
    } else if a.Poll? {
      PollCovers(s);
    } else {
      var s' := Step(s, a);
      assert s'.wheel == s.wheel;
      forall k | k in s'.wheel.entries ensures Covered(s', Due(s'.wheel, k)) { MoveCovers(s, a, Due(s.wheel, k)); }
    }
  }

  // ---------- the thread stays alive ----------

  // No bound in the wheel is 0.
  ghost predicate Positive<T>(w: Wheel<T>) {
    && (forall k | k in w.entries :: w.entries[k].tick >= 1)
    && (forall i | 0 <= i < |w.nextTick| :: w.nextTick[i] >= 1)
  }

  // 0 is neither scheduled nor stored, but by the drop.
  predicate NoZero<T>(s: State<T>) {
    (Scheduling(s) ==> s.owner.t >= 1) && (s.wakeup == TERMINATE ==> s.owner.Drop? || s.owner.Gone?)
  }

  // The order of the owner that comes to storing 0: the drop, a timeout for tick 0, or a poll that
  // returns None with 0 as the next tick.
  ghost predicate Orders0<T>(s: State<T>, a: Action<T>) {
    || a.DropTimer?
    || (a.SetTimeout? && Adjusted(s.wheel, a.request) == 0)
    || (a.Poll? && Valid(s.wheel) && PollOf(s).owner == Clear(0))
  }

  lemma StepNoZero<T>(s: State<T>, a: Action<T>)
    requires Valid(s.wheel) && Enabled(s, a) && Handshake(s) && NoZero(s) && (a.DropTimer? || !Orders0(s, a))
    ensures NoZero(Step(s, a))
  {
    if a.OwnerStep? { OwnerNoZero(s); }
    if a.ThreadStep? { ThreadNoZero(s); }
  }

  lemma OwnerNoZero<T>(s: State<T>)
    requires NoZero(s) && Handshake(s) && !s.owner.Idle? && !s.owner.Gone?
    ensures NoZero(OwnerStepOf(s))
  {
  }

  lemma ThreadNoZero<T>(s: State<T>)
    requires NoZero(s) && Handshake(s) && !s.thread.Dead?
    ensures NoZero(ThreadStepOf(s))
  {
  }

  // ---------- wheels without a tick 0 ----------

  lemma TurnPositive<T>(w: Wheel<T>)
    requires Valid(w) && Positive(w)
    ensures Positive(Turn(w).1)
  {
  }

  lemma {:induction false} ScanPositive<T>(w: Wheel<T>, target: nat)
    requires Valid(w) && Positive(w)
    ensures Positive(Scan(w, target).1)
    decreases if w.tick <= target then target + 1 - w.tick else 0, Remaining(w)
  {
    TurnPositive(w);
    if w.tick <= target && Turn(w).0.None? {
      ScanPositive(Turn(w).1, target);
    }
  }

  lemma NextTickPositive<T>(w: Wheel<T>)
    requires Valid(w) && Positive(w)
    ensures Steppable(w) && NextTick(w) >= 1
  {
  }

  lemma InsertPositive<T>(w: Wheel<T>, key: nat, tick: nat, state: T)
    requires Valid(w) && Positive(w) && key !in w.entries && tick >= 1
    ensures Valid(Insert(w, key, tick, state)) && Positive(Insert(w, key, tick, state))
  {
    InsertValid(w, key, tick, state);
  }

  lemma CancelPositive<T>(w: Wheel<T>, handle: nat, tick: nat)
    requires Valid(w) && Positive(w)
    ensures Positive(Cancel(w, handle, tick).0)
  {
    if handle in w.entries { UnlinkValid(w, handle); }
  }

  lemma StepPositive<T>(s: State<T>, a: Action<T>)
    requires Valid(s.wheel) && Positive(s.wheel) && Enabled(s, a)
    requires a.SetTimeout? ==> Adjusted(s.wheel, a.request) >= 1
    ensures Valid(Step(s, a).wheel) && Positive(Step(s, a).wheel)
    ensures a.Poll? ==> !Orders0(s, a)
  {
    match a
    case SetTimeout(request, key, state) => InsertPositive(s.wheel, key, Adjusted(s.wheel, request), state);
    case CancelTimeout(handle, tick) => CancelPositive(s.wheel, handle, tick);
    case Poll =>
      ScanPositive(s.wheel, Target(s.wheel, s.now));
      NextTickPositive(PollTo(s.wheel, s.now).1);
    case _ => assert Step(s, a).wheel == s.wheel;
  }

  /** No bound of a wheel is 0 as long as no timeout was ever set for tick 0. */
  lemma {:induction false} RunPositive<T>(hs: seq<R.History<T>>, ops: seq<R.Op<T>>, slots: nat, i: nat)
    requires R.Run(hs, ops, slots) && i < |hs|
    requires forall j | 0 <= j < |ops| && ops[j].SetTimeout? :: Adjusted(hs[j].wheel, ops[j].request) >= 1
    ensures Valid(hs[i].wheel) && Positive(hs[i].wheel)
  {
    if i == 0 {
      R.NewInv<T>(slots);
    } else {
      RunPositive(hs, ops, slots, i - 1);
      var w := hs[i - 1].wheel;
      match ops[i - 1]
      case SetTimeout(request, key, state) => InsertPositive(w, key, Adjusted(w, request), state);
      case CancelTimeout(handle, tick) => CancelPositive(w, handle, tick);
      case Poll(target) => ScanPositive(w, Target(w, target));
    }
  }

  // ---------- theorems over every run ----------

  // Just registered.
  ghost predicate Fresh<T>(s: State<T>) { Valid(s.wheel) && s == Registered(s.wheel, s.now) }

  // The tick that is scheduled at the registration is not after any deadline, or the cursor if that is past.
  ghost predicate Planned<T>(w: Wheel<T>)
    requires Valid(w)
  {
    forall k | k in w.entries :: NextTickOf(w) <= Due(w, k) || NEVER <= Due(w, k)
  }

  function NextTickOf<T>(w: Wheel<T>): nat
    requires Valid(w)
  {
    SteppableValid(w);
    NextTick(w)
  }

  ghost predicate Start<T>(s: State<T>) { Fresh(s) && Bounded(s.wheel, false) && Planned(s.wheel) }

  /** Such is every timer with complete bounds: a new one, or one that was polled until None. */
  lemma CompleteIsPlanned<T>(w: Wheel<T>)
    requires Valid(w) && Bounded(w, true)
    ensures Bounded(w, false) && Planned(w)
  {
    NextTickBounds(w);
  }

  lemma StartWatched<T>(s: State<T>)
    requires Start(s)
    ensures Watched(s) && Handshake(s)
  {
    forall k | k in s.wheel.entries ensures Covered(s, Due(s.wheel, k)) {
      assert s.owner == Load(NextTickOf(s.wheel)) && s.wakeup == NEVER;
    }
  }

  lemma Extend<T>(ss: seq<State<T>>, acts: seq<Action<T>>, a: Action<T>)
      returns (ss': seq<State<T>>, acts': seq<Action<T>>)
    requires Run(ss, acts) && Valid(ss[|acts|].wheel) && Enabled(ss[|acts|], a)
    ensures Run(ss', acts') && ss'[0] == ss[0] && ss'[|acts'|] == Step(ss[|acts|], a) && acts' == acts + [a]
  {
    ss', acts' := ss + [Step(ss[|acts|], a)], acts + [a];
  }

  lemma RunStep<T>(ss: seq<State<T>>, acts: seq<Action<T>>, i: nat)
    requires Run(ss, acts) && i < |acts|
    ensures Valid(ss[i].wheel) && Enabled(ss[i], acts[i]) && ss[i + 1] == Step(ss[i], acts[i])
  {
  }

  lemma {:induction false} RunWatched<T>(ss: seq<State<T>>, acts: seq<Action<T>>, i: nat)
    requires Run(ss, acts) && Start(ss[0]) && i < |ss|
    ensures Watched(ss[i]) && Handshake(ss[i])
  {
    if i == 0 {
      StartWatched(ss[0]);
    } else {
      RunWatched(ss, acts, i - 1);
      RunStep(ss, acts, i - 1);
      StepHandshake(ss[i - 1], acts[i - 1]);
      StepWatched(ss[i - 1], acts[i - 1]);
    }
  }

  // The entry has a wakeup at or before its deadline, or the cursor if the deadline is past, or the timer is
  // readable, or the thread is about to make it so.
  predicate Signalled<T>(s: State<T>, k: nat)
    requires k in s.wheel.entries
  {
    s.wakeup <= Due(s.wheel, k) || s.readable || s.thread.Raise?
  }

  /** In every run from a planned timer, between two operations of the owner, every pending entry is
      signalled. */
  lemma PendingIsSignalled<T>(ss: seq<State<T>>, acts: seq<Action<T>>, i: nat, k: nat)
    requires Run(ss, acts) && Start(ss[0]) && i < |ss| && ss[i].owner.Idle? && k in ss[i].wheel.entries
    ensures Signalled(ss[i], k)
  {
    RunWatched(ss, acts, i);
    assert Covered(ss[i], Due(ss[i].wheel, k));
  }

  // Every pending entry is signalled whenever the owner is at rest.
  ghost predicate AlwaysSignalled<T>(ss: seq<State<T>>) {
    forall i, k | 0 <= i < |ss| && ss[i].owner.Idle? && k in ss[i].wheel.entries :: Signalled(ss[i], k)
  }

  // The registration's schedule_readiness on its own.
  lemma RegistrationRun<T>(s: State<T>) returns (ss: seq<State<T>>, acts: seq<Action<T>>)
    requires Fresh(s)
    ensures Run(ss, acts) && ss[0] == s
    ensures var s' := ss[|acts|]; var t := NextTickOf(s.wheel);
      && s'.owner.Idle? && s'.wheel == s.wheel && !s'.readable && s'.thread.Reload?
      && s'.wakeup == if NEVER <= t then NEVER else t
  {
    var t := NextTickOf(s.wheel);
    ss, acts := Extend([s], [], OwnerStep);
    if t < NEVER {
      assert ss[|acts|] == s.(owner := Exchange(t, NEVER));
      ss, acts := Extend(ss, acts, OwnerStep);
      ss, acts := Extend(ss, acts, OwnerStep);
    }
  }

  /** The condition is exact: for a timer registered at any point of its life, every entry is
      signalled in every run if and only if the timer was planned at its registration. */
  lemma SignalledIffPlanned<T(!new)>(s: State<T>)
    requires Fresh(s) && Bounded(s.wheel, false)
    ensures Planned(s.wheel) <==> forall ss, acts | Run(ss, acts) && ss[0] == s :: AlwaysSignalled(ss)
  {
    if Planned(s.wheel) {
      forall ss: seq<State<T>>, acts | Run(ss, acts) && ss[0] == s ensures AlwaysSignalled(ss) {
        forall i, k | 0 <= i < |ss| && ss[i].owner.Idle? && k in ss[i].wheel.entries ensures Signalled(ss[i], k) {
          PendingIsSignalled(ss, acts, i, k);
        }
      }
    } else {
      var k :| k in s.wheel.entries && !(NextTickOf(s.wheel) <= Due(s.wheel, k) || NEVER <= Due(s.wheel, k));
      var ss, acts := RegistrationRun(s);
      assert !Signalled(ss[|acts|], k);
    }
  }

  lemma {:induction false} RunHandshake<T>(ss: seq<State<T>>, acts: seq<Action<T>>, i: nat)
    requires Run(ss, acts) && Handshake(ss[0]) && i < |ss|
    ensures Handshake(ss[i])
  {
    if i > 0 {
      RunHandshake(ss, acts, i - 1);
      RunStep(ss, acts, i - 1);
      StepHandshake(ss[i - 1], acts[i - 1]);
    }
  }

  /** In every run, with any timeouts and from any registered timer, the thread never sleeps past
      the scheduled wakeup without an unpark on its way. */
  lemma NeverSleepsPast<T>(ss: seq<State<T>>, acts: seq<Action<T>>, i: nat)
    requires Run(ss, acts) && Fresh(ss[0]) && i < |ss| && ss[i].thread.Park?
    requires ss[i].wakeup < ss[i].thread.until
    ensures Notified(ss[i])
  {
    RunHandshake(ss, acts, i);
  }

  // ---------- an overdue entry makes the timer readable ----------

  // The thread on its own.
  function Alone<T>(s: State<T>, n: nat): State<T>
    decreases n
  {
    if n == 0 || s.thread.Dead? || Blocked(s) then s else Alone(ThreadStepOf(s), n - 1)
  }

  // A wakeup that is due and not yet served.
  predicate Ringing<T>(s: State<T>) {
    s.wakeup <= s.now && TERMINATE < s.wakeup < NEVER && s.owner.Idle? && Handshake(s)
  }

  // From the top of its loop the thread goes straight to set_readiness.
  lemma FromCheck<T>(s: State<T>, n: nat)
    requires Ringing(s) && s.thread == Check(s.wakeup) && n >= 3
    ensures Alone(s, n).readable
  {
    var s1 := ThreadStepOf(s);
    var s2 := ThreadStepOf(s1);
    var s3 := ThreadStepOf(s2);
    assert s3.readable;
    AloneKeeps(s3, n - 3);
    assert Alone(s2, n - 2) == Alone(s3, n - 3);
    assert Alone(s1, n - 1) == Alone(s2, n - 2);
  }

  lemma {:induction false} AloneKeeps<T>(s: State<T>, n: nat)
    requires s.readable
    ensures Alone(s, n).readable
    decreases n
  {
    if n > 0 && !s.thread.Dead? && !Blocked(s) { AloneKeeps(ThreadStepOf(s), n - 1); }
  }

  // A due wakeup is served within six steps of the thread, wherever it is.
  lemma {:induction false} RingingIsServed<T>(s: State<T>, n: nat)
    requires Ringing(s) && n >= Distance(s) + 3
    ensures Alone(s, n).readable
    decreases Distance(s)
  {
    var s1 := ThreadStepOf(s);
    if s.thread == Check(s.wakeup) {
      FromCheck(s, n);
    } else if s.thread == Swap(s.wakeup) {
      assert Alone(s1, n - 1).readable by { AloneKeeps(ThreadStepOf(s1), n - 2); }
    } else if s.thread.Raise? {
      AloneKeeps(s1, n - 1);
    } else {
      assert !Blocked(s);
      RingingIsServed(s1, n - 1);
    }
  }

  // Steps until the thread is at Check with the scheduled tick.
  function Distance<T>(s: State<T>): nat {
    match s.thread
    case Check(u) => if u == s.wakeup then 0 else if s.now < u then 3 else 2
    case Park(u) => 2
    case Reload => 1
    case Swap(u) => 1
    case _ => 0
  }

  /** Every entry of an idle timer that is due, by its deadline and by the cursor, is announced: the
      timer is readable, or the thread, left to itself, makes it readable within six steps. What is
      asked is that the thread was not sent home by a tick 0. */
  lemma OverdueBecomesReadable<T>(ss: seq<State<T>>, acts: seq<Action<T>>, i: nat, k: nat)
    requires Run(ss, acts) && Start(ss[0]) && i < |ss| && ss[i].owner.Idle?
    requires ss[0].owner.t != 0 && forall j | 0 <= j < i :: !Orders0(ss[j], acts[j])
    requires k in ss[i].wheel.entries && Max(ss[i].wheel.entries[k].tick, ss[i].wheel.tick) <= ss[i].now < NEVER
    ensures Alone(ss[i], 6).readable
  {
    var s := ss[i];
    RunWatched(ss, acts, i);
    ThreadSurvives(ss, acts, i);
    assert Covered(s, Due(s.wheel, k));
    if s.readable {
      AloneKeeps(s, 6);
    } else if s.thread.Raise? {
      AloneKeeps(ThreadStepOf(s), 5);
    } else {
      RingingIsServed(s, 6);
    }
  }

  // ---------- tick 0 is also the order to end ----------

  // The step that stores 0 in wakeup_state: the drop of the timer, or schedule_readiness(0).
  predicate Stores0<T>(s: State<T>, a: Action<T>) {
    a.DropTimer? || (a.OwnerStep? && s.owner.Exchange? && s.owner.t == 0 && s.wakeup == s.owner.curr)
  }

  lemma StepZero<T>(s: State<T>, a: Action<T>)
    requires Valid(s.wheel) && Enabled(s, a) && Handshake(s)
    ensures Step(s, a).wakeup == TERMINATE <==> s.wakeup == TERMINATE || Stores0(s, a)
  {
  }

  ghost predicate Stored0<T>(ss: seq<State<T>>, acts: seq<Action<T>>, i: nat)
    requires i <= |acts| && i <= |ss|
  {
    exists j :: 0 <= j < i && Stores0(ss[j], acts[j])
  }

  lemma StoredOnce<T>(ss: seq<State<T>>, acts: seq<Action<T>>, i: nat)
    requires i < |acts| && i < |ss|
    ensures Stored0(ss, acts, i + 1) <==> Stored0(ss, acts, i) || Stores0(ss[i], acts[i])
  {
    assert 0 <= i < i + 1;
  }

  /** In every run, with any timeouts, wakeup_state is 0 exactly when some step has stored it. */
  lemma {:induction false} ZeroIsForever<T>(ss: seq<State<T>>, acts: seq<Action<T>>, i: nat)
    requires Run(ss, acts) && Handshake(ss[0]) && ss[0].wakeup != TERMINATE && i < |ss|
    ensures Handshake(ss[i])
    ensures ss[i].wakeup == TERMINATE <==> Stored0(ss, acts, i)
  {
    if i > 0 {
      ZeroIsForever(ss, acts, i - 1);
      RunStep(ss, acts, i - 1);
      StepHandshake(ss[i - 1], acts[i - 1]);
      StepZero(ss[i - 1], acts[i - 1]);
      StoredOnce(ss, acts, i - 1);
    }
  }

  /** If next_tick was not 0 at registration and neither a timeout nor a poll came to 0 since, the
      thread lives as long as the timer. */
  lemma {:induction false} ThreadSurvives<T>(ss: seq<State<T>>, acts: seq<Action<T>>, i: nat)
    requires Run(ss, acts) && Fresh(ss[0]) && i < |ss|
    requires ss[0].owner.t != 0 && forall j | 0 <= j < i :: acts[j].DropTimer? || !Orders0(ss[j], acts[j])
    ensures Handshake(ss[i]) && NoZero(ss[i])
    ensures ss[i].thread.Dead? ==> ss[i].owner.Drop? || ss[i].owner.Gone?
  {
    if i > 0 {
      ThreadSurvives(ss, acts, i - 1);
      RunStep(ss, acts, i - 1);
      StepHandshake(ss[i - 1], acts[i - 1]);
      StepNoZero(ss[i - 1], acts[i - 1]);
    }
  }

  // Steps that the thread needs to notice.
  function Left<T>(s: State<T>): nat {
    match s.thread
    case Check(u) => if u == TERMINATE then 1 else if s.now < u then 4 else 3
    case Park(u) => 3
    case Reload => 2
    case Swap(u) => 2
    case Raise => 5
    case Dead => 0
  }

  /** With 0 in wakeup_state and the unpark done the thread ends, within five of its steps, and
      announces nothing any more unless it was already about to; with any other value it does not
      end in these steps. So the drop of the timer always ends its thread, and so does a timeout
      with tick 0. */
  lemma {:induction false} ThreadEnds<T>(s: State<T>, n: nat)
    requires Handshake(s) && s.wakeup == TERMINATE && (s.owner.Idle? || s.owner.Gone?) && n >= Left(s)
    ensures Alone(s, n).thread.Dead? && (Alone(s, n).readable <==> s.readable || s.thread.Raise?)
    decreases Left(s)
  {
    if !s.thread.Dead? {
      assert !Blocked(s);
      ThreadEnds(ThreadStepOf(s), n - 1);
    }
  }

  lemma {:induction false} ThreadLives<T>(s: State<T>, n: nat)
    requires Handshake(s) && s.wakeup != TERMINATE && !s.thread.Dead?
    ensures !Alone(s, n).thread.Dead?
    decreases n
  {
    if n > 0 && !Blocked(s) && s.thread != Check(TERMINATE) {
      var s1 := ThreadStepOf(s);
      ThreadLives(s1, n - 1);
    }
  }

  /** Once the owner is idle, the thread is doomed exactly if wakeup_state is 0. */
  lemma ThreadEndsExactly<T>(s: State<T>)
    requires Handshake(s) && s.owner.Idle?
    ensures Alone(s, 5).thread.Dead? <==> s.wakeup == TERMINATE
  {
    if s.wakeup == TERMINATE { ThreadEnds(s, 5); } else { ThreadLives(s, 5); }
  }

  // ---------- what the callers can do about it ----------

  ghost predicate Ordered0<T>(ss: seq<State<T>>, acts: seq<Action<T>>, i: nat)
    requires i <= |acts| && i <= |ss|
  {
    exists j :: 0 <= j < i && Orders0(ss[j], acts[j])
  }

  lemma OrderedOnce<T>(ss: seq<State<T>>, acts: seq<Action<T>>, i: nat)
    requires i < |acts| && i < |ss|
    ensures Ordered0(ss, acts, i + 1) <==> Ordered0(ss, acts, i) || Orders0(ss[i], acts[i])
  {
    assert 0 <= i < i + 1;
  }

  // 0 is stored, or schedule_readiness(0) is under way.
  predicate Storing<T>(s: State<T>) { s.wakeup == TERMINATE || (Scheduling(s) && s.owner.t == 0) }

  // Nothing has been ordered: the thread is to live.
  predicate Quiet<T>(s: State<T>) { NoZero(s) && !s.owner.Drop? && !s.owner.Gone? }

  lemma StepStoring<T>(s: State<T>, a: Action<T>)
    requires Valid(s.wheel) && Enabled(s, a) && Handshake(s) && (Storing(s) || Orders0(s, a))
    ensures Storing(Step(s, a))
  {
  }

  lemma StepOrdered<T>(s: State<T>, a: Action<T>, before: bool)
    requires Valid(s.wheel) && Enabled(s, a) && Handshake(s) && if before then Storing(s) else Quiet(s)
    ensures if before || Orders0(s, a) then Storing(Step(s, a)) else Quiet(Step(s, a))
  {
    if before || Orders0(s, a) {
      StepStoring(s, a);
    } else {
      StepNoZero(s, a);
      if a.OwnerStep? { OwnerStays(s); }
    }
  }

  lemma OwnerStays<T>(s: State<T>)
    requires !s.owner.Idle? && !s.owner.Gone? && !s.owner.Drop?
    ensures !OwnerStepOf(s).owner.Drop? && !OwnerStepOf(s).owner.Gone?
  {
  }

  lemma {:induction false} RunOrdered<T>(ss: seq<State<T>>, acts: seq<Action<T>>, i: nat)
    requires Run(ss, acts) && Fresh(ss[0]) && i < |ss|
    ensures Handshake(ss[i])
    ensures if ss[0].owner.t == 0 || Ordered0(ss, acts, i) then Storing(ss[i]) else Quiet(ss[i])
  {
    if i > 0 {
      RunOrdered(ss, acts, i - 1);
      RunStep(ss, acts, i - 1);
      OrderedOnce(ss, acts, i - 1);
      StepHandshake(ss[i - 1], acts[i - 1]);
      StepOrdered(ss[i - 1], acts[i - 1], ss[0].owner.t == 0 || Ordered0(ss, acts, i - 1));
    }
  }

  /** The wakeup thread of a registered timer whose owner is at rest ends, left to itself, within five
      steps, if and only if next_tick was 0 at registration, or since then the timer was dropped, a
      timeout was set for tick 0, or a poll returned None with 0 as the next tick. */
  lemma ThreadEndsIff<T>(ss: seq<State<T>>, acts: seq<Action<T>>, i: nat)
    requires Run(ss, acts) && Fresh(ss[0]) && i < |ss| && (ss[i].owner.Idle? || ss[i].owner.Gone?)
    ensures Alone(ss[i], 5).thread.Dead?
            <==> NextTickOf(ss[0].wheel) == 0 || exists j :: 0 <= j < i && Orders0(ss[j], acts[j])
  {
    RunOrdered(ss, acts, i);
    assert Ordered0(ss, acts, i) <==> exists j :: 0 <= j < i && Orders0(ss[j], acts[j]);
    if ss[0].owner.t == 0 || Ordered0(ss, acts, i) { ThreadEnds(ss[i], 5); } else { ThreadLives(ss[i], 5); }
  }

  // The part of it that callers can see.
  predicate Calls0<T>(s: State<T>, a: Action<T>) {
    a.DropTimer? || (a.SetTimeout? && Adjusted(s.wheel, a.request) == 0)
  }

  lemma {:induction false} StaysPositive<T>(ss: seq<State<T>>, acts: seq<Action<T>>, i: nat)
    requires Run(ss, acts) && Fresh(ss[0]) && Positive(ss[0].wheel) && i < |ss|
    requires forall j | 0 <= j < i :: !(acts[j].SetTimeout? && Adjusted(ss[j].wheel, acts[j].request) == 0)
    ensures Valid(ss[i].wheel) && Positive(ss[i].wheel)
  {
    if i > 0 {
      StaysPositive(ss, acts, i - 1);
      RunStep(ss, acts, i - 1);
      StepPositive(ss[i - 1], acts[i - 1]);
    }
  }

  // On a wheel without a tick 0 no poll comes to 0 before a timeout does.
  lemma {:induction false} FirstIsACall<T>(ss: seq<State<T>>, acts: seq<Action<T>>, i: nat)
    requires Run(ss, acts) && Fresh(ss[0]) && Positive(ss[0].wheel) && i < |acts| && Orders0(ss[i], acts[i])
    ensures exists j :: 0 <= j <= i && Calls0(ss[j], acts[j])
  {
    if forall j | 0 <= j < i :: !Calls0(ss[j], acts[j]) {
      StaysPositive(ss, acts, i);
      RunStep(ss, acts, i);
      if acts[i].Poll? { StepPositive(ss[i], acts[i]); }
      assert Calls0(ss[i], acts[i]);
    }
  }

  /** For a timer on which no timeout was set for tick 0 before its registration (RunPositive): the
      thread ends if and only if the timer was dropped or a timeout was set for tick 0 since. */
  lemma ThreadEndsIffCalled<T>(ss: seq<State<T>>, acts: seq<Action<T>>, i: nat)
    requires Run(ss, acts) && Fresh(ss[0]) && Positive(ss[0].wheel)
    requires i < |ss| && (ss[i].owner.Idle? || ss[i].owner.Gone?)
    ensures Alone(ss[i], 5).thread.Dead?
            <==> exists j :: 0 <= j < i && Calls0(ss[j], acts[j])
  {
    ThreadEndsIff(ss, acts, i);
    NextTickPositive(ss[0].wheel);
    if j :| 0 <= j < i && Orders0(ss[j], acts[j]) {
      FirstIsACall(ss, acts, j);
      var j' :| 0 <= j' <= j && Calls0(ss[j'], acts[j']);
    }
    if j :| 0 <= j < i && Calls0(ss[j], acts[j]) {
      assert Orders0(ss[j], acts[j]);
    }
  }

  /** schedule_readiness(t) does not end before it has seen or stored a wakeup at or before t: for
      t = 0 that is the order to end. */
  lemma ScheduleReaches<T>(s: State<T>)
    requires (s.owner.Load? || s.owner.Exchange?) && Handshake(s)
    ensures var s' := OwnerStepOf(s); s'.owner.Idle? || s'.owner.Unpark? ==> s'.wakeup <= s.owner.t
  {
  }

  // A new timer, registered at tick 0.
  function NewTimer(): State<nat> { Registered(New(1), 0) }

  lemma NewTimerStarts()
    ensures Valid(New<nat>(1)) && Start(NewTimer()) && Positive(New<nat>(1))
  {
    var w := New<nat>(1);
    assert Valid(w);
    assert w.nextTick == [TICK_MAX];
    CompleteIsPlanned(w);
  }

  // A timer with one slot and timeouts for ticks 2 and 1, and what a poll at tick 1 leaves of it.
  function TwoTimeouts(): Wheel<nat> {
    Wheel(map[8 := Entry(0, 2, 0), 9 := Entry(0, 1, 1)], [[9, 8]], [1], 0, Empty, 2)
  }

  function HalfPolled(): Wheel<nat> { Wheel(map[8 := Entry(0, 2, 0)], [[8]], [TICK_MAX], 1, Key(8), 2) }

  lemma TwoTimeoutsAre()
    ensures TwoTimeouts() == Insert(Insert(New<nat>(1), 8, 2, 0), 9, 1, 0)
  {
    var w0 := New<nat>(1);
    assert w0.lists == [[]] && w0.nextTick == [TICK_MAX];
    var w1 := Insert(w0, 8, 2, 0);
    assert [8] + w0.lists[0] == [8];
    assert w1.lists == [[8]] && w1.nextTick == [2];
    var w2 := Insert(w1, 9, 1, 0);
    assert [9] + w1.lists[0] == [9, 8];
    assert w2.lists == [[9, 8]] && w2.nextTick == [1];
  }

  lemma NineGoes()
    ensures Without([9, 8], 9) == [8] && Successor([9, 8], 9) == Key(8)
    ensures TwoTimeouts().entries - {9} == HalfPolled().entries
  {
    assert [9, 8][1..] == [8] && [9, 8][..0] == [];
  }

  lemma HalfPolledUnlinks(w: Wheel<nat>)
    requires w == TwoTimeouts().(tick := 1, next := Key(9), nextTick := [TICK_MAX])
    ensures Linked(w, 9) && Unlink(w, 9) == HalfPolled()
  {
    NineGoes();
    assert w.lists[0 := [8]] == [[8]];
  }

  lemma HalfPolledFires(w: Wheel<nat>)
    requires w == TwoTimeouts().(tick := 1, next := Key(9)) && Valid(w)
    ensures Turn(w) == (Some(9, Entry(0, 1, 1)), HalfPolled())
  {
    assert w.nextTick[0 := TICK_MAX] == [TICK_MAX];
    assert Reset(w) == w.(nextTick := [TICK_MAX]);
    HalfPolledUnlinks(Reset(w));
  }

  lemma HalfPolledIs()
    ensures Valid(TwoTimeouts()) && Valid(HalfPolled())
    ensures PollTo(TwoTimeouts(), 1) == (Some(9, Entry(0, 1, 1)), HalfPolled())
  {
    var w := TwoTimeouts();
    assert Valid(w);
    assert Turn(w).1 == w.(tick := 1, next := Key(9));
    HalfPolledFires(Turn(w).1);
  }

  lemma HalfPolledRegistered()
    ensures Valid(HalfPolled())
    ensures Registered(HalfPolled(), 2) == State(HalfPolled(), NEVER, false, false, 2, Reload, Load(NEVER))
  {
    assert Valid(HalfPolled());
    assert MinOf([TICK_MAX]) == TICK_MAX;
  }

  lemma SilentRun(s: State<nat>) returns (ss: seq<State<nat>>, acts: seq<Action<nat>>)
    requires Valid(s.wheel) && s == State(s.wheel, NEVER, false, false, s.now, Reload, Load(NEVER)) && s.now < NEVER
    ensures Run(ss, acts) && ss[0] == s && ss[|acts|] == s.(owner := Idle, thread := Park(NEVER))
  {
    ss, acts := Extend([s], [], OwnerStep);
    ss, acts := Extend(ss, acts, ThreadStep);
    ss, acts := Extend(ss, acts, ThreadStep);
  }

  /** A timer registered after a poll that returned an entry, and not yet None: the entry left in
      the slot has no bound, so nothing is scheduled for it. It is overdue and the thread sleeps for ever. */
  lemma HalfWayRegistrationIsSilent() returns (ss: seq<State<nat>>, acts: seq<Action<nat>>)
    ensures var w := Insert(Insert(New<nat>(1), 8, 2, 0), 9, 1, 0);
      && Valid(w) && PollTo(w, 1).0 == Some(9, Entry(0, 1, 1))
      && Run(ss, acts) && ss[0] == Registered(PollTo(w, 1).1, 2)
    ensures var s := ss[|acts|];
      && s.owner.Idle? && 8 in s.wheel.entries && s.wheel.entries[8].tick <= s.now
      && !s.readable && s.thread == Park(NEVER) && s.wakeup == NEVER && !s.token
  {
    TwoTimeoutsAre();
    HalfPolledIs();
    HalfPolledRegistered();
    ss, acts := SilentRun(Registered(HalfPolled(), 2));
  }

  /** A timeout set for tick 0 on a fresh timer ends the wakeup thread; the entry is pending and
      overdue, and nothing the thread may still do announces it. */
  lemma TickZeroEndsTheThread() returns (ss: seq<State<nat>>, acts: seq<Action<nat>>)
    ensures Run(ss, acts) && Start(ss[0]) && Positive(ss[0].wheel)
    ensures var s := ss[|acts|];
      && s.owner.Idle? && 7 in s.wheel.entries && s.wheel.entries[7].tick == 0 <= s.now && !s.readable
      && s.thread.Dead?
  {
    NewTimerStarts();
    var s0 := NewTimer();
    ss, acts := Extend([s0], [], OwnerStep);
    var s1 := s0.(owner := Idle);
    InsertValid(s1.wheel, 7, 0, 0);
    ss, acts := Extend(ss, acts, SetTimeout(0, 7, 0));
    var s2 := s1.(wheel := Insert(s1.wheel, 7, 0, 0), owner := Load(0));
    ss, acts := Extend(ss, acts, OwnerStep);
    ss, acts := Extend(ss, acts, OwnerStep);
    ss, acts := Extend(ss, acts, OwnerStep);
    assert ss[|acts|] == s2.(wakeup := 0, token := true, owner := Idle);
    ss, acts := Extend(ss, acts, ThreadStep);
    ss, acts := Extend(ss, acts, ThreadStep);
  }

  lemma CancelledZeroLeavesBound()
    ensures var w := Insert(New<nat>(1), 7, 0, 0);
      && Valid(w) && Cancel(w, 7, 0).0.entries == map[] && Valid(Cancel(w, 7, 0).0)
      && Registered(Cancel(w, 7, 0).0, 0) == State(Cancel(w, 7, 0).0, NEVER, false, false, 0, Reload, Load(0))
  {
    InsertValid(New<nat>(1), 7, 0, 0);
    assert Cancel(Insert(New<nat>(1), 7, 0, 0), 7, 0).0.nextTick == [0];
  }

  /** A second input: on a new timer a timeout is set for tick 0 and cancelled, and then the timer is
      registered. Its wheel is empty, but the slot's bound is still 0, and the thread ends at once. */
  lemma CancelledZeroEndsTheThread() returns (ss: seq<State<nat>>, acts: seq<Action<nat>>)
    ensures var w := Insert(New<nat>(1), 7, 0, 0);
      Valid(w) && Run(ss, acts) && ss[0] == Registered(Cancel(w, 7, 0).0, 0)
    ensures var s := ss[|acts|]; s.owner.Idle? && s.wheel.entries == map[] && s.thread.Dead?
    ensures forall a | a in acts :: a.OwnerStep? || a.ThreadStep?
  {
    CancelledZeroLeavesBound();
    var s0 := Registered(Cancel(Insert(New<nat>(1), 7, 0, 0), 7, 0).0, 0);
    ss, acts := Extend([s0], [], OwnerStep);
    ss, acts := Extend(ss, acts, OwnerStep);
    ss, acts := Extend(ss, acts, OwnerStep);
    assert ss[|acts|] == s0.(wakeup := 0, token := true, owner := Idle);
    ss, acts := Extend(ss, acts, ThreadStep);
    ss, acts := Extend(ss, acts, ThreadStep);
  }
}
