/** The lock of `Poll::poll1` (src/poll.rs:672-744): an atomic word whose bit 0 says held and whose
    upper bits count waiters, with a mutex and a condition variable behind it. Any number of
    threads; each atomic access, each acquisition of the mutex and each wait is one step. */
module PollLock {

  // A timeout of zero makes poll1 give up instead of waiting.
  datatype Pc =
    | Start(zero: bool)                            // about to exchange 0 for 1
    | Want(curr: nat, zero: bool)                  // found `curr`, about to take the mutex
    | Slow(curr: nat, inc: bool, zero: bool)       // in the loop, holding the mutex
    | Asleep(zero: bool)                           // in condvar.wait; the mutex is released
    | Woken(zero: bool)                            // notified, timed out or spurious: about to retake the mutex
    | Reload(zero: bool)                           // holding the mutex, about to load lock_state
    | Inside                                       // in poll2
    | Notify                                       // released the lock, owes a notify_one
  {
    // This thread is counted among the waiters.
    predicate Counted() { (Slow? && inc) || Asleep? || Woken? || Reload? }

    // This thread has the mutex.
    predicate Locked() { Slow? || Reload? }

    // This thread will look at the lock again before it can leave or sleep.
    predicate WillRetry() { Woken? || Reload? || ((Slow? || Want?) && curr % 2 == 0) }
  }

  datatype State = State(lock: nat, pc: map<nat, Pc>)

  datatype Action =
    | Call(t: nat, zero: bool)          // t calls poll1
    | TakeMutex(t: nat)
    | Try(t: nat)                       // an exchange of lock_state, fast or slow path
    | Count(t: nat)                     // add 2 to lock_state, or fail to
    | GiveUp(t: nat)                    // timeout zero and the lock seen held: return Ok(0)
    | Sleep(t: nat)                     // condvar.wait
    | Wake(t: nat, zero: bool)          // timeout (then zero) or spurious wakeup
    | Load(t: nat)                      // lock_state.load after the wait
    | Leave(t: nat)                     // poll2 has returned: fetch_and(!1)
    | NotifyOne(t: nat, u: nat, zero: bool) // under the mutex; u is the thread woken, its time up if zero
    | NotifyNobody(t: nat)              // under the mutex, with nobody asleep

  predicate MutexFree(s: State) { forall t | t in s.pc :: !s.pc[t].Locked() }

  predicate NobodyAsleep(s: State) { forall t | t in s.pc :: !s.pc[t].Asleep? }

  predicate Enabled(s: State, a: Action) {
    match a
    case Call(t, _) => t !in s.pc
    case TakeMutex(t) => t in s.pc && (s.pc[t].Want? || s.pc[t].Woken?) && MutexFree(s)
    case Try(t) => t in s.pc && (s.pc[t].Start? || (s.pc[t].Slow? && s.pc[t].curr % 2 == 0))
    case Count(t) => t in s.pc && s.pc[t].Slow? && s.pc[t].curr % 2 == 1 && !s.pc[t].inc && !s.pc[t].zero
    case GiveUp(t) => t in s.pc && s.pc[t].Slow? && s.pc[t].curr % 2 == 1 && s.pc[t].zero
    case Sleep(t) => t in s.pc && s.pc[t].Slow? && s.pc[t].curr % 2 == 1 && s.pc[t].inc && !s.pc[t].zero
    case Wake(t, _) => t in s.pc && s.pc[t].Asleep?
    case Load(t) => t in s.pc && s.pc[t].Reload?
    case Leave(t) => t in s.pc && s.pc[t].Inside?
    case NotifyOne(t, u, _) => t in s.pc && s.pc[t].Notify? && MutexFree(s) && u in s.pc && s.pc[u].Asleep?
    case NotifyNobody(t) => t in s.pc && s.pc[t].Notify? && MutexFree(s) && NobodyAsleep(s)
  }

  function Step(s: State, a: Action): State
    requires Enabled(s, a)
  {
    match a
    case Call(t, zero) => s.(pc := s.pc[t := Start(zero)])
    case TakeMutex(t) =>
      s.(pc := s.pc[t := if s.pc[t].Want? then Slow(s.pc[t].curr, false, s.pc[t].zero) else Reload(s.pc[t].zero)])
    case Try(t) => TryStep(s, t)
    case Count(t) =>
      if s.lock == s.pc[t].curr then State(s.lock + 2, s.pc[t := Slow(s.pc[t].curr, true, s.pc[t].zero)])
      else s.(pc := s.pc[t := Slow(s.lock, false, s.pc[t].zero)])
    case GiveUp(t) => State(if s.pc[t].inc && s.lock >= 2 then s.lock - 2 else s.lock, s.pc - {t})
    case Sleep(t) => s.(pc := s.pc[t := Asleep(s.pc[t].zero)])
    case Wake(t, zero) => s.(pc := s.pc[t := Woken(zero)])
    case Load(t) => s.(pc := s.pc[t := Slow(s.lock, true, s.pc[t].zero)])
    case Leave(t) =>
      State(s.lock - s.lock % 2, if s.lock != 1 then s.pc[t := Notify] else s.pc - {t})
    case NotifyOne(t, u, zero) => s.(pc := s.pc[u := Woken(zero)] - {t})
    case NotifyNobody(t) => s.(pc := s.pc - {t})
  }

  // The exchange of the fast path, and of the slow path once the lock was seen free; taking the
  // lock takes the waiter count back.
  function TryStep(s: State, t: nat): State
    requires Enabled(s, Try(t))
  {
    match s.pc[t]
    case Start(zero) =>
      if s.lock == 0 then State(1, s.pc[t := Inside]) else s.(pc := s.pc[t := Want(s.lock, zero)])
    case Slow(curr, inc, zero) =>
      if s.lock == curr then
        State(if inc && curr >= 2 then curr + 1 - 2 else curr + 1, s.pc[t := Inside])
      else s.(pc := s.pc[t := Slow(s.lock, inc, zero)])
  }

  function Init(): State { State(0, map[]) }

  // ---------- the invariant ----------

  ghost function Waiters(s: State): set<nat> { set t | t in s.pc && s.pc[t].Counted() }

  // lock_state is one for the holder and two for each waiter.
  ghost predicate Accounting(s: State) {
    s.lock == 2 * |Waiters(s)| + (if Held(s) then 1 else 0)
  }

  ghost predicate Held(s: State) { exists t :: t in s.pc && s.pc[t].Inside? }

  ghost predicate Exclusive(s: State) {
    && (forall t, u | t in s.pc && u in s.pc && s.pc[t].Inside? && s.pc[u].Inside? :: t == u)
    && (forall t, u | t in s.pc && u in s.pc && s.pc[t].Locked() && s.pc[u].Locked() :: t == u)
  }

  ghost predicate NotifyOwed(s: State) { exists t :: t in s.pc && s.pc[t].Notify? }

  ghost predicate SomebodyRetries(s: State) { exists t :: t in s.pc && s.pc[t].WillRetry() }

  ghost predicate SomebodyAsleep(s: State) { exists t :: t in s.pc && s.pc[t].Asleep? }

  // If the lock is free while a waiter sleeps, a notify is owed or an awake thread will retry;
  // and a waiter on its way to sleep over a lock that was freed meanwhile has a notify owed.
  ghost predicate NoLostNotify(s: State) {
    s.lock % 2 == 0 ==>
      && (SomebodyAsleep(s) ==> NotifyOwed(s) || SomebodyRetries(s))
      && ((exists t :: t in s.pc && s.pc[t].Slow? && s.pc[t].inc && s.pc[t].curr % 2 == 1) ==> NotifyOwed(s))
  }

  ghost predicate Inv(s: State) { Accounting(s) && Exclusive(s) && NoLostNotify(s) }

  // ---------- counting ----------

  lemma CountSame(s: State, s': State, t: nat)
    requires s'.pc - {t} == s.pc - {t}
    requires (t in s.pc && s.pc[t].Counted()) <==> (t in s'.pc && s'.pc[t].Counted())
    ensures Waiters(s') == Waiters(s)
  {
    Elsewhere(s, s', t);
  }

  lemma CountMore(s: State, s': State, t: nat)
    requires s'.pc - {t} == s.pc - {t}
    requires !(t in s.pc && s.pc[t].Counted()) && t in s'.pc && s'.pc[t].Counted()
    ensures |Waiters(s')| == |Waiters(s)| + 1
  {
    Elsewhere(s, s', t);
    assert Waiters(s') == Waiters(s) + {t};
  }

  lemma CountLess(s: State, s': State, t: nat)
    requires s'.pc - {t} == s.pc - {t}
    requires t in s.pc && s.pc[t].Counted() && !(t in s'.pc && s'.pc[t].Counted())
    ensures |Waiters(s')| == |Waiters(s)| - 1
  {
    Elsewhere(s, s', t);
    assert Waiters(s) == Waiters(s') + {t};
  }

  lemma Elsewhere(s: State, s': State, t: nat)
    requires s'.pc - {t} == s.pc - {t}
    ensures forall u | u != t :: (u in s'.pc <==> u in s.pc) && (u in s.pc ==> s'.pc[u] == s.pc[u])
  {
    forall u | u != t ensures (u in s'.pc <==> u in s.pc) && (u in s.pc ==> s'.pc[u] == s.pc[u]) {
      assert u in s'.pc <==> u in s'.pc - {t};
      assert u in s.pc <==> u in s.pc - {t};
      if u in s.pc { assert s'.pc[u] == (s'.pc - {t})[u] == (s.pc - {t})[u]; }
    }
  }

  lemma CountedPositive(s: State, t: nat)
    requires t in s.pc && s.pc[t].Counted()
    ensures |Waiters(s)| > 0
  {
    assert t in Waiters(s);
  }

  // ---------- every step keeps it ----------

  lemma HeldParity(s: State)
    requires Accounting(s)
    ensures s.lock % 2 == 1 <==> Held(s)
  {
  }

  // Steps by which a thread only moves.
  lemma MoveAccounting(s: State, s': State, t: nat)
    requires Accounting(s) && s'.lock == s.lock && s'.pc - {t} == s.pc - {t}
    requires (t in s.pc && s.pc[t].Counted()) <==> (t in s'.pc && s'.pc[t].Counted())
    requires (t in s.pc && s.pc[t].Inside?) <==> (t in s'.pc && s'.pc[t].Inside?)
    ensures Accounting(s')
  {
    CountSame(s, s', t);
    Elsewhere(s, s', t);
    assert Held(s) <==> Held(s') by {
      if Held(s) { var u :| u in s.pc && s.pc[u].Inside?; assert u in s'.pc && s'.pc[u].Inside?; }
      if Held(s') { var u :| u in s'.pc && s'.pc[u].Inside?; assert u in s.pc && s.pc[u].Inside?; }
    }
  }

  lemma TryAccounting(s: State, t: nat)
    requires Inv(s) && Enabled(s, Try(t))
    ensures Accounting(TryStep(s, t))
  {
    var s' := TryStep(s, t);
    if t in s'.pc && s'.pc[t].Inside? {
      HeldParity(s);
      assert Held(s');
      if s.pc[t].Slow? && s.pc[t].inc {
        CountedPositive(s, t);
        CountLess(s, s', t);
      } else {
        CountSame(s, s', t);
      }
    } else {
      MoveAccounting(s, s', t);
    }
  }

  lemma SameHeld(s: State, s': State, t: nat)
    requires s'.pc - {t} == s.pc - {t} && !(t in s.pc && s.pc[t].Inside?) && !(t in s'.pc && s'.pc[t].Inside?)
    ensures Held(s') <==> Held(s)
  {
    Elsewhere(s, s', t);
    if Held(s) { var u :| u in s.pc && s.pc[u].Inside?; assert u in s'.pc && s'.pc[u].Inside?; }
    if Held(s') { var u :| u in s'.pc && s'.pc[u].Inside?; assert u in s.pc && s.pc[u].Inside?; }
  }

  lemma LeaveAccounting(s: State, t: nat)
    requires Inv(s) && Enabled(s, Leave(t))
    ensures Accounting(Step(s, Leave(t)))
  {
    var s' := Step(s, Leave(t));
    assert Held(s);
    CountSame(s, s', t);
    Elsewhere(s, s', t);
    assert !Held(s');
  }

  lemma GiveUpAccounting(s: State, t: nat)
    requires Inv(s) && Enabled(s, GiveUp(t))
    ensures Accounting(Step(s, GiveUp(t)))
  {
    var s' := Step(s, GiveUp(t));
    SameHeld(s, s', t);
    if s.pc[t].inc {
      CountedPositive(s, t);
      CountLess(s, s', t);
    } else {
      CountSame(s, s', t);
    }
  }

  lemma CountAccounting(s: State, t: nat)
    requires Inv(s) && Enabled(s, Count(t))
    ensures Accounting(Step(s, Count(t)))
  {
    var s' := Step(s, Count(t));
    SameHeld(s, s', t);
    if s.lock == s.pc[t].curr { CountMore(s, s', t); } else { CountSame(s, s', t); }
  }

  lemma NotifyAccounting(s: State, t: nat, u: nat, zero: bool)
    requires Inv(s) && Enabled(s, NotifyOne(t, u, zero))
    ensures Accounting(Step(s, NotifyOne(t, u, zero)))
  {
    var mid := s.(pc := s.pc[u := Woken(zero)]);
    MoveAccounting(s, mid, u);
    MoveAccounting(mid, Step(s, NotifyOne(t, u, zero)), t);
  }

  lemma AccountingKeeps(s: State, a: Action)
    requires Inv(s) && Enabled(s, a)
    ensures Accounting(Step(s, a))
  {
    match a
    case Try(t) => TryAccounting(s, t);
    case Leave(t) => LeaveAccounting(s, t);
    case GiveUp(t) => GiveUpAccounting(s, t);
    case Count(t) => CountAccounting(s, t);
    case NotifyOne(t, u, zero) => NotifyAccounting(s, t, u, zero);
    case _ => MoveAccounting(s, Step(s, a), a.t);
  }

  lemma ExclusiveKeeps(s: State, a: Action)
    requires Inv(s) && Enabled(s, a)
    ensures Exclusive(Step(s, a))
  {
    HeldParity(s);
  }

  // A witness that is not the moving thread stays one.
  lemma SleeperThere(s: State, s': State, t: nat)
    requires s'.pc - {t} == s.pc - {t}
    requires t in s'.pc && s'.pc[t].Asleep? ==> t in s.pc && s.pc[t].Asleep?
    ensures SomebodyAsleep(s') ==> SomebodyAsleep(s)
  {
    Elsewhere(s, s', t);
    if u :| u in s'.pc && s'.pc[u].Asleep? { assert u in s.pc && s.pc[u].Asleep?; }
  }

  lemma NotifierThere(s: State, s': State, t: nat)
    requires s'.pc - {t} == s.pc - {t}
    requires t in s.pc && s.pc[t].Notify? ==> t in s'.pc && s'.pc[t].Notify?
    ensures NotifyOwed(s) ==> NotifyOwed(s')
  {
    Elsewhere(s, s', t);
    if u :| u in s.pc && s.pc[u].Notify? { assert u in s'.pc && s'.pc[u].Notify?; }
  }

  lemma RetrierThere(s: State, s': State, t: nat)
    requires s'.pc - {t} == s.pc - {t}
    requires t in s.pc && s.pc[t].WillRetry() ==> t in s'.pc && s'.pc[t].WillRetry()
    ensures SomebodyRetries(s) ==> SomebodyRetries(s')
  {
    Elsewhere(s, s', t);
    if u :| u in s.pc && s.pc[u].WillRetry() { assert u in s'.pc && s'.pc[u].WillRetry(); }
  }

  ghost predicate Stale(s: State) { exists t :: t in s.pc && s.pc[t].Slow? && s.pc[t].inc && s.pc[t].curr % 2 == 1 }

  lemma StaleThere(s: State, s': State, t: nat)
    requires s'.pc - {t} == s.pc - {t}
    requires t in s'.pc && s'.pc[t].Slow? && s'.pc[t].inc && s'.pc[t].curr % 2 == 1 ==> t in s.pc && s'.pc[t] == s.pc[t]
    ensures Stale(s') ==> Stale(s)
  {
    Elsewhere(s, s', t);
    if u :| u in s'.pc && s'.pc[u].Slow? && s'.pc[u].inc && s'.pc[u].curr % 2 == 1 {
      assert u in s.pc && s.pc[u].Slow?;
    }
  }

  // A move that leaves the lock word alone and loses no witness.
  lemma MoveNoLost(s: State, s': State, t: nat)
    requires NoLostNotify(s) && s'.pc - {t} == s.pc - {t} && s'.lock % 2 == s.lock % 2
    requires t in s'.pc && s'.pc[t].Asleep? ==> t in s.pc && s.pc[t].Asleep?
    requires t in s.pc && s.pc[t].Notify? ==> t in s'.pc && s'.pc[t].Notify?
    requires t in s.pc && s.pc[t].WillRetry() ==> t in s'.pc && s'.pc[t].WillRetry()
    requires t in s'.pc && s'.pc[t].Slow? && s'.pc[t].inc && s'.pc[t].curr % 2 == 1 ==>
               (t in s.pc && s'.pc[t] == s.pc[t]) || s'.lock % 2 == 1
    ensures NoLostNotify(s')
  {
    if s'.lock % 2 == 0 {
      SleeperThere(s, s', t);
      NotifierThere(s, s', t);
      RetrierThere(s, s', t);
      StaleThere(s, s', t);
    }
  }

  lemma LeaveNoLost(s: State, t: nat)
    requires Inv(s) && Enabled(s, Leave(t))
    ensures NoLostNotify(Step(s, Leave(t)))
  {
    var s' := Step(s, Leave(t));
    Elsewhere(s, s', t);
    if s.lock != 1 {
      assert t in s'.pc && s'.pc[t].Notify?;
    } else {
      assert Waiters(s) == {};
      forall u | u in s'.pc ensures !s'.pc[u].Counted() {
        assert u in s.pc && s.pc[u].Counted() ==> u in Waiters(s);
      }
    }
  }

  lemma SleepNoLost(s: State, t: nat)
    requires Inv(s) && Enabled(s, Sleep(t))
    ensures NoLostNotify(Step(s, Sleep(t)))
  {
    var s' := Step(s, Sleep(t));
    NotifierThere(s, s', t);
    StaleThere(s, s', t);
    if s.lock % 2 == 0 { assert Stale(s); }
  }

  lemma NotifyNoLost(s: State, t: nat, u: nat, zero: bool)
    requires Inv(s) && Enabled(s, NotifyOne(t, u, zero))
    ensures NoLostNotify(Step(s, NotifyOne(t, u, zero)))
  {
    var s' := Step(s, NotifyOne(t, u, zero));
    assert u in s'.pc && s'.pc[u].WillRetry();
    forall v | v in s'.pc ensures !s'.pc[v].Slow? {
      if v != u { assert v in s.pc && !s.pc[v].Locked(); }
    }
  }

  // Giving up, or a stale look at the lock: whoever owes the notify still does.
  lemma LeavingNoLost(s: State, a: Action)
    requires Inv(s) && Enabled(s, a) && (a.GiveUp? || a.NotifyNobody?)
    ensures NoLostNotify(Step(s, a))
  {
    var s' := Step(s, a);
    if a.GiveUp? {
      if s.pc[a.t].inc { CountedPositive(s, a.t); }
      MoveNoLost(s, s', a.t);
    } else {
      Elsewhere(s, s', a.t);
      forall v | v in s'.pc ensures !s'.pc[v].Slow? && !s'.pc[v].Asleep? {
        assert v in s.pc && s'.pc[v] == s.pc[v];
      }
    }
  }

  lemma TryNoLost(s: State, t: nat)
    requires Inv(s) && Enabled(s, Try(t))
    ensures NoLostNotify(TryStep(s, t))
  {
    var s' := TryStep(s, t);
    if t in s'.pc && s'.pc[t].Inside? {
      assert s'.lock % 2 == 1 by {
        if s.pc[t].Slow? && s.pc[t].inc { CountedPositive(s, t); }
      }
    } else {
      if s'.lock % 2 == 0 { MoveNoLost(s, s', t); }
    }
  }

  lemma NoLostKeeps(s: State, a: Action)
    requires Inv(s) && Enabled(s, a)
    ensures NoLostNotify(Step(s, a))
  {
    match a
    case Try(t) => TryNoLost(s, t);
    case Leave(t) => LeaveNoLost(s, t);
    case Sleep(t) => SleepNoLost(s, t);
    case NotifyOne(t, u, zero) => NotifyNoLost(s, t, u, zero);
    case GiveUp(_) => LeavingNoLost(s, a);
    case NotifyNobody(_) => LeavingNoLost(s, a);
    case Load(t) => if s.lock % 2 == 0 { MoveNoLost(s, Step(s, a), t); }
    case _ => MoveNoLost(s, Step(s, a), a.t);
  }

  lemma StepKeeps(s: State, a: Action)
    requires Inv(s) && Enabled(s, a)
    ensures Inv(Step(s, a))
  {
    AccountingKeeps(s, a);
    ExclusiveKeeps(s, a);
    NoLostKeeps(s, a);
  }

  // ---------- every run ----------

  predicate ValidRun(s: State, run: seq<Action>)
    decreases |run|
  {
    run == [] || (Enabled(s, run[0]) && ValidRun(Step(s, run[0]), run[1..]))
  }

  function Run(s: State, run: seq<Action>): State
    requires ValidRun(s, run)
    decreases |run|
  {
    if run == [] then s else Run(Step(s, run[0]), run[1..])
  }

  lemma {:induction false} RunKeeps(s: State, run: seq<Action>)
    requires Inv(s) && ValidRun(s, run)
    ensures Inv(Run(s, run))
    decreases |run|
  {
    if run != [] {
      StepKeeps(s, run[0]);
      RunKeeps(Step(s, run[0]), run[1..]);
    }
  }

  /** For any number of threads, with timeouts and barging: at most one thread is in poll2, and
      lock_state is one for it plus two for every thread that has counted itself as a waiter. */
  lemma MutualExclusion(run: seq<Action>)
    requires ValidRun(Init(), run)
    ensures var s := Run(Init(), run);
      && (forall t, u | t in s.pc && u in s.pc && s.pc[t].Inside? && s.pc[u].Inside? :: t == u)
      && s.lock == 2 * |Waiters(s)| + (if Held(s) then 1 else 0)
  {
    assert Waiters(Init()) == {};
    RunKeeps(Init(), run);
  }

  /** No lost notification: while the lock is free and a waiter sleeps, some thread has released
      the lock and still owes its notify_one, or an awake thread will look at the lock again. */
  lemma NoLostNotification(run: seq<Action>)
    requires ValidRun(Init(), run)
    ensures var s := Run(Init(), run);
      !Held(s) && SomebodyAsleep(s) ==> NotifyOwed(s) || SomebodyRetries(s)
  {
    assert Waiters(Init()) == {};
    RunKeeps(Init(), run);
    HeldParity(Run(Init(), run));
  }

  /** And that thread can move: unless all threads sleep behind a holder, somebody other than a
      sleeper has a step, or the caller inside poll2 will take one by returning. */
  lemma NeverStuck(run: seq<Action>)
    requires ValidRun(Init(), run) && Run(Init(), run).pc != map[]
    ensures var s := Run(Init(), run); exists a: Action :: !a.Call? && !a.Wake? && Enabled(s, a)
  {
    var s := Run(Init(), run);
    assert Waiters(Init()) == {};
    RunKeeps(Init(), run);
    HeldParity(s);
    if t :| t in s.pc && s.pc[t].Inside? {
      assert Enabled(s, Leave(t));
    } else if t :| t in s.pc && s.pc[t].Start? {
      assert Enabled(s, Try(t));
    } else if t :| t in s.pc && s.pc[t].Locked() {
      LockedMoves(s, t);
    } else {
      assert MutexFree(s);
      if t :| t in s.pc && s.pc[t].Notify? {
        NotifierMoves(s, t);
      } else {
        var t :| t in s.pc;
        if s.pc[t].Asleep? {
          assert SomebodyAsleep(s);
          var u :| u in s.pc && s.pc[u].WillRetry();
          assert Enabled(s, TakeMutex(u));
        } else {
          assert Enabled(s, TakeMutex(t));
        }
      }
    }
  }

  lemma LockedMoves(s: State, t: nat)
    requires t in s.pc && s.pc[t].Locked()
    ensures exists a: Action :: !a.Call? && !a.Wake? && Enabled(s, a)
  {
    match s.pc[t]
    case Reload(_) => assert Enabled(s, Load(t));
    case Slow(curr, inc, zero) =>
      if curr % 2 == 0 { assert Enabled(s, Try(t)); }
      else if zero { assert Enabled(s, GiveUp(t)); }
      else if !inc { assert Enabled(s, Count(t)); }
      else { assert Enabled(s, Sleep(t)); }
  }

  lemma NotifierMoves(s: State, t: nat)
    requires t in s.pc && s.pc[t].Notify? && MutexFree(s)
    ensures exists a: Action :: !a.Call? && !a.Wake? && Enabled(s, a)
  {
    if u :| u in s.pc && s.pc[u].Asleep? {
      assert Enabled(s, NotifyOne(t, u, false));
    } else {
      assert Enabled(s, NotifyNobody(t));
    }
  }
}
