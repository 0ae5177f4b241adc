/** The timer's owner and its wakeup thread (src/timer.rs:119-125, 223-309, 322-355) as an
    interleaved machine over `wakeup_state`, the thread's unpark token and the readiness of the
    timer's registration. The wheel belongs to the owner alone, so its operations are one step. */
module TimerWakeup {
  import opened Wheel
  import opened WheelSteps

  // usize::MAX in wakeup_state: no wakeup is wanted. 0 tells the thread to end.
  const NEVER: nat := TICK_MAX
  const TERMINATE: nat := 0

  // `until` is the local sleep_until_tick. Reload is about to load the state, Swap about to
  // exchange it for NEVER, Raise about to set the timer readable.
  datatype Thread = Reload | Check(until: nat) | Park(until: nat) | Swap(until: nat) | Raise | Dead

  // Clear is about to clear the readiness; Load and Exchange are the loop of schedule_readiness;
  // Unpark is about to unpark the thread; Drop unparks it for the last time.
  datatype Owner = Idle | Clear(t: nat) | Load(t: nat) | Exchange(t: nat, curr: nat) | Unpark | Drop | Gone

  datatype State<T> = State(
    wheel: Wheel<T>, wakeup: nat, readable: bool, token: bool, now: nat, thread: Thread, owner: Owner)

  datatype Action<T> =
    | SetTimeout(request: nat, key: nat, state: T)
    | CancelTimeout(handle: nat, tick: nat)
    | Poll
    | OwnerStep
    | DropTimer
    | ThreadStep
    | Spurious
    | Tick

  predicate Enabled<T>(s: State<T>, a: Action<T>) {
    match a
    case SetTimeout(request, key, state) => s.owner.Idle? && key !in s.wheel.entries
    case CancelTimeout(handle, tick) => s.owner.Idle?
    case Poll => s.owner.Idle?
    case OwnerStep => !s.owner.Idle? && !s.owner.Gone?
    case DropTimer => s.owner.Idle?
    case ThreadStep => !Blocked(s) && !s.thread.Dead?
    case Spurious => s.thread.Park?
    case Tick => s.now + 1 < NEVER
  }

  // park_timeout returns when there is a token or the time is over.
  predicate Blocked<T>(s: State<T>) { s.thread.Park? && !s.token && s.now < s.thread.until }

  function OwnerStepOf<T>(s: State<T>): State<T>
    requires !s.owner.Idle? && !s.owner.Gone?
  {
    match s.owner
    case Clear(t) => s.(readable := false, owner := Load(t))
    case Load(t) => Retry(s, t, s.wakeup)
    case Exchange(t, curr) => if s.wakeup == curr then s.(wakeup := t, owner := Unpark) else Retry(s, t, s.wakeup)
    case Unpark => s.(token := true, owner := Idle)
    case Drop => s.(token := true, owner := Gone)
  }

  // The head of the loop of schedule_readiness.
  function Retry<T>(s: State<T>, t: nat, curr: nat): State<T> {
    s.(owner := if curr <= t then Idle else Exchange(t, curr))
  }

  function ThreadStepOf<T>(s: State<T>): State<T>
    requires !s.thread.Dead?
  {
    match s.thread
    case Reload => s.(thread := Check(s.wakeup))
    case Check(u) => s.(thread := if u == TERMINATE then Dead else if s.now < u then Park(u) else Swap(u))
    case Park(u) => s.(token := false, thread := Reload)
    case Swap(u) => if s.wakeup == u then s.(wakeup := NEVER, thread := Raise) else s.(thread := Check(s.wakeup))
    case Raise => s.(readable := true, thread := Check(NEVER))
  }

  function PollOf<T>(s: State<T>): State<T>
    requires Valid(s.wheel)
  {
    var (f, w') := PollTo(s.wheel, s.now);
    SteppableValid(w');
    s.(wheel := w', owner := if f.None? then Clear(NextTick(w')) else Idle)
  }

  function Step<T>(s: State<T>, a: Action<T>): State<T>
    requires Valid(s.wheel) && Enabled(s, a)
  {
    match a
    case SetTimeout(request, key, state) =>
      var tick := Adjusted(s.wheel, request);
      s.(wheel := Insert(s.wheel, key, tick, state), owner := Load(tick))
    case CancelTimeout(handle, tick) => s.(wheel := Cancel(s.wheel, handle, tick).0)
    case Poll => PollOf(s)
    case OwnerStep => OwnerStepOf(s)
    case DropTimer => s.(wakeup := TERMINATE, owner := Drop)
    case ThreadStep => ThreadStepOf(s)
    case Spurious => s.(thread := Reload)
    case Tick => s.(now := s.now + 1)
  }

  // Just registered: the thread has been spawned, and next_tick is about to be scheduled.
  function Registered<T>(w: Wheel<T>, now: nat): State<T>
    requires Valid(w)
  {
    SteppableValid(w);
    State(w, NEVER, false, false, now, Reload, Load(NextTick(w)))
  }

  ghost predicate Run<T>(ss: seq<State<T>>, acts: seq<Action<T>>) {
    && |ss| == |acts| + 1
    && forall i | 0 <= i < |acts| :: Valid(ss[i].wheel) && Enabled(ss[i], acts[i]) && ss[i + 1] == Step(ss[i], acts[i])
  }
}
