/** Registrations on top of the queue: `set_readiness`, `update`, dropping a registration, and
    the consumer's processing of a dequeued node (src/poll.rs:206-211, 269-299, 449-505, 540-556,
    786-1056), together with `enqueue_job` (src/net/event_loop.rs:300-324). Every atomic access is
    one step; writing a token slot or a job is a step of its own, so that races show. */
module Registration {
  import opened ReadinessWord
  import Q = ReadyQueue

  const POLLER: nat := Q.POLLER

  datatype Owner = Nobody | By(t: nat)

  datatype Slots = Slots(s0: nat, s1: nat, s2: nat) {
    function Get(pos: bv2): nat { if pos == 0 then s0 else if pos == 1 then s1 else s2 }

    function Put(pos: bv2, v: nat): Slots {
      if pos == 0 then this.(s0 := v) else if pos == 1 then this.(s1 := v) else this.(s2 := v)
    }
  }

  datatype Job = Noop | Run(id: nat)

  // The Registration handle.
  datatype Handle = Live | Dropping(t: nat) | Gone

  // Who is responsible for a node whose QUEUED bit is set.
  datatype Place = Nowhere | InList | Owed(t: nat) | Held

  // How far `enqueue_job` and its job have come; Plain for a node of any other origin.
  datatype Life = Plain | Created(cb: nat) | Armed(cb: nat) | Submitted(cb: nat) | Delivered(cb: nat)

  /** One ReadinessNode. The fields from `qref` on are history: whether the queue's reference is
      outstanding and how often it was released, which thread is between attaching the node
      and counting that reference, the place of the node, the token of the last committed
      update, the number of edge-triggered oneshot events claimed since then, and the life of a job node. */
  datatype Cell = Cell(
    word: Word, slots: Slots, refs: int, job: Job, attached: bool, lock: Owner,
    setters: nat, reg: Handle,
    qref: bool, released: nat, adding: Owner, place: Place, token: nat, fired: nat, life: Life)

  // The arguments of `update`.
  datatype Arg = Arg(token: nat, interest: bv4, opt: bv4, job: nat)

  datatype Why = ForSet | ForUpdate | ForDrop

  // Where a thread stands in set_readiness, update or drop on node n.
  datatype Pc =
    | SetLoad(n: nat, ready: bv4)                        // set_readiness: load the state
    | SetSwap(n: nat, ready: bv4, seen: Word)            // set_readiness: compare-exchange loop
    | QueueLoad(n: nat, why: Why)                        // enqueue_with_wakeup: load readiness_queue
    | Pushing(n: nat, why: Why)                          // inside enqueue_node_with_wakeup
    | UpQueue(n: nat, arg: Arg)                          // update: load readiness_queue
    | UpAttach(n: nat, arg: Arg)                         // update: attach to the queue
    | UpCount(n: nat, arg: Arg)                          // update: count the queue's reference
    | UpLock(n: nat, arg: Arg)                           // update: take update_lock
    | UpLoad(n: nat, arg: Arg)                           // update: load the state
    | UpCompare(n: nat, arg: Arg, seen: Word)            // update: read the current token
    | UpWrite(n: nat, arg: Arg, seen: Word, pos: bv2)    // update: writing the token into slot pos
    | UpSwap(n: nat, arg: Arg, seen: Word, pos: bv2)     // update: compare-exchange loop
    | UpUnlock(n: nat, arg: Arg, owes: bool)             // update: release update_lock
    | UpJob(n: nat, arg: Arg)                            // update: install the job
    | DropFlag(n: nat)                                   // Registration::drop: flag_as_dropped
    | DropRelease(n: nat)                                // then RegistrationInner::drop
  {
    predicate Setting() { SetLoad? || SetSwap? || ((QueueLoad? || Pushing?) && why == ForSet) }

    predicate Updating() {
      UpQueue? || UpAttach? || UpCount? || UpLock? || UpLoad? || UpCompare? || UpWrite? || UpSwap? || UpUnlock? ||
      UpJob? || ((QueueLoad? || Pushing?) && why == ForUpdate)
    }

    predicate Locking() { UpLoad? || UpCompare? || UpWrite? || UpSwap? || UpUnlock? }
  }

  datatype MaybePc = Rest | At(p: Pc)

  // Where the consumer stands with the node it dequeued.
  datatype Hand =
    | Empty
    | Load(n: nat)                                        // about to load the state
    | Swap(n: nat, seen: Word, tok: nat)                  // compare-exchange loop; tok: committed at the load
    | Back(n: nat, eff: bv4, rd: bv2, tok: nat)           // pushing the node back
    | Emit(n: nat, eff: bv4, rd: bv2, tok: nat)           // about to read the token slot and push the event
    | Free(n: nat)                                        // about to release the queue's reference

  // What the consumer passes to push_event, and the job it takes from the node.
  datatype Event = Event(n: nat, ready: bv4, token: nat, job: Job)

  // A job called by io_process, with the readiness it gets.
  datatype Call = Call(n: nat, job: Job, ready: bv4)

  // push_event keeps the job, but stores an empty readiness for it (src/sys/unix/epoll.rs:249-262).
  function CallOf(e: Event): Call { Call(e.n, e.job, 0) }

  function CallsOf(es: seq<Event>): seq<Call> { seq(|es|, i requires 0 <= i < |es| => CallOf(es[i])) }

  /** `claims` is history: what each event should say, noted when its node was consumed. `calls` are
      the jobs that io_process has called; the loop's own timer, whose events drain the timer
      instead, has a job that does nothing (src/net/event_loop.rs:62). */
  datatype State = State(q: Q.State, cell: map<nat, Cell>, pc: map<nat, Pc>, hand: Hand,
                         events: seq<Event>, handled: nat, claims: seq<(nat, bv4, nat)>, calls: seq<Call>)

  datatype Action =
    | New2(n: nat)                                              // Registration::new2
    | NewIn(n: nat, token: nat, interest: bv4, opt: bv4)        // Registration::new
    | EnqueueJob(n: nat, cb: nat)                               // enqueue_job: its new2
    | CloneSetter(n: nat)                                       // SetReadiness::clone
    | DropSetter(n: nat)                                        // SetReadiness dropped
    | CallSet(t: nat, n: nat, ready: bv4)
    | CallUpdate(t: nat, n: nat, arg: Arg)
    | CallDrop(t: nat, n: nat)
    | Thread(t: nat)                                            // next atomic step of thread t
    | PipeFull(t: nat)                                          // as Thread(t), the pipe being full
    | Queue(a: Q.Action)                                        // a step of the consumer in the queue
    | Process                                                   // a step of the consumer on its node
    | Handle                                                    // io_process: runs the jobs, clears the events

  ghost function Init(): State { State(Q.Init(), map[], map[], Empty, [], 0, [], []) }

  function NewCell(word: Word, token: nat, refs: int, attached: bool, life: Life): Cell {
    Cell(word, Slots(token, 0, 0), refs, Noop, attached, Nobody, 1, Live,
         attached, 0, Nobody, Nowhere, token, 0, life)
  }

  const ZERO: Word := Word(0, 0, 0, 0, 0, false, false)

  // ---------- guards ----------

  ghost predicate NoSetting(s: State, n: nat) { forall t | t in s.pc && s.pc[t].Setting() :: s.pc[t].n != n }

  ghost predicate NoUpdating(s: State, n: nat) { forall t | t in s.pc && s.pc[t].Updating() :: s.pc[t].n != n }

  // The closure of a job node, which holds both its handles, has been run and dropped.
  ghost predicate Released(s: State, n: nat)
    requires n in s.cell
  {
    s.cell[n].life.Plain? ||
    (s.cell[n].life.Delivered? && s.handled <= |s.events| && exists i :: 0 <= i < s.handled && s.events[i].n == n)
  }

  function JobArg(cb: nat): Arg { Arg(0, READABLE, EDGE, cb) }

  ghost predicate Enabled(s: State, a: Action) {
    match a
    case New2(n) => n !in s.cell
    case NewIn(n, _, _, _) => n !in s.cell && !s.q.closing
    case EnqueueJob(n, _) => n !in s.cell
    case CloneSetter(n) => n in s.cell && s.cell[n].setters > 0 && s.cell[n].life.Plain?
    case DropSetter(n) =>
      n in s.cell && s.cell[n].setters > 0 && (s.cell[n].setters > 1 || NoSetting(s, n)) && Released(s, n)
    case CallSet(t, n, ready) =>
      t != POLLER && t !in s.pc && n in s.cell && s.cell[n].setters > 0 &&
      (s.cell[n].life.Plain? || (s.cell[n].life.Created? && ready == READABLE))
    case CallUpdate(t, n, arg) =>
      t != POLLER && t !in s.pc && n in s.cell && s.cell[n].reg.Live? && !s.q.closing &&
      (s.cell[n].life.Plain? || (s.cell[n].life.Armed? && arg == JobArg(s.cell[n].life.cb) && NoSetting(s, n)))
    case CallDrop(t, n) =>
      t != POLLER && t !in s.pc && n in s.cell && s.cell[n].reg.Live? && NoUpdating(s, n) && Released(s, n)
    case Thread(t) => t in s.pc && s.pc[t].n in s.cell && ThreadEnabled(s, t)
    case PipeFull(t) => t in s.pc && s.pc[t].Pushing? && Q.Enabled(s.q, Q.PipeFull(t))
    case Queue(a) => Q.Enabled(s.q, a) && QueueEnabled(s, a)
    case Process => ProcessEnabled(s)
    case Handle => s.q.con.Idle? && s.hand.Empty?
  }

  // The consumer's own steps in the queue. The queue is dropped only when no update borrows it.
  ghost predicate QueueEnabled(s: State, a: Q.Action) {
    match a
    case Advance(t) => t == POLLER
    case Consume => s.hand.Empty? || s.hand.Back?
    case Close => s.hand.Empty? && forall t | t in s.pc :: !s.pc[t].Updating()
    case Begin(_, _) => false
    case PipeFull(_) => false
    case Forget => false
    case PutBack => false
    case _ => s.hand.Empty?
  }

  ghost predicate ThreadEnabled(s: State, t: nat)
    requires t in s.pc && s.pc[t].n in s.cell
  {
    match s.pc[t]
    case QueueLoad(n, _) => s.cell[n].attached ==> Q.Enabled(s.q, Q.Begin(t, Q.Data(n)))
    case UpJob(n, _) => Q.Enabled(s.q, Q.Begin(t, Q.Data(n)))
    case Pushing(_, _) => t in s.q.enq
    case UpCompare(_, _, seen) => seen.Positions()
    case _ => true
  }

  ghost predicate ProcessEnabled(s: State) {
    match s.hand
    case Empty => false
    case Load(n) => n in s.cell && s.q.con.Got?
    case Swap(n, seen, _) =>
      n in s.cell && s.q.con.Got? &&
      (Consumed(seen).queued && !seen.dropped ==> Q.Enabled(s.q, Q.PutBack))
    case Back(_, _, _, _) => false
    case Emit(n, _, _, _) => n in s.cell && s.q.con.Pass?
    case Free(n) => n in s.cell && s.q.con.Got?
  }

  // ---------- steps ----------

  ghost function Step(s: State, a: Action): State
    requires Enabled(s, a)
  {
    match a
    case New2(n) => s.(cell := s.cell[n := NewCell(ZERO, 0, 2, false, Plain)])
    case NewIn(n, token, interest, opt) =>
      s.(cell := s.cell[n := NewCell(ZERO.(interest := interest, opt := opt), token, 3, true, Plain)])
    case EnqueueJob(n, cb) => s.(cell := s.cell[n := NewCell(ZERO, 0, 2, false, Created(cb))])
    case CloneSetter(n) =>
      s.(cell := s.cell[n := s.cell[n].(refs := s.cell[n].refs + 1, setters := s.cell[n].setters + 1)])
    case DropSetter(n) =>
      s.(cell := s.cell[n := s.cell[n].(refs := s.cell[n].refs - 1, setters := s.cell[n].setters - 1)])
    case CallSet(t, n, ready) =>
      s.(pc := s.pc[t := SetLoad(n, ready)],
         cell := s.cell[n := s.cell[n].(
                   life := if s.cell[n].life.Created? then Armed(s.cell[n].life.cb) else s.cell[n].life)])
    case CallUpdate(t, n, arg) =>
      s.(pc := s.pc[t := UpQueue(n, arg)],
         cell := s.cell[n := s.cell[n].(
                   life := if s.cell[n].life.Armed? then Submitted(s.cell[n].life.cb) else s.cell[n].life)])
    case CallDrop(t, n) =>
      s.(pc := s.pc[t := DropFlag(n)], cell := s.cell[n := s.cell[n].(reg := Dropping(t))])
    case Thread(t) => ThreadStep(s, t)
    case PipeFull(t) => After(s.(q := Q.Step(s.q, Q.PipeFull(t))), t, s.pc[t].n, s.pc[t].why)
    case Queue(a) => QueueStep(s, a)
    case Process => ProcessStep(s)
    case Handle => HandleStep(s)
  }

  // io_process over the events of the last pass.
  function HandleStep(s: State): State {
    s.(handled := |s.events|, calls := s.calls + if s.handled <= |s.events| then CallsOf(s.events[s.handled..]) else [])
  }

  // What a thread does once its push is over.
  function After(s: State, t: nat, n: nat, why: Why): State {
    s.(pc := if why == ForDrop then s.pc[t := DropRelease(n)] else s.pc - {t})
  }

  // release_node, for the reference the queue holds.
  function ReleaseQueueRef(c: Cell): Cell {
    c.(refs := c.refs - 1, qref := false, released := c.released + 1, place := Nowhere)
  }

  function SetReady(w: Word, ready: bv4): Word {
    var w' := w.(readiness := ready);
    if w'.Effective() != 0 then w'.(queued := true) else w'
  }

  function Updated(w: Word, arg: Arg, pos: bv2): Word {
    var w' := w.(wr := pos, interest := arg.interest, opt := arg.opt);
    if w'.Effective() != 0 then w'.(queued := true) else w'
  }

  // The state the consumer leaves behind (src/poll.rs:473-483).
  function Consumed(w: Word): Word {
    var w1 :=
      if w.Edge() then
        var d := w.(queued := false);
        if w.Oneshot() && w.Effective() != 0 then d.(interest := 0) else d
      else if w.Effective() == 0 then w.(queued := false)
      else w;
    w1.(rd := w1.wr)
  }

  // The steps that go to the queue; all others touch only the node.
  predicate QueuePc(p: Pc, c: Cell) { (p.QueueLoad? && c.attached) || p.Pushing? || p.UpJob? }

  ghost function ThreadStep(s: State, t: nat): State
    requires t in s.pc && s.pc[t].n in s.cell && ThreadEnabled(s, t)
  {
    var p := s.pc[t];
    var c := s.cell[p.n];
    if p.Pushing? then PushStep(s, t, p.n, p.why)
    else if p.UpJob? then
      s.(pc := s.pc[t := Pushing(p.n, ForUpdate)], q := Q.Step(s.q, Q.Begin(t, Q.Data(p.n))),
         cell := s.cell[p.n := c.(job := Run(p.arg.job))])
    else if p.QueueLoad? && c.attached then
      s.(pc := s.pc[t := Pushing(p.n, p.why)], q := Q.Step(s.q, Q.Begin(t, Q.Data(p.n))))
    else
      var (c', p') := NodeStep(t, p, c);
      s.(cell := s.cell[p.n := c'], pc := if p'.At? then s.pc[t := p'.p] else s.pc - {t})
  }

  function NodeStep(t: nat, p: Pc, c: Cell): (Cell, MaybePc)
    requires !QueuePc(p, c) && (p.UpCompare? ==> p.seen.Positions())
  {
    match p
    case SetLoad(n, ready) => (c, At(SetSwap(n, ready, c.word)))
    case SetSwap(n, ready, seen) =>
      if seen.dropped then (c, Rest)
      else if c.word == seen then
        var next := SetReady(seen, ready);
        if !seen.queued && next.queued then
          (c.(word := next, place := if c.qref then Owed(t) else c.place), At(QueueLoad(n, ForSet)))
        else (c.(word := next), Rest)
      else (c, At(SetSwap(n, ready, c.word)))
    case QueueLoad(n, why) => (c, if why == ForDrop then At(DropRelease(n)) else Rest)
    case UpQueue(n, arg) => (c, At(if c.attached then UpLock(n, arg) else UpAttach(n, arg)))
    case UpAttach(n, arg) =>
      if c.attached then (c, At(UpLock(n, arg)))
      else (c.(attached := true, qref := true, adding := By(t)), At(UpCount(n, arg)))
    case UpCount(n, arg) => (c.(refs := c.refs + 1, adding := Nobody), At(UpLock(n, arg)))
    case UpLock(n, arg) => if c.lock.By? then (c, Rest) else (c.(lock := By(t)), At(UpLoad(n, arg)))
    case UpLoad(n, arg) => (c, At(UpCompare(n, arg, c.word)))
    case UpCompare(n, arg, seen) =>
      (c, At(if arg.token == c.slots.Get(seen.wr) then UpSwap(n, arg, seen, seen.wr)
             else UpWrite(n, arg, seen, seen.NextPos())))
    case UpWrite(n, arg, seen, pos) => (c.(slots := c.slots.Put(pos, arg.token)), At(UpSwap(n, arg, seen, pos)))
    case UpSwap(n, arg, seen, pos) =>
      if c.word == seen then
        var next := Updated(seen, arg, pos);
        var owes := !seen.queued && next.queued;
        (c.(word := next, token := arg.token, fired := 0, place := if owes then Owed(t) else c.place),
         At(UpUnlock(n, arg, owes)))
      else (c, At(UpSwap(n, arg, c.word, pos)))
    case UpUnlock(n, arg, owes) => (c.(lock := Nobody), if owes then At(UpJob(n, arg)) else Rest)
    case DropFlag(n) =>
      var c' := c.(word := c.word.(queued := true, dropped := true));
      if c.word.queued then (c', At(DropRelease(n)))
      else (c'.(place := if c.qref then Owed(t) else c.place), At(QueueLoad(n, ForDrop)))
    case DropRelease(n) => (c.(refs := c.refs - 1, reg := Gone), Rest)
  }

  // One step inside enqueue_node; a node that finds the queue closed gives the queue's reference back.
  ghost function PushStep(s: State, t: nat, n: nat, why: Why): State
    requires t in s.q.enq && n in s.cell
  {
    var q' := Q.EnqueueStep(s.q, t);
    var e := s.q.enq[t];
    var c := s.cell[n];
    var c' := if e.Rejected? then ReleaseQueueRef(c)
              else if t in q'.enq && q'.enq[t].Link? then c.(place := InList)
              else c;
    var s' := s.(q := q', cell := s.cell[n := c']);
    if t in q'.enq then s' else After(s', t, n, why)
  }

  ghost function QueueStep(s: State, a: Q.Action): State
    requires Q.Enabled(s.q, a)
  {
    var q' := Q.Step(s.q, a);
    var s' := s.(q := q');
    if a.Advance? && s.hand.Back? && s.hand.n in s.cell && POLLER in q'.enq && q'.enq[POLLER].Link? then
      s'.(cell := s.cell[s.hand.n := s.cell[s.hand.n].(place := InList)])
    else if a.Consume? && s.hand.Back? && q'.con.Pass? then
      s'.(hand := Emit(s.hand.n, s.hand.eff, s.hand.rd, s.hand.tok))
    else if a.Consume? && q'.con.Got? && q'.con.node.Data? && q'.con.node.id in s.cell then
      var n := q'.con.node.id;
      s'.(hand := Load(n), cell := s.cell[n := s.cell[n].(place := Held)])
    else s'
  }

  ghost function ProcessStep(s: State): State
    requires ProcessEnabled(s)
  {
    var c := s.cell[s.hand.n];
    match s.hand
    case Load(n) => s.(hand := if s.q.closing then Free(n) else Swap(n, c.word, c.token))
    case Swap(n, seen, tok) =>
      if seen.dropped then s.(hand := Free(n))
      else
        var next := Consumed(seen);
        if next == seen then Settle(s, n, seen, next, tok)
        else if c.word == seen then Settle(s, n, seen, next, c.token)
        else s.(hand := Swap(n, c.word, c.token))
    case Emit(n, eff, rd, tok) =>
      s.(hand := Empty, events := s.events + [Event(n, eff, c.slots.Get(rd), c.job)],
         cell := s.cell[n := c.(job := Noop, life := if c.life.Submitted? then Delivered(c.life.cb) else c.life)])
    case Free(n) =>
      s.(hand := Empty, q := Q.Step(s.q, Q.Forget), cell := s.cell[n := ReleaseQueueRef(c)])
  }

  // The compare-exchange loop is left with state `next`: push the node back if it is still queued.
  ghost function Settle(s: State, n: nat, seen: Word, next: Word, tok: nat): State
    requires n in s.cell && s.q.con.Got? && (next.queued ==> Q.Enabled(s.q, Q.PutBack))
  {
    var c := s.cell[n];
    var eff := seen.Effective();
    var word' := if next == seen then c.word else next;
    var c1 := c.(word := word', fired := if eff != 0 && seen.Edge() && seen.Oneshot() then c.fired + 1 else c.fired);
    var s1 := s.(claims := if eff != 0 then s.claims + [(n, eff, tok)] else s.claims);
    if next.queued then
      s1.(hand := Back(n, eff, next.rd, tok), q := Q.Step(s.q, Q.PutBack), cell := s.cell[n := c1])
    else
      s1.(hand := if eff != 0 then Emit(n, eff, next.rd, tok) else Empty, q := Q.Step(s.q, Q.Forget),
          cell := s.cell[n := c1.(place := Nowhere)])
  }
}
