/** The intrusive multi-producer, single-consumer queue of src/poll.rs as an interleaved step system.
    Every atomic load, store or compare-exchange of `enqueue_node`, `dequeue_node`,
    `clear_sleep_marker` and `prepare_for_sleep` is one step; a write to the consumer-private
    tail pointer belongs to the atomic access just before it. */
module ReadyQueue {

  // The three sentinels and the registration nodes.
  datatype Node = End | Sleep | Closed | Data(id: nat)

  // Where a thread stands inside `enqueue_node_with_wakeup`.
  datatype Enq =
    | ClearNext(node: Node)          // about to store null in node.next
    | LoadHead(node: Node)           // about to load the head
    | Swap(node: Node, prev: Node)   // about to compare-exchange the head from prev to node
    | Link(node: Node, prev: Node)   // the head is swapped, about to store prev.next
    | Awaken                         // linked behind the sleep marker, about to write the pipe
    | Rejected(node: Node)           // found the closed marker, about to give the node's reference back
  {
    // The node is in this thread's hands: not in the list, and not to be pushed by anybody else.
    predicate Holds(n: Node) {
      (ClearNext? || LoadHead? || Swap? || Rejected?) && this.node == n
    }
  }

  // Where the one consumer stands: `poll2`, the queue pass, or the queue's `drop`.
  datatype Consumer =
    | Idle                 // no poll in progress
    | PrepHead             // prepare_for_sleep, tail is the sleep marker: about to load the head
    | PrepClear            // prepare_for_sleep, tail is the end marker: about to reset sleep.next
    | PrepSwap             // prepare_for_sleep: about to exchange end for sleep
    | Select(block: bool)  // inside selector.select, with a timeout of zero unless block
    | Clean                // select reported the awakener: reading the pipe until empty
    | Enter                // about to start ReadinessQueue::poll
    | Pass                 // between two calls of dequeue_node
    | SleepClear           // clear_sleep_marker: about to reset end.next
    | SleepSwap            // clear_sleep_marker: about to exchange sleep for end
    | LoadNext             // dequeue_node: about to load tail.next
    | SkipMarker           // dequeue_node: stepped over a marker, about to load the new tail's next
    | CheckHead            // dequeue_node: tail.next was null, about to load the head
    | PushEnd              // dequeue_node: pushing the end marker, then reloading tail.next
    | Got(node: Node)      // dequeue_node returned Data(node)
    | Requeue(node: Node)  // pushing the node back
    | CloseMark            // drop: pushing the closed marker
    | Done                 // drop has returned

  datatype Until = Nobody | Stop(node: Node)

  /** `next` holds the non-null next pointers. The last four fields are history:
      the list from tail to head in the order of the head exchanges, for every half-linked
      node the thread that owes the link, and the data nodes pushed and returned so far. */
  datatype State = State(
    head: Node, tail: Node, next: map<Node, Node>, pipe: nat,
    enq: map<nat, Enq>, con: Consumer, until: Until, closing: bool,
    order: seq<Node>, linker: map<Node, nat>, pushed: seq<nat>, popped: seq<nat>)

  // The thread that polls (and finally drops) the queue.
  const POLLER: nat := 0

  const READ_BUFFER: nat := 128

  datatype Outcome = Notified | Quiet | Failed

  datatype Action =
    | Begin(t: nat, node: Node)      // t calls enqueue_node_with_wakeup(node)
    | Advance(t: nat)                // next atomic step of t inside enqueue_node_with_wakeup
    | PipeFull(t: nat)               // the wakeup write finds the pipe full (WouldBlock)
    | Poll(zero: bool)               // poll2 is entered with a zero / non-zero timeout
    | Returned(outcome: Outcome)     // selector.select returns
    | StartPass(full: bool)          // ReadinessQueue::poll starts with a full / not full buffer
    | Dequeue                        // calls dequeue_node
    | StopPass                       // the event buffer is full: the loop ends
    | Consume                        // next atomic step of the consumer
    | Forget                         // the dequeued node is not pushed back
    | PutBack                        // the dequeued node is pushed back
    | Close                          // the queue is dropped

  function Ids(xs: seq<Node>): seq<nat> {
    if xs == [] then []
    else if xs[0].Data? then [xs[0].id] + Ids(xs[1..])
    else Ids(xs[1..])
  }

  function Init(): State {
    State(End, End, map[], 0, map[], Idle, Nobody, false, [End], map[], [], [])
  }

  // Nobody has the node: a thread that owns it may start to push it.
  ghost predicate Fresh(s: State, n: Node) {
    n !in s.order && forall t | t in s.enq :: !s.enq[t].Holds(n)
  }

  ghost predicate Enabled(s: State, a: Action) {
    match a
    case Begin(t, n) => t != POLLER && t !in s.enq && n.Data? && Fresh(s, n)
    case Advance(t) => t in s.enq
    case PipeFull(t) => t in s.enq && s.enq[t].Awaken? && s.pipe > 0
    case Poll(_) => s.con.Idle?
    case Returned(_) => s.con.Select?
    case StartPass(_) => s.con.Enter?
    case Dequeue => s.con.Pass?
    case StopPass => s.con.Pass? && !s.closing
    case Consume => ConsumerStep(s.con) && POLLER !in s.enq
    case Forget => s.con.Got?
    case PutBack => s.con.Got? && !s.closing && Fresh(s, s.con.node)
    case Close => s.con.Idle?
  }

  predicate ConsumerStep(c: Consumer) {
    c.PrepHead? || c.PrepClear? || c.PrepSwap? || c.Clean? || c.SleepClear? || c.SleepSwap? ||
    c.LoadNext? || c.SkipMarker? || c.CheckHead? || c.PushEnd? || c.Requeue? || c.CloseMark?
  }

  ghost function Step(s: State, a: Action): State
    requires Enabled(s, a)
  {
    match a
    case Begin(t, n) => s.(enq := s.enq[t := ClearNext(n)])
    case Advance(t) => EnqueueStep(s, t)
    case PipeFull(t) => s.(enq := s.enq - {t})
    case Poll(zero) =>
      s.(con := if zero then Select(false)
                else if s.tail == Sleep then PrepHead
                else if s.tail == End then PrepClear
                else Select(false))
    case Returned(Notified) => s.(con := Clean)
    case Returned(Quiet) => s.(con := Enter)
    case Returned(Failed) => s.(con := Idle)
    case StartPass(full) =>
      s.(until := Nobody,
         con := if !full then Pass else if s.tail == Sleep then SleepClear else Idle)
    case Dequeue => s.(con := LoadNext)
    case StopPass => s.(con := Idle)
    case Consume => ConsumeStep(s)
    case Forget => s.(con := Pass)
    case PutBack =>
      s.(con := Requeue(s.con.node), enq := s.enq[POLLER := ClearNext(s.con.node)],
         until := if s.until.Nobody? then Stop(s.con.node) else s.until)
    case Close => s.(con := CloseMark, closing := true, until := Nobody, enq := s.enq[POLLER := ClearNext(Closed)])
  }

  // enqueue_node, and the wakeup after it; the consumer never waits for a wakeup of its own.
  function EnqueueStep(s: State, t: nat): State
    requires t in s.enq
  {
    match s.enq[t]
    case ClearNext(n) => s.(next := s.next - {n}, enq := s.enq[t := LoadHead(n)])
    case LoadHead(n) => s.(enq := s.enq[t := Swap(n, s.head)])
    case Swap(n, p) =>
      if p == Closed then s.(enq := s.enq[t := Rejected(n)])
      else if s.head == p then
        s.(head := n, enq := s.enq[t := Link(n, p)],
           order := s.order + [n], linker := s.linker[p := t], pushed := s.pushed + Ids([n]))
      else s.(enq := s.enq[t := Swap(n, s.head)])
    case Link(n, p) =>
      s.(next := s.next[p := n], linker := s.linker - {p},
         enq := if p == Sleep && t != POLLER then s.enq[t := Awaken] else s.enq - {t})
    case Awaken => s.(pipe := s.pipe + 1, enq := s.enq - {t})
    case Rejected(n) => s.(enq := s.enq - {t})
  }

  function ConsumeStep(s: State): State
    requires ConsumerStep(s.con)
  {
    match s.con
    case PrepHead => s.(con := Select(s.head == Sleep))
    case PrepClear => s.(next := s.next - {Sleep}, con := PrepSwap)
    case PrepSwap =>
      if s.head == End then s.(head := Sleep, tail := Sleep, order := [Sleep], con := Select(true))
      else s.(con := Select(false))
    case Clean =>
      if s.pipe == 0 then s.(con := Enter)
      else s.(pipe := if s.pipe <= READ_BUFFER then 0 else s.pipe - READ_BUFFER)
    case SleepClear => s.(next := s.next - {End}, con := SleepSwap)
    case SleepSwap =>
      if s.head == Sleep then s.(head := End, tail := End, order := [End], con := Finished(s))
      else s.(con := Finished(s))
    case LoadNext =>
      if s.tail.Data? then Decide(s)
      else if s.tail in s.next then MoveTail(s).(con := SkipMarker)
      else s.(con := if s.tail == Sleep then SleepClear else Finished(s))
    case SkipMarker => Decide(s)
    case CheckHead =>
      if s.head != s.tail then s.(con := Retry(s))
      else s.(con := PushEnd, enq := s.enq[POLLER := ClearNext(End)])
    case PushEnd => if s.tail in s.next then Pop(s) else s.(con := Retry(s))
    case Requeue(_) => s.(con := Pass)
    case CloseMark => s.(con := Pass)
  }

  // The end of the pass, on Dequeue::Empty.
  function Finished(s: State): Consumer { if s.closing then Done else Idle }

  // What Dequeue::Inconsistent leads to: poll gives up for this round, drop spins.
  function Retry(s: State): Consumer { if s.closing then Pass else Idle }

  function MoveTail(s: State): State
    requires s.tail in s.next
  {
    s.(tail := s.next[s.tail], order := if s.order == [] then [] else s.order[1..])
  }

  function Pop(s: State): State
    requires s.tail in s.next
  {
    MoveTail(s).(popped := s.popped + Ids([s.tail]), con := Got(s.tail))
  }

  // dequeue_node once tail.next is loaded and tail is not a marker to skip.
  function Decide(s: State): State {
    if s.until == Stop(s.tail) then s.(con := Finished(s))
    else if s.tail in s.next then Pop(s)
    else s.(con := CheckHead)
  }
}
