/** The invariant of the queue and what it gives over every interleaving. */
module QueueProofs {
  import opened Lists
  import opened ReadyQueue

  // ---------- the invariant ----------

  ghost predicate ListInv(s: State) {
    && |s.order| > 0 && s.order[0] == s.tail && s.order[|s.order| - 1] == s.head
    && Distinct(s.order)
    && s.head !in s.next
  }

  // Each link between tail and head is either stored, or owed by exactly one thread.
  ghost predicate GapInv(s: State, i: nat)
    requires i + 1 < |s.order|
  {
    var p, n := s.order[i], s.order[i + 1];
    if p in s.next then s.next[p] == n && p !in s.linker
    else p in s.linker && s.linker[p] in s.enq && s.enq[s.linker[p]] == Link(n, p)
  }

  ghost predicate LinkInv(s: State) {
    && (forall i: nat | i + 1 < |s.order| :: GapInv(s, i))
    && (forall p | p in s.linker :: p in s.order && p != s.head)
  }

  ghost predicate ThreadInv(s: State, t: nat)
    requires t in s.enq
  {
    match s.enq[t]
    case ClearNext(n) => n !in s.order && OwnKind(s, t, n)
    case LoadHead(n) => n !in s.order && n !in s.next && OwnKind(s, t, n)
    case Swap(n, p) => n !in s.order && n !in s.next && OwnKind(s, t, n) && (p == Closed ==> Closed in s.order)
    case Link(n, p) => p in s.linker && s.linker[p] == t && OwnKind(s, t, n)
    case Awaken => t != POLLER
    case Rejected(n) => n !in s.order && OwnKind(s, t, n) && Closed in s.order
  }

  // Only the consumer pushes markers, and only those it should at its place.
  ghost predicate OwnKind(s: State, t: nat, n: Node) {
    if t != POLLER then n.Data?
    else match s.con
      case PushEnd => n == End
      case Requeue(m) => n == m
      case CloseMark => n == Closed
      case _ => false
  }

  ghost predicate EnqInv(s: State) {
    && (forall t | t in s.enq :: ThreadInv(s, t))
    && (forall t, u, n | t in s.enq && u in s.enq && s.enq[t].Holds(n) && s.enq[u].Holds(n) :: t == u)
  }

  ghost predicate MarkerInv(s: State) {
    && (Sleep in s.order ==> s.tail == Sleep && End !in s.order)
    && (Closed in s.order ==> s.head == Closed && s.closing)
  }

  predicate ClosingPlace(c: Consumer) {
    c.CloseMark? || c.Pass? || c.LoadNext? || c.SkipMarker? || c.CheckHead? || c.PushEnd? || c.Got? ||
    c.SleepClear? || c.SleepSwap? || c.Done?
  }

  ghost predicate ConsumerInv(s: State) {
    && (s.closing ==> ClosingPlace(s.con))
    && (s.closing && s.con != CloseMark ==> Closed in s.order)
    && (s.con.Done? || s.con.CloseMark? ==> s.closing)
    && (s.closing ==> s.until.Nobody?)
    && match s.con
       case PrepHead => s.tail == Sleep
       case PrepClear => s.tail == End
       case PrepSwap => s.tail == End && Sleep !in s.next
       case SleepClear => s.tail == Sleep
       case SleepSwap => s.tail == Sleep && End !in s.next
       case SkipMarker => s.tail.Data? || s.tail == Closed
       case CheckHead => s.tail.Data? || s.tail == Closed
       case PushEnd => s.tail.Data? || s.tail == Closed
       case Got(n) => n.Data?
       case Requeue(n) => n.Data?
       case CloseMark => POLLER in s.enq || Closed in s.order
       case Select(block) => block ==> s.tail == Sleep && Woken(s)
       case _ => true
  }

  // A sleeping consumer with a linked list behind the sleep marker has its wakeup on the way.
  ghost predicate Woken(s: State) {
    Sleep in s.next ==> s.pipe > 0 || exists t :: t in s.enq && s.enq[t] == Awaken
  }

  ghost predicate Inv(s: State) {
    ListInv(s) && LinkInv(s) && EnqInv(s) && MarkerInv(s) && ConsumerInv(s) && s.pushed == s.popped + Ids(s.order)
  }

  // ---------- small facts ----------

  lemma {:induction false} IdsAppend(xs: seq<Node>, n: Node)
    ensures Ids(xs + [n]) == Ids(xs) + Ids([n])
  {
    if xs == [] {
      assert xs + [n] == [n];
    } else {
      assert (xs + [n])[1..] == xs[1..] + [n];
      IdsAppend(xs[1..], n);
    }
  }

  lemma IdsHead(xs: seq<Node>)
    requires xs != []
    ensures Ids(xs) == Ids([xs[0]]) + Ids(xs[1..])
  {
    assert [xs[0]][1..] == [];
    var one: seq<nat> := if xs[0].Data? then [xs[0].id] else [];
    assert Ids([xs[0]]) == one + Ids([]) == one;
  }

  lemma Single(s: State)
    requires ListInv(s) && s.head == s.tail
    ensures |s.order| == 1 && s.order == [s.tail]
  {
    assert s.order[|s.order| - 1] == s.order[0];
  }

  lemma InOrder(s: State, n: Node) returns (i: nat)
    requires n in s.order
    ensures i < |s.order| && s.order[i] == n
  {
    i :| 0 <= i < |s.order| && s.order[i] == n;
  }

  // ---------- enqueue_node keeps the invariant ----------

  lemma BeginKeeps(s: State, t: nat, n: Node)
    requires Inv(s) && Enabled(s, Begin(t, n))
    ensures Inv(Step(s, Begin(t, n)))
  {
    var s' := Step(s, Begin(t, n));
    forall i: nat | i + 1 < |s'.order| ensures GapInv(s', i) {
      assert GapInv(s, i);
    }
    forall u | u in s'.enq ensures ThreadInv(s', u) {
      if u != t { assert ThreadInv(s, u); }
    }
    if s.con.Select? && s.con.block && Sleep in s.next && s.pipe == 0 {
      var u :| u in s.enq && s.enq[u] == Awaken;
      assert s'.enq[u] == Awaken;
    }
  }

  lemma ClearKeeps(s: State, t: nat)
    requires Inv(s) && t in s.enq && s.enq[t].ClearNext?
    ensures Inv(EnqueueStep(s, t))
  {
    var n := s.enq[t].node;
    var s' := EnqueueStep(s, t);
    assert ThreadInv(s, t);
    forall i: nat | i + 1 < |s'.order| ensures GapInv(s', i) {
      assert GapInv(s, i);
      assert s.order[i] != n;
    }
    forall u | u in s'.enq ensures ThreadInv(s', u) {
      assert ThreadInv(s, u);
    }
    AwakenStays(s, s', t);
  }

  lemma AwakenStays(s: State, s': State, t: nat)
    requires t in s.enq && s.enq[t] != Awaken && s'.enq - {t} == s.enq - {t} && s'.pipe == s.pipe
    requires Sleep in s'.next ==> Sleep in s.next
    ensures Woken(s) ==> Woken(s')
  {
    if Woken(s) && Sleep in s'.next && s.pipe == 0 {
      var u :| u in s.enq && s.enq[u] == Awaken;
      assert u in s.enq - {t};
      assert s'.enq[u] == (s'.enq - {t})[u] == (s.enq - {t})[u] == Awaken;
    }
  }

  lemma LoadHeadKeeps(s: State, t: nat)
    requires Inv(s) && t in s.enq && s.enq[t].LoadHead?
    ensures Inv(EnqueueStep(s, t))
  {
    var s' := EnqueueStep(s, t);
    assert ThreadInv(s, t);
    forall i: nat | i + 1 < |s'.order| ensures GapInv(s', i) {
      assert GapInv(s, i);
    }
    forall u | u in s'.enq ensures ThreadInv(s', u) {
      assert ThreadInv(s, u);
    }
    AwakenStays(s, s', t);
  }

  // The exchange of the head that fails, or that finds the queue closed.
  lemma SwapMissLists(s: State, t: nat)
    requires ListInv(s) && LinkInv(s) && t in s.enq && s.enq[t].Swap?
    requires s.enq[t].prev == Closed || s.head != s.enq[t].prev
    ensures ListInv(EnqueueStep(s, t)) && LinkInv(EnqueueStep(s, t))
  {
    var s' := EnqueueStep(s, t);
    forall i: nat | i + 1 < |s'.order| ensures GapInv(s', i) {
      assert GapInv(s, i);
    }
  }

  lemma SwapMissKeeps(s: State, t: nat)
    requires Inv(s) && t in s.enq && s.enq[t].Swap? && (s.enq[t].prev == Closed || s.head != s.enq[t].prev)
    ensures Inv(EnqueueStep(s, t))
  {
    var s' := EnqueueStep(s, t);
    assert ThreadInv(s, t);
    SwapMissLists(s, t);
    forall u | u in s'.enq ensures ThreadInv(s', u) {
      assert ThreadInv(s, u);
    }
    AwakenStays(s, s', t);
  }

  // The exchange of the head that succeeds appends the node to the list.
  ghost predicate SwapHit(s: State, t: nat) {
    t in s.enq && s.enq[t].Swap? && s.enq[t].prev != Closed && s.head == s.enq[t].prev
  }

  lemma SwapHitLinks(s: State, t: nat)
    requires Inv(s) && SwapHit(s, t)
    ensures ListInv(EnqueueStep(s, t)) && LinkInv(EnqueueStep(s, t))
  {
    var n, p := s.enq[t].node, s.enq[t].prev;
    var s' := EnqueueStep(s, t);
    assert ThreadInv(s, t);
    forall i: nat | i + 1 < |s'.order| ensures GapInv(s', i) {
      if i + 1 < |s.order| {
        assert GapInv(s, i);
        assert s.order[i] != p;
      }
    }
  }

  lemma SwapHitThreads(s: State, t: nat)
    requires Inv(s) && SwapHit(s, t)
    ensures EnqInv(EnqueueStep(s, t))
  {
    var n, p := s.enq[t].node, s.enq[t].prev;
    var s' := EnqueueStep(s, t);
    assert ThreadInv(s, t);
    assert s.enq[t].Holds(n);
    forall u | u in s'.enq ensures ThreadInv(s', u) {
      assert ThreadInv(s, u);
      if u != t && s.enq[u].Link? {
        assert s.enq[u].prev in s.linker;
      } else if u != t && !s.enq[u].Awaken? {
        assert s.enq[u].Holds(s.enq[u].node);
      }
    }
  }

  lemma SwapHitMarkers(s: State, t: nat)
    requires Inv(s) && SwapHit(s, t)
    ensures MarkerInv(EnqueueStep(s, t)) && EnqueueStep(s, t).order == s.order + [s.enq[t].node]
  {
    var n := s.enq[t].node;
    var s' := EnqueueStep(s, t);
    assert ThreadInv(s, t);
    assert forall m :: m in s'.order <==> m in s.order || m == n;
  }

  lemma SwapHitKeeps(s: State, t: nat)
    requires Inv(s) && SwapHit(s, t)
    ensures Inv(EnqueueStep(s, t))
  {
    var s' := EnqueueStep(s, t);
    SwapHitLinks(s, t);
    SwapHitThreads(s, t);
    SwapHitMarkers(s, t);
    IdsAppend(s.order, s.enq[t].node);
    AwakenStays(s, s', t);
  }

  // Storing the link: the wakeup is now this thread's to give if the node follows the sleep marker.
  lemma LinkLinks(s: State, t: nat)
    requires Inv(s) && t in s.enq && s.enq[t].Link?
    ensures ListInv(EnqueueStep(s, t)) && LinkInv(EnqueueStep(s, t))
    ensures s.enq[t].prev in s.order && s.enq[t].node in s.order && s.enq[t].prev !in s.next
  {
    var n, p := s.enq[t].node, s.enq[t].prev;
    var s' := EnqueueStep(s, t);
    assert ThreadInv(s, t);
    var k := InOrder(s, p);
    assert GapInv(s, k);
    forall i: nat | i + 1 < |s'.order| ensures GapInv(s', i) {
      assert GapInv(s, i);
      if i != k { assert s.order[i] != p; }
    }
  }

  lemma LinkThreads(s: State, t: nat)
    requires Inv(s) && t in s.enq && s.enq[t].Link?
    ensures EnqInv(EnqueueStep(s, t))
  {
    var p := s.enq[t].prev;
    var s' := EnqueueStep(s, t);
    assert ThreadInv(s, t);
    LinkLinks(s, t);
    forall u | u in s'.enq ensures ThreadInv(s', u) {
      assert ThreadInv(s, u);
    }
  }

  lemma LinkKeeps(s: State, t: nat)
    requires Inv(s) && t in s.enq && s.enq[t].Link?
    ensures Inv(EnqueueStep(s, t))
  {
    var p := s.enq[t].prev;
    var s' := EnqueueStep(s, t);
    LinkLinks(s, t);
    LinkThreads(s, t);
    if s.con.Select? && s.con.block {
      assert ThreadInv(s, t);
      if p == Sleep {
        assert s'.enq[t] == Awaken;
      } else {
        AwakenPersists(s, s', t);
      }
    }
  }

  lemma AwakenPersists(s: State, s': State, t: nat)
    requires t in s.enq && s.enq[t] != Awaken && s'.enq == s.enq - {t} && s'.pipe == s.pipe
    requires Sleep in s'.next ==> Sleep in s.next
    ensures Woken(s) ==> Woken(s')
  {
    assert s'.enq - {t} == s.enq - {t};
    AwakenStays(s, s', t);
  }

  // The last step of a push: the wakeup is written, or the node is given up.
  lemma LeaveKeeps(s: State, s': State, t: nat)
    requires Inv(s) && t in s.enq && (s.enq[t].Awaken? || s.enq[t].Rejected?)
    requires s' == s.(enq := s.enq - {t}, pipe := s'.pipe)
    requires s.enq[t].Awaken? ==> s'.pipe > 0
    requires s.enq[t].Rejected? ==> s'.pipe == s.pipe
    ensures Inv(s')
  {
    assert ThreadInv(s, t);
    forall i: nat | i + 1 < |s'.order| ensures GapInv(s', i) {
      assert GapInv(s, i);
    }
    forall u | u in s'.enq ensures ThreadInv(s', u) {
      assert ThreadInv(s, u);
    }
    assert LinkInv(s') && EnqInv(s');
    if s.enq[t].Rejected? { AwakenPersists(s, s', t); }
  }

  lemma AdvanceKeeps(s: State, t: nat)
    requires Inv(s) && t in s.enq
    ensures Inv(EnqueueStep(s, t))
  {
    match s.enq[t]
    case ClearNext(_) => ClearKeeps(s, t);
    case LoadHead(_) => LoadHeadKeeps(s, t);
    case Swap(_, p) => if p != Closed && s.head == p { SwapHitKeeps(s, t); } else { SwapMissKeeps(s, t); }
    case Link(_, _) => LinkKeeps(s, t);
    case Awaken => LeaveKeeps(s, EnqueueStep(s, t), t);
    case Rejected(_) => LeaveKeeps(s, EnqueueStep(s, t), t);
  }

  // ---------- the consumer keeps the invariant ----------

  // Steps that leave the list, the links and the threads alone.
  lemma PlaceKeeps(s: State, s': State)
    requires Inv(s) && POLLER !in s.enq
    requires s' == s.(con := s'.con, until := s'.until, pipe := s'.pipe)
    requires ConsumerInv(s')
    ensures Inv(s')
  {
    forall i: nat | i + 1 < |s'.order| ensures GapInv(s', i) {
      assert GapInv(s, i);
    }
    forall u | u in s'.enq ensures ThreadInv(s', u) {
      assert ThreadInv(s, u);
    }
  }

  // Resetting the next pointer of a marker that is outside the list.
  lemma ResetKeeps(s: State, s': State, m: Node)
    requires Inv(s) && POLLER !in s.enq && m !in s.order
    requires s' == s.(con := s'.con, next := s.next - {m})
    requires ConsumerInv(s')
    ensures Inv(s')
  {
    forall i: nat | i + 1 < |s'.order| ensures GapInv(s', i) {
      assert GapInv(s, i);
      assert s.order[i] in s.order;
    }
    forall u | u in s'.enq ensures ThreadInv(s', u) {
      assert ThreadInv(s, u);
    }
  }

  // Exchanging the end marker for the sleep marker, or back, in an empty list.
  lemma MarkerSwapKeeps(s: State, s': State, m: Node)
    requires Inv(s) && POLLER !in s.enq && s.head == s.tail && (m == End || m == Sleep) && m !in s.next && !s.closing
    requires s.tail == End || s.tail == Sleep
    requires s' == s.(con := s'.con, head := m, tail := m, order := [m])
    requires ConsumerInv(s')
    ensures Inv(s')
  {
    Single(s);
    assert s.linker == map[] by {
      assert forall p :: p in s.order ==> p == s.head;
    }
    forall u | u in s'.enq ensures ThreadInv(s', u) {
      assert ThreadInv(s, u);
    }
    assert Ids(s.order) == Ids([s.tail]) == [] by { assert [s.tail][1..] == []; }
    assert Ids([m]) == [] by { assert [m][1..] == []; }
  }

  // The tail pointer moves over a stored link.
  lemma MoveLists(s: State)
    requires ListInv(s) && LinkInv(s) && s.tail in s.next
    ensures var s' := MoveTail(s); s'.order == s.order[1..] && ListInv(s') && LinkInv(s') && s.tail !in s'.order
    ensures forall m :: m in s.order <==> m == s.tail || m in MoveTail(s).order
  {
    var s' := MoveTail(s);
    assert |s.order| > 1;
    assert GapInv(s, 0);
    assert s'.order == s.order[1..] && s.order == [s.tail] + s'.order;
    forall i: nat | i + 1 < |s'.order| ensures GapInv(s', i) {
      assert GapInv(s, i + 1);
    }
    forall p | p in s'.linker ensures p in s'.order && p != s'.head {
      var k := InOrder(s, p);
      assert k > 0;
      assert s'.order[k - 1] == p;
    }
  }

  lemma MoveKeeps(s: State, s': State)
    requires Inv(s) && POLLER !in s.enq && s.tail in s.next
    requires s' == MoveTail(s).(con := s'.con, popped := s.popped + Ids([s.tail]))
    requires ConsumerInv(s')
    ensures Inv(s')
  {
    MoveLists(s);
    forall i: nat | i + 1 < |s'.order| ensures GapInv(s', i) {
      assert GapInv(MoveTail(s), i);
    }
    forall u | u in s'.enq ensures ThreadInv(s', u) {
      assert ThreadInv(s, u);
    }
    IdsHead(s.order);
    assert s.popped + (Ids([s.tail]) + Ids(s'.order)) == s'.popped + Ids(s'.order);
  }

  // The consumer itself starts to push: a node back, the end marker, or the closed marker.
  lemma PushKeeps(s: State, s': State, m: Node)
    requires Inv(s) && POLLER !in s.enq && Fresh(s, m)
    requires s' == s.(con := s'.con, until := s'.until, closing := s'.closing, enq := s.enq[POLLER := ClearNext(m)])
    requires ConsumerInv(s') && (s.closing ==> s'.closing)
    requires match s'.con
             case PushEnd => m == End
             case Requeue(n) => m == n
             case CloseMark => m == Closed
             case _ => false
    ensures Inv(s')
  {
    forall i: nat | i + 1 < |s'.order| ensures GapInv(s', i) {
      assert GapInv(s, i);
    }
    forall u | u in s'.enq ensures ThreadInv(s', u) {
      if u != POLLER { assert ThreadInv(s, u); }
    }
  }

  // Only data nodes are ever in the hands of the other threads.
  lemma MarkerFresh(s: State, m: Node)
    requires Inv(s) && POLLER !in s.enq && m !in s.order && !m.Data?
    ensures Fresh(s, m)
  {
    forall t | t in s.enq ensures !s.enq[t].Holds(m) {
      assert ThreadInv(s, t);
    }
  }

  lemma DecideKeeps(s: State)
    requires Inv(s) && POLLER !in s.enq && (s.con.LoadNext? || s.con.SkipMarker?)
    requires s.tail.Data? || s.tail == Closed
    ensures Inv(Decide(s))
  {
    var s' := Decide(s);
    if s.until == Stop(s.tail) {
      PlaceKeeps(s, s');
    } else if s.tail in s.next {
      PopKeeps(s);
    } else {
      PlaceKeeps(s, s');
    }
  }

  lemma PopKeeps(s: State)
    requires Inv(s) && POLLER !in s.enq && s.tail in s.next && (s.tail.Data? || s.tail == Closed)
    requires s.con.LoadNext? || s.con.SkipMarker? || s.con.PushEnd?
    ensures Inv(Pop(s)) && s.tail.Data?
  {
    var s' := Pop(s);
    assert s.tail == s.order[0] && s.tail in s.order;
    assert s.tail.Data?;
    StillClosed(s);
    MoveKeeps(s, s');
  }

  // The closed marker is the head, so the tail never leaves it behind.
  lemma StillClosed(s: State)
    requires Inv(s) && s.tail in s.next
    ensures |s.order| > 1 && (Closed in s.order ==> Closed in s.order[1..])
  {
    assert s.order[|s.order| - 1] == s.head;
    assert s.tail != s.head;
    assert s.order[1..][|s.order| - 2] == s.head;
  }

  lemma SkipKeeps(s: State)
    requires Inv(s) && POLLER !in s.enq && s.con.LoadNext? && !s.tail.Data? && s.tail in s.next
    ensures Inv(MoveTail(s).(con := SkipMarker))
  {
    var s' := MoveTail(s).(con := SkipMarker);
    StillClosed(s);
    assert GapInv(s, 0);
    assert s'.tail == s.order[1] && s'.tail in s.order;
    assert s.order[0] != s.order[1];
    assert Ids([s.tail]) == [] by { assert [s.tail][1..] == []; }
    assert s'.popped == s.popped + Ids([s.tail]);
    MoveKeeps(s, s');
  }

  lemma PrepareKeeps(s: State)
    requires Inv(s) && POLLER !in s.enq && (s.con.PrepHead? || s.con.PrepClear? || s.con.PrepSwap?)
    ensures Inv(ConsumeStep(s))
  {
    var s' := ConsumeStep(s);
    assert s.tail in s.order by { assert s.order[0] == s.tail; }
    match s.con
    case PrepHead => PlaceKeeps(s, s');
    case PrepClear => ResetKeeps(s, s', Sleep);
    case PrepSwap => if s.head == End { MarkerSwapKeeps(s, s', Sleep); } else { PlaceKeeps(s, s'); }
  }

  lemma ClearMarkerKeeps(s: State)
    requires Inv(s) && POLLER !in s.enq && (s.con.SleepClear? || s.con.SleepSwap?)
    ensures Inv(ConsumeStep(s))
  {
    var s' := ConsumeStep(s);
    assert s.tail in s.order by { assert s.order[0] == s.tail; }
    match s.con
    case SleepClear => ResetKeeps(s, s', End);
    case SleepSwap => if s.head == Sleep { MarkerSwapKeeps(s, s', End); } else { PlaceKeeps(s, s'); }
  }

  lemma LoadNextKeeps(s: State)
    requires Inv(s) && POLLER !in s.enq && s.con.LoadNext?
    ensures Inv(ConsumeStep(s))
  {
    if s.tail.Data? { DecideKeeps(s); }
    else if s.tail in s.next { SkipKeeps(s); }
    else {
      assert s.tail in s.order by { assert s.order[0] == s.tail; }
      PlaceKeeps(s, ConsumeStep(s));
    }
  }

  lemma CheckHeadKeeps(s: State)
    requires Inv(s) && POLLER !in s.enq && s.con.CheckHead?
    ensures Inv(ConsumeStep(s))
  {
    if s.head != s.tail {
      PlaceKeeps(s, ConsumeStep(s));
    } else {
      Single(s);
      MarkerFresh(s, End);
      PushKeeps(s, ConsumeStep(s), End);
    }
  }

  lemma ConsumeKeeps(s: State)
    requires Inv(s) && ConsumerStep(s.con) && POLLER !in s.enq
    ensures Inv(ConsumeStep(s))
  {
    match s.con
    case PrepHead => PrepareKeeps(s);
    case PrepClear => PrepareKeeps(s);
    case PrepSwap => PrepareKeeps(s);
    case Clean => PlaceKeeps(s, ConsumeStep(s));
    case SleepClear => ClearMarkerKeeps(s);
    case SleepSwap => ClearMarkerKeeps(s);
    case LoadNext => LoadNextKeeps(s);
    case SkipMarker => DecideKeeps(s);
    case CheckHead => CheckHeadKeeps(s);
    case PushEnd => if s.tail in s.next { PopKeeps(s); } else { PlaceKeeps(s, ConsumeStep(s)); }
    case Requeue(_) => PlaceKeeps(s, ConsumeStep(s));
    case CloseMark => PlaceKeeps(s, ConsumeStep(s));
  }

  lemma PollerOutside(s: State)
    requires Inv(s) && !s.con.PushEnd? && !s.con.Requeue? && !s.con.CloseMark?
    ensures POLLER !in s.enq
  {
    assert POLLER in s.enq ==> ThreadInv(s, POLLER);
  }

  // The consumer's steps that touch nothing shared.
  lemma ControlKeeps(s: State, a: Action)
    requires Inv(s) && Enabled(s, a)
    requires a.Poll? || a.Returned? || a.StartPass? || a.Dequeue? || a.StopPass? || a.Forget?
    ensures Inv(Step(s, a))
  {
    PollerOutside(s);
    PlaceKeeps(s, Step(s, a));
  }

  // One step of any thread, whatever the others are doing.
  lemma StepKeeps(s: State, a: Action)
    requires Inv(s) && Enabled(s, a)
    ensures Inv(Step(s, a))
  {
    match a
    case Begin(t, n) => BeginKeeps(s, t, n);
    case Advance(t) => AdvanceKeeps(s, t);
    case PipeFull(t) => LeaveKeeps(s, Step(s, a), t);
    case Consume => ConsumeKeeps(s);
    case PutBack => PollerOutside(s); PushKeeps(s, Step(s, a), s.con.node);
    case Close => PollerOutside(s); MarkerFresh(s, Closed); PushKeeps(s, Step(s, a), Closed);
    case _ => ControlKeeps(s, a);
  }

  // ---------- what holds over every run ----------

  ghost predicate ValidRun(s: State, run: seq<Action>)
    decreases |run|
  {
    run == [] || (Enabled(s, run[0]) && ValidRun(Step(s, run[0]), run[1..]))
  }

  ghost function Run(s: State, run: seq<Action>): State
    requires ValidRun(s, run)
    decreases |run|
  {
    if run == [] then s else Run(Step(s, run[0]), run[1..])
  }

  lemma {:induction false} RunKeeps(s: State, run: seq<Action>)
    requires Inv(s) && ValidRun(s, run)
    ensures Inv(Run(s, run))
    decreases |run|
  {
    if run != [] {
      StepKeeps(s, run[0]);
      RunKeeps(Step(s, run[0]), run[1..]);
    }
  }

  // The queue is first in, first out in the order of the head exchanges, and what
  // dequeue_node returns is a data node: the one returned last.
  lemma QueueIsFifo(run: seq<Action>)
    requires ValidRun(Init(), run)
    ensures var s := Run(Init(), run);
      && s.popped <= s.pushed
      && s.pushed[|s.popped|..] == Ids(s.order)
      && (s.con.Got? ==> s.con.node.Data?)
  {
    RunKeeps(Init(), run);
    FifoOf(Run(Init(), run));
  }

  lemma FifoOf(s: State)
    requires Inv(s)
    ensures s.popped <= s.pushed && s.pushed[|s.popped|..] == Ids(s.order) && (s.con.Got? ==> s.con.node.Data?)
  {
  }

  // One dequeue returns the oldest node that was pushed and not yet returned.
  lemma DequeueReturnsOldest(s: State)
    requires Inv(s) && Enabled(s, Consume) && Step(s, Consume).con.Got?
    ensures Step(s, Consume).con == Got(s.tail) && s.tail.Data?
    ensures |s.popped| < |s.pushed| && s.pushed[|s.popped|] == s.tail.id
    ensures Step(s, Consume).popped == s.popped + [s.tail.id]
  {
    PopsTail(s);
    OldestOf(s);
  }

  // The steps that return a node return the one at the tail.
  lemma PopsTail(s: State)
    requires Inv(s) && ConsumerStep(s.con) && POLLER !in s.enq && ConsumeStep(s).con.Got?
    ensures s.tail in s.next && ConsumeStep(s) == Pop(s) && s.tail.Data?
  {
    PopPlaces(s);
    PopKeeps(s);
  }

  lemma PopPlaces(s: State)
    requires ConsumerStep(s.con) && ConsumeStep(s).con.Got?
    ensures (s.con.LoadNext? && s.tail.Data?) || s.con.SkipMarker? || s.con.PushEnd?
    ensures s.tail in s.next && ConsumeStep(s) == Pop(s)
  {
    if s.con.LoadNext? {
      LoadPops(s);
    } else if s.con.SkipMarker? {
      DecidePops(s);
    } else if s.con.PushEnd? {
      EndPops(s);
    } else {
      OthersDoNot(s);
    }
  }

  lemma LoadPops(s: State)
    requires s.con.LoadNext? && ConsumeStep(s).con.Got?
    ensures s.tail.Data? && s.tail in s.next && ConsumeStep(s) == Pop(s)
  {
    if s.tail.Data? { DecidePops(s); }
  }

  lemma DecidePops(s: State)
    requires Decide(s).con.Got?
    ensures s.tail in s.next && Decide(s) == Pop(s)
  {
  }

  lemma EndPops(s: State)
    requires s.con.PushEnd? && ConsumeStep(s).con.Got?
    ensures s.tail in s.next && ConsumeStep(s) == Pop(s)
  {
  }

  lemma OthersDoNot(s: State)
    requires ConsumerStep(s.con) && !s.con.LoadNext? && !s.con.SkipMarker? && !s.con.PushEnd?
    ensures !ConsumeStep(s).con.Got?
  {
  }

  lemma OldestOf(s: State)
    requires s.order != [] && s.order[0] == s.tail && s.tail.Data? && s.pushed == s.popped + Ids(s.order)
    ensures |s.popped| < |s.pushed| && s.pushed[|s.popped|] == s.tail.id && Ids([s.tail]) == [s.tail.id]
  {
    IdsHead(s.order);
    assert [s.tail][1..] == [];
  }

  // Every place between tail and head is linked, or exactly one thread is about to link it.
  lemma OneLinker(run: seq<Action>, i: nat)
    requires ValidRun(Init(), run) && i + 1 < |Run(Init(), run).order|
    ensures var s := Run(Init(), run); var p, n := s.order[i], s.order[i + 1];
      if p in s.next then
        s.next[p] == n && forall t | t in s.enq :: !(s.enq[t].Link? && s.enq[t].prev == p)
      else
        exists t :: t in s.enq && s.enq[t] == Link(n, p) &&
          forall u | u in s.enq && s.enq[u].Link? && s.enq[u].prev == p :: u == t
  {
    var s := Run(Init(), run);
    RunKeeps(Init(), run);
    assert GapInv(s, i);
    forall t | t in s.enq && s.enq[t].Link? ensures s.enq[t].prev in s.linker && s.linker[s.enq[t].prev] == t {
      assert ThreadInv(s, t);
    }
  }

  // The markers: end and sleep are never both in the list, a sleep marker is the tail,
  // a closed marker the head.
  lemma MarkersApart(run: seq<Action>)
    requires ValidRun(Init(), run)
    ensures var s := Run(Init(), run);
      && !(End in s.order && Sleep in s.order)
      && (Sleep in s.order ==> s.tail == Sleep)
      && (Closed in s.order ==> s.head == Closed)
      && (s.con.PrepSwap? ==> Sleep !in s.order)
      && (s.con.SleepSwap? ==> End !in s.order)
      && (POLLER in s.enq && s.enq[POLLER].Holds(End) ==> End !in s.order && Sleep !in s.order)
  {
    var s := Run(Init(), run);
    RunKeeps(Init(), run);
    assert s.tail in s.order by { assert s.order[0] == s.tail; }
    assert POLLER in s.enq ==> ThreadInv(s, POLLER);
  }

  // Between the head exchange on the sleep marker and the wakeup.
  predicate Waking(e: Enq) {
    e.Awaken? || (e.Link? && e.prev == Sleep)
  }

  // A node behind the sleep marker has filled the pipe, or its producer is before its wakeup.
  lemma SleepIsWatched(s: State)
    requires Inv(s) && s.con == Select(true)
    ensures s.tail == Sleep
    ensures s.head != Sleep ==> s.pipe > 0 || (exists t :: t in s.enq && t != POLLER && Waking(s.enq[t]))
  {
    PollerOutside(s);
    if s.head != Sleep && Sleep !in s.next {
      assert GapInv(s, 0);
      assert s.linker[Sleep] in s.enq;
    }
  }

  // No lost wakeup: while the consumer may block in select, any node behind the sleep marker
  // has filled the pipe, or its producer is between the head exchange and the wakeup.
  lemma NoLostWakeup(run: seq<Action>)
    requires ValidRun(Init(), run) && Run(Init(), run).con == Select(true)
    ensures var s := Run(Init(), run);
      && s.tail == Sleep
      && (s.head != Sleep ==>
            s.pipe > 0 || (exists t :: t in s.enq && t != POLLER && Waking(s.enq[t])))
  {
    RunKeeps(Init(), run);
    SleepIsWatched(Run(Init(), run));
  }

  lemma NoIds(xs: seq<Node>)
    requires |xs| == 1 && !xs[0].Data?
    ensures Ids(xs) == []
  {
    assert xs[1..] == [];
  }

  // So once the producers are quiet, a consumer asleep over a non-empty queue has a readable pipe.
  lemma QuietMeansAwake(run: seq<Action>)
    requires ValidRun(Init(), run) && Run(Init(), run).con == Select(true)
    requires Run(Init(), run).enq == map[] && Run(Init(), run).pushed != Run(Init(), run).popped
    ensures Run(Init(), run).pipe > 0
  {
    var s := Run(Init(), run);
    NoLostWakeup(run);
    RunKeeps(Init(), run);
    if s.head == Sleep {
      Single(s);
      NoIds(s.order);
    }
  }
}
