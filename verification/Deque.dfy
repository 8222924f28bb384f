/** The work-stealing queue of one pool thread as a state machine: one action is one atomic load, store
    or lock operation. The owner works at the head, any number of thieves at the tail. Positions are
    unbounded here; `ThreadStates` shows that the machine words of the program agree with them. */
module Deque {
  import opened Words

  /** The address of a scheduled operation. */
  type Op = int

  const INITIAL_SIZE: nat := 256
  /** `max_local_queue_size`: one megabyte of pointers. */
  const MAX_LOCAL_QUEUE_SIZE: nat := 131072
  /** No allocation of more pointers than this can succeed in a 64-bit address space. */
  const ADDRESSABLE: nat := 0x1000_0000_0000_0000

  datatype Lock = Free | ByOwner | ByThief(thief: nat)

  /** Where the owner is inside `try_local_enqueue` or `try_local_pop`, with its local variables. */
  datatype Owner =
    | Idle
    | EnqueueLoadTail(op: Op, h: int)
    | EnqueueStoreSlot(op: Op, h: int)
    | EnqueueStoreHead(op: Op, h: int)
    | GrowTryLock(op: Op, h: int, block: seq<Op>)
    | GrowLoadTail(op: Op, h: int, block: seq<Op>)
    | GrowCopy(op: Op, h: int, block: seq<Op>, t: int)
    | GrowStoreHead(op: Op, h: int, grown: seq<Op>)
    | GrowSwap(op: Op, h: int, grown: seq<Op>)
    | GrowUnlock
    | PopStoreHead(h: int)
    | PopLoadTail(newHead: int)
    | PopLock(newHead: int)
    | PopReloadTail(newHead: int)
    | PopRestoreHead(newHead: int)
    | PopUnlockEmpty
    | PopUnlockTake(newHead: int)
    | PopTake(newHead: int)

  /** Where a thief is inside `try_steal`. Everything but `Away` is inside the critical section. */
  datatype Thief =
    | Away
    | StealLoadTail
    | StealLoadHead(t: int)
    | StealStoreTail(t: int)
    | StealReloadHead(t: int)
    | StealTake(t: int)
    | StealRestoreTail(t: int)
    | StealUnlock

  /** What an outside observer sees: an enqueue that became visible, and the operations handed out. */
  datatype Event = Enqueued(op: Op) | Popped(op: Op) | Stolen(thief: nat, op: Op)

  datatype State = State(
    head: int, tail: int, buffer: seq<Op>, lock: Lock,
    owner: Owner, thieves: map<nat, Thief>, history: seq<Event>)

  /** An owner step that allocates gets `memory`, a block with arbitrary contents, or too few words when
      the allocation fails. Other owner steps ignore it. */
  datatype Action =
    | StartEnqueue(op: Op)
    | StartPop
    | OwnerStep(memory: seq<Op>)
    | LockForSteal(thief: nat)
    | ThiefStep(thief: nat)

  function Init(): State
  {
    State(0, 0, seq(INITIAL_SIZE, _ => 0), Free, Idle, map[], [])
  }

  function ThiefAt(s: State, t: nat): Thief
  {
    if t in s.thieves then s.thieves[t] else Away
  }

  predicate Enabled(s: State, a: Action)
  {
    match a
    case StartEnqueue(_) => s.owner.Idle?
    case StartPop => s.owner.Idle?
    case OwnerStep(_) => !s.owner.Idle? && (s.owner.PopLock? ==> s.lock.Free?)
    case LockForSteal(t) => ThiefAt(s, t).Away? && s.lock.Free?
    case ThiefStep(t) => !ThiefAt(s, t).Away?
  }

  /** The buffer with the slot of position `x` overwritten. */
  function Put(buffer: seq<Op>, x: int, op: Op): (r: seq<Op>)
    requires |buffer| > 0
  {
    buffer[Slot(x, |buffer|) := op]
  }

  function At(buffer: seq<Op>, x: int): Op
    requires |buffer| > 0
  {
    buffer[Slot(x, |buffer|)]
  }

  /** The copy loop of a growth: positions `lo` up to `hi` of `source`, copied into `grown`. */
  function CopyInto(source: seq<Op>, grown: seq<Op>, lo: int, hi: int): (r: seq<Op>)
    requires |source| > 0 && |grown| > 0
    ensures |r| == |grown|
    decreases hi - lo
  {
    if lo >= hi then grown else Put(CopyInto(source, grown, lo, hi - 1), hi - 1, At(source, hi - 1))
  }

  function Grown(source: seq<Op>, block: seq<Op>, lo: int, hi: int, op: Op): (r: seq<Op>)
    requires |source| > 0 && |block| > 0
    ensures |r| == |block|
  {
    Put(CopyInto(source, block, lo, hi), hi, op)
  }

  function OwnerApply(s: State, memory: seq<Op>): State
    requires |s.buffer| > 0
  {
    var mask := |s.buffer| - 1;
    match s.owner
    case Idle => s
    case EnqueueLoadTail(op, h) =>
      if h - s.tail < mask then s.(owner := EnqueueStoreSlot(op, h))
      else if mask == MAX_LOCAL_QUEUE_SIZE then s.(owner := Idle)
      else if |memory| != 2 * |s.buffer| || |memory| > ADDRESSABLE then s.(owner := Idle)
      else s.(owner := GrowTryLock(op, h, memory))
    case EnqueueStoreSlot(op, h) =>
      s.(buffer := Put(s.buffer, h, op), owner := EnqueueStoreHead(op, h))
    case EnqueueStoreHead(op, h) =>
      s.(head := h + 1, owner := Idle, history := s.history + [Enqueued(op)])
    case GrowTryLock(op, h, block) =>
      if s.lock.Free? then s.(lock := ByOwner, owner := GrowLoadTail(op, h, block)) else s.(owner := Idle)
    case GrowLoadTail(op, h, block) => s.(owner := GrowCopy(op, h, block, s.tail))
    case GrowCopy(op, h, block, t) =>
      if block == [] then s else s.(owner := GrowStoreHead(op, h, Grown(s.buffer, block, t, h, op)))
    case GrowStoreHead(op, h, grown) =>
      s.(head := h + 1, owner := GrowSwap(op, h, grown), history := s.history + [Enqueued(op)])
    case GrowSwap(_, _, grown) => s.(buffer := grown, owner := GrowUnlock)
    case GrowUnlock => s.(lock := Free, owner := Idle)
    case PopStoreHead(h) => s.(head := h - 1, owner := PopLoadTail(h - 1))
    case PopLoadTail(newHead) =>
      s.(owner := if newHead - s.tail < 0 then PopLock(newHead) else PopTake(newHead))
    case PopLock(newHead) => s.(lock := ByOwner, owner := PopReloadTail(newHead))
    case PopReloadTail(newHead) =>
      s.(owner := if newHead - s.tail < 0 then PopRestoreHead(newHead) else PopUnlockTake(newHead))
    case PopRestoreHead(newHead) => s.(head := newHead + 1, owner := PopUnlockEmpty)
    case PopUnlockEmpty => s.(lock := Free, owner := Idle)
    case PopUnlockTake(newHead) => s.(lock := Free, owner := PopTake(newHead))
    case PopTake(newHead) => s.(owner := Idle, history := s.history + [Popped(At(s.buffer, newHead))])
  }

  function ThiefApply(s: State, id: nat): State
    requires |s.buffer| > 0
  {
    match ThiefAt(s, id)
    case Away => s
    case StealLoadTail => s.(thieves := s.thieves[id := StealLoadHead(s.tail)])
    case StealLoadHead(t) =>
      s.(thieves := s.thieves[id := if s.head - t <= 0 then StealUnlock else StealStoreTail(t)])
    case StealStoreTail(t) => s.(tail := t + 1, thieves := s.thieves[id := StealReloadHead(t)])
    case StealReloadHead(t) =>
      s.(thieves := s.thieves[id := if s.head - t > 0 then StealTake(t) else StealRestoreTail(t)])
    case StealTake(t) =>
      s.(thieves := s.thieves[id := StealUnlock], history := s.history + [Stolen(id, At(s.buffer, t))])
    case StealRestoreTail(t) => s.(tail := t, thieves := s.thieves[id := StealUnlock])
    case StealUnlock => s.(lock := Free, thieves := s.thieves[id := Away])
  }

  function Apply(s: State, a: Action): State
    requires |s.buffer| > 0 && Enabled(s, a)
  {
    match a
    case StartEnqueue(op) => s.(owner := EnqueueLoadTail(op, s.head))
    case StartPop => if s.head - s.tail <= 0 then s else s.(owner := PopStoreHead(s.head))
    case OwnerStep(memory) => OwnerApply(s, memory)
    case LockForSteal(t) => s.(lock := ByThief(t), thieves := s.thieves[t := StealLoadTail])
    case ThiefStep(t) => ThiefApply(s, t)
  }

  // ---------------------------------------------------------------- the sequential deque

  /** A sequential deque after one more event. */
  function After(before: seq<Op>, e: Event): (items: seq<Op>)
    ensures |items| <= |before| + 1
  {
    match e
    case Enqueued(op) => before + [op]
    case Popped(_) => if before == [] then [] else before[..|before| - 1]
    case Stolen(_, _) => if before == [] then [] else before[1..]
  }

  /** A pop returns the newest item of a sequential deque, a steal the oldest. */
  predicate MayFollow(before: seq<Op>, e: Event)
  {
    match e
    case Enqueued(_) => true
    case Popped(op) => before != [] && before[|before| - 1] == op
    case Stolen(_, op) => before != [] && before[0] == op
  }

  /** What is in a sequential deque after `history`. */
  function Replay(history: seq<Event>): (items: seq<Op>)
    ensures |items| <= |history|
  {
    if history == [] then [] else After(Replay(history[..|history| - 1]), history[|history| - 1])
  }

  /** Every event of the history was possible when it happened. */
  predicate Legal(history: seq<Event>)
  {
    history == [] ||
    (var n := |history| - 1; Legal(history[..n]) && MayFollow(Replay(history[..n]), history[n]))
  }

  function EnqueuedOps(history: seq<Event>): multiset<Op>
  {
    if history == [] then multiset{}
    else
      var rest, e := EnqueuedOps(history[..|history| - 1]), history[|history| - 1];
      if e.Enqueued? then rest + multiset{e.op} else rest
  }

  function ReturnedOps(history: seq<Event>): multiset<Op>
  {
    if history == [] then multiset{}
    else
      var rest, e := ReturnedOps(history[..|history| - 1]), history[|history| - 1];
      if e.Enqueued? then rest else rest + multiset{e.op}
  }

  /** In a legal history nothing is lost and nothing is handed out twice. */
  lemma {:induction false} LegalHistoriesConserve(history: seq<Event>)
    requires Legal(history)
    ensures EnqueuedOps(history) == ReturnedOps(history) + multiset(Replay(history))
  {
    if history != [] {
      var n := |history| - 1;
      hide After, MayFollow;
      LegalHistoriesConserve(history[..n]);
      EventConserves(Replay(history[..n]), history[n]);
    }
  }

  lemma EventConserves(before: seq<Op>, e: Event)
    requires MayFollow(before, e)
    ensures var after := After(before, e);
            if e.Enqueued? then multiset(after) == multiset(before) + multiset{e.op}
            else multiset(before) == multiset(after) + multiset{e.op}
  {
    var after := After(before, e);
    match e {
      case Enqueued(op) => assert after == before + [op];
      case Popped(op) => assert before == after + [op];
      case Stolen(_, op) => assert before == [op] + after;
    }
  }

  // ---------------------------------------------------------------- the invariant

  /** The thief inside the critical section, if there is one. */
  function Robber(s: State): Thief
  {
    if s.lock.ByThief? then ThiefAt(s, s.lock.thief) else Away
  }

  predicate Speculating(r: Thief)
  {
    r.StealReloadHead? || r.StealTake? || r.StealRestoreTail?
  }

  predicate PopPending(o: Owner)
  {
    o.PopLoadTail? || o.PopLock? || o.PopReloadTail? || o.PopRestoreHead? || o.PopUnlockTake? || o.PopTake?
  }

  predicate OwnerHoldsLock(o: Owner)
  {
    o.GrowLoadTail? || o.GrowCopy? || o.GrowStoreHead? || o.GrowSwap? || o.GrowUnlock?
    || o.PopReloadTail? || o.PopRestoreHead? || o.PopUnlockEmpty? || o.PopUnlockTake?
  }

  /** The oldest position whose item has not been handed out: a speculative increment of the tail
      does not count until the thief has read the slot. */
  function Oldest(s: State): int
  {
    if Speculating(Robber(s)) then Robber(s).t else s.tail
  }

  /** One past the newest such position: likewise for the owner's speculative decrement. */
  function End(s: State): int
  {
    if PopPending(s.owner) then s.owner.newHead + 1 else s.head
  }

  /** The buffer that holds the items: after a growth has published its head, the one not yet swapped in. */
  function Ring(s: State): seq<Op>
  {
    if s.owner.GrowSwap? then s.owner.grown else s.buffer
  }

  function Span(ring: seq<Op>, lo: int, hi: int): (items: seq<Op>)
    requires |ring| > 0 && lo <= hi
    ensures |items| == hi - lo
    ensures forall k :: 0 <= k < hi - lo ==> items[k] == At(ring, lo + k)
  {
    seq(hi - lo, k requires 0 <= k < hi - lo => At(ring, lo + k))
  }

  function Items(s: State): seq<Op>
    requires |Ring(s)| > 0 && Oldest(s) <= End(s)
  {
    Span(Ring(s), Oldest(s), End(s))
  }

  ghost predicate Shape(s: State)
  {
    && 2 <= |s.buffer| <= ADDRESSABLE && IsPowerOfTwo(|s.buffer|)
    && (OwnerHoldsLock(s.owner) <==> s.lock.ByOwner?)
    && (forall t: nat :: s.lock == ByThief(t) <==> !ThiefAt(s, t).Away?)
    && 0 <= Oldest(s) <= End(s) <= Oldest(s) + |s.buffer| + (if s.owner.GrowSwap? then 1 else 0)
  }

  ghost predicate RobberOk(s: State)
  {
    match Robber(s)
    case Away => true
    case StealLoadTail => true
    case StealLoadHead(t) => s.tail == t
    case StealStoreTail(t) => s.tail == t
    case StealReloadHead(t) => s.tail == t + 1
    case StealTake(t) =>
      s.tail == t + 1 && t < End(s) && (s.head > t || (s.head == t && (s.owner.PopLoadTail? || s.owner.PopLock?)))
    case StealRestoreTail(t) => s.tail == t + 1
    case StealUnlock => true
  }

  ghost predicate OwnerOk(s: State)
    requires Shape(s)
  {
    match s.owner
    case Idle => true
    case EnqueueLoadTail(_, h) => s.head == h
    case EnqueueStoreSlot(_, h) => s.head == h && h - Oldest(s) < |s.buffer|
    case EnqueueStoreHead(op, h) => s.head == h && h - Oldest(s) < |s.buffer| && At(s.buffer, h) == op
    case GrowTryLock(_, h, block) => s.head == h && |block| == 2 * |s.buffer| <= ADDRESSABLE
    case GrowLoadTail(_, h, block) => s.head == h && |block| == 2 * |s.buffer| <= ADDRESSABLE
    case GrowCopy(_, h, block, t) => s.head == h && s.tail == t && |block| == 2 * |s.buffer| <= ADDRESSABLE
    case GrowStoreHead(op, h, grown) =>
      && s.head == h && |grown| == 2 * |s.buffer| <= ADDRESSABLE
      && Span(grown, Oldest(s), h + 1) == Span(s.buffer, Oldest(s), h) + [op]
    case GrowSwap(op, h, grown) => s.head == h + 1 && |grown| == 2 * |s.buffer| <= ADDRESSABLE
    case GrowUnlock => true
    case PopStoreHead(h) => s.head == h
    case PopLoadTail(newHead) => s.head == newHead
    case PopLock(newHead) => s.head == newHead
    case PopReloadTail(newHead) => s.head == newHead
    case PopRestoreHead(newHead) => s.head == newHead && s.tail == newHead + 1
    case PopUnlockEmpty => true
    case PopUnlockTake(newHead) => s.head == newHead && Oldest(s) <= newHead
    case PopTake(newHead) => s.head == newHead && Oldest(s) <= newHead
  }

  ghost predicate Safe(s: State)
  {
    Shape(s) && RobberOk(s) && OwnerOk(s)
  }

  /** Linearizability: the history is one of a sequential deque, and the live slots hold its contents. */
  ghost predicate Linearized(s: State)
    requires Safe(s)
  {
    Legal(s.history) && Items(s) == Replay(s.history)
  }

  ghost predicate Inv(s: State)
  {
    Safe(s) && Linearized(s)
  }

  lemma InitInv()
    ensures Inv(Init())
  {
    assert IsPowerOfTwo(256) by {
      assert IsPowerOfTwo(4);
      assert IsPowerOfTwo(16);
      assert IsPowerOfTwo(64);
    }
  }

  /** Writing one position leaves every other position less than a ring away as it was. */
  lemma PutKeeps(buffer: seq<Op>, x: int, op: Op, y: int)
    requires |buffer| > 0 && 0 - |buffer| < x - y < |buffer|
    ensures At(Put(buffer, x, op), y) == if x == y then op else At(buffer, y)
  {
    SlotsNearbyDiffer(x, y, |buffer|);
  }

  lemma PutKeepsSpan(buffer: seq<Op>, lo: int, hi: int, op: Op)
    requires |buffer| > 0 && lo <= hi < lo + |buffer|
    ensures Span(Put(buffer, hi, op), lo, hi) == Span(buffer, lo, hi)
    ensures Span(Put(buffer, hi, op), lo, hi + 1) == Span(buffer, lo, hi) + [op]
  {
    forall y | lo <= y <= hi
      ensures At(Put(buffer, hi, op), y) == if y == hi then op else At(buffer, y)
    {
      PutKeeps(buffer, hi, op, y);
    }
  }

  lemma {:induction false} CopyIntoSpan(source: seq<Op>, grown: seq<Op>, lo: int, hi: int)
    requires |source| > 0 && lo <= hi <= lo + |grown|
    requires |grown| > 0
    ensures Span(CopyInto(source, grown, lo, hi), lo, hi) == Span(source, lo, hi)
    decreases hi - lo
  {
    if lo < hi {
      CopyIntoSpan(source, grown, lo, hi - 1);
      PutKeepsSpan(CopyInto(source, grown, lo, hi - 1), lo, hi - 1, At(source, hi - 1));
    }
  }

  /** Growing keeps the items in order and adds the new one at the end. */
  lemma GrownSpan(source: seq<Op>, block: seq<Op>, lo: int, hi: int, op: Op)
    requires |source| > 0 && lo <= hi <= lo + |source| && |block| == 2 * |source|
    ensures Span(Grown(source, block, lo, hi, op), lo, hi + 1) == Span(source, lo, hi) + [op]
  {
    CopyIntoSpan(source, block, lo, hi);
    PutKeepsSpan(CopyInto(source, block, lo, hi), lo, hi, op);
  }

  /** The only ways in which one atomic step can change the deque. */
  ghost predicate DequeStep(s: State, s': State)
    requires Safe(s) && Safe(s')
  {
    var items, items', n := Items(s), Items(s'), |s.history|;
    || (s'.history == s.history && items' == items)
    || (|s'.history| == n + 1 && s'.history[..n] == s.history &&
        match s'.history[n]
        case Enqueued(op) => items' == items + [op]
        case Popped(op) => items == items' + [op]
        case Stolen(_, op) => items == [op] + items')
  }

  lemma DequeStepLinearizes(s: State, s': State)
    requires Inv(s) && Safe(s') && DequeStep(s, s')
    ensures Inv(s')
  {
  }

  lemma EnqueueStaysSafe(s: State, memory: seq<Op>)
    requires Safe(s) && Enabled(s, OwnerStep(memory))
    requires s.owner.EnqueueLoadTail? || s.owner.EnqueueStoreSlot? || s.owner.EnqueueStoreHead?
    ensures Safe(OwnerApply(s, memory))
  {
    var s' := OwnerApply(s, memory);
    assert forall t: nat :: ThiefAt(s', t) == ThiefAt(s, t);
    if s.owner.EnqueueStoreSlot? {
      PutKeeps(s.buffer, s.owner.h, s.owner.op, s.owner.h);
    }
  }

  lemma GrowStaysSafe(s: State, memory: seq<Op>)
    requires Safe(s) && Enabled(s, OwnerStep(memory))
    requires s.owner.GrowTryLock? || s.owner.GrowLoadTail? || s.owner.GrowCopy? || s.owner.GrowStoreHead?
             || s.owner.GrowSwap? || s.owner.GrowUnlock?
    ensures Safe(OwnerApply(s, memory))
  {
    var s' := OwnerApply(s, memory);
    assert forall t: nat :: ThiefAt(s', t) == ThiefAt(s, t);
    if s.owner.GrowCopy? {
      GrownSpan(s.buffer, s.owner.block, s.tail, s.owner.h, s.owner.op);
    }
    if s.owner.GrowSwap? {
      assert |s.owner.grown| / 2 == |s.buffer|;
    }
  }

  lemma PopStaysSafe(s: State, memory: seq<Op>)
    requires Safe(s) && Enabled(s, OwnerStep(memory))
    requires s.owner.PopStoreHead? || PopPending(s.owner) || s.owner.PopUnlockEmpty?
    ensures Safe(OwnerApply(s, memory))
  {
    hide IsPowerOfTwo, Span, At, Grown;
    var s' := OwnerApply(s, memory);
    assert forall t: nat :: ThiefAt(s', t) == ThiefAt(s, t);
  }

  lemma OwnerStepsDeque(s: State, memory: seq<Op>)
    requires Safe(s) && Enabled(s, OwnerStep(memory)) && Safe(OwnerApply(s, memory))
    ensures DequeStep(s, OwnerApply(s, memory))
  {
    var s' := OwnerApply(s, memory);
    if s.owner.EnqueueStoreSlot? {
      PutKeepsSpan(s.buffer, Oldest(s), s.owner.h, s.owner.op);
    } else if s.owner.EnqueueStoreHead? || s.owner.GrowStoreHead? || s.owner.PopTake? {
      OwnerEvents(s, memory);
    } else {
      OwnerIsQuiet(s, memory);
      SameDeque(s, s');
    }
  }

  /** The owner's steps that an observer sees. */
  lemma OwnerEvents(s: State, memory: seq<Op>)
    requires Safe(s) && Safe(OwnerApply(s, memory)) && (s.owner.EnqueueStoreHead? || s.owner.GrowStoreHead? || s.owner.PopTake?)
    ensures DequeStep(s, OwnerApply(s, memory))
  {
    hide IsPowerOfTwo, Grown, Slot;
    var s' := OwnerApply(s, memory);
    if s.owner.PopTake? {
      assert Items(s) == Items(s') + [At(s.buffer, s.owner.newHead)];
    } else {
      assert Items(s') == Items(s) + [s.owner.op];
    }
  }

  lemma OwnerIsQuiet(s: State, memory: seq<Op>)
    requires Enabled(s, OwnerStep(memory))
    requires Safe(s) && !s.owner.EnqueueStoreSlot? && !s.owner.EnqueueStoreHead? && !s.owner.GrowStoreHead? && !s.owner.PopTake?
    ensures var s' := OwnerApply(s, memory);
            Oldest(s') == Oldest(s) && End(s') == End(s) && Ring(s') == Ring(s) && s'.history == s.history
  {
    hide IsPowerOfTwo, Grown, Slot;
  }

  lemma SameDeque(s: State, s': State)
    requires Safe(s) && Safe(s')
    requires Oldest(s') == Oldest(s) && End(s') == End(s) && Ring(s') == Ring(s) && s'.history == s.history
    ensures DequeStep(s, s')
  {
  }

  lemma ThiefStaysSafe(s: State, id: nat)
    requires Safe(s) && Enabled(s, ThiefStep(id))
    ensures Safe(ThiefApply(s, id))
  {
    hide IsPowerOfTwo, Span, At, Grown;
    var s' := ThiefApply(s, id);
    assert s.lock == ByThief(id);
    ThiefKeepsLock(s, id);
    if ThiefAt(s, id).StealUnlock? {
      assert Oldest(s') == Oldest(s) == s.tail;
    }
  }

  lemma ThiefKeepsLock(s: State, id: nat)
    requires Shape(s) && s.lock == ByThief(id)
    ensures forall t: nat :: ThiefApply(s, id).lock == ByThief(t) <==> !ThiefAt(ThiefApply(s, id), t).Away?
  {
    hide IsPowerOfTwo;
    var s' := ThiefApply(s, id);
    forall t: nat
      ensures s'.lock == ByThief(t) <==> !ThiefAt(s', t).Away?
    {
      assert s.lock == ByThief(t) <==> !ThiefAt(s, t).Away?;
    }
  }

  lemma ThiefStepsDeque(s: State, id: nat)
    requires Safe(s) && Enabled(s, ThiefStep(id)) && Safe(ThiefApply(s, id))
    ensures DequeStep(s, ThiefApply(s, id))
  {
    var s' := ThiefApply(s, id);
    assert s.lock == ByThief(id);
    if ThiefAt(s, id).StealTake? {
      assert Items(s) == [At(s.buffer, ThiefAt(s, id).t)] + Items(s');
    } else {
      assert Oldest(s') == Oldest(s) && End(s') == End(s) && Ring(s') == Ring(s);
    }
  }

  lemma StartStaysSafe(s: State, a: Action)
    requires Safe(s) && Enabled(s, a) && (a.StartEnqueue? || a.StartPop? || a.LockForSteal?)
    ensures Safe(Apply(s, a)) && DequeStep(s, Apply(s, a))
  {
    var s' := Apply(s, a);
    forall t: nat
      ensures s'.lock == ByThief(t) <==> !ThiefAt(s', t).Away?
    {
      assert s.lock == ByThief(t) <==> !ThiefAt(s, t).Away?;
    }
    assert Oldest(s') == Oldest(s) && End(s') == End(s) && Ring(s') == Ring(s);
  }

  /** Every atomic step keeps the invariant and changes the deque in one of the four legal ways. */
  lemma StepKeepsInv(s: State, a: Action)
    requires Inv(s) && Enabled(s, a)
    ensures Inv(Apply(s, a)) && DequeStep(s, Apply(s, a))
  {
    match a {
      case OwnerStep(memory) =>
        if s.owner.PopStoreHead? || PopPending(s.owner) || s.owner.PopUnlockEmpty? {
          PopStaysSafe(s, memory);
        } else if s.owner.EnqueueLoadTail? || s.owner.EnqueueStoreSlot? || s.owner.EnqueueStoreHead? {
          EnqueueStaysSafe(s, memory);
        } else {
          GrowStaysSafe(s, memory);
        }
        OwnerStepsDeque(s, memory);
      case ThiefStep(id) =>
        ThiefStaysSafe(s, id);
        ThiefStepsDeque(s, id);
      case _ =>
        StartStaysSafe(s, a);
    }
    DequeStepLinearizes(s, Apply(s, a));
  }

  /** What a pop takes away. */
  ghost predicate NewestGone(s: State, s': State, op: Op)
    requires Inv(s) && Inv(s')
  {
    Items(s) == Items(s') + [op]
  }

  /** What a steal takes away. */
  ghost predicate OldestGone(s: State, s': State, op: Op)
    requires Inv(s) && Inv(s')
  {
    Items(s) == [op] + Items(s')
  }

  lemma PopTakesNewest(s: State)
    requires Inv(s) && s.owner.PopTake?
    ensures var s' := Apply(s, OwnerStep([])); Inv(s') && NewestGone(s, s', At(s.buffer, s.owner.newHead))
  {
    StepKeepsInv(s, OwnerStep([]));
  }

  lemma StealTakesOldest(s: State, thief: nat)
    requires Inv(s) && ThiefAt(s, thief).StealTake?
    ensures var s' := Apply(s, ThiefStep(thief)); Inv(s') && OldestGone(s, s', At(s.buffer, ThiefAt(s, thief).t))
  {
    StepKeepsInv(s, ThiefStep(thief));
    assert s.lock == ByThief(thief);
  }

  // ---------------------------------------------------------------- whole runs

  ghost predicate Reaches(s: State, run: seq<Action>, s': State)
    decreases |run|
  {
    if run == [] then s == s'
    else |s.buffer| > 0 && Enabled(s, run[0]) && Reaches(Apply(s, run[0]), run[1..], s')
  }

  lemma {:induction false} RunsKeepInv(s: State, run: seq<Action>, s': State)
    requires Inv(s) && Reaches(s, run, s')
    ensures Inv(s')
    decreases |run|
  {
    if run != [] {
      StepKeepsInv(s, run[0]);
      RunsKeepInv(Apply(s, run[0]), run[1..], s');
    }
  }

  /** Every interleaving of the owner with any number of thieves behaves like a sequential deque, and
      every operation ever enqueued was handed out exactly once or is still in a live slot. */
  lemma EveryRunIsLinearizable(run: seq<Action>, s: State)
    requires Reaches(Init(), run, s)
    ensures Inv(s) && Items(s) == Replay(s.history) && Legal(s.history)
    ensures EnqueuedOps(s.history) == ReturnedOps(s.history) + multiset(Items(s))
  {
    InitInv();
    RunsKeepInv(Init(), run, s);
    LegalHistoriesConserve(s.history);
  }

  // ---------------------------------------------------------------- emptiness

  /** A thief is past the point of no return with the oldest item: no step of the owner can make it back off. */
  predicate Bound(s: State)
  {
    var r := Robber(s);
    || r.StealTake?
    || (r.StealReloadHead? && s.head > r.t && !(s.owner.PopStoreHead? && s.owner.h == r.t + 1))
  }

  /** The locked check of `try_local_pop` reports emptiness only when nothing is left. */
  lemma LockedCheckIsTruthful(s: State)
    requires Inv(s) && s.owner.PopReloadTail? && s.owner.newHead - s.tail < 0
    ensures Items(s) == []
  {
  }

  /** The cheap check is truthful - nothing is left, or only an item already bound to a thief - exactly
      when no thief is about to put the tail back onto the owner's head. */
  lemma CheapCheckIsTruthfulIff(s: State)
    requires Inv(s) && s.owner.Idle? && s.head - s.tail <= 0
    ensures (Items(s) == [] || (|Items(s)| == 1 && Bound(s)))
            <==> !(Robber(s).StealRestoreTail? && s.head == s.tail)
  {
  }

  /** What the owner can rely on without looking at the thieves: with the lock free an empty-looking deque is
      empty; and whenever the tail is ahead of the head nothing is left, or only what a thief is bound to. */
  lemma CheapCheckIsTruthfulWhenFree(s: State)
    requires Inv(s) && s.owner.Idle? && s.head - s.tail <= 0
    ensures s.lock.Free? ==> Items(s) == []
    ensures s.head - s.tail < 0 ==> Items(s) == [] || (|Items(s)| == 1 && Bound(s))
  {
  }

  lemma {:induction false} ReachesOneMore(s: State, run: seq<Action>, mid: State, a: Action)
    requires Reaches(s, run, mid) && |mid.buffer| > 0 && Enabled(mid, a)
    ensures Reaches(s, run + [a], Apply(mid, a))
    decreases |run|
  {
    if run == [] {
      assert (run + [a])[1..] == [];
    } else {
      assert (run + [a])[1..] == run[1..] + [a];
      ReachesOneMore(Apply(s, run[0]), run[1..], mid, a);
    }
  }

  lemma {:induction false} ReachesTogether(s: State, run: seq<Action>, mid: State, run': seq<Action>, s': State)
    requires Reaches(s, run, mid) && Reaches(mid, run', s')
    ensures Reaches(s, run + run', s')
    decreases |run|
  {
    if run == [] {
      assert run + run' == run';
    } else {
      assert (run + run')[1..] == run[1..] + run';
      ReachesTogether(Apply(s, run[0]), run[1..], mid, run', s');
    }
  }

  /** An uncontended enqueue while the buffer has room. */
  lemma EnqueueRuns(s: State, op: Op) returns (run: seq<Action>, s': State)
    requires |s.buffer| > 1 && s.owner.Idle? && s.head - s.tail < |s.buffer| - 1
    ensures Reaches(s, run, s')
    ensures s' == s.(head := s.head + 1, buffer := Put(s.buffer, s.head, op), history := s.history + [Enqueued(op)])
  {
    var step := OwnerStep([]);
    var s1 := Apply(s, StartEnqueue(op));
    var s2 := Apply(s1, step);
    var s3 := Apply(s2, step);
    s' := Apply(s3, step);
    run := [StartEnqueue(op), step, step, step];
    assert Reaches(s3, [step], s');
    assert run[3..] == [step] && run[2..][1..] == run[3..] && run[1..][1..] == run[2..];
    assert Reaches(s2, run[2..], s');
    assert Reaches(s1, run[1..], s');
  }

  /** A thief that gives up after the owner has taken the last item, stopped before it restores the tail. */
  lemma ContestedPopRuns(s: State, thief: nat) returns (run: seq<Action>, s': State)
    requires |s.buffer| > 0 && s.owner.Idle? && s.lock.Free? && ThiefAt(s, thief).Away? && s.head == s.tail + 1
    ensures Reaches(s, run, s')
    ensures s' == s.(head := s.tail, tail := s.tail + 1, lock := ByThief(thief),
                     thieves := s.thieves[thief := StealRestoreTail(s.tail)],
                     history := s.history + [Popped(At(s.buffer, s.tail))])
  {
    var lock, steal, pop := LockForSteal(thief), ThiefStep(thief), OwnerStep([]);
    run := [];
    s' := s;
    ReachesOneMore(s, run, s', lock);
    run, s' := run + [lock], Apply(s', lock);
    ReachesOneMore(s, run, s', steal);
    run, s' := run + [steal], Apply(s', steal);
    ReachesOneMore(s, run, s', steal);
    run, s' := run + [steal], Apply(s', steal);
    assert s' == s.(lock := ByThief(thief), thieves := s.thieves[thief := StealStoreTail(s.tail)]);
    ReachesOneMore(s, run, s', StartPop);
    run, s' := run + [StartPop], Apply(s', StartPop);
    ReachesOneMore(s, run, s', pop);
    run, s' := run + [pop], Apply(s', pop);
    ReachesOneMore(s, run, s', pop);
    run, s' := run + [pop], Apply(s', pop);
    ReachesOneMore(s, run, s', pop);
    run, s' := run + [pop], Apply(s', pop);
    ReachesOneMore(s, run, s', steal);
    run, s' := run + [steal], Apply(s', steal);
    ReachesOneMore(s, run, s', steal);
    run, s' := run + [steal], Apply(s', steal);
    assert s'.thieves == s.thieves[thief := StealRestoreTail(s.tail)];
  }

  /** The cheap check can be wrong: here the owner alone holds work, no thief will take it, and
      `try_local_pop` still reports an empty queue. */
  lemma CheapCheckCanMissWork() returns (run: seq<Action>, s: State)
    ensures Reaches(Init(), run, s) && Inv(s)
    ensures s.owner.Idle? && Apply(s, StartPop) == s
    ensures Items(s) == [8] && !Bound(s)
  {
    var run1, s1 := EnqueueRuns(Init(), 7);
    var run2, s2 := ContestedPopRuns(s1, 0);
    var run3, s3 := EnqueueRuns(s2, 8);
    ReachesTogether(Init(), run1, s1, run2, s2);
    ReachesTogether(Init(), run1 + run2, s2, run3, s3);
    run, s := run1 + run2 + run3, s3;
    EveryRunIsLinearizable(run, s);
    assert Slot(0, INITIAL_SIZE) == 0;
  }

  /** No step but the bound thief's own last one unbinds it. */
  lemma BoundPersists(s: State, a: Action)
    requires Safe(s) && Bound(s) && Enabled(s, a) && Safe(Apply(s, a))
    requires !(Robber(s).StealTake? && a == ThiefStep(s.lock.thief))
    ensures var s' := Apply(s, a);
            Bound(s') && s'.lock == s.lock && Oldest(s') == Oldest(s) < End(s')
  {
    assert forall t: nat :: s.lock == ByThief(t) <==> !ThiefAt(s, t).Away?;
  }

  /** Once bound, the oldest item stays bound to the same thief until exactly that thief returns it. */
  lemma BoundStaysBound(s: State, a: Action)
    requires Inv(s) && Bound(s) && Enabled(s, a)
    ensures Inv(Apply(s, a)) && Items(s) != []
    ensures var s' := Apply(s, a);
            || (Bound(s') && s'.lock == s.lock && s.history <= s'.history
                && Items(s') != [] && Items(s')[0] == Items(s)[0])
            || s'.history == s.history + [Stolen(s.lock.thief, Items(s)[0])]
  {
    StepKeepsInv(s, a);
    if Robber(s).StealTake? && a == ThiefStep(s.lock.thief) {
      assert Items(s)[0] == At(s.buffer, Robber(s).t);
    } else {
      BoundPersists(s, a);
    }
  }

  /** The item a truthful null pop left behind: in every continuation, the thief still holds it or has
      returned it. */
  lemma {:induction false} BoundItemIsServed(s: State, run: seq<Action>, s': State)
    requires Inv(s) && Bound(s) && Items(s) != [] && Reaches(s, run, s')
    ensures Inv(s') && s.history <= s'.history
    ensures || (Bound(s') && s'.lock == s.lock && Items(s') != [] && Items(s')[0] == Items(s)[0])
            || Stolen(s.lock.thief, Items(s)[0]) in s'.history[|s.history|..]
    decreases |run|
  {
    if run != [] {
      var mid := Apply(s, run[0]);
      BoundStaysBound(s, run[0]);
      if mid.history == s.history + [Stolen(s.lock.thief, Items(s)[0])] {
        HistoryGrows(mid, run[1..], s');
        assert s'.history[|s.history|] == Stolen(s.lock.thief, Items(s)[0]);
      } else {
        BoundItemIsServed(mid, run[1..], s');
        assert s'.history[|mid.history|..] == s'.history[|s.history|..][|mid.history| - |s.history|..];
      }
    }
  }

  lemma {:induction false} HistoryGrows(s: State, run: seq<Action>, s': State)
    requires Inv(s) && Reaches(s, run, s')
    ensures Inv(s') && s.history <= s'.history
    decreases |run|
  {
    if run != [] {
      StepKeepsInv(s, run[0]);
      HistoryGrows(Apply(s, run[0]), run[1..], s');
    }
  }

  /** The one-megabyte cap compares a mask with a power of two, so it never stops a growth. */
  lemma SizeCapIsNeverHit(s: State)
    requires Inv(s)
    ensures |s.buffer| - 1 != MAX_LOCAL_QUEUE_SIZE
  {
    assert MAX_LOCAL_QUEUE_SIZE % 2 == 0;
    assert |s.buffer| % 2 == 0;
  }

  // ---------------------------------------------------------------- what happens between the steps of a call

  ghost predicate NothingLeft(s: State)
  {
    Inv(s) && Items(s) == []
  }

  /** The owner's second look at the tail: it takes the decrement back exactly when nothing is left. */
  lemma RacedIffEmpty(s: State)
    requires Inv(s) && s.owner.PopReloadTail?
    ensures var s' := Apply(s, OwnerStep([])); (s'.owner.PopRestoreHead? <==> NothingLeft(s)) && SameItems(s, s')
  {
    QuietStep(s, OwnerStep([]));
    assert !(exists t: nat :: s.lock == ByThief(t));
  }

  lemma NothingIsSame(s: State, s': State)
    requires SameItems(s, s')
    ensures NothingLeft(s) <==> NothingLeft(s')
  {
  }

  predicate IsSuffix(a: seq<Op>, b: seq<Op>)
  {
    |a| <= |b| && a == b[|b| - |a|..]
  }

  ghost predicate SameItems(s: State, s': State)
  {
    Inv(s) && Inv(s') && Items(s') == Items(s)
  }

  /** At most the operations at the old end have gone. */
  ghost predicate OnlyOldestGone(s: State, s': State)
  {
    Inv(s) && Inv(s') && IsSuffix(Items(s'), Items(s))
  }

  /** The newest operation has been taken, and otherwise at most those at the old end. */
  ghost predicate NewestTaken(s: State, s': State, op: Op)
  {
    Inv(s) && Inv(s') && IsSuffix(Items(s') + [op], Items(s))
  }

  /** An operation is now the newest, and otherwise at most those at the old end have gone. */
  ghost predicate NewestAdded(s: State, s': State, op: Op)
  {
    Inv(s) && Inv(s') && Items(s') != [] && IsSuffix(Items(s'), Items(s) + [op])
  }

  /** The slots are not all in use but one. */
  ghost predicate HasSpace(s: State)
  {
    Inv(s) && |Items(s)| < |s.buffer| - 1
  }

  lemma QuietStep(s: State, a: Action)
    requires Inv(s) && Enabled(s, a) && Apply(s, a).history == s.history
    ensures SameItems(s, Apply(s, a))
  {
    StepKeepsInv(s, a);
  }

  lemma GoneTogether(s: State, mid: State, s': State)
    requires OnlyOldestGone(s, mid) && (OnlyOldestGone(mid, s') || SameItems(mid, s'))
    ensures OnlyOldestGone(s, s')
  {
  }

  lemma NothingGone(s: State)
    requires Inv(s)
    ensures OnlyOldestGone(s, s) && SameItems(s, s)
  {
  }

  lemma TakenAfter(s: State, mid: State, s': State, op: Op)
    requires OnlyOldestGone(s, mid) && Inv(s') && NewestGone(mid, s', op)
    ensures NewestTaken(s, s', op)
  {
  }

  lemma AddedAfter(s: State, mid: State, s': State, op: Op)
    requires OnlyOldestGone(s, mid) && (mid.owner.EnqueueStoreHead? || mid.owner.GrowStoreHead?) && op == mid.owner.op
    requires s' == Apply(mid, OwnerStep([]))
    ensures NewestAdded(s, s', op)
  {
    hide Safe, Linearized, Items;
    StepKeepsInv(mid, OwnerStep([]));
    assert s'.history[|mid.history|] == Enqueued(op);
  }

  lemma StaysAdded(s: State, mid: State, s': State, op: Op)
    requires NewestAdded(s, mid, op) && SameItems(mid, s')
    ensures NewestAdded(s, s', op)
  {
  }

  /** Nothing has changed but that the oldest operation, if any, has been taken. */
  ghost predicate MayBeStolen(s: State, s': State, op: seq<Op>)
  {
    if op == [] then SameItems(s, s') else Inv(s) && Inv(s') && OldestGone(s, s', op[0])
  }

  lemma StolenAfter(s: State, mid: State, s': State, op: Op)
    requires SameItems(s, mid) && Inv(mid) && Inv(s') && OldestGone(mid, s', op)
    ensures MayBeStolen(s, s', [op])
  {
  }

  lemma StaysStolen(s: State, mid: State, s': State, op: seq<Op>)
    requires (if op == [] then SameItems(s, mid) else MayBeStolen(s, mid, op)) && SameItems(mid, s')
    ensures MayBeStolen(s, s', op)
  {
  }

  lemma SameTogether(s: State, mid: State, s': State)
    requires SameItems(s, mid) && SameItems(mid, s')
    ensures SameItems(s, s')
  {
  }

  /** With space at the start of an enqueue there is room when the owner looks, whatever the thieves have done. */
  lemma SpaceIsRoom(s: State, mid: State)
    requires HasSpace(s) && OnlyOldestGone(s, mid) && mid.buffer == s.buffer && mid.owner.EnqueueLoadTail?
    ensures mid.owner.h - mid.tail < |mid.buffer| - 1
  {
  }

  /** What the owner has done. */
  function OwnEvents(history: seq<Event>): seq<Event>
  {
    if history == [] then []
    else
      var n := |history| - 1;
      OwnEvents(history[..n]) + (if history[n].Stolen? then [] else [history[n]])
  }

  /** What one thief has taken. */
  function StolenBy(thief: nat, history: seq<Event>): seq<Op>
  {
    if history == [] then []
    else
      var n := |history| - 1;
      StolenBy(thief, history[..n])
      + (if history[n].Stolen? && history[n].thief == thief then [history[n].op] else [])
  }

  predicate IsThieves(a: Action)
  {
    a.LockForSteal? || a.ThiefStep?
  }

  predicate IsOf(thief: nat, a: Action)
  {
    IsThieves(a) && a.thief == thief
  }

  /** Thieves have done any number of steps, and the owner none. */
  ghost predicate ThievesRan(s: State, s': State)
  {
    exists run: seq<Action> :: Reaches(s, run, s') && forall i :: 0 <= i < |run| ==> IsThieves(run[i])
  }

  /** Everybody but one thief has done any number of steps. */
  ghost predicate OthersRan(thief: nat, s: State, s': State)
  {
    exists run: seq<Action> :: Reaches(s, run, s') && forall i :: 0 <= i < |run| ==> !IsOf(thief, run[i])
  }

  lemma NobodyRan(s: State, thief: nat)
    ensures ThievesRan(s, s) && OthersRan(thief, s, s)
  {
    assert Reaches(s, [], s);
  }

  /** Thieves leave the owner where it is, and put nothing into the deque. */
  lemma ThievesLeaveOwner(s: State, s': State)
    requires Inv(s) && ThievesRan(s, s')
    ensures Inv(s') && s'.owner == s.owner && s'.head == s.head && s'.buffer == s.buffer
    ensures OwnEvents(s'.history) == OwnEvents(s.history)
    ensures OnlyOldestGone(s, s') && (s.lock.ByOwner? ==> s' == s)
  {
    hide Inv, Reaches;
    var run: seq<Action> :| Reaches(s, run, s') && forall i :: 0 <= i < |run| ==> IsThieves(run[i]);
    ThiefRunsLeaveOwner(s, run, s');
  }

  lemma {:induction false} ThiefRunsLeaveOwner(s: State, run: seq<Action>, s': State)
    requires Inv(s) && Reaches(s, run, s') && forall i :: 0 <= i < |run| ==> IsThieves(run[i])
    ensures Inv(s') && s'.owner == s.owner && s'.head == s.head && s'.buffer == s.buffer
    ensures OwnEvents(s'.history) == OwnEvents(s.history)
    ensures OnlyOldestGone(s, s') && (s.lock.ByOwner? ==> s' == s)
    decreases |run|
  {
    hide Inv, OnlyOldestGone, SameItems;
    if run == [] {
      NothingGone(s);
    } else {
      var mid := Apply(s, run[0]);
      assert IsThieves(run[0]);
      ThiefStepLeavesOwner(s, run[0]);
      assert forall i :: 0 <= i < |run[1..]| ==> run[1..][i] == run[i + 1];
      ThiefRunsLeaveOwner(mid, run[1..], s');
      GoneTogether(s, mid, s');
    }
  }

  lemma ThiefStepLeavesOwner(s: State, a: Action)
    requires Inv(s) && Enabled(s, a) && IsThieves(a)
    ensures var s' := Apply(s, a);
            && Inv(s') && s'.owner == s.owner && s'.head == s.head && s'.buffer == s.buffer
            && OwnEvents(s'.history) == OwnEvents(s.history) && OnlyOldestGone(s, s') && !s.lock.ByOwner?
  {
    StepKeepsInv(s, a);
    var s' := Apply(s, a);
    if s'.history != s.history {
      assert s'.history[..|s.history|] == s.history;
    }
  }

  /** The others leave a thief where it is. */
  lemma OthersLeaveThief(thief: nat, s: State, s': State)
    requires Inv(s) && OthersRan(thief, s, s')
    ensures Inv(s') && ThiefAt(s', thief) == ThiefAt(s, thief) && StolenBy(thief, s'.history) == StolenBy(thief, s.history)
  {
    hide Inv, Reaches;
    var run: seq<Action> :| Reaches(s, run, s') && forall i :: 0 <= i < |run| ==> !IsOf(thief, run[i]);
    OtherRunsLeaveThief(thief, s, run, s');
  }

  lemma {:induction false} OtherRunsLeaveThief(thief: nat, s: State, run: seq<Action>, s': State)
    requires Inv(s) && Reaches(s, run, s') && forall i :: 0 <= i < |run| ==> !IsOf(thief, run[i])
    ensures Inv(s') && ThiefAt(s', thief) == ThiefAt(s, thief) && StolenBy(thief, s'.history) == StolenBy(thief, s.history)
    decreases |run|
  {
    if run != [] {
      var mid := Apply(s, run[0]);
      assert !IsOf(thief, run[0]);
      StepKeepsInv(s, run[0]);
      OtherStepLeavesThief(thief, s, run[0]);
      assert forall i :: 0 <= i < |run[1..]| ==> run[1..][i] == run[i + 1];
      OtherRunsLeaveThief(thief, mid, run[1..], s');
    }
  }

  lemma OtherStepLeavesThief(thief: nat, s: State, a: Action)
    requires Inv(s) && Enabled(s, a) && !IsOf(thief, a)
    ensures var s' := Apply(s, a);
            ThiefAt(s', thief) == ThiefAt(s, thief) && StolenBy(thief, s'.history) == StolenBy(thief, s.history)
  {
    hide OwnerApply, ThiefApply, StolenBy;
    match a {
      case OwnerStep(memory) => OwnerLeavesThief(thief, s, memory);
      case ThiefStep(id) => ThiefLeavesThief(thief, s, id);
      case _ =>
    }
  }

  lemma OwnerLeavesThief(thief: nat, s: State, memory: seq<Op>)
    requires |s.buffer| > 0
    ensures var s' := OwnerApply(s, memory);
            s'.thieves == s.thieves && StolenBy(thief, s'.history) == StolenBy(thief, s.history)
  {
    hide StolenBy;
    var s' := OwnerApply(s, memory);
    if s'.history != s.history {
      OneMoreEvent(s.history, s'.history[|s.history|], thief);
    }
  }

  lemma ThiefLeavesThief(thief: nat, s: State, id: nat)
    requires |s.buffer| > 0 && id != thief
    ensures var s' := ThiefApply(s, id);
            ThiefAt(s', thief) == ThiefAt(s, thief) && StolenBy(thief, s'.history) == StolenBy(thief, s.history)
  {
    hide StolenBy;
    var s' := ThiefApply(s, id);
    if s'.history != s.history {
      OneMoreEvent(s.history, s'.history[|s.history|], thief);
    }
  }

  /** An event at the end of the history. */
  lemma OneMoreEvent(history: seq<Event>, e: Event, thief: nat)
    ensures OwnEvents(history + [e]) == OwnEvents(history) + (if e.Stolen? then [] else [e])
    ensures StolenBy(thief, history + [e])
            == StolenBy(thief, history) + (if e.Stolen? && e.thief == thief then [e.op] else [])
  {
    assert (history + [e])[..|history|] == history;
  }
}
