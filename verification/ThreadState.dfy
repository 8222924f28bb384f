/** `static_thread_pool::thread_state` with the program's own fields and machine arithmetic. Each method is
    one atomic action of `try_local_enqueue`, `try_local_pop` or `try_steal`; what a thread keeps in local
    variables between two actions is passed in and out. Every method is proved to be exactly the step of
    the same name of the unbounded machine in `Deque`, so the results about its runs carry over.
    Whole calls made of these actions follow at the end of the class. */
module ThreadStates {
  import opened Words
  import opened Deque

  /** The outcome of `try_local_pop`, or the point where it has to wait for the lock. */
  datatype PopResult = Nothing | Taken(op: Op) | MustLock(newHead: Word)

  class ThreadState {
    var localQueue: array<Op>
    var mask: Word
    var head: Word
    var tail: Word
    var isLocked: bool
    ghost var s: State

    ghost predicate Valid()
      reads this, localQueue
    {
      && Inv(s)
      && localQueue[..] == s.buffer && mask == localQueue.Length - 1
      && head == Wrap(s.head) && tail == Wrap(s.tail)
      && (isLocked <==> !s.lock.Free?)
    }

    constructor ()
      ensures Valid() && s == Init() && fresh(localQueue)
    {
      localQueue := new Op[INITIAL_SIZE](_ => 0);
      mask, head, tail, isLocked := INITIAL_SIZE - 1, 0, 0, false;
      s := Init();
      new;
      hide *;
      InitInv();
      InitialWords();
      assert localQueue[..] == s.buffer;
      Close();
    }

    static lemma InitialWords()
      ensures var s := Init();
              |s.buffer| == INITIAL_SIZE && (forall i :: 0 <= i < INITIAL_SIZE ==> s.buffer[i] == 0)
              && Wrap(s.head) == 0 && Wrap(s.tail) == 0 && s.lock.Free?
    {
    }

    lemma Close()
      requires Inv(s) && localQueue[..] == s.buffer && mask == localQueue.Length - 1
      requires head == Wrap(s.head) && tail == Wrap(s.tail) && (isLocked <==> !s.lock.Free?)
      ensures Valid()
    {
    }

    /** The signed difference of the two cursors is their true distance, and so is that of a cursor the
        owner remembers. */
    lemma CursorsAreClose(h: int, t: int)
      requires Valid()
      requires End(s) - 1 <= h <= End(s) && Oldest(s) <= t <= Oldest(s) + 1
      ensures Difference(Wrap(h), Wrap(t)) == h - t
    {
      DifferenceOfWraps(h, t);
    }

    lemma MaskedIsSlot(x: int)
      requires Valid()
      ensures BitAnd(Wrap(x), mask) == Slot(x, localQueue.Length)
    {
      SlotOfWrap(x, localQueue.Length);
    }

    // ---------------------------------------------------------------- try_local_enqueue

    method BeginEnqueue(op: Op) returns (h: Word)
      requires Valid() && s.owner.Idle?
      modifies this`s
      ensures Valid() && s == Apply(old(s), StartEnqueue(op))
      ensures h == Wrap(s.owner.h)
      ensures s.owner == Owner.EnqueueLoadTail(op, s.head) && s.history == old(s.history)
      ensures SameItems(old(s), s) && s.buffer == old(s.buffer)
    {
      h := head;
      QuietStep(s, StartEnqueue(op));
      s := Apply(s, StartEnqueue(op));
    }

    /** The room check; without room, the cap check and the allocation, whose outcome is `memory`. */
    method EnqueueLoadTail(h: Word, memory: seq<Op>) returns (hasRoom: bool, memoryUsed: bool)
      requires Valid() && s.owner.EnqueueLoadTail? && h == Wrap(s.owner.h)
      modifies this`s
      ensures Valid() && s == Apply(old(s), OwnerStep(memory))
      ensures hasRoom <==> old(s.owner).h - old(s.tail) < localQueue.Length - 1
      ensures memoryUsed <==> !hasRoom && |memory| == 2 * localQueue.Length <= ADDRESSABLE
      ensures hasRoom <==> s.owner.EnqueueStoreSlot?
      ensures memoryUsed <==> s.owner.GrowTryLock?
      ensures SameItems(old(s), s) && s.buffer == old(s.buffer)
      ensures s.history == old(s.history) && (!hasRoom && !memoryUsed ==> s.owner.Idle?)
      ensures hasRoom ==> s.owner == Owner.EnqueueStoreSlot(old(s.owner).op, old(s.owner).h)
      ensures memoryUsed ==> s.owner == Owner.GrowTryLock(old(s.owner).op, old(s.owner).h, memory) && memory != []
    {
      CursorsAreClose(s.owner.h, s.tail);
      hasRoom := Difference(h, tail) < mask;
      memoryUsed := !hasRoom && mask != MAX_LOCAL_QUEUE_SIZE
        && |memory| == (mask + 1) * 2 && |memory| <= ADDRESSABLE;
      SizeCapIsNeverHit(s);
      QuietStep(s, OwnerStep(memory));
      s := Apply(s, OwnerStep(memory));
    }

    method EnqueueStoreSlot(op: Op, h: Word)
      requires Valid() && s.owner.EnqueueStoreSlot? && op == s.owner.op && h == Wrap(s.owner.h)
      modifies this`s, localQueue
      ensures Valid() && s == Apply(old(s), OwnerStep([]))
      ensures s.owner == EnqueueStoreHead(old(s.owner).op, old(s.owner).h)
      ensures s.history == old(s.history) && SameItems(old(s), s)
    {
      MaskedIsSlot(s.owner.h);
      localQueue[BitAnd(h, mask)] := op;
      QuietStep(s, OwnerStep([]));
      s := Apply(s, OwnerStep([]));
    }

    /** Storing the advanced head, on the fast path and at the end of a growth alike. */
    method StoreAdvancedHead(h: Word)
      requires Valid() && (s.owner.EnqueueStoreHead? || s.owner.GrowStoreHead?) && h == Wrap(s.owner.h)
      modifies this`s, this`head
      ensures Valid() && s == Apply(old(s), OwnerStep([]))
      ensures s.history == old(s.history) + [Enqueued(old(s.owner).op)]
      ensures s.owner == if old(s.owner).EnqueueStoreHead? then Idle else Owner.GrowSwap(old(s.owner).op, old(s.owner).h, old(s.owner).grown)
    {
      hide Inv;
      WrapOfSum(s.owner.h, 1);
      head := Wrap(h + 1);
      StepKeepsInv(s, OwnerStep([]));
      s := Apply(s, OwnerStep([]));
    }

    method GrowTryLock() returns (locked: bool)
      requires Valid() && s.owner.GrowTryLock?
      modifies this`s, this`isLocked
      ensures Valid() && s == Apply(old(s), OwnerStep([]))
      ensures locked <==> s.owner.GrowLoadTail?
      ensures s.history == old(s.history) && SameItems(old(s), s) && (!locked ==> s.owner.Idle? && isLocked)
      ensures locked ==> s.owner == Owner.GrowLoadTail(old(s.owner).op, old(s.owner).h, old(s.owner).block)
    {
      hide Inv, SameItems;
      locked := !isLocked;
      isLocked := true;
      QuietStep(s, OwnerStep([]));
      s := Apply(s, OwnerStep([]));
    }

    method GrowLoadTail() returns (t: Word)
      requires Valid() && s.owner.GrowLoadTail?
      modifies this`s
      ensures Valid() && s == Apply(old(s), OwnerStep([]))
      ensures t == Wrap(s.owner.t)
      ensures s.history == old(s.history) && SameItems(old(s), s)
      ensures s.owner == Owner.GrowCopy(old(s.owner).op, old(s.owner).h, old(s.owner).block, s.owner.t)
    {
      hide Inv, SameItems;
      t := tail;
      QuietStep(s, OwnerStep([]));
      s := Apply(s, OwnerStep([]));
    }

    /** The copy loop: a wrapping position runs from the tail to the head, masked for each of the rings. */
    static method CopyQueue(source: array<Op>, target: array<Op>, t: Word, h: Word, ghost lo: int, ghost hi: int)
      requires source != target && t == Wrap(lo) && h == Wrap(hi) && lo <= hi < lo + SIZE
      requires IsPowerOfTwo(source.Length) && source.Length <= SIZE
      requires IsPowerOfTwo(target.Length) && target.Length <= SIZE
      modifies target
      ensures target[..] == CopyInto(source[..], old(target[..]), lo, hi)
    {
      var i := t;
      ghost var x := lo;
      while i != h
        invariant lo <= x <= hi && i == Wrap(x)
        invariant target[..] == CopyInto(source[..], old(target[..]), lo, x)
        decreases hi - x
      {
        SlotOfWrap(x, source.Length);
        SlotOfWrap(x, target.Length);
        WrapOfSum(x, 1);
        target[BitAnd(i, target.Length - 1)] := source[BitAnd(i, source.Length - 1)];
        i, x := Wrap(i as int + 1), x + 1;
      }
      WrapIsInjectiveNearby(x, hi);
    }

    /** The copy into the new ring, and the store of the new operation. */
    method GrowCopy(op: Op, h: Word, t: Word, newLocalQueue: array<Op>)
      requires Valid() && s.owner.GrowCopy? && s.owner.block != []
      requires op == s.owner.op && h == Wrap(s.owner.h) && t == Wrap(s.owner.t)
      requires newLocalQueue != localQueue && newLocalQueue[..] == s.owner.block
      modifies this`s, newLocalQueue
      ensures Valid() && s == Apply(old(s), OwnerStep([]))
      ensures newLocalQueue[..] == s.owner.grown
      ensures s.history == old(s.history) && SameItems(old(s), s)
      ensures s.owner == GrowStoreHead(old(s.owner).op, old(s.owner).h, newLocalQueue[..])
    {
      assert IsPowerOfTwo(newLocalQueue.Length) by {
        assert newLocalQueue.Length / 2 == localQueue.Length;
      }
      CopyQueue(localQueue, newLocalQueue, t, h, s.owner.t, s.owner.h);
      SlotOfWrap(s.owner.h, newLocalQueue.Length);
      newLocalQueue[BitAnd(h, newLocalQueue.Length - 1)] := op;
      QuietStep(s, OwnerStep([]));
      s := Apply(s, OwnerStep([]));
    }

    method GrowSwap(newLocalQueue: array<Op>)
      requires Valid() && s.owner.GrowSwap? && newLocalQueue[..] == s.owner.grown
      modifies this`s, this`localQueue, this`mask
      ensures Valid() && s == Apply(old(s), OwnerStep([]))
      ensures localQueue == newLocalQueue
      ensures s.history == old(s.history) && SameItems(old(s), s) && s.owner.GrowUnlock?
    {
      localQueue := newLocalQueue;
      mask := newLocalQueue.Length - 1;
      QuietStep(s, OwnerStep([]));
      s := Apply(s, OwnerStep([]));
    }

    /** The end of the owner's critical sections. */
    method OwnerUnlock()
      requires Valid() && (s.owner.GrowUnlock? || s.owner.PopUnlockEmpty? || s.owner.PopUnlockTake?)
      modifies this`s, this`isLocked
      ensures Valid() && s == Apply(old(s), OwnerStep([]))
      ensures s.history == old(s.history) && SameItems(old(s), s)
      ensures s.owner == if old(s.owner).PopUnlockTake? then Owner.PopTake(old(s.owner).newHead) else Idle
    {
      hide Inv, SameItems;
      isLocked := false;
      QuietStep(s, OwnerStep([]));
      s := Apply(s, OwnerStep([]));
    }

    // ---------------------------------------------------------------- try_local_pop

    method BeginPop() returns (empty: bool, newHead: Word)
      requires Valid() && s.owner.Idle?
      modifies this`s
      ensures Valid() && s == Apply(old(s), StartPop)
      ensures empty <==> s.head - s.tail <= 0
      ensures if empty then s == old(s) else s == old(s).(owner := Owner.PopStoreHead(s.head))
      ensures !empty ==> newHead == Wrap(s.owner.h - 1)
      ensures SameItems(old(s), s)
    {
      CursorsAreClose(s.head, s.tail);
      WrapOfSum(s.head, 1);
      empty, newHead := Difference(head, tail) <= 0, Wrap(head - 1);
      QuietStep(s, StartPop);
      s := Apply(s, StartPop);
    }

    method PopStoreHead(newHead: Word)
      requires Valid() && s.owner.PopStoreHead? && newHead == Wrap(s.owner.h - 1)
      modifies this`s, this`head
      ensures Valid() && s == Apply(old(s), OwnerStep([]))
      ensures s.history == old(s.history) && SameItems(old(s), s) && s.owner == Owner.PopLoadTail(old(s.owner).h - 1)
      ensures s.tail == old(s.tail)
    {
      hide Inv, SameItems;
      head := newHead;
      QuietStep(s, OwnerStep([]));
      s := Apply(s, OwnerStep([]));
    }

    /** Both reads of the tail after the speculative decrement: without the lock, and again with it. */
    method PopLoadTail(newHead: Word) returns (raced: bool)
      requires Valid() && (s.owner.PopLoadTail? || s.owner.PopReloadTail?) && newHead == Wrap(s.owner.newHead)
      modifies this`s
      ensures Valid() && s == Apply(old(s), OwnerStep([]))
      ensures raced <==> old(s.owner).newHead < old(s.tail)
      ensures s.history == old(s.history) && SameItems(old(s), s)
      ensures old(s.owner).PopLoadTail? ==> s.owner == if raced then Owner.PopLock(old(s.owner).newHead) else Owner.PopTake(old(s.owner).newHead)
      ensures old(s.owner).PopReloadTail? ==>
                s.owner == if raced then Owner.PopRestoreHead(old(s.owner).newHead) else PopUnlockTake(old(s.owner).newHead)
    {
      CursorsAreClose(s.owner.newHead, s.tail);
      raced := Difference(newHead, tail) < 0;
      QuietStep(s, OwnerStep([]));
      s := Apply(s, OwnerStep([]));
    }

    method PopLock()
      requires Valid() && s.owner.PopLock? && !isLocked
      modifies this`s, this`isLocked
      ensures Valid() && s == Apply(old(s), OwnerStep([]))
      ensures s.history == old(s.history) && SameItems(old(s), s) && s.owner == PopReloadTail(old(s.owner).newHead)
    {
      hide Inv, SameItems;
      isLocked := true;
      QuietStep(s, OwnerStep([]));
      s := Apply(s, OwnerStep([]));
    }

    method PopRestoreHead(h: Word)
      requires Valid() && s.owner.PopRestoreHead? && h == Wrap(s.owner.newHead + 1)
      modifies this`s, this`head
      ensures Valid() && s == Apply(old(s), OwnerStep([]))
      ensures s.history == old(s.history) && SameItems(old(s), s) && s.owner.PopUnlockEmpty?
    {
      hide Inv, SameItems;
      head := h;
      QuietStep(s, OwnerStep([]));
      s := Apply(s, OwnerStep([]));
    }

    /** The operation popped is the newest one of the deque. */
    method PopTake(newHead: Word) returns (op: Op)
      requires Valid() && s.owner.PopTake? && newHead == Wrap(s.owner.newHead)
      modifies this`s
      ensures Valid() && s == Apply(old(s), OwnerStep([]))
      ensures s.history == old(s.history) + [Popped(op)]
      ensures NewestGone(old(s), s, op)
      ensures s.owner.Idle?
    {
      hide Inv, NewestGone;
      MaskedIsSlot(s.owner.newHead);
      op := localQueue[BitAnd(newHead, mask)];
      PopTakesNewest(s);
      s := Apply(s, OwnerStep([]));
    }

    // ---------------------------------------------------------------- try_steal

    method StealLock(thief: nat)
      requires Valid() && ThiefAt(s, thief).Away? && !isLocked
      modifies this`s, this`isLocked
      ensures Valid() && s == Apply(old(s), LockForSteal(thief))
      ensures s.history == old(s.history) && SameItems(old(s), s) && ThiefAt(s, thief) == Thief.StealLoadTail
      ensures s.head == old(s.head) && s.tail == old(s.tail)
    {
      hide Inv, SameItems;
      isLocked := true;
      QuietStep(s, LockForSteal(thief));
      s := Apply(s, LockForSteal(thief));
    }

    method StealLoadTail(thief: nat) returns (t: Word)
      requires Valid() && ThiefAt(s, thief).StealLoadTail?
      modifies this`s
      ensures Valid() && s == Apply(old(s), ThiefStep(thief))
      ensures t == Wrap(ThiefAt(s, thief).t) && ThiefAt(s, thief).t == s.tail == old(s.tail) && s.head == old(s.head)
      ensures s.history == old(s.history) && SameItems(old(s), s) && ThiefAt(s, thief) == Thief.StealLoadHead(ThiefAt(s, thief).t)
    {
      hide Inv, SameItems;
      t := tail;
      QuietStep(s, ThiefStep(thief));
      s := Apply(s, ThiefStep(thief));
    }

    /** Both reads of the head: before the speculative increment, and again after it. */
    method StealLoadHead(thief: nat, t: Word) returns (available: bool)
      requires Valid() && (ThiefAt(s, thief).StealLoadHead? || ThiefAt(s, thief).StealReloadHead?)
      requires t == Wrap(ThiefAt(s, thief).t)
      modifies this`s
      ensures Valid() && s == Apply(old(s), ThiefStep(thief))
      ensures available <==> s.head > old(ThiefAt(s, thief)).t
      ensures s.head == old(s.head)
      ensures s.history == old(s.history) && SameItems(old(s), s)
      ensures old(ThiefAt(s, thief)).StealLoadHead? ==>
                ThiefAt(s, thief) == if available then Thief.StealStoreTail(old(ThiefAt(s, thief)).t) else Thief.StealUnlock
      ensures old(ThiefAt(s, thief)).StealReloadHead? ==>
                ThiefAt(s, thief) == if available then Thief.StealTake(old(ThiefAt(s, thief)).t) else StealRestoreTail(old(ThiefAt(s, thief)).t)
    {
      assert s.lock == ByThief(thief);
      CursorsAreClose(s.head, ThiefAt(s, thief).t);
      available := Difference(head, t) > 0;
      QuietStep(s, ThiefStep(thief));
      s := Apply(s, ThiefStep(thief));
    }

    /** The speculative increment of the tail, or its undoing. */
    method StealStoreTail(thief: nat, t: Word)
      requires Valid()
      requires ThiefAt(s, thief).StealStoreTail? ==> t == Wrap(ThiefAt(s, thief).t + 1)
      requires ThiefAt(s, thief).StealRestoreTail? ==> t == Wrap(ThiefAt(s, thief).t)
      requires ThiefAt(s, thief).StealStoreTail? || ThiefAt(s, thief).StealRestoreTail?
      modifies this`s, this`tail
      ensures Valid() && s == Apply(old(s), ThiefStep(thief))
      ensures s.history == old(s.history) && SameItems(old(s), s)
      ensures s.head == old(s.head)
      ensures ThiefAt(s, thief) == if old(ThiefAt(s, thief)).StealStoreTail? then StealReloadHead(old(ThiefAt(s, thief)).t) else Thief.StealUnlock
    {
      hide Inv, SameItems;
      tail := t;
      QuietStep(s, ThiefStep(thief));
      s := Apply(s, ThiefStep(thief));
    }

    /** The operation stolen is the oldest one of the deque. */
    method StealTake(thief: nat, t: Word) returns (op: Op)
      requires Valid() && ThiefAt(s, thief).StealTake? && t == Wrap(ThiefAt(s, thief).t)
      modifies this`s
      ensures Valid() && s == Apply(old(s), ThiefStep(thief))
      ensures s.history == old(s.history) + [Stolen(thief, op)]
      ensures Inv(old(s)) && Inv(s) && OldestGone(old(s), s, op)
      ensures ThiefAt(s, thief) == Thief.StealUnlock
    {
      hide Inv, OldestGone;
      MaskedIsSlot(ThiefAt(s, thief).t);
      op := localQueue[BitAnd(t, mask)];
      StealTakesOldest(s, thief);
      s := Apply(s, ThiefStep(thief));
    }

    method StealUnlock(thief: nat)
      requires Valid() && ThiefAt(s, thief).StealUnlock?
      modifies this`s, this`isLocked
      ensures Valid() && s == Apply(old(s), ThiefStep(thief))
      ensures s.history == old(s.history) && SameItems(old(s), s) && ThiefAt(s, thief).Away?
    {
      hide Inv, SameItems;
      isLocked := false;
      QuietStep(s, ThiefStep(thief));
      s := Apply(s, ThiefStep(thief));
    }

    // ---------------------------------------------------------------- whole calls

    lemma ValidIsInv()
      requires Valid()
      ensures Inv(s) && s.buffer == localQueue[..]
      ensures isLocked <==> !s.lock.Free?
    {
    }

    /** Any steps of the thieves, between two steps of the owner: a caller knows no more than the contract.
        `n` bounds how often a call is still going to be interrupted. */
    method Thieves(ghost n: nat) returns (ghost left: nat)
      requires Valid()
      modifies this`s, this`tail, this`isLocked
      ensures Valid() && ThievesRan(old(s), s) && left <= n && (left == n ==> s == old(s))
    {
      hide Inv;
      NobodyRan(s, 0);
      left := n;
    }

    /** What a step of the owner does not change, after the thieves have done theirs. */
    method Pause(ghost n: nat) returns (ghost left: nat)
      requires Valid()
      modifies this`s, this`tail, this`isLocked
      ensures Valid() && left <= n && (left == n ==> s == old(s)) && (old(s).lock.ByOwner? ==> s == old(s))
      ensures s.owner == old(s.owner) && OwnEvents(s.history) == old(OwnEvents(s.history))
      ensures s.head == old(s.head) && s.buffer == old(s.buffer) && OnlyOldestGone(old(s), s)
    {
      hide Inv, ThievesRan, OnlyOldestGone;
      ghost var before := s;
      left := Thieves(n);
      ThievesLeaveOwner(before, s);
    }

    /** `try_local_pop` up to its end or to the lock, whatever thieves do meanwhile. It answers nothing exactly
        when the deque looks empty at its start, and takes the newest operation. */
    method TryLocalPop(ghost n: nat) returns (r: PopResult, ghost left: nat)
      requires Valid() && s.owner.Idle?
      modifies this`s, this`head, this`tail, this`isLocked
      ensures Valid() && (r.MustLock? ==> left < n)
      ensures r.Nothing? <==> old(s.head - s.tail) <= 0
      ensures r.Nothing? ==> s == old(s)
      ensures r.Taken? ==> s.owner.Idle? && OwnEvents(s.history) == old(OwnEvents(s.history)) + [Popped(r.op)]
      ensures r.Taken? ==> NewestTaken(old(s), s, r.op)
      ensures r.MustLock? ==>
                && s.owner.PopLock? && r.newHead == Wrap(s.owner.newHead)
                && OwnEvents(s.history) == old(OwnEvents(s.history)) && OnlyOldestGone(old(s), s)
    {
      hide Valid, Inv, Items, OwnEvents, NothingLeft, Apply;
      hide OwnerApply, ThiefApply, Enabled, SameItems, OnlyOldestGone, NewestTaken, NewestGone;
      left := n;
      ghost var first := s;
      ValidIsInv();
      NothingGone(first);
      var empty, newHead := BeginPop();
      if empty {
        return Nothing, left;
      }
      GoneTogether(first, first, s);
      ghost var mid := s;
      left := Pause(left);
      GoneTogether(first, mid, s);
      mid := s;
      PopStoreHead(newHead);
      GoneTogether(first, mid, s);
      mid := s;
      left := Pause(left);
      GoneTogether(first, mid, s);
      mid := s;
      var raced := PopLoadTail(newHead);
      GoneTogether(first, mid, s);
      if raced {
        return MustLock(newHead), left;
      }
      mid := s;
      left := Pause(left);
      GoneTogether(first, mid, s);
      mid := s;
      var op := PopTake(newHead);
      ValidIsInv();
      TakenAfter(first, mid, s, op);
      OneMoreEvent(mid.history, Popped(op), 0);
      return Taken(op), left;
    }

    /** The rest of `try_local_pop` under the lock, whatever thieves do meanwhile. It takes nothing exactly when
        nothing is left. */
    method FinishPop(newHead: Word) returns (r: PopResult)
      requires Valid() && s.owner.PopLock? && newHead == Wrap(s.owner.newHead) && !isLocked
      modifies this`s, this`head, this`tail, this`isLocked
      ensures Valid() && s.owner.Idle? && !r.MustLock?
      ensures r.Nothing? <==> old(NothingLeft(s))
      ensures r.Nothing? ==> OwnEvents(s.history) == old(OwnEvents(s.history)) && NothingLeft(s)
      ensures r.Taken? ==> OwnEvents(s.history) == old(OwnEvents(s.history)) + [Popped(r.op)]
      ensures r.Taken? ==> NewestTaken(old(s), s, r.op)
    {
      hide Valid, Inv, Items, OwnEvents, NothingLeft, Apply;
      hide OwnerApply, ThiefApply, Enabled, SameItems, OnlyOldestGone, NewestTaken, NewestGone;
      ghost var first := s;
      ValidIsInv();
      PopLock();
      NothingIsSame(first, s);
      ghost var left := Pause(0);
      ghost var mid := s;
      ValidIsInv();
      RacedIffEmpty(mid);
      var raced := PopLoadTail(newHead);
      NothingIsSame(mid, s);
      if raced {
        left := Pause(0);
        WrapOfSum(s.owner.newHead, 1);
        mid := s;
        PopRestoreHead(Wrap(newHead as int + 1));
        NothingIsSame(mid, s);
        left := Pause(0);
        mid := s;
        OwnerUnlock();
        NothingIsSame(mid, s);
        return Nothing;
      }
      NothingGone(first);
      GoneTogether(first, first, mid);
      GoneTogether(first, mid, s);
      left := Pause(0);
      mid := s;
      OwnerUnlock();
      GoneTogether(first, mid, s);
      mid := s;
      left := Pause(0);
      GoneTogether(first, mid, s);
      mid := s;
      var op := PopTake(newHead);
      ValidIsInv();
      TakenAfter(first, mid, s, op);
      OneMoreEvent(mid.history, Popped(op), 0);
      return Taken(op);
    }

    /** `try_local_enqueue`, whatever thieves do meanwhile; `memory` is what an allocation finds. It succeeds as
        long as there is space, and without space unless there is no memory or the lock is taken. */
    method TryLocalEnqueue(op: Op, memory: seq<Op>) returns (enqueued: bool)
      requires Valid() && s.owner.Idle?
      modifies this, localQueue
      ensures Valid() && s.owner.Idle?
      ensures OwnEvents(s.history) == old(OwnEvents(s.history)) + (if enqueued then [Enqueued(op)] else [])
      ensures if enqueued then NewestAdded(old(s), s, op) else OnlyOldestGone(old(s), s)
      ensures old(HasSpace(s)) ==> enqueued && localQueue == old(localQueue)
      ensures !enqueued ==> isLocked || |memory| != 2 * old(localQueue.Length) || |memory| > ADDRESSABLE
      ensures localQueue == old(localQueue) || localQueue.Length == 2 * old(localQueue.Length)
    {
      hide Valid, Inv, Items, OwnEvents, NothingLeft, Apply;
      hide OwnerApply, ThiefApply, Enabled, SameItems, OnlyOldestGone, NewestAdded, HasSpace;
      ghost var first := s;
      ValidIsInv();
      NothingGone(first);
      var h := BeginEnqueue(op);
      GoneTogether(first, first, s);
      ghost var mid := s;
      ghost var left := Pause(0);
      GoneTogether(first, mid, s);
      ValidIsInv();
      if HasSpace(first) {
        SpaceIsRoom(first, s);
      }
      mid := s;
      var hasRoom, memoryUsed := EnqueueLoadTail(h, memory);
      GoneTogether(first, mid, s);
      if hasRoom {
        mid := s;
        left := Pause(0);
        GoneTogether(first, mid, s);
        mid := s;
        EnqueueStoreSlot(op, h);
        GoneTogether(first, mid, s);
        mid := s;
        left := Pause(0);
        GoneTogether(first, mid, s);
        mid := s;
        StoreAdvancedHead(h);
        AddedAfter(first, mid, s, op);
        OneMoreEvent(mid.history, Enqueued(op), 0);
        return true;
      }
      if !memoryUsed {
        return false;
      }
      mid := s;
      enqueued := Grow(op, h, memory, first);
    }

    /** The growth of the buffer, if the lock can be had at once. */
    method Grow(op: Op, h: Word, memory: seq<Op>, ghost first: State) returns (enqueued: bool)
      requires Valid() && s.owner.GrowTryLock? && op == s.owner.op && h == Wrap(s.owner.h) && memory == s.owner.block != []
      requires OnlyOldestGone(first, s)
      modifies this
      ensures Valid() && s.owner.Idle?
      ensures OwnEvents(s.history) == old(OwnEvents(s.history)) + (if enqueued then [Enqueued(op)] else [])
      ensures if enqueued then NewestAdded(first, s, op) && localQueue.Length == |memory|
              else OnlyOldestGone(first, s) && isLocked && localQueue == old(localQueue)
    {
      hide Valid, Inv, Items, OwnEvents, NothingLeft, Apply, OwnerApply, ThiefApply, Enabled, SameItems, OnlyOldestGone, NewestAdded;
      var newLocalQueue := new Op[|memory|](i requires 0 <= i < |memory| => memory[i]);
      assert newLocalQueue[..] == memory;
      ghost var mid := s;
      ghost var left := Pause(0);
      GoneTogether(first, mid, s);
      mid := s;
      var locked := GrowTryLock();
      GoneTogether(first, mid, s);
      if !locked {
        return false;
      }
      left := Pause(0);
      mid := s;
      var t := GrowLoadTail();
      GoneTogether(first, mid, s);
      left := Pause(0);
      mid := s;
      GrowCopy(op, h, t, newLocalQueue);
      GoneTogether(first, mid, s);
      left := Pause(0);
      mid := s;
      StoreAdvancedHead(h);
      AddedAfter(first, mid, s, op);
      OneMoreEvent(mid.history, Enqueued(op), 0);
      left := Pause(0);
      mid := s;
      GrowSwap(newLocalQueue);
      StaysAdded(first, mid, s, op);
      left := Pause(0);
      mid := s;
      OwnerUnlock();
      StaysAdded(first, mid, s, op);
      return true;
    }

    /** Any steps of the owner and of the other thieves, between two steps of one thief. */
    method Others(ghost thief: nat, ghost n: nat) returns (ghost left: nat)
      requires Valid()
      modifies this, localQueue
      ensures Valid() && OthersRan(thief, old(s), s) && (localQueue == old(localQueue) || fresh(localQueue))
      ensures left <= n && (left == n ==> s == old(s))
    {
      hide Inv;
      NobodyRan(s, thief);
      left := n;
    }

    method ThiefPause(ghost thief: nat, ghost n: nat) returns (ghost left: nat)
      requires Valid()
      modifies this, localQueue
      ensures Valid() && (localQueue == old(localQueue) || fresh(localQueue))
      ensures ThiefAt(s, thief) == old(ThiefAt(s, thief)) && StolenBy(thief, s.history) == old(StolenBy(thief, s.history))
      ensures left <= n && (left == n ==> s == old(s))
    {
      hide Inv, OthersRan;
      ghost var before := s;
      left := Others(thief, n);
      OthersLeaveThief(thief, before, s);
    }

    /** `try_steal` from when it has got the lock, whatever the owner and other thieves do meanwhile. When nobody
        interferes it takes the oldest operation, unless the deque looks empty. */
    method TrySteal(thief: nat, ghost n: nat) returns (op: seq<Op>, ghost left: nat)
      requires Valid() && ThiefAt(s, thief).Away? && !isLocked
      modifies this, localQueue
      ensures Valid() && ThiefAt(s, thief).Away? && |op| <= 1 && left <= n
      ensures StolenBy(thief, s.history) == old(StolenBy(thief, s.history)) + op
      ensures left == n ==> (op == [] <==> old(s.head - s.tail) <= 0) && MayBeStolen(old(s), s, op)
    {
      hide *;
      ghost var first := s;
      StealLock(thief);
      left := ThiefPause(thief, n);
      ghost var mid := s;
      var t := StealLoadTail(thief);
      if left == n {
        SameTogether(first, mid, s);
      }
      left := ThiefPause(thief, left);
      mid := s;
      var available := StealLoadHead(thief, t);
      if left == n {
        SameTogether(first, mid, s);
      }
      op := [];
      if available {
        op, left := Speculate(thief, t, first, n, left);
      }
      left := ThiefPause(thief, left);
      mid := s;
      StealUnlock(thief);
      if left == n {
        StaysStolen(first, mid, s, op);
      }
    }

    /** The rest of `try_steal` when the deque does not look empty: the speculative increment of the tail, and
        either the operation or the tail taken back. */
    method Speculate(thief: nat, t: Word, ghost first: State, ghost n: nat, ghost more: nat) returns (op: seq<Op>, ghost left: nat)
      requires Valid() && ThiefAt(s, thief).StealStoreTail? && t == Wrap(ThiefAt(s, thief).t)
      requires more <= n && (more == n ==> SameItems(first, s) && s.head > ThiefAt(s, thief).t)
      modifies this, localQueue
      ensures Valid() && ThiefAt(s, thief).StealUnlock? && |op| <= 1 && left <= more
      ensures localQueue == old(localQueue) || fresh(localQueue)
      ensures StolenBy(thief, s.history) == old(StolenBy(thief, s.history)) + op
      ensures left == n ==> op != [] && MayBeStolen(first, s, op)
    {
      hide *;
      left := ThiefPause(thief, more);
      ghost var mid := s;
      WrapOfSum(ThiefAt(s, thief).t, 1);
      StealStoreTail(thief, Wrap(t as int + 1));
      if left == n {
        SameTogether(first, mid, s);
      }
      left := ThiefPause(thief, left);
      mid := s;
      var available := StealLoadHead(thief, t);
      if left == n {
        SameTogether(first, mid, s);
      }
      left := ThiefPause(thief, left);
      mid := s;
      if !available {
        StealStoreTail(thief, t);
        return [], left;
      }
      var stolen := StealTake(thief, t);
      OneMoreEvent(mid.history, Stolen(thief, stolen), thief);
      if left == n {
        StolenAfter(first, mid, s, stolen);
      }
      return [stolen], left;
    }
  }
}
