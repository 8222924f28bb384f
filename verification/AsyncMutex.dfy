/** `async_mutex` with the program's own fields: `m_state` and `m_waiters` point to operations that are linked
    through their own fields. Each method is one atomic operation, with the owner's private work that
    follows it, and is proved to be the step of the machine in `Mutex`. Whole calls follow at the end. */
module AsyncMutexes {
  import opened Lists
  import opened IntrusiveLists
  import opened Operations
  import opened Mutex

  /** A value of `m_state`: `not_locked`, or a pointer to the latest waiter, null when there is none. */
  datatype StateValue = Unlocked | LockedBy(head: Waiter?)

  /** The word stands for what the machine remembers of a load. */
  ghost predicate StandsFor(ops: map<nat, Waiter>, value: StateValue, seen: Seen)
  {
    match seen
    case IsNotLocked => value == Unlocked
    case IsLockedNoWaiters => value == LockedBy(null)
    case IsHead(id) => id in ops && value == LockedBy(ops[id])
  }

  /** `m_state` leads to the machine's stack. */
  ghost predicate IsState(ops: map<nat, Waiter>, value: StateValue, lock: Lock)
    reads ops.Values`next
  {
    match lock
    case NotLocked => value == Unlocked
    case Locked(stack) => value.LockedBy? && IsList(ops, value.head, stack)
  }

  class AsyncMutex {
    var state: StateValue
    var waiters: Waiter?
    /** Every lock operation there has been. */
    ghost var ops: map<nat, Waiter>
    ghost var s: State

    ghost predicate Valid()
      reads this, ops.Values`next
    {
      Reachable(s) && Identified(ops) && IsState(ops, state, s.lock) && IsList(ops, waiters, s.waiters)
    }

    constructor ()
      ensures Valid() && s == Init()
    {
      state, waiters, ops := Unlocked, null, map[];
      s := Init();
      new;
      assert Reaches(Init(), [], s);
    }

    ghost method Advance(a: Action)
      requires Reachable(s) && Enabled(s, a)
      modifies this`s
      ensures Reachable(s) && s == Apply(old(s), a)
    {
      StepKeepsReachable(s, a);
      s := Apply(s, a);
    }

    lemma Open()
      requires Valid()
      ensures Reachable(s) && Identified(ops) && IsState(ops, state, s.lock) && IsList(ops, waiters, s.waiters)
    {
    }

    lemma Close()
      requires Reachable(s) && Identified(ops) && IsState(ops, state, s.lock) && IsList(ops, waiters, s.waiters)
      ensures Valid()
    {
    }

    /** `try_lock`: one compare-and-swap. */
    method TryLock(ghost id: Id) returns (locked: bool)
      requires Valid() && id !in s.acts
      modifies this`s, this`state
      ensures Valid() && s == Apply(Apply(old(s), StartTryLock(id)), Step(id, false))
      ensures locked <==> old(s.lock).NotLocked?
      ensures if locked then ActIn(s.acts, id).Holding? && s.holder == Held(id)
              else ActIn(s.acts, id) == Done(false) && s.holder == old(s.holder) && Queue(s) == old(Queue(s))
    {
      hide *;
      Open();
      StartTryApplies(s, id);
      Advance(StartTryLock(id));
      TryApplies(s, id);
      ghost var after := Apply(s, Step(id, false));
      HeadIsNull(ops, state, s.lock);
      locked := state == Unlocked;
      if locked {
        state := LockedBy(null);
        NoWaiters(ops);
      }
      Advance(Step(id, false));
      assert s == after;
      Close();
    }

    /** A lock operation is created and awaited. */
    method Start(id: Id) returns (op: Waiter)
      requires Valid() && id !in s.acts && id !in ops
      modifies this`s, this`ops
      ensures Valid() && s == Apply(old(s), StartLock(id)) && fresh(op) && op.id == id && ops == old(ops)[id := op]
    {
      hide *;
      Open();
      StartApplies(s, id);
      ghost var after := Apply(s, StartLock(id));
      op := Create(id);
      StateOfMore(ops, op, state, s.lock);
      NewOperation(ops, op, waiters, s.waiters);
      ops := ops[id := op];
      Advance(StartLock(id));
      assert s == after;
      Close();
    }

    static method Create(id: Id) returns (op: Waiter)
      ensures fresh(op) && op.id == id
    {
      op := new Waiter(id, 0, 0);
    }

    /** `await_suspend`'s load of the state. */
    method LoadState(ghost id: Id) returns (oldState: StateValue)
      requires Valid() && ActIn(s.acts, id).LockLoad?
      modifies this`s
      ensures Valid() && s == Apply(old(s), Step(id, false))
      ensures ActIn(s.acts, id).LockCas? && StandsFor(ops, oldState, ActIn(s.acts, id).seen)
      ensures ActIn(s.acts, id).seen == Address(s.lock) && s.lock == old(s.lock) && Queue(s) == old(Queue(s))
    {
      hide *;
      Open();
      LoadApplies(s, id);
      StateStands(ops, state, s.lock);
      ghost var after := Apply(s, Step(id, false));
      oldState := state;
      Advance(Step(id, false));
      assert s == after;
      Close();
    }

    /** One turn of `await_suspend`'s loop: acquire a free mutex, or push the operation onto the stack. Its
        own link is written before the compare-and-swap, whether or not that succeeds. */
    method TryLockOrPush(op: Waiter, oldState: StateValue, spurious: bool)
      returns (swapped: bool, suspended: bool, seen: StateValue)
      requires Valid() && op.id in ops && ops[op.id] == op
      requires ActIn(s.acts, op.id).LockCas? && StandsFor(ops, oldState, ActIn(s.acts, op.id).seen)
      modifies this`s, this`state, op`next
      ensures Valid() && s == Apply(old(s), Step(op.id, spurious))
      ensures swapped <==> old(ActIn(s.acts, op.id)).seen == old(Address(s.lock)) && !spurious
      ensures swapped ==> (suspended <==> old(s.lock).Locked?)
      ensures swapped && !suspended ==> ActIn(s.acts, op.id).Holding? && s.holder == Held(op.id) && Queue(s) == old(Queue(s)) == []
      ensures swapped && suspended ==> ActIn(s.acts, op.id).Waiting? && s.holder == old(s.holder) && Queue(s) == old(Queue(s)) + [op.id]
      ensures !swapped ==> ActIn(s.acts, op.id) == LockCas(Address(s.lock)) && StandsFor(ops, seen, Address(s.lock))
      ensures !swapped ==> s.lock == old(s.lock) && Queue(s) == old(Queue(s))
    {
      hide *;
      Open();
      CasApplies(s, op.id, spurious);
      StateStands(ops, state, s.lock);
      SameWord(ops, state, Address(s.lock), oldState, ActIn(s.acts, op.id).seen);
      OpIsFree(ops, op, state, waiters, s);
      Contends(s, op.id, spurious);
      ghost var after := Apply(s, Step(op.id, spurious));
      suspended := oldState != Unlocked;
      if suspended {
        SetNext(op, oldState.head);
      }
      seen, swapped := state, state == oldState && !spurious;
      if swapped {
        if suspended {
          StackPushed(ops, op, oldState.head, s.lock);
          state := LockedBy(op);
        } else {
          state := LockedBy(null);
          NoWaiters(ops);
        }
      }
      Advance(Step(op.id, spurious));
      assert s == after;
      Close();
    }

    /** Writing the link of an operation that is in no list. */
    method SetNext(op: Waiter, next: Waiter?)
      requires op.id in ops && ops[op.id] == op && Identified(ops)
      requires IsState(ops, state, s.lock) && IsList(ops, waiters, s.waiters)
      requires op.id !in Stack(s.lock) && op.id !in s.waiters
      modifies op`next
      ensures IsState(ops, state, s.lock) && IsList(ops, waiters, s.waiters) && op.next == next
    {
      OutsideList(ops, op, Stack(s.lock));
      OutsideList(ops, op, s.waiters);
      op.next := next;
    }

    // ---------------------------------------------------------------- unlock

    /** The owner looks at the waiters it already knows. */
    method BeginUnlock(ghost id: Id) returns (waitersHead: Waiter?)
      requires Valid() && ActIn(s.acts, id).Holding?
      modifies this`s
      ensures Valid() && s == Apply(old(s), Unlock(id))
      ensures waitersHead == null <==> s.waiters == []
      ensures waitersHead == null <==> ActIn(s.acts, id).UnlockCas?
      ensures Queue(s) == old(Queue(s)) && s.granted == old(s.granted) && (waitersHead != null ==> Queue(s) != [])
      ensures waitersHead != null ==> ActIn(s.acts, id).HandOver? && IsList(ops, waitersHead, ActIn(s.acts, id).list)
    {
      hide *;
      Open();
      ListParts(ops, waiters, s.waiters);
      UnlockApplies(s, id);
      ReachableInv(s);
      UnlockKeepsQueue(s, Unlock(id));
      ghost var after := Apply(s, Unlock(id));
      waitersHead := waiters;
      Advance(Unlock(id));
      assert s == after;
      Close();
    }

    /** The compare-and-swap that releases the mutex when there is no waiter. */
    method TryRelease(ghost id: Id) returns (releasedLock: bool)
      requires Valid() && ActIn(s.acts, id).UnlockCas?
      modifies this`s, this`state
      ensures Valid() && s == Apply(old(s), Step(id, false))
      ensures ActIn(s.acts, id) == if releasedLock then Done(true) else UnlockExchange
      ensures releasedLock <==> Queue(s) == []
      ensures Queue(s) == old(Queue(s)) && s.granted == old(s.granted) && (releasedLock ==> s.lock.NotLocked?)
    {
      hide *;
      Open();
      ReleaseApplies(s, id);
      ReachableInv(s);
      UnlockKeepsQueue(s, Step(id, false));
      HeadIsNull(ops, state, s.lock);
      ghost var after := Apply(s, Step(id, false));
      releasedLock := state == LockedBy(null);
      if releasedLock {
        state := Unlocked;
        IsUnlocked(ops);
      }
      Advance(Step(id, false));
      assert s == after;
      Close();
    }

    /** Taking the stack of new waiters and reversing it; the asserts of the program hold. */
    method TakeNewWaiters(ghost id: Id) returns (waitersHead: Waiter)
      requires Valid() && ActIn(s.acts, id).UnlockExchange?
      modifies this`s, this`state, Nodes(ops, Stack(s.lock))`next
      ensures Valid() && s == Apply(old(s), Step(id, false))
      ensures old(state) != Unlocked && old(state) != LockedBy(null)
      ensures ActIn(s.acts, id).HandOver? && IsList(ops, waitersHead, ActIn(s.acts, id).list)
      ensures Queue(s) == old(Queue(s)) && s.granted == old(s.granted)
    {
      hide *;
      Open();
      ExchangeApplies(s, id);
      ReachableInv(s);
      UnlockKeepsQueue(s, Step(id, false));
      HeadIsNull(ops, state, s.lock);
      ghost var after, stack := Apply(s, Step(id, false)), Stack(s.lock);
      ListParts(ops, state.head, stack);
      ListParts(ops, waiters, s.waiters);
      NodesAreListed(ops, stack);
      var next := state.head;
      state := LockedBy(null);
      NothingIsListed(ops);
      waitersHead := ReverseOnto(next, null, NodesOf(ops, stack), []);
      ReversedList(ops, waitersHead, stack);
      NoWaiters(ops);
      Advance(Step(id, false));
      assert s == after;
      Close();
    }

    /** The rest of the list becomes the known waiters, and the first one is resumed as the new owner. */
    method HandOver(ghost id: Id, waitersHead: Waiter) returns (resumed: Waiter)
      requires Valid() && ActIn(s.acts, id).HandOver? && IsList(ops, waitersHead, ActIn(s.acts, id).list)
      modifies this`s, this`waiters
      ensures Valid() && resumed == waitersHead && old(ActIn(s.acts, id)).list != []
      ensures s == Apply(old(s), Step(id, false)) && s.holder == Held(resumed.id)
      ensures s.granted == old(s.granted) + [resumed.id] && old(Queue(s)) == [resumed.id] + Queue(s)
      ensures ActIn(s.acts, id) == Done(true)
    {
      hide *;
      Open();
      ghost var list := ActIn(s.acts, id).list;
      RestOfList(ops, waitersHead, list);
      HandOverApplies(s, id);
      ReachableInv(s);
      HandOverTakesFirst(s, id);
      ghost var after := Apply(s, Step(id, false));
      waiters := waitersHead.next;
      resumed := waitersHead;
      Advance(Step(id, false));
      assert s == after;
      Close();
    }

    // ---------------------------------------------------------------- whole calls

    /** Any steps of the others, between two steps of one coroutine: a caller knows no more than the contract.
        `n` bounds how often a call is still going to be interrupted, or one of its weak compare-and-swaps
        fails for no reason. */
    method Others(ghost id: Id, ghost n: nat) returns (ghost left: nat, spurious: bool)
      requires Valid()
      modifies this, ops.Values`next
      ensures Valid() && OthersRan(id, old(s), s)
      ensures left <= n && (spurious ==> left < n) && (left == n ==> s == old(s))
      ensures forall w :: w in old(ops) ==> w in ops && ops[w] == old(ops[w])
      ensures forall x :: x in ops.Values ==> x in old(ops.Values) || fresh(x)
    {
      NobodyRan(id, s);
      left, spurious := n, false;
    }

    method Pause(ghost id: Id, ghost n: nat) returns (ghost left: nat, spurious: bool)
      requires Valid() && !ActIn(s.acts, id).Waiting?
      modifies this, ops.Values`next
      ensures Valid() && ActIn(s.acts, id) == old(ActIn(s.acts, id))
      ensures left <= n && (spurious ==> left < n) && (left == n ==> s == old(s))
      ensures forall w :: w in old(ops) ==> w in ops && ops[w] == old(ops[w])
      ensures forall x :: x in ops.Values ==> x in old(ops.Values) || fresh(x)
    {
      hide *;
      Open();
      ReachableInv(s);
      ghost var before := s;
      left, spurious := Others(id, n);
      OthersLeaveAct(id, before, s);
    }

    /** `await_suspend`, whatever others do meanwhile: in the end the coroutine holds the mutex, or waits behind
        everybody who queued before it. When nobody interferes it waits iff the mutex is not free. */
    method AwaitSuspend(op: Waiter, ghost n: nat) returns (suspended: bool, ghost left: nat)
      requires Valid() && op.id in ops && ops[op.id] == op && ActIn(s.acts, op.id).LockLoad?
      modifies this, ops.Values`next
      ensures Valid() && left <= n
      ensures if suspended then ActIn(s.acts, op.id).Waiting? && Queue(s) != [] && Queue(s)[|Queue(s)| - 1] == op.id
              else ActIn(s.acts, op.id).Holding? && s.holder == Held(op.id) && Queue(s) == []
      ensures left == n ==> (suspended <==> old(s).lock.Locked?) && Queue(s) == Queue(old(s)) + (if suspended then [op.id] else [])
    {
      hide *;
      ghost var first := s;
      var oldState := LoadState(op.id);
      left := n;
      var swapped := false;
      suspended := false;
      LoadApplies(old(s), op.id);
      while !swapped
        invariant Valid() && op.id in ops && ops[op.id] == op && left <= n
        invariant forall x :: x in ops.Values ==> x in old(ops.Values) || fresh(x)
        invariant if !swapped then ActIn(s.acts, op.id) == LockCas(Address(s.lock)) && StandsFor(ops, oldState, Address(s.lock))
                  else if suspended then ActIn(s.acts, op.id).Waiting? && Queue(s) != [] && Queue(s)[|Queue(s)| - 1] == op.id
                  else ActIn(s.acts, op.id).Holding? && s.holder == Held(op.id) && Queue(s) == []
        invariant left == n && !swapped ==> s.lock == first.lock && Queue(s) == Queue(first)
        invariant left == n && swapped ==>
                    (suspended <==> first.lock.Locked?) && Queue(s) == Queue(first) + (if suspended then [op.id] else [])
        decreases !swapped, left
      {
        ghost var seen, known := Address(s.lock), ops;
        var spurious;
        left, spurious := Pause(op.id, left);
        WordStandsOn(known, ops, oldState, seen);
        CasApplies(s, op.id, spurious);
        swapped, suspended, oldState := TryLockOrPush(op, oldState, spurious);
      }
    }

    /** While a coroutine owns the mutex, others only join the end of the queue. */
    method OwnerPause(ghost id: Id, ghost n: nat) returns (ghost left: nat, spurious: bool)
      requires Valid() && IsOwner(ActIn(s.acts, id))
      modifies this, ops.Values`next
      ensures Valid() && ActIn(s.acts, id) == old(ActIn(s.acts, id))
      ensures Queue(old(s)) <= Queue(s) && s.granted == old(s.granted)
      ensures left <= n && (spurious ==> left < n) && (left == n ==> s == old(s))
      ensures forall w :: w in old(ops) ==> w in ops && ops[w] == old(ops[w])
      ensures forall x :: x in ops.Values ==> x in old(ops.Values) || fresh(x)
    {
      hide *;
      Open();
      ReachableInv(s);
      ghost var before := s;
      left, spurious := Others(id, n);
      OthersOnlyJoin(id, before, s);
      OwnerIsNotWaiting(before, id);
      OthersLeaveAct(id, before, s);
      Joined(before, s);
    }

    /** `unlock`, whatever others do meanwhile: the longest waiter owns the mutex and is resumed, or nobody waits
        and the mutex is free. */
    method UnlockMutex(ghost id: Id, ghost n: nat) returns (resumed: Waiter?, ghost left: nat)
      requires Valid() && ActIn(s.acts, id).Holding?
      modifies this, ops.Values`next
      ensures Valid() && ActIn(s.acts, id) == Done(true) && left <= n
      ensures resumed == null ==> s.lock.NotLocked? && Queue(s) == [] && s.granted == old(s.granted)
      ensures resumed != null ==> s.holder == Held(resumed.id) && s.granted == old(s.granted) + [resumed.id]
      ensures old(Queue(s)) != [] ==> resumed != null && resumed.id == old(Queue(s))[0]
      ensures left == n ==> (resumed == null <==> old(Queue(s)) == [])
    {
      hide *;
      ghost var first := Queue(s);
      OwnsIt(ActIn(s.acts, id));
      left := n;
      var waitersHead := BeginUnlock(id);
      if waitersHead == null {
        OwnsIt(ActIn(s.acts, id));
        var spurious;
        left, spurious := OwnerPause(id, left);
        var releasedLock := TryRelease(id);
        if releasedLock {
          return null, left;
        }
        OwnsIt(ActIn(s.acts, id));
        left, spurious := OwnerPause(id, left);
        NodesAreOperations(ops, Stack(s.lock));
        waitersHead := TakeNewWaiters(id);
      }
      resumed := HandOver(id, waitersHead);
    }
  }

  lemma OwnsIt(r: Act)
    ensures r.Holding? || r.UnlockCas? || r.UnlockExchange? ==> IsOwner(r)
  {
  }

  lemma OwnerIsNotWaiting(s: State, id: Id)
    requires IsOwner(ActIn(s.acts, id))
    ensures !ActIn(s.acts, id).Waiting?
  {
  }

  lemma Joined(s: State, s': State)
    requires OnlyJoined(s, s')
    ensures Queue(s) <= Queue(s') && s'.granted == s.granted
  {
  }

  // ---------------------------------------------------------------- words and lists

  /** What a word stands for does not change when more operations are created. */
  lemma WordStandsOn(known: map<nat, Waiter>, ops: map<nat, Waiter>, value: StateValue, seen: Seen)
    requires StandsFor(known, value, seen) && forall w :: w in known ==> w in ops && ops[w] == known[w]
    ensures StandsFor(ops, value, seen)
  {
  }

  lemma StateStands(ops: map<nat, Waiter>, value: StateValue, lock: Lock)
    requires IsState(ops, value, lock)
    ensures StandsFor(ops, value, Address(lock))
  {
    if lock.Locked? && lock.stack != [] {
      assert lock.stack[0] in lock.stack;
    }
  }

  /** Comparing words is comparing what they stand for: no two operations have the same address. */
  lemma SameWord(ops: map<nat, Waiter>, value: StateValue, word: Seen, value': StateValue, word': Seen)
    requires Identified(ops) && StandsFor(ops, value, word) && StandsFor(ops, value', word')
    ensures value == value' <==> word == word'
    ensures value' == Unlocked <==> word'.IsNotLocked?
  {
  }

  lemma HeadIsNull(ops: map<nat, Waiter>, value: StateValue, lock: Lock)
    requires IsState(ops, value, lock)
    ensures value == LockedBy(null) <==> lock == Locked([])
    ensures value == Unlocked <==> lock == NotLocked
    ensures lock.Locked? ==> value.LockedBy? && IsList(ops, value.head, Stack(lock))
    ensures lock.Locked? && Stack(lock) != [] ==> value.head != null
  {
  }

  lemma IsUnlocked(ops: map<nat, Waiter>)
    ensures IsState(ops, Unlocked, NotLocked)
  {
  }

  lemma NoWaiters(ops: map<nat, Waiter>)
    ensures IsState(ops, LockedBy(null), Locked([])) && IsList(ops, null, [])
  {
  }

  lemma StackPushed(ops: map<nat, Waiter>, op: Waiter, head: Waiter?, lock: Lock)
    requires Identified(ops) && op.id in ops && ops[op.id] == op && op.next == head && lock.Locked?
    requires IsState(ops, LockedBy(head), lock) && op.id !in lock.stack
    ensures IsState(ops, LockedBy(op), Locked([op.id] + lock.stack))
  {
    Pushed(ops, op, head, lock.stack);
  }

  lemma OpIsFree(ops: map<nat, Waiter>, op: Waiter, value: StateValue, waiters: Waiter?, s: State)
    requires Reachable(s) && ActIn(s.acts, op.id).LockCas?
    ensures op.id !in Stack(s.lock) && op.id !in s.waiters
  {
    ReachableInv(s);
    EarlyIsUnqueued(s, op.id);
    InReverse(Stack(s.lock), op.id);
    WaitersAreQueued(s);
  }

  lemma WaitersAreQueued(s: State)
    requires Inv(s)
    ensures forall w :: w in s.waiters ==> w in Queue(s)
    ensures forall w :: w in Reverse(Stack(s.lock)) ==> w in Queue(s)
  {
  }

  lemma StateOfMore(ops: map<nat, Waiter>, op: Waiter, value: StateValue, lock: Lock)
    requires Identified(ops) && op.id !in ops && IsState(ops, value, lock)
    ensures IsState(ops[op.id := op], value, lock)
  {
    if lock.Locked? {
      NewOperation(ops, op, value.head, lock.stack);
    }
  }

  // ---------------------------------------------------------------- what the steps do

  lemma StartApplies(s: State, id: Id)
    requires id !in s.acts
    ensures Enabled(s, StartLock(id))
    ensures var s' := Apply(s, StartLock(id)); s'.lock == s.lock && s'.waiters == s.waiters
  {
  }

  lemma StartTryApplies(s: State, id: Id)
    requires Reachable(s) && id !in s.acts
    ensures Enabled(s, StartTryLock(id))
    ensures var s' := Apply(s, StartTryLock(id));
            && s'.lock == s.lock && s'.waiters == s.waiters && s'.holder == s.holder && Queue(s') == Queue(s)
            && ActIn(s'.acts, id).TryLock?
  {
    ReachableInv(s);
    StartKeepsQueue(s, id);
  }

  lemma TryApplies(s: State, id: Id)
    requires Reachable(s) && ActIn(s.acts, id).TryLock?
    ensures Enabled(s, Step(id, false))
    ensures var s' := Apply(s, Step(id, false));
            && s'.waiters == s.waiters
            && (s.lock.NotLocked? ==> s'.lock == Locked([]) && ActIn(s'.acts, id).Holding? && s'.holder == Held(id))
            && (s.lock.Locked? ==>
                  s'.lock == s.lock && ActIn(s'.acts, id) == Done(false) && s'.holder == s.holder && Queue(s') == Queue(s))
  {
    TryLockTakesFree(s, id);
  }

  lemma LoadApplies(s: State, id: Id)
    requires ActIn(s.acts, id).LockLoad?
    ensures Enabled(s, Step(id, false))
    ensures var s' := Apply(s, Step(id, false));
            && s'.lock == s.lock && s'.waiters == s.waiters && ActIn(s'.acts, id) == LockCas(Address(s.lock))
            && (Reachable(s) ==> Queue(s') == Queue(s))
  {
    if Reachable(s) {
      LoadKeepsQueue(s, id);
    }
  }

  lemma LoadKeepsQueue(s: State, id: Id)
    requires Reachable(s) && ActIn(s.acts, id).LockLoad?
    ensures Queue(Apply(s, Step(id, false))) == Queue(s)
  {
    ReachableInv(s);
    EarlyIsUnqueued(s, id);
  }

  /** What the compare-and-swap of a lock operation does to those who wait. */
  lemma Contends(s: State, id: Id, spurious: bool)
    requires Reachable(s) && ActIn(s.acts, id).LockCas?
    ensures var s', swapped := Apply(s, Step(id, spurious)), Address(s.lock) == ActIn(s.acts, id).seen && !spurious;
            && (!swapped ==> s'.lock == s.lock && Queue(s') == Queue(s))
            && (swapped && s.lock.NotLocked? ==> s'.holder == Held(id) && Queue(s') == Queue(s) == [])
            && (swapped && s.lock.Locked? ==> s'.holder == s.holder && Queue(s') == Queue(s) + [id])
  {
    hide Inv, Reverse;
    ReachableInv(s);
    if Address(s.lock) == ActIn(s.acts, id).seen && !spurious {
      LockTakesFreeOrQueues(s, id);
    } else {
      EarlyIsUnqueued(s, id);
    }
  }

  lemma CasApplies(s: State, id: Id, spurious: bool)
    requires ActIn(s.acts, id).LockCas?
    ensures Enabled(s, Step(id, spurious))
    ensures var s', swapped := Apply(s, Step(id, spurious)), Address(s.lock) == ActIn(s.acts, id).seen && !spurious;
            && s'.waiters == s.waiters
            && (!swapped ==> s'.lock == s.lock && ActIn(s'.acts, id) == LockCas(Address(s.lock)))
            && (swapped && s.lock.NotLocked? ==> s'.lock == Locked([]) && ActIn(s'.acts, id) == Holding)
            && (swapped && s.lock.Locked? ==> s'.lock == Locked([id] + s.lock.stack) && ActIn(s'.acts, id) == Waiting)
            && (Address(s.lock).IsNotLocked? <==> s.lock.NotLocked?)
            && (s.lock.Locked? ==> Stack(s.lock) == s.lock.stack)
  {
  }

  lemma UnlockApplies(s: State, id: Id)
    requires ActIn(s.acts, id).Holding?
    ensures Enabled(s, Unlock(id))
    ensures var s' := Apply(s, Unlock(id));
            && s'.lock == s.lock && s'.waiters == s.waiters
            && ActIn(s'.acts, id) == if s.waiters == [] then UnlockCas else Act.HandOver(s.waiters)
  {
  }

  lemma ReleaseApplies(s: State, id: Id)
    requires ActIn(s.acts, id).UnlockCas?
    ensures Enabled(s, Step(id, false))
    ensures var s' := Apply(s, Step(id, false));
            && s'.waiters == s.waiters && s'.lock == (if s.lock == Locked([]) then NotLocked else s.lock)
            && ActIn(s'.acts, id) == if s.lock == Locked([]) then Done(true) else UnlockExchange
  {
  }

  lemma ExchangeApplies(s: State, id: Id)
    requires Reachable(s) && ActIn(s.acts, id).UnlockExchange?
    ensures Enabled(s, Step(id, false)) && s.lock.Locked? && Stack(s.lock) != [] && s.waiters == []
    ensures var s' := Apply(s, Step(id, false));
            && s'.waiters == s.waiters && s'.lock == Locked([])
            && ActIn(s'.acts, id) == Act.HandOver(Reverse(Stack(s.lock)))
  {
    ReachableInv(s);
    OwnerFacts(s, id);
  }

  lemma HandOverApplies(s: State, id: Id)
    requires ActIn(s.acts, id).HandOver? && ActIn(s.acts, id).list != []
    ensures Enabled(s, Step(id, false))
    ensures var s', list := Apply(s, Step(id, false)), ActIn(s.acts, id).list;
            && s'.lock == s.lock && s'.waiters == list[1..] && s'.holder == Held(list[0])
            && s'.granted == s.granted + [list[0]]
  {
  }
}
