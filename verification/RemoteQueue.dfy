/** `remote_enqueue` and `try_global_dequeue` with the program's own fields: two pointers to operations that
    are linked through their own fields. Each method is one atomic operation, with the work under the mutex
    that follows it, and is proved to be the step of the machine in `GlobalQueue`. Whole calls follow at
    the end of the class. */
module RemoteQueues {
  import opened Lists
  import opened IntrusiveLists
  import opened Operations
  import opened GlobalQueue

  class RemoteQueue {
    var globalQueueHead: Waiter?
    var globalQueueTail: Waiter?
    /** Whether somebody holds `m_globalQueueMutex`. */
    var isLocked: bool
    ghost var ops: map<nat, Waiter>
    ghost var s: State

    ghost predicate Valid()
      reads this, ops.Values`next
    {
      && Reachable(s) && Identified(ops)
      && IsList(ops, globalQueueHead, s.head) && IsList(ops, globalQueueTail, s.tail)
      && (isLocked <==> s.mutex.HeldBy?)
    }

    constructor ()
      ensures Valid() && s == Init()
    {
      globalQueueHead, globalQueueTail, isLocked, ops := null, null, false, map[];
      s := Init();
      new;
      assert Reaches(Init(), [], s);
    }

    ghost method Advance(a: Action)
      requires Reachable(s) && Enabled(s, a)
      modifies this`s
      ensures Reachable(s) && s == Apply(old(s), a)
    {
      StepKeepsReachable(s, a);
      s := Apply(s, a);
    }

    lemma Open()
      requires Valid()
      ensures Reachable(s) && Identified(ops)
      ensures IsList(ops, globalQueueHead, s.head) && IsList(ops, globalQueueTail, s.tail)
      ensures isLocked <==> s.mutex.HeldBy?
    {
    }

    lemma Close()
      requires Reachable(s) && Identified(ops)
      requires IsList(ops, globalQueueHead, s.head) && IsList(ops, globalQueueTail, s.tail)
      requires isLocked <==> s.mutex.HeldBy?
      ensures Valid()
    {
    }

    /** `remote_enqueue`'s load of the tail. */
    method LoadForEnqueue(op: Waiter) returns (tail: Waiter?)
      requires Valid() && op.id !in ops && Enabled(s, StartEnqueue(op.id))
      modifies this`s, this`ops
      ensures Valid() && s == Apply(old(s), StartEnqueue(op.id)) && ops == old(ops)[op.id := op]
      ensures op.id in s.pushers && Stands(ops, tail, s.pushers[op.id]) && s.pushers[op.id] == TopOf(s.tail)
      ensures Queue(s) == old(Queue(s)) && s.enqueued == old(s.enqueued)
    {
      hide *;
      Open();
      StartApplies(s, op.id);
      ReachableInv(s);
      QueueStep(s, StartEnqueue(op.id));
      ghost var after := Apply(s, StartEnqueue(op.id));
      NewOperation(ops, op, globalQueueHead, s.head);
      NewOperation(ops, op, globalQueueTail, s.tail);
      tail := globalQueueTail;
      ops := ops[op.id := op];
      TopStands(ops, tail, s.tail);
      Advance(StartEnqueue(op.id));
      assert s == after;
      Close();
    }

    /** One turn of its loop: the link is written, then the compare-and-swap tried. */
    method TryPush(op: Waiter, tail: Waiter?, spurious: bool) returns (pushed: bool, seen: Waiter?)
      requires Valid() && op.id in ops && ops[op.id] == op && op.id in s.pushers && Stands(ops, tail, s.pushers[op.id])
      modifies this`s, this`globalQueueTail, op`next
      ensures Valid() && s == Apply(old(s), Action.TryPush(op.id, spurious))
      ensures pushed <==> old(s.pushers[op.id]) == old(TopOf(s.tail)) && !spurious
      ensures pushed ==> s.enqueued == old(s.enqueued) + [op.id] && Queue(s) == old(Queue(s)) + [op.id]
      ensures !pushed ==> s.enqueued == old(s.enqueued) && Queue(s) == old(Queue(s))
      ensures !pushed ==> op.id in s.pushers && Stands(ops, seen, s.pushers[op.id]) && s.pushers[op.id] == TopOf(s.tail)
    {
      hide *;
      Open();
      PushApplies(s, op.id, spurious);
      TopStands(ops, globalQueueTail, s.tail);
      SamePointer(ops, globalQueueTail, TopOf(s.tail), tail, s.pushers[op.id]);
      PusherIsFree(s, op.id);
      ReachableInv(s);
      QueueStep(s, Action.TryPush(op.id, spurious));
      ghost var after := Apply(s, Action.TryPush(op.id, spurious));
      SetNext(op, tail);
      seen, pushed := globalQueueTail, globalQueueTail == tail && !spurious;
      if pushed {
        Pushed(ops, op, tail, s.tail);
        globalQueueTail := op;
      }
      Advance(Action.TryPush(op.id, spurious));
      assert s == after;
      Close();
    }

    method SetNext(op: Waiter, next: Waiter?)
      requires op.id in ops && ops[op.id] == op && Identified(ops) && op.id !in s.head && op.id !in s.tail
      requires IsList(ops, globalQueueHead, s.head) && IsList(ops, globalQueueTail, s.tail)
      modifies op`next
      ensures IsList(ops, globalQueueHead, s.head) && IsList(ops, globalQueueTail, s.tail) && op.next == next
    {
      OutsideList(ops, op, s.head);
      OutsideList(ops, op, s.tail);
      op.next := next;
    }

    /** Under the mutex: the head, if there is one, is the oldest operation. */
    method LoadQueueHead(ghost t: Thread) returns (head: Waiter?)
      requires Valid() && TakerIn(s.takers, t).LoadHead?
      modifies this`s
      ensures Valid() && s == Apply(old(s), TakerStep(t))
      ensures TakerIn(s.takers, t) == if head != null then Take(s.head) else LoadTail
      ensures Queue(s) == old(Queue(s)) && s.dequeued == old(s.dequeued)
      ensures head != null ==> IsList(ops, head, TakerIn(s.takers, t).list)
    {
      hide *;
      Open();
      ListParts(ops, globalQueueHead, s.head);
      HeadApplies(s, t);
      ReachableInv(s);
      QueueStep(s, TakerStep(t));
      ghost var after := Apply(s, TakerStep(t));
      head := globalQueueHead;
      Advance(TakerStep(t));
      assert s == after;
      Close();
    }

    /** The look at the tail; when it finds nothing, nothing is queued. */
    method LoadQueueTail(ghost t: Thread) returns (empty: bool)
      requires Valid() && TakerIn(s.takers, t).LoadTail?
      modifies this`s
      ensures Valid() && s == Apply(old(s), TakerStep(t)) && (empty <==> Queue(old(s)) == [])
      ensures TakerIn(s.takers, t) == if empty then Unlock(false) else Exchange
      ensures Queue(s) == old(Queue(s)) && s.dequeued == old(s.dequeued)
    {
      hide *;
      Open();
      ListParts(ops, globalQueueTail, s.tail);
      TailApplies(s, t);
      ReachableInv(s);
      QueueStep(s, TakerStep(t));
      ghost var after := Apply(s, TakerStep(t));
      empty := globalQueueTail == null;
      Advance(TakerStep(t));
      assert s == after;
      Close();
    }

    /** Taking the whole stack and reversing it. */
    method ExchangeTail(ghost t: Thread) returns (head: Waiter)
      requires Valid() && TakerIn(s.takers, t).Exchange?
      modifies this`s, this`globalQueueTail, Nodes(ops, s.tail)`next
      ensures Valid() && s == Apply(old(s), TakerStep(t))
      ensures TakerIn(s.takers, t).Take? && IsList(ops, head, TakerIn(s.takers, t).list)
      ensures Queue(s) == old(Queue(s)) && s.dequeued == old(s.dequeued)
    {
      hide *;
      Open();
      ExchangeApplies(s, t);
      ReachableInv(s);
      QueueStep(s, TakerStep(t));
      ghost var after, stack := Apply(s, TakerStep(t)), s.tail;
      ListParts(ops, globalQueueTail, stack);
      ListParts(ops, globalQueueHead, s.head);
      NodesAreListed(ops, stack);
      NothingIsListed(ops);
      var tail := globalQueueTail;
      globalQueueTail := null;
      head := ReverseOnto(tail, null, NodesOf(ops, stack), []);
      ReversedList(ops, head, stack);
      Advance(TakerStep(t));
      assert s == after;
      Close();
    }

    /** The oldest operation is taken, and the rest stays for the next one. */
    method TakeHead(ghost t: Thread, head: Waiter) returns (op: Waiter)
      requires Valid() && TakerIn(s.takers, t).Take? && IsList(ops, head, TakerIn(s.takers, t).list)
      modifies this`s, this`globalQueueHead
      ensures Valid() && op == head && old(TakerIn(s.takers, t)).list != []
      ensures s == Apply(old(s), TakerStep(t)) && s.dequeued == old(s.dequeued) + [op.id]
      ensures old(Queue(s)) == [op.id] + Queue(s) && TakerIn(s.takers, t) == Unlock(true)
    {
      hide *;
      Open();
      RestOfList(ops, head, TakerIn(s.takers, t).list);
      TakeApplies(s, t);
      ReachableInv(s);
      QueueStep(s, TakerStep(t));
      ghost var after := Apply(s, TakerStep(t));
      globalQueueHead := head.next;
      op := head;
      Advance(TakerStep(t));
      assert s == after;
      Close();
    }

    /** The mutex is free, and a thread takes it. */
    method LockQueue(ghost t: Thread)
      requires Valid() && TakerIn(s.takers, t).Away? && !isLocked
      modifies this`s, this`isLocked
      ensures Valid() && s == Apply(old(s), Action.Lock(t))
      ensures TakerIn(s.takers, t).LoadHead? && Queue(s) == old(Queue(s)) && s.dequeued == old(s.dequeued)
    {
      hide *;
      Open();
      IsFree(s);
      LockApplies(s, t);
      ReachableInv(s);
      QueueStep(s, Action.Lock(t));
      ghost var after := Apply(s, Action.Lock(t));
      isLocked := true;
      Advance(Action.Lock(t));
      assert s == after;
      Close();
    }

    method UnlockQueue(ghost t: Thread)
      requires Valid() && TakerIn(s.takers, t).Unlock?
      modifies this`s, this`isLocked
      ensures Valid() && s == Apply(old(s), TakerStep(t))
      ensures TakerIn(s.takers, t).Away? && Queue(s) == old(Queue(s)) && s.dequeued == old(s.dequeued) && !isLocked
    {
      hide *;
      Open();
      UnlockApplies(s, t);
      ReachableInv(s);
      QueueStep(s, TakerStep(t));
      ghost var after := Apply(s, TakerStep(t));
      isLocked := false;
      Advance(TakerStep(t));
      assert s == after;
      Close();
    }

    // ---------------------------------------------------------------- whole calls

    /** Any steps of the others, between two steps of one thread: a caller knows no more than the contract.
        `n` bounds how often a call is still going to be interrupted, or one of its weak compare-and-swaps
        fails for no reason. */
    method Others(ghost self: Self, ghost n: nat) returns (ghost left: nat, spurious: bool)
      requires Valid()
      modifies this, ops.Values`next
      ensures Valid() && OthersRan(self, old(s), s)
      ensures left <= n && (spurious ==> left < n) && (left == n ==> s == old(s))
      ensures forall w :: w in old(ops) ==> w in ops && ops[w] == old(ops[w])
      ensures forall x :: x in ops.Values ==> x in old(ops.Values) || fresh(x)
    {
      NobodyRan(self, s);
      left, spurious := n, false;
    }

    method Pause(ghost self: Self, ghost n: nat) returns (ghost left: nat, spurious: bool)
      requires Valid()
      modifies this, ops.Values`next
      ensures Valid() && SameOwn(self, old(s), s)
      ensures left <= n && (spurious ==> left < n) && (left == n ==> s == old(s))
      ensures forall w :: w in old(ops) ==> w in ops && ops[w] == old(ops[w])
      ensures forall x :: x in ops.Values ==> x in old(ops.Values) || fresh(x)
    {
      hide *;
      ghost var before := s;
      left, spurious := Others(self, n);
      OthersLeaveOwn(self, before, s);
    }

    /** What others do while a thread holds the mutex. */
    method TakerPause(ghost t: Thread, ghost n: nat) returns (ghost left: nat, spurious: bool)
      requires Valid() && !TakerIn(s.takers, t).Away?
      modifies this, ops.Values`next
      ensures Valid() && TakerIn(s.takers, t) == old(TakerIn(s.takers, t))
      ensures Queue(old(s)) <= Queue(s) && s.dequeued == old(s.dequeued)
      ensures left <= n && (spurious ==> left < n) && (left == n ==> s == old(s))
      ensures forall w :: w in old(ops) ==> w in ops && ops[w] == old(ops[w])
      ensures forall x :: x in ops.Values ==> x in old(ops.Values) || fresh(x)
    {
      hide *;
      Open();
      ReachableInv(s);
      ghost var before := s;
      left, spurious := Others(Taking(t), n);
      OthersLeaveOwn(Taking(t), before, s);
      OthersOnlyPush(t, before, s);
      StillTaking(t, before, s);
      OnlyMore(before, s);
    }

    /** `remote_enqueue`, whatever others do meanwhile: at its return the operation is the last of the queue. */
    method RemoteEnqueue(op: Waiter, ghost n: nat) returns (ghost left: nat)
      requires Valid() && op.id !in ops && Enabled(s, StartEnqueue(op.id))
      modifies this, ops.Values`next, op`next
      ensures Valid() && left <= n && Queue(s) != [] && Queue(s)[|Queue(s)| - 1] == op.id && op.id in s.enqueued
      ensures left == n ==> Queue(s) == old(Queue(s)) + [op.id]
    {
      hide *;
      ghost var first := Queue(s);
      var tail := LoadForEnqueue(op);
      left := n;
      var pushed := false;
      while !pushed
        invariant Valid() && op.id in ops && ops[op.id] == op && left <= n
        invariant forall x :: x in ops.Values ==> x in old(ops.Values) || x == op || fresh(x)
        invariant if pushed then Queue(s) != [] && Queue(s)[|Queue(s)| - 1] == op.id && op.id in s.enqueued
                  else op.id in s.pushers && s.pushers[op.id] == TopOf(s.tail) && Stands(ops, tail, s.pushers[op.id])
        invariant left == n ==> Queue(s) == first + if pushed then [op.id] else []
        decreases !pushed, left
      {
        ghost var known := ops;
        var spurious;
        ghost var before := s;
        left, spurious := Pause(Pushing(op.id), left);
        StillPushing(op.id, before, s);
        StandsOn(known, ops, tail, s.pushers[op.id]);
        pushed, tail := TryPush(op, tail, spurious);
      }
    }

    /** `try_global_dequeue` from when it has got the mutex, whatever pushing threads do meanwhile: it takes the
        operation that was the first of the queue at its start, and comes back empty-handed only when there
        was none. */
    method TryGlobalDequeue(ghost t: Thread, ghost n: nat) returns (taken: Waiter?, ghost left: nat)
      requires Valid() && TakerIn(s.takers, t).Away? && !isLocked
      modifies this, ops.Values`next
      ensures Valid() && TakerIn(s.takers, t).Away? && !isLocked && left <= n
      ensures s.dequeued == old(s.dequeued) + (if taken == null then [] else [taken.id])
      ensures old(Queue(s)) != [] ==> taken != null && taken.id == old(Queue(s))[0]
      ensures left == n ==> (taken == null <==> old(Queue(s)) == [])
    {
      hide *;
      LockQueue(t);
      left, taken := TakeOldest(t, n);
      var spurious;
      left, spurious := TakerPause(t, left);
      UnlockQueue(t);
    }

    /** The work under the mutex. */
    method TakeOldest(ghost t: Thread, ghost n: nat) returns (ghost left: nat, taken: Waiter?)
      requires Valid() && TakerIn(s.takers, t).LoadHead?
      modifies this, ops.Values`next
      ensures Valid() && TakerIn(s.takers, t) == Unlock(taken != null) && left <= n
      ensures s.dequeued == old(s.dequeued) + (if taken == null then [] else [taken.id])
      ensures old(Queue(s)) != [] ==> taken != null && taken.id == old(Queue(s))[0]
      ensures left == n ==> (taken == null <==> old(Queue(s)) == [])
      ensures forall w :: w in old(ops) ==> w in ops && ops[w] == old(ops[w])
      ensures forall x :: x in ops.Values ==> x in old(ops.Values) || fresh(x)
    {
      hide *;
      left := n;
      var spurious;
      var head := LoadQueueHead(t);
      if head == null {
        left, spurious := TakerPause(t, left);
        var empty := LoadQueueTail(t);
        if empty {
          return left, null;
        }
        left, spurious := TakerPause(t, left);
        NodesAreOperations(ops, s.tail);
        head := ExchangeTail(t);
      }
      taken := TakeHead(t, head);
    }
  }

  lemma IsFree(s: State)
    ensures !s.mutex.HeldBy? <==> s.mutex.Free?
  {
  }

  lemma OnlyMore(s: State, s': State)
    requires OnlyPushed(s, s')
    ensures Queue(s) <= Queue(s') && s'.dequeued == s.dequeued
  {
  }

  lemma StillPushing(op: Op, s: State, s': State)
    requires SameOwn(Pushing(op), s, s') && op in s.pushers
    ensures op in s'.pushers && s'.pushers[op] == s.pushers[op]
  {
  }

  lemma StillTaking(t: Thread, s: State, s': State)
    requires SameOwn(Taking(t), s, s')
    ensures TakerIn(s'.takers, t) == TakerIn(s.takers, t)
  {
  }

  lemma PusherIsFree(s: State, op: Op)
    requires Reachable(s) && op in s.pushers
    ensures op !in s.head && op !in s.tail
  {
    ReachableInv(s);
    InReverse(s.tail, op);
    QueueIsEnqueued(s);
  }

  lemma QueueIsEnqueued(s: State)
    requires Inv(s)
    ensures forall op :: op in s.head ==> op in s.enqueued
    ensures forall op :: op in Reverse(s.tail) ==> op in s.enqueued
  {
    assert forall op :: op in Queue(s) ==> op in s.enqueued;
  }

  lemma StartApplies(s: State, op: Op)
    requires Enabled(s, StartEnqueue(op))
    ensures var s' := Apply(s, StartEnqueue(op));
            s'.head == s.head && s'.tail == s.tail && s'.mutex == s.mutex && op in s'.pushers && s'.pushers[op] == TopOf(s.tail)
  {
  }

  lemma PushApplies(s: State, op: Op, spurious: bool)
    requires op in s.pushers
    ensures Enabled(s, Action.TryPush(op, spurious))
    ensures var s', pushed := Apply(s, Action.TryPush(op, spurious)), TopOf(s.tail) == s.pushers[op] && !spurious;
            && s'.head == s.head && s'.mutex == s.mutex && s'.tail == (if pushed then [op] + s.tail else s.tail)
            && s'.enqueued == (if pushed then s.enqueued + [op] else s.enqueued)
            && (!pushed ==> op in s'.pushers && s'.pushers[op] == TopOf(s.tail))
  {
  }

  lemma HeadApplies(s: State, t: Thread)
    requires TakerIn(s.takers, t).LoadHead?
    ensures Enabled(s, TakerStep(t))
    ensures var s' := Apply(s, TakerStep(t));
            && s'.head == s.head && s'.tail == s.tail && s'.mutex == s.mutex
            && TakerIn(s'.takers, t) == if s.head != [] then Take(s.head) else LoadTail
  {
  }

  lemma TailApplies(s: State, t: Thread)
    requires Reachable(s) && TakerIn(s.takers, t).LoadTail?
    ensures Enabled(s, TakerStep(t))
    ensures var s' := Apply(s, TakerStep(t));
            && s'.head == s.head && s'.tail == s.tail && s'.mutex == s.mutex && (s.tail == [] <==> Queue(s) == [])
            && TakerIn(s'.takers, t) == if s.tail == [] then Unlock(false) else Exchange
  {
    EmptyMeansEmpty(s, t);
    TailIsQueue(s, t);
  }

  lemma TailIsQueue(s: State, t: Thread)
    requires Reachable(s) && TakerIn(s.takers, t).LoadTail?
    ensures Queue(s) == [] ==> s.tail == []
  {
    ReachableInv(s);
    assert |Reverse(s.tail)| == |s.tail|;
  }

  lemma ExchangeApplies(s: State, t: Thread)
    requires Reachable(s) && TakerIn(s.takers, t).Exchange?
    ensures Enabled(s, TakerStep(t)) && s.tail != [] && s.head == []
    ensures var s' := Apply(s, TakerStep(t));
            s'.head == s.head && s'.tail == [] && s'.mutex == s.mutex && TakerIn(s'.takers, t) == Take(Reverse(s.tail))
  {
    EmptyMeansEmpty(s, t);
  }

  lemma TakeApplies(s: State, t: Thread)
    requires TakerIn(s.takers, t).Take? && TakerIn(s.takers, t).list != []
    ensures Enabled(s, TakerStep(t))
    ensures var s', list := Apply(s, TakerStep(t)), TakerIn(s.takers, t).list;
            s'.head == list[1..] && s'.tail == s.tail && s'.mutex == s.mutex && s'.dequeued == s.dequeued + [list[0]]
  {
  }

  lemma LockApplies(s: State, t: Thread)
    requires TakerIn(s.takers, t).Away? && s.mutex.Free?
    ensures Enabled(s, Action.Lock(t))
    ensures var s' := Apply(s, Action.Lock(t));
            && s'.head == s.head && s'.tail == s.tail && s'.mutex.HeldBy? && TakerIn(s'.takers, t).LoadHead?
            && s'.enqueued == s.enqueued && s'.dequeued == s.dequeued
  {
  }

  lemma UnlockApplies(s: State, t: Thread)
    requires TakerIn(s.takers, t).Unlock?
    ensures Enabled(s, TakerStep(t))
    ensures var s' := Apply(s, TakerStep(t));
            && s'.head == s.head && s'.tail == s.tail && s'.mutex.Free? && TakerIn(s'.takers, t).Away?
            && s'.enqueued == s.enqueued && s'.dequeued == s.dequeued
  {
  }
}
