/** `async_auto_reset_event` with its packed 64-bit state. Each method is one atomic operation, or one move
    of the wait list's owner; local variables are passed in and out. Every method is proved to be the
    step of the machine in `AutoResetEvent`, so what is proved there about all runs holds of the packed
    representation; in particular no subtraction ever borrows between its halves. The waiting operations
    are linked through their own fields, and so is the list of those that a thread is about to resume.
    Whole calls made of these methods follow at the end of the class. */
module AsyncAutoResetEvents {
  import opened Words
  import opened Lists
  import opened IntrusiveLists
  import opened Operations
  import opened AutoResetEvent

  const SET_INCREMENT: Word := 1
  const WAITER_INCREMENT: Word := 0x1_0000_0000

  /** Bits 0-31 of the state. */
  function GetSetCount(state: Word): nat
  {
    state % HALF
  }

  /** Bits 32-63 of the state. */
  function GetWaiterCount(state: Word): nat
  {
    state / HALF
  }

  function GetResumableWaiterCount(state: Word): nat
  {
    Min(GetSetCount(state), GetWaiterCount(state))
  }

  function Pack(c: Counts): (state: Word)
    requires Fits(c)
    ensures GetSetCount(state) == c.sets && GetWaiterCount(state) == c.waiters
  {
    RemainderIs(c.sets + c.waiters * HALF, HALF, c.waiters, c.sets);
    c.sets + c.waiters * HALF
  }

  lemma PackIsInjective(c: Counts, d: Counts)
    requires Fits(c) && Fits(d)
    ensures Pack(c) == Pack(d) <==> c == d
  {
  }

  /** Taking the same number off both halves is one subtraction of the packed words. */
  lemma PackSubtracts(c: Counts, n: nat)
    requires Fits(c) && n <= c.sets && n <= c.waiters
    ensures Fits(Counts(c.sets - n, c.waiters - n))
    ensures Pack(c) - (n + n * HALF) == Pack(Counts(c.sets - n, c.waiters - n))
  {
    DistributeSum(c.waiters - n, n, HALF);
  }

  /** The end of a round, on packed words. */
  lemma SubtractedWord(c: Counts, n: nat)
    requires Fits(c) && n <= c.sets && n <= c.waiters
    ensures var d := Counts(c.sets - n, c.waiters - n);
            && Fits(d) && Wrap(Pack(c) - (n + n * HALF)) == Pack(d)
            && GetSetCount(Pack(d)) == GetSetCount(Pack(c)) - n && GetWaiterCount(Pack(d)) == GetWaiterCount(Pack(c)) - n
            && GetResumableWaiterCount(Pack(d)) == Resumable(d)
  {
    hide Pack, Wrap;
    var d := Counts(c.sets - n, c.waiters - n);
    PackSubtracts(c, n);
    WrapSmall(Pack(d));
  }

  /** The arrival of a waiter, on packed words. */
  lemma CountedWord(c: Counts)
    requires Fits(c) && c.waiters + 2 < HALF
    ensures var d := Counts(c.sets, c.waiters + 1);
            && Fits(d) && Wrap(Pack(c) + WAITER_INCREMENT) == Pack(d) && GetWaiterCount(Pack(c)) == c.waiters
            && GetResumableWaiterCount(Pack(d)) == Resumable(d) && (Pack(c) == 0 <==> c == Counts(0, 0))
  {
    hide Wrap;
    var d := Counts(c.sets, c.waiters + 1);
    DistributeSum(c.waiters, 1, HALF);
    WrapSmall(Pack(d));
    PackIsInjective(c, Counts(0, 0));
  }

  // ---------------------------------------------------------------- the linked operations

  /** The fields of the operations of a list link them into a null-terminated list. */
  ghost predicate Kept(ops: map<nat, Waiter>, list: seq<nat>)
    reads ops.Values`next
  {
    (forall w :: w in list ==> w in ops) && Linked(First(NodesOf(ops, list)), NodesOf(ops, list))
  }

  /** The pointers `waitersToResumeList` and `waitersToResumeListEnd` of a thread. */
  ghost predicate Pointers(ops: map<nat, Waiter>, list: Waiter?, last: Waiter?, batch: seq<nat>)
  {
    (forall w :: w in batch ==> w in ops) && list == First(NodesOf(ops, batch)) && last == Last(NodesOf(ops, batch))
  }

  /** The list that each thread is about to resume is as it built it. */
  ghost predicate Intact(ops: map<nat, Waiter>, acts: map<Id, Activity>)
    reads ops.Values`next
  {
    forall id: Id :: Kept(ops, Batch(ActIn(acts, id)))
  }

  ghost predicate RefCounts(ops: map<nat, Waiter>, refs: map<Id, nat>)
    reads ops.Values`refCount
  {
    ops.Keys == refs.Keys && forall w :: w in ops ==> ops[w].refCount == refs[w]
  }

  /** All lists, for what the machine has in them. */
  ghost predicate Represents(ops: map<nat, Waiter>, newWaiters: Waiter?, waiters: Waiter?, s: State)
    reads ops.Values`next, ops.Values`refCount
  {
    && Identified(ops) && RefCounts(ops, s.refs)
    && IsList(ops, newWaiters, s.newWaiters) && IsList(ops, waiters, s.queue) && Intact(ops, s.acts)
  }

  class Event {
    var state: Word
    var newWaiters: Waiter?
    var waiters: Waiter?
    /** Every operation that has been queued. */
    ghost var ops: map<nat, Waiter>
    ghost var s: State

    ghost predicate Valid()
      reads this, ops.Values`next, ops.Values`refCount
    {
      Reachable(s) && Fits(s.counts) && state == Pack(s.counts) && Represents(ops, newWaiters, waiters, s)
    }

    constructor (initiallySet: bool)
      ensures Valid() && s == Init(initiallySet)
    {
      state := if initiallySet then SET_INCREMENT else 0;
      newWaiters, waiters, ops := null, null, map[];
      s := Init(initiallySet);
      new;
      InitReachable(initiallySet);
    }

    ghost method Advance(a: Action)
      requires Reachable(s) && Enabled(s, a)
      modifies this`s
      ensures Reachable(s) && Fits(s.counts) && s == Apply(old(s), a)
    {
      hide Inv;
      StepKeepsReachable(s, a);
      s := Apply(s, a);
      ReachableInv(s);
      StepFacts(s, a.id);
    }

    /** A step that does not concern the lists. */
    ghost method AdvanceCounts(a: Action)
      requires Reachable(s) && Enabled(s, a) && LeavesLists(s, a) && Represents(ops, newWaiters, waiters, s)
      modifies this`s
      ensures Reachable(s) && Fits(s.counts) && s == Apply(old(s), a) && Represents(ops, newWaiters, waiters, s)
    {
      hide *;
      CountsApply(s, a);
      ghost var after := Apply(s, a);
      StepIsIntact(ops, newWaiters, waiters, s, after, a.id);
      Advance(a);
      assert s == after;
    }

    lemma Open()
      requires Valid()
      ensures Reachable(s) && Inv(s) && Fits(s.counts) && state == Pack(s.counts) && Represents(ops, newWaiters, waiters, s)
    {
      hide Inv, Reachable, Represents;
      ReachableInv(s);
    }

    lemma Close()
      requires Reachable(s) && Fits(s.counts) && state == Pack(s.counts) && Represents(ops, newWaiters, waiters, s)
      ensures Valid()
    {
    }

    /** A call arrives: `set`, `reset` or `co_await`. */
    method Call(id: Id, call: Call)
      requires Valid() && id !in s.acts
      modifies this`s
      ensures Valid() && s == Apply(old(s), Start(id, call)) && SameEvent(old(s), s) && id in s.acts
      ensures Act(s, id) == match call case Set => SetLoad case Reset => ResetLoad case Await => AwaitLoad
    {
      hide Inv, Reachable, Represents;
      ReachableInv(s);
      AdvanceCounts(Start(id, call));
    }

    /** The load of the state with the test that follows it. */
    method LoadState(id: Id) returns (oldState: Word, isSet: bool)
      requires Valid() && (Act(s, id).SetLoad? || Act(s, id).ResetLoad? || Act(s, id).AwaitLoad?)
      modifies this`s
      ensures Valid() && s == Apply(old(s), Step(id, false)) && SameEvent(old(s), s) && id in s.acts
      ensures Fits(s.counts) && oldState == Pack(s.counts) && (isSet <==> IsSet(s.counts))
      ensures old(Act(s, id)).SetLoad? && isSet ==> id in s.outcomes && s.outcomes[id] == FoundSet(s.counts)
      ensures old(Act(s, id)).ResetLoad? && !isSet ==> id in s.outcomes && s.outcomes[id] == FoundUnset(s.counts)
      ensures old(Act(s, id)).SetLoad? ==> Act(s, id) == SetTest(s.counts)
      ensures old(Act(s, id)).ResetLoad? ==> Act(s, id) == ResetTest(s.counts)
      ensures old(Act(s, id)).AwaitLoad? ==> Act(s, id) == if isSet then AwaitCas(s.counts) else AwaitPush
    {
      hide Inv, Reachable, Represents;
      ReachableInv(s);
      oldState := state;
      isSet := GetSetCount(oldState) > GetWaiterCount(oldState);
      AdvanceCounts(Step(id, false));
    }

    /** `set`'s compare-and-swap; on success, whether it took ownership of the wait list, and how many
        waiters it then has to resume first; on failure, the value it read. */
    method SetCompareExchange(id: Id, oldState: Word, spurious: bool)
      returns (swapped: bool, seen: Word, resume: bool, count: nat)
      requires Valid() && Act(s, id).SetCas? && Fits(Act(s, id).seen) && oldState == Pack(Act(s, id).seen)
      modifies this`s, this`state
      ensures Valid() && s == Apply(old(s), Step(id, spurious))
      ensures swapped <==> old(Act(s, id)).seen == old(s.counts) && !spurious
      ensures swapped ==> SameLine(old(s), s) && s.counts == Counts(old(s.counts).sets + 1, old(s.counts).waiters)
      ensures swapped ==> s.setsDone == old(s.setsDone) + 1 && s.resetsDone == old(s.resetsDone)
      ensures swapped ==> id in s.outcomes && s.outcomes[id] == SetDone
      ensures resume <==> swapped && old(s.counts).sets == 0 && old(s.counts).waiters > 0
      ensures resume ==> count == Act(s, id).todo == Act(s, id).round
      ensures id in s.acts && (!swapped ==> SameEvent(old(s), s))
      ensures !swapped && IsSet(s.counts) ==> id in s.outcomes && s.outcomes[id] == FoundSet(s.counts)
      ensures !swapped ==> Fits(s.counts) && seen == Pack(s.counts) && Act(s, id) == SetTest(s.counts)
      ensures swapped ==> Act(s, id) == if resume then Draining(false, [], 1, 1) else Finished
    {
      hide *;
      Open();
      SetCasApplies(s, id, spurious);
      SetWord(s.counts, Act(s, id).seen);
      ghost var after := Apply(s, Step(id, spurious));
      seen, swapped := state, state == oldState && !spurious;
      resume, count := false, 0;
      if swapped {
        state := oldState + SET_INCREMENT;
        resume := oldState != 0 && GetSetCount(oldState) == 0;
      }
      AdvanceCounts(Step(id, spurious));
      if resume {
        count := GetResumableWaiterCount(oldState + SET_INCREMENT);
      }
      assert s == after;
      Close();
    }

    /** `reset`'s compare-and-swap. */
    method ResetCompareExchange(id: Id, oldState: Word, spurious: bool) returns (swapped: bool, seen: Word)
      requires Valid() && Act(s, id).ResetCas? && Fits(Act(s, id).seen) && oldState == Pack(Act(s, id).seen)
      modifies this`s, this`state
      ensures Valid() && s == Apply(old(s), Step(id, spurious))
      ensures swapped <==> old(Act(s, id)).seen == old(s.counts) && !spurious
      ensures swapped ==> ResetsEvent(old(s), s) && IsSet(old(s.counts)) && id in s.outcomes && s.outcomes[id] == ResetDone
      ensures swapped ==> Act(s, id).Finished?
      ensures id in s.acts && (!swapped ==> SameEvent(old(s), s))
      ensures !swapped ==> Fits(s.counts) && seen == Pack(s.counts) && Act(s, id) == ResetTest(s.counts)
      ensures !swapped && !IsSet(s.counts) ==> id in s.outcomes && s.outcomes[id] == FoundUnset(s.counts)
    {
      hide Inv, Reachable, Represents;
      ReachableInv(s);
      StepFacts(s, id);
      PackIsInjective(s.counts, Act(s, id).seen);
      seen, swapped := state, state == oldState && !spurious;
      if swapped {
        state := oldState - SET_INCREMENT;
      }
      AdvanceCounts(Step(id, spurious));
    }

    /** `co_await`'s attempt to acquire the event at once. */
    method TryAcquire(id: Id, oldState: Word) returns (acquired: bool)
      requires Valid() && Act(s, id).AwaitCas? && Fits(Act(s, id).seen) && oldState == Pack(Act(s, id).seen)
      modifies this`s, this`state
      ensures Valid() && s == Apply(old(s), Step(id, false))
      ensures acquired <==> old(Act(s, id)).seen == old(s.counts)
      ensures Act(s, id) == if acquired then Acquired else AwaitPush
      ensures acquired ==> SameLine(old(s), s) && s.counts == Counts(old(s.counts).sets - 1, old(s.counts).waiters)
      ensures !acquired ==> SameEvent(old(s), s)
    {
      hide Inv, Reachable, Represents;
      ReachableInv(s);
      StepFacts(s, id);
      PackIsInjective(s.counts, Act(s, id).seen);
      acquired := state == oldState;
      if acquired {
        state := oldState - SET_INCREMENT;
      }
      AdvanceCounts(Step(id, false));
    }

    /** `await_suspend`'s load of the stack of new waiters. */
    method LoadNewWaiters(id: Id) returns (head: Waiter?)
      requires Valid() && Act(s, id).AwaitPush?
      modifies this`s
      ensures Valid() && s == Apply(old(s), Step(id, false))
      ensures Act(s, id).AwaitPushCas? && Stands(ops, head, Act(s, id).top) && SameEvent(old(s), s)
      ensures Act(s, id).top == TopOf(s.newWaiters)
    {
      hide *;
      Open();
      HeadApplies(s, id);
      RepresentsParts(ops, newWaiters, waiters, s);
      TopStands(ops, newWaiters, s.newWaiters);
      ghost var after := Apply(s, Step(id, false));
      head := newWaiters;
      AdvanceCounts(Step(id, false));
      assert s == after;
      Close();
    }

    /** One turn of `await_suspend`'s loop: the operation's link is written, then the compare-and-swap tried. */
    method TryPushWaiter(op: Waiter, head: Waiter?, spurious: bool) returns (pushed: bool, seen: Waiter?)
      requires Valid() && Act(s, op.id).AwaitPushCas? && Stands(ops, head, Act(s, op.id).top) && op.refCount == 2
      modifies this`s, this`newWaiters, this`ops, op`next
      ensures Valid() && s == Apply(old(s), Step(op.id, spurious))
      ensures ops == if pushed then old(ops)[op.id := op] else old(ops)
      ensures pushed <==> Act(s, op.id).AwaitCount?
      ensures !pushed ==> Act(s, op.id).AwaitPushCas? && Stands(ops, seen, Act(s, op.id).top)
      ensures old(Act(s, op.id)).top == TopOf(old(s.newWaiters)) && !spurious ==> pushed
      ensures !pushed ==> Act(s, op.id).top == TopOf(s.newWaiters)
      ensures if pushed then Joins(old(s), s, op.id) else SameEvent(old(s), s)
    {
      hide *;
      Open();
      PushApplies(s, op.id, spurious);
      OpIsNew(ops, op, newWaiters, waiters, s);
      RepresentsParts(ops, newWaiters, waiters, s);
      TopStands(ops, newWaiters, s.newWaiters);
      SamePointer(ops, newWaiters, TopOf(s.newWaiters), head, Act(s, op.id).top);
      ghost var after := Apply(s, Step(op.id, spurious));
      op.next := head;
      seen, pushed := newWaiters, newWaiters == head && !spurious;
      if pushed {
        PushedRepresents(ops, op, newWaiters, waiters, s, after);
        newWaiters, ops := op, ops[op.id := op];
      } else {
        StepIsIntact(ops, newWaiters, waiters, s, after, op.id);
      }
      Advance(Step(op.id, spurious));
      assert s == after;
      Close();
    }

    /** `await_suspend` counts the operation, and may find itself the owner of the wait list. */
    method CountWaiter(id: Id) returns (resume: bool, count: nat)
      requires Valid() && Act(s, id).AwaitCount? && s.counts.waiters + 2 < HALF
      modifies this`s, this`state
      ensures Valid() && s == Apply(old(s), Step(id, false))
      ensures resume <==> Act(s, id).Draining?
      ensures resume ==> count == Act(s, id).todo == Act(s, id).round
      ensures Act(s, id) == if resume then Draining(true, [], 1, 1) else AwaitRelease
      ensures resume <==> old(s.counts).sets > 0 && old(s.counts).waiters == 0
      ensures SameLine(old(s), s) && s.counts == Counts(old(s.counts).sets, old(s.counts).waiters + 1)
      ensures s.setsDone == old(s.setsDone) && s.resetsDone == old(s.resetsDone)
    {
      hide *;
      Open();
      CountApplies(s, id);
      CountedWord(s.counts);
      ghost var after := Apply(s, Step(id, false));
      var oldState := state;
      state := Wrap(state + WAITER_INCREMENT);
      resume := oldState != 0 && GetWaiterCount(oldState) == 0;
      AdvanceCounts(Step(id, false));
      count := GetResumableWaiterCount(state);
      assert s == after;
      Close();
    }

    /** The owner has used up the waiters it knows: it takes the stack of new ones, which cannot be empty,
        and reverses it. */
    method RefillWaiters(ghost id: Id)
      requires Valid() && Act(s, id).Draining? && Act(s, id).todo > 0 && waiters == null
      modifies this`s, this`newWaiters, this`waiters, Nodes(ops, s.newWaiters)`next
      ensures Valid() && s == Apply(old(s), Step(id, false)) && old(newWaiters) != null && waiters != null
      ensures Act(s, id) == old(Act(s, id)) && s.counts == old(s.counts)
      ensures SameEvent(old(s), s) && s.outcomes == old(s.outcomes)
    {
      hide *;
      Open();
      RepresentsParts(ops, newWaiters, waiters, s);
      RefillApplies(s, id);
      ghost var after := Apply(s, Step(id, false));
      NewIsInNoBatch(s);
      var exchanged := newWaiters;
      newWaiters := null;
      waiters := ReverseNew(exchanged, ops, s);
      NothingIsListed(ops);
      MakeRepresents(ops, null, waiters, after);
      Advance(Step(id, false));
      assert s == after;
      Close();
    }

    /** The first known waiter moves to the end of the list of those to resume. */
    method TakeWaiter(ghost id: Id, list: Waiter?, last: Waiter?) returns (list': Waiter, last': Waiter)
      requires Valid() && Act(s, id).Draining? && Act(s, id).todo > 0 && waiters != null
      requires Pointers(ops, list, last, Batch(Act(s, id)))
      modifies this`s, this`waiters, waiters`next, (if last == null then {} else {last})`next
      ensures Valid() && s == Apply(old(s), Step(id, false)) && last' == old(waiters)
      ensures s.taken == old(s.taken) + [last'.id] && Pointers(ops, list', last', Batch(Act(s, id)))
      ensures var d := old(Act(s, id)); Act(s, id) == Draining(d.waiter, d.batch + [last'.id], d.todo - 1, d.round) && s.counts == old(s.counts)
      ensures old(Line(s)) != [] && last'.id == old(Line(s))[0] && Drained(old(s), s, 1, 0) && s.outcomes == old(s.outcomes)
    {
      hide *;
      Open();
      RepresentsParts(ops, newWaiters, waiters, s);
      TakeApplies(s, id);
      ghost var after := Apply(s, Step(id, false));
      var waiterToResume := waiters;
      RestOfList(ops, waiters, s.queue);
      waiters := waiterToResume.next;
      TakenIsApart(s, id);
      list', last' := MoveToBatch(waiterToResume, list, last, ops, newWaiters, waiters, s, id);
      IntactAfter(ops, s, id, after);
      MakeRepresents(ops, newWaiters, waiters, after);
      Advance(Step(id, false));
      assert s == after;
      Close();
    }

    /** The end of a round: one subtraction takes the round off both counts, without a borrow. */
    method SubtractRound(id: Id, waiterCountToResume: nat) returns (next: nat)
      requires Valid() && Act(s, id).Draining? && Act(s, id).todo == 0 && waiterCountToResume == Act(s, id).round
      modifies this`s, this`state
      ensures Valid() && s == Apply(old(s), Step(id, false))
      ensures GetSetCount(state) == GetSetCount(old(state)) - waiterCountToResume
      ensures GetWaiterCount(state) == GetWaiterCount(old(state)) - waiterCountToResume
      ensures next > 0 <==> Act(s, id).Draining?
      ensures next > 0 ==> next == Act(s, id).todo == Act(s, id).round
      ensures var d := old(Act(s, id));
              Act(s, id) == if next > 0 then Draining(d.waiter, d.batch, next, next) else Resuming(d.waiter, d.batch)
      ensures old(Act(s, id)).batch != []
      ensures s.counts.waiters < old(s.counts.waiters) && next == Resumable(s.counts)
      ensures Drained(old(s), s, 0, waiterCountToResume) && s.outcomes == old(s.outcomes)
    {
      hide Inv, Apply, Enabled, Reachable, Represents, Pack, Wrap, GetSetCount, GetWaiterCount, GetResumableWaiterCount, Resumable;
      ReachableInv(s);
      RoundIsCovered(s, id);
      RoundApplies(s, id);
      SubtractedWord(s.counts, waiterCountToResume);
      ghost var after := Apply(s, Step(id, false));
      // the two halves of delta share no bits, so their bitwise union is their sum
      var delta := waiterCountToResume + waiterCountToResume * HALF;
      state := Wrap(state - delta);
      next := GetResumableWaiterCount(state);
      AdvanceCounts(Step(id, false));
      assert s == after;
    }

    /** A thread lets go of the first waiter of its list, whose link it has read before, and resumes its
        coroutine if it was the last to hold it. */
    method ResumeOne(ghost id: Id, waiter: Waiter) returns (next: Waiter?, resumed: bool)
      requires Valid() && Act(s, id).Resuming? && IsList(ops, waiter, Batch(Act(s, id)))
      modifies this`s, waiter`refCount
      ensures Valid() && s == Apply(old(s), Step(id, false)) && IsList(ops, next, Batch(Act(s, id)))
      ensures s.continued == old(s.continued) + (if resumed then multiset{waiter.id} else multiset{})
      ensures Act(s, id) == AfterBatch(old(Act(s, id)).waiter, old(Act(s, id)).batch[1..])
      ensures old(Batch(Act(s, id))) != [] && waiter.id == old(Batch(Act(s, id)))[0]
      ensures Released(old(s), s, [waiter.id]) && s.outcomes == old(s.outcomes) && id in s.acts
    {
      hide *;
      Open();
      RepresentsParts(ops, newWaiters, waiters, s);
      RestOfList(ops, waiter, Batch(Act(s, id)));
      ResumeApplies(s, id);
      ghost var after := Apply(s, Step(id, false));
      next := waiter.next;
      MakeKept(ops, next, Batch(Act(after, id)));
      resumed := Decrement(waiter, ops, s.refs);
      StepRepresents(ops, newWaiters, waiters, s, after, id);
      Advance(Step(id, false));
      assert s == after;
      Close();
    }

    /** The end of `await_suspend`: the waiter's own reference is dropped, and its coroutine goes on at once
        if that was the last one. */
    method DropOwnReference(op: Waiter) returns (suspended: bool)
      requires Valid() && Act(s, op.id).AwaitRelease? && op.id in ops && ops[op.id] == op
      modifies this`s, op`refCount
      ensures Valid() && s == Apply(old(s), Step(op.id, false))
      ensures s.continued == old(s.continued) + (if suspended then multiset{} else multiset{op.id})
      ensures Act(s, op.id).Left? && SameEvent(old(s), s)
      ensures suspended <==> s.continued[op.id] == 0
      ensures suspended <==> op.id !in s.served
    {
      hide *;
      Open();
      RepresentsParts(ops, newWaiters, waiters, s);
      ReleaseApplies(s, op.id);
      ghost var after := Apply(s, Step(op.id, false));
      NothingKept(ops);
      var last := Decrement(op, ops, s.refs);
      suspended := !last;
      StepRepresents(ops, newWaiters, waiters, s, after, op.id);
      Advance(Step(op.id, false));
      assert s == after;
      Close();
    }

    // ---------------------------------------------------------------- whole calls

    /** Any steps of the others, between two steps of one activity: a caller knows no more than the contract.
        `n` bounds how often a call is still going to be interrupted, or one of its weak compare-and-swaps
        fails for no reason. If there is room for another waiter there still is afterwards. */
    method Others(ghost id: Id, ghost n: nat) returns (ghost left: nat, spurious: bool)
      requires Valid()
      modifies this, ops.Values`next, ops.Values`refCount
      ensures Valid() && OthersRan(id, old(s), s) && (old(HasRoom(s)) ==> HasRoom(s))
      ensures left <= n && (spurious ==> left < n) && (left == n ==> s == old(s))
      ensures forall w :: w in old(ops) ==> w in ops && ops[w] == old(ops[w])
      ensures forall x :: x in ops.Values ==> x in old(ops.Values) || fresh(x)
    {
      NobodyRan(id, s);
      left, spurious := n, false;
    }

    method Pause(ghost id: Id, ghost n: nat) returns (ghost left: nat, spurious: bool)
      requires Valid()
      modifies this, ops.Values`next, ops.Values`refCount
      ensures Valid() && Act(s, id) == old(Act(s, id)) && (old(HasRoom(s)) ==> HasRoom(s))
      ensures id in old(s).acts ==> id in s.acts
      ensures id in old(s).outcomes ==> id in s.outcomes && s.outcomes[id] == old(s).outcomes[id]
      ensures left <= n && (spurious ==> left < n) && (left == n ==> s == old(s))
      ensures forall w :: w in old(ops) ==> w in ops && ops[w] == old(ops[w])
      ensures forall x :: x in ops.Values ==> x in old(ops.Values) || fresh(x)
    {
      hide *;
      ghost var before := s;
      left, spurious := Others(id, n);
      OthersLeaveAct(id, before, s);
      OutcomeStays(id, before, s);
    }

    /** The start of a call: the load of the state and the test of it. */
    method FirstLoad(id: Id, call: Call, ghost n: nat) returns (oldState: Word, isSet: bool, ghost left: nat)
      requires Valid() && id !in s.acts
      modifies this, ops.Values`next, ops.Values`refCount
      ensures Valid() && id in s.acts && left <= n && (left == n ==> SameEvent(old(s), s))
      ensures Fits(s.counts) && oldState == Pack(s.counts) && (isSet <==> IsSet(s.counts))
      ensures call.Set? ==> Act(s, id) == if isSet then Finished else SetCas(s.counts)
      ensures call.Set? && isSet ==> id in s.outcomes && s.outcomes[id] == FoundSet(s.counts)
      ensures call.Reset? ==> Act(s, id) == if isSet then ResetCas(s.counts) else Finished
      ensures call.Reset? && !isSet ==> id in s.outcomes && s.outcomes[id] == FoundUnset(s.counts)
      ensures call.Await? ==> Act(s, id) == if isSet then AwaitCas(s.counts) else AwaitPush
      ensures forall w :: w in old(ops) ==> w in ops && ops[w] == old(ops[w])
      ensures forall x :: x in ops.Values ==> x in old(ops.Values) || fresh(x)
    {
      hide *;
      ghost var first := s;
      var spurious;
      Call(id, call);
      left, spurious := Pause(id, n);
      ghost var mid := s;
      oldState, isSet := LoadState(id);
      if left == n {
        SameTogether(first, mid, s);
      }
      SetTestIs(s.counts);
      ResetTestIs(s.counts);
    }

    /** `set`, whatever others do meanwhile: it has set the event, or has found it set. When nobody interferes it
        serves the longest waiting operation, if there is one and no set was pending. */
    method Set(id: Id, ghost n: nat) returns (ghost left: nat)
      requires Valid() && id !in s.acts
      modifies this, ops.Values`next, ops.Values`refCount
      ensures Valid() && id in s.acts && Act(s, id).Finished? && left <= n
      ensures id in s.outcomes && (s.outcomes[id].SetDone? || (s.outcomes[id].FoundSet? && IsSet(s.outcomes[id].seen)))
      ensures left == n ==> SetsEvent(old(s), s)
    {
      hide *;
      ghost var first := s;
      var swapped, resume, count;
      left, swapped, resume, count := CountSet(id, n);
      ghost var mid := s;
      if resume {
        left := ResumeWaiters(id, count, left);
      }
      if left == n && swapped {
        SetThenServes(first, mid, s);
      }
    }

    /** The loop of `set`: the set is counted, unless the event is found set. */
    method CountSet(id: Id, ghost n: nat) returns (ghost left: nat, swapped: bool, resume: bool, count: nat)
      requires Valid() && id !in s.acts
      modifies this, ops.Values`next, ops.Values`refCount
      ensures Valid() && id in s.acts && left <= n
      ensures forall w :: w in old(ops) ==> w in ops && ops[w] == old(ops[w])
      ensures forall x :: x in ops.Values ==> x in old(ops.Values) || fresh(x)
      ensures Act(s, id) == (if resume then Draining(false, [], 1, 1) else Finished) && (resume ==> swapped && count == 1)
      ensures id in s.outcomes && if swapped then s.outcomes[id] == SetDone
                                  else s.outcomes[id].FoundSet? && IsSet(s.outcomes[id].seen)
      ensures left == n ==> if swapped then SetCounted(old(s), s) else SetsEvent(old(s), s)
      ensures left == n && swapped ==> (resume <==> old(s).counts.sets == 0 && old(s).counts.waiters > 0)
    {
      hide *;
      ghost var first := s;
      var spurious := false;
      swapped, resume, count := false, false, 0;
      var oldState, isSet;
      oldState, isSet, left := FirstLoad(id, AutoResetEvent.Call.Set, n);
      while !swapped && !isSet
        invariant Valid() && left <= n && id in s.acts
        invariant forall w :: w in old(ops) ==> w in ops && ops[w] == old(ops[w])
        invariant forall x :: x in ops.Values ==> x in old(ops.Values) || fresh(x)
        invariant resume ==> swapped && count == 1
        invariant swapped ==> Act(s, id) == if resume then Draining(false, [], 1, 1) else Finished
        invariant swapped ==> id in s.outcomes && s.outcomes[id] == SetDone
        invariant !swapped ==> Act(s, id) == (if isSet then Finished else SetCas(s.counts)) && (isSet <==> IsSet(s.counts))
        invariant !swapped && isSet ==> id in s.outcomes && s.outcomes[id] == FoundSet(s.counts)
        invariant !swapped ==> Fits(s.counts) && oldState == Pack(s.counts)
        invariant left == n && !swapped ==> SameEvent(first, s)
        invariant left == n && swapped ==> SetCounted(first, s) && (resume <==> first.counts.sets == 0 && first.counts.waiters > 0)
        decreases !swapped && !isSet, left
      {
        left, spurious := Pause(id, left);
        ghost var mid := s;
        swapped, oldState, resume, count := SetCompareExchange(id, oldState, spurious);
        if left == n {
          CountedAfter(first, mid, s);
        }
        if !swapped {
          SetTestIs(s.counts);
          isSet := GetSetCount(oldState) > GetWaiterCount(oldState);
        }
      }
      if left == n && !swapped {
        SameCounts(first, s);
        FoundSetChangesNothing(first, s);
      }
    }

    /** `reset`, whatever others do meanwhile: it has reset the event, or has found it not set. */
    method Reset(id: Id, ghost n: nat) returns (ghost left: nat)
      requires Valid() && id !in s.acts
      modifies this, ops.Values`next, ops.Values`refCount
      ensures Valid() && id in s.acts && Act(s, id).Finished? && left <= n
      ensures id in s.outcomes && (s.outcomes[id].ResetDone? || (s.outcomes[id].FoundUnset? && !IsSet(s.outcomes[id].seen)))
      ensures left == n ==> ResetsEvent(old(s), s)
    {
      hide *;
      ghost var first := s;
      var spurious, swapped := false, false;
      var oldState, isSet;
      oldState, isSet, left := FirstLoad(id, AutoResetEvent.Call.Reset, n);
      while isSet && !swapped
        invariant Valid() && left <= n && id in s.acts
        invariant forall w :: w in old(ops) ==> w in ops && ops[w] == old(ops[w])
        invariant forall x :: x in ops.Values ==> x in old(ops.Values) || fresh(x)
        invariant swapped ==> Act(s, id).Finished? && id in s.outcomes && s.outcomes[id] == ResetDone
        invariant !swapped ==> Act(s, id) == (if isSet then ResetCas(s.counts) else Finished) && (isSet <==> IsSet(s.counts))
        invariant !swapped && !isSet ==> id in s.outcomes && s.outcomes[id] == FoundUnset(s.counts)
        invariant !swapped ==> Fits(s.counts) && oldState == Pack(s.counts)
        invariant left == n ==> if swapped then ResetsEvent(first, s) else SameEvent(first, s)
        decreases isSet && !swapped, left
      {
        left, spurious := Pause(id, left);
        ghost var mid := s;
        swapped, oldState := ResetCompareExchange(id, oldState, spurious);
        if left == n {
          ResetAfter(first, mid, s);
        }
        if !swapped {
          ResetTestIs(s.counts);
          isSet := GetSetCount(oldState) > GetWaiterCount(oldState);
        }
      }
      if left == n && !swapped {
        SameCounts(first, s);
        FoundUnsetChangesNothing(first, s);
      }
    }

    /** `operator co_await`, whatever others do meanwhile: the event is acquired, or an operation is needed that
        waits for it. When nobody interferes a set event is acquired. */
    method CoAwait(id: Id, ghost n: nat) returns (acquired: bool, ghost left: nat)
      requires Valid() && id !in s.acts
      modifies this, ops.Values`next, ops.Values`refCount
      ensures Valid() && Act(s, id) == (if acquired then Acquired else AwaitPush) && left <= n
      ensures left == n ==> (acquired <==> IsSet(old(s).counts))
      ensures left == n ==> if acquired then SameLine(old(s), s) && s.counts == Counts(old(s).counts.sets - 1, old(s).counts.waiters)
                            else SameEvent(old(s), s)
    {
      hide *;
      ghost var first := s;
      var oldState, isSet;
      oldState, isSet, left := FirstLoad(id, Await, n);
      if left == n {
        SameCounts(first, s);
      }
      acquired := false;
      if isSet {
        var spurious;
        left, spurious := Pause(id, left);
        ghost var mid := s;
        acquired := TryAcquire(id, oldState);
        if left == n {
          AcquiredAfter(first, mid, s);
        }
      }
    }

    /** `await_suspend`, whatever others do meanwhile. The coroutine suspends iff it has not got the event. */
    method AwaitSuspend(op: Waiter, ghost n: nat) returns (suspended: bool, ghost left: nat)
      requires Valid() && Act(s, op.id).AwaitPush? && op.refCount == 2 && HasRoom(s)
      modifies this, ops.Values`next, ops.Values`refCount, op`next, op`refCount
      ensures Valid() && Act(s, op.id).Left? && left <= n
      ensures suspended <==> s.continued[op.id] == 0
      ensures left == n ==> AwaitsEvent(old(s), s, op.id, suspended)
    {
      hide *;
      ghost var first, joined := s, s;
      Open();
      var pushed, spurious := false, false;
      left := n;
      NotQueuedYet(op);
      HeadApplies(s, op.id);
      RoomIs(s);
      var head := LoadNewWaiters(op.id);
      RoomIs(s);
      while !pushed
        invariant Valid() && HasRoom(s) && left <= n
        invariant forall x :: x in ops.Values ==> x in old(ops.Values) || fresh(x) || x == op
        invariant if pushed then Act(s, op.id).AwaitCount? && op.id in ops && ops[op.id] == op
                  else Act(s, op.id).AwaitPushCas? && Act(s, op.id).top == TopOf(s.newWaiters)
                       && Stands(ops, head, Act(s, op.id).top) && op.refCount == 2 && op !in ops.Values
        invariant left == n ==> if pushed then Joins(first, s, op.id) else SameEvent(first, s)
        decreases !pushed, left
      {
        ghost var known := ops;
        left, spurious := Pause(op.id, left);
        StandsOn(known, ops, head, Act(s, op.id).top);
        NotQueuedYet(op);
        ghost var before := s;
        pushed, head := TryPushWaiter(op, head, spurious);
        if pushed {
          PushKeepsRoom(before, op.id, spurious);
        } else {
          NotQueuedYet(op);
          PushKeepsRoom(before, op.id, spurious);
        }
        if left == n {
          SameThenJoins(first, before, s, op.id);
        }
      }
      left, spurious := Pause(op.id, left);
      RoomIs(s);
      joined := s;
      var resume, count := CountWaiter(op.id);
      ghost var counted := s;
      if resume {
        left := ResumeWaiters(op.id, count, left);
      }
      ghost var served := s;
      left, spurious := Pause(op.id, left);
      ghost var before := s;
      suspended := DropOwnReference(op);
      if left == n {
        FirstFacts(first, op.id);
        ServedStays(before, s);
        AwaitedAlone(first, joined, counted, served, op.id, suspended);
        AwaitedThenSame(first, served, s, op.id, suspended);
      }
    }

    lemma NotQueuedYet(op: Waiter)
      requires Valid() && (Act(s, op.id).AwaitPush? || Act(s, op.id).AwaitPushCas?)
      ensures op !in ops.Values
    {
      hide Represents, Inv, Reachable;
      ReachableInv(s);
      OpIsNew(ops, op, newWaiters, waiters, s);
    }

    /** `resume_waiters`, whatever others do meanwhile: rounds of dequeues until one leaves nothing to resume,
        then the dequeued waiters, one after the other. Its asserts hold. */
    method ResumeWaiters(id: Id, initialCount: nat, ghost n: nat) returns (ghost left: nat)
      requires Valid() && Act(s, id).Draining? && Act(s, id).batch == []
      requires Act(s, id).todo == Act(s, id).round == initialCount > 0
      modifies this, ops.Values`next, ops.Values`refCount
      ensures Valid() && Act(s, id) == (if old(Act(s, id)).waiter then AwaitRelease else Finished) && left <= n
      ensures id in s.acts && (id in old(s).outcomes ==> id in s.outcomes && s.outcomes[id] == old(s).outcomes[id])
      ensures left == n ==> Serves(old(s), s)
      ensures forall w :: w in old(ops) ==> w in ops && ops[w] == old(ops[w])
      ensures forall x :: x in ops.Values ==> x in old(ops.Values) || fresh(x)
    {
      hide *;
      ghost var first, k := s, 0;
      ghost var waiter := Act(s, id).waiter;
      var list: Waiter?, last: Waiter?, count := null, null, initialCount;
      left := n;
      BatchIs(Act(s, id));
      NoPointers(ops);
      NothingDrained(s);
      while count > 0
        invariant Valid() && left <= n
        invariant forall w :: w in old(ops) ==> w in ops && ops[w] == old(ops[w])
        invariant forall x :: x in ops.Values ==> x in old(ops.Values) || fresh(x)
        invariant Act(s, id) == if count > 0 then Draining(waiter, Batch(Act(s, id)), count, count)
                                else Resuming(waiter, Batch(Act(s, id)))
        invariant Pointers(ops, list, last, Batch(Act(s, id)))
        invariant id in first.outcomes ==> id in s.outcomes && s.outcomes[id] == first.outcomes[id]
        invariant left == n ==> Drained(first, s, k, k) && k <= |Line(first)| && Batch(Act(s, id)) == Line(first)[..k]
        invariant left == n ==> if k == 0 then count > 0 else count == Resumable(s.counts)
        decreases count > 0, left, s.counts.waiters
      {
        ghost var before, round := s, count;
        left, list, last := DequeueRound(id, count, list, last, left);
        ghost var mid := s;
        left, count := EndRound(id, count, list, last, left);
        BatchIs(Act(s, id));
        BatchIs(Act(mid, id));
        if left == n {
          DrainedTogether(first, before, mid, k, k, round, 0);
          DrainedTogether(first, mid, s, k + round, k, 0, round);
          k := k + round;
        }
      }
      ghost var mid := s;
      left := ResumeList(id, list, last, left);
      if left == n {
        DrainedThenReleased(first, mid, s, k);
      }
    }

    /** One round of dequeues. */
    method DequeueRound(id: Id, count: nat, list: Waiter?, last: Waiter?, ghost n: nat)
      returns (ghost left: nat, list': Waiter?, last': Waiter?)
      requires Valid() && Act(s, id).Draining? && Act(s, id) == Draining(Act(s, id).waiter, Batch(Act(s, id)), count, count)
      requires Pointers(ops, list, last, Batch(Act(s, id)))
      modifies this, ops.Values`next, ops.Values`refCount
      ensures Valid() && left <= n && (left == n ==> s.counts == old(s.counts))
      ensures id in old(s).outcomes ==> id in s.outcomes && s.outcomes[id] == old(s).outcomes[id]
      ensures left == n ==> Drained(old(s), s, count, 0) && count <= |Line(old(s))|
      ensures left == n ==> Batch(Act(s, id)) == Batch(Act(old(s), id)) + Line(old(s))[..count]
      ensures Act(s, id) == Draining(old(Act(s, id)).waiter, Batch(Act(s, id)), 0, count)
      ensures Pointers(ops, list', last', Batch(Act(s, id)))
      ensures forall w :: w in old(ops) ==> w in ops && ops[w] == old(ops[w])
      ensures forall x :: x in ops.Values ==> x in old(ops.Values) || fresh(x)
    {
      hide *;
      ghost var waiter := Act(s, id).waiter;
      ghost var first := s;
      var i := 0;
      left, list', last' := n, list, last;
      NothingDrained(s);
      while i < count
        invariant 0 <= i <= count && Valid() && left <= n && (left == n ==> s.counts == old(s.counts))
        invariant forall w :: w in old(ops) ==> w in ops && ops[w] == old(ops[w])
        invariant forall x :: x in ops.Values ==> x in old(ops.Values) || fresh(x)
        invariant Act(s, id) == Draining(waiter, Batch(Act(s, id)), count - i, count)
        invariant Pointers(ops, list', last', Batch(Act(s, id)))
        invariant id in first.outcomes ==> id in s.outcomes && s.outcomes[id] == first.outcomes[id]
        invariant left == n ==> Drained(first, s, i, 0) && i <= |Line(first)| && Batch(Act(s, id)) == Batch(Act(first, id)) + Line(first)[..i]
      {
        ghost var known := ops;
        var spurious;
        left, spurious := Pause(id, left);
        StillPointers(known, ops, list', last', Batch(Act(s, id)));
        ghost var before := s;
        list', last' := DequeueOne(id, list', last');
        if left == n {
          DrainedTogether(first, before, s, i, 0, 1, 0);
        }
        i := i + 1;
      }
    }

    /** One dequeue, after the stack of new waiters has been taken if need be. */
    method DequeueOne(id: Id, list: Waiter?, last: Waiter?) returns (list': Waiter, last': Waiter)
      requires Valid() && Act(s, id).Draining? && Act(s, id).todo > 0 && Pointers(ops, list, last, Batch(Act(s, id)))
      modifies this, ops.Values`next
      ensures Valid() && ops == old(ops) && s.counts == old(s.counts) && s.outcomes == old(s.outcomes)
      ensures Pointers(ops, list', last', Batch(Act(s, id))) && Drained(old(s), s, 1, 0)
      ensures old(Line(s)) != [] && Batch(Act(s, id)) == Batch(Act(old(s), id)) + Line(old(s))[..1]
      ensures var d := old(Act(s, id)); Act(s, id) == Draining(d.waiter, Batch(Act(s, id)), d.todo - 1, d.round)
    {
      hide *;
      NodesAreOperations(ops, s.newWaiters);
      ghost var before := s;
      NothingDrained(before);
      if waiters == null {
        RefillWaiters(id);
      }
      FirstIsOperation();
      LastIsOperation(ops, list, last, Batch(Act(s, id)));
      ghost var mid := s;
      list', last' := TakeWaiter(id, list, last);
      BatchIs(Act(s, id));
      BatchIs(Act(mid, id));
      SameThenDrained(before, mid, s, 1, 0);
      FirstOfLine(Line(mid));
    }

    /** The end of a round, after another pause. */
    method EndRound(id: Id, count: nat, ghost list: Waiter?, ghost last: Waiter?, ghost n: nat)
      returns (ghost left: nat, next: nat)
      requires Valid() && Act(s, id).Draining? && Act(s, id) == Draining(Act(s, id).waiter, Batch(Act(s, id)), 0, count) && count > 0
      requires Pointers(ops, list, last, Batch(Act(s, id)))
      modifies this, ops.Values`next, ops.Values`refCount
      ensures Valid() && left <= n && (left == n ==> s.counts.waiters < old(s.counts.waiters))
      ensures id in old(s).outcomes ==> id in s.outcomes && s.outcomes[id] == old(s).outcomes[id]
      ensures left == n ==> Drained(old(s), s, 0, count) && next == Resumable(s.counts)
      ensures var d := old(Act(s, id));
              Act(s, id) == if next > 0 then Draining(d.waiter, d.batch, next, next) else Resuming(d.waiter, d.batch)
      ensures Pointers(ops, list, last, old(Act(s, id)).batch)
      ensures forall w :: w in old(ops) ==> w in ops && ops[w] == old(ops[w])
      ensures forall x :: x in ops.Values ==> x in old(ops.Values) || fresh(x)
    {
      hide *;
      ghost var known := ops;
      var spurious;
      left, spurious := Pause(id, n);
      StillPointers(known, ops, list, last, Batch(Act(s, id)));
      next := SubtractRound(id, count);
    }

    /** Resuming the dequeued waiters. */
    method ResumeList(id: Id, waitersToResume: Waiter?, ghost last: Waiter?, ghost n: nat) returns (ghost left: nat)
      requires Valid() && Act(s, id).Resuming? && Act(s, id) == Resuming(Act(s, id).waiter, Batch(Act(s, id)))
      requires Pointers(ops, waitersToResume, last, Batch(Act(s, id)))
      modifies this, ops.Values`next, ops.Values`refCount
      ensures Valid() && Act(s, id) == (if old(Act(s, id)).waiter then AwaitRelease else Finished) && left <= n
      ensures id in s.acts && (id in old(s).outcomes ==> id in s.outcomes && s.outcomes[id] == old(s).outcomes[id])
      ensures left == n ==> Released(old(s), s, Batch(Act(old(s), id)))
      ensures forall w :: w in old(ops) ==> w in ops && ops[w] == old(ops[w])
      ensures forall x :: x in ops.Values ==> x in old(ops.Values) || fresh(x)
    {
      hide *;
      ghost var first: State, done: seq<Id> := s, [];
      ghost var waiter := Act(s, id).waiter;
      NothingDrained(s);
      IsActive(s, id);
      var list := waitersToResume;
      left := n;
      HeadPointer(ops, list, last, Batch(Act(s, id)));
      ResumesSome(id);
      while list != null
        invariant Valid() && left <= n
        invariant forall w :: w in old(ops) ==> w in ops && ops[w] == old(ops[w])
        invariant forall x :: x in ops.Values ==> x in old(ops.Values) || fresh(x)
        invariant PointsTo(ops, list, Batch(Act(s, id))) && Act(s, id) == AfterBatch(waiter, Batch(Act(s, id)))
        invariant id in s.acts && (id in first.outcomes ==> id in s.outcomes && s.outcomes[id] == first.outcomes[id])
        invariant left == n ==> Released(first, s, done) && Batch(Act(first, id)) == done + Batch(Act(s, id))
        decreases |Batch(Act(s, id))|
      {
        ghost var known := ops;
        var spurious;
        left, spurious := Pause(id, left);
        StillPointsTo(known, ops, list, Batch(Act(s, id)));
        ListIsWhole(id, list, waiter);
        ghost var batch, before, w := Batch(Act(s, id)), s, list.id;
        var resumed;
        list, resumed := ResumeOne(id, list);
        if left == n {
          ReleasedTogether(first, before, s, done, w);
          done := done + [w];
        }
        BatchOfRest(waiter, batch[1..]);
        ListPointsTo(ops, list, Batch(Act(s, id)));
      }
      EmptyBatch(ops, waiter, Batch(Act(s, id)));
      assert left == n ==> Batch(Act(first, id)) == done;
    }

    lemma ResumesSome(id: Id)
      requires Valid() && Act(s, id).Resuming? && Act(s, id) == Resuming(Act(s, id).waiter, Batch(Act(s, id)))
      ensures Act(s, id) == AfterBatch(Act(s, id).waiter, Batch(Act(s, id)))
    {
      hide Represents, Inv, Reachable;
      ReachableInv(s);
      StepFacts(s, id);
    }

    lemma ListIsWhole(id: Id, list: Waiter, waiter: bool)
      requires Valid() && PointsTo(ops, list, Batch(Act(s, id))) && Act(s, id) == AfterBatch(waiter, Batch(Act(s, id)))
      ensures IsList(ops, list, Batch(Act(s, id))) && Act(s, id) == Resuming(waiter, Batch(Act(s, id)))
      ensures Batch(Act(s, id)) != [] && list in ops.Values
    {
      assert Kept(ops, Batch(Act(s, id)));
    }

    lemma FirstFacts(first: State, id: Id)
      requires Reachable(first) && Act(first, id).AwaitPush?
      ensures id !in first.served && id !in Line(first) && first.counts.sets <= first.counts.waiters + 1
    {
      hide Inv;
      ReachableInv(first);
      NotYetKnown(first, id);
      StepFacts(first, id);
    }

    lemma FirstIsOperation()
      requires Valid()
      ensures waiters != null ==> waiters in ops.Values
    {
      if s.queue != [] {
        assert s.queue[0] in s.queue;
      }
    }
  }

  // ---------------------------------------------------------------- pointers while others step

  /** Another waiter can be counted. */
  predicate HasRoom(s: State)
  {
    s.counts.waiters + 2 < HALF
  }

  lemma RoomIs(s: State)
    ensures HasRoom(s) <==> s.counts.waiters + 2 < HALF
  {
  }

  lemma PushKeepsRoom(s: State, id: Id, spurious: bool)
    requires Act(s, id).AwaitPushCas? && HasRoom(s)
    ensures Enabled(s, Step(id, spurious)) && HasRoom(Apply(s, Step(id, spurious)))
  {
  }

  lemma SetTestIs(c: Counts)
    requires Fits(c)
    ensures SetTest(c) == if IsSet(c) then Finished else SetCas(c)
    ensures GetSetCount(Pack(c)) > GetWaiterCount(Pack(c)) <==> IsSet(c)
  {
  }

  lemma ResetTestIs(c: Counts)
    requires Fits(c)
    ensures ResetTest(c) == if IsSet(c) then ResetCas(c) else Finished
    ensures GetSetCount(Pack(c)) > GetWaiterCount(Pack(c)) <==> IsSet(c)
  {
  }

  lemma SameCounts(s: State, s': State)
    requires SameEvent(s, s')
    ensures s'.counts == s.counts
  {
  }

  lemma AcquiredAfter(s: State, mid: State, s': State)
    requires SameEvent(s, mid)
    ensures mid.counts == s.counts && (SameLine(mid, s') ==> SameLine(s, s'))
  {
  }

  lemma OutcomeStays(id: Id, s: State, s': State)
    requires SameOutcome(id, s, s')
    ensures id in s.acts ==> id in s'.acts
    ensures id in s.outcomes ==> id in s'.outcomes && s'.outcomes[id] == s.outcomes[id]
  {
  }

  lemma IsActive(s: State, id: Id)
    requires !Act(s, id).Finished?
    ensures id in s.acts
  {
  }

  lemma ServedStays(s: State, s': State)
    requires SameEvent(s, s')
    ensures s'.served == s.served
  {
  }

  lemma BatchIs(act: Activity)
    ensures act.Draining? || act.Resuming? ==> Batch(act) == act.batch
  {
  }

  lemma BatchOfRest(waiter: bool, batch: seq<Id>)
    ensures Batch(AfterBatch(waiter, batch)) == batch
  {
  }

  lemma NoPointers(ops: map<nat, Waiter>)
    ensures Pointers(ops, null, null, [])
  {
  }

  lemma StillPointers(known: map<nat, Waiter>, ops: map<nat, Waiter>, list: Waiter?, last: Waiter?, batch: seq<nat>)
    requires Pointers(known, list, last, batch) && forall w :: w in known ==> w in ops && ops[w] == known[w]
    ensures Pointers(ops, list, last, batch)
  {
    assert NodesOf(ops, batch) == NodesOf(known, batch);
  }

  lemma LastIsOperation(ops: map<nat, Waiter>, list: Waiter?, last: Waiter?, batch: seq<nat>)
    requires Pointers(ops, list, last, batch)
    ensures last != null ==> last in ops.Values
  {
    if batch != [] {
      assert batch[|batch| - 1] in batch;
    }
  }

  ghost predicate PointsTo(ops: map<nat, Waiter>, list: Waiter?, batch: seq<nat>)
  {
    (forall w :: w in batch ==> w in ops) && list == First(NodesOf(ops, batch))
  }

  lemma HeadPointer(ops: map<nat, Waiter>, list: Waiter?, last: Waiter?, batch: seq<nat>)
    requires Pointers(ops, list, last, batch)
    ensures PointsTo(ops, list, batch)
  {
  }

  lemma StillPointsTo(known: map<nat, Waiter>, ops: map<nat, Waiter>, list: Waiter?, batch: seq<nat>)
    requires PointsTo(known, list, batch) && forall w :: w in known ==> w in ops && ops[w] == known[w]
    ensures PointsTo(ops, list, batch)
  {
    assert NodesOf(ops, batch) == NodesOf(known, batch);
  }

  lemma ListPointsTo(ops: map<nat, Waiter>, list: Waiter?, batch: seq<nat>)
    requires IsList(ops, list, batch)
    ensures PointsTo(ops, list, batch)
  {
  }

  lemma EmptyBatch(ops: map<nat, Waiter>, waiter: bool, batch: seq<nat>)
    requires PointsTo(ops, null, batch)
    ensures batch == [] && AfterBatch(waiter, batch) == if waiter then AwaitRelease else Finished
  {
  }

  /** `m_refCount.fetch_sub(1)`. */
  method Decrement(op: Waiter, ghost ops: map<nat, Waiter>, ghost refs: map<Id, nat>) returns (last: bool)
    requires Identified(ops) && RefCounts(ops, refs) && op.id in ops && ops[op.id] == op && refs[op.id] > 0
    modifies op`refCount
    ensures RefCounts(ops, refs[op.id := refs[op.id] - 1]) && (last <==> refs[op.id] == 1)
  {
    last := op.refCount == 1;
    op.refCount := op.refCount - 1;
  }

  /** The loop that reverses the stack of new waiters disturbs nobody's list. */
  method ReverseNew(list: Waiter, ghost ops: map<nat, Waiter>, ghost s: State) returns (head: Waiter)
    requires Identified(ops) && IsList(ops, list, s.newWaiters) && Intact(ops, s.acts) && NewIsUnbatched(s)
    modifies Nodes(ops, s.newWaiters)`next
    ensures IsList(ops, head, Reverse(s.newWaiters)) && Intact(ops, s.acts)
  {
    hide Linked, Chained, Nodes, NodesOf, IsList, IsOpenList, Batch;
    ghost var stack := s.newWaiters;
    ListParts(ops, list, stack);
    NodesAreListed(ops, stack);
    NothingIsListed(ops);
    head := ReverseOnto(list, null, NodesOf(ops, stack), []);
    ReversedList(ops, head, stack);
    forall id: Id
      ensures Kept(ops, Batch(ActIn(s.acts, id)))
    {
      ghost var nodes := NodesOf(ops, Batch(Act(s, id)));
      assert old(Kept(ops, Batch(Act(s, id))) && Linked(First(nodes), nodes));
      NodesApart(ops, Batch(Act(s, id)), stack);
      assert forall x :: x in nodes ==> x.next == old(x.next);
      assert Linked(First(nodes), nodes);
    }
  }

  /** `*waitersToResumeListEnd = waiterToResume`: only that thread's list changes. */
  method MoveToBatch(waiter: Waiter, list: Waiter?, last: Waiter?, ghost ops: map<nat, Waiter>,
                     ghost newWaiters: Waiter?, ghost rest: Waiter?, ghost s: State, ghost id: Id)
    returns (list': Waiter, last': Waiter)
    requires Identified(ops) && IsList(ops, newWaiters, s.newWaiters) && Intact(ops, s.acts)
    requires s.queue != [] && s.queue[0] in ops && ops[s.queue[0]] == waiter && IsList(ops, rest, s.queue[1..])
    requires Pointers(ops, list, last, Batch(Act(s, id))) && FirstIsApart(s, id)
    modifies waiter`next, (if last == null then {} else {last})`next
    ensures IsList(ops, newWaiters, s.newWaiters) && IsList(ops, rest, s.queue[1..])
    ensures forall x: Id :: x != id ==> Kept(ops, Batch(Act(s, x)))
    ensures Kept(ops, Batch(Act(s, id)) + [s.queue[0]])
    ensures Pointers(ops, list', last', Batch(Act(s, id)) + [s.queue[0]]) && last' == waiter
  {
    hide Linked, Chained, Nodes, NodesOf, IsOpenList;
    ghost var batch, w := Batch(Act(s, id)), s.queue[0];
    BatchParts(ops, list, last, batch, waiter);
    waiter.next := null;
    assert old(Chained(NodesOf(ops, batch)));
    list', last' := Append(list, last, waiter, NodesOf(ops, batch));
    MoreInBatch(ops, batch, w);
    Untouched(ops, waiter, last, s.newWaiters);
    Untouched(ops, waiter, last, s.queue[1..]);
    assert old(Linked(newWaiters, NodesOf(ops, s.newWaiters)));
    assert old(Linked(rest, NodesOf(ops, s.queue[1..])));
    forall x: Id | x != id
      ensures Kept(ops, Batch(Act(s, x)))
    {
      ghost var nodes := NodesOf(ops, Batch(Act(s, x)));
      assert old(Kept(ops, Batch(Act(s, x))) && Linked(First(nodes), nodes));
      Untouched(ops, waiter, last, Batch(Act(s, x)));
    }
  }

  lemma Untouched(ops: map<nat, Waiter>, waiter: Waiter, last: Waiter?, list: seq<nat>)
    requires Identified(ops) && forall w :: w in list ==> w in ops
    requires waiter.id !in list && (last != null ==> last.id !in list)
    ensures waiter !in NodesOf(ops, list) && last !in NodesOf(ops, list)
  {
  }

  lemma BatchParts(ops: map<nat, Waiter>, list: Waiter?, last: Waiter?, batch: seq<nat>, waiter: Waiter)
    requires Identified(ops) && Kept(ops, batch) && Pointers(ops, list, last, batch) && waiter.id !in batch
    ensures Chained(NodesOf(ops, batch)) && list == First(NodesOf(ops, batch)) && last == Last(NodesOf(ops, batch))
    ensures waiter !in NodesOf(ops, batch) && (last == null <==> NodesOf(ops, batch) == [])
    ensures last != null ==> last == NodesOf(ops, batch)[|NodesOf(ops, batch)| - 1] && last.id in batch && last.id in ops
  {
  }

  lemma MoreInBatch(ops: map<nat, Waiter>, batch: seq<nat>, w: nat)
    requires (forall x :: x in batch ==> x in ops) && w in ops
    requires Chained(NodesOf(ops, batch) + [ops[w]]) && ops[w].next == null
    ensures NodesOf(ops, batch + [w]) == NodesOf(ops, batch) + [ops[w]]
    ensures Kept(ops, batch + [w])
  {
    NodesOfMore(ops, batch, w);
    var nodes := NodesOf(ops, batch) + [ops[w]];
    assert NodesOf(ops, batch + [w]) == nodes;
    assert Linked(First(nodes), nodes);
    assert forall x :: x in batch + [w] ==> x in ops;
  }

  // ---------------------------------------------------------------- what is in which list

  lemma RepresentsParts(ops: map<nat, Waiter>, newWaiters: Waiter?, waiters: Waiter?, s: State)
    requires Represents(ops, newWaiters, waiters, s)
    ensures Identified(ops) && RefCounts(ops, s.refs)
    ensures IsList(ops, newWaiters, s.newWaiters) && IsList(ops, waiters, s.queue) && Intact(ops, s.acts)
    ensures newWaiters == null <==> s.newWaiters == []
    ensures waiters == null <==> s.queue == []
  {
  }

  lemma MakeRepresents(ops: map<nat, Waiter>, newWaiters: Waiter?, waiters: Waiter?, s: State)
    requires Identified(ops) && RefCounts(ops, s.refs)
    requires IsList(ops, newWaiters, s.newWaiters) && IsList(ops, waiters, s.queue) && Intact(ops, s.acts)
    ensures Represents(ops, newWaiters, waiters, s)
  {
  }

  lemma MakeKept(ops: map<nat, Waiter>, head: Waiter?, list: seq<nat>)
    requires IsList(ops, head, list)
    ensures Kept(ops, list)
  {
  }

  lemma NothingKept(ops: map<nat, Waiter>)
    ensures Kept(ops, [])
  {
  }

  /** One thread's list changes, and stays linked. */
  lemma IntactAfter(ops: map<nat, Waiter>, s: State, id: Id, s': State)
    requires (forall x: Id :: x != id ==> Kept(ops, Batch(Act(s, x)))) && Moves(s.acts, id, s'.acts)
    requires Kept(ops, Batch(Act(s', id)))
    ensures Intact(ops, s'.acts)
  {
    hide Kept;
    forall x: Id
      ensures Kept(ops, Batch(ActIn(s'.acts, x)))
    {
      if x != id {
        assert Batch(Act(s', x)) == Batch(Act(s, x));
      }
    }
  }

  lemma StepRepresents(ops: map<nat, Waiter>, newWaiters: Waiter?, waiters: Waiter?, s: State, s': State, id: Id)
    requires Identified(ops) && RefCounts(ops, s'.refs) && Moves(s.acts, id, s'.acts)
    requires IsList(ops, newWaiters, s'.newWaiters) && IsList(ops, waiters, s'.queue)
    requires Intact(ops, s.acts) && Kept(ops, Batch(Act(s', id)))
    ensures Represents(ops, newWaiters, waiters, s')
  {
    hide Kept, Moves, IsList, RefCounts;
    IntactAfter(ops, s, id, s');
  }

  /** The step of an activity that does not touch its list. */
  lemma StepIsIntact(ops: map<nat, Waiter>, newWaiters: Waiter?, waiters: Waiter?, s: State, s': State, id: Id)
    requires Represents(ops, newWaiters, waiters, s) && Moves(s.acts, id, s'.acts)
    requires s'.newWaiters == s.newWaiters && s'.queue == s.queue && s'.refs == s.refs
    requires Batch(Act(s', id)) == Batch(Act(s, id))
    ensures Represents(ops, newWaiters, waiters, s')
  {
    hide Kept, Moves, IsList, RefCounts;
    assert Kept(ops, Batch(Act(s, id)));
    IntactAfter(ops, s, id, s');
  }

  lemma OpIsNew(ops: map<nat, Waiter>, op: Waiter, newWaiters: Waiter?, waiters: Waiter?, s: State)
    requires Inv(s) && Represents(ops, newWaiters, waiters, s) && (Act(s, op.id).AwaitPush? || Act(s, op.id).AwaitPushCas?)
    ensures op.id !in ops && op !in ops.Values
  {
    hide Inv;
    NotYetKnown(s, op.id);
  }

  lemma PushedRepresents(ops: map<nat, Waiter>, op: Waiter, newWaiters: Waiter?, waiters: Waiter?, s: State, s': State)
    requires Represents(ops, newWaiters, waiters, s) && op.id !in ops && op.next == newWaiters && op.refCount == 2
    requires s'.newWaiters == [op.id] + s.newWaiters && s'.queue == s.queue && s'.refs == s.refs[op.id := 2]
    requires Moves(s.acts, op.id, s'.acts) && Batch(Act(s', op.id)) == []
    ensures Represents(ops[op.id := op], op, waiters, s')
  {
    hide Moves, Linked;
    var ops' := ops[op.id := op];
    NewOperation(ops, op, newWaiters, s.newWaiters);
    NewOperation(ops, op, waiters, s.queue);
    Pushed(ops', op, newWaiters, s.newWaiters);
    forall id: Id
      ensures Kept(ops', Batch(Act(s, id)))
    {
      assert Kept(ops, Batch(Act(s, id)));
      assert NodesOf(ops', Batch(Act(s, id))) == NodesOf(ops, Batch(Act(s, id)));
    }
    NothingKept(ops');
    IntactAfter(ops', s, op.id, s');
  }

  /** Nobody is about to resume a waiter that is still on the stack. */
  ghost predicate NewIsUnbatched(s: State)
  {
    forall id: Id, w: Id :: w in Batch(Act(s, id)) ==> w !in s.newWaiters
  }

  /** The first known waiter is in no other list, and the list of `id` shares nothing with the others. */
  ghost predicate FirstIsApart(s: State, id: Id)
    requires s.queue != []
  {
    var w, batch := s.queue[0], Batch(Act(s, id));
    && w !in s.queue[1..] && w !in s.newWaiters && (forall x: Id :: w !in Batch(Act(s, x)))
    && (forall y :: y in batch ==> y !in s.queue[1..] && y !in s.newWaiters)
    && (forall x: Id, y: Id :: x != id && y in Batch(Act(s, x)) ==> y !in batch)
  }

  lemma BatchedIsTaken(s: State, id: Id, w: Id)
    requires Inv(s) && w in Batch(Act(s, id))
    ensures w in s.taken && w !in s.queue && w !in s.newWaiters && w in s.carrier && s.carrier[w] == id
  {
    assert w in s.carrier;
    assert s.pushed == s.taken + (s.queue + Reverse(s.newWaiters));
    PrefixHasOther(s.taken, s.queue + Reverse(s.newWaiters));
    InReverse(s.newWaiters, w);
  }

  lemma NewIsInNoBatch(s: State)
    requires Inv(s)
    ensures NewIsUnbatched(s)
  {
    hide Inv;
    forall id: Id, w: Id | w in Batch(Act(s, id))
      ensures w !in s.newWaiters
    {
      BatchedIsTaken(s, id, w);
    }
  }

  lemma QueueIsApart(s: State)
    requires Inv(s) && s.queue != []
    ensures s.queue[0] !in s.queue[1..] && s.queue[0] !in s.newWaiters
  {
    var w := s.queue[0];
    assert s.pushed == (s.taken + [w]) + (s.queue[1..] + Reverse(s.newWaiters));
    PrefixHasOther(s.taken + [w], s.queue[1..] + Reverse(s.newWaiters));
    assert w in s.taken + [w];
    InReverse(s.newWaiters, w);
  }

  lemma TakenIsApart(s: State, id: Id)
    requires Inv(s) && s.queue != []
    ensures FirstIsApart(s, id)
  {
    hide Inv, Batch;
    QueueIsApart(s);
    var w := s.queue[0];
    assert w in s.queue && forall y :: y in s.queue[1..] ==> y in s.queue;
    forall x: Id, y: Id | y in Batch(Act(s, x))
      ensures y !in s.queue && y !in s.newWaiters && y in s.carrier && s.carrier[y] == x
    {
      BatchedIsTaken(s, x, y);
    }
    var batch := Batch(Act(s, id));
    assert forall x: Id :: w !in Batch(Act(s, x));
    assert forall y :: y in batch ==> y !in s.queue[1..] && y !in s.newWaiters;
    assert forall x: Id, y: Id :: x != id && y in Batch(Act(s, x)) ==> y !in batch;
  }

  // ---------------------------------------------------------------- what the steps do

  predicate LeavesLists(s: State, a: Action)
  {
    || a.Start?
    || (var act := Act(s, a.id);
        || act.SetLoad? || act.SetCas? || act.ResetLoad? || act.ResetCas? || act.AwaitLoad? || act.AwaitCas?
        || act.AwaitPush? || act.AwaitCount? || (act.Draining? && act.todo == 0))
  }

  lemma CountsApply(s: State, a: Action)
    requires Enabled(s, a) && LeavesLists(s, a)
    ensures var s' := Apply(s, a);
            && s'.newWaiters == s.newWaiters && s'.queue == s.queue && s'.refs == s.refs
            && Moves(s.acts, a.id, s'.acts) && Batch(Act(s', a.id)) == Batch(Act(s, a.id))
  {
    hide Moves, Apply;
    var id, s' := a.id, Apply(s, a);
    MovesByUpdate(s.acts, id, Act(s', id));
    if a.Start? {
      StartApplies(s, a);
    } else if Act(s, id).Draining? {
      RoundMoves(s, a);
    } else if Act(s, id).SetCas? {
      SetApplies(s, a);
    } else if Act(s, id).AwaitCount? {
      CountingApplies(s, a);
    } else if Act(s, id).SetLoad? || Act(s, id).ResetLoad? || Act(s, id).ResetCas? {
      TestApplies(s, a);
    } else {
      SimpleApplies(s, a);
    }
  }

  lemma StartApplies(s: State, a: Action)
    requires Enabled(s, a) && a.Start?
    ensures var s' := Apply(s, a);
            && s' == s.(acts := s'.acts) && s'.acts == s.acts[a.id := Act(s', a.id)]
            && Batch(Act(s', a.id)) == Batch(Act(s, a.id)) == []
  {
  }

  lemma SetApplies(s: State, a: Action)
    requires Enabled(s, a) && a.Step? && (Act(s, a.id).SetCas?)
    ensures var s' := Apply(s, a);
            && s'.newWaiters == s.newWaiters && s'.queue == s.queue && s'.refs == s.refs
            && s'.acts == s.acts[a.id := Act(s', a.id)] && Batch(Act(s', a.id)) == Batch(Act(s, a.id)) == []
  {
    hide IsSet, ResetTest, TestForReset, Drain, Release, AfterBatch, TopOf;
  }

  lemma CountingApplies(s: State, a: Action)
    requires Enabled(s, a) && a.Step? && (Act(s, a.id).AwaitCount?)
    ensures var s' := Apply(s, a);
            && s'.newWaiters == s.newWaiters && s'.queue == s.queue && s'.refs == s.refs
            && s'.acts == s.acts[a.id := Act(s', a.id)] && Batch(Act(s', a.id)) == Batch(Act(s, a.id)) == []
  {
    hide IsSet, TestForSet, TestForReset, Drain, Release, AfterBatch, TopOf;
  }

  lemma TestApplies(s: State, a: Action)
    requires Enabled(s, a) && a.Step? && (Act(s, a.id).SetLoad? || Act(s, a.id).ResetLoad? || Act(s, a.id).ResetCas?)
    ensures var s' := Apply(s, a);
            && s'.newWaiters == s.newWaiters && s'.queue == s.queue && s'.refs == s.refs
            && s'.acts == s.acts[a.id := Act(s', a.id)] && Batch(Act(s', a.id)) == Batch(Act(s, a.id)) == []
  {
    hide IsSet, Drain, Release, AfterBatch, TopOf;
  }

  lemma SimpleApplies(s: State, a: Action)
    requires Enabled(s, a) && a.Step? && (Act(s, a.id).AwaitLoad? || Act(s, a.id).AwaitPush? || Act(s, a.id).AwaitCas?)
    ensures var s' := Apply(s, a);
            && s'.newWaiters == s.newWaiters && s'.queue == s.queue && s'.refs == s.refs
            && s'.acts == s.acts[a.id := Act(s', a.id)] && Batch(Act(s', a.id)) == Batch(Act(s, a.id)) == []
  {
    hide IsSet, Drain, Release, AfterBatch, TestForSet, TestForReset;
  }

  lemma RoundMoves(s: State, a: Action)
    requires Enabled(s, a) && a.Step? && Act(s, a.id).Draining? && Act(s, a.id).todo == 0
    ensures var s' := Apply(s, a);
            && s'.newWaiters == s.newWaiters && s'.queue == s.queue && s'.refs == s.refs
            && s'.acts == s.acts[a.id := Act(s', a.id)] && Batch(Act(s', a.id)) == Batch(Act(s, a.id))
  {
    hide Resumable;
    assert s.acts[a.id := Act(s, a.id)] == s.acts;
  }

  lemma MovesByUpdate(acts: map<Id, Activity>, id: Id, next: Activity)
    ensures Moves(acts, id, acts[id := next])
  {
  }

  lemma SetCasApplies(s: State, id: Id, spurious: bool)
    requires Inv(s) && Act(s, id).SetCas?
    ensures Enabled(s, Step(id, spurious)) && LeavesLists(s, Step(id, spurious))
    ensures Act(s, id).seen.sets <= Act(s, id).seen.waiters
    ensures var s', seen, c := Apply(s, Step(id, spurious)), Act(s, id).seen, s.counts;
            var swapped := seen == c && !spurious;
            && id in s'.acts && SameLine(s, s')
            && (swapped ==>
                  && s'.counts == Counts(c.sets + 1, c.waiters) && id in s'.outcomes && s'.outcomes[id] == SetDone
                  && s'.setsDone == s.setsDone + 1 && s'.resetsDone == s.resetsDone
                  && Act(s', id) == if c.sets == 0 && c.waiters > 0 then Draining(false, [], 1, 1) else Finished)
            && (!swapped ==>
                  && SameEvent(s, s') && s'.counts == c && Act(s', id) == SetTest(c)
                  && (IsSet(c) ==> id in s'.outcomes && s'.outcomes[id] == FoundSet(c)))
  {
    hide Inv, IsSet;
    StepFacts(s, id);
    NotSetIs(Act(s, id).seen);
  }

  lemma NotSetIs(c: Counts)
    ensures !IsSet(c) <==> c.sets <= c.waiters
  {
  }

  /** The compare-and-swap of `set`, on packed words. */
  lemma SetWord(c: Counts, seen: Counts)
    requires Fits(c) && Fits(seen)
    ensures Pack(c) == Pack(seen) <==> c == seen
    ensures seen.sets <= seen.waiters ==>
              var d := Counts(seen.sets + 1, seen.waiters);
              && Fits(d) && Pack(d) == Pack(seen) + SET_INCREMENT
              && (Pack(seen) != 0 && GetSetCount(Pack(seen)) == 0 <==> seen.sets == 0 && seen.waiters > 0)
              && (seen.sets == 0 && seen.waiters > 0 ==> GetResumableWaiterCount(Pack(d)) == 1)
  {
    PackIsInjective(c, seen);
    PackIsInjective(seen, Counts(0, 0));
  }

  lemma CountApplies(s: State, id: Id)
    requires Inv(s) && Act(s, id).AwaitCount? && s.counts.waiters + 2 < HALF
    ensures Enabled(s, Step(id, false)) && LeavesLists(s, Step(id, false))
    ensures var s', c := Apply(s, Step(id, false)), Counts(s.counts.sets, s.counts.waiters + 1);
            && s'.counts == c && SameLine(s, s') && s'.setsDone == s.setsDone && s'.resetsDone == s.resetsDone
            && Act(s', id) == (if s.counts != Counts(0, 0) && s.counts.waiters == 0 then Draining(true, [], 1, 1) else AwaitRelease)
            && (Act(s', id).Draining? <==> s.counts != Counts(0, 0) && s.counts.waiters == 0)
            && (Act(s', id).Draining? ==> Act(s', id).todo == Act(s', id).round == Resumable(c))
  {
    hide Inv;
    StepFacts(s, id);
  }

  lemma HeadApplies(s: State, id: Id)
    requires Act(s, id).AwaitPush?
    ensures Enabled(s, Step(id, false)) && LeavesLists(s, Step(id, false))
    ensures var s' := Apply(s, Step(id, false));
            && s'.counts == s.counts && s'.newWaiters == s.newWaiters && Act(s', id) == AwaitPushCas(TopOf(s.newWaiters))
            && SameEvent(s, s')
  {
  }

  lemma PushApplies(s: State, id: Id, spurious: bool)
    requires Act(s, id).AwaitPushCas?
    ensures Enabled(s, Step(id, spurious)) && Batch(Act(s, id)) == []
    ensures var s', pushed := Apply(s, Step(id, spurious)), TopOf(s.newWaiters) == Act(s, id).top && !spurious;
            && s'.counts == s.counts && s'.queue == s.queue && Moves(s.acts, id, s'.acts) && Batch(Act(s', id)) == []
            && (if pushed
                then s'.newWaiters == [id] + s.newWaiters && s'.refs == s.refs[id := 2] && Act(s', id).AwaitCount? && Joins(s, s', id)
                else s'.newWaiters == s.newWaiters && s'.refs == s.refs && Act(s', id) == AwaitPushCas(TopOf(s.newWaiters)) && SameEvent(s, s'))
  {
    PushThenReverse(s.newWaiters, id);
  }

  lemma RefillApplies(s: State, id: Id)
    requires Inv(s) && Act(s, id).Draining? && Act(s, id).todo > 0 && s.queue == []
    ensures Enabled(s, Step(id, false)) && s.newWaiters != []
    ensures Act(Apply(s, Step(id, false)), id) == Act(s, id)
    ensures var s' := Apply(s, Step(id, false));
            s' == s.(newWaiters := [], queue := Reverse(s.newWaiters)) && SameEvent(s, s') && s'.outcomes == s.outcomes
  {
    hide Inv;
    OwnerFindsWaiters(s, id);
  }

  lemma TakeApplies(s: State, id: Id)
    requires Act(s, id).Draining? && Act(s, id).todo > 0 && s.queue != []
    ensures Enabled(s, Step(id, false))
    ensures var s' := Apply(s, Step(id, false));
            && s'.counts == s.counts && s'.newWaiters == s.newWaiters && s'.queue == s.queue[1..]
            && s'.refs == s.refs && s'.taken == s.taken + [s.queue[0]]
            && (var d := Act(s, id); Act(s', id) == Draining(d.waiter, d.batch + [s.queue[0]], d.todo - 1, d.round))
            && Moves(s.acts, id, s'.acts) && Batch(Act(s', id)) == Batch(Act(s, id)) + [s.queue[0]]
            && Line(s) != [] && Line(s)[0] == s.queue[0] && Drained(s, s', 1, 0) && s'.outcomes == s.outcomes
  {
  }

  lemma ResumeApplies(s: State, id: Id)
    requires Inv(s) && Act(s, id).Resuming? && Batch(Act(s, id)) != []
    ensures Enabled(s, Step(id, false))
    ensures var s', batch := Apply(s, Step(id, false)), Batch(Act(s, id));
            && batch[0] in s.refs && s.refs[batch[0]] > 0 && Drops(s, id, batch[0])
            && s'.counts == s.counts && s'.newWaiters == s.newWaiters && s'.queue == s.queue
            && s'.refs == s.refs[batch[0] := s.refs[batch[0]] - 1]
            && s'.continued == s.continued + (if s.refs[batch[0]] == 1 then multiset{batch[0]} else multiset{})
            && Act(s', id) == AfterBatch(Act(s, id).waiter, Act(s, id).batch[1..])
            && Moves(s.acts, id, s'.acts) && Batch(Act(s', id)) == batch[1..]
            && Released(s, s', [batch[0]]) && s'.outcomes == s.outcomes && id in s'.acts
  {
    hide Inv;
    ReferenceIsHeld(s, id, Batch(Act(s, id))[0]);
  }

  lemma ReleaseApplies(s: State, id: Id)
    requires Inv(s) && Act(s, id).AwaitRelease?
    ensures Enabled(s, Step(id, false)) && id in s.refs && s.refs[id] > 0
    ensures s.continued[id] == 0 && (s.refs[id] == 1 <==> id in s.served)
    ensures var s' := Apply(s, Step(id, false));
            && s'.counts == s.counts && s'.newWaiters == s.newWaiters && s'.queue == s.queue
            && s'.refs == s.refs[id := s.refs[id] - 1]
            && s'.continued == s.continued + (if s.refs[id] == 1 then multiset{id} else multiset{})
            && Act(s', id).Left? && SameEvent(s, s') && s'.served == s.served
            && Moves(s.acts, id, s'.acts) && Batch(Act(s', id)) == []
  {
    hide Inv;
    ReferenceIsHeld(s, id, id);
    LastToLetGo(s, id);
  }

  /** A waiter that still has to let go of itself has not continued, and is the last to let go iff it was served. */
  lemma LastToLetGo(s: State, id: Id)
    requires Inv(s) && Act(s, id).AwaitRelease? && id in s.refs
    ensures s.continued[id] == 0 && (s.refs[id] == 1 <==> id in s.served)
  {
  }
}
