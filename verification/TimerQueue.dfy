/** The timer queue of `io_service`: a heap, and an overflow list in due order for timers that found no memory
    in the heap's vector; together one priority queue. */
module TimerQueues {
  import opened TimedOperations
  import opened Heaps

  /** `time_point::max()`. */
  const MAX_TIME: int := 0x7FFF_FFFF_FFFF_FFFF

  ghost predicate Sorted(timers: seq<Timer>)
  {
    forall i, j :: 0 <= i < j < |timers| ==> timers[i].dueTime <= timers[j].dueTime
  }

  /** All timers of a kind have been moved, and no other. */
  ghost predicate IsSplit(all: multiset<Timer>, kept: multiset<Timer>, moved: multiset<Timer>, moves: Timer -> bool)
  {
    && all == kept + moved
    && (forall t :: t in moved ==> moves(t))
    && (forall t :: t in kept ==> !moves(t))
  }

  /** A split leaves no choice: every occurrence of a timer is where its kind belongs. */
  lemma SplitIsExact(all: multiset<Timer>, kept: multiset<Timer>, moved: multiset<Timer>, moves: Timer -> bool, t: Timer)
    requires IsSplit(all, kept, moved, moves)
    ensures kept[t] == if moves(t) then 0 else all[t]
    ensures moved[t] == if moves(t) then all[t] else 0
  {
  }

  /** A timer comes behind those that are due no later, and before all others. */
  ghost predicate IsInserted(list: seq<Timer>, k: nat, t: Timer, list': seq<Timer>)
  {
    && k <= |list| && list' == list[..k] + [t] + list[k..]
    && (forall i :: 0 <= i < k ==> list[i].dueTime <= t.dueTime)
    && (forall i :: k <= i < |list| ==> t.dueTime < list[i].dueTime)
  }

  lemma LaterAreBehind(list: seq<Timer>, k: nat, t: Timer)
    requires Sorted(list) && k <= |list| && (k < |list| ==> t.dueTime < list[k].dueTime)
    ensures forall i :: k <= i < |list| ==> t.dueTime < list[i].dueTime
  {
  }

  lemma SplitOfParts(all: multiset<Timer>, entries: seq<Timer>, overflow: seq<Timer>, moved: seq<Timer>, moves: Timer -> bool)
    requires all == multiset(entries) + multiset(overflow) + multiset(moved)
    requires (forall t :: t in moved ==> moves(t)) && forall t :: t in entries || t in overflow ==> !moves(t)
    ensures IsSplit(all, multiset(entries) + multiset(overflow), multiset(moved), moves)
  {
  }

  lemma SameAreListed(a: seq<Timer>, b: seq<Timer>)
    requires multiset(a) == multiset(b)
    ensures forall t :: t in b ==> t in a
  {
    forall t | t in b
      ensures t in a
    {
      assert t in multiset(b) && t in multiset(a);
    }
  }

  /** Timers that move from the queue to a list are still there once. */
  lemma MovedAreGenuine(all: multiset<Timer>, now: multiset<Timer>, moved: seq<Timer>, list: seq<Timer>)
    requires Genuine(all + multiset(list)) && all == now + multiset(moved)
    ensures Genuine(now + multiset(moved + list)) && Genuine(now)
  {
    hide Genuine;
    assert now + multiset(moved + list) == all + multiset(list);
    FewerAreGenuine(all + multiset(list), now);
  }

  lemma MoveMore(more: seq<Timer>, moved: seq<Timer>, list: seq<Timer>)
    ensures more + (moved + list) == (more + moved) + list
    ensures multiset(more + moved) == multiset(more) + multiset(moved)
  {
  }

  function DueBy(currentTime: int): Timer -> bool
  {
    (t: Timer) => t.dueTime <= currentTime
  }

  function IsCancelled(cancelled: set<TimedOperation>): Timer -> bool
  {
    (t: Timer) => t.operation in cancelled
  }

  class TimerQueue {
    var timerEntries: seq<Timer>
    var overflowTimers: TimedOperation?
    /** The timers of the overflow list. */
    ghost var overflow: seq<Timer>

    ghost predicate Valid()
      reads this, Operations(overflow)`next
    {
      IsHeap(timerEntries) && Sorted(overflow) && Linked(overflowTimers, overflow) && Genuine(Timers())
    }

    /** Every timer in the queue, however it is kept. */
    ghost function Timers(): multiset<Timer>
      reads this
    {
      multiset(timerEntries) + multiset(overflow)
    }

    constructor ()
      ensures Valid() && Timers() == multiset{}
    {
      timerEntries, overflowTimers, overflow := [], null, [];
    }

    method IsEmpty() returns (empty: bool)
      requires Valid()
      ensures empty <==> Timers() == multiset{}
    {
      empty := timerEntries == [] && overflowTimers == null;
      if timerEntries != [] {
        assert timerEntries[0] in Timers();
      } else if overflow != [] {
        assert overflow[0] in Timers();
      }
    }

    /** The true minimum of all due times. */
    method EarliestDueTime() returns (r: int)
      requires Valid()
      ensures Timers() == multiset{} ==> r == MAX_TIME
      ensures Timers() != multiset{} ==> exists t :: t in Timers() && t.dueTime == r
      ensures forall t :: t in Timers() ==> r <= t.dueTime
    {
      hide IsHeap, Sorted, Linked, Genuine;
      HeapFront(timerEntries);
      SortedFront(overflow);
      LinksOf(overflowTimers, overflow, 0);
      GenuineEntries(Timers(), overflow);
      assert forall t :: t in Timers() ==> t in timerEntries || t in overflow;
      assert timerEntries != [] ==> timerEntries[0] in Timers();
      assert overflow != [] ==> overflow[0] in Timers();
      if timerEntries != [] {
        if overflowTimers != null {
          var a, b := timerEntries[0].dueTime, overflowTimers.resumeTime;
          return if b < a then b else a;
        }
        return timerEntries[0].dueTime;
      } else if overflowTimers != null {
        return overflowTimers.resumeTime;
      }
      return MAX_TIME;
    }

    /** `memory` tells whether the vector can grow. Whichever way it goes, the timer is in the queue. */
    method EnqueueTimer(timer: TimedOperation, memory: bool)
      requires Valid() && EntryOf(timer) !in Timers()
      modifies this, timer`next, Operations(overflow)`next
      ensures Valid() && Timers() == old(Timers()) + multiset{EntryOf(timer)}
      ensures if memory then overflow == old(overflow)
              else timerEntries == old(timerEntries) && exists k :: IsInserted(old(overflow), k, EntryOf(timer), overflow)
    {
      hide IsHeap, Sorted, Linked, Genuine, Operations;
      NewIsGenuine(Timers(), timer);
      Exist(overflow);
      if memory {
        assert (timerEntries + [EntryOf(timer)])[..|timerEntries|] == timerEntries;
        timerEntries := PushHeap(timerEntries + [EntryOf(timer)]);
        assert Timers() == old(Timers()) + multiset{EntryOf(timer)};
      } else {
        ghost var k := InsertSorted(timer);
        assert IsInserted(old(overflow), k, EntryOf(timer), overflow);
      }
    }

    /** The insertion into the overflow list: behind every timer that is due no later. */
    method InsertSorted(timer: TimedOperation) returns (ghost k: nat)
      requires Valid() && Genuine(Timers() + multiset{EntryOf(timer)})
      modifies this`overflowTimers, this`overflow, timer`next, Operations(overflow)`next
      ensures Valid() && Timers() == old(Timers()) + multiset{EntryOf(timer)}
      ensures IsInserted(old(overflow), k, EntryOf(timer), overflow)
    {
      hide IsHeap, Sorted, Linked, Genuine, Operations, Distinct;
      var previous: TimedOperation?, current := null, overflowTimers;
      k := 0;
      GenuineEntries(Timers(), overflow);
      LinksOf(overflowTimers, overflow, 0);
      while current != null && current.resumeTime <= timer.resumeTime
        invariant Valid() && overflow == old(overflow)
        invariant 0 <= k <= |overflow| && current == At(overflow, k) && IsBefore(previous, overflow, k)
        invariant forall i :: 0 <= i < k ==> overflow[i].dueTime <= timer.resumeTime
        decreases |overflow| - k
      {
        LinksOf(overflowTimers, overflow, k);
        previous, current, k := current, current.next, k + 1;
      }
      LaterAreBehind(overflow, k, EntryOf(timer));
      InsertAt(timer, previous, current, k);
    }

    /** `timer->m_next = *current; *current = timer`. */
    method InsertAt(timer: TimedOperation, previous: TimedOperation?, current: TimedOperation?, ghost k: nat)
      requires Valid() && Genuine(Timers() + multiset{EntryOf(timer)})
      requires IsBefore(previous, overflow, k) && current == At(overflow, k)
      requires forall i :: 0 <= i < k ==> overflow[i].dueTime <= timer.resumeTime
      requires current != null ==> timer.resumeTime < current.resumeTime
      modifies this`overflowTimers, this`overflow, timer`next, Operations(overflow)`next
      ensures Valid() && Timers() == old(Timers()) + multiset{EntryOf(timer)}
      ensures overflow == InsertedAt(old(overflow), k, EntryOf(timer))
    {
      hide IsHeap, Sorted, Linked, Genuine, Operations, Distinct, InsertedAt;
      GenuineEntries(Timers(), overflow);
      GenuineIsDistinct(Timers(), overflow);
      GenuineIsOnce(Timers() + multiset{EntryOf(timer)}, EntryOf(timer), overflow);
      InsertedIsSorted(overflow, k, EntryOf(timer));
      InsertedIsThere(overflow, k, EntryOf(timer));
      if k > 0 {
        OperationIsIn(overflow, k - 1);
      }
      Exist(overflow);
      overflowTimers := Link(overflowTimers, previous, timer, current, overflow, k);
      overflow := InsertedAt(overflow, k, EntryOf(timer));
      assert Timers() == old(Timers()) + multiset{EntryOf(timer)};
    }

    /** Everything due by `currentTime` moves to the front of `timerList`, and nothing else. */
    method DequeueDueTimers(currentTime: int, timerList: TimedOperation?, ghost list: seq<Timer>)
      returns (timerList': TimedOperation?, ghost moved: seq<Timer>)
      requires Valid() && Linked(timerList, list) && Genuine(Timers() + multiset(list))
      modifies this, (Operations(timerEntries) + Operations(overflow))`next
      ensures Valid() && Linked(timerList', moved + list)
      ensures IsSplit(old(Timers()), Timers(), multiset(moved), DueBy(currentTime))
    {
      hide IsHeap, Sorted, Linked, Genuine, Operations, IsSplit;
      ghost var fromHeap, fromOverflow;
      timerList', fromHeap := DequeueFromHeap(currentTime, timerList, list);
      MovedAreGenuine(old(Timers()), Timers(), fromHeap, list);
      timerList', fromOverflow := DequeueFromList(currentTime, timerList', fromHeap + list);
      moved := fromOverflow + fromHeap;
      MoveMore(fromOverflow, fromHeap, list);
      SplitOfParts(old(Timers()), timerEntries, overflow, moved, DueBy(currentTime));
    }

    method DequeueFromHeap(currentTime: int, timerList: TimedOperation?, ghost list: seq<Timer>)
      returns (timerList': TimedOperation?, ghost moved: seq<Timer>)
      requires Valid() && Linked(timerList, list) && Genuine(Timers() + multiset(list))
      modifies this`timerEntries, Operations(timerEntries)`next
      ensures Valid() && Linked(timerList', moved + list)
      ensures old(Timers()) == Timers() + multiset(moved)
      ensures forall t :: t in moved ==> t.dueTime <= currentTime
      ensures forall t :: t in timerEntries ==> t.dueTime > currentTime
    {
      hide IsHeap, Sorted, Linked, Genuine, Operations;
      timerList', moved := timerList, [];
      assert [] + list == list;
      while timerEntries != [] && timerEntries[0].dueTime <= currentTime
        invariant Valid() && Linked(timerList', moved + list)
        invariant old(Timers()) == Timers() + multiset(moved)
        invariant Operations(timerEntries) <= old(Operations(timerEntries))
        invariant forall t :: t in moved ==> t.dueTime <= currentTime
        decreases |timerEntries|
      {
        ghost var timer := timerEntries[0];
        MovedAreGenuine(old(Timers()), Timers(), moved, list);
        OperationIsIn(timerEntries, 0);
        timerList' := DequeueFront(timerList', moved + list);
        MoveMore([timer], moved, list);
        moved := [timer] + moved;
      }
      HeapFront(timerEntries);
    }

    /** One turn of the first loop of `dequeue_due_timers`. */
    method DequeueFront(timerList: TimedOperation?, ghost list: seq<Timer>) returns (timerList': TimedOperation)
      requires Valid() && timerEntries != [] && Linked(timerList, list) && Genuine(Timers() + multiset(list))
      modifies this`timerEntries, timerEntries[0].operation`next
      ensures Valid() && |timerEntries| < |old(timerEntries)| && Operations(timerEntries) <= old(Operations(timerEntries))
      ensures Linked(timerList', [old(timerEntries)[0]] + list)
      ensures old(Timers()) == Timers() + multiset{old(timerEntries)[0]}
    {
      hide IsHeap, Sorted, Linked, Genuine, Operations;
      assert timerEntries == [timerEntries[0]] + timerEntries[1..];
      GenuineIsOnce(Timers() + multiset(list), timerEntries[0], overflow);
      GenuineIsOnce(Timers() + multiset(list), timerEntries[0], list);
      var timer := timerEntries[0].operation;
      Exist(overflow);
      Exist(list);
      var entries := PopHeap(timerEntries);
      var n := |entries| - 1;
      assert entries == entries[..n] + [timerEntries[0]];
      OperationsWithin(entries[..n], timerEntries);
      timerEntries := entries[..n];
      FewerAreGenuine(old(Timers()), Timers());
      Exist(overflow);
      Exist(list);
      timerList' := PushFront(timer, timerList, list);
    }

    /** The second loop of `dequeue_due_timers`. */
    method DequeueFromList(currentTime: int, timerList: TimedOperation?, ghost list: seq<Timer>)
      returns (timerList': TimedOperation?, ghost moved: seq<Timer>)
      requires Valid() && Linked(timerList, list) && Genuine(Timers() + multiset(list))
      modifies this`overflowTimers, this`overflow, Operations(overflow)`next
      ensures Valid() && Linked(timerList', moved + list)
      ensures old(Timers()) == Timers() + multiset(moved)
      ensures forall t :: t in moved ==> t.dueTime <= currentTime
      ensures forall t :: t in overflow ==> t.dueTime > currentTime
    {
      hide IsHeap, Sorted, Linked, Genuine, Operations;
      timerList', moved := timerList, [];
      assert [] + list == list;
      while overflowTimers != null && overflowTimers.resumeTime <= currentTime
        invariant Valid() && Linked(timerList', moved + list)
        invariant old(Timers()) == Timers() + multiset(moved)
        invariant Operations(overflow) <= old(Operations(overflow))
        invariant forall t :: t in moved ==> t.dueTime <= currentTime
        decreases |overflow|
      {
        ghost var timer := EntryOf(overflowTimers);
        MovedAreGenuine(old(Timers()), Timers(), moved, list);
        LinksOf(overflowTimers, overflow, 0);
        OperationIsIn(overflow, 0);
        timerList' := DequeueOverflow(timerList', moved + list);
        MoveMore([timer], moved, list);
        moved := [timer] + moved;
      }
      LinksOf(overflowTimers, overflow, 0);
      GenuineEntries(Timers(), overflow);
      SortedFront(overflow);
    }

    method DequeueOverflow(timerList: TimedOperation?, ghost list: seq<Timer>) returns (timerList': TimedOperation)
      requires Valid() && overflowTimers != null && Linked(timerList, list) && Genuine(Timers() + multiset(list))
      modifies this`overflowTimers, this`overflow, overflowTimers`next
      ensures Valid() && old(overflow) == [EntryOf(old(overflowTimers))] + overflow
      ensures old(Timers()) == Timers() + multiset{EntryOf(old(overflowTimers))}
      ensures Operations(overflow) <= old(Operations(overflow))
      ensures Linked(timerList', [EntryOf(old(overflowTimers))] + list)
    {
      hide IsHeap, Sorted, Linked, Genuine, Operations;
      LinksOf(overflowTimers, overflow, 0);
      ghost var rest := overflow[1..];
      TailIsSorted(overflow);
      TailIsLinked(overflowTimers, overflow);
      PartsAreGenuine(timerEntries, overflow, list);
      TailIsApart(overflowTimers, overflow, list);
      var timer := overflowTimers;
      overflowTimers, overflow := timer.next, rest;
      assert old(Timers()) == Timers() + multiset{EntryOf(timer)};
      FewerAreGenuine(old(Timers()), Timers());
      Exist(overflow);
      Exist(list);
      timerList' := PushFront(timer, timerList, list);
    }

    /** Exactly the timers whose tokens are seen cancelled move to the front of `timerList`; what is left of
        the vector is compacted in place and made a heap again. Every timer's token is read once, so
        `cancelled` is what the reads find. */
    method RemoveCancelledTimers(cancelled: set<TimedOperation>, timerList: TimedOperation?, ghost list: seq<Timer>)
      returns (timerList': TimedOperation?, ghost moved: seq<Timer>)
      requires Valid() && Linked(timerList, list) && Genuine(Timers() + multiset(list))
      modifies this, (Operations(timerEntries) + Operations(overflow))`next
      ensures Valid() && Linked(timerList', moved + list)
      ensures IsSplit(old(Timers()), Timers(), multiset(moved), IsCancelled(cancelled))
    {
      hide IsHeap, Sorted, Linked, Genuine, Operations, Kept, Removed, IsSplit;
      ghost var fromHeap, fromOverflow;
      KeptSplits(overflow, cancelled);
      KeptIsSorted(overflow, cancelled);
      timerList', fromHeap := RemoveFromHeap(cancelled, timerList, list);
      MovedAreGenuine(old(Timers()), Timers(), fromHeap, list);
      PartsAreGenuine(timerEntries, overflow, fromHeap + list);
      timerList', fromOverflow := RemoveFromList(cancelled, timerList', fromHeap + list);
      moved := fromOverflow + fromHeap;
      MoveMore(fromOverflow, fromHeap, list);
      assert old(Timers()) == Timers() + multiset(moved);
      SplitOfParts(old(Timers()), timerEntries, overflow, moved, IsCancelled(cancelled));
      FewerAreGenuine(old(Timers()), Timers());
    }

    /** The part of the scan over the vector: `find_if`, the compaction, `erase` and `make_heap`. */
    method RemoveFromHeap(cancelled: set<TimedOperation>, timerList: TimedOperation?, ghost list: seq<Timer>)
      returns (timerList': TimedOperation?, ghost moved: seq<Timer>)
      requires Valid() && Linked(timerList, list) && Genuine(Timers() + multiset(list))
      modifies this`timerEntries, Operations(timerEntries)`next
      ensures Valid() && Linked(timerList', moved + list)
      ensures multiset(timerEntries) == multiset(Kept(old(timerEntries), cancelled))
      ensures moved == Removed(old(timerEntries), cancelled)
      ensures old(Timers()) == Timers() + multiset(moved)
      ensures forall t :: t in timerEntries ==> t.operation !in cancelled
      ensures forall t :: t in moved ==> t.operation in cancelled
    {
      hide IsHeap, Sorted, Linked, Genuine, Operations, Kept, Removed;
      ghost var before := timerEntries;
      Exist(overflow);
      Exist(list);
      var firstCancelledEntry := FindCancelled(timerEntries, cancelled);
      KeptSplits(before, cancelled);
      if firstCancelledEntry < |timerEntries| {
        PartsAreGenuine(before, overflow, list);
        Exist(overflow);
        timerEntries, timerList', moved := Compact(cancelled, timerEntries, timerList, firstCancelledEntry, list);
        Exist(overflow);
        Exist(moved + list);
        timerEntries := MakeHeap(timerEntries);
        SameAreListed(Kept(before, cancelled), timerEntries);
        FewerAreGenuine(old(Timers()), Timers());
      } else {
        assert before[..firstCancelledEntry] == before;
        timerList', moved := timerList, [];
        assert [] + list == list;
      }
    }

    /** The scan of the overflow list, which unlinks the cancelled timers. */
    method RemoveFromList(cancelled: set<TimedOperation>, timerList: TimedOperation?, ghost list: seq<Timer>)
      returns (timerList': TimedOperation?, ghost moved: seq<Timer>)
      requires Linked(overflowTimers, overflow) && Linked(timerList, list) && Genuine(multiset(overflow) + multiset(list))
      modifies this`overflowTimers, this`overflow, Operations(overflow)`next
      ensures Linked(overflowTimers, overflow) && Linked(timerList', moved + list)
      ensures overflow == Kept(old(overflow), cancelled) && moved == Removed(old(overflow), cancelled)
    {
      hide IsHeap, Sorted, Linked, Genuine, Operations, Kept, Removed, Scanned;
      ghost var before := overflow;
      LinksOf(overflowTimers, overflow, 0);
      var previous: TimedOperation?, current := null, overflowTimers;
      timerList', moved := timerList, [];
      ghost var k := 0;
      ScanBegins(before, cancelled);
      assert [] + list == list;
      while current != null
        invariant 0 <= k <= |before| && current == At(before, k)
        invariant Scanned(before, k, cancelled, overflow, moved, previous)
        invariant Linked(overflowTimers, overflow) && Linked(timerList', moved + list)
        decreases |before| - k
      {
        previous, current, timerList', moved := ScanOne(cancelled, current, previous, timerList', before, k, moved, list);
        k := k + 1;
      }
      ScanEnds(before, cancelled, overflow, moved, previous);
    }

    /** One turn of the scan. `*current` is the link of `previous`, or the head's. */
    method ScanOne(cancelled: set<TimedOperation>, timer: TimedOperation, previous: TimedOperation?, timerList: TimedOperation?,
                   ghost before: seq<Timer>, ghost k: nat, ghost moved: seq<Timer>, ghost list: seq<Timer>)
      returns (previous': TimedOperation?, current': TimedOperation?, timerList': TimedOperation?, ghost moved': seq<Timer>)
      requires Linked(overflowTimers, overflow) && Linked(timerList, moved + list)
      requires Genuine(multiset(before) + multiset(list)) && k < |before| && timer == before[k].operation
      requires Scanned(before, k, cancelled, overflow, moved, previous)
      modifies this`overflowTimers, this`overflow, Operations(before)`next
      ensures Linked(overflowTimers, overflow) && Linked(timerList', moved' + list)
      ensures Scanned(before, k + 1, cancelled, overflow, moved', previous') && current' == At(before, k + 1)
    {
      hide Linked, Genuine, Operations, Kept, Removed, Scanned, RemovedAt;
      ghost var n := |Kept(before[..k], cancelled)|;
      ScanIsAt(before, k, cancelled, overflow, moved, previous);
      ScanGoesOn(before, k, cancelled, overflow, moved, previous);
      ScanIsGenuine(before, k, cancelled, overflow, moved, previous, list);
      LinksOf(overflowTimers, overflow, n);
      previous', current', timerList', moved' := previous, timer.next, timerList, moved;
      if timer in cancelled {
        timerList' := UnlinkOne(timer, previous, timerList, n, moved + list);
        moved' := [before[k]] + moved;
        MoveMore([before[k]], moved, list);
      } else {
        previous' := timer;
      }
    }

    method UnlinkOne(timer: TimedOperation, previous: TimedOperation?, timerList: TimedOperation?, ghost k: nat, ghost list: seq<Timer>)
      returns (timerList': TimedOperation)
      requires Linked(overflowTimers, overflow) && Linked(timerList, list) && Genuine(multiset(overflow) + multiset(list))
      requires k < |overflow| && IsBefore(previous, overflow, k) && overflow[k] == EntryOf(timer)
      modifies this`overflowTimers, this`overflow, timer`next, (if previous == null then {} else {previous})`next
      ensures overflow == RemovedAt(old(overflow), k) && Linked(overflowTimers, overflow)
      ensures Linked(timerList', [EntryOf(timer)] + list)
    {
      hide Linked, Genuine, Operations, Distinct, RemovedAt;
      ghost var rest := RemovedAt(overflow, k);
      UnlinkedIsApart(multiset(overflow) + multiset(list), overflow, k, list);
      LinksOf(overflowTimers, overflow, k);
      Exist(list);
      overflowTimers := Unlink(overflowTimers, previous, timer.next, overflow, k);
      overflow := rest;
      Exist(overflow);
      Exist(list);
      timerList' := PushFront(timer, timerList, list);
    }
  }

  lemma UnlinkedIsApart(all: multiset<Timer>, overflow: seq<Timer>, k: nat, list: seq<Timer>)
    requires Genuine(all) && all == multiset(overflow) + multiset(list) && k < |overflow|
    ensures Distinct(overflow) && overflow[k].operation !in Operations(RemovedAt(overflow, k))
    ensures overflow[k].operation !in Operations(list)
    ensures k > 0 ==> overflow[k - 1].operation !in Operations(list)
  {
    hide Genuine, Operations, Distinct;
    assert overflow == overflow[..k] + [overflow[k]] + overflow[k + 1..];
    GenuineIsDistinct(all, overflow);
    GenuineIsOnce(all, overflow[k], RemovedAt(overflow, k));
    GenuineIsOnce(all, overflow[k], list);
    if k > 0 {
      assert overflow[k - 1] in multiset(overflow);
      GenuineIsOnce(all, overflow[k - 1], list);
    }
  }

  /** Where the scan of an overflow list is after `k` timers. */
  ghost predicate Scanned(before: seq<Timer>, k: nat, cancelled: set<TimedOperation>, list: seq<Timer>, moved: seq<Timer>,
                          previous: TimedOperation?)
  {
    && k <= |before| && list == Kept(before[..k], cancelled) + before[k..] && moved == Removed(before[..k], cancelled)
    && IsBefore(previous, list, |Kept(before[..k], cancelled)|)
  }

  lemma NewIsGenuine(timers: multiset<Timer>, timer: TimedOperation)
    requires Genuine(timers) && EntryOf(timer) !in timers
    ensures Genuine(timers + multiset{EntryOf(timer)})
  {
  }

  lemma PartsAreGenuine(entries: seq<Timer>, overflow: seq<Timer>, list: seq<Timer>)
    requires Genuine(multiset(entries) + multiset(overflow) + multiset(list))
    ensures Genuine(multiset(entries) + multiset(list)) && Genuine(multiset(overflow) + multiset(list))
    ensures Operations(entries) !! Operations(overflow)
  {
    hide Genuine, Operations;
    var all := multiset(entries) + multiset(overflow) + multiset(list);
    FewerAreGenuine(all, multiset(entries) + multiset(list));
    FewerAreGenuine(all, multiset(overflow) + multiset(list));
    GenuineAreApart(all, entries, overflow);
  }

  lemma FewerAreGenuine(timers: multiset<Timer>, fewer: multiset<Timer>)
    requires Genuine(timers) && fewer <= timers
    ensures Genuine(fewer)
  {
  }

  lemma TailIsApart(head: TimedOperation, overflow: seq<Timer>, list: seq<Timer>)
    requires Linked(head, overflow) && Genuine(multiset(overflow) + multiset(list)) && overflow != []
    ensures head !in Operations(overflow[1..]) && head !in Operations(list) && Operations(overflow[1..]) <= Operations(overflow)
    ensures overflow == [EntryOf(head)] + overflow[1..]
    ensures multiset(overflow) == multiset{EntryOf(head)} + multiset(overflow[1..])
  {
    hide Linked, Genuine, Operations;
    LinksOf(head, overflow, 0);
    var first, rest := overflow[0], overflow[1..];
    assert overflow == [first] + rest;
    GenuineIsOnce(multiset(overflow) + multiset(list), first, rest);
    GenuineIsOnce(multiset(overflow) + multiset(list), first, list);
    OperationsWithin(rest, overflow);
  }

  lemma TailIsLinked(head: TimedOperation, list: seq<Timer>)
    requires Linked(head, list)
    ensures list != [] && Linked(head.next, list[1..])
  {
    assert forall i :: 0 <= i < |list| - 1 ==> list[1..][i] == list[i + 1];
  }

  lemma ScanBegins(before: seq<Timer>, cancelled: set<TimedOperation>)
    ensures Scanned(before, 0, cancelled, before, [], null)
  {
    assert before[..0] == [] && before[0..] == before;
  }

  lemma ScanIsAt(before: seq<Timer>, k: nat, cancelled: set<TimedOperation>, list: seq<Timer>, moved: seq<Timer>,
                 previous: TimedOperation?)
    requires Scanned(before, k, cancelled, list, moved, previous) && k < |before|
    ensures var n := |Kept(before[..k], cancelled)|;
            n < |list| && list[n] == before[k] && At(list, n + 1) == At(before, k + 1) && IsBefore(previous, list, n)
    ensures before[k].operation in Operations(before) && (previous != null ==> previous in Operations(before))
  {
    hide Kept, Removed;
    var front := Kept(before[..k], cancelled);
    KeptSplits(before[..k], cancelled);
    if front != [] {
      assert front[|front| - 1] in front;
    }
  }

  lemma ScanGoesOn(before: seq<Timer>, k: nat, cancelled: set<TimedOperation>, list: seq<Timer>, moved: seq<Timer>,
                   previous: TimedOperation?)
    requires Scanned(before, k, cancelled, list, moved, previous) && k < |before|
    ensures var n := |Kept(before[..k], cancelled)|;
            if before[k].operation in cancelled
            then n < |list| && Scanned(before, k + 1, cancelled, RemovedAt(list, n), [before[k]] + moved, previous)
            else Scanned(before, k + 1, cancelled, list, moved, before[k].operation)
  {
    hide Kept, Removed;
    KeptOneMore(before, k, cancelled);
    RemoveOne(Kept(before[..k], cancelled), before, k);
  }

  lemma ScanEnds(before: seq<Timer>, cancelled: set<TimedOperation>, list: seq<Timer>, moved: seq<Timer>,
                 previous: TimedOperation?)
    requires Scanned(before, |before|, cancelled, list, moved, previous)
    ensures list == Kept(before, cancelled) && moved == Removed(before, cancelled)
  {
    assert before[..|before|] == before;
  }

  /** In the middle of a scan every timer is still there once. */
  lemma ScanIsGenuine(before: seq<Timer>, k: nat, cancelled: set<TimedOperation>, remaining: seq<Timer>, moved: seq<Timer>,
                      previous: TimedOperation?, list: seq<Timer>)
    requires Scanned(before, k, cancelled, remaining, moved, previous) && k < |before|
    requires Genuine(multiset(before) + multiset(list))
    ensures Genuine(multiset(remaining) + multiset(moved + list)) && before[k] == EntryOf(before[k].operation)
  {
    hide Kept, Removed, Genuine;
    KeptSplits(before[..k], cancelled);
    assert before == before[..k] + before[k..];
    assert multiset(remaining) + multiset(moved + list) == multiset(before) + multiset(list);
    GenuineEntries(multiset(before) + multiset(list), before);
  }

  /** `find_if`. */
  method FindCancelled(entries: seq<Timer>, cancelled: set<TimedOperation>) returns (k: nat)
    ensures k <= |entries| && (k < |entries| ==> entries[k].operation in cancelled)
    ensures Kept(entries[..k], cancelled) == entries[..k] && Removed(entries[..k], cancelled) == []
  {
    hide Kept, Removed;
    NothingKept(cancelled);
    k := 0;
    assert entries[..0] == [];
    while k < |entries| && entries[k].operation !in cancelled
      invariant k <= |entries| && Kept(entries[..k], cancelled) == entries[..k] && Removed(entries[..k], cancelled) == []
    {
      KeptOneMore(entries, k, cancelled);
      k := k + 1;
    }
  }

  /** The compaction: the cancelled entries are moved out, the others move up. */
  method Compact(cancelled: set<TimedOperation>, before: seq<Timer>, timerList: TimedOperation?, firstCancelledEntry: nat,
                 ghost list: seq<Timer>)
    returns (entries: seq<Timer>, timerList': TimedOperation?, ghost moved: seq<Timer>)
    requires Linked(timerList, list) && Genuine(multiset(before) + multiset(list))
    requires firstCancelledEntry < |before| && before[firstCancelledEntry].operation in cancelled
    requires Kept(before[..firstCancelledEntry], cancelled) == before[..firstCancelledEntry]
    requires Removed(before[..firstCancelledEntry], cancelled) == []
    modifies Operations(before)`next
    ensures entries == Kept(before, cancelled)
    ensures moved == Removed(before, cancelled) && Linked(timerList', moved + list)
  {
    hide Linked, Genuine, Operations, Kept, Removed;
    entries := before;
    var nonCancelledEnd := firstCancelledEntry;
    KeptOneMore(before, firstCancelledEntry, cancelled);
    AddIsApart(before, firstCancelledEntry, cancelled, list);
    assert [] + list == list;
    timerList' := PushFront(entries[nonCancelledEnd].operation, timerList, list);
    moved := [entries[nonCancelledEnd]];
    var iter := firstCancelledEntry + 1;
    while iter < |entries|
      invariant 0 <= nonCancelledEnd < iter <= |entries| == |before| && entries[iter..] == before[iter..]
      invariant entries[..nonCancelledEnd] == Kept(before[..iter], cancelled)
      invariant moved == Removed(before[..iter], cancelled) && Linked(timerList', moved + list)
    {
      KeptOneMore(before, iter, cancelled);
      CompactOne(entries, before, nonCancelledEnd, iter);
      var entry := entries[iter];
      if entry.operation in cancelled {
        AddIsApart(before, iter, cancelled, list);
        timerList' := PushFront(entry.operation, timerList', moved + list);
        assert [entry] + (moved + list) == ([entry] + moved) + list;
        moved := [entry] + moved;
      } else {
        entries := entries[nonCancelledEnd := entry];
        nonCancelledEnd := nonCancelledEnd + 1;
      }
      iter := iter + 1;
    }
    assert before[..iter] == before;
    entries := entries[..nonCancelledEnd];
  }

  /** The next entry to move out is not yet in the list it is moved to. */
  lemma AddIsApart(before: seq<Timer>, k: nat, cancelled: set<TimedOperation>, list: seq<Timer>)
    requires Genuine(multiset(before) + multiset(list)) && k < |before|
    ensures before[k] == EntryOf(before[k].operation) && before[k].operation in Operations(before)
    ensures before[k].operation !in Operations(Removed(before[..k], cancelled) + list)
  {
    hide Genuine, Operations;
    var all := multiset(before) + multiset(list);
    OperationIsIn(before, k);
    KeptSplits(before[..k], cancelled);
    assert before == before[..k] + ([before[k]] + before[k + 1..]);
    GenuineIsOnce(all, before[k], Removed(before[..k], cancelled) + list);
  }

  lemma CompactOne(entries: seq<Timer>, before: seq<Timer>, end: nat, iter: nat)
    requires end < iter < |entries| == |before| && entries[iter..] == before[iter..]
    ensures entries[iter] == before[iter] && entries[iter + 1..] == before[iter + 1..]
    ensures var moved := entries[end := entries[iter]];
            moved[..end + 1] == entries[..end] + [entries[iter]] && moved[iter + 1..] == before[iter + 1..]
  {
    assert entries[iter..][0] == before[iter..][0];
    assert entries[iter..][1..] == entries[iter + 1..] && before[iter..][1..] == before[iter + 1..];
  }

  lemma RemoveOne(front: seq<Timer>, before: seq<Timer>, k: nat)
    requires k < |before|
    ensures var all, n := front + before[k..], |front|;
            && all[n] == before[k] && all[..n] + all[n + 1..] == front + before[k + 1..]
            && all == (front + [before[k]]) + before[k + 1..] && RemovedAt(all, n) == front + before[k + 1..]
  {
  }

  lemma NothingKept(cancelled: set<TimedOperation>)
    ensures Kept([], cancelled) == [] && Removed([], cancelled) == []
  {
  }

  /** What a scan keeps, in order. */
  function Kept(timers: seq<Timer>, cancelled: set<TimedOperation>): seq<Timer>
  {
    if timers == [] then []
    else
      var n := |timers| - 1;
      Kept(timers[..n], cancelled) + (if timers[n].operation in cancelled then [] else [timers[n]])
  }

  /** What a scan moves to the front of another list: the last one found comes first. */
  function Removed(timers: seq<Timer>, cancelled: set<TimedOperation>): seq<Timer>
  {
    if timers == [] then []
    else
      var n := |timers| - 1;
      (if timers[n].operation in cancelled then [timers[n]] else []) + Removed(timers[..n], cancelled)
  }

  lemma KeptOneMore(timers: seq<Timer>, k: nat, cancelled: set<TimedOperation>)
    requires k < |timers|
    ensures Kept(timers[..k + 1], cancelled)
            == Kept(timers[..k], cancelled) + (if timers[k].operation in cancelled then [] else [timers[k]])
    ensures Removed(timers[..k + 1], cancelled)
            == (if timers[k].operation in cancelled then [timers[k]] else []) + Removed(timers[..k], cancelled)
    ensures timers[..k + 1] == timers[..k] + [timers[k]]
  {
    assert timers[..k + 1][..k] == timers[..k];
  }

  lemma {:induction false} KeptSplits(timers: seq<Timer>, cancelled: set<TimedOperation>)
    ensures multiset(timers) == multiset(Kept(timers, cancelled)) + multiset(Removed(timers, cancelled))
    ensures forall t :: t in Kept(timers, cancelled) ==> t.operation !in cancelled && t in timers
    ensures forall t :: t in Removed(timers, cancelled) ==> t.operation in cancelled
  {
    if timers != [] {
      var n := |timers| - 1;
      KeptSplits(timers[..n], cancelled);
      assert timers == timers[..n] + [timers[n]];
    }
  }

  lemma {:induction false} KeptIsSorted(timers: seq<Timer>, cancelled: set<TimedOperation>)
    requires Sorted(timers)
    ensures Sorted(Kept(timers, cancelled))
  {
    if timers != [] {
      var n := |timers| - 1;
      KeptIsSorted(timers[..n], cancelled);
      KeptSplits(timers[..n], cancelled);
      var front := Kept(timers[..n], cancelled);
      forall i | 0 <= i < |front|
        ensures front[i].dueTime <= timers[n].dueTime
      {
        assert front[i] in timers[..n];
      }
    }
  }

  lemma TailIsSorted(timers: seq<Timer>)
    requires Sorted(timers) && timers != []
    ensures Sorted(timers[1..])
  {
  }

  lemma InsertedIsThere(timers: seq<Timer>, k: nat, timer: Timer)
    requires k <= |timers|
    ensures multiset(InsertedAt(timers, k, timer)) == multiset(timers) + multiset{timer}
  {
    assert timers == timers[..k] + timers[k..];
  }

  lemma InsertedIsSorted(timers: seq<Timer>, k: nat, timer: Timer)
    requires Sorted(timers) && k <= |timers|
    requires forall i :: 0 <= i < k ==> timers[i].dueTime <= timer.dueTime
    requires k < |timers| ==> timer.dueTime <= timers[k].dueTime
    ensures Sorted(InsertedAt(timers, k, timer))
  {
    var r := InsertedAt(timers, k, timer);
    forall i, j | 0 <= i < j < |r|
      ensures r[i].dueTime <= r[j].dueTime
    {
      var a, b := if i < k then i else i - 1, if j < k then j else j - 1;
      assert i != k ==> r[i] == timers[a];
      assert j != k ==> r[j] == timers[b];
    }
  }

  lemma HeapFront(entries: seq<Timer>)
    requires IsHeap(entries)
    ensures forall t :: t in entries ==> entries[0].dueTime <= t.dueTime
  {
    forall t | t in entries
      ensures entries[0].dueTime <= t.dueTime
    {
      var i :| 0 <= i < |entries| && entries[i] == t;
      FrontIsEarliest(entries, i);
    }
  }

  lemma SortedFront(timers: seq<Timer>)
    requires Sorted(timers)
    ensures forall t :: t in timers ==> timers[0].dueTime <= t.dueTime
  {
  }

  /** The timer thread's turn: what is still queued after the due timers were taken is due later, so the
      time to wait for is in the future. */
  method ServeTimers(queue: TimerQueue, currentTime: int, timerList: TimedOperation?, ghost list: seq<Timer>)
    returns (timerList': TimedOperation?, waitUntil: int, ghost moved: seq<Timer>)
    requires queue.Valid() && currentTime < MAX_TIME
    requires Linked(timerList, list) && Genuine(queue.Timers() + multiset(list))
    modifies queue, (Operations(queue.timerEntries) + Operations(queue.overflow))`next
    ensures queue.Valid() && Linked(timerList', moved + list)
    ensures IsSplit(old(queue.Timers()), queue.Timers(), multiset(moved), DueBy(currentTime))
    ensures waitUntil > currentTime
    ensures forall t :: t in queue.Timers() ==> waitUntil <= t.dueTime
  {
    hide IsHeap, Sorted, Linked, Genuine, Operations;
    timerList', moved := queue.DequeueDueTimers(currentTime, timerList, list);
    Exist(queue.overflow);
    Exist(moved + list);
    waitUntil := queue.EarliestDueTime();
  }
}
