/** Timers: the operations that wait for a time, linked through their own fields, and the entries that stand
    for them in the vector of a timer queue. */
module TimedOperations {

  /** `timed_schedule_operation`. */
  class TimedOperation {
    const resumeTime: int
    var next: TimedOperation?

    constructor (resumeTime: int)
      ensures this.resumeTime == resumeTime && next == null
    {
      this.resumeTime, next := resumeTime, null;
    }
  }

  /** `timer_entry`. */
  datatype Timer = Timer(dueTime: int, operation: TimedOperation)

  function EntryOf(operation: TimedOperation): Timer
  {
    Timer(operation.resumeTime, operation)
  }

  function At(list: seq<Timer>, k: nat): TimedOperation?
  {
    if k < |list| then list[k].operation else null
  }

  ghost function Operations(timers: seq<Timer>): set<TimedOperation>
  {
    set t | t in timers :: t.operation
  }

  /** `head` is the null-terminated list of these timers. */
  ghost predicate Linked(head: TimedOperation?, list: seq<Timer>)
    reads Operations(list)`next
  {
    && head == At(list, 0)
    && forall i :: 0 <= i < |list| ==> list[i].operation.next == At(list, i + 1)
  }

  /** Every timer is there once, and is what its entry says. */
  ghost predicate Genuine(timers: multiset<Timer>)
  {
    forall t :: t in timers ==> timers[t] == 1 && t == EntryOf(t.operation)
  }

  ghost predicate Distinct(list: seq<Timer>)
  {
    forall i, j :: 0 <= i < j < |list| ==> list[i].operation != list[j].operation
  }

  lemma GenuineIsDistinct(timers: multiset<Timer>, list: seq<Timer>)
    requires Genuine(timers) && multiset(list) <= timers
    ensures Distinct(list)
  {
    forall i, j | 0 <= i < j < |list|
      ensures list[i].operation != list[j].operation
    {
      assert list == list[..j] + [list[j]] + list[j + 1..];
      assert list[..j][i] == list[i] && list[i] in multiset(list[..j]) && list[j] in multiset(list);
      assert multiset(list)[list[i]] >= 1 + multiset{list[j]}[list[i]];
    }
  }

  /** What has just been taken from one place is in no other. */
  lemma GenuineIsOnce(timers: multiset<Timer>, t: Timer, list: seq<Timer>)
    requires Genuine(timers) && multiset{t} + multiset(list) <= timers
    ensures t == EntryOf(t.operation) && t.operation !in Operations(list)
  {
    assert t in timers;
    forall x | x in list
      ensures x.operation != t.operation
    {
      assert x in multiset(list) && x in timers;
      assert timers[x] >= 1 + multiset{t}[x];
    }
  }

  lemma GenuineAreApart(timers: multiset<Timer>, a: seq<Timer>, b: seq<Timer>)
    requires Genuine(timers) && multiset(a) + multiset(b) <= timers
    ensures Operations(a) !! Operations(b)
  {
    hide Genuine, Operations;
    forall i | 0 <= i < |a|
      ensures a[i].operation !in Operations(b)
    {
      assert a[i] in multiset(a);
      GenuineIsOnce(timers, a[i], b);
    }
    OperationsAreListed(a);
  }

  lemma OperationsAreListed(list: seq<Timer>)
    ensures forall o :: o in Operations(list) ==> exists i :: 0 <= i < |list| && list[i].operation == o
  {
  }

  lemma GenuineEntries(timers: multiset<Timer>, list: seq<Timer>)
    requires Genuine(timers) && multiset(list) <= timers
    ensures forall i :: 0 <= i < |list| ==> list[i] == EntryOf(list[i].operation)
  {
    forall i | 0 <= i < |list|
      ensures list[i] == EntryOf(list[i].operation)
    {
      assert list[i] in multiset(list) && list[i] in timers;
    }
  }

  lemma OperationsWithin(a: seq<Timer>, b: seq<Timer>)
    requires multiset(a) <= multiset(b)
    ensures Operations(a) <= Operations(b)
  {
    forall t | t in a
      ensures t in b
    {
      assert t in multiset(a) && t in multiset(b);
    }
  }

  lemma LinksOf(head: TimedOperation?, list: seq<Timer>, k: nat)
    requires Linked(head, list)
    ensures head == At(list, 0) && (k < |list| ==> list[k].operation.next == At(list, k + 1))
  {
  }

  lemma Exist(list: seq<Timer>)
    ensures forall o :: o in Operations(list) ==> allocated(o)
  {
  }

  lemma OperationIsIn(timers: seq<Timer>, k: nat)
    requires k < |timers|
    ensures timers[k].operation in Operations(timers)
  {
  }

  /** `timer->m_next = timerList; timerList = timer`. */
  method PushFront(timer: TimedOperation, timerList: TimedOperation?, ghost list: seq<Timer>) returns (head: TimedOperation)
    requires Linked(timerList, list) && timer !in Operations(list)
    modifies timer`next
    ensures Linked(head, [EntryOf(timer)] + list)
  {
    ghost var all := [EntryOf(timer)] + list;
    timer.next := timerList;
    head := timer;
    forall i | 0 <= i < |all|
      ensures all[i].operation.next == At(all, i + 1)
    {
      if i > 0 {
        assert all[i] == list[i - 1] && At(all, i + 1) == At(list, i);
        OperationIsIn(list, i - 1);
      }
    }
  }

  function InsertedAt(list: seq<Timer>, k: nat, t: Timer): seq<Timer>
    requires k <= |list|
  {
    list[..k] + [t] + list[k..]
  }

  function RemovedAt(list: seq<Timer>, k: nat): seq<Timer>
    requires k < |list|
  {
    list[..k] + list[k + 1..]
  }

  /** The place a pointer `current` to a link points to: the head's, or that of the timer before position `k`. */
  ghost predicate IsBefore(previous: TimedOperation?, list: seq<Timer>, k: nat)
  {
    k <= |list| && previous == if k == 0 then null else list[k - 1].operation
  }

  /** `*current = timer->m_next`. */
  method Unlink(head: TimedOperation?, previous: TimedOperation?, next: TimedOperation?, ghost list: seq<Timer>, ghost k: nat)
    returns (head': TimedOperation?)
    requires Linked(head, list) && Distinct(list) && k < |list| && IsBefore(previous, list, k) && next == At(list, k + 1)
    modifies (if previous == null then {} else {previous})`next
    ensures Linked(head', RemovedAt(list, k))
  {
    head' := head;
    if previous == null {
      head' := next;
    } else {
      previous.next := next;
    }
    UnlinkedAt(head', list, k);
  }

  lemma UnlinkedAt(head: TimedOperation?, list: seq<Timer>, k: nat)
    requires k < |list| && head == At(list, if k == 0 then 1 else 0)
    requires forall i :: 0 <= i < |list| && i != k - 1 ==> list[i].operation.next == At(list, i + 1)
    requires k > 0 ==> list[k - 1].operation.next == At(list, k + 1)
    ensures Linked(head, RemovedAt(list, k))
  {
    var rest := RemovedAt(list, k);
    forall i | 0 <= i < |rest|
      ensures rest[i].operation.next == At(rest, i + 1)
    {
      assert At(rest, i + 1) == if i + 1 < k then At(list, i + 1) else At(list, i + 2);
      assert rest[i] == if i < k then list[i] else list[i + 1];
    }
  }

  /** `timer->m_next = *current; *current = timer`. */
  method Link(head: TimedOperation?, previous: TimedOperation?, timer: TimedOperation, current: TimedOperation?,
              ghost list: seq<Timer>, ghost k: nat)
    returns (head': TimedOperation?)
    requires Linked(head, list) && Distinct(list) && timer !in Operations(list) && IsBefore(previous, list, k)
    requires current == At(list, k)
    modifies timer`next, (if previous == null then {} else {previous})`next
    ensures Linked(head', InsertedAt(list, k, EntryOf(timer)))
  {
    assert forall i :: 0 <= i < |list| ==> list[i].operation in Operations(list);
    timer.next := current;
    head' := head;
    if previous == null {
      head' := timer;
    } else {
      previous.next := timer;
    }
    LinkedAt(head', list, timer, k);
  }

  lemma LinkedAt(head: TimedOperation?, list: seq<Timer>, timer: TimedOperation, k: nat)
    requires k <= |list| && head == (if k == 0 then timer else At(list, 0)) && timer.next == At(list, k)
    requires forall i :: 0 <= i < |list| && i != k - 1 ==> list[i].operation.next == At(list, i + 1)
    requires k > 0 ==> list[k - 1].operation.next == timer
    ensures Linked(head, InsertedAt(list, k, EntryOf(timer)))
  {
    var all := InsertedAt(list, k, EntryOf(timer));
    forall i | 0 <= i < |all|
      ensures all[i].operation.next == At(all, i + 1)
    {
      assert At(all, i + 1) == if i + 1 < k then At(list, i + 1) else if i + 1 == k then timer else At(list, i);
      assert all[i] == if i < k then list[i] else if i == k then EntryOf(timer) else list[i - 1];
    }
  }
}
