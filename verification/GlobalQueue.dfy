/** The global queue of `static_thread_pool` as a state machine: any number of threads push operations onto a
    stack, and any number take them, one at a time under a mutex, from a list that is refilled by
    reversing the stack. An action is one atomic operation, or private work under the mutex. */
module GlobalQueue {
  import opened Lists

  /** A scheduled operation. */
  type Op = nat
  type Thread = nat

  datatype Taker =
    | Away
    | LoadHead
    | LoadTail
    | Exchange
    | Take(list: seq<Op>)
    | Unlock(found: bool)

  datatype Mutex = Free | HeldBy(thread: Thread)

  datatype State = State(
    head: seq<Op>, tail: seq<Op>, mutex: Mutex, pushers: map<Op, Top>, takers: map<Thread, Taker>,
    // what follows only records what happened
    enqueued: seq<Op>, dequeued: seq<Op>)

  datatype Action = StartEnqueue(op: Op) | TryPush(op: Op, spurious: bool) | Lock(thread: Thread) | TakerStep(thread: Thread)

  function Init(): State
  {
    State([], [], Free, map[], map[], [], [])
  }

  function TakerIn(takers: map<Thread, Taker>, t: Thread): Taker
  {
    if t in takers then takers[t] else Away
  }

  predicate Enabled(s: State, a: Action)
  {
    match a
    case StartEnqueue(op) => op !in s.pushers && op !in s.enqueued
    case TryPush(op, _) => op in s.pushers
    case Lock(t) => TakerIn(s.takers, t).Away? && s.mutex.Free?
    case TakerStep(t) => !TakerIn(s.takers, t).Away? && (TakerIn(s.takers, t).Take? ==> TakerIn(s.takers, t).list != [])
  }

  function Go(s: State, t: Thread, r: Taker): State
  {
    s.(takers := s.takers[t := r])
  }

  function TakerApply(s: State, t: Thread): State
    requires Enabled(s, TakerStep(t))
  {
    match TakerIn(s.takers, t)
    case LoadHead => Go(s, t, if s.head != [] then Take(s.head) else LoadTail)
    case LoadTail => Go(s, t, if s.tail == [] then Unlock(false) else Exchange)
    case Exchange => Go(s.(tail := []), t, if s.tail == [] then Unlock(false) else Take(Reverse(s.tail)))
    case Take(list) => Go(s.(head := list[1..], dequeued := s.dequeued + [list[0]]), t, Unlock(true))
    case Unlock(_) => Go(s.(mutex := Free), t, Away)
    case Away => s
  }

  function Apply(s: State, a: Action): State
    requires Enabled(s, a)
  {
    match a
    case StartEnqueue(op) => s.(pushers := s.pushers[op := TopOf(s.tail)])
    case TryPush(op, spurious) =>
      if TopOf(s.tail) != s.pushers[op] || spurious then s.(pushers := s.pushers[op := TopOf(s.tail)])
      else s.(tail := [op] + s.tail, pushers := s.pushers - {op}, enqueued := s.enqueued + [op])
    case Lock(t) => Go(s.(mutex := HeldBy(t)), t, LoadHead)
    case TakerStep(t) => TakerApply(s, t)
  }

  /** The operations that come before those of the stack. */
  function Front(s: State): seq<Op>
  {
    if s.mutex.HeldBy? && TakerIn(s.takers, s.mutex.thread).Take? then TakerIn(s.takers, s.mutex.thread).list else s.head
  }

  /** Everything queued, oldest first. */
  function Queue(s: State): seq<Op>
  {
    Front(s) + Reverse(s.tail)
  }

  ghost predicate TakersOk(s: State)
  {
    && (forall t: Thread :: !TakerIn(s.takers, t).Away? <==> s.mutex == HeldBy(t))
    && (s.mutex.HeldBy? ==>
          var r := TakerIn(s.takers, s.mutex.thread);
          && (r.LoadTail? || r.Exchange? ==> s.head == [])
          && (r.Exchange? ==> s.tail != [])
          && (r.Take? ==> r.list != [] && (s.head == [] || s.head == r.list)))
  }

  ghost predicate Inv(s: State)
  {
    && TakersOk(s) && s.enqueued == s.dequeued + Queue(s) && NoDuplicates(s.enqueued)
    && forall op :: op in s.pushers ==> op !in s.enqueued
  }

  lemma PushStep(s: State, op: Op, spurious: bool)
    requires Inv(s) && Enabled(s, TryPush(op, spurious))
    ensures Inv(Apply(s, TryPush(op, spurious)))
  {
    var s' := Apply(s, TryPush(op, spurious));
    if s'.enqueued != s.enqueued {
      PushThenReverse(s.tail, op);
      assert Front(s') == Front(s);
      assert s'.enqueued == s.dequeued + Queue(s');
    }
  }

  lemma TakeStep(s: State, t: Thread)
    requires Inv(s) && Enabled(s, TakerStep(t))
    ensures Inv(Apply(s, TakerStep(t)))
  {
    hide NoDuplicates, Reverse;
    assert s.mutex == HeldBy(t);
    if TakerIn(s.takers, t).Take? {
      DequeueStep(s, t);
    } else {
      assert Queue(Apply(s, TakerStep(t))) == Queue(s);
    }
  }

  lemma DequeueStep(s: State, t: Thread)
    requires Inv(s) && s.mutex == HeldBy(t) && TakerIn(s.takers, t).Take? && TakerIn(s.takers, t).list != []
    ensures Inv(TakerApply(s, t))
  {
    hide NoDuplicates, Reverse;
    var s', list, back := TakerApply(s, t), TakerIn(s.takers, t).list, Reverse(s.tail);
    assert Queue(s) == list + back && Queue(s') == list[1..] + back;
    FirstLeaves(s.dequeued, list, back);
  }

  lemma FirstLeaves(front: seq<Op>, list: seq<Op>, back: seq<Op>)
    requires list != []
    ensures front + (list + back) == (front + [list[0]]) + (list[1..] + back)
  {
  }

  /** Every step of every thread keeps the invariant. */
  lemma StepKeepsInv(s: State, a: Action)
    requires Inv(s) && Enabled(s, a)
    ensures Inv(Apply(s, a))
  {
    match a {
      case TryPush(op, spurious) => PushStep(s, op, spurious);
      case TakerStep(t) => TakeStep(s, t);
      case StartEnqueue(_) => assert Queue(Apply(s, a)) == Queue(s);
      case Lock(_) => assert Queue(Apply(s, a)) == Queue(s);
    }
  }

  ghost predicate Reaches(s: State, run: seq<Action>, s': State)
    decreases |run|
  {
    if run == [] then s == s'
    else Enabled(s, run[0]) && Reaches(Apply(s, run[0]), run[1..], s')
  }

  lemma {:induction false} RunsKeepInv(s: State, run: seq<Action>, s': State)
    requires Inv(s) && Reaches(s, run, s')
    ensures Inv(s')
    decreases |run|
  {
    hide Inv;
    if run != [] {
      StepKeepsInv(s, run[0]);
      RunsKeepInv(Apply(s, run[0]), run[1..], s');
    }
  }

  ghost predicate Reachable(s: State)
  {
    exists run: seq<Action> :: Reaches(Init(), run, s)
  }

  lemma ReachableInv(s: State)
    requires Reachable(s)
    ensures Inv(s)
  {
    hide Inv;
    var run: seq<Action> :| Reaches(Init(), run, s);
    InitInv();
    RunsKeepInv(Init(), run, s);
  }

  lemma InitInv()
    ensures Inv(Init())
  {
  }

  lemma {:induction false} OneMore(s: State, run: seq<Action>, s': State, a: Action)
    requires Reaches(s, run, s') && Enabled(s', a)
    ensures Reaches(s, run + [a], Apply(s', a))
    decreases |run|
  {
    hide Apply, Enabled;
    if run == [] {
      assert [a][1..] == [];
      assert Reaches(Apply(s, a), [], Apply(s, a));
      assert run + [a] == [a];
    } else {
      OneMore(Apply(s, run[0]), run[1..], s', a);
      assert (run + [a])[1..] == run[1..] + [a];
    }
  }

  lemma StepKeepsReachable(s: State, a: Action)
    requires Reachable(s) && Enabled(s, a)
    ensures Reachable(Apply(s, a))
  {
    hide Apply, Enabled;
    var run: seq<Action> :| Reaches(Init(), run, s);
    OneMore(Init(), run, s, a);
  }

  /** Operations leave in the order in which they were pushed, each once, and none is lost. */
  lemma FirstInFirstOut(s: State)
    requires Reachable(s)
    ensures s.enqueued == s.dequeued + Queue(s) && NoDuplicates(s.enqueued)
  {
    ReachableInv(s);
  }

  /** `try_global_dequeue` comes back empty-handed only when, at its load of the tail, nothing at all was
      queued; and when the exchange is made there is something to take. */
  lemma EmptyMeansEmpty(s: State, t: Thread)
    requires Reachable(s) && Enabled(s, TakerStep(t))
    ensures TakerIn(Apply(s, TakerStep(t)).takers, t) == Unlock(false) ==> Queue(s) == [] && s.enqueued == s.dequeued
    ensures TakerIn(s.takers, t).Exchange? ==> s.tail != [] && s.head == []
  {
    ReachableInv(s);
    hide NoDuplicates;
    var r := TakerIn(s.takers, t);
    if r.LoadTail? || r.Exchange? {
      assert s.mutex == HeldBy(t);
    }
  }

  /** What one step does to the queue: a push adds to its end, a take removes its first operation. */
  lemma QueueStep(s: State, a: Action)
    requires Inv(s) && Enabled(s, a)
    ensures var s' := Apply(s, a);
            if s'.enqueued != s.enqueued then
              a.TryPush? && Queue(s') == Queue(s) + [a.op] && s'.enqueued == s.enqueued + [a.op] && s'.dequeued == s.dequeued
            else if s'.dequeued != s.dequeued then
              && a.TakerStep? && TakerIn(s.takers, a.thread).Take? && TakerIn(s'.takers, a.thread) == Unlock(true)
              && Queue(s) == [TakerIn(s.takers, a.thread).list[0]] + Queue(s')
              && s'.dequeued == s.dequeued + [TakerIn(s.takers, a.thread).list[0]]
            else Queue(s') == Queue(s)
  {
    hide NoDuplicates, Reverse;
    var s' := Apply(s, a);
    match a {
      case TryPush(op, spurious) =>
        PushStep(s, op, spurious);
        assert s'.enqueued == s.dequeued + Queue(s');
        assert s.enqueued + [op] == s.dequeued + (Queue(s) + [op]);
        SameRest(s.dequeued, Queue(s'), if s'.enqueued != s.enqueued then Queue(s) + [op] else Queue(s));
      case TakerStep(t) =>
        assert s.mutex == HeldBy(t);
        if TakerIn(s.takers, t).Take? {
          assert Queue(s) == [TakerIn(s.takers, t).list[0]] + Queue(s');
        } else {
          assert Queue(s') == Queue(s);
        }
      case _ => assert Queue(s') == Queue(s);
    }
  }

  lemma SameRest(front: seq<Op>, a: seq<Op>, b: seq<Op>)
    ensures front + a == front + b ==> a == b
  {
    if front + a == front + b {
      assert (front + a)[|front|..] == a && (front + b)[|front|..] == b;
    }
  }

  // ---------------------------------------------------------------- what happens between the steps of a call

  /** Who makes a call. */
  datatype Self = Pushing(op: Op) | Taking(thread: Thread)

  predicate IsOwn(self: Self, a: Action)
  {
    match a
    case StartEnqueue(x) => self == Pushing(x)
    case TryPush(x, _) => self == Pushing(x)
    case Lock(x) => self == Taking(x)
    case TakerStep(x) => self == Taking(x)
  }

  /** Where a call has got to. */
  ghost predicate SameOwn(self: Self, s: State, s': State)
  {
    match self
    case Pushing(op) => op in s.pushers ==> op in s'.pushers && s'.pushers[op] == s.pushers[op]
    case Taking(t) => TakerIn(s'.takers, t) == TakerIn(s.takers, t)
  }

  ghost predicate OthersRan(self: Self, s: State, s': State)
  {
    exists run: seq<Action> :: Reaches(s, run, s') && forall i :: 0 <= i < |run| ==> !IsOwn(self, run[i])
  }

  lemma NobodyRan(self: Self, s: State)
    ensures OthersRan(self, s, s)
  {
    assert Reaches(s, [], s);
  }

  lemma OthersLeaveOwn(self: Self, s: State, s': State)
    requires OthersRan(self, s, s')
    ensures SameOwn(self, s, s')
  {
    hide Reaches;
    var run: seq<Action> :| Reaches(s, run, s') && forall i :: 0 <= i < |run| ==> !IsOwn(self, run[i]);
    OtherRunsLeaveOwn(self, s, run, s');
  }

  lemma {:induction false} OtherRunsLeaveOwn(self: Self, s: State, run: seq<Action>, s': State)
    requires Reaches(s, run, s') && forall i :: 0 <= i < |run| ==> !IsOwn(self, run[i])
    ensures SameOwn(self, s, s')
    decreases |run|
  {
    if run != [] {
      assert !IsOwn(self, run[0]);
      assert forall i :: 0 <= i < |run[1..]| ==> run[1..][i] == run[i + 1];
      OtherRunsLeaveOwn(self, Apply(s, run[0]), run[1..], s');
    }
  }

  /** While one thread holds the mutex, others can only push. */
  ghost predicate OnlyPushed(s: State, s': State)
  {
    Queue(s) <= Queue(s') && s'.dequeued == s.dequeued
  }

  lemma OthersOnlyPush(t: Thread, s: State, s': State)
    requires Inv(s) && OthersRan(Taking(t), s, s') && !TakerIn(s.takers, t).Away?
    ensures Inv(s') && OnlyPushed(s, s')
  {
    hide Inv, Reaches, OnlyPushed;
    var run: seq<Action> :| Reaches(s, run, s') && forall i :: 0 <= i < |run| ==> !IsOwn(Taking(t), run[i]);
    OtherRunsOnlyPush(t, s, run, s');
  }

  lemma {:induction false} OtherRunsOnlyPush(t: Thread, s: State, run: seq<Action>, s': State)
    requires Inv(s) && Reaches(s, run, s') && !TakerIn(s.takers, t).Away?
    requires forall i :: 0 <= i < |run| ==> !IsOwn(Taking(t), run[i])
    ensures Inv(s') && OnlyPushed(s, s')
    decreases |run|
  {
    hide Inv, Queue, Apply, Enabled;
    if run != [] {
      assert !IsOwn(Taking(t), run[0]);
      StepKeepsInv(s, run[0]);
      OtherStepOnlyPushes(t, s, run[0]);
      assert forall i :: 0 <= i < |run[1..]| ==> run[1..][i] == run[i + 1];
      OtherRunsOnlyPush(t, Apply(s, run[0]), run[1..], s');
    }
  }

  lemma OtherStepOnlyPushes(t: Thread, s: State, a: Action)
    requires Inv(s) && Enabled(s, a) && !IsOwn(Taking(t), a) && !TakerIn(s.takers, t).Away?
    ensures OnlyPushed(s, Apply(s, a)) && TakerIn(Apply(s, a).takers, t) == TakerIn(s.takers, t)
  {
    hide NoDuplicates, Reverse, Queue;
    QueueStep(s, a);
    assert s.mutex == HeldBy(t);
  }
}
