/** `async_mutex` as a state machine: any number of coroutines lock and unlock. An action is one atomic
    operation on `m_state`, or the owner's private work on `m_waiters`. */
module Mutex {
  import opened Lists

  /** A lock operation, or a call of `try_lock`. */
  type Id = nat

  /** The three kinds of values of `m_state`; `stack` holds the new waiters, the latest first. */
  datatype Lock = NotLocked | Locked(stack: seq<Id>)

  /** What a load of `m_state` tells: two special values, or the address of the first operation. */
  datatype Seen = IsNotLocked | IsLockedNoWaiters | IsHead(id: Id)

  datatype Act =
    | Absent
    | TryLock
    | LockLoad
    | LockCas(seen: Seen)
    | Waiting
    | Holding
    | UnlockCas
    | UnlockExchange
    /** The new owner is the first of `list`. */
    | HandOver(list: seq<Id>)
    /** Unlocked again, or `try_lock` failed. */
    | Done(acquired: bool)

  datatype Holder = Nobody | Held(id: Id)

  datatype State = State(
    lock: Lock, waiters: seq<Id>, acts: map<Id, Act>,
    // what follows only records what happened
    holder: Holder, pushed: seq<Id>, granted: seq<Id>)

  datatype Action = StartTryLock(id: Id) | StartLock(id: Id) | Unlock(id: Id) | Step(id: Id, spurious: bool)

  function Init(): State
  {
    State(NotLocked, [], map[], Nobody, [], [])
  }

  function ActIn(acts: map<Id, Act>, id: Id): Act
  {
    if id in acts then acts[id] else Absent
  }

  function Address(lock: Lock): Seen
  {
    match lock
    case NotLocked => IsNotLocked
    case Locked(stack) => if stack == [] then IsLockedNoWaiters else IsHead(stack[0])
  }

  predicate Enabled(s: State, a: Action)
  {
    match a
    case StartTryLock(id) => id !in s.acts
    case StartLock(id) => id !in s.acts
    case Unlock(id) => ActIn(s.acts, id).Holding?
    case Step(id, _) =>
      var r := ActIn(s.acts, id);
      r.TryLock? || r.LockLoad? || r.LockCas? || r.UnlockCas? || r.UnlockExchange? || (r.HandOver? && r.list != [])
  }

  function Go(s: State, id: Id, r: Act): State
  {
    s.(acts := s.acts[id := r])
  }

  function Acquire(s: State, id: Id): State
  {
    Go(s.(lock := Locked([]), holder := Held(id)), id, Holding)
  }

  function StepApply(s: State, id: Id, spurious: bool): State
    requires Enabled(s, Step(id, spurious))
  {
    match ActIn(s.acts, id)
    case TryLock => if s.lock.NotLocked? then Acquire(s, id) else Go(s, id, Done(false))
    case LockLoad => Go(s, id, LockCas(Address(s.lock)))
    case LockCas(seen) =>
      if Address(s.lock) != seen || spurious then Go(s, id, LockCas(Address(s.lock)))
      else if s.lock.NotLocked? then Acquire(s, id)
      else Go(s.(lock := Locked([id] + s.lock.stack), pushed := s.pushed + [id]), id, Waiting)
    case UnlockCas =>
      if s.lock == Locked([]) then Go(s.(lock := NotLocked, holder := Nobody), id, Done(true))
      else Go(s, id, UnlockExchange)
    case UnlockExchange =>
      if s.lock.NotLocked? then s
      else Go(s.(lock := Locked([])), id, HandOver(Reverse(s.lock.stack)))
    case HandOver(list) =>
      var w := list[0];
      s.(waiters := list[1..], holder := Held(w), granted := s.granted + [w],
         acts := s.acts[id := Done(true)][w := Holding])
    case _ => s
  }

  function Apply(s: State, a: Action): State
    requires Enabled(s, a)
  {
    match a
    case StartTryLock(id) => Go(s, id, TryLock)
    case StartLock(id) => Go(s, id, LockLoad)
    case Unlock(id) => Go(s, id, if s.waiters == [] then UnlockCas else HandOver(s.waiters))
    case Step(id, spurious) => StepApply(s, id, spurious)
  }

  // ---------------------------------------------------------------- the invariant

  predicate IsOwner(r: Act)
  {
    r.Holding? || r.UnlockCas? || r.UnlockExchange? || r.HandOver?
  }

  function Stack(lock: Lock): seq<Id>
  {
    if lock.NotLocked? then [] else lock.stack
  }

  /** The waiters the owner knows of, first come first. */
  function Known(s: State): seq<Id>
  {
    if s.holder.Held? && ActIn(s.acts, s.holder.id).HandOver? then ActIn(s.acts, s.holder.id).list else s.waiters
  }

  /** Everybody who waits, in the order in which the mutex will be passed on. */
  function Queue(s: State): seq<Id>
  {
    Known(s) + Reverse(Stack(s.lock))
  }

  ghost predicate OwnerOk(s: State)
  {
    && (s.lock.NotLocked? <==> s.holder.Nobody?)
    && (forall id: Id :: IsOwner(ActIn(s.acts, id)) <==> s.holder == Held(id))
    && (s.lock.NotLocked? ==> s.waiters == [])
    && (s.holder.Held? ==>
          var r := ActIn(s.acts, s.holder.id);
          && (r.UnlockCas? || r.UnlockExchange? ==> s.waiters == [])
          && (r.UnlockExchange? ==> Stack(s.lock) != [])
          && (r.HandOver? ==> r.list != [] && (s.waiters == [] || s.waiters == r.list)))
  }

  ghost predicate WaitersOk(acts: map<Id, Act>, queue: seq<Id>, pushed: seq<Id>, granted: seq<Id>)
  {
    && pushed == granted + queue && NoDuplicates(pushed)
    && (forall id: Id :: ActIn(acts, id).Waiting? <==> id in queue)
    && (forall id: Id :: id in pushed ==> WasQueued(ActIn(acts, id)))
  }

  predicate WasQueued(r: Act)
  {
    r.Waiting? || IsOwner(r) || r == Done(true)
  }

  ghost predicate Inv(s: State)
  {
    OwnerOk(s) && WaitersOk(s.acts, Queue(s), s.pushed, s.granted)
  }

  lemma InitInv()
    ensures Inv(Init())
  {
  }

  // ---------------------------------------------------------------- the moves

  ghost predicate Moves(acts: map<Id, Act>, id: Id, acts': map<Id, Act>)
  {
    forall w: Id :: w != id ==> ActIn(acts', w) == ActIn(acts, w)
  }

  predicate Early(r: Act)
  {
    r.Absent? || r.TryLock? || r.LockLoad? || r.LockCas?
  }

  lemma EarlyIsUnqueued(s: State, id: Id)
    requires Inv(s) && Early(ActIn(s.acts, id))
    ensures id !in s.pushed && id !in Queue(s) && s.holder != Held(id)
  {
    assert s.pushed == s.granted + Queue(s);
  }

  /** A coroutine that neither owns the mutex nor waits goes on to do neither. */
  lemma EarlyMove(s: State, id: Id, s': State)
    requires Inv(s) && Moves(s.acts, id, s'.acts) && Early(ActIn(s.acts, id)) && s' == s.(acts := s'.acts)
    requires Early(ActIn(s'.acts, id)) || ActIn(s'.acts, id) == Done(false)
    ensures Inv(s')
  {
    hide NoDuplicates, Reverse;
    EarlyIsUnqueued(s, id);
    assert Queue(s') == Queue(s);
  }

  lemma AcquireMove(s: State, id: Id, s': State)
    requires Inv(s) && Moves(s.acts, id, s'.acts) && Early(ActIn(s.acts, id)) && ActIn(s'.acts, id).Holding?
    requires s.lock.NotLocked? && s' == s.(lock := Locked([]), holder := Held(id), acts := s'.acts)
    ensures Inv(s') && Queue(s) == []
  {
    EarlyIsUnqueued(s, id);
    assert Queue(s') == Queue(s) == [];
  }

  /** A waiter is pushed: it comes last in the queue. */
  lemma PushMove(s: State, id: Id, s': State)
    requires Inv(s) && Moves(s.acts, id, s'.acts) && Early(ActIn(s.acts, id)) && ActIn(s'.acts, id).Waiting?
    requires s.lock.Locked?
    requires s' == s.(lock := Locked([id] + s.lock.stack), pushed := s.pushed + [id], acts := s'.acts)
    ensures Inv(s') && Queue(s') == Queue(s) + [id]
  {
    EarlyIsUnqueued(s, id);
    PushThenReverse(s.lock.stack, id);
    assert Known(s') == Known(s);
    assert s'.pushed == s.granted + Queue(s');
    assert forall w: Id :: w in Queue(s') <==> w in Queue(s) || w == id;
  }

  /** The owner goes from one step of `unlock` to the next. */
  lemma UnlockMove(s: State, id: Id, s': State)
    requires Inv(s) && s.holder == Held(id) && Moves(s.acts, id, s'.acts)
    requires s' == s.(lock := s'.lock, acts := s'.acts) && s'.lock.Locked?
    requires || (ActIn(s'.acts, id).UnlockCas? && s.waiters == [] && s'.lock == s.lock && !ActIn(s.acts, id).HandOver?)
             || (ActIn(s'.acts, id).UnlockExchange? && s.waiters == [] && Stack(s.lock) != [] && s'.lock == s.lock
                 && !ActIn(s.acts, id).HandOver?)
             || (ActIn(s'.acts, id) == HandOver(s.waiters) && s.waiters != [] && s'.lock == s.lock && ActIn(s.acts, id).Holding?)
             || (ActIn(s'.acts, id) == HandOver(Reverse(s.lock.stack)) && s'.lock == Locked([])
                 && ActIn(s.acts, id).UnlockExchange?)
    ensures Inv(s') && Queue(s') == Queue(s)
  {
    assert IsOwner(ActIn(s.acts, id));
    assert Queue(s') == Queue(s);
  }

  lemma ReleaseMove(s: State, id: Id, s': State)
    requires Inv(s) && ActIn(s.acts, id).UnlockCas? && s.lock == Locked([]) && Moves(s.acts, id, s'.acts)
    requires ActIn(s'.acts, id) == Done(true) && s' == s.(lock := NotLocked, holder := Nobody, acts := s'.acts)
    ensures Inv(s') && Queue(s) == []
  {
    assert s.holder == Held(id);
    assert Queue(s') == Queue(s) == [];
  }

  /** The mutex goes to the one that has waited longest. */
  lemma HandOverMove(s: State, id: Id, w: Id, s': State)
    requires Inv(s) && ActIn(s.acts, id).HandOver? && ActIn(s.acts, id).list != [] && w == ActIn(s.acts, id).list[0]
    requires forall x: Id :: ActIn(s'.acts, x) == if x == w then Holding else if x == id then Done(true) else ActIn(s.acts, x)
    requires s' == s.(waiters := ActIn(s.acts, id).list[1..], holder := Held(w), granted := s.granted + [w], acts := s'.acts)
    ensures Inv(s') && Queue(s) == [w] + Queue(s')
  {
    hide WaitersOk, Reverse;
    assert s.holder == Held(id);
    var list := ActIn(s.acts, id).list;
    assert Queue(s) == [w] + Queue(s');
    FirstWaits(s.acts, Queue(s), s.pushed, s.granted);
    WaitersAfterHandOver(s.acts, w, Queue(s'), s.pushed, s.granted, id, s'.acts);
  }

  lemma FirstWaits(acts: map<Id, Act>, queue: seq<Id>, pushed: seq<Id>, granted: seq<Id>)
    requires WaitersOk(acts, queue, pushed, granted) && queue != []
    ensures ActIn(acts, queue[0]).Waiting?
  {
  }

  lemma WaitersAfterHandOver(acts: map<Id, Act>, w: Id, queue: seq<Id>, pushed: seq<Id>, granted: seq<Id>,
                             id: Id, acts': map<Id, Act>)
    requires WaitersOk(acts, [w] + queue, pushed, granted) && ActIn(acts, id).HandOver?
    requires forall x: Id :: ActIn(acts', x) == if x == w then Holding else if x == id then Done(true) else ActIn(acts, x)
    ensures WaitersOk(acts', queue, pushed, granted + [w])
  {
    hide NoDuplicates;
    assert pushed == (granted + [w]) + queue;
    FirstIsOnce(granted, [w] + queue, w);
    assert ([w] + queue)[1..] == queue;
    assert forall x: Id :: x in [w] + queue <==> x == w || x in queue;
  }

  lemma FirstIsOnce(front: seq<Id>, queue: seq<Id>, w: Id)
    requires NoDuplicates(front + queue) && queue != [] && queue[0] == w
    ensures w !in queue[1..] && w !in front
  {
    PrefixHasOther(front, queue);
    PrefixHasOther([w], queue[1..]);
    assert [w] + queue[1..] == queue;
  }

  // ---------------------------------------------------------------- every step

  lemma OwnerFacts(s: State, id: Id)
    requires Inv(s)
    ensures IsOwner(ActIn(s.acts, id)) ==> s.holder == Held(id) && s.lock.Locked?
    ensures ActIn(s.acts, id).UnlockCas? || ActIn(s.acts, id).UnlockExchange? ==> s.waiters == []
    ensures ActIn(s.acts, id).UnlockExchange? ==> Stack(s.lock) != []
  {
  }

  lemma LockSteps(s: State, id: Id, spurious: bool)
    requires Inv(s) && (ActIn(s.acts, id).TryLock? || ActIn(s.acts, id).LockLoad? || ActIn(s.acts, id).LockCas?)
    ensures Inv(StepApply(s, id, spurious))
  {
    hide Inv, Queue, Reverse;
    var s', r := StepApply(s, id, spurious), ActIn(s.acts, id);
    assert Moves(s.acts, id, s'.acts);
    if ActIn(s'.acts, id).Holding? {
      AcquireMove(s, id, s');
    } else if ActIn(s'.acts, id).Waiting? {
      PushMove(s, id, s');
    } else {
      EarlyMove(s, id, s');
    }
  }

  lemma UnlockSteps(s: State, id: Id, spurious: bool)
    requires Inv(s) && Enabled(s, Step(id, spurious))
    requires ActIn(s.acts, id).UnlockCas? || ActIn(s.acts, id).UnlockExchange? || ActIn(s.acts, id).HandOver?
    ensures Inv(StepApply(s, id, spurious))
  {
    hide Inv, Queue, Reverse;
    OwnerFacts(s, id);
    var s', r := StepApply(s, id, spurious), ActIn(s.acts, id);
    if r.HandOver? {
      HandOverMove(s, id, r.list[0], s');
    } else if r.UnlockCas? && s.lock == Locked([]) {
      ReleaseMove(s, id, s');
    } else {
      UnlockMove(s, id, s');
    }
  }

  /** Every step of every coroutine keeps the invariant. */
  lemma StepKeepsInv(s: State, a: Action)
    requires Inv(s) && Enabled(s, a)
    ensures Inv(Apply(s, a))
  {
    hide Inv, StepApply, Queue;
    match a {
      case StartTryLock(id) => EarlyMove(s, id, Apply(s, a));
      case StartLock(id) => EarlyMove(s, id, Apply(s, a));
      case Unlock(id) =>
        OwnerFacts(s, id);
        UnlockMove(s, id, Apply(s, a));
      case Step(id, spurious) =>
        if ActIn(s.acts, id).TryLock? || ActIn(s.acts, id).LockLoad? || ActIn(s.acts, id).LockCas? {
          LockSteps(s, id, spurious);
        } else {
          UnlockSteps(s, id, spurious);
        }
    }
  }

  // ---------------------------------------------------------------- whole runs

  ghost predicate Reaches(s: State, run: seq<Action>, s': State)
    decreases |run|
  {
    if run == [] then s == s'
    else Enabled(s, run[0]) && Reaches(Apply(s, run[0]), run[1..], s')
  }

  lemma {:induction false} RunsKeepInv(s: State, run: seq<Action>, s': State)
    requires Inv(s) && Reaches(s, run, s')
    ensures Inv(s')
    decreases |run|
  {
    hide Inv;
    if run != [] {
      StepKeepsInv(s, run[0]);
      RunsKeepInv(Apply(s, run[0]), run[1..], s');
    }
  }

  ghost predicate Reachable(s: State)
  {
    exists run: seq<Action> :: Reaches(Init(), run, s)
  }

  lemma ReachableInv(s: State)
    requires Reachable(s)
    ensures Inv(s)
  {
    hide Inv;
    var run: seq<Action> :| Reaches(Init(), run, s);
    InitInv();
    RunsKeepInv(Init(), run, s);
  }

  lemma {:induction false} OneMore(s: State, run: seq<Action>, s': State, a: Action)
    requires Reaches(s, run, s') && Enabled(s', a)
    ensures Reaches(s, run + [a], Apply(s', a))
    decreases |run|
  {
    hide Apply, Enabled;
    if run == [] {
      assert [a][1..] == [];
      assert Reaches(Apply(s, a), [], Apply(s, a));
      assert run + [a] == [a];
    } else {
      OneMore(Apply(s, run[0]), run[1..], s', a);
      assert (run + [a])[1..] == run[1..] + [a];
    }
  }

  lemma StepKeepsReachable(s: State, a: Action)
    requires Reachable(s) && Enabled(s, a)
    ensures Reachable(Apply(s, a))
  {
    hide Apply, Enabled;
    var run: seq<Action> :| Reaches(Init(), run, s);
    OneMore(Init(), run, s, a);
  }

  /** Mutual exclusion: at most one coroutine owns the mutex, and `m_state` is `not_locked` iff none does. */
  lemma AtMostOneOwner(s: State)
    requires Reachable(s)
    ensures forall id: Id, id': Id :: IsOwner(ActIn(s.acts, id)) && IsOwner(ActIn(s.acts, id')) ==> id == id'
    ensures s.lock.NotLocked? <==> forall id: Id :: !IsOwner(ActIn(s.acts, id))
  {
    ReachableInv(s);
    if s.holder.Held? {
      assert IsOwner(ActIn(s.acts, s.holder.id));
    }
  }

  /** Everybody who was queued either got the mutex, in the order of queueing, or waits in what the owner
      knows followed by the reversed stack; nobody is dropped and nobody is queued twice. */
  lemma WaitersAreServedInOrder(s: State)
    requires Reachable(s)
    ensures s.pushed == s.granted + Queue(s) && NoDuplicates(s.pushed)
    ensures forall id: Id :: ActIn(s.acts, id).Waiting? <==> id in Queue(s)
    ensures s.lock.NotLocked? ==> Queue(s) == []
  {
    ReachableInv(s);
  }

  lemma FreeHasNoQueue(s: State)
    requires Inv(s)
    ensures s.lock.NotLocked? ==> Queue(s) == []
  {
  }

  /** The mutex passes to the longest waiter, and a coroutine that gets it without having queued, by
      `try_lock` or at once, overtakes nobody. */
  lemma NobodyIsOvertaken(s: State, a: Action)
    requires Reachable(s) && Enabled(s, a)
    ensures Apply(s, a).holder != s.holder && Apply(s, a).holder.Held? ==>
              if ActIn(s.acts, a.id).HandOver? then Queue(s) == [Apply(s, a).holder.id] + Queue(Apply(s, a))
              else Queue(s) == [] && Apply(s, a).holder.id == a.id
    ensures Apply(s, a).granted == s.granted
            || (Queue(s) != [] && Apply(s, a).granted == s.granted + [Queue(s)[0]] && Apply(s, a).holder == Held(Queue(s)[0]))
  {
    hide Inv, Queue;
    ReachableInv(s);
    FreeHasNoQueue(s);
    var s' := Apply(s, a);
    if ActIn(s.acts, a.id).HandOver? {
      OwnerFacts(s, a.id);
      HandOverMove(s, a.id, ActIn(s.acts, a.id).list[0], s');
    }
  }

  /** `try_lock` gets the mutex iff it is free. */
  lemma TryLockTakesFree(s: State, id: Id)
    requires Reachable(s) && ActIn(s.acts, id).TryLock?
    ensures var s' := Apply(s, Step(id, false));
            if s.lock.NotLocked? then s'.holder == Held(id) && Queue(s') == []
            else ActIn(s'.acts, id) == Done(false) && s'.holder == s.holder && s'.holder != Held(id) && Queue(s') == Queue(s)
  {
    hide Inv;
    ReachableInv(s);
    StepKeepsInv(s, Step(id, false));
    EarlyIsUnqueued(s, id);
    TryLockKeepsQueue(s, id);
  }

  lemma StartKeepsQueue(s: State, id: Id)
    requires Inv(s) && id !in s.acts
    ensures var s' := Apply(s, StartTryLock(id)); Queue(s') == Queue(s) && s'.holder == s.holder && s'.lock == s.lock
  {
    EarlyIsUnqueued(s, id);
  }

  lemma TryLockKeepsQueue(s: State, id: Id)
    requires Inv(s) && ActIn(s.acts, id).TryLock?
    ensures Queue(Apply(s, Step(id, false))) == Queue(s) && (s.lock.NotLocked? ==> Queue(s) == [])
  {
    EarlyIsUnqueued(s, id);
  }

  /** The compare-and-swap of a lock operation that finds the value it expects takes a free mutex, and queues
      behind everybody else when it is not free. */
  lemma LockTakesFreeOrQueues(s: State, id: Id)
    requires Inv(s) && ActIn(s.acts, id) == LockCas(Address(s.lock))
    ensures var s' := Apply(s, Step(id, false));
            && (if s.lock.NotLocked? then s'.holder == Held(id) && ActIn(s'.acts, id).Holding? && Queue(s') == Queue(s) == []
                else s'.holder == s.holder && ActIn(s'.acts, id).Waiting? && Queue(s') == Queue(s) + [id])
            && s'.granted == s.granted
  {
    hide Inv, WaitersOk, Known;
    var s' := Apply(s, Step(id, false));
    assert Moves(s.acts, id, s'.acts);
    if s.lock.NotLocked? {
      AcquireMove(s, id, s');
      StepKeepsInv(s, Step(id, false));
      FreeIsAcquired(s, id, s');
    } else {
      PushMove(s, id, s');
    }
  }

  lemma FreeIsAcquired(s: State, id: Id, s': State)
    requires Inv(s) && Queue(s) == [] && ActIn(s.acts, id).LockCas? && s' == Acquire(s, id)
    ensures Queue(s') == []
  {
    EarlyIsUnqueued(s, id);
  }

  /** A step of `unlock` before the mutex is passed on: it is free afterwards iff nobody waits, and the queue
      stays what it is. */
  lemma UnlockKeepsQueue(s: State, a: Action)
    requires Inv(s) && Enabled(s, a)
    requires a.Unlock? || (a.Step? && (ActIn(s.acts, a.id).UnlockCas? || ActIn(s.acts, a.id).UnlockExchange?))
    ensures var s' := Apply(s, a); Queue(s') == Queue(s) && s'.granted == s.granted && s.lock.Locked?
    ensures a.Step? && ActIn(s.acts, a.id).UnlockCas? ==> (Apply(s, a).lock.NotLocked? <==> Queue(s) == [])
    ensures ActIn(Apply(s, a).acts, a.id).HandOver? ==> Queue(s) != []
  {
    hide Inv, WaitersOk;
    OwnerFacts(s, a.id);
    var s' := Apply(s, a);
    assert Moves(s.acts, a.id, s'.acts);
    if s'.lock.NotLocked? {
      ReleaseMove(s, a.id, s');
    } else {
      UnlockMove(s, a.id, s');
    }
  }

  lemma HandOverTakesFirst(s: State, id: Id)
    requires Inv(s) && ActIn(s.acts, id).HandOver? && ActIn(s.acts, id).list != []
    ensures var s' := Apply(s, Step(id, false));
            && Queue(s) == [ActIn(s.acts, id).list[0]] + Queue(s')
            && ActIn(s'.acts, id) == Done(true) && s'.holder == Held(ActIn(s.acts, id).list[0])
  {
    hide Inv, WaitersOk, Queue;
    OwnerFacts(s, id);
    var w := ActIn(s.acts, id).list[0];
    HandOverIsToOther(s, id);
    HandOverMove(s, id, w, Apply(s, Step(id, false)));
  }

  lemma HandOverIsToOther(s: State, id: Id)
    requires Inv(s) && ActIn(s.acts, id).HandOver? && ActIn(s.acts, id).list != []
    ensures ActIn(s.acts, id).list[0] != id
  {
    OwnerFacts(s, id);
    FirstWaits(s.acts, Queue(s), s.pushed, s.granted);
  }

  // ---------------------------------------------------------------- what happens between the steps of a call

  /** Everybody but one coroutine has done any number of steps. */
  ghost predicate OthersRan(id: Id, s: State, s': State)
  {
    exists run: seq<Action> :: Reaches(s, run, s') && forall i :: 0 <= i < |run| ==> run[i].id != id
  }

  lemma NobodyRan(id: Id, s: State)
    ensures OthersRan(id, s, s)
  {
    assert Reaches(s, [], s);
  }

  /** Only a coroutine that waits is moved on by another one. */
  lemma OthersLeaveAct(id: Id, s: State, s': State)
    requires Inv(s) && OthersRan(id, s, s') && !ActIn(s.acts, id).Waiting?
    ensures Inv(s') && ActIn(s'.acts, id) == ActIn(s.acts, id)
  {
    hide Inv, Reaches;
    var run: seq<Action> :| Reaches(s, run, s') && forall i :: 0 <= i < |run| ==> run[i].id != id;
    OtherRunsLeaveAct(id, s, run, s');
  }

  lemma {:induction false} OtherRunsLeaveAct(id: Id, s: State, run: seq<Action>, s': State)
    requires Inv(s) && Reaches(s, run, s') && !ActIn(s.acts, id).Waiting? && forall i :: 0 <= i < |run| ==> run[i].id != id
    ensures Inv(s') && ActIn(s'.acts, id) == ActIn(s.acts, id)
    decreases |run|
  {
    hide Inv;
    if run != [] {
      StepKeepsInv(s, run[0]);
      assert run[0].id != id;
      OtherStepLeavesAct(id, s, run[0]);
      assert forall i :: 0 <= i < |run[1..]| ==> run[1..][i] == run[i + 1];
      OtherRunsLeaveAct(id, Apply(s, run[0]), run[1..], s');
    }
  }

  /** While a coroutine owns the mutex, others can only join the end of the queue. */
  ghost predicate OnlyJoined(s: State, s': State)
  {
    Queue(s) <= Queue(s') && s'.granted == s.granted && s'.waiters == s.waiters
  }

  lemma OthersOnlyJoin(id: Id, s: State, s': State)
    requires Inv(s) && OthersRan(id, s, s') && IsOwner(ActIn(s.acts, id))
    ensures Inv(s') && OnlyJoined(s, s')
  {
    hide Inv, Reaches, OnlyJoined;
    var run: seq<Action> :| Reaches(s, run, s') && forall i :: 0 <= i < |run| ==> run[i].id != id;
    OtherRunsOnlyJoin(id, s, run, s');
  }

  lemma {:induction false} OtherRunsOnlyJoin(id: Id, s: State, run: seq<Action>, s': State)
    requires Inv(s) && Reaches(s, run, s') && IsOwner(ActIn(s.acts, id)) && forall i :: 0 <= i < |run| ==> run[i].id != id
    ensures Inv(s') && OnlyJoined(s, s')
    decreases |run|
  {
    hide Inv, Queue, Apply, Enabled;
    if run != [] {
      StepKeepsInv(s, run[0]);
      assert run[0].id != id;
      OtherStepLeavesAct(id, s, run[0]);
      OtherStepOnlyJoins(id, s, run[0]);
      assert forall i :: 0 <= i < |run[1..]| ==> run[1..][i] == run[i + 1];
      OtherRunsOnlyJoin(id, Apply(s, run[0]), run[1..], s');
    }
  }

  lemma OtherStepOnlyJoins(id: Id, s: State, a: Action)
    requires Inv(s) && Enabled(s, a) && a.id != id && IsOwner(ActIn(s.acts, id))
    ensures OnlyJoined(s, Apply(s, a))
  {
    hide Inv, WaitersOk, Reverse;
    OwnerFacts(s, id);
    OwnerFacts(s, a.id);
    var s' := Apply(s, a);
    assert Moves(s.acts, a.id, s'.acts);
    if ActIn(s'.acts, a.id).Waiting? && s'.lock != s.lock {
      PushMove(s, a.id, s');
    } else {
      assert Queue(s') == Queue(s);
    }
  }

  lemma OtherStepLeavesAct(id: Id, s: State, a: Action)
    requires Inv(s) && Enabled(s, a) && a.id != id && !ActIn(s.acts, id).Waiting?
    ensures ActIn(Apply(s, a).acts, id) == ActIn(s.acts, id)
  {
    if a.Step? && ActIn(s.acts, a.id).HandOver? {
      OwnerFacts(s, a.id);
      FirstWaits(s.acts, Queue(s), s.pushed, s.granted);
    }
  }
}
