/** `async_auto_reset_event` as a state machine: one action is one atomic operation on the packed state,
    the stack of new waiters or a waiter's reference count, or one move on the wait list by its owner.
    Every call of `set`, `reset` or `co_await` is an activity with its own identity; a waiting
    operation is known by the identity of its `co_await`. */
module AutoResetEvent {
  import opened Lists

  type Id = nat

  /** 2^32: each half of the packed state holds a count below this. */
  const HALF: nat := 0x1_0000_0000

  /** The two halves of the packed state. */
  datatype Counts = Counts(sets: nat, waiters: nat)

  datatype Call = Set | Reset | Await

  datatype Activity =
    | SetLoad
    | SetCas(seen: Counts)
    | ResetLoad
    | ResetCas(seen: Counts)
    | AwaitLoad
    | AwaitCas(seen: Counts)
    | AwaitPush
    | AwaitPushCas(top: Top)
    | AwaitCount
    /** Inside the loop of `resume_waiters`, owning the wait list: `todo` of this round's `round`
        dequeues are still to come. `waiter` says whether `await_suspend` or `set` called it. */
    | Draining(waiter: bool, batch: seq<Id>, todo: nat, round: nat)
    /** Past the loop: the rest of the dequeued waiters still has to be released. */
    | Resuming(waiter: bool, batch: seq<Id>)
    | AwaitRelease
    | Finished
    /** `co_await` got the event without suspending. */
    | Acquired
    /** `await_suspend` has returned. */
    | Left

  datatype Holder = Nobody | Held(owner: Id)

  /** What a call of `set` or `reset` has come to: it has taken effect, or found that there was nothing to do. */
  datatype Outcome = SetDone | FoundSet(seen: Counts) | ResetDone | FoundUnset(seen: Counts)

  datatype State = State(
    counts: Counts, newWaiters: seq<Id>, queue: seq<Id>, refs: map<Id, nat>, acts: map<Id, Activity>,
    // what follows only records what happened
    holder: Holder, pushed: seq<Id>, taken: seq<Id>, served: set<Id>, carrier: map<Id, Id>,
    continued: multiset<Id>, initially: nat, setsDone: nat, resetsDone: nat, acquired: nat, outcomes: map<Id, Outcome>)

  datatype Action = Start(id: Id, call: Call) | Step(id: Id, spurious: bool)

  function Init(initiallySet: bool): State
  {
    var n := if initiallySet then 1 else 0;
    State(Counts(n, 0), [], [], map[], map[], Nobody, [], [], {}, map[], multiset{}, n, 0, 0, 0, map[])
  }

  function Min(a: nat, b: nat): nat
  {
    if a < b then a else b
  }

  function Resumable(c: Counts): nat
  {
    Min(c.sets, c.waiters)
  }

  predicate IsSet(c: Counts)
  {
    c.sets > c.waiters
  }

  predicate Enabled(s: State, a: Action)
  {
    match a
    case Start(id, _) => id !in s.acts
    case Step(id, _) =>
      id in s.acts && !s.acts[id].Finished? && !s.acts[id].Acquired? && !s.acts[id].Left?
      // fewer than 2^32 - 1 operations can wait at a time: the format of the state has no room for more
      && (s.acts[id].AwaitCount? ==> s.counts.waiters + 2 < HALF)
  }

  function Go(s: State, id: Id, next: Activity): State
  {
    s.(acts := s.acts[id := next])
  }

  /** The first test of `set`, made on a value just loaded. */
  function SetTest(seen: Counts): Activity
  {
    if IsSet(seen) then Finished else SetCas(seen)
  }

  function ResetTest(seen: Counts): Activity
  {
    if IsSet(seen) then ResetCas(seen) else Finished
  }

  function Note(s: State, id: Id, outcome: Outcome): State
  {
    s.(outcomes := s.outcomes[id := outcome])
  }

  function TestForSet(s: State, id: Id): State
  {
    Go(if IsSet(s.counts) then Note(s, id, FoundSet(s.counts)) else s, id, SetTest(s.counts))
  }

  function TestForReset(s: State, id: Id): State
  {
    Go(if IsSet(s.counts) then s else Note(s, id, FoundUnset(s.counts)), id, ResetTest(s.counts))
  }

  /** What `resume_waiters` does after the last waiter of its batch. */
  function AfterBatch(waiter: bool, batch: seq<Id>): Activity
  {
    if batch != [] then Resuming(waiter, batch)
    else if waiter then AwaitRelease else Finished
  }

  /** One half of the hand-shake on a waiter's reference count; the second one continues the waiter. */
  function Release(s: State, w: Id): State
  {
    if w !in s.refs || s.refs[w] == 0 then s
    else s.(refs := s.refs[w := s.refs[w] - 1],
            continued := if s.refs[w] == 1 then s.continued + multiset{w} else s.continued)
  }

  /** One move of the owner of the wait list. */
  function Drain(s: State, id: Id, waiter: bool, batch: seq<Id>, todo: nat, round: nat): State
  {
    if todo > 0 then
      if s.queue == [] then
        s.(newWaiters := [], queue := Reverse(s.newWaiters))
      else
        var w := s.queue[0];
        Go(s.(queue := s.queue[1..], taken := s.taken + [w], carrier := s.carrier[w := id]),
           id, Draining(waiter, batch + [w], todo - 1, round))
    else if s.counts.sets < round || s.counts.waiters < round then s
    else
      var c := Counts(s.counts.sets - round, s.counts.waiters - round);
      var next := Resumable(c);
      if next > 0 then Go(s.(counts := c), id, Draining(waiter, batch, next, next))
      else Go(s.(counts := c, holder := Nobody), id, AfterBatch(waiter, batch))
  }

  function Apply(s: State, a: Action): State
    requires Enabled(s, a)
  {
    match a
    case Start(id, Set) => Go(s, id, SetLoad)
    case Start(id, Reset) => Go(s, id, ResetLoad)
    case Start(id, Await) => Go(s, id, AwaitLoad)
    case Step(id, spurious) =>
      match s.acts[id]
      case SetLoad => TestForSet(s, id)
      case SetCas(seen) =>
        if s.counts == seen && !spurious then
          var s1 := Note(s.(counts := s.counts.(sets := seen.sets + 1), setsDone := s.setsDone + 1), id, SetDone);
          if seen != Counts(0, 0) && seen.sets == 0
          then Go(s1.(holder := Held(id)), id, Draining(false, [], 1, 1))
          else Go(s1, id, Finished)
        else TestForSet(s, id)
      case ResetLoad => TestForReset(s, id)
      case ResetCas(seen) =>
        if s.counts == seen && seen.sets > 0 && !spurious then
          Go(Note(s.(counts := s.counts.(sets := seen.sets - 1), resetsDone := s.resetsDone + 1), id, ResetDone), id, Finished)
        else TestForReset(s, id)
      case AwaitLoad => Go(s, id, if IsSet(s.counts) then AwaitCas(s.counts) else AwaitPush)
      case AwaitCas(seen) =>
        if s.counts == seen && seen.sets > 0 then
          Go(s.(counts := s.counts.(sets := seen.sets - 1), acquired := s.acquired + 1,
                continued := s.continued + multiset{id}), id, Acquired)
        else Go(s, id, AwaitPush)
      case AwaitPush => Go(s, id, AwaitPushCas(TopOf(s.newWaiters)))
      case AwaitPushCas(top) =>
        if TopOf(s.newWaiters) == top && !spurious then
          Go(s.(newWaiters := [id] + s.newWaiters, pushed := s.pushed + [id], refs := s.refs[id := 2]),
             id, AwaitCount)
        else Go(s, id, AwaitPushCas(TopOf(s.newWaiters)))
      case AwaitCount =>
        var c := s.counts.(waiters := s.counts.waiters + 1);
        if s.counts != Counts(0, 0) && s.counts.waiters == 0
        then Go(s.(counts := c, holder := Held(id)), id, Draining(true, [], 1, 1))
        else Go(s.(counts := c), id, AwaitRelease)
      case Draining(waiter, batch, todo, round) => Drain(s, id, waiter, batch, todo, round)
      case Resuming(waiter, batch) =>
        if batch == [] then Go(s, id, AfterBatch(waiter, batch))
        else Go(Release(s, batch[0]).(served := s.served + {batch[0]}), id, AfterBatch(waiter, batch[1..]))
      case AwaitRelease => Go(Release(s, id), id, Left)
      case _ => s
  }

  // ---------------------------------------------------------------- the invariant

  function ActIn(acts: map<Id, Activity>, id: Id): Activity
  {
    if id in acts then acts[id] else Finished
  }

  function Act(s: State, id: Id): Activity
  {
    ActIn(s.acts, id)
  }

  /** Waiters already on the stack whose arrival the state does not count yet. */
  function Uncounted(acts: map<Id, Activity>): set<Id>
  {
    set id | id in acts && acts[id].AwaitCount?
  }

  /** How many waiters the owner has dequeued since it last updated the state. */
  function Ahead(acts: map<Id, Activity>, holder: Holder): nat
  {
    if holder.Held? then
      var d := ActIn(acts, holder.owner);
      if d.Draining? && d.todo <= d.round then d.round - d.todo else 0
    else 0
  }

  function Batch(act: Activity): seq<Id>
  {
    match act
    case Draining(_, batch, _, _) => batch
    case Resuming(_, batch) => batch
    case _ => []
  }

  /** The waiter still has to run the end of its own `await_suspend`. */
  predicate OwnSidePending(act: Activity)
  {
    act.AwaitCount? || (act.Draining? && act.waiter) || (act.Resuming? && act.waiter) || act.AwaitRelease?
  }

  predicate IsWaiting(act: Activity)
  {
    OwnSidePending(act) || act.Left?
  }

  function OwnCount(act: Activity): nat
  {
    if OwnSidePending(act) then 1 else 0
  }

  /** The coroutine behind an `co_await` is running again. */
  predicate HasContinued(act: Activity, served: bool)
  {
    act.Acquired? || (act.Left? && served)
  }

  predicate Fits(c: Counts)
  {
    c.sets <= c.waiters + 1 && c.waiters + 1 < HALF
  }

  /** What an activity that is about to compare-and-swap knows about the value it loaded. */
  predicate TestHolds(act: Activity)
  {
    && (act.ResetCas? || act.AwaitCas? ==> IsSet(act.seen) && Fits(act.seen))
    && (act.SetCas? ==> !IsSet(act.seen) && Fits(act.seen))
  }

  /** The state word as a lock: somebody owns the wait list iff both counts are positive. */
  ghost predicate LockOk(acts: map<Id, Activity>, holder: Holder, counts: Counts)
  {
    && (forall id: Id :: ActIn(acts, id).Draining? <==> holder == Held(id))
    && (holder.Held? <==> counts.sets > 0 && counts.waiters > 0)
    && counts.sets <= counts.waiters + 1 && counts.waiters + 1 < HALF
    && (holder.Held? ==>
          var d := ActIn(acts, holder.owner);
          d.todo <= d.round && 1 <= d.round <= Resumable(counts) && d.round <= |d.batch| + d.todo)
  }

  ghost predicate TestsOk(acts: map<Id, Activity>)
  {
    forall id: Id :: TestHolds(ActIn(acts, id))
  }

  /** The wait list holds what was pushed and not yet taken, in order of arrival. */
  ghost predicate Fifo(pushed: seq<Id>, taken: seq<Id>, queue: seq<Id>, newWaiters: seq<Id>)
  {
    pushed == taken + queue + Reverse(newWaiters) && NoDuplicates(pushed)
  }

  /** A waiter has a reference count from the moment it is pushed, and one that was taken has a carrier. */
  ghost predicate Known(acts: map<Id, Activity>, refs: set<Id>, pushed: seq<Id>)
  {
    && (forall w: Id :: w in refs <==> IsWaiting(ActIn(acts, w)))
    && (forall w: Id :: w in refs <==> w in pushed)
  }

  ghost predicate Taken(carriers: set<Id>, taken: seq<Id>)
  {
    forall w: Id :: w in carriers <==> w in taken
  }

  /** Every waiter taken and not yet served is in exactly one batch, once. */
  ghost predicate CarrierOk(acts: map<Id, Activity>, carrier: map<Id, Id>, served: set<Id>)
  {
    && (forall w: Id :: w in carrier && w !in served ==> w in Batch(ActIn(acts, carrier[w])))
    && (forall id: Id, w: Id :: w in Batch(ActIn(acts, id)) ==> w in carrier && w !in served && carrier[w] == id)
    && (forall id: Id :: NoDuplicates(Batch(ActIn(acts, id))))
    && (forall id: Id :: ActIn(acts, id).Resuming? ==> ActIn(acts, id).batch != [])
    && served <= carrier.Keys
  }

  /** The reference count is the number of parties that have not let go of the waiter yet. */
  ghost predicate RefsOk(acts: map<Id, Activity>, refs: map<Id, nat>, served: set<Id>)
  {
    forall w: Id :: w in refs ==> refs[w] == OwnCount(ActIn(acts, w)) + (if w in served then 0 else 1)
  }

  ghost predicate ContinuedOk(acts: map<Id, Activity>, continued: multiset<Id>, served: set<Id>)
  {
    forall w: Id :: continued[w] == if HasContinued(ActIn(acts, w), w in served) then 1 else 0
  }

  /** Nobody is counted as waiting who is not in the list, and every effective set is accounted for. */
  ghost predicate CountsOk(s: State)
  {
    && |s.queue| + |s.newWaiters| + Ahead(s.acts, s.holder) == s.counts.waiters + |Uncounted(s.acts)|
    && s.initially + s.setsDone + Ahead(s.acts, s.holder)
       == s.acquired + s.resetsDone + |s.taken| + s.counts.sets
  }

  /** A call of `set` or `reset` is over, but for the waiters it has to resume. */
  predicate Settled(act: Activity)
  {
    act.Finished? || (act.Draining? && !act.waiter) || (act.Resuming? && !act.waiter)
  }

  predicate OutcomeHolds(outcome: Outcome)
  {
    (outcome.FoundSet? ==> IsSet(outcome.seen)) && (outcome.FoundUnset? ==> !IsSet(outcome.seen))
  }

  function Sets(outcomes: map<Id, Outcome>): set<Id>
  {
    set id | id in outcomes && outcomes[id].SetDone?
  }

  function Resets(outcomes: map<Id, Outcome>): set<Id>
  {
    set id | id in outcomes && outcomes[id].ResetDone?
  }

  /** Every call that is over has its outcome, and those that took effect are the ones counted. */
  ghost predicate OutcomesOk(acts: map<Id, Activity>, outcomes: map<Id, Outcome>, setsDone: nat, resetsDone: nat)
  {
    && (forall id: Id :: id in outcomes <==> id in acts && Settled(ActIn(acts, id)))
    && (forall id: Id :: id in outcomes ==> OutcomeHolds(outcomes[id]))
    && |Sets(outcomes)| == setsDone && |Resets(outcomes)| == resetsDone
  }

  ghost predicate Inv(s: State)
  {
    && LockOk(s.acts, s.holder, s.counts) && TestsOk(s.acts)
    && Fifo(s.pushed, s.taken, s.queue, s.newWaiters)
    && Known(s.acts, s.refs.Keys, s.pushed) && Taken(s.carrier.Keys, s.taken)
    && CarrierOk(s.acts, s.carrier, s.served)
    && RefsOk(s.acts, s.refs, s.served) && ContinuedOk(s.acts, s.continued, s.served)
    && CountsOk(s) && OutcomesOk(s.acts, s.outcomes, s.setsDone, s.resetsDone)
  }

  lemma InitInv(initiallySet: bool)
    ensures Inv(Init(initiallySet))
  {
    assert Uncounted(map[]) == {};
    assert Sets(map[]) == {} && Resets(map[]) == {};
  }

  // ---------------------------------------------------------------- what one move does to each part

  ghost predicate Moves(acts: map<Id, Activity>, id: Id, acts': map<Id, Activity>)
  {
    && acts'.Keys == acts.Keys + {id}
    && forall w: Id :: w != id ==> ActIn(acts', w) == ActIn(acts, w)
  }

  /** How one activity's move changes the set of uncounted waiters. */
  lemma UncountedAfter(acts: map<Id, Activity>, id: Id, acts': map<Id, Activity>)
    requires Moves(acts, id, acts')
    ensures |Uncounted(acts')| == |Uncounted(acts)| - (if ActIn(acts, id).AwaitCount? then 1 else 0)
                                  + (if ActIn(acts', id).AwaitCount? then 1 else 0)
  {
    var before, after := Uncounted(acts), Uncounted(acts');
    forall w: Id
      ensures w in after - {id} <==> w in before - {id}
    {
      if w != id {
        assert ActIn(acts', w) == ActIn(acts, w);
      }
    }
    assert after - {id} == before - {id};
    SizeWithout(before, id);
    SizeWithout(after, id);
  }

  lemma SizeWithout(s: set<Id>, x: Id)
    ensures |s| == |s - {x}| + (if x in s then 1 else 0)
  {
    if x !in s {
      assert s - {x} == s;
    }
  }

  /** A move that neither enters nor leaves the wait list's critical section. */
  lemma MoveKeepsLock(acts: map<Id, Activity>, holder: Holder, counts: Counts, id: Id, acts': map<Id, Activity>)
    requires LockOk(acts, holder, counts) && Moves(acts, id, acts')
    requires !ActIn(acts, id).Draining? && !ActIn(acts', id).Draining?
    ensures LockOk(acts', holder, counts) && Ahead(acts', holder) == Ahead(acts, holder)
  {
  }

  /** A change of the counts that neither takes nor releases the lock, nor undercuts its owner. */
  lemma CountsKeepLock(acts: map<Id, Activity>, holder: Holder, counts: Counts, counts': Counts)
    requires LockOk(acts, holder, counts)
    requires counts'.sets <= counts'.waiters + 1 && counts'.waiters + 1 < HALF
    requires counts'.sets > 0 && counts'.waiters > 0 <==> counts.sets > 0 && counts.waiters > 0
    requires Resumable(counts') >= Resumable(counts)
    ensures LockOk(acts, holder, counts')
  {
  }

  lemma EnterLock(acts: map<Id, Activity>, counts: Counts, id: Id, acts': map<Id, Activity>, counts': Counts)
    requires LockOk(acts, Nobody, counts) && Moves(acts, id, acts')
    requires ActIn(acts', id).Draining? && ActIn(acts', id).todo == ActIn(acts', id).round == 1
    requires counts'.sets > 0 && counts'.waiters > 0
    requires counts'.sets <= counts'.waiters + 1 && counts'.waiters + 1 < HALF
    ensures LockOk(acts', Held(id), counts') && Ahead(acts', Held(id)) == 0
  {
  }

  /** A move of the owner inside the critical section. */
  lemma StayInLock(acts: map<Id, Activity>, holder: Holder, counts: Counts, id: Id, acts': map<Id, Activity>, counts': Counts)
    requires LockOk(acts, holder, counts) && Moves(acts, id, acts')
    requires ActIn(acts, id).Draining? && ActIn(acts', id).Draining?
    requires counts'.sets > 0 && counts'.waiters > 0
    requires counts'.sets <= counts'.waiters + 1 && counts'.waiters + 1 < HALF
    requires var d := ActIn(acts', id);
             d.todo <= d.round && 1 <= d.round <= Resumable(counts') && d.round <= |d.batch| + d.todo
    ensures LockOk(acts', holder, counts')
    ensures Ahead(acts', holder) == ActIn(acts', id).round - ActIn(acts', id).todo
  {
  }

  lemma LeaveLock(acts: map<Id, Activity>, holder: Holder, counts: Counts, id: Id, acts': map<Id, Activity>, counts': Counts)
    requires LockOk(acts, holder, counts) && Moves(acts, id, acts')
    requires ActIn(acts, id).Draining? && !ActIn(acts', id).Draining?
    requires counts'.sets == 0 || counts'.waiters == 0
    requires counts'.sets <= counts'.waiters + 1 && counts'.waiters + 1 < HALF
    ensures LockOk(acts', Nobody, counts') && Ahead(acts', Nobody) == 0
  {
  }

  lemma MoveKeepsTests(acts: map<Id, Activity>, id: Id, acts': map<Id, Activity>)
    requires TestsOk(acts) && Moves(acts, id, acts') && TestHolds(ActIn(acts', id))
    ensures TestsOk(acts')
  {
    forall w: Id
      ensures TestHolds(ActIn(acts', w))
    {
      assert TestHolds(ActIn(acts, w));
    }
  }

  lemma MoveKeepsKnown(acts: map<Id, Activity>, refs: set<Id>, pushed: seq<Id>, id: Id, acts': map<Id, Activity>)
    requires Known(acts, refs, pushed) && Moves(acts, id, acts')
    requires IsWaiting(ActIn(acts', id)) <==> IsWaiting(ActIn(acts, id))
    ensures Known(acts', refs, pushed)
  {
  }

  lemma MoveKeepsCarriers(acts: map<Id, Activity>, carrier: map<Id, Id>, served: set<Id>, id: Id, acts': map<Id, Activity>)
    requires CarrierOk(acts, carrier, served) && Moves(acts, id, acts')
    requires Batch(ActIn(acts', id)) == Batch(ActIn(acts, id))
    requires ActIn(acts', id).Resuming? ==> ActIn(acts', id).batch != []
    ensures CarrierOk(acts', carrier, served)
  {
    assert forall w: Id :: Batch(ActIn(acts', w)) == Batch(ActIn(acts, w));
  }

  lemma MoveKeepsRefs(acts: map<Id, Activity>, refs: map<Id, nat>, served: set<Id>, id: Id, acts': map<Id, Activity>)
    requires RefsOk(acts, refs, served) && Moves(acts, id, acts')
    requires OwnSidePending(ActIn(acts', id)) <==> OwnSidePending(ActIn(acts, id))
    ensures RefsOk(acts', refs, served)
  {
  }

  lemma MoveKeepsContinued(acts: map<Id, Activity>, continued: multiset<Id>, served: set<Id>, id: Id, acts': map<Id, Activity>)
    requires ContinuedOk(acts, continued, served) && Moves(acts, id, acts')
    requires HasContinued(ActIn(acts', id), id in served) <==> HasContinued(ActIn(acts, id), id in served)
    ensures ContinuedOk(acts', continued, served)
  {
  }

  lemma MoveKeepsOutcomes(s: State, id: Id, acts': map<Id, Activity>)
    requires OutcomesOk(s.acts, s.outcomes, s.setsDone, s.resetsDone) && Moves(s.acts, id, acts')
    requires Settled(ActIn(acts', id)) <==> id in s.acts && Settled(Act(s, id))
    ensures OutcomesOk(acts', s.outcomes, s.setsDone, s.resetsDone)
  {
    hide Settled, OutcomeHolds;
  }

  /** A call that is over gets its outcome. */
  ghost predicate Notes(s: State, id: Id, s': State)
  {
    && id in s.acts && !Settled(Act(s, id)) && Settled(Act(s', id))
    && id in s'.outcomes && OutcomeHolds(s'.outcomes[id]) && s'.outcomes == s.outcomes[id := s'.outcomes[id]]
    && s'.setsDone == s.setsDone + (if s'.outcomes[id].SetDone? then 1 else 0)
    && s'.resetsDone == s.resetsDone + (if s'.outcomes[id].ResetDone? then 1 else 0)
  }

  lemma NotesOutcome(s: State, id: Id, s': State)
    requires OutcomesOk(s.acts, s.outcomes, s.setsDone, s.resetsDone) && Moves(s.acts, id, s'.acts) && Notes(s, id, s')
    ensures OutcomesOk(s'.acts, s'.outcomes, s'.setsDone, s'.resetsDone)
  {
    hide Settled, OutcomeHolds, Sets, Resets;
    assert id !in s.outcomes;
    OneMoreOutcome(s.outcomes, id, s'.outcomes[id]);
  }

  lemma OneMoreOutcome(outcomes: map<Id, Outcome>, id: Id, outcome: Outcome)
    requires id !in outcomes
    ensures |Sets(outcomes[id := outcome])| == |Sets(outcomes)| + (if outcome.SetDone? then 1 else 0)
    ensures |Resets(outcomes[id := outcome])| == |Resets(outcomes)| + (if outcome.ResetDone? then 1 else 0)
  {
    SizeAfter(Sets(outcomes), id, outcome.SetDone?, Sets(outcomes[id := outcome]));
    SizeAfter(Resets(outcomes), id, outcome.ResetDone?, Resets(outcomes[id := outcome]));
  }

  lemma SizeAfter(s: set<Id>, x: Id, added: bool, s': set<Id>)
    requires x !in s && forall y: Id :: y in s' <==> y in s || (added && y == x)
    ensures |s'| == |s| + (if added then 1 else 0)
  {
    if added {
      assert s' == s + {x};
    } else {
      assert s' == s;
    }
  }

  /** A step that ends no call of `set` or `reset`. */
  ghost predicate NotesNothing(s: State, id: Id, s': State)
  {
    && (Settled(Act(s', id)) <==> id in s.acts && Settled(Act(s, id)))
    && s'.outcomes == s.outcomes && s'.setsDone == s.setsDone && s'.resetsDone == s.resetsDone
  }

  lemma OutcomesStayOk(s: State, id: Id, s': State)
    requires OutcomesOk(s.acts, s.outcomes, s.setsDone, s.resetsDone) && Moves(s.acts, id, s'.acts)
    requires NotesNothing(s, id, s') || Notes(s, id, s')
    ensures OutcomesOk(s'.acts, s'.outcomes, s'.setsDone, s'.resetsDone)
  {
    hide OutcomesOk, Moves;
    if NotesNothing(s, id, s') {
      MoveKeepsOutcomes(s, id, s'.acts);
    } else {
      NotesOutcome(s, id, s');
    }
  }

  /** A move of an activity that changes neither its batch nor its standing as a waiter. */
  lemma MoveKeepsWaiting(s: State, id: Id, acts': map<Id, Activity>)
    requires Inv(s) && Moves(s.acts, id, acts')
    requires TestHolds(ActIn(acts', id))
    requires IsWaiting(ActIn(acts', id)) <==> IsWaiting(Act(s, id))
    requires OwnSidePending(ActIn(acts', id)) <==> OwnSidePending(Act(s, id))
    requires HasContinued(ActIn(acts', id), id in s.served) <==> HasContinued(Act(s, id), id in s.served)
    ensures TestsOk(acts') && Known(acts', s.refs.Keys, s.pushed)
    ensures RefsOk(acts', s.refs, s.served) && ContinuedOk(acts', s.continued, s.served)
    ensures |Uncounted(acts')| == |Uncounted(s.acts)| - (if Act(s, id).AwaitCount? then 1 else 0)
                                  + (if ActIn(acts', id).AwaitCount? then 1 else 0)
  {
    MoveKeepsTests(s.acts, id, acts');
    MoveKeepsKnown(s.acts, s.refs.Keys, s.pushed, id, acts');
    MoveKeepsRefs(s.acts, s.refs, s.served, id, acts');
    MoveKeepsContinued(s.acts, s.continued, s.served, id, acts');
    UncountedAfter(s.acts, id, acts');
  }

  // ---------------------------------------------------------------- the steps

  /** An activity that is not yet, or no longer, concerned with the wait list. */
  predicate Plain(act: Activity)
  {
    act.SetLoad? || act.SetCas? || act.ResetLoad? || act.ResetCas? || NotPushedYet(act) || act.Finished?
  }

  predicate NotPushedYet(act: Activity)
  {
    act.AwaitLoad? || act.AwaitCas? || act.AwaitPush? || act.AwaitPushCas?
  }

  lemma PlainMove(s: State, id: Id, s': State)
    requires Inv(s) && Moves(s.acts, id, s'.acts)
    requires Plain(Act(s, id)) && Plain(Act(s', id)) && TestHolds(Act(s', id))
    requires s' == s.(acts := s'.acts, counts := s'.counts, setsDone := s'.setsDone, resetsDone := s'.resetsDone,
                      outcomes := s'.outcomes)
    requires NotesNothing(s, id, s') || Notes(s, id, s')
    requires s'.counts.waiters == s.counts.waiters && s'.counts.sets <= s.counts.waiters + 1
    requires s'.counts.sets > 0 && s.counts.waiters > 0 ==> s.counts.sets > 0
    requires s'.counts.sets >= s.counts.sets || s'.counts.sets >= s.counts.waiters
    requires s'.counts.sets + s'.resetsDone + s.setsDone == s.counts.sets + s.resetsDone + s'.setsDone
    ensures Inv(s')
  {
    hide TestsOk, CarrierOk, ContinuedOk, OutcomesOk, Settled;
    CountsKeepLock(s.acts, s.holder, s.counts, s'.counts);
    MoveKeepsLock(s.acts, s.holder, s'.counts, id, s'.acts);
    MoveKeepsWaiting(s, id, s'.acts);
    MoveKeepsCarriers(s.acts, s.carrier, s.served, id, s'.acts);
    OutcomesStayOk(s, id, s');
  }

  /** `co_await` gets the event at once. */
  lemma AcquireMove(s: State, id: Id, s': State)
    requires Inv(s) && Moves(s.acts, id, s'.acts) && IsSet(s.counts)
    requires Act(s, id).AwaitCas? && Act(s', id).Acquired?
    requires s' == s.(acts := s'.acts, counts := s.counts.(sets := s.counts.sets - 1), acquired := s.acquired + 1,
                      continued := s.continued + multiset{id})
    ensures Inv(s')
  {
    hide TestsOk, CarrierOk, ContinuedOk, OutcomesOk;
    CountsKeepLock(s.acts, s.holder, s.counts, s'.counts);
    MoveKeepsLock(s.acts, s.holder, s'.counts, id, s'.acts);
    MoveKeepsTests(s.acts, id, s'.acts);
    MoveKeepsKnown(s.acts, s.refs.Keys, s.pushed, id, s'.acts);
    MoveKeepsCarriers(s.acts, s.carrier, s.served, id, s'.acts);
    MoveKeepsRefs(s.acts, s.refs, s.served, id, s'.acts);
    UncountedAfter(s.acts, id, s'.acts);
    OutcomesStayOk(s, id, s');
    Continues(s.acts, s.continued, s.served, id, s'.acts, s'.continued);
  }

  lemma Continues(acts: map<Id, Activity>, continued: multiset<Id>, served: set<Id>, id: Id,
                  acts': map<Id, Activity>, continued': multiset<Id>)
    requires ContinuedOk(acts, continued, served) && Moves(acts, id, acts')
    requires !HasContinued(ActIn(acts, id), id in served) && HasContinued(ActIn(acts', id), id in served)
    requires continued' == continued + multiset{id}
    ensures ContinuedOk(acts', continued', served)
  {
  }

  lemma PushMove(s: State, id: Id, s': State)
    requires Inv(s) && Moves(s.acts, id, s'.acts) && Act(s, id).AwaitPushCas? && Act(s', id).AwaitCount?
    requires s' == s.(acts := s'.acts, newWaiters := [id] + s.newWaiters, pushed := s.pushed + [id],
                      refs := s.refs[id := 2])
    ensures Inv(s')
  {
    MoveKeepsLock(s.acts, s.holder, s.counts, id, s'.acts);
    MoveKeepsTests(s.acts, id, s'.acts);
    MoveKeepsCarriers(s.acts, s.carrier, s.served, id, s'.acts);
    MoveKeepsContinued(s.acts, s.continued, s.served, id, s'.acts);
    UncountedAfter(s.acts, id, s'.acts);
    OutcomesStayOk(s, id, s');
    assert id !in s.pushed;
    PushKeepsFifo(s, id);
    NotTaken(s, id);
    PushKeepsRefs(s, id, s');
  }

  lemma PushKeepsFifo(s: State, id: Id)
    requires Fifo(s.pushed, s.taken, s.queue, s.newWaiters) && id !in s.pushed
    ensures Fifo(s.pushed + [id], s.taken, s.queue, [id] + s.newWaiters)
  {
    PushThenReverse(s.newWaiters, id);
  }

  lemma PushKeepsRefs(s: State, id: Id, s': State)
    requires RefsOk(s.acts, s.refs, s.served) && Known(s.acts, s.refs.Keys, s.pushed)
    requires Moves(s.acts, id, s'.acts) && Act(s', id).AwaitCount? && id !in s.served
    requires s'.refs == s.refs[id := 2] && s'.pushed == s.pushed + [id]
    ensures RefsOk(s'.acts, s'.refs, s.served) && Known(s'.acts, s'.refs.Keys, s'.pushed)
  {
    assert forall w: Id :: w in s'.pushed <==> w in s.pushed || w == id;
  }

  /** A waiter that was never pushed was never taken either. */
  lemma NotTaken(s: State, id: Id)
    requires Fifo(s.pushed, s.taken, s.queue, s.newWaiters) && Taken(s.carrier.Keys, s.taken)
    requires CarrierOk(s.acts, s.carrier, s.served) && id !in s.pushed
    ensures id !in s.taken && id !in s.carrier && id !in s.served
  {
    assert s.pushed == s.taken + (s.queue + Reverse(s.newWaiters));
  }

  /** The arrival is counted, and somebody else owns the list or no set is pending. */
  lemma CountMove(s: State, id: Id, s': State)
    requires Inv(s) && Moves(s.acts, id, s'.acts) && Act(s, id).AwaitCount? && Act(s', id).AwaitRelease?
    requires s.counts.sets == 0 || s.counts.waiters > 0
    requires s.counts.waiters + 2 < HALF
    requires s' == s.(acts := s'.acts, counts := s.counts.(waiters := s.counts.waiters + 1))
    ensures Inv(s')
  {
    hide TestsOk, CarrierOk, ContinuedOk, OutcomesOk;
    CountsKeepLock(s.acts, s.holder, s.counts, s'.counts);
    MoveKeepsLock(s.acts, s.holder, s'.counts, id, s'.acts);
    MoveKeepsWaiting(s, id, s'.acts);
    MoveKeepsCarriers(s.acts, s.carrier, s.served, id, s'.acts);
    OutcomesStayOk(s, id, s');
  }

  /** An arrival that meets a set event, or a set that meets waiters, takes ownership of the wait list. */
  lemma EnterMove(s: State, id: Id, s': State)
    requires Inv(s) && Moves(s.acts, id, s'.acts) && s.holder.Nobody?
    requires Act(s', id).Draining? && Act(s', id).todo == Act(s', id).round == 1 && Act(s', id).batch == []
    requires (Act(s, id).AwaitCount? && Act(s', id).waiter) || (Act(s, id).SetCas? && !Act(s', id).waiter)
    requires s'.counts.sets > 0 && s'.counts.waiters > 0
    requires s'.counts.sets <= s'.counts.waiters + 1 && s'.counts.waiters + 1 < HALF
    requires s'.counts.waiters == s.counts.waiters + (if Act(s, id).AwaitCount? then 1 else 0)
    requires s'.counts.sets + s.setsDone == s.counts.sets + s'.setsDone
    requires s' == s.(acts := s'.acts, counts := s'.counts, setsDone := s'.setsDone, outcomes := s'.outcomes, holder := Held(id))
    requires NotesNothing(s, id, s') || Notes(s, id, s')
    ensures Inv(s')
  {
    hide TestsOk, CarrierOk, ContinuedOk, OutcomesOk;
    EnterLock(s.acts, s.counts, id, s'.acts, s'.counts);
    MoveKeepsWaiting(s, id, s'.acts);
    MoveKeepsCarriers(s.acts, s.carrier, s.served, id, s'.acts);
    OutcomesStayOk(s, id, s');
  }

  /** With dequeues still to come, the owner never finds both lists empty. */
  lemma OwnerFindsWaiters(s: State, id: Id)
    requires Inv(s) && Act(s, id).Draining? && Act(s, id).todo > 0
    ensures |s.queue| + |s.newWaiters| > 0
  {
  }

  lemma ExchangeMove(s: State, s': State)
    requires Inv(s) && s.queue == []
    requires s' == s.(newWaiters := [], queue := Reverse(s.newWaiters))
    ensures Inv(s')
  {
    assert s'.taken + s'.queue + Reverse(s'.newWaiters) == s.taken + s.queue + Reverse(s.newWaiters);
  }

  lemma TakeMove(s: State, id: Id, s': State)
    requires Inv(s) && Moves(s.acts, id, s'.acts) && Act(s, id).Draining? && Act(s, id).todo > 0 && s.queue != []
    requires var d := Act(s, id);
             Act(s', id) == Draining(d.waiter, d.batch + [s.queue[0]], d.todo - 1, d.round)
    requires s' == s.(acts := s'.acts, queue := s.queue[1..], taken := s.taken + [s.queue[0]],
                      carrier := s.carrier[s.queue[0] := id])
    ensures Inv(s')
  {
    hide TestsOk, Known, CarrierOk, RefsOk, ContinuedOk, Fifo, Taken, OutcomesOk;
    StayInLock(s.acts, s.holder, s.counts, id, s'.acts, s.counts);
    MoveKeepsWaiting(s, id, s'.acts);
    TakeKeepsFifo(s);
    TakeKeepsCarriers(s, id, s.queue[0], s');
    assert s'.carrier.Keys == s.carrier.Keys + {s.queue[0]};
    OutcomesStayOk(s, id, s');
  }

  lemma TakeKeepsFifo(s: State)
    requires Fifo(s.pushed, s.taken, s.queue, s.newWaiters) && s.queue != [] && Taken(s.carrier.Keys, s.taken)
    ensures Fifo(s.pushed, s.taken + [s.queue[0]], s.queue[1..], s.newWaiters)
    ensures Taken(s.carrier.Keys + {s.queue[0]}, s.taken + [s.queue[0]])
    ensures s.queue[0] !in s.carrier
  {
    var w, k := s.queue[0], |s.taken|;
    assert s.pushed[k] == w;
    assert forall j :: 0 <= j < k ==> s.taken[j] == s.pushed[j];
    assert (s.taken + [w]) + s.queue[1..] == s.taken + s.queue;
  }

  lemma TakeKeepsCarriers(s: State, id: Id, w: Id, s': State)
    requires CarrierOk(s.acts, s.carrier, s.served) && Moves(s.acts, id, s'.acts) && w !in s.carrier
    requires Act(s, id).Draining? && Act(s', id).Draining? && Act(s', id).batch == Act(s, id).batch + [w]
    requires s'.carrier == s.carrier[w := id] && s'.served == s.served
    ensures CarrierOk(s'.acts, s'.carrier, s'.served)
  {
    assert NoDuplicates(Batch(Act(s, id)));
    assert w !in Batch(Act(s, id));
    assert forall x: Id :: x != id ==> Batch(Act(s', x)) == Batch(Act(s, x));
  }

  /** The end of a round that leaves nothing to resume: the owner releases the lock. */
  lemma UnlockMove(s: State, id: Id, s': State)
    requires Inv(s) && Moves(s.acts, id, s'.acts) && Act(s, id).Draining? && Act(s, id).todo == 0
    requires Act(s', id) == Resuming(Act(s, id).waiter, Act(s, id).batch)
    requires s' == s.(acts := s'.acts, counts := s'.counts, holder := Nobody)
    requires s'.counts.sets == s.counts.sets - Act(s, id).round
    requires s'.counts.waiters == s.counts.waiters - Act(s, id).round
    requires Resumable(s'.counts) == 0
    ensures Inv(s')
  {
    hide TestsOk, CarrierOk, ContinuedOk, OutcomesOk;
    LeaveLock(s.acts, s.holder, s.counts, id, s'.acts, s'.counts);
    MoveKeepsWaiting(s, id, s'.acts);
    MoveKeepsCarriers(s.acts, s.carrier, s.served, id, s'.acts);
    OutcomesStayOk(s, id, s');
  }

  /** The end of a round during which more waiters and sets have met: another round follows. */
  lemma NextRoundMove(s: State, id: Id, s': State)
    requires Inv(s) && Moves(s.acts, id, s'.acts) && Act(s, id).Draining? && Act(s, id).todo == 0
    requires Resumable(s'.counts) > 0
    requires Act(s', id) == Draining(Act(s, id).waiter, Act(s, id).batch, Resumable(s'.counts), Resumable(s'.counts))
    requires s' == s.(acts := s'.acts, counts := s'.counts)
    requires s'.counts.sets == s.counts.sets - Act(s, id).round
    requires s'.counts.waiters == s.counts.waiters - Act(s, id).round
    ensures Inv(s')
  {
    hide TestsOk, CarrierOk, ContinuedOk, OutcomesOk;
    StayInLock(s.acts, s.holder, s.counts, id, s'.acts, s'.counts);
    MoveKeepsWaiting(s, id, s'.acts);
    MoveKeepsCarriers(s.acts, s.carrier, s.served, id, s'.acts);
    OutcomesStayOk(s, id, s');
  }

  /** The subtraction at the end of a round cannot borrow, in either half. */
  lemma RoundIsCovered(s: State, id: Id)
    requires Inv(s) && Act(s, id).Draining?
    ensures s.holder == Held(id) && Enabled(s, Step(id, false))
    ensures 1 <= Act(s, id).round <= s.counts.sets && Act(s, id).round <= s.counts.waiters
    ensures Act(s, id).todo == 0 ==> Act(s, id).batch != []
  {
  }

  /** A move outside the critical section of an activity that stays what it is as a waiter. */
  lemma MoveOutside(s: State, id: Id, acts': map<Id, Activity>)
    requires Inv(s) && Moves(s.acts, id, acts') && TestHolds(ActIn(acts', id))
    requires IsWaiting(ActIn(acts', id)) <==> IsWaiting(Act(s, id))
    requires !Act(s, id).Draining? && !ActIn(acts', id).Draining?
    requires !Act(s, id).AwaitCount? && !ActIn(acts', id).AwaitCount?
    ensures LockOk(acts', s.holder, s.counts) && Ahead(acts', s.holder) == Ahead(s.acts, s.holder)
    ensures TestsOk(acts') && Known(acts', s.refs.Keys, s.pushed)
    ensures |Uncounted(acts')| == |Uncounted(s.acts)|
  {
    MoveKeepsLock(s.acts, s.holder, s.counts, id, acts');
    MoveKeepsTests(s.acts, id, acts');
    MoveKeepsKnown(s.acts, s.refs.Keys, s.pushed, id, acts');
    UncountedAfter(s.acts, id, acts');
  }

  lemma NotYetKnown(s: State, id: Id)
    requires Inv(s) && NotPushedYet(Act(s, id))
    ensures id !in s.refs && id !in s.pushed && id !in s.served && id !in Line(s)
  {
    hide LockOk, TestsOk, CarrierOk, RefsOk, ContinuedOk, CountsOk, OutcomesOk, Fifo, Taken;
    assert !IsWaiting(Act(s, id));
    NeverQueued(s, id);
  }

  lemma NeverQueued(s: State, id: Id)
    requires Inv(s) && id !in s.pushed
    ensures id !in s.served && id !in Line(s)
  {
    hide LockOk, TestsOk, Known, CarrierOk, RefsOk, ContinuedOk, CountsOk, OutcomesOk;
    NotTaken(s, id);
    assert s.pushed == s.taken + (s.queue + Reverse(s.newWaiters));
  }

  lemma ReleaseKeepsKeys(s: State, w: Id)
    requires w in s.refs
    ensures Release(s, w).refs.Keys == s.refs.Keys
  {
  }

  lemma ReleaseMove(s: State, id: Id, s': State)
    requires Inv(s) && Moves(s.acts, id, s'.acts) && Act(s, id).AwaitRelease? && Act(s', id).Left?
    requires s'.refs == Release(s, id).refs && s'.continued == Release(s, id).continued
    requires s' == s.(acts := s'.acts, refs := s'.refs, continued := s'.continued)
    ensures Inv(s')
  {
    hide LockOk, TestsOk, CarrierOk, RefsOk, ContinuedOk, Fifo, Taken, Release, OutcomesOk, NotesNothing, Notes;
    assert id in s.refs;
    ReleaseKeepsKeys(s, id);
    MoveOutside(s, id, s'.acts);
    MoveKeepsCarriers(s.acts, s.carrier, s.served, id, s'.acts);
    ReleaseKeepsRefs(s, id, s');
    ReleaseNotesNothing(s, id, s');
    OutcomesStayOk(s, id, s');
  }

  lemma ReleaseNotesNothing(s: State, id: Id, s': State)
    requires Act(s, id).AwaitRelease? && Act(s', id).Left?
    requires s'.outcomes == s.outcomes && s'.setsDone == s.setsDone && s'.resetsDone == s.resetsDone
    ensures NotesNothing(s, id, s')
  {
  }

  lemma ReleaseKeepsRefs(s: State, id: Id, s': State)
    requires RefsOk(s.acts, s.refs, s.served) && ContinuedOk(s.acts, s.continued, s.served)
    requires Moves(s.acts, id, s'.acts) && id in s.refs
    requires Act(s, id).AwaitRelease? && Act(s', id).Left?
    requires s'.refs == Release(s, id).refs && s'.continued == Release(s, id).continued
    ensures RefsOk(s'.acts, s'.refs, s.served) && ContinuedOk(s'.acts, s'.continued, s.served)
  {
    assert s.continued[id] == 0;
  }

  lemma ResumeMove(s: State, id: Id, s': State)
    requires Inv(s) && Moves(s.acts, id, s'.acts) && Act(s, id).Resuming? && Act(s, id).batch != []
    requires Act(s', id) == AfterBatch(Act(s, id).waiter, Act(s, id).batch[1..])
    requires var w := Act(s, id).batch[0];
             s'.refs == Release(s, w).refs && s'.continued == Release(s, w).continued && s'.served == s.served + {w}
    requires s' == s.(acts := s'.acts, refs := s'.refs, continued := s'.continued, served := s'.served)
    ensures Inv(s')
  {
    hide LockOk, TestsOk, Known, CarrierOk, RefsOk, ContinuedOk, Fifo, Taken, Release, OutcomesOk, NotesNothing, Notes;
    var w := Act(s, id).batch[0];
    BatchIsTaken(s, id);
    TakenIsKnown(s, w);
    ReleaseKeepsKeys(s, w);
    MoveOutside(s, id, s'.acts);
    ResumeKeepsCarriers(s, id, w, s');
    ResumeKeepsRefs(s, id, w, s');
    ResumeNotesNothing(s, id, s');
    OutcomesStayOk(s, id, s');
  }

  lemma ResumeNotesNothing(s: State, id: Id, s': State)
    requires Act(s, id).Resuming? && Act(s, id).batch != []
    requires Act(s', id) == AfterBatch(Act(s, id).waiter, Act(s, id).batch[1..])
    requires s'.outcomes == s.outcomes && s'.setsDone == s.setsDone && s'.resetsDone == s.resetsDone
    ensures NotesNothing(s, id, s')
  {
  }

  lemma BatchIsTaken(s: State, id: Id)
    requires CarrierOk(s.acts, s.carrier, s.served) && Batch(Act(s, id)) != []
    ensures Batch(Act(s, id))[0] in s.carrier && Batch(Act(s, id))[0] !in s.served
  {
    assert Batch(Act(s, id))[0] in Batch(Act(s, id));
  }

  lemma TakenIsKnown(s: State, w: Id)
    requires Fifo(s.pushed, s.taken, s.queue, s.newWaiters) && Taken(s.carrier.Keys, s.taken) && w in s.carrier
    requires Known(s.acts, s.refs.Keys, s.pushed)
    ensures w in s.refs && IsWaiting(Act(s, w))
  {
    assert s.pushed == s.taken + (s.queue + Reverse(s.newWaiters));
    assert w in s.pushed;
  }

  /** Activity `id` is about to drop its reference to the waiter `w`: the next one of its batch, or itself. */
  predicate Drops(s: State, id: Id, w: Id)
  {
    || (Act(s, id).Resuming? && Act(s, id).batch != [] && w == Act(s, id).batch[0])
    || (Act(s, id).AwaitRelease? && w == id)
  }

  /** Whoever is about to drop a reference to a waiter still holds one. */
  lemma ReferenceIsHeld(s: State, id: Id, w: Id)
    requires Inv(s) && Drops(s, id, w)
    ensures w in s.refs && s.refs[w] > 0 && Enabled(s, Step(id, false))
  {
    if Act(s, id).Resuming? {
      BatchIsTaken(s, id);
      TakenIsKnown(s, w);
    } else {
      assert IsWaiting(Act(s, id));
    }
  }

  lemma ResumeKeepsCarriers(s: State, id: Id, w: Id, s': State)
    requires CarrierOk(s.acts, s.carrier, s.served) && Moves(s.acts, id, s'.acts)
    requires Act(s, id).Resuming? && w == Act(s, id).batch[0]
    requires Act(s', id) == AfterBatch(Act(s, id).waiter, Act(s, id).batch[1..])
    requires s'.carrier == s.carrier && s'.served == s.served + {w}
    ensures CarrierOk(s'.acts, s'.carrier, s'.served)
  {
    var batch, batch' := Batch(Act(s, id)), Batch(Act(s', id));
    assert NoDuplicates(batch);
    assert batch' == batch[1..];
    assert forall x: Id :: x in batch <==> x == w || x in batch';
    assert w !in batch';
    assert forall x: Id :: x != id ==> Batch(Act(s', x)) == Batch(Act(s, x));
  }

  lemma ResumeKeepsRefs(s: State, id: Id, w: Id, s': State)
    requires RefsOk(s.acts, s.refs, s.served) && ContinuedOk(s.acts, s.continued, s.served)
    requires Moves(s.acts, id, s'.acts) && w in s.refs && w !in s.served && IsWaiting(Act(s, w))
    requires Act(s, id).Resuming? && OwnSidePending(Act(s, id)) == OwnSidePending(Act(s', id))
    requires !Act(s', id).Left? && !Act(s', id).Acquired?
    requires s'.refs == Release(s, w).refs && s'.continued == Release(s, w).continued
    requires s'.served == s.served + {w}
    ensures RefsOk(s'.acts, s'.refs, s'.served) && ContinuedOk(s'.acts, s'.continued, s'.served)
  {
    assert s.refs[w] == OwnCount(Act(s, w)) + 1;
    assert s.continued[w] == 0;
    assert forall x: Id :: x != w ==> (x in s'.served <==> x in s.served);
  }

  /** What the subtraction at the end of a round does to the state. */
  lemma RoundApplies(s: State, id: Id)
    requires id in s.acts && Act(s, id).Draining? && Act(s, id).todo == 0
    requires Act(s, id).round <= s.counts.sets && Act(s, id).round <= s.counts.waiters && Act(s, id).batch != []
    ensures var s', n := Apply(s, Step(id, false)), Act(s, id).round;
            && s'.newWaiters == s.newWaiters && s'.queue == s.queue && s'.refs == s.refs
            && s'.counts == Counts(s.counts.sets - n, s.counts.waiters - n)
            && Drained(s, s', 0, n) && s'.outcomes == s.outcomes
            && (var d := Act(s, id);
                Act(s', id) == if Resumable(s'.counts) > 0 then Draining(d.waiter, d.batch, Resumable(s'.counts), Resumable(s'.counts))
                               else Resuming(d.waiter, d.batch))
            && (Act(s', id).Draining? <==> Resumable(s'.counts) > 0)
            && (Act(s', id).Draining? ==> Act(s', id).todo == Act(s', id).round == Resumable(s'.counts))
  {
  }

  // ---------------------------------------------------------------- every step

  /** What the dispatch on an activity needs to know about the state it moves in. */
  lemma StepFacts(s: State, id: Id)
    requires Inv(s)
    ensures TestHolds(Act(s, id)) && s.counts.sets <= s.counts.waiters + 1 && s.counts.waiters + 1 < HALF
    ensures s.holder.Held? <==> s.counts.sets > 0 && s.counts.waiters > 0
    ensures Act(s, id).Resuming? ==> Act(s, id).batch != []
  {
  }

  lemma SetSteps(s: State, a: Action)
    requires Inv(s) && Enabled(s, a) && Act(s, a.id).SetCas?
    ensures Inv(Apply(s, a))
  {
    hide Inv;
    var id, s' := a.id, Apply(s, a);
    StepFacts(s, id);
    if Act(s', id).Draining? {
      EnterMove(s, id, s');
    } else {
      PlainMove(s, id, s');
    }
  }

  lemma DrainSteps(s: State, a: Action)
    requires Inv(s) && Enabled(s, a) && Act(s, a.id).Draining?
    ensures Inv(Apply(s, a))
  {
    hide Inv;
    var id, s' := a.id, Apply(s, a);
    RoundIsCovered(s, id);
    if Act(s, id).todo == 0 {
      if Resumable(s'.counts) == 0 {
        UnlockMove(s, id, s');
      } else {
        NextRoundMove(s, id, s');
      }
    } else if s.queue == [] {
      ExchangeMove(s, s');
    } else {
      TakeMove(s, id, s');
    }
  }

  lemma AcquireSteps(s: State, a: Action)
    requires Inv(s) && Enabled(s, a) && Act(s, a.id).AwaitCas?
    ensures Inv(Apply(s, a))
  {
    hide Inv;
    var id, s' := a.id, Apply(s, a);
    StepFacts(s, id);
    if Act(s', id).Acquired? {
      AcquireMove(s, id, s');
    } else {
      PlainMove(s, id, s');
    }
  }

  lemma PushSteps(s: State, a: Action)
    requires Inv(s) && Enabled(s, a) && Act(s, a.id).AwaitPushCas?
    ensures Inv(Apply(s, a))
  {
    hide Inv;
    var id, s' := a.id, Apply(s, a);
    StepFacts(s, id);
    if Act(s', id).AwaitCount? {
      PushMove(s, id, s');
    } else {
      PlainMove(s, id, s');
    }
  }

  lemma CountSteps(s: State, a: Action)
    requires Inv(s) && Enabled(s, a) && Act(s, a.id).AwaitCount?
    ensures Inv(Apply(s, a))
  {
    hide Inv;
    var id, s' := a.id, Apply(s, a);
    StepFacts(s, id);
    if Act(s', id).Draining? {
      EnterMove(s, id, s');
    } else {
      CountMove(s, id, s');
    }
  }

  lemma StartSteps(s: State, a: Action)
    requires Inv(s) && Enabled(s, a) && a.Start?
    ensures Inv(Apply(s, a))
  {
    hide Inv;
    StepFacts(s, a.id);
    PlainMove(s, a.id, Apply(s, a));
  }

  lemma LoadSteps(s: State, a: Action)
    requires Inv(s) && Enabled(s, a) && a.Step? && (Act(s, a.id).AwaitLoad? || Act(s, a.id).AwaitPush?)
    ensures Inv(Apply(s, a))
  {
    hide Inv;
    StepFacts(s, a.id);
    PlainMove(s, a.id, Apply(s, a));
  }

  lemma TestSteps(s: State, a: Action)
    requires Inv(s) && Enabled(s, a) && (Act(s, a.id).SetLoad? || Act(s, a.id).ResetLoad? || Act(s, a.id).ResetCas?)
    ensures Inv(Apply(s, a))
  {
    hide Inv;
    StepFacts(s, a.id);
    PlainMove(s, a.id, Apply(s, a));
  }

  /** Every atomic step of every activity keeps the invariant. */
  lemma StepKeepsInv(s: State, a: Action)
    requires Inv(s) && Enabled(s, a)
    ensures Inv(Apply(s, a))
  {
    hide Inv;
    var act := Act(s, a.id);
    StepFacts(s, a.id);
    if act.SetCas? {
      SetSteps(s, a);
    } else if act.Draining? {
      DrainSteps(s, a);
    } else if act.AwaitCas? {
      AcquireSteps(s, a);
    } else if act.AwaitPushCas? {
      PushSteps(s, a);
    } else if act.AwaitCount? {
      CountSteps(s, a);
    } else if act.SetLoad? || act.ResetLoad? || act.ResetCas? {
      TestSteps(s, a);
    } else if act.Resuming? {
      ResumeMove(s, a.id, Apply(s, a));
    } else if act.AwaitRelease? {
      ReleaseMove(s, a.id, Apply(s, a));
    } else if a.Start? {
      StartSteps(s, a);
    } else {
      LoadSteps(s, a);
    }
  }

  // ---------------------------------------------------------------- whole runs

  ghost predicate Reaches(s: State, run: seq<Action>, s': State)
    decreases |run|
  {
    if run == [] then s == s'
    else Enabled(s, run[0]) && Reaches(Apply(s, run[0]), run[1..], s')
  }

  lemma {:induction false} RunsKeepInv(s: State, run: seq<Action>, s': State)
    requires Inv(s) && Reaches(s, run, s')
    ensures Inv(s') && s'.initially == s.initially
    decreases |run|
  {
    hide Inv, Apply, Enabled;
    if run != [] {
      StepKeepsInv(s, run[0]);
      StepKeepsStart(s, run[0]);
      RunsKeepInv(Apply(s, run[0]), run[1..], s');
    }
  }

  lemma StepKeepsStart(s: State, a: Action)
    requires Enabled(s, a)
    ensures Apply(s, a).initially == s.initially
  {
    hide Apply, Enabled;
    if Tests(s, a) {
      TestKeepsStart(s, a);
    } else {
      OtherKeepsStart(s, a);
    }
  }

  lemma TestKeepsStart(s: State, a: Action)
    requires Enabled(s, a) && Tests(s, a)
    ensures Apply(s, a).initially == s.initially
  {
  }

  lemma OtherKeepsStart(s: State, a: Action)
    requires Enabled(s, a) && !Tests(s, a)
    ensures Apply(s, a).initially == s.initially
  {
    hide Drain, Release, IsSet, TopOf, AfterBatch;
    if a.Step? && s.acts[a.id].Draining? {
      var d := s.acts[a.id];
      DrainLeavesOutcomes(s, a.id, d.waiter, d.batch, d.todo, d.round);
    } else if a.Step? && s.acts[a.id].Resuming? && s.acts[a.id].batch != [] {
      ReleaseLeavesActs(s, s.acts[a.id].batch[0]);
    } else if a.Step? && s.acts[a.id].AwaitRelease? {
      ReleaseLeavesActs(s, a.id);
    }
  }

  ghost predicate Reachable(s: State)
  {
    exists initiallySet: bool, run: seq<Action> :: Reaches(Init(initiallySet), run, s)
  }

  lemma ReachableInv(s: State)
    requires Reachable(s)
    ensures Inv(s)
  {
    hide Inv;
    var initiallySet: bool, run: seq<Action> :| Reaches(Init(initiallySet), run, s);
    InitInv(initiallySet);
    RunsKeepInv(Init(initiallySet), run, s);
  }

  lemma InitReachable(initiallySet: bool)
    ensures Reachable(Init(initiallySet))
  {
    assert Reaches(Init(initiallySet), [], Init(initiallySet));
  }

  lemma {:induction false} OneMore(s: State, run: seq<Action>, s': State, a: Action)
    requires Reaches(s, run, s') && Enabled(s', a)
    ensures Reaches(s, run + [a], Apply(s', a))
    decreases |run|
  {
    hide Apply, Enabled;
    if run == [] {
      assert [a][1..] == [];
      assert Reaches(Apply(s, a), [], Apply(s, a));
      assert run + [a] == [a];
    } else {
      OneMore(Apply(s, run[0]), run[1..], s', a);
      assert (run + [a])[1..] == run[1..] + [a];
    }
  }

  lemma StepKeepsReachable(s: State, a: Action)
    requires Reachable(s) && Enabled(s, a)
    ensures Reachable(Apply(s, a))
  {
    hide Apply, Enabled;
    var initiallySet: bool, run: seq<Action> :| Reaches(Init(initiallySet), run, s);
    OneMore(Init(initiallySet), run, s, a);
  }

  /** In every reachable state the packed word tells who owns the wait list: somebody does iff both counts
      are positive, never two activities at once; and no half of the word can be undercut. */
  lemma StateWordIsALock(initiallySet: bool, run: seq<Action>, s: State)
    requires Reaches(Init(initiallySet), run, s)
    ensures (exists id: Id :: Act(s, id).Draining?) <==> s.counts.sets > 0 && s.counts.waiters > 0
    ensures forall id: Id, id': Id :: Act(s, id).Draining? && Act(s, id').Draining? ==> id == id'
    ensures s.counts.sets <= s.counts.waiters + 1 < HALF
    ensures forall id: Id :: Act(s, id).Draining? ==> 1 <= Act(s, id).round <= Resumable(s.counts)
  {
    InitInv(initiallySet);
    RunsKeepInv(Init(initiallySet), run, s);
    if s.holder.Held? {
      assert Act(s, s.holder.owner).Draining?;
    }
  }

  /** Waiters are taken in the order in which they were pushed, and the owner always finds one. */
  lemma WaitersLeaveInOrder(initiallySet: bool, run: seq<Action>, s: State)
    requires Reaches(Init(initiallySet), run, s)
    ensures s.taken <= s.pushed && NoDuplicates(s.pushed)
    ensures s.pushed[|s.taken|..] == s.queue + Reverse(s.newWaiters)
    ensures forall id: Id :: Act(s, id).Draining? && Act(s, id).todo > 0 ==> |s.queue| + |s.newWaiters| > 0
  {
    hide Inv;
    InitInv(initiallySet);
    RunsKeepInv(Init(initiallySet), run, s);
    InvIsFifo(s);
    assert s.pushed == s.taken + (s.queue + Reverse(s.newWaiters));
    forall id: Id | Act(s, id).Draining? && Act(s, id).todo > 0
      ensures |s.queue| + |s.newWaiters| > 0
    {
      OwnerFindsWaiters(s, id);
    }
  }

  lemma InvIsFifo(s: State)
    requires Inv(s)
    ensures Fifo(s.pushed, s.taken, s.queue, s.newWaiters)
  {
  }

  predicate AtRest(s: State)
  {
    forall id :: id in s.acts ==> s.acts[id].Finished? || s.acts[id].Acquired? || s.acts[id].Left?
  }

  /** No `co_await` ever continues twice; and once no call is in progress, exactly the waiters taken off
      the list have continued, no set is left pending while somebody waits, and the effective sets
      balance the acquisitions, the effective resets and what is still set. */
  lemma EveryWaiterContinuesOnce(initiallySet: bool, run: seq<Action>, s: State)
    requires Reaches(Init(initiallySet), run, s)
    ensures forall w: Id :: s.continued[w] <= 1
    ensures forall w: Id :: s.continued[w] == 1 ==> Act(s, w).Acquired? || w in s.taken
    ensures AtRest(s) ==>
              && (forall w: Id :: w in s.taken ==> s.continued[w] == 1)
              && (s.counts.sets == 0 || s.counts.waiters == 0)
              && |s.queue| + |s.newWaiters| == s.counts.waiters
              && (if initiallySet then 1 else 0) + s.setsDone
                 == s.acquired + |s.taken| + s.resetsDone + s.counts.sets
  {
    InitInv(initiallySet);
    RunsKeepInv(Init(initiallySet), run, s);
    assert s.served <= s.carrier.Keys;
    if AtRest(s) {
      RestServesAll(s);
      assert Uncounted(s.acts) == {};
    }
  }

  lemma RestServesAll(s: State)
    requires Inv(s) && AtRest(s)
    ensures forall w: Id :: w in s.taken ==> s.continued[w] == 1
    ensures s.holder.Nobody?
  {
    forall w: Id | w in s.taken
      ensures s.continued[w] == 1
    {
      TakenIsKnown(s, w);
      assert Batch(Act(s, s.carrier[w])) == [];
      assert w in s.served;
    }
    if s.holder != Nobody {
      OwnerIsActive(s);
    }
  }

  lemma OwnerIsActive(s: State)
    requires Inv(s) && s.holder.Held?
    ensures s.holder.owner in s.acts && s.acts[s.holder.owner].Draining?
  {
    assert Act(s, s.holder.owner).Draining?;
  }

  // ---------------------------------------------------------------- what calls of set and reset come to

  /** A call of `set` or `reset` ends in the step that takes effect, or in one that finds nothing to do. */
  lemma CallsTakeEffect(s: State, a: Action)
    requires Inv(s) && Enabled(s, a) && a.id !in s.outcomes && a.id in Apply(s, a).outcomes
    ensures var s', c := Apply(s, a), s.counts;
            match s'.outcomes[a.id]
            case SetDone => !IsSet(c) && s'.counts == Counts(c.sets + 1, c.waiters)
            case FoundSet(seen) => seen == c == s'.counts && IsSet(c)
            case ResetDone => IsSet(c) && s'.counts == Counts(c.sets - 1, c.waiters)
            case FoundUnset(seen) => seen == c == s'.counts && !IsSet(c)
  {
    hide Inv, IsSet, Enabled, Apply;
    StepFacts(s, a.id);
    OnlyTestsNote(s, a);
    TestsTakeEffect(s, a);
  }

  lemma OnlyTestsNote(s: State, a: Action)
    requires Enabled(s, a)
    ensures a.id !in s.outcomes && a.id in Apply(s, a).outcomes ==> Tests(s, a)
  {
    hide Enabled, Apply;
    if !Tests(s, a) {
      OthersNoteNothing(s, a);
      assert SameOutcome(a.id, s, Apply(s, a));
    }
  }

  /** A step of `set` or `reset` before it is over. */
  predicate Tests(s: State, a: Action)
  {
    a.Step? && (Act(s, a.id).SetLoad? || Act(s, a.id).SetCas? || Act(s, a.id).ResetLoad? || Act(s, a.id).ResetCas?)
  }

  lemma TestsTakeEffect(s: State, a: Action)
    requires Enabled(s, a) && Tests(s, a) && TestHolds(Act(s, a.id)) && a.id !in s.outcomes
    ensures var s', c := Apply(s, a), s.counts;
            a.id in s'.outcomes ==>
              match s'.outcomes[a.id]
              case SetDone => !IsSet(c) && s'.counts == Counts(c.sets + 1, c.waiters)
              case FoundSet(seen) => seen == c == s'.counts && IsSet(c)
              case ResetDone => IsSet(c) && s'.counts == Counts(c.sets - 1, c.waiters)
              case FoundUnset(seen) => seen == c == s'.counts && !IsSet(c)
  {
  }

  lemma OthersNoteNothing(s: State, a: Action)
    requires Enabled(s, a) && !Tests(s, a)
    ensures forall id: Id :: SameOutcome(id, s, Apply(s, a))
  {
    hide Drain, Release, Resumable, IsSet, TopOf;
    if a.Step? && s.acts[a.id].Draining? {
      var d := s.acts[a.id];
      DrainLeavesOutcomes(s, a.id, d.waiter, d.batch, d.todo, d.round);
    } else if a.Step? && s.acts[a.id].Resuming? && s.acts[a.id].batch != [] {
      ReleaseLeavesActs(s, s.acts[a.id].batch[0]);
    } else if a.Step? && s.acts[a.id].AwaitRelease? {
      ReleaseLeavesActs(s, a.id);
    }
  }

  lemma DrainLeavesOutcomes(s: State, owner: Id, waiter: bool, batch: seq<Id>, todo: nat, round: nat)
    ensures var s' := Drain(s, owner, waiter, batch, todo, round);
            s'.outcomes == s.outcomes && s.acts.Keys <= s'.acts.Keys && s'.initially == s.initially
  {
  }

  /** In every run each call of `set` or `reset` that is over has come to something, and those that took effect
      are the effective ones counted. */
  lemma EveryCallHasItsOutcome(initiallySet: bool, run: seq<Action>, s: State)
    requires Reaches(Init(initiallySet), run, s)
    ensures forall id: Id :: id in s.acts && s.acts[id].Finished? ==> id in s.outcomes
    ensures |Sets(s.outcomes)| == s.setsDone && |Resets(s.outcomes)| == s.resetsDone
  {
    InitInv(initiallySet);
    RunsKeepInv(Init(initiallySet), run, s);
  }

  /** The waiters that are queued and not taken, the longest waiting one first. */
  function Line(s: State): seq<Id>
  {
    s.queue + Reverse(s.newWaiters)
  }

  /** Nothing has happened to the waiters. */
  predicate SameLine(s: State, s': State)
  {
    Line(s') == Line(s) && s'.taken == s.taken && s'.served == s.served
  }

  predicate SameEvent(s: State, s': State)
  {
    SameLine(s, s') && s'.counts == s.counts && s'.setsDone == s.setsDone && s'.resetsDone == s.resetsDone
  }

  /** The first `k` waiters have been taken, and `d` has been taken off both counts. */
  predicate Drained(s: State, s': State, k: nat, d: nat)
  {
    && k <= |Line(s)| && s'.taken == s.taken + Line(s)[..k] && Line(s') == Line(s)[k..] && s'.served == s.served
    && d <= Resumable(s.counts) && s'.counts == Counts(s.counts.sets - d, s.counts.waiters - d)
    && s'.setsDone == s.setsDone && s'.resetsDone == s.resetsDone
  }

  /** A waiter joins the line. */
  predicate Joins(s: State, s': State, id: Id)
  {
    && Line(s') == Line(s) + [id] && s'.taken == s.taken && s'.served == s.served && s'.counts == s.counts
    && s'.setsDone == s.setsDone && s'.resetsDone == s.resetsDone
  }

  /** Some of those taken have been let go of. */
  predicate Released(s: State, s': State, batch: seq<Id>)
  {
    && Line(s') == Line(s) && s'.taken == s.taken && s'.served == s.served + (set w | w in batch)
    && s'.counts == s.counts && s'.setsDone == s.setsDone && s'.resetsDone == s.resetsDone
  }

  /** The longest waiting ones have been served, as many as both counts allow. */
  predicate Serves(s: State, s': State)
  {
    var m := Resumable(s.counts);
    && m <= |Line(s)| && s'.taken == s.taken + Line(s)[..m] && Line(s') == Line(s)[m..]
    && s'.served == s.served + (set w | w in Line(s)[..m])
    && s'.counts == Counts(s.counts.sets - m, s.counts.waiters - m)
    && s'.setsDone == s.setsDone && s'.resetsDone == s.resetsDone
  }

  /** What `set` does when nobody interferes. */
  predicate SetsEvent(s: State, s': State)
  {
    var c := s.counts;
    if IsSet(c) then SameEvent(s, s')
    else if c.sets == 0 && c.waiters > 0 then
      && Line(s) != [] && s'.taken == s.taken + [Line(s)[0]] && Line(s') == Line(s)[1..]
      && s'.served == s.served + {Line(s)[0]} && s'.counts == Counts(0, c.waiters - 1)
      && s'.setsDone == s.setsDone + 1 && s'.resetsDone == s.resetsDone
    else
      && SameLine(s, s') && s'.counts == Counts(c.sets + 1, c.waiters)
      && s'.setsDone == s.setsDone + 1 && s'.resetsDone == s.resetsDone
  }

  /** What `reset` does when nobody interferes. */
  predicate ResetsEvent(s: State, s': State)
  {
    if IsSet(s.counts) then
      && SameLine(s, s') && s'.counts == Counts(s.counts.sets - 1, s.counts.waiters)
      && s'.setsDone == s.setsDone && s'.resetsDone == s.resetsDone + 1
    else SameEvent(s, s')
  }

  /** What `await_suspend` does when nobody interferes: the waiter joins the line, and the first of the line is
      served if the event is set and nobody was counted as waiting. */
  predicate AwaitsEvent(s: State, s': State, id: Id, suspended: bool)
  {
    var c, line := s.counts, Line(s) + [id];
    && s'.setsDone == s.setsDone && s'.resetsDone == s.resetsDone
    && (suspended <==> !(c.sets > 0 && c.waiters == 0 && Line(s) == []))
    && if c.sets > 0 && c.waiters == 0 then
         && s'.taken == s.taken + [line[0]] && Line(s') == line[1..] && s'.served == s.served + {line[0]}
         && s'.counts == Counts(c.sets - 1, 0)
       else
         && s'.taken == s.taken && Line(s') == line && s'.served == s.served && s'.counts == Counts(c.sets, c.waiters + 1)
  }

  lemma SameTogether(s: State, mid: State, s': State)
    requires SameEvent(s, mid) && SameEvent(mid, s')
    ensures SameEvent(s, s')
  {
  }

  lemma NothingDrained(s: State)
    ensures Drained(s, s, 0, 0) && SameEvent(s, s) && Released(s, s, [])
    ensures Line(s)[..0] == []
  {
  }

  /** A move of the line, after which more is taken off it. */
  lemma DrainedTogether(s: State, mid: State, s': State, k: nat, d: nat, k': nat, d': nat)
    requires Drained(s, mid, k, d) && Drained(mid, s', k', d')
    ensures Drained(s, s', k + k', d + d') && k + k' <= |Line(s)|
    ensures Line(s)[..k] + Line(mid)[..k'] == Line(s)[..k + k']
  {
    hide Line;
  }

  lemma SameThenDrained(s: State, mid: State, s': State, k: nat, d: nat)
    requires SameEvent(s, mid) && Drained(mid, s', k, d)
    ensures Drained(s, s', k, d) && Line(mid) == Line(s)
  {
    hide Line;
  }

  lemma ReleasedTogether(s: State, mid: State, s': State, batch: seq<Id>, w: Id)
    requires Released(s, mid, batch) && Released(mid, s', [w])
    ensures Released(s, s', batch + [w])
  {
    hide Line;
  }

  /** Rounds that take off both counts as much as they allow, and the release of those taken. */
  lemma DrainedThenReleased(s: State, mid: State, s': State, k: nat)
    requires Drained(s, mid, k, k) && Resumable(mid.counts) == 0 && Released(mid, s', Line(s)[..k])
    ensures Serves(s, s') && k == Resumable(s.counts)
  {
    hide Line;
  }

  lemma FirstOfLine(line: seq<Id>)
    requires line != []
    ensures line[..1] == [line[0]]
  {
  }

  /** The compare-and-swap of `set` has succeeded. */
  predicate SetCounted(s: State, s': State)
  {
    && !IsSet(s.counts) && SameLine(s, s') && s'.counts == Counts(s.counts.sets + 1, s.counts.waiters)
    && s'.setsDone == s.setsDone + 1 && s'.resetsDone == s.resetsDone
  }

  lemma CountedAfter(s: State, mid: State, s': State)
    requires SameEvent(s, mid) && !IsSet(mid.counts) && SameLine(mid, s')
    requires s'.counts == Counts(mid.counts.sets + 1, mid.counts.waiters)
    requires s'.setsDone == mid.setsDone + 1 && s'.resetsDone == mid.resetsDone
    ensures SetCounted(s, s') && mid.counts == s.counts
  {
    hide Line;
  }

  lemma SetThenServes(s: State, mid: State, s': State)
    requires SetCounted(s, mid)
    requires if s.counts.sets == 0 && s.counts.waiters > 0 then Serves(mid, s') else s' == mid
    ensures SetsEvent(s, s')
  {
    hide Line;
    if s.counts.sets == 0 && s.counts.waiters > 0 {
      FirstOfLine(Line(s));
    }
  }

  /** What `await_suspend` has done when the waiter is counted and those due are served. */
  lemma AwaitedAlone(s: State, joined: State, counted: State, s': State, id: Id, suspended: bool)
    requires Joins(s, joined, id) && SameLine(joined, counted)
    requires counted.counts == Counts(joined.counts.sets, joined.counts.waiters + 1) && s.counts.sets <= s.counts.waiters + 1
    requires counted.setsDone == joined.setsDone && counted.resetsDone == joined.resetsDone
    requires if joined.counts.sets > 0 && joined.counts.waiters == 0 then Serves(counted, s') else s' == counted
    requires id !in s.served && id !in Line(s) && (suspended <==> id !in s'.served)
    ensures AwaitsEvent(s, s', id, suspended)
  {
    hide Line;
    FirstOfLine(Line(s) + [id]);
  }

  lemma AwaitedThenSame(s: State, mid: State, s': State, id: Id, suspended: bool)
    requires AwaitsEvent(s, mid, id, suspended) && SameEvent(mid, s')
    ensures AwaitsEvent(s, s', id, suspended)
  {
    hide Line;
  }

  lemma SameThenJoins(s: State, mid: State, s': State, id: Id)
    requires SameEvent(s, mid) && Joins(mid, s', id)
    ensures Joins(s, s', id)
  {
    hide Line;
  }

  lemma FoundSetChangesNothing(s: State, s': State)
    requires SameEvent(s, s') && IsSet(s.counts)
    ensures SetsEvent(s, s')
  {
  }

  lemma FoundUnsetChangesNothing(s: State, s': State)
    requires SameEvent(s, s') && !IsSet(s.counts)
    ensures ResetsEvent(s, s')
  {
  }

  lemma ResetAfter(s: State, mid: State, s': State)
    requires SameEvent(s, mid) && ResetsEvent(mid, s')
    ensures ResetsEvent(s, s')
  {
    hide Line;
  }

  /** What one call of `set` or `reset` has come to does not change. */
  predicate SameOutcome(id: Id, s: State, s': State)
  {
    && (id in s.acts ==> id in s'.acts) && (id in s'.outcomes <==> id in s.outcomes)
    && (id in s.outcomes ==> s'.outcomes[id] == s.outcomes[id])
  }

  // ---------------------------------------------------------------- what happens between the steps of a call

  /** Everybody but one activity has done any number of steps. */
  ghost predicate OthersRan(id: Id, s: State, s': State)
  {
    exists run: seq<Action> :: Reaches(s, run, s') && forall i :: 0 <= i < |run| ==> run[i].id != id
  }

  lemma NobodyRan(id: Id, s: State)
    ensures OthersRan(id, s, s)
  {
    assert Reaches(s, [], s);
  }

  lemma OthersLeaveAct(id: Id, s: State, s': State)
    requires OthersRan(id, s, s')
    ensures Act(s', id) == Act(s, id) && SameOutcome(id, s, s')
  {
    hide Reaches;
    var run: seq<Action> :| Reaches(s, run, s') && forall i :: 0 <= i < |run| ==> run[i].id != id;
    OtherRunsLeaveAct(id, s, run, s');
  }

  lemma {:induction false} OtherRunsLeaveAct(id: Id, s: State, run: seq<Action>, s': State)
    requires Reaches(s, run, s') && forall i :: 0 <= i < |run| ==> run[i].id != id
    ensures Act(s', id) == Act(s, id) && SameOutcome(id, s, s')
    decreases |run|
  {
    hide Apply, Enabled;
    if run != [] {
      assert run[0].id != id;
      OtherStepLeavesAct(id, s, run[0]);
      OtherStepLeavesOutcome(id, s, run[0]);
      assert forall i :: 0 <= i < |run[1..]| ==> run[1..][i] == run[i + 1];
      OtherRunsLeaveAct(id, Apply(s, run[0]), run[1..], s');
    }
  }

  lemma OtherStepLeavesOutcome(id: Id, s: State, a: Action)
    requires Enabled(s, a) && a.id != id
    ensures SameOutcome(id, s, Apply(s, a))
  {
    hide Apply, SameOutcome;
    if Tests(s, a) {
      TestLeavesOutcome(id, s, a);
    } else {
      OthersNoteNothing(s, a);
    }
  }

  lemma TestLeavesOutcome(id: Id, s: State, a: Action)
    requires Enabled(s, a) && a.id != id && Tests(s, a)
    ensures SameOutcome(id, s, Apply(s, a))
  {
  }

  lemma OtherStepLeavesAct(id: Id, s: State, a: Action)
    requires Enabled(s, a) && a.id != id
    ensures Act(Apply(s, a), id) == Act(s, id)
  {
    hide Apply, Enabled;
    if Tests(s, a) {
      TestLeavesAct(id, s, a);
    } else {
      PlainStepLeavesAct(id, s, a);
    }
  }

  lemma TestLeavesAct(id: Id, s: State, a: Action)
    requires Enabled(s, a) && a.id != id && Tests(s, a)
    ensures Act(Apply(s, a), id) == Act(s, id)
  {
    hide IsSet, SetTest, ResetTest;
  }

  lemma PlainStepLeavesAct(id: Id, s: State, a: Action)
    requires Enabled(s, a) && a.id != id && !Tests(s, a)
    ensures Act(Apply(s, a), id) == Act(s, id)
  {
    hide Drain, Release, Resumable, IsSet, TopOf, AfterBatch, TestForSet, TestForReset;
    if a.Step? && s.acts[a.id].Draining? {
      var d := s.acts[a.id];
      DrainLeavesActs(s, a.id, d.waiter, d.batch, d.todo, d.round, id);
    } else if a.Step? && s.acts[a.id].Resuming? && s.acts[a.id].batch != [] {
      ReleaseLeavesActs(s, s.acts[a.id].batch[0]);
    } else if a.Step? && s.acts[a.id].AwaitRelease? {
      ReleaseLeavesActs(s, a.id);
    }
  }

  lemma DrainLeavesActs(s: State, owner: Id, waiter: bool, batch: seq<Id>, todo: nat, round: nat, id: Id)
    requires id != owner
    ensures Act(Drain(s, owner, waiter, batch, todo, round), id) == Act(s, id)
  {
  }

  lemma ReleaseLeavesActs(s: State, w: Id)
    ensures var s' := Release(s, w); s'.acts == s.acts && s'.outcomes == s.outcomes && s'.initially == s.initially
  {
  }
}
