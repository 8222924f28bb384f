/** `sequence_barrier` with the program's own fields: a wrapping sequence number and waiters linked through
    their own fields. Each method is one atomic operation, with the private list work that follows it; head
    and tail pointers a thread keeps in local variables are passed in and out. Every method is proved to
    be the step of the machine in `Barrier`. What a method may modify shows who owns which waiter: only
    the waiters of the caller's private lists and of the shared list it just took. Whole calls
    made of these methods follow at the end of the class. */
module SequenceBarriers {
  import opened Words
  import opened Lists
  import opened IntrusiveLists
  import opened Operations
  import opened Barrier

  lemma {:induction false} AheadOfMore(list: seq<Id>, w: Id, targets: map<Id, int>, known: int)
    ensures Ahead(list + [w], targets, known)
            == Ahead(list, targets, known) + (if Target(targets, w) > known then [w] else [])
  {
    if list != [] {
      assert (list + [w])[1..] == list[1..] + [w];
      AheadOfMore(list[1..], w, targets, known);
    }
  }

  lemma {:induction false} ReachedOfMore(list: seq<Id>, w: Id, targets: map<Id, int>, known: int)
    ensures Reached(list + [w], targets, known)
            == Reached(list, targets, known) + (if Target(targets, w) > known then [] else [w])
  {
    if list != [] {
      assert (list + [w])[1..] == list[1..] + [w];
      ReachedOfMore(list[1..], w, targets, known);
    }
  }

  /** The pointer loops split a list of operations as the machine splits the list of waiters, when the
      words answer the question for the numbers. */
  lemma {:induction false} SplitAgrees(ops: map<Id, Waiter>, list: seq<Id>, targets: map<Id, int>, known: int, ahead: Word -> bool)
    requires forall w :: w in list ==> w in ops && (ahead(ops[w].target) <==> Target(targets, w) > known)
    ensures StillWaiting(NodesOf(ops, list), ahead) == NodesOf(ops, Ahead(list, targets, known))
    ensures Satisfied(NodesOf(ops, list), ahead) == NodesOf(ops, Reached(list, targets, known))
  {
    hide Ahead, Reached;
    if list == [] {
      NothingLinked(ops);
    } else {
      var n := |list| - 1;
      var front, w := list[..n], list[n];
      assert list == front + [w] && w in list;
      NodesOfMore(ops, front, w);
      assert NodesOf(ops, list)[..n] == NodesOf(ops, front);
      SplitAgrees(ops, front, targets, known, ahead);
      AheadOfMore(front, w, targets, known);
      ReachedOfMore(front, w, targets, known);
      NodesOfMore(ops, Ahead(front, targets, known), w);
      NodesOfMore(ops, Reached(front, targets, known), w);
    }
  }

  /** Targets and published numbers are close enough for the words to be compared. */
  predicate Comparable(target: int, published: int)
  {
    -(SIZE / 2) < target - published < SIZE / 2
  }

  predicate AllComparable(list: seq<Id>, targets: map<Id, int>, published: int)
  {
    forall w :: w in list ==> Comparable(Target(targets, w), published)
  }

  /** Within half the range both comparisons of the program are the true one. */
  lemma ComparisonsAreTrue(target: int, published: int)
    requires Comparable(target, published)
    ensures NotReached(Wrap(published))(Wrap(target)) <==> target > published
    ensures Distant(Wrap(published))(Wrap(target)) <==> target > published
    ensures Precedes(Wrap(published), Wrap(target)) <==> target > published
    ensures Difference(Wrap(target), Wrap(published)) == target - published
  {
    DifferenceOfWraps(target, published);
    DifferenceOfWraps(published, target);
  }

  /** Everything whose words are still going to be compared lies within half the range from `lo` on. */
  ghost predicate InWindow(s: State, lo: int)
  {
    && Within(lo, s.published)
    && (forall w :: w in s.place && !s.place[w].Released? ==> Within(lo, Target(s.targets, w)))
    && (forall id: Id :: AdderWithin(lo, AdderIn(s.adders, id)))
  }

  predicate Within(lo: int, x: int)
  {
    lo <= x < lo + SIZE / 2
  }

  predicate AdderWithin(lo: int, d: Adder)
  {
    match d
    case AddPush(_, target, _) => Within(lo, target)
    case AddCas(_, target, _, _) => Within(lo, target)
    case AddLoad(target, _) => Within(lo, target)
    case AddTake(known, _) => Within(lo, known)
    case AddResume(known, _) => Within(lo, known)
    case _ => true
  }

  ghost predicate Near(s: State)
  {
    exists lo: int :: InWindow(s, lo)
  }

  lemma NearIsComparable(s: State)
    requires Near(s) && Inv(s)
    ensures AllComparable(s.list, s.targets, s.published)
    ensures forall id: Id :: AdderIn(s.adders, id).AddTake? ==> AllComparable(s.list, s.targets, AdderIn(s.adders, id).known)
    ensures forall id: Id :: AdderIn(s.adders, id).AddLoad? ==> Comparable(AdderIn(s.adders, id).target, s.published)
  {
    SharedAreShared(s);
    hide Inv;
    var lo: int :| InWindow(s, lo);
    assert forall w :: w in s.list ==> Within(lo, Target(s.targets, w));
    forall id: Id
      ensures AdderIn(s.adders, id).AddTake? ==> AllComparable(s.list, s.targets, AdderIn(s.adders, id).known)
      ensures AdderIn(s.adders, id).AddLoad? ==> Comparable(AdderIn(s.adders, id).target, s.published)
    {
      assert AdderWithin(lo, AdderIn(s.adders, id));
    }
  }

  // ---------------------------------------------------------------- whole runs on words

  /** A run in which the words to be compared are never half the range apart. */
  ghost predicate NearReaches(s: State, run: seq<Action>, s': State)
    decreases |run|
  {
    Near(s)
    && if run == [] then s == s'
       else Enabled(s, run[0]) && (run[0].Await? ==> Comparable(run[0].target, s.published))
            && NearReaches(Apply(s, run[0]), run[1..], s')
  }

  /** The waiter needs no wait any more. */
  predicate IsDue(s: State, w: Id)
  {
    (w in s.place && s.place[w].Released?) || AdderIn(s.adders, w).ReadyAtOnce?
  }

  ghost predicate DueIsNear(s: State)
  {
    forall w: Id :: IsDue(s, w) ==> ValueIsNear(s, w)
  }

  predicate ValueIsNear(s: State, w: Id)
  {
    w in s.known && 0 <= s.known[w] - Target(s.targets, w) < SIZE / 2
  }

  lemma SharedAreShared(s: State)
    requires Inv(s)
    ensures forall w :: w in s.list ==> w in s.place && s.place[w] == Shared
  {
  }

  lemma ProducersAreWithIt(s: State)
    requires Inv(s)
    ensures s.producer.PublishRequeue? ==> forall w :: w in s.producer.requeue ==> w in s.place && s.place[w] == WithProducer
    ensures forall w :: w in ProducerPrivate(s.producer) ==> w in s.place && s.place[w] == WithProducer
  {
    assert s.producer.PublishRequeue? ==> forall w :: w in s.producer.requeue ==> w in ProducerPrivate(s.producer);
  }

  lemma AddersAreWithIt(s: State, id: Id)
    requires Inv(s)
    ensures forall w :: w in Private(AdderIn(s.adders, id)) ==> w in s.place && s.place[w] == With(id)
    ensures var d := AdderIn(s.adders, id);
            d.AddCas? ==> forall w :: w in d.requeue ==> w in s.place && s.place[w] == With(id)
  {
    var d := AdderIn(s.adders, id);
    assert d.AddCas? ==> forall w :: w in d.requeue ==> w in Private(d);
    assert Holds(Private(AdderIn(s.adders, id)), s.place, With(id));
  }

  lemma PlacedHaveTargets(s: State)
    requires Inv(s)
    ensures forall w :: w in s.place ==> Waits(AdderIn(s.adders, w)) && w in s.targets
  {
  }

  lemma ResumedIsNear(s: State, w: Id, known: int)
    requires Near(s) && w in s.place && !s.place[w].Released? && Target(s.targets, w) <= known
    requires known == s.published || exists id: Id :: AdderIn(s.adders, id).AddResume? && AdderIn(s.adders, id).known == known
    ensures 0 <= known - Target(s.targets, w) < SIZE / 2
  {
    var lo: int :| InWindow(s, lo);
    assert forall id: Id :: AdderWithin(lo, AdderIn(s.adders, id));
  }

  /** A step that releases nobody. */
  lemma QuietKeepsNear(s: State, id: Id, s': State)
    requires DueIsNear(s) && SameAt(s.place, s'.place, Released) && s'.known == s.known && s'.targets == s.targets
    requires Moves(s.adders, id, s'.adders) && AdderIn(s'.adders, id).ReadyAtOnce? == AdderIn(s.adders, id).ReadyAtOnce?
    ensures DueIsNear(s')
  {
    forall w: Id | IsDue(s', w)
      ensures ValueIsNear(s', w)
    {
      assert IsDue(s, w) ==> ValueIsNear(s, w);
    }
  }

  /** A step that moves waiters from one list to another. */
  lemma MovingKeepsNear(s: State, id: Id, ws: seq<Id>, p: Place, s': State)
    requires DueIsNear(s) && p != Released && forall w :: w in ws ==> w in s.place && !s.place[w].Released?
    requires s'.place == Placed(s.place, ws, p) && s'.known == s.known && s'.targets == s.targets
    requires Moves(s.adders, id, s'.adders) && AdderIn(s'.adders, id).ReadyAtOnce? == AdderIn(s.adders, id).ReadyAtOnce?
    ensures DueIsNear(s')
  {
    hide DueIsNear, Moves;
    QuietKeepsNear(s, id, s');
  }

  /** A step that releases `x`. */
  lemma ResumeKeepsNear(s: State, id: Id, x: Id, known: int, s': State)
    requires DueIsNear(s) && 0 <= known - Target(s.targets, x) < SIZE / 2
    requires s'.place == s.place[x := Released] && s'.known == s.known[x := known] && s'.targets == s.targets
    requires Moves(s.adders, id, s'.adders) && AdderIn(s'.adders, id).ReadyAtOnce? == AdderIn(s.adders, id).ReadyAtOnce?
    ensures DueIsNear(s')
  {
    forall w: Id | IsDue(s', w)
      ensures ValueIsNear(s', w)
    {
      assert w != x && IsDue(s, w) ==> ValueIsNear(s, w);
    }
  }

  lemma ProducerKeepsNear(s: State, a: Action)
    requires Inv(s) && Near(s) && DueIsNear(s) && Enabled(s, a) && (a.ProducerStep? || a.ProducerRetry? || a.Publish?)
    ensures DueIsNear(Apply(s, a))
  {
    hide *;
    WhatIsEnabled(s, a);
    var s' := Apply(s, a);
    SameMoves(s.adders);
    SameAtRefl(s.place);
    if a.ProducerStep? && s.producer.PublishResume? {
      ProducerIsDue(s);
      ResumeApplies(s);
      ResumedIsNear(s, s.producer.resume[0], s.published);
      ResumeKeepsNear(s, 0, s.producer.resume[0], s.published, s');
    } else if a.ProducerStep? && s.producer.PublishTake? {
      SharedAreShared(s);
      TakeApplies(s);
      MovingKeepsNear(s, 0, s.list, WithProducer, s');
    } else if a.ProducerStep? && s.producer.PublishRequeue? {
      ProducersAreWithIt(s);
      PushApplies(s, false);
      if s'.place == s.place {
        QuietKeepsNear(s, 0, s');
      } else {
        MovingKeepsNear(s, 0, s.producer.requeue, Shared, s');
      }
    } else {
      PublisherApplies(s, a);
      QuietKeepsNear(s, 0, s');
    }
  }

  lemma WhatIsEnabled(s: State, a: Action)
    requires Enabled(s, a)
    ensures a.ProducerStep? ==> !s.producer.Idle?
    ensures a.ProducerRetry? ==> s.producer.PublishRequeue?
    ensures a.AdderRetry? ==> AdderIn(s.adders, a.id).AddCas?
    ensures a.AdderStep? ==> var d := AdderIn(s.adders, a.id); !d.Absent? && !d.ReadyAtOnce? && !d.Left?
  {
  }

  lemma PublisherApplies(s: State, a: Action)
    requires Enabled(s, a) && (a.Publish? || a.ProducerRetry? || (a.ProducerStep? && s.producer.PublishLoad?))
    ensures var s' := Apply(s, a);
            s'.targets == s.targets && s'.adders == s.adders && s'.known == s.known && s'.place == s.place
  {
  }

  lemma ProducerIsDue(s: State)
    requires Inv(s) && s.producer.PublishResume?
    ensures s.producer.resume != [] && s.producer.resume[0] in s.place && !s.place[s.producer.resume[0]].Released?
    ensures Target(s.targets, s.producer.resume[0]) <= s.published
  {
    ProducersAreWithIt(s);
    assert s.producer.resume[0] in s.producer.resume;
  }

  lemma SameAtRefl(place: map<Id, Place>)
    ensures SameAt(place, place, Released)
  {
  }

  lemma SameMoves(adders: map<Id, Adder>)
    ensures Moves(adders, 0, adders)
  {
  }

  lemma AdderKeepsNear(s: State, a: Action)
    requires Inv(s) && Near(s) && DueIsNear(s) && Enabled(s, a) && (a.AdderStep? || a.AdderRetry?)
    ensures DueIsNear(Apply(s, a))
  {
    hide *;
    WhatIsEnabled(s, a);
    var id, s', d := a.id, Apply(s, a), AdderIn(s.adders, a.id);
    SameAtRefl(s.place);
    if a.AdderRetry? || d.AddCas? {
      AddPushApplies(s, id, a.AdderRetry?);
      MovedOne(s.adders, id, s'.adders);
      AddersAreWithIt(s, id);
      if s'.place == s.place {
        QuietKeepsNear(s, id, s');
      } else {
        MovingKeepsNear(s, id, d.requeue, Shared, s');
      }
    } else if d.AddResume? {
      AdderIsDue(s, id);
      AddResumeApplies(s, id);
      MovedOne(s.adders, id, s'.adders);
      ResumedIsNear(s, d.resume[0], d.known);
      ResumeKeepsNear(s, id, d.resume[0], d.known, s');
    } else if d.AddTake? {
      SharedAreShared(s);
      AddTakeApplies(s, id);
      MovedOne(s.adders, id, s'.adders);
      MovingKeepsNear(s, id, s.list, With(id), s');
    } else {
      AdderQuietApplies(s, id);
      MovedOne(s.adders, id, s'.adders);
      QuietKeepsNear(s, id, s');
    }
  }

  /** Only the activity of `id` has changed. */
  ghost predicate Updated(adders: map<Id, Adder>, id: Id, adders': map<Id, Adder>)
  {
    adders' == adders[id := AdderIn(adders', id)] && !AdderIn(adders', id).ReadyAtOnce? && !AdderIn(adders, id).ReadyAtOnce?
  }

  lemma MovedOne(adders: map<Id, Adder>, id: Id, adders': map<Id, Adder>)
    requires Updated(adders, id, adders')
    ensures Moves(adders, id, adders') && AdderIn(adders', id).ReadyAtOnce? == AdderIn(adders, id).ReadyAtOnce?
  {
  }

  lemma AdderQuietApplies(s: State, id: Id)
    requires AdderIn(s.adders, id).AddPush? || AdderIn(s.adders, id).AddLoad? || AdderIn(s.adders, id).AddReady?
    ensures var s' := AdderApply(s, id);
            && Enabled(s, AdderStep(id)) && s' == Apply(s, AdderStep(id)) && Updated(s.adders, id, s'.adders)
            && s'.targets == s.targets && s'.known == s.known && s'.place == s.place
  {
  }

  lemma AdderIsDue(s: State, id: Id)
    requires Inv(s) && AdderIn(s.adders, id).AddResume?
    ensures var d := AdderIn(s.adders, id);
            && d.resume != [] && d.resume[0] in s.place && !s.place[d.resume[0]].Released?
            && Target(s.targets, d.resume[0]) <= d.known
  {
    AdderFacts(s, id);
    AdderTargets(s, id);
    AddersAreWithIt(s, id);
    var d := AdderIn(s.adders, id);
    assert d.resume[0] in d.resume && d.resume[0] in Private(d);
  }

  lemma AwaitKeepsNear(s: State, a: Action)
    requires Inv(s) && DueIsNear(s) && Enabled(s, a) && a.Await? && Comparable(a.target, s.published)
    ensures DueIsNear(Apply(s, a))
  {
    var s' := Apply(s, a);
    PlacedHaveTargets(s);
    hide Inv;
    forall w: Id | IsDue(s', w)
      ensures ValueIsNear(s', w)
    {
      assert IsDue(s, w) ==> ValueIsNear(s, w);
    }
  }

  lemma {:induction false} RunsKeepNear(s: State, run: seq<Action>, s': State)
    requires Inv(s) && DueIsNear(s) && NearReaches(s, run, s')
    ensures Inv(s') && DueIsNear(s') && Near(s') && Reaches(s, run, s')
    decreases |run|
  {
    hide Inv, DueIsNear, Near, Apply, Enabled;
    if run != [] {
      var a := run[0];
      StepKeepsInv(s, a);
      match a {
        case Await(_, _) => AwaitKeepsNear(s, a);
        case AdderStep(_) => AdderKeepsNear(s, a);
        case AdderRetry(_) => AdderKeepsNear(s, a);
        case _ => ProducerKeepsNear(s, a);
      }
      RunsKeepNear(Apply(s, a), run[1..], s');
    }
  }

  /** No lost wake-up, as the program can see it: at rest the words of the targets still queued come strictly
      after the published word in the wrap-around order, and every other waiter has continued. */
  lemma NoWakeUpIsLostOnWords(initial: int, run: seq<Action>, s: State)
    requires NearReaches(Init(initial), run, s) && AtRest(s)
    ensures forall w :: w in s.list ==> Precedes(Wrap(s.published), Wrap(Target(s.targets, w)))
    ensures forall w :: w in s.adders && w !in s.list ==> s.continued[w] == 1
  {
    InitInv(initial);
    RunsKeepNear(Init(initial), run, s);
    NoWakeUpIsLost(initial, run, s);
    NearIsComparable(s);
    forall w | w in s.list
      ensures Precedes(Wrap(s.published), Wrap(Target(s.targets, w)))
    {
      ComparisonsAreTrue(Target(s.targets, w), s.published);
    }
  }

  /** A waiter continues at most once, and with a word that does not precede that of its target. */
  lemma WordsDoNotPrecedeTargets(initial: int, run: seq<Action>, s: State, w: Id)
    requires NearReaches(Init(initial), run, s)
    ensures s.continued[w] <= 1
    ensures s.continued[w] == 1 ==>
              w in s.known && w in s.targets && !Precedes(Wrap(s.known[w]), Wrap(s.targets[w]))
  {
    InitInv(initial);
    RunsKeepNear(Init(initial), run, s);
    EveryWaiterContinuesOnce(initial, run, s, w);
    if s.continued[w] == 1 {
      ContinuedIsDue(s, w);
      ComparisonsAreTrue(s.targets[w], s.known[w]);
    }
  }

  lemma ContinuedIsDue(s: State, w: Id)
    requires Inv(s) && s.continued[w] == 1
    ensures IsDue(s, w) && w in s.targets
  {
    assert s.continued[w] == if HasContinued(s.adders, s.place, w) then 1 else 0;
  }

  /** The operations hold what the machine says about their waiters. */
  ghost predicate Agrees(ops: map<Id, Waiter>, targets: map<Id, int>, known: map<Id, int>, ready: set<Id>)
    reads ops.Values`lastKnownPublished, ops.Values`readyToResume
  {
    && ops.Keys == targets.Keys && Identified(ops)
    && forall w :: w in ops ==>
         && w in known && ops[w].target == Wrap(targets[w]) && ops[w].lastKnownPublished == Wrap(known[w])
         && (ops[w].readyToResume <==> w in ready)
  }

  lemma ListAgrees(ops: map<Id, Waiter>, s: State, list: seq<Id>, known: int, ahead: Word -> bool)
    requires Agrees(ops, s.targets, s.known, s.ready)
    requires (forall w :: w in list ==> w in ops) && AllComparable(list, s.targets, known)
    requires ahead == NotReached(Wrap(known)) || ahead == Distant(Wrap(known))
    ensures StillWaiting(NodesOf(ops, list), ahead) == NodesOf(ops, Ahead(list, s.targets, known))
    ensures Satisfied(NodesOf(ops, list), ahead) == NodesOf(ops, Reached(list, s.targets, known))
  {
    forall w | w in list
      ensures ahead(ops[w].target) <==> Target(s.targets, w) > known
    {
      ComparisonsAreTrue(Target(s.targets, w), known);
    }
    SplitAgrees(ops, list, s.targets, known, ahead);
  }

  /** The waiters a thread has put aside to resume. */
  function ToResume(p: Producer): seq<Id>
  {
    match p
    case PublishRequeue(_, resume, _) => resume
    case PublishResume(resume) => resume
    case _ => []
  }

  function PutAside(d: Adder): seq<Id>
  {
    match d
    case AddPush(_, _, resume) => resume
    case AddCas(_, _, resume, _) => resume
    case AddLoad(_, resume) => resume
    case AddTake(_, resume) => resume
    case AddResume(_, resume) => resume
    case _ => []
  }

  class SequenceBarrier {
    var lastPublished: Word
    var awaiters: Waiter?
    /** Every wait operation there has been. */
    ghost var ops: map<Id, Waiter>
    ghost var s: State

    ghost predicate Valid()
      reads this, ops.Values
    {
      && Reachable(s)
      && lastPublished == Wrap(s.published)
      && Agrees(ops, s.targets, s.known, s.ready) && IsList(ops, awaiters, s.list)
    }

    constructor (ghost initial: int, initialSequence: Word)
      requires initialSequence == Wrap(initial)
      ensures Valid() && s == Init(initial)
    {
      lastPublished, awaiters := initialSequence, null;
      ops, s := map[], Init(initial);
      new;
      InitReachable(initial);
    }

    ghost method Advance(a: Action)
      requires Reachable(s) && Enabled(s, a)
      modifies this`s
      ensures Reachable(s) && s == Apply(old(s), a)
    {
      StepKeepsReachable(s, a);
      s := Apply(s, a);
    }

    // ---------------------------------------------------------------- publish

    method StorePublished(ghost n: int, sequence: Word)
      requires Valid() && Enabled(s, Publish(n)) && sequence == Wrap(n)
      modifies this`s, this`lastPublished
      ensures Valid() && s == Apply(old(s), Publish(n))
    {
      lastPublished := sequence;
      Advance(Publish(n));
    }

    /** The cheap check for waiters. */
    method LoadAwaiters() returns (empty: bool)
      requires Valid() && s.producer.PublishLoad?
      modifies this`s
      ensures Valid() && s == Apply(old(s), ProducerStep) && (empty <==> s.list == []) && (empty <==> s.producer.Idle?)
      ensures s.list == old(s.list) && s.targets == old(s.targets) && s.published == old(s.published)
    {
      empty := awaiters == null;
      Advance(ProducerStep);
    }

    /** Taking the whole shared list and splitting it. */
    method ExchangeForPublish(sequence: Word) returns (requeue: Waiter?, requeueLast: Waiter?, resume: Waiter?)
      requires Valid() && s.producer.PublishTake? && sequence == Wrap(s.published)
      requires Near(s)
      modifies this`s, this`awaiters, Nodes(ops, s.list)`next
      ensures Valid() && s == Apply(old(s), ProducerStep)
      ensures requeue != null <==> s.producer.PublishRequeue?
      ensures requeue != null ==>
                && IsOpenList(ops, requeue, requeueLast, s.producer.requeue)
                && requeueLast != null && requeueLast.next == null && s.producer.seen == Empty
      ensures IsList(ops, resume, ToResume(s.producer))
      ensures s.list == [] && ToResume(s.producer) == Reached(old(s.list), s.targets, s.published)
      ensures requeue != null ==> s.producer.requeue == Ahead(old(s.list), s.targets, s.published)
      ensures requeue == null <==> Ahead(old(s.list), s.targets, s.published) == []
      ensures s.targets == old(s.targets) && s.published == old(s.published)
    {
      hide *;
      Open();
      TakeApplies(s);
      ReachableInv(s);
      NearIsComparable(s);
      ghost var after := Apply(s, ProducerStep);
      ghost var waiting, due := Ahead(s.list, s.targets, s.published), Reached(s.list, s.targets, s.published);
      var list := awaiters;
      awaiters, requeue, requeueLast, resume := null, null, null, null;
      ListParts(ops, list, s.list);
      if list != null {
        ListAgrees(ops, s, s.list, s.published, NotReached(sequence));
        NodesAreListed(ops, s.list);
        requeue, requeueLast, resume := SplitForPublish(list, sequence, NodesOf(ops, s.list));
      } else {
        NothingLinked(ops);
      }
      MakeLists(ops, requeue, waiting);
      EndOfList(ops, requeue, requeueLast, waiting);
      MakeLists(ops, resume, due);
      NothingLinked(ops);
      Advance(ProducerStep);
      assert s == after;
      Close();
    }

    /** One turn of the loop that puts back the waiters whose targets are still ahead: the compare-and-swap,
        and on failure the last link is set to the head that was found. */
    method PushForPublish(requeue: Waiter, requeueLast: Waiter, oldHead: Waiter?, spurious: bool, ghost resume: Waiter?)
      returns (pushed: bool, seen: Waiter?)
      requires Valid() && s.producer.PublishRequeue? && Stands(ops, oldHead, s.producer.seen)
      requires IsOpenList(ops, requeue, requeueLast, s.producer.requeue) && requeueLast.next == oldHead
      requires IsList(ops, resume, s.producer.resume)
      modifies this`s, this`awaiters, requeueLast`next
      ensures Valid() && s == Apply(old(s), if spurious then ProducerRetry else ProducerStep)
      ensures pushed <==> old(s.producer).seen == old(TopOf(s.list)) && !spurious
      ensures s.list == if pushed then old(s.producer).requeue + old(s.list) else old(s.list)
      ensures !pushed ==> s.producer == old(s.producer).(seen := TopOf(s.list))
      ensures s.published == old(s.published) && s.targets == old(s.targets)
      ensures pushed ==> s.producer == AfterResume(old(s.producer).resume)
      ensures !pushed ==>
                && IsOpenList(ops, requeue, requeueLast, s.producer.requeue) && requeueLast.next == seen
                && Stands(ops, seen, s.producer.seen)
      ensures IsList(ops, resume, ToResume(s.producer))
    {
      hide *;
      Open();
      ghost var a, requeued, aside := if spurious then ProducerRetry else ProducerStep, s.producer.requeue, s.producer.resume;
      PushApplies(s, spurious);
      ProducerIsApart(s);
      TopStands(ops, awaiters, s.list);
      SamePointer(ops, awaiters, TopOf(s.list), oldHead, s.producer.seen);
      ghost var after := Apply(s, a);
      ListParts(ops, resume, aside);
      seen, pushed := awaiters, awaiters == oldHead && !spurious;
      if pushed {
        JoinedList(ops, requeue, requeueLast, requeued, awaiters, s.list);
        awaiters := requeue;
      } else {
        SetLast(requeue, requeueLast, seen, requeued, resume, null, aside);
      }
      Advance(a);
      assert s == after;
      Close();
    }

    method ResumeForPublish(resume: Waiter, sequence: Word) returns (next: Waiter?, continued: bool)
      requires Valid() && s.producer.PublishResume? && sequence == Wrap(s.published)
      requires IsList(ops, resume, s.producer.resume)
      modifies this`s, resume`lastKnownPublished, resume`readyToResume
      ensures Valid() && s == Apply(old(s), ProducerStep)
      ensures s.continued == old(s.continued) + (if continued then multiset{resume.id} else multiset{})
      ensures old(s.producer).resume != [] && resume.id == old(s.producer).resume[0]
      ensures (continued <==> resume.id in old(s.ready)) && s.ready == old(s.ready) + {resume.id}
      ensures s.place == old(s.place)[resume.id := Released] && s.known == old(s.known)[resume.id := s.published]
      ensures s.producer == AfterResume(old(s.producer).resume[1..])
      ensures s.list == old(s.list) && s.targets == old(s.targets) && s.published == old(s.published)
      ensures IsList(ops, next, ToResume(s.producer))
    {
      hide *;
      Open();
      ListParts(ops, resume, s.producer.resume);
      ResumeApplies(s);
      ghost var after := Apply(s, ProducerStep);
      next, continued := ResumeOne(resume, sequence, s.producer.resume, s.published);
      Advance(ProducerStep);
      assert s == after;
      Close();
    }

    // ---------------------------------------------------------------- add_awaiter

    /** The operation's constructor, which reads the barrier, and `await_ready`. */
    method Await(id: Id, ghost target: int, targetSequence: Word) returns (op: Waiter, ready: bool)
      requires Valid() && Enabled(s, Barrier.Await(id, target)) && targetSequence == Wrap(target)
      requires Comparable(target, s.published)
      modifies this`s, this`ops
      ensures Valid() && s == Apply(old(s), Barrier.Await(id, target))
      ensures fresh(op) && ops == old(ops)[id := op]
      ensures ready <==> target <= s.published
      ensures ready <==> AdderIn(s.adders, id).ReadyAtOnce?
      ensures !ready ==> IsOpenList(ops, op, op, [id])
    {
      hide *;
      Open();
      AwaitApplies(s, id, target);
      ghost var after := Apply(s, Barrier.Await(id, target));
      op := new Waiter(id, targetSequence, lastPublished);
      ComparisonsAreTrue(target, s.published);
      ready := !Precedes(lastPublished, targetSequence);
      Extend(ops, op, s.targets, s.known, s.ready, target, s.published, awaiters, s.list);
      ops := ops[id := op];
      Advance(Barrier.Await(id, target));
      assert s == after;
      Close();
    }

    /** The load of the head that the pushing loop starts with. */
    method LoadHeadForAdd(ghost id: Id) returns (oldHead: Waiter?)
      requires Valid() && AdderIn(s.adders, id).AddPush?
      modifies this`s
      ensures Valid() && s == Apply(old(s), AdderStep(id))
      ensures AdderIn(s.adders, id).AddCas? && Stands(ops, oldHead, AdderIn(s.adders, id).seen)
      ensures AdderIn(s.adders, id).seen == TopOf(s.list) && s.list == old(s.list)
    {
      hide *;
      Open();
      AddHeadApplies(s, id);
      TopStands(ops, awaiters, s.list);
      ghost var after := Apply(s, AdderStep(id));
      oldHead := awaiters;
      Advance(AdderStep(id));
      assert s == after;
      Close();
    }

    /** One turn of the loop that adds the new waiter, or puts back the ones taken in an earlier round: the
        last link is set to the head expected, then the compare-and-swap tried. */
    method PushForAdd(ghost id: Id, requeue: Waiter, requeueLast: Waiter, oldHead: Waiter?, spurious: bool,
                      ghost resume: Waiter?, ghost resumeLast: Waiter?)
      returns (pushed: bool, seen: Waiter?)
      requires Valid() && AdderIn(s.adders, id).AddCas? && Stands(ops, oldHead, AdderIn(s.adders, id).seen)
      requires IsOpenList(ops, requeue, requeueLast, AdderIn(s.adders, id).requeue)
      requires IsOpenList(ops, resume, resumeLast, AdderIn(s.adders, id).resume)
      modifies this`s, this`awaiters, requeueLast`next
      ensures Valid() && s == Apply(old(s), if spurious then AdderRetry(id) else AdderStep(id))
      ensures pushed <==> old(AdderIn(s.adders, id)).seen == old(TopOf(s.list)) && !spurious
      ensures s.list == if pushed then old(AdderIn(s.adders, id)).requeue + old(s.list) else old(s.list)
      ensures if pushed then AdderIn(s.adders, id).AddLoad?
              else AdderIn(s.adders, id).AddCas? && Stands(ops, seen, AdderIn(s.adders, id).seen)
                   && IsOpenList(ops, requeue, requeueLast, AdderIn(s.adders, id).requeue)
      ensures IsOpenList(ops, resume, resumeLast, PutAside(AdderIn(s.adders, id)))
    {
      hide *;
      Open();
      ghost var d, a := AdderIn(s.adders, id), if spurious then AdderRetry(id) else AdderStep(id);
      AddPushApplies(s, id, spurious);
      AdderIsApart(s, id);
      TopStands(ops, awaiters, s.list);
      SamePointer(ops, awaiters, TopOf(s.list), oldHead, d.seen);
      ghost var after := Apply(s, a);
      OpenListParts(ops, resume, resumeLast, d.resume);
      SetLast(requeue, requeueLast, oldHead, d.requeue, resume, resumeLast, d.resume);
      seen, pushed := awaiters, awaiters == oldHead && !spurious;
      if pushed {
        JoinedList(ops, requeue, requeueLast, d.requeue, awaiters, s.list);
        awaiters := requeue;
      }
      Advance(a);
      assert s == after;
      Close();
    }

    /** The read of the published number after the push; without a reason to take the list again, the list
        of waiters to resume is closed. */
    method LoadForAdd(ghost id: Id, targetSequence: Word, resume: Waiter?, resumeLast: Waiter?)
      returns (lastKnownPublished: Word, again: bool)
      requires Valid() && AdderIn(s.adders, id).AddLoad? && targetSequence == Wrap(AdderIn(s.adders, id).target)
      requires Near(s)
      requires IsOpenList(ops, resume, resumeLast, AdderIn(s.adders, id).resume)
      modifies this`s, (if resumeLast == null then {} else {resumeLast})`next
      ensures Valid() && s == Apply(old(s), AdderStep(id))
      ensures lastKnownPublished == Wrap(s.published) && (again <==> AdderIn(s.adders, id).AddTake?)
      ensures again <==> old(AdderIn(s.adders, id)).target <= s.published
      ensures if again then IsOpenList(ops, resume, resumeLast, PutAside(AdderIn(s.adders, id)))
              else IsList(ops, resume, PutAside(AdderIn(s.adders, id)))
    {
      hide *;
      Open();
      AddLoadApplies(s, id);
      ReachableInv(s);
      NearIsComparable(s);
      AdderIsApart(s, id);
      ghost var after := Apply(s, AdderStep(id));
      ComparisonsAreTrue(AdderIn(s.adders, id).target, s.published);
      lastKnownPublished := lastPublished;
      again := !Precedes(lastKnownPublished, targetSequence);
      if !again {
        ListParts(ops, awaiters, s.list);
        CloseList(resume, resumeLast, AdderIn(s.adders, id).resume, s.list);
      }
      Advance(AdderStep(id));
      assert s == after;
      Close();
    }

    /** Closes a private list; the shared one is not touched. */
    method CloseList(resume: Waiter?, resumeLast: Waiter?, ghost aside: seq<Id>, ghost shared: seq<Id>)
      requires IsOpenList(ops, resume, resumeLast, aside) && IsList(ops, awaiters, shared)
      requires Identified(ops) && forall w :: w in aside ==> w !in shared
      modifies (if resumeLast == null then {} else {resumeLast})`next
      ensures IsList(ops, resume, aside) && IsList(ops, awaiters, shared)
    {
      NodesApart(ops, aside, shared);
      LastIsIn(NodesOf(ops, aside));
      Terminate(resume, resumeLast, NodesOf(ops, aside));
    }

    /** Taking the whole shared list again, and splitting it. */
    method ExchangeForAdd(ghost id: Id, lastKnownPublished: Word, resume: Waiter?, resumeLast: Waiter?)
      returns (requeue: Waiter?, requeueLast: Waiter?, targetSequence: Word, resume': Waiter?, resumeLast': Waiter?)
      requires Valid() && AdderIn(s.adders, id).AddTake? && lastKnownPublished == Wrap(AdderIn(s.adders, id).known)
      requires Near(s)
      requires IsOpenList(ops, resume, resumeLast, AdderIn(s.adders, id).resume)
      modifies this`s, this`awaiters, Nodes(ops, s.list + AdderIn(s.adders, id).resume)`next
      ensures Valid() && s == Apply(old(s), AdderStep(id))
      ensures requeue != null <==> AdderIn(s.adders, id).AddPush?
      ensures requeue != null ==>
                && IsOpenList(ops, requeue, requeueLast, AdderIn(s.adders, id).requeue)
                && IsOpenList(ops, resume', resumeLast', PutAside(AdderIn(s.adders, id)))
                && targetSequence == Wrap(AdderIn(s.adders, id).target)
      ensures requeue == null ==> IsList(ops, resume', PutAside(AdderIn(s.adders, id)))
      ensures var known := old(AdderIn(s.adders, id)).known;
              && s.list == [] && (requeue == null <==> Ahead(old(s.list), s.targets, known) == [])
              && (requeue != null ==> AdderIn(s.adders, id).requeue == Ahead(old(s.list), s.targets, known))
              && PutAside(AdderIn(s.adders, id)) == old(AdderIn(s.adders, id)).resume + Reached(old(s.list), s.targets, known)
    {
      hide *;
      Open();
      AddTakeApplies(s, id);
      ReachableInv(s);
      NearIsComparable(s);
      AdderIsApart(s, id);
      ghost var after, known, aside := Apply(s, AdderStep(id)), AdderIn(s.adders, id).known, AdderIn(s.adders, id).resume;
      ghost var due := Reached(s.list, s.targets, known);
      ListParts(ops, awaiters, s.list);
      requeue, requeueLast, targetSequence, resume', resumeLast' :=
        SplitTaken(awaiters, lastKnownPublished, resume, resumeLast, s.list, aside, known);
      awaiters := null;
      NothingLinked(ops);
      if requeue == null {
        LastIsListed(ops, resume', resumeLast', aside + due, s.list + aside);
        CloseList(resume', resumeLast', aside + due, []);
      }
      Advance(AdderStep(id));
      assert s == after;
      Close();
    }

    /** The splitting loop on a list that was taken, and what it leaves in the caller's local variables. */
    method SplitTaken(taken: Waiter?, lastKnownPublished: Word, resume: Waiter?, resumeLast: Waiter?,
                      ghost list: seq<Id>, ghost aside: seq<Id>, ghost known: int)
      returns (requeue: Waiter?, requeueLast: Waiter?, targetSequence: Word, resume': Waiter?, resumeLast': Waiter?)
      requires Agrees(ops, s.targets, s.known, s.ready) && Identified(ops) && lastKnownPublished == Wrap(known)
      requires IsList(ops, taken, list) && AllComparable(list, s.targets, known)
      requires IsOpenList(ops, resume, resumeLast, aside) && forall w :: w in aside ==> w !in list
      modifies Nodes(ops, list + aside)`next
      ensures var waiting := Ahead(list, s.targets, known);
              && (requeue != null <==> waiting != []) && IsOpenList(ops, requeue, requeueLast, waiting)
              && (requeue != null ==> targetSequence == Wrap(Earliest(waiting, s.targets)))
      ensures IsOpenList(ops, resume', resumeLast', aside + Reached(list, s.targets, known))
    {
      hide *;
      ListParts(ops, taken, list);
      OpenListParts(ops, resume, resumeLast, aside);
      NodesApart(ops, aside, list);
      NodesAreListed(ops, list + aside);
      NodesApart(ops, list, aside);
      ListAgrees(ops, s, list, known, Distant(lastKnownPublished));
      requeue, requeueLast, targetSequence, resume', resumeLast' :=
        SplitForAdd(taken, lastKnownPublished, resume, resumeLast, NodesOf(ops, list), NodesOf(ops, aside));
      MakeLists(ops, requeue, Ahead(list, s.targets, known));
      MakeOpenList(ops, resume', resumeLast', aside, Reached(list, s.targets, known));
      if requeue != null {
        EarliestAgrees(ops, s, list, known, targetSequence);
      }
    }

    method ResumeForAdd(ghost id: Id, resume: Waiter, lastKnownPublished: Word) returns (next: Waiter?, continued: bool)
      requires Valid() && AdderIn(s.adders, id).AddResume?
      requires lastKnownPublished == Wrap(AdderIn(s.adders, id).known)
      requires IsList(ops, resume, AdderIn(s.adders, id).resume)
      modifies this`s, resume`lastKnownPublished, resume`readyToResume
      ensures Valid() && s == Apply(old(s), AdderStep(id))
      ensures s.continued == old(s.continued) + (if continued then multiset{resume.id} else multiset{})
      ensures old(AdderIn(s.adders, id)).resume != [] && resume.id == old(AdderIn(s.adders, id)).resume[0]
      ensures (continued <==> resume.id in old(s.ready)) && resume.id in s.ready
      ensures s.place == old(s.place)[resume.id := Released] && s.known == old(s.known)[resume.id := old(AdderIn(s.adders, id)).known]
      ensures IsList(ops, next, PutAside(AdderIn(s.adders, id)))
    {
      hide *;
      Open();
      ListParts(ops, resume, AdderIn(s.adders, id).resume);
      AddResumeApplies(s, id);
      ghost var after := Apply(s, AdderStep(id));
      next, continued := ResumeOne(resume, lastKnownPublished, AdderIn(s.adders, id).resume, AdderIn(s.adders, id).known);
      Advance(AdderStep(id));
      assert s == after;
      Close();
    }

    /** The end of `await_suspend`: whether the coroutine stays suspended. */
    method ExchangeReady(op: Waiter) returns (suspended: bool)
      requires Valid() && op.id in ops && ops[op.id] == op && AdderIn(s.adders, op.id).AddReady?
      modifies this`s, op`readyToResume
      ensures Valid() && s == Apply(old(s), AdderStep(op.id))
      ensures s.continued == old(s.continued) + (if suspended then multiset{} else multiset{op.id})
      ensures suspended <==> s.continued[op.id] == 0
      ensures AdderIn(s.adders, op.id).Left?
    {
      hide *;
      Open();
      AddReadyApplies(s, op.id);
      HasNotContinued(s, op.id);
      ghost var after := Apply(s, AdderStep(op.id));
      suspended := SetReady(op);
      Advance(AdderStep(op.id));
      assert s == after;
      Close();
    }

    method SetReady(op: Waiter) returns (suspended: bool)
      requires Agrees(ops, s.targets, s.known, s.ready) && op.id in ops && ops[op.id] == op
      modifies op`readyToResume
      ensures Agrees(ops, s.targets, s.known, s.ready + {op.id})
      ensures suspended <==> op.id !in s.ready
    {
      suspended := !op.readyToResume;
      op.readyToResume := true;
    }

    /** `resume()`: the published number is stored before the ready flag is exchanged. */
    method ResumeOne(resume: Waiter, sequence: Word, ghost list: seq<Id>, ghost published: int)
      returns (next: Waiter?, continued: bool)
      requires Agrees(ops, s.targets, s.known, s.ready) && IsList(ops, resume, list) && sequence == Wrap(published)
      modifies resume`lastKnownPublished, resume`readyToResume
      ensures list != [] && resume.id == list[0]
      ensures Agrees(ops, s.targets, s.known[list[0] := published], s.ready + {list[0]})
      ensures continued <==> list[0] in s.ready
      ensures IsList(ops, next, list[1..])
    {
      RestOfList(ops, resume, list);
      next := resume.next;
      resume.lastKnownPublished := sequence;
      continued := resume.readyToResume;
      resume.readyToResume := true;
    }

    /** Sets the last link of a private list; neither the shared list nor the waiters put aside are touched. */
    method SetLast(ghost requeue: Waiter, requeueLast: Waiter, next: Waiter?, ghost requeued: seq<Id>, ghost resume: Waiter?,
                   ghost last: Waiter?, ghost aside: seq<Id>)
      requires IsOpenList(ops, requeue, requeueLast, requeued) && IsList(ops, awaiters, s.list)
      requires Identified(ops) && forall w :: w in requeued ==> w !in s.list && w !in aside
      requires forall w :: w in aside ==> w in ops
      modifies requeueLast`next
      ensures requeueLast.next == next && IsOpenList(ops, requeue, requeueLast, requeued) && IsList(ops, awaiters, s.list)
      ensures old(IsList(ops, resume, aside)) ==> IsList(ops, resume, aside)
      ensures old(IsOpenList(ops, resume, last, aside)) ==> IsOpenList(ops, resume, last, aside)
    {
      NodesApart(ops, requeued, s.list);
      NodesApart(ops, requeued, aside);
      LastIsIn(NodesOf(ops, requeued));
      requeueLast.next := next;
    }

    // ---------------------------------------------------------------- whole calls

    /** Any steps of the others, between two steps of one thread: a caller knows no more than the contract. The
        lists the thread has in its hands are left as they are, as what each method may modify shows, and
        the words to be compared stay near each other. `n` bounds how often a call is still going to be
        interrupted, or one of its weak compare-and-swaps fails for no reason. */
    method Others(ghost self: Self, ghost n: nat, ghost requeue: Waiter?, ghost requeueLast: Waiter?, ghost resume: Waiter?,
                  ghost resumeLast: Waiter?)
      returns (ghost left: nat, spurious: bool)
      requires Valid() && Near(s)
      modifies this, ops.Values
      ensures Valid() && Near(s) && OthersRan(self, old(s), s)
      ensures left <= n && (spurious ==> left < n) && (left == n ==> s == old(s))
      ensures forall w :: w in old(ops) ==> w in ops && ops[w] == old(ops[w])
      ensures forall x :: x in ops.Values ==> x in old(ops.Values) || fresh(x)
      ensures old(IsOpenList(ops, requeue, requeueLast, RequeueOf(self, s))) ==> IsOpenList(ops, requeue, requeueLast, old(RequeueOf(self, s)))
      ensures old(IsOpenList(ops, resume, resumeLast, ResumeOf(self, s))) ==> IsOpenList(ops, resume, resumeLast, old(ResumeOf(self, s)))
      ensures old(IsList(ops, resume, ResumeOf(self, s))) ==> IsList(ops, resume, old(ResumeOf(self, s)))
      ensures requeueLast != null ==> requeueLast.next == old(requeueLast.next)
    {
      NobodyRan(self, s);
      left, spurious := n, false;
    }

    method Pause(ghost self: Self, ghost n: nat, ghost requeue: Waiter?, ghost requeueLast: Waiter?, ghost resume: Waiter?,
                 ghost resumeLast: Waiter?)
      returns (ghost left: nat, spurious: bool)
      requires Valid() && Near(s)
      modifies this, ops.Values
      ensures Valid() && Near(s) && SameOwn(self, old(s), s)
      ensures left <= n && (spurious ==> left < n) && (left == n ==> s == old(s))
      ensures forall w :: w in old(ops) ==> w in ops && ops[w] == old(ops[w])
      ensures forall x :: x in ops.Values ==> x in old(ops.Values) || fresh(x)
      ensures old(IsOpenList(ops, requeue, requeueLast, RequeueOf(self, s))) ==> IsOpenList(ops, requeue, requeueLast, old(RequeueOf(self, s)))
      ensures old(IsOpenList(ops, resume, resumeLast, ResumeOf(self, s))) ==> IsOpenList(ops, resume, resumeLast, old(ResumeOf(self, s)))
      ensures old(IsList(ops, resume, ResumeOf(self, s))) ==> IsList(ops, resume, old(ResumeOf(self, s)))
      ensures requeueLast != null ==> requeueLast.next == old(requeueLast.next)
    {
      hide *;
      ghost var before := s;
      left, spurious := Others(self, n, requeue, requeueLast, resume, resumeLast);
      OthersLeaveOwn(self, before, s);
    }

    method AdderPause(ghost id: Id, ghost n: nat, ghost requeue: Waiter?, ghost requeueLast: Waiter?, ghost resume: Waiter?,
                      ghost resumeLast: Waiter?)
      returns (ghost left: nat, spurious: bool)
      requires Valid() && Near(s)
      modifies this, ops.Values
      ensures Valid() && Near(s) && AdderIn(s.adders, id) == old(AdderIn(s.adders, id))
      ensures left <= n && (spurious ==> left < n) && (left == n ==> s == old(s))
      ensures forall w :: w in old(ops) ==> w in ops && ops[w] == old(ops[w])
      ensures forall x :: x in ops.Values ==> x in old(ops.Values) || fresh(x)
      ensures old(IsOpenList(ops, requeue, requeueLast, Requeued(AdderIn(s.adders, id)))) ==>
                IsOpenList(ops, requeue, requeueLast, Requeued(AdderIn(s.adders, id)))
      ensures old(IsOpenList(ops, resume, resumeLast, PutAside(AdderIn(s.adders, id)))) ==>
                IsOpenList(ops, resume, resumeLast, PutAside(AdderIn(s.adders, id)))
      ensures old(IsList(ops, resume, PutAside(AdderIn(s.adders, id)))) ==> IsList(ops, resume, PutAside(AdderIn(s.adders, id)))
    {
      hide *;
      ghost var before := s;
      OwnLists(Adding(id), s);
      left, spurious := Pause(Adding(id), n, requeue, requeueLast, resume, resumeLast);
      SameAdder(id, before, s);
    }

    method ProducerPause(ghost n: nat, ghost requeue: Waiter?, ghost requeueLast: Waiter?, ghost resume: Waiter?)
      returns (ghost left: nat, spurious: bool)
      requires Valid() && Near(s)
      modifies this, ops.Values
      ensures Valid() && Near(s) && s.producer == old(s.producer) && s.published == old(s.published)
      ensures left <= n && (spurious ==> left < n) && (left == n ==> s == old(s))
      ensures forall w :: w in old(ops) ==> w in ops && ops[w] == old(ops[w])
      ensures forall x :: x in ops.Values ==> x in old(ops.Values) || fresh(x)
      ensures s.producer.PublishRequeue? && old(IsOpenList(ops, requeue, requeueLast, s.producer.requeue)) ==>
                IsOpenList(ops, requeue, requeueLast, s.producer.requeue)
      ensures old(IsList(ops, resume, ToResume(s.producer))) ==> IsList(ops, resume, ToResume(s.producer))
      ensures requeueLast != null ==> requeueLast.next == old(requeueLast.next)
    {
      hide *;
      ghost var before := s;
      OwnLists(Producing, s);
      left, spurious := Pause(Producing, n, requeue, requeueLast, resume, null);
      SameProducer(before, s);
    }

    /** `publish`, whatever others do meanwhile: everybody it took and found due is resumed, the others are put
        back. When nobody interferes these are all that waited. The word to be published must not be too far
        from those it is compared with. */
    method PublishSequence(ghost q: int, sequence: Word, ghost n: nat) returns (ghost left: nat)
      requires Valid() && Enabled(s, Publish(q)) && sequence == Wrap(q) && Near(Apply(s, Publish(q)))
      modifies this, ops.Values
      ensures Valid() && s.producer.Idle? && s.published == q && left <= n
      ensures left == n ==> s.list == Ahead(old(s.list), old(s.targets), q) && ReleasedWith(s, Reached(old(s.list), old(s.targets), q), q)
      ensures forall w :: w in old(ops) ==> w in ops && ops[w] == old(ops[w])
      ensures forall x :: x in ops.Values ==> x in old(ops.Values) || fresh(x)
    {
      hide *;
      PublishApplies(s, q);
      StorePublished(q, sequence);
      var spurious;
      left, spurious := ProducerPause(n, null, null, null);
      LoadApplies(s);
      ValidIsReachable();
      ProducerStaysNear(s, ProducerStep);
      var empty := LoadAwaiters();
      if empty {
        NothingLinked(ops);
        NoneReleased(s);
        return;
      }
      left := TakeForPublish(sequence, left);
    }

    /** Taking the list, putting some back and resuming the others. */
    method TakeForPublish(sequence: Word, ghost n: nat) returns (ghost left: nat)
      requires Valid() && Near(s) && s.producer.PublishTake? && sequence == Wrap(s.published)
      modifies this, ops.Values
      ensures Valid() && s.producer.Idle? && s.published == old(s.published) && left <= n
      ensures left == n ==>
                && s.list == Ahead(old(s.list), old(s.targets), s.published)
                && ReleasedWith(s, Reached(old(s.list), old(s.targets), s.published), s.published)
      ensures forall w :: w in old(ops) ==> w in ops && ops[w] == old(ops[w])
      ensures forall x :: x in ops.Values ==> x in old(ops.Values) || fresh(x)
    {
      hide *;
      var spurious;
      left, spurious := ProducerPause(n, null, null, null);
      ValidIsReachable();
      TakeApplies(s);
      ProducerStaysNear(s, ProducerStep);
      NodesAreOperations(ops, s.list);
      ghost var due := Reached(s.list, s.targets, s.published);
      var requeue, requeueLast, resume := ExchangeForPublish(sequence);
      ResumeParts(due);
      if requeue != null {
        left := PutBack(requeue, requeueLast, resume, left);
      }
      left := ResumeAll(resume, sequence, left);
    }

    /** The loop that puts back the waiters whose targets are still ahead. */
    method PutBack(requeue: Waiter, requeueLast: Waiter?, ghost resume: Waiter?, ghost n: nat) returns (ghost left: nat)
      requires Valid() && Near(s) && s.producer.PublishRequeue? && s.producer.seen == Empty
      requires IsOpenList(ops, requeue, requeueLast, s.producer.requeue) && IsList(ops, resume, s.producer.resume)
      requires requeueLast != null ==> requeueLast.next == null
      modifies this, ops.Values
      ensures Valid() && Near(s) && s.producer == AfterResume(old(s.producer.resume)) && s.published == old(s.published)
      ensures left <= n && (left == n && old(s.list) == [] ==> s.list == old(s.producer.requeue))
      ensures IsList(ops, resume, old(s.producer.resume))
      ensures forall w :: w in old(ops) ==> w in ops && ops[w] == old(ops[w])
      ensures forall x :: x in ops.Values ==> x in old(ops.Values) || fresh(x)
    {
      hide *;
      ghost var p, first := s.producer, s.list;
      EmptyHasNoTop();
      LastOfOpen(ops, requeue, requeueLast, p.requeue);
      var last: Waiter, oldHead: Waiter?, pushed, spurious := requeueLast, null, false, false;
      left := n;
      NullStands(ops);
      // the first compare-and-swap may fail without an interruption; after it the head is known
      ghost var sure := false;
      while !pushed
        invariant Valid() && Near(s) && s.published == old(s.published) && left <= n
        invariant forall w :: w in old(ops) ==> w in ops && ops[w] == old(ops[w])
        invariant forall x :: x in ops.Values ==> x in old(ops.Values) || fresh(x)
        invariant last in ops.Values && IsList(ops, resume, p.resume)
        invariant left == n && first == [] ==>
                    if pushed then s.list == p.requeue else s.list == [] && s.producer.PublishRequeue? && s.producer.seen == Empty
        invariant if pushed then s.producer == AfterResume(p.resume)
                  else s.producer.PublishRequeue? && s.producer == p.(seen := s.producer.seen)
        invariant !pushed ==> Stands(ops, oldHead, s.producer.seen) && IsOpenList(ops, requeue, last, p.requeue) && last.next == oldHead
        invariant !pushed && sure ==> s.producer.seen == TopOf(s.list)
        decreases !pushed, left, !sure
      {
        ghost var known, seen := ops, s.producer.seen;
        ResumeParts(p.resume);
        left, spurious := ProducerPause(left, requeue, last, resume);
        StandsOn(known, ops, oldHead, seen);
        PushApplies(s, spurious);
        ValidIsReachable();
        ProducerStaysNear(s, if spurious then ProducerRetry else ProducerStep);
        pushed, oldHead := PushForPublish(requeue, last, oldHead, spurious, resume);
        ResumeParts(p.resume);
        sure := true;
      }
    }

    /** Resuming the first one that is due, after another pause. */
    method ResumeNext(waiter: Waiter, sequence: Word, ghost done: seq<Id>, ghost n: nat) returns (ghost left: nat, next: Waiter?)
      requires Valid() && Near(s) && s.producer == AfterResume(ToResume(s.producer)) && sequence == Wrap(s.published)
      requires IsList(ops, waiter, ToResume(s.producer)) && ToResume(s.producer) != []
      modifies this, ops.Values
      ensures Valid() && Near(s) && s.producer == AfterResume(ToResume(s.producer)) && s.published == old(s.published) && left <= n
      ensures IsList(ops, next, ToResume(s.producer)) && old(ToResume(s.producer)) == [waiter.id] + ToResume(s.producer)
      ensures left == n ==> s.list == old(s.list)
      ensures left == n ==> (old(ReleasedWith(s, done, s.published)) ==> ReleasedWith(s, done + [waiter.id], s.published))
      ensures forall w :: w in old(ops) ==> w in ops && ops[w] == old(ops[w])
      ensures forall x :: x in ops.Values ==> x in old(ops.Values) || fresh(x)
    {
      hide *;
      ListParts(ops, waiter, ToResume(s.producer));
      ResumeParts(ToResume(s.producer));
      var spurious;
      left, spurious := ProducerPause(n, null, null, waiter);
      Open();
      RestOfList(ops, waiter, s.producer.resume);
      ResumeApplies(s);
      ProducerStaysNear(s, ProducerStep);
      ResumeParts(s.producer.resume);
      ResumeParts(s.producer.resume[1..]);
      ghost var before := s;
      var continued;
      next, continued := ResumeForPublish(waiter, sequence);
      if left == n && ReleasedWith(before, done, before.published) {
        OneMoreReleased(before, done, waiter.id, s);
      }
    }

    /** Resuming those that are due. */
    method ResumeAll(waitersToResume: Waiter?, sequence: Word, ghost n: nat) returns (ghost left: nat)
      requires Valid() && Near(s) && s.producer == AfterResume(ToResume(s.producer)) && sequence == Wrap(s.published)
      requires IsList(ops, waitersToResume, ToResume(s.producer))
      modifies this, ops.Values
      ensures Valid() && s.producer.Idle? && s.published == old(s.published) && left <= n
      ensures left == n ==> s.list == old(s.list) && ReleasedWith(s, old(ToResume(s.producer)), s.published)
      ensures forall w :: w in old(ops) ==> w in ops && ops[w] == old(ops[w])
      ensures forall x :: x in ops.Values ==> x in old(ops.Values) || fresh(x)
    {
      hide *;
      ghost var due: seq<Id>, done: seq<Id> := ToResume(s.producer), [];
      NoneReleased(s);
      var resume := waitersToResume;
      left := n;
      while resume != null
        invariant Valid() && Near(s) && s.producer == AfterResume(ToResume(s.producer)) && s.published == old(s.published) && left <= n
        invariant IsList(ops, resume, ToResume(s.producer))
        invariant forall w :: w in old(ops) ==> w in ops && ops[w] == old(ops[w])
        invariant forall x :: x in ops.Values ==> x in old(ops.Values) || fresh(x)
        invariant left == n ==> s.list == old(s.list) && ReleasedWith(s, done, s.published) && due == done + ToResume(s.producer)
        decreases |ToResume(s.producer)|
      {
        ListParts(ops, resume, ToResume(s.producer));
        ghost var w := resume.id;
        left, resume := ResumeNext(resume, sequence, done, left);
        done := done + [w];
      }
      ListParts(ops, resume, ToResume(s.producer));
      ResumeParts(ToResume(s.producer));
      assert left == n ==> due == done;
    }

    lemma ValidIsReachable()
      requires Valid()
      ensures Reachable(s)
    {
    }

    /** `add_awaiter`, whatever others do meanwhile: it ends with nobody to put back, and with everybody it took
        and found due resumed. */
    method AddAwaiter(ghost id: Id, op: Waiter, ghost n: nat)
      requires Valid() && Near(s) && AdderIn(s.adders, id).AddPush? && op.target == Wrap(AdderIn(s.adders, id).target)
      requires IsOpenList(ops, op, op, AdderIn(s.adders, id).requeue) && AdderIn(s.adders, id).resume == []
      modifies this, ops.Values
      ensures Valid() && Near(s) && AdderIn(s.adders, id).AddReady?
      ensures forall w :: w in old(ops) ==> w in ops && ops[w] == old(ops[w])
      ensures forall x :: x in ops.Values ==> x in old(ops.Values) || fresh(x)
    {
      hide *;
      var requeue: Waiter?, requeueLast: Waiter?, resume: Waiter?, resumeLast: Waiter? := op, op, null, null;
      var targetSequence, lastKnownPublished := op.target, 0;
      ghost var left := n;
      EmptyIsOpen(ops);
      while requeue != null
        invariant Valid() && Near(s)
        invariant forall w :: w in old(ops) ==> w in ops && ops[w] == old(ops[w])
        invariant forall x :: x in ops.Values ==> x in old(ops.Values) || fresh(x)
        invariant requeue != null ==>
                    && AdderIn(s.adders, id).AddPush? && targetSequence == Wrap(AdderIn(s.adders, id).target)
                    && IsOpenList(ops, requeue, requeueLast, AdderIn(s.adders, id).requeue)
                    && IsOpenList(ops, resume, resumeLast, AdderIn(s.adders, id).resume)
        invariant requeue == null ==> IsReleasing(ops, AdderIn(s.adders, id), resume, lastKnownPublished)
        decreases requeue != null, left, Rank(s, id)
      {
        RankIs(s, id);
        left := PushWaiters(id, requeue, requeueLast, resume, resumeLast, left);
        var again;
        left, lastKnownPublished, again := CheckPublished(id, targetSequence, resume, resumeLast, left);
        if !again {
          requeue := null;
        } else {
          left, requeue, requeueLast, targetSequence, resume, resumeLast := TakeAgain(id, lastKnownPublished, resume, resumeLast, left);
          RankIs(s, id);
        }
      }
      ResumeWaiters(id, resume, lastKnownPublished, left);
    }

    /** The loop that pushes the waiters of this round. */
    method PushWaiters(ghost id: Id, requeue: Waiter, requeueLast: Waiter?, ghost resume: Waiter?, ghost resumeLast: Waiter?,
                       ghost n: nat)
      returns (ghost left: nat)
      requires Valid() && Near(s) && AdderIn(s.adders, id).AddPush?
      requires IsOpenList(ops, requeue, requeueLast, AdderIn(s.adders, id).requeue)
      requires IsOpenList(ops, resume, resumeLast, AdderIn(s.adders, id).resume)
      modifies this, ops.Values
      ensures Valid() && Near(s) && left <= n && (left == n ==> s.published == old(s.published))
      ensures AdderIn(s.adders, id) == AddLoad(old(AdderIn(s.adders, id)).target, old(AdderIn(s.adders, id)).resume)
      ensures IsOpenList(ops, resume, resumeLast, AdderIn(s.adders, id).resume)
      ensures forall w :: w in old(ops) ==> w in ops && ops[w] == old(ops[w])
      ensures forall x :: x in ops.Values ==> x in old(ops.Values) || fresh(x)
    {
      hide *;
      ghost var d := AdderIn(s.adders, id);
      PartsOf(d);
      LastOfOpen(ops, requeue, requeueLast, d.requeue);
      var last: Waiter := requeueLast;
      AddHeadApplies(s, id);
      ValidIsReachable();
      AdderStaysNear(s, AdderStep(id));
      var oldHead := LoadHeadForAdd(id);
      var pushed, spurious := false, false;
      left := n;
      while !pushed
        invariant Valid() && Near(s) && left <= n && (left == n ==> s.published == old(s.published))
        invariant forall w :: w in old(ops) ==> w in ops && ops[w] == old(ops[w])
        invariant forall x :: x in ops.Values ==> x in old(ops.Values) || fresh(x)
        invariant last in ops.Values && IsOpenList(ops, resume, resumeLast, d.resume)
        invariant AdderIn(s.adders, id) == if pushed then AddLoad(d.target, d.resume)
                                           else AddCas(d.requeue, d.target, d.resume, TopOf(s.list))
        invariant !pushed ==> Stands(ops, oldHead, TopOf(s.list)) && IsOpenList(ops, requeue, last, d.requeue)
        decreases !pushed, left
      {
        ghost var known, seen := ops, TopOf(s.list);
        PartsOf(AdderIn(s.adders, id));
        left, spurious := AdderPause(id, left, requeue, last, resume, resumeLast);
        StandsOn(known, ops, oldHead, seen);
        AddPushApplies(s, id, spurious);
        ValidIsReachable();
      AdderStaysNear(s, if spurious then AdderRetry(id) else AdderStep(id));
        pushed, oldHead := PushForAdd(id, requeue, last, oldHead, spurious, resume, resumeLast);
      }
    }

    /** The look at the published number after another pause. */
    method CheckPublished(ghost id: Id, targetSequence: Word, resume: Waiter?, resumeLast: Waiter?, ghost n: nat)
      returns (ghost left: nat, lastKnownPublished: Word, again: bool)
      requires Valid() && Near(s) && AdderIn(s.adders, id).AddLoad? && targetSequence == Wrap(AdderIn(s.adders, id).target)
      requires IsOpenList(ops, resume, resumeLast, AdderIn(s.adders, id).resume)
      modifies this, ops.Values
      ensures Valid() && Near(s) && left <= n && (left == n ==> s.published == old(s.published))
      ensures again ==>
                && AdderIn(s.adders, id) == AddTake(s.published, old(AdderIn(s.adders, id)).resume)
                && lastKnownPublished == Wrap(s.published) && s.published >= old(AdderIn(s.adders, id)).target
                && IsOpenList(ops, resume, resumeLast, AdderIn(s.adders, id).resume)
      ensures !again ==> IsReleasing(ops, AdderIn(s.adders, id), resume, lastKnownPublished)
      ensures forall w :: w in old(ops) ==> w in ops && ops[w] == old(ops[w])
      ensures forall x :: x in ops.Values ==> x in old(ops.Values) || fresh(x)
    {
      hide *;
      ghost var d := AdderIn(s.adders, id);
      PartsOf(d);
      var spurious;
      left, spurious := AdderPause(id, n, null, null, resume, resumeLast);
      LastIsOperation(ops, resume, resumeLast, d.resume);
      AddLoadApplies(s, id);
      ValidIsReachable();
      AdderStaysNear(s, AdderStep(id));
      lastKnownPublished, again := LoadForAdd(id, targetSequence, resume, resumeLast);
      PartsOf(AdderIn(s.adders, id));
      if !again {
        Releases(ops, s.published, d.resume, resume, lastKnownPublished);
      }
    }

    /** Taking the list again, after another pause. */
    method TakeAgain(ghost id: Id, lastKnownPublished: Word, resume: Waiter?, resumeLast: Waiter?, ghost n: nat)
      returns (ghost left: nat, requeue: Waiter?, requeueLast: Waiter?, targetSequence: Word, resume': Waiter?, resumeLast': Waiter?)
      requires Valid() && Near(s) && AdderIn(s.adders, id).AddTake? && lastKnownPublished == Wrap(AdderIn(s.adders, id).known)
      requires IsOpenList(ops, resume, resumeLast, AdderIn(s.adders, id).resume)
      modifies this, ops.Values
      ensures Valid() && Near(s) && left <= n && (left == n ==> s.published == old(s.published))
      ensures requeue != null ==>
                && AdderIn(s.adders, id).AddPush? && targetSequence == Wrap(AdderIn(s.adders, id).target)
                && AdderIn(s.adders, id).target > old(AdderIn(s.adders, id)).known
                && IsOpenList(ops, requeue, requeueLast, AdderIn(s.adders, id).requeue)
                && IsOpenList(ops, resume', resumeLast', AdderIn(s.adders, id).resume)
      ensures requeue == null ==> IsReleasing(ops, AdderIn(s.adders, id), resume', lastKnownPublished)
      ensures forall w :: w in old(ops) ==> w in ops && ops[w] == old(ops[w])
      ensures forall x :: x in ops.Values ==> x in old(ops.Values) || fresh(x)
    {
      hide *;
      ghost var d := AdderIn(s.adders, id);
      PartsOf(d);
      var spurious;
      left, spurious := AdderPause(id, n, null, null, resume, resumeLast);
      AddTakeApplies(s, id);
      ValidIsReachable();
      AdderStaysNear(s, AdderStep(id));
      TargetsAreAhead(s.list, s.targets, d.known);
      NodesAreOperations(ops, s.list + d.resume);
      requeue, requeueLast, targetSequence, resume', resumeLast' := ExchangeForAdd(id, lastKnownPublished, resume, resumeLast);
      PartsOf(AdderIn(s.adders, id));
      if requeue == null {
        Releases(ops, d.known, PutAside(AdderIn(s.adders, id)), resume', lastKnownPublished);
      }
    }

    /** Resuming what was put aside. */
    method ResumeWaiters(ghost id: Id, waitersToResume: Waiter?, lastKnownPublished: Word, ghost n: nat)
      requires Valid() && Near(s) && IsReleasing(ops, AdderIn(s.adders, id), waitersToResume, lastKnownPublished)
      modifies this, ops.Values
      ensures Valid() && Near(s) && AdderIn(s.adders, id).AddReady?
      ensures forall w :: w in old(ops) ==> w in ops && ops[w] == old(ops[w])
      ensures forall x :: x in ops.Values ==> x in old(ops.Values) || fresh(x)
    {
      hide *;
      var resume := waitersToResume;
      ghost var left := n;
      ReleasingParts(ops, AdderIn(s.adders, id), resume, lastKnownPublished);
      while resume != null
        invariant Valid() && Near(s) && IsReleasing(ops, AdderIn(s.adders, id), resume, lastKnownPublished)
        invariant resume == null ==> AdderIn(s.adders, id).AddReady?
        invariant forall w :: w in old(ops) ==> w in ops && ops[w] == old(ops[w])
        invariant forall x :: x in ops.Values ==> x in old(ops.Values) || fresh(x)
        decreases |PutAside(AdderIn(s.adders, id))|
      {
        ReleasingParts(ops, AdderIn(s.adders, id), resume, lastKnownPublished);
        var spurious;
        left, spurious := AdderPause(id, left, null, null, resume, null);
        Open();
        RestOfList(ops, resume, AdderIn(s.adders, id).resume);
        AddResumeApplies(s, id);
        ValidIsReachable();
      AdderStaysNear(s, AdderStep(id));
        ghost var d := AdderIn(s.adders, id);
        var continued;
        resume, continued := ResumeForAdd(id, resume, lastKnownPublished);
        Releases(ops, d.known, d.resume[1..], resume, lastKnownPublished);
        ReleasingParts(ops, AdderIn(s.adders, id), resume, lastKnownPublished);
      }
    }

    /** `await_suspend`, whatever others do meanwhile. The coroutine suspends iff nobody has resumed it yet. */
    method AwaitSuspend(op: Waiter, ghost n: nat) returns (suspended: bool)
      requires Valid() && Near(s) && op.id in ops && ops[op.id] == op
      requires AdderIn(s.adders, op.id).AddPush? && op.target == Wrap(AdderIn(s.adders, op.id).target)
      requires IsOpenList(ops, op, op, AdderIn(s.adders, op.id).requeue) && AdderIn(s.adders, op.id).resume == []
      modifies this, ops.Values
      ensures Valid() && AdderIn(s.adders, op.id).Left? && (suspended <==> s.continued[op.id] == 0)
    {
      hide *;
      AddAwaiter(op.id, op, n);
      ghost var left;
      var spurious;
      left, spurious := AdderPause(op.id, n, null, null, null, null);
      AddReadyApplies(s, op.id);
      suspended := ExchangeReady(op);
    }

    lemma Open()
      requires Valid()
      ensures Reachable(s) && lastPublished == Wrap(s.published)
      ensures Agrees(ops, s.targets, s.known, s.ready) && IsList(ops, awaiters, s.list) && Identified(ops)
    {
    }

    lemma Close()
      requires Reachable(s) && lastPublished == Wrap(s.published)
      requires Agrees(ops, s.targets, s.known, s.ready) && IsList(ops, awaiters, s.list)
      ensures Valid()
    {
    }
  }

  // ---------------------------------------------------------------- between the steps of a call

  /** Waiters that have been resumed and told that `q` was published. */
  ghost predicate ReleasedWith(s: State, ws: seq<Id>, q: int)
  {
    forall w :: w in ws ==> w in s.place && s.place[w].Released? && w in s.known && s.known[w] == q && w in s.ready
  }

  lemma NoneReleased(s: State)
    ensures ReleasedWith(s, [], s.published)
  {
  }

  lemma OneMoreReleased(s: State, done: seq<Id>, w: Id, s': State)
    requires ReleasedWith(s, done, s.published) && s'.published == s.published && w in s'.ready && s.ready <= s'.ready
    requires s'.place == s.place[w := Released] && s'.known == s.known[w := s.published]
    ensures ReleasedWith(s', done + [w], s'.published)
  {
  }

  lemma EmptyHasNoTop()
    ensures TopOf([]) == Empty
  {
  }

  function Requeued(d: Adder): seq<Id>
  {
    match d
    case AddPush(requeue, _, _) => requeue
    case AddCas(requeue, _, _, _) => requeue
    case _ => []
  }

  /** The waiters a thread is about to put back. */
  function RequeueOf(self: Self, s: State): seq<Id>
  {
    match self
    case Producing => if s.producer.PublishRequeue? then s.producer.requeue else []
    case Adding(id) => Requeued(AdderIn(s.adders, id))
  }

  function ResumeOf(self: Self, s: State): seq<Id>
  {
    match self
    case Producing => ToResume(s.producer)
    case Adding(id) => PutAside(AdderIn(s.adders, id))
  }

  lemma OwnLists(self: Self, s: State)
    ensures self.Adding? ==>
              && RequeueOf(self, s) == Requeued(AdderIn(s.adders, self.id))
              && ResumeOf(self, s) == PutAside(AdderIn(s.adders, self.id))
    ensures self.Producing? ==>
              && ResumeOf(self, s) == ToResume(s.producer)
              && (s.producer.PublishRequeue? ==> RequeueOf(self, s) == s.producer.requeue)
  {
  }

  lemma SameAdder(id: Id, s: State, s': State)
    requires SameOwn(Adding(id), s, s')
    ensures AdderIn(s'.adders, id) == AdderIn(s.adders, id)
  {
  }

  lemma PartsOf(d: Adder)
    ensures d.AddPush? || d.AddCas? ==> Requeued(d) == d.requeue
    ensures d.AddPush? || d.AddCas? || d.AddLoad? || d.AddTake? || d.AddResume? ==> PutAside(d) == d.resume
  {
  }

  lemma EmptyIsOpen(ops: map<Id, Waiter>)
    ensures IsOpenList(ops, null, null, [])
  {
  }

  lemma LastOfOpen(ops: map<Id, Waiter>, head: Waiter, last: Waiter?, list: seq<Id>)
    requires IsOpenList(ops, head, last, list)
    ensures last != null && last in ops.Values
  {
    assert list[|list| - 1] in list;
  }

  lemma LastIsOperation(ops: map<Id, Waiter>, head: Waiter?, last: Waiter?, list: seq<Id>)
    requires IsOpenList(ops, head, last, list)
    ensures last != null ==> last in ops.Values
  {
    if list != [] {
      assert list[|list| - 1] in list;
    }
  }

  /** The thread has nobody left to put back, and the null-terminated list of those to resume. */
  ghost predicate IsReleasing(ops: map<Id, Waiter>, d: Adder, resume: Waiter?, lastKnownPublished: Word)
    reads ops.Values`next
  {
    && IsList(ops, resume, PutAside(d))
    && if PutAside(d) == [] then d.AddReady? else d.AddResume? && lastKnownPublished == Wrap(d.known)
  }

  lemma Releases(ops: map<Id, Waiter>, known: int, aside: seq<Id>, resume: Waiter?, lastKnownPublished: Word)
    requires IsList(ops, resume, aside) && lastKnownPublished == Wrap(known)
    ensures IsReleasing(ops, AdderAfterResume(known, aside), resume, lastKnownPublished)
  {
  }

  lemma ReleasingParts(ops: map<Id, Waiter>, d: Adder, resume: Waiter?, lastKnownPublished: Word)
    requires IsReleasing(ops, d, resume, lastKnownPublished)
    ensures IsList(ops, resume, PutAside(d))
    ensures if resume == null then d.AddReady? && PutAside(d) == []
            else d.AddResume? && lastKnownPublished == Wrap(d.known) && PutAside(d) == d.resume && d.resume != []
  {
  }

  lemma SameProducer(s: State, s': State)
    requires SameOwn(Producing, s, s')
    ensures s'.producer == s.producer && s'.published == s.published
  {
  }

  lemma NullStands(ops: map<Id, Waiter>)
    ensures Stands(ops, null, Empty)
  {
  }

  lemma ResumeParts(resume: seq<Id>)
    ensures ToResume(AfterResume(resume)) == resume
    ensures if resume == [] then AfterResume(resume).Idle? else AfterResume(resume) == PublishResume(resume)
    ensures forall requeue: seq<Id>, seen: Top :: ToResume(PublishRequeue(requeue, resume, seen)) == resume
  {
  }

  lemma PublishApplies(s: State, q: int)
    requires Enabled(s, Publish(q))
    ensures var s' := Apply(s, Publish(q)); s'.producer.PublishLoad? && s'.published == q && s'.list == s.list && s'.targets == s.targets
  {
  }

  lemma LoadApplies(s: State)
    requires s.producer.PublishLoad?
    ensures Enabled(s, ProducerStep)
    ensures var s' := Apply(s, ProducerStep);
            s'.published == s.published && s'.producer == if s.list == [] then Idle else PublishTake
  {
  }

  /** The producer brings nothing new into the window but what it publishes. */
  lemma ProducerStaysNear(s: State, a: Action)
    requires Reachable(s) && Near(s) && Enabled(s, a) && (a.ProducerStep? || a.ProducerRetry?)
    ensures Near(Apply(s, a))
  {
    hide *;
    ReachableInv(s);
    WhatIsEnabled(s, a);
    var lo: int := NearWindow(s);
    var s' := Apply(s, a);
    SameMoves(s.adders);
    AnyIsWithin(s, lo, 0);
    if a.ProducerStep? && s.producer.PublishResume? {
      ProducerIsDue(s);
      ResumeApplies(s);
      ReleaseStaysNear(s, 0, s.producer.resume[0], lo, s');
    } else if a.ProducerStep? && s.producer.PublishTake? {
      SharedAreShared(s);
      TakeApplies(s);
      MovingStaysNear(s, 0, s.list, WithProducer, lo, s');
    } else if a.ProducerRetry? || s.producer.PublishRequeue? {
      ProducersAreWithIt(s);
      PushApplies(s, a.ProducerRetry?);
      if s'.place == s.place {
        QuietStaysNear(s, 0, lo, s');
      } else {
        MovingStaysNear(s, 0, s.producer.requeue, Shared, lo, s');
      }
    } else {
      PublisherApplies(s, a);
      LoadApplies(s);
      QuietStaysNear(s, 0, lo, s');
    }
  }

  lemma AnyIsWithin(s: State, lo: int, id: Id)
    requires InWindow(s, lo)
    ensures AdderWithin(lo, AdderIn(s.adders, id))
  {
  }

  lemma RankIs(s: State, id: Id)
    ensures Rank(s, id) == if AdderIn(s.adders, id).AddPush? && s.published < AdderIn(s.adders, id).target then 0 else 1
  {
  }

  /** A thread that adds a waiter brings nothing new into the window. */
  lemma AdderStaysNear(s: State, a: Action)
    requires Reachable(s) && Near(s) && Enabled(s, a) && (a.AdderStep? || a.AdderRetry?)
    ensures Near(Apply(s, a))
  {
    hide *;
    ReachableInv(s);
    WhatIsEnabled(s, a);
    var lo: int := NearWindow(s);
    var id, s', d := a.id, Apply(s, a), AdderIn(s.adders, a.id);
    AdderIsWithin(s, lo, id);
    if a.AdderRetry? || d.AddCas? {
      AddPushApplies(s, id, a.AdderRetry?);
      MovedOne(s.adders, id, s'.adders);
      AddersAreWithIt(s, id);
      if s'.place == s.place {
        QuietStaysNear(s, id, lo, s');
      } else {
        MovingStaysNear(s, id, d.requeue, Shared, lo, s');
      }
    } else if d.AddResume? {
      AdderIsDue(s, id);
      AddResumeApplies(s, id);
      MovedOne(s.adders, id, s'.adders);
      AfterResumeWithin(lo, d.known, d.resume[1..]);
      ReleaseStaysNear(s, id, d.resume[0], lo, s');
    } else if d.AddTake? {
      SharedAreShared(s);
      AddTakeApplies(s, id);
      MovedOne(s.adders, id, s'.adders);
      EarliestWithin(s, lo, d.known);
      AfterResumeWithin(lo, d.known, PutAside(AdderIn(s'.adders, id)));
      MovingStaysNear(s, id, s.list, With(id), lo, s');
    } else {
      QuietWithin(s, lo, id);
      AdderQuietApplies(s, id);
      MovedOne(s.adders, id, s'.adders);
      SameAtRefl(s.place);
      QuietStaysNear(s, id, lo, s');
    }
  }

  lemma NearWindow(s: State) returns (lo: int)
    requires Near(s)
    ensures InWindow(s, lo)
  {
    lo :| InWindow(s, lo);
  }

  /** What the thread knows is in the window, whatever it makes of it. */
  lemma AdderIsWithin(s: State, lo: int, id: Id)
    requires InWindow(s, lo)
    ensures var d := AdderIn(s.adders, id);
            && (d.AddPush? || d.AddCas? || d.AddLoad? ==> Within(lo, d.target))
            && (d.AddTake? || d.AddResume? ==> Within(lo, d.known))
            && (d.AddCas? ==> forall seen :: AdderWithin(lo, d.(seen := seen)) && AdderWithin(lo, AddLoad(d.target, d.resume)))
  {
    assert AdderWithin(lo, AdderIn(s.adders, id));
  }

  lemma AfterResumeWithin(lo: int, known: int, resume: seq<Id>)
    requires Within(lo, known)
    ensures AdderWithin(lo, AdderAfterResume(known, resume))
  {
  }

  lemma QuietWithin(s: State, lo: int, id: Id)
    requires InWindow(s, lo) && (AdderIn(s.adders, id).AddPush? || AdderIn(s.adders, id).AddLoad? || AdderIn(s.adders, id).AddReady?)
    ensures AdderWithin(lo, AdderIn(AdderApply(s, id).adders, id))
    ensures AdderApply(s, id).published == s.published
  {
    assert AdderWithin(lo, AdderIn(s.adders, id));
  }

  lemma TargetsAreAhead(list: seq<Id>, targets: map<Id, int>, known: int)
    ensures var requeue := Ahead(list, targets, known); requeue != [] ==> Earliest(requeue, targets) > known
  {
    var requeue := Ahead(list, targets, known);
    if requeue != [] {
      var t := Earliest(requeue, targets);
      var w :| w in requeue && t == Target(targets, w);
    }
  }

  lemma EarliestWithin(s: State, lo: int, known: int)
    requires InWindow(s, lo) && forall w :: w in s.list ==> w in s.place && s.place[w] == Shared
    ensures var requeue := Ahead(s.list, s.targets, known);
            requeue != [] ==> forall resume :: AdderWithin(lo, AddPush(requeue, Earliest(requeue, s.targets), resume))
  {
    var requeue := Ahead(s.list, s.targets, known);
    if requeue != [] {
      var t := Earliest(requeue, s.targets);
      var w :| w in requeue && t == Target(s.targets, w);
      assert w in s.list;
    }
  }

  lemma QuietStaysNear(s: State, id: Id, lo: int, s': State)
    requires InWindow(s, lo) && s'.published == s.published && s'.targets == s.targets && s'.place == s.place
    requires Moves(s.adders, id, s'.adders) && AdderWithin(lo, AdderIn(s'.adders, id))
    ensures Near(s')
  {
    WindowStays(s, id, lo, s');
  }

  lemma MovingStaysNear(s: State, id: Id, ws: seq<Id>, p: Place, lo: int, s': State)
    requires InWindow(s, lo) && s'.published == s.published && s'.targets == s.targets && s'.place == Placed(s.place, ws, p)
    requires forall w :: w in ws ==> w in s.place && !s.place[w].Released?
    requires Moves(s.adders, id, s'.adders) && AdderWithin(lo, AdderIn(s'.adders, id))
    ensures Near(s')
  {
    WindowStays(s, id, lo, s');
  }

  lemma ReleaseStaysNear(s: State, id: Id, x: Id, lo: int, s': State)
    requires InWindow(s, lo) && s'.published == s.published && s'.targets == s.targets && s'.place == s.place[x := Released]
    requires Moves(s.adders, id, s'.adders) && AdderWithin(lo, AdderIn(s'.adders, id))
    ensures Near(s')
  {
    WindowStays(s, id, lo, s');
  }

  lemma WindowStays(s: State, id: Id, lo: int, s': State)
    requires InWindow(s, lo) && s'.published == s.published && s'.targets == s.targets
    requires forall w :: w in s'.place && !s'.place[w].Released? ==> w in s.place && !s.place[w].Released?
    requires Moves(s.adders, id, s'.adders) && AdderWithin(lo, AdderIn(s'.adders, id))
    ensures Near(s')
  {
    forall w: Id
      ensures AdderWithin(lo, AdderIn(s'.adders, w))
    {
      assert AdderWithin(lo, AdderIn(s.adders, w));
    }
    assert InWindow(s', lo);
  }

  /** Whether the next look at the published number can end the call, when nobody interferes. */
  ghost function Rank(s: State, id: Id): nat
  {
    if AdderIn(s.adders, id).AddPush? && s.published < AdderIn(s.adders, id).target then 0 else 1
  }

  lemma NothingLinked(ops: map<Id, Waiter>)
    ensures NodesOf(ops, []) == [] && Linked(null, []) && IsList(ops, null, []) && Last([]) == null
    ensures forall targets, known :: Ahead([], targets, known) == [] && Reached([], targets, known) == []
  {
  }

  lemma TakeApplies(s: State)
    requires s.producer.PublishTake?
    ensures Enabled(s, ProducerStep)
    ensures var s', requeue, resume := Apply(s, ProducerStep), Ahead(s.list, s.targets, s.published), Reached(s.list, s.targets, s.published);
            && s'.published == s.published && s'.list == [] && s'.targets == s.targets && s'.known == s.known && s'.ready == s.ready
            && (s'.producer.PublishRequeue? <==> requeue != [])
            && s'.producer == (if requeue != [] then PublishRequeue(requeue, resume, Empty) else AfterResume(resume))
            && ToResume(s'.producer) == resume && s'.adders == s.adders && s'.place == Placed(s.place, s.list, WithProducer)
  {
  }

  lemma PushApplies(s: State, spurious: bool)
    requires s.producer.PublishRequeue?
    ensures var a := if spurious then ProducerRetry else ProducerStep;
            var pushed := TopOf(s.list) == s.producer.seen && !spurious;
            && Enabled(s, a)
            && var s' := Apply(s, a);
            && s'.published == s.published && s'.targets == s.targets && s'.known == s.known && s'.ready == s.ready
            && ToResume(s'.producer) == s.producer.resume && (pushed <==> !s'.producer.PublishRequeue?)
            && s'.list == (if pushed then s.producer.requeue + s.list else s.list) && s'.adders == s.adders
            && s'.place == (if pushed then Placed(s.place, s.producer.requeue, Shared) else s.place)
            && s'.producer == if pushed then AfterResume(s.producer.resume) else s.producer.(seen := TopOf(s.list))
  {
  }

  lemma ResumeApplies(s: State)
    requires s.producer.PublishResume? && s.producer.resume != []
    ensures Enabled(s, ProducerStep)
    ensures var s', w := Apply(s, ProducerStep), s.producer.resume[0];
            && s'.published == s.published && s'.list == s.list && s'.targets == s.targets
            && s'.known == s.known[w := s.published] && s'.ready == s.ready + {w}
            && s'.continued == s.continued + (if w in s.ready then multiset{w} else multiset{})
            && ToResume(s'.producer) == s.producer.resume[1..] && s'.producer == AfterResume(s.producer.resume[1..])
            && s'.adders == s.adders && s'.place == s.place[w := Released]
  {
  }

  lemma ProducerIsApart(s: State)
    requires Reachable(s)
    ensures forall w :: w in ProducerPrivate(s.producer) ==> w !in s.list
    ensures s.producer.PublishRequeue? ==> forall w :: w in s.producer.requeue ==> w !in s.list && w !in s.producer.resume
  {
    ReachableInv(s);
    if s.producer.PublishRequeue? {
      PrefixHasOther(s.producer.requeue, s.producer.resume);
      assert forall w :: w in s.producer.requeue ==> w in ProducerPrivate(s.producer);
    }
  }

  /** What an operation just created adds to the program's record. */
  lemma Extend(ops: map<Id, Waiter>, op: Waiter, targets: map<Id, int>, known: map<Id, int>, ready: set<Id>,
               target: int, published: int, head: Waiter?, list: seq<Id>)
    requires Agrees(ops, targets, known, ready) && op.id !in targets && op.id !in ready && IsList(ops, head, list)
    requires op.target == Wrap(target) && op.lastKnownPublished == Wrap(published) && !op.readyToResume
    ensures var ops' := ops[op.id := op];
            && Agrees(ops', targets[op.id := target], known[op.id := published], ready)
            && IsList(ops', head, list) && IsOpenList(ops', op, op, [op.id])
  {
    var ops' := ops[op.id := op];
    assert NodesOf(ops', list) == NodesOf(ops, list);
    assert NodesOf(ops', [op.id]) == [op];
  }

  lemma AwaitApplies(s: State, id: Id, target: int)
    requires Enabled(s, Barrier.Await(id, target)) && Reachable(s)
    ensures id !in s.targets && id !in s.ready
    ensures var s' := Apply(s, Barrier.Await(id, target));
            && s'.published == s.published && s'.list == s.list && s'.ready == s.ready
            && s'.targets == s.targets[id := target] && s'.known == s.known[id := s.published]
            && (AdderIn(s'.adders, id).ReadyAtOnce? <==> s.published >= target)
  {
    hide Reachable;
    NewcomerIsNotReady(s, id);
  }

  lemma NewcomerIsNotReady(s: State, id: Id)
    requires Reachable(s) && id !in s.adders
    ensures id !in s.ready
  {
    ReachableInv(s);
    assert AdderIn(s.adders, id).Absent?;
  }

  lemma AddHeadApplies(s: State, id: Id)
    requires AdderIn(s.adders, id).AddPush?
    ensures Enabled(s, AdderStep(id))
    ensures var s', d := Apply(s, AdderStep(id)), AdderIn(s.adders, id);
            && s'.published == s.published && s'.list == s.list && s'.targets == s.targets
            && s'.known == s.known && s'.ready == s.ready
            && AdderIn(s'.adders, id) == AddCas(d.requeue, d.target, d.resume, TopOf(s.list))
  {
  }

  lemma AddPushApplies(s: State, id: Id, spurious: bool)
    requires AdderIn(s.adders, id).AddCas?
    ensures var a := if spurious then AdderRetry(id) else AdderStep(id);
            var d := AdderIn(s.adders, id);
            var pushed := TopOf(s.list) == d.seen && !spurious;
            && Enabled(s, a)
            && var s' := Apply(s, a);
            && s'.published == s.published && s'.targets == s.targets && s'.known == s.known && s'.ready == s.ready
            && PutAside(AdderIn(s'.adders, id)) == d.resume
            && s'.list == (if pushed then d.requeue + s.list else s.list) && Updated(s.adders, id, s'.adders)
            && s'.place == (if pushed then Placed(s.place, d.requeue, Shared) else s.place)
            && AdderIn(s'.adders, id) == if pushed then AddLoad(d.target, d.resume) else d.(seen := TopOf(s.list))
  {
  }

  lemma AddLoadApplies(s: State, id: Id)
    requires AdderIn(s.adders, id).AddLoad?
    ensures Enabled(s, AdderStep(id))
    ensures var s', d := Apply(s, AdderStep(id)), AdderIn(s.adders, id);
            && s'.published == s.published && s'.list == s.list && s'.targets == s.targets
            && s'.known == s.known && s'.ready == s.ready && PutAside(AdderIn(s'.adders, id)) == d.resume
            && (AdderIn(s'.adders, id).AddTake? <==> s.published >= d.target)
            && AdderIn(s'.adders, id) == if s.published < d.target then AdderAfterResume(s.published, d.resume)
                                         else AddTake(s.published, d.resume)
  {
  }

  lemma AddTakeApplies(s: State, id: Id)
    requires AdderIn(s.adders, id).AddTake?
    ensures Enabled(s, AdderStep(id))
    ensures var s', d := Apply(s, AdderStep(id)), AdderIn(s.adders, id);
            var requeue := Ahead(s.list, s.targets, d.known);
            && s'.published == s.published && s'.list == [] && s'.targets == s.targets
            && s'.known == s.known && s'.ready == s.ready
            && PutAside(AdderIn(s'.adders, id)) == d.resume + Reached(s.list, s.targets, d.known)
            && Updated(s.adders, id, s'.adders) && s'.place == Placed(s.place, s.list, With(id))
            && (AdderIn(s'.adders, id).AddPush? <==> requeue != [])
            && AdderIn(s'.adders, id) == if requeue != [] then AddPush(requeue, Earliest(requeue, s.targets), PutAside(AdderIn(s'.adders, id)))
                                         else AdderAfterResume(d.known, PutAside(AdderIn(s'.adders, id)))
  {
  }

  lemma AddResumeApplies(s: State, id: Id)
    requires AdderIn(s.adders, id).AddResume? && AdderIn(s.adders, id).resume != []
    ensures Enabled(s, AdderStep(id))
    ensures var s', d := Apply(s, AdderStep(id)), AdderIn(s.adders, id);
            var w := d.resume[0];
            && s'.published == s.published && s'.list == s.list && s'.targets == s.targets
            && s'.known == s.known[w := d.known] && s'.ready == s.ready + {w}
            && s'.continued == s.continued + (if w in s.ready then multiset{w} else multiset{})
            && PutAside(AdderIn(s'.adders, id)) == d.resume[1..] && AdderIn(s'.adders, id) == AdderAfterResume(d.known, d.resume[1..])
            && Updated(s.adders, id, s'.adders) && s'.place == s.place[w := Released]
  {
  }

  lemma AddReadyApplies(s: State, id: Id)
    requires AdderIn(s.adders, id).AddReady?
    ensures Enabled(s, AdderStep(id))
    ensures var s' := Apply(s, AdderStep(id));
            && s'.published == s.published && s'.list == s.list && s'.targets == s.targets
            && s'.known == s.known && s'.ready == s.ready + {id}
            && AdderIn(s'.adders, id).Left? && s'.continued == s.continued + (if id in s.ready then multiset{id} else multiset{})
  {
  }

  /** Before its half of the hand-shake a waiter has not continued. */
  lemma HasNotContinued(s: State, id: Id)
    requires Reachable(s) && AdderIn(s.adders, id).AddReady?
    ensures s.continued[id] == 0
  {
    ReachableInv(s);
    NotYetContinued(s, id);
  }

  lemma NotYetContinued(s: State, id: Id)
    requires Inv(s) && AdderIn(s.adders, id).AddReady?
    ensures s.continued[id] == 0
  {
    assert s.continued[id] == if HasContinued(s.adders, s.place, id) then 1 else 0;
  }

  lemma AdderIsApart(s: State, id: Id)
    requires Reachable(s)
    ensures var d := AdderIn(s.adders, id);
            d.AddPush? || d.AddCas? || d.AddLoad? || d.AddTake? || d.AddResume? ==> forall w :: w in d.resume ==> w !in s.list
    ensures var d := AdderIn(s.adders, id);
            d.AddPush? || d.AddCas? ==> forall w :: w in d.requeue ==> w !in s.list && w !in d.resume
  {
    ReachableInv(s);
    var d := AdderIn(s.adders, id);
    assert Holds(Private(d), s.place, With(id));
    assert forall w :: w in PutAside(d) ==> w in Private(d);
    if d.AddPush? || d.AddCas? {
      PrefixHasOther(d.requeue, d.resume);
      assert forall w :: w in d.requeue ==> w in Private(d);
    }
  }

  /** The word the splitting loop computes is the earliest target of the waiters to put back. */
  lemma EarliestAgrees(ops: map<Id, Waiter>, s: State, list: seq<Id>, known: int, targetSequence: Word)
    requires Agrees(ops, s.targets, s.known, s.ready) && (forall w :: w in list ==> w in ops)
    requires AllComparable(list, s.targets, known) && Ahead(list, s.targets, known) != []
    requires var nodes := NodesOf(ops, Ahead(list, s.targets, known));
             && (forall x :: x in nodes ==> Difference(targetSequence, Wrap(known)) <= Difference(x.target, Wrap(known)))
             && exists x :: x in nodes && x.target == targetSequence
    ensures targetSequence == Wrap(Earliest(Ahead(list, s.targets, known), s.targets))
  {
    hide *;
    var waiting := Ahead(list, s.targets, known);
    var nodes := NodesOf(ops, waiting);
    var x :| x in nodes && x.target == targetSequence;
    var i :| 0 <= i < |nodes| && nodes[i] == x;
    EarliestHasIndex(waiting, s.targets, i);
    var j :| 0 <= j < |waiting| && Target(s.targets, waiting[j]) == Earliest(waiting, s.targets);
    assert nodes[j] in nodes;
    WaitingTarget(ops, s, list, known, i);
    WaitingTarget(ops, s, list, known, j);
  }

  lemma EarliestHasIndex(waiting: seq<Id>, targets: map<Id, int>, i: nat)
    requires i < |waiting|
    ensures Earliest(waiting, targets) <= Target(targets, waiting[i])
    ensures exists j :: 0 <= j < |waiting| && Target(targets, waiting[j]) == Earliest(waiting, targets)
  {
    hide Earliest;
    assert waiting[i] in waiting;
    var w :| w in waiting && Earliest(waiting, targets) == Target(targets, w);
  }

  lemma WaitingTarget(ops: map<Id, Waiter>, s: State, list: seq<Id>, known: int, i: nat)
    requires Agrees(ops, s.targets, s.known, s.ready) && (forall w :: w in list ==> w in ops)
    requires AllComparable(list, s.targets, known) && i < |Ahead(list, s.targets, known)|
    ensures var w, node := Ahead(list, s.targets, known)[i], NodesOf(ops, Ahead(list, s.targets, known))[i];
            && node.target == Wrap(Target(s.targets, w))
            && Difference(node.target, Wrap(known)) == Target(s.targets, w) - known
  {
    var w := Ahead(list, s.targets, known)[i];
    assert w in Ahead(list, s.targets, known);
    ComparisonsAreTrue(Target(s.targets, w), known);
  }
}
