/** `sequence_barrier` as a state machine: one producer, any number of concurrent waiters. An action is one
    atomic operation on `m_lastPublished`, on the shared list head or on a waiter's ready flag. Sequence
    numbers are unbounded here; `SequenceBarriers` compares wrapping words. */
module Barrier {
  import opened Lists

  /** A waiter, known by its call of `await_suspend`. */
  type Id = nat

  /** Where a waiter is inside `await_suspend`; the lists are private to its thread. */
  datatype Adder =
    | Absent
    /** The constructor's read of the barrier already satisfied the target: no suspension. */
    | ReadyAtOnce(known: int)
    /** About to push `requeue`, whose earliest target is `target`; `resume` is put aside. */
    | AddPush(requeue: seq<Id>, target: int, resume: seq<Id>)
    /** The same, with the value its compare-and-swap expects. */
    | AddCas(requeue: seq<Id>, target: int, resume: seq<Id>, seen: Top)
    | AddLoad(target: int, resume: seq<Id>)
    | AddTake(known: int, resume: seq<Id>)
    | AddResume(known: int, resume: seq<Id>)
    | AddReady
    | Left

  datatype Producer =
    | Idle
    | PublishLoad
    | PublishTake
    | PublishRequeue(requeue: seq<Id>, resume: seq<Id>, seen: Top)
    | PublishResume(resume: seq<Id>)

  /** Where a waiter is linked. */
  datatype Place = Shared | WithProducer | With(adder: Id) | Released

  datatype State = State(
    published: int, list: seq<Id>, producer: Producer, adders: map<Id, Adder>, targets: map<Id, int>,
    known: map<Id, int>, ready: set<Id>,
    // what follows only records what happened
    place: map<Id, Place>, continued: multiset<Id>)

  /** The retries are compare-and-swaps that fail for no reason. */
  datatype Action =
    | Publish(sequence: int)
    | ProducerStep
    | ProducerRetry
    | Await(id: Id, target: int)
    | AdderStep(id: Id)
    | AdderRetry(id: Id)

  function Init(initialSequence: int): State
  {
    State(initialSequence, [], Idle, map[], map[], map[], {}, map[], multiset{})
  }

  function AdderIn(adders: map<Id, Adder>, id: Id): Adder
  {
    if id in adders then adders[id] else Absent
  }

  function Target(targets: map<Id, int>, w: Id): int
  {
    if w in targets then targets[w] else 0
  }

  predicate Enabled(s: State, a: Action)
  {
    match a
    case Publish(sequence) => s.producer.Idle? && sequence >= s.published
    case ProducerStep => !s.producer.Idle?
    case ProducerRetry => s.producer.PublishRequeue?
    case Await(id, _) => id !in s.adders && id !in s.targets
    case AdderStep(id) =>
      var d := AdderIn(s.adders, id);
      !d.Absent? && !d.ReadyAtOnce? && !d.Left?
    case AdderRetry(id) => AdderIn(s.adders, id).AddCas?
  }

  /** The waiters of a list whose target is still ahead of `known`, in order. */
  function Ahead(list: seq<Id>, targets: map<Id, int>, known: int): (r: seq<Id>)
    ensures forall w :: w in r <==> w in list && Target(targets, w) > known
  {
    if list == [] then []
    else if Target(targets, list[0]) > known then [list[0]] + Ahead(list[1..], targets, known)
    else Ahead(list[1..], targets, known)
  }

  /** The waiters of a list whose target `known` has reached, in order. */
  function Reached(list: seq<Id>, targets: map<Id, int>, known: int): (r: seq<Id>)
    ensures forall w :: w in r <==> w in list && Target(targets, w) <= known
  {
    if list == [] then []
    else if Target(targets, list[0]) <= known then [list[0]] + Reached(list[1..], targets, known)
    else Reached(list[1..], targets, known)
  }

  /** The earliest target in a list. */
  function Earliest(list: seq<Id>, targets: map<Id, int>): (t: int)
    requires list != []
    ensures forall w :: w in list ==> t <= Target(targets, w)
    ensures exists w :: w in list && t == Target(targets, w)
  {
    var first := Target(targets, list[0]);
    assert list[0] in list;
    if |list| == 1 then first
    else
      var rest := Earliest(list[1..], targets);
      assert forall w :: w in list ==> w == list[0] || w in list[1..];
      if first < rest then first else rest
  }

  /** Every waiter of `ws` is now linked at `p`. */
  function Placed(place: map<Id, Place>, ws: seq<Id>, p: Place): (r: map<Id, Place>)
    ensures r.Keys == place.Keys + (set w | w in ws)
    ensures forall w :: w in r ==> r[w] == if w in ws then p else place[w]
  {
    map w | w in place.Keys + (set x | x in ws) :: if w in ws then p else place[w]
  }

  /** `resume()` on one waiter: store the published number, then one half of the ready hand-shake. */
  function Resume(s: State, w: Id, published: int): State
  {
    s.(known := s.known[w := published], ready := s.ready + {w},
       continued := if w in s.ready then s.continued + multiset{w} else s.continued,
       place := s.place[w := Released])
  }

  function ProducerApply(s: State): State
  {
    match s.producer
    case Idle => s
    case PublishLoad => s.(producer := if s.list == [] then Idle else PublishTake)
    case PublishTake =>
      var requeue, resume := Ahead(s.list, s.targets, s.published), Reached(s.list, s.targets, s.published);
      s.(list := [], place := Placed(s.place, s.list, WithProducer),
         producer := if requeue != [] then PublishRequeue(requeue, resume, Empty) else AfterResume(resume))
    case PublishRequeue(requeue, resume, seen) =>
      if TopOf(s.list) != seen then ProducerRetries(s)
      else s.(list := requeue + s.list, place := Placed(s.place, requeue, Shared), producer := AfterResume(resume))
    case PublishResume(resume) =>
      if resume == [] then s.(producer := Idle)
      else Resume(s, resume[0], s.published).(producer := AfterResume(resume[1..]))
  }

  function ProducerRetries(s: State): State
    requires s.producer.PublishRequeue?
  {
    s.(producer := s.producer.(seen := TopOf(s.list)))
  }

  function AfterResume(resume: seq<Id>): Producer
  {
    if resume == [] then Idle else PublishResume(resume)
  }

  function AdderAfterResume(known: int, resume: seq<Id>): Adder
  {
    if resume == [] then AddReady else AddResume(known, resume)
  }

  function Go(s: State, id: Id, next: Adder): State
  {
    s.(adders := s.adders[id := next])
  }

  function AdderRetries(s: State, id: Id): State
    requires AdderIn(s.adders, id).AddCas?
  {
    Go(s, id, AdderIn(s.adders, id).(seen := TopOf(s.list)))
  }

  function AdderApply(s: State, id: Id): State
  {
    match AdderIn(s.adders, id)
    case AddPush(requeue, target, resume) => Go(s, id, AddCas(requeue, target, resume, TopOf(s.list)))
    case AddCas(requeue, target, resume, seen) =>
      if TopOf(s.list) != seen then AdderRetries(s, id)
      else Go(s.(list := requeue + s.list, place := Placed(s.place, requeue, Shared)), id, AddLoad(target, resume))
    case AddLoad(target, resume) =>
      if s.published < target then Go(s, id, AdderAfterResume(s.published, resume))
      else Go(s, id, AddTake(s.published, resume))
    case AddTake(known, resume) =>
      var requeue, resume' := Ahead(s.list, s.targets, known), resume + Reached(s.list, s.targets, known);
      Go(s.(list := [], place := Placed(s.place, s.list, With(id))), id,
         if requeue != [] then AddPush(requeue, Earliest(requeue, s.targets), resume')
         else AdderAfterResume(known, resume'))
    case AddResume(known, resume) =>
      if resume == [] then Go(s, id, AddReady)
      else Go(Resume(s, resume[0], known), id, AdderAfterResume(known, resume[1..]))
    case AddReady =>
      Go(s.(ready := s.ready + {id},
            continued := if id in s.ready then s.continued + multiset{id} else s.continued), id, Left)
    case _ => s
  }

  function Apply(s: State, a: Action): State
    requires Enabled(s, a)
  {
    match a
    case Publish(sequence) => s.(published := sequence, producer := PublishLoad)
    case ProducerStep => ProducerApply(s)
    case ProducerRetry => ProducerRetries(s)
    case Await(id, target) =>
      var s1 := s.(targets := s.targets[id := target], known := s.known[id := s.published]);
      if s.published < target
      then Go(s1.(place := s.place[id := With(id)]), id, AddPush([id], target, []))
      else Go(s1.(continued := s.continued + multiset{id}), id, ReadyAtOnce(s.published))
    case AdderStep(id) => AdderApply(s, id)
    case AdderRetry(id) => AdderRetries(s, id)
  }

  // ---------------------------------------------------------------- the invariant

  function Private(d: Adder): seq<Id>
  {
    match d
    case AddPush(requeue, _, resume) => requeue + resume
    case AddCas(requeue, _, resume, _) => requeue + resume
    case AddLoad(_, resume) => resume
    case AddTake(_, resume) => resume
    case AddResume(_, resume) => resume
    case _ => []
  }

  function ProducerPrivate(p: Producer): seq<Id>
  {
    match p
    case PublishRequeue(requeue, resume, _) => requeue + resume
    case PublishResume(resume) => resume
    case _ => []
  }

  /** A list holds exactly the waiters recorded to be there, each once. */
  ghost predicate Holds(list: seq<Id>, place: map<Id, Place>, p: Place)
  {
    NoDuplicates(list) && forall w: Id :: w in list <==> w in place && place[w] == p
  }

  /** Every waiter is in exactly one place: the shared list, one thread's private list, or released. */
  ghost predicate PlacesOk(list: seq<Id>, producer: Producer, adders: map<Id, Adder>, place: map<Id, Place>)
  {
    && Holds(list, place, Shared) && Holds(ProducerPrivate(producer), place, WithProducer)
    && (forall id: Id :: Holds(Private(AdderIn(adders, id)), place, With(id)))
  }

  predicate Waits(d: Adder)
  {
    !d.Absent? && !d.ReadyAtOnce?
  }

  ghost predicate KnownOk(adders: map<Id, Adder>, targets: set<Id>, place: set<Id>)
  {
    && (forall w: Id :: w in place <==> Waits(AdderIn(adders, w)))
    && (forall w: Id :: w in targets <==> !AdderIn(adders, w).Absent?)
  }

  /** The ready flag is set by whoever comes first, and the second one continues the waiter. */
  ghost predicate HandshakeOk(adders: map<Id, Adder>, place: map<Id, Place>, ready: set<Id>, continued: multiset<Id>)
  {
    && (forall w: Id :: w in ready <==> AdderIn(adders, w).Left? || (w in place && place[w].Released?))
    && (forall w: Id :: continued[w] == if HasContinued(adders, place, w) then 1 else 0)
  }

  predicate HasContinued(adders: map<Id, Adder>, place: map<Id, Place>, w: Id)
  {
    AdderIn(adders, w).ReadyAtOnce? || (AdderIn(adders, w).Left? && w in place && place[w].Released?)
  }

  /** What the private lists say about targets, relative to what has been published. */
  ghost predicate TargetsOk(published: int, adders: map<Id, Adder>, targets: map<Id, int>)
  {
    forall id: Id :: AdderTargetsOk(published, AdderIn(adders, id), targets)
  }

  ghost predicate AllReached(list: seq<Id>, targets: map<Id, int>, known: int)
  {
    forall w: Id :: w in list ==> Target(targets, w) <= known
  }

  ghost predicate AllAhead(list: seq<Id>, targets: map<Id, int>, known: int)
  {
    forall w: Id :: w in list ==> Target(targets, w) > known
  }

  ghost predicate PushTargetsOk(published: int, requeue: seq<Id>, target: int, resume: seq<Id>, targets: map<Id, int>)
  {
    && requeue != [] && AllReached(resume, targets, published)
    && forall w: Id :: w in requeue ==> target <= Target(targets, w)
  }

  ghost predicate AdderTargetsOk(published: int, d: Adder, targets: map<Id, int>)
  {
    match d
    case AddPush(requeue, target, resume) => PushTargetsOk(published, requeue, target, resume, targets)
    case AddCas(requeue, target, resume, _) => PushTargetsOk(published, requeue, target, resume, targets)
    case AddLoad(_, resume) => AllReached(resume, targets, published)
    case AddTake(known, resume) => known <= published && AllReached(resume, targets, known)
    case AddResume(known, resume) => resume != [] && known <= published && AllReached(resume, targets, known)
    case _ => true
  }

  ghost predicate ProducerTargetsOk(published: int, p: Producer, targets: map<Id, int>)
  {
    match p
    case PublishRequeue(requeue, resume, _) => AllAhead(requeue, targets, published) && AllReached(resume, targets, published)
    case PublishResume(resume) => resume != [] && AllReached(resume, targets, published)
    case _ => true
  }

  /** A released waiter gets a number that does not precede its target and was really published. */
  ghost predicate ValuesOk(published: int, place: map<Id, Place>, targets: map<Id, int>, known: map<Id, int>)
  {
    forall w: Id :: w in place && place[w].Released? ==> w in known && Target(targets, w) <= known[w] <= published
  }

  /** Somebody is bound to take the shared list before going to rest. */
  ghost predicate Covered(published: int, producer: Producer, adders: map<Id, Adder>)
  {
    producer.PublishLoad? || producer.PublishTake? || exists id: Id :: Covers(published, AdderIn(adders, id))
  }

  predicate Covers(published: int, d: Adder)
  {
    d.AddTake? || (d.AddLoad? && d.target <= published)
  }

  ghost predicate NoLostWakeUp(s: State)
  {
    AllAhead(s.list, s.targets, s.published) || Covered(s.published, s.producer, s.adders)
  }

  ghost predicate Inv(s: State)
  {
    && PlacesOk(s.list, s.producer, s.adders, s.place)
    && KnownOk(s.adders, s.targets.Keys, s.place.Keys)
    && HandshakeOk(s.adders, s.place, s.ready, s.continued)
    && TargetsOk(s.published, s.adders, s.targets) && ProducerTargetsOk(s.published, s.producer, s.targets)
    && ValuesOk(s.published, s.place, s.targets, s.known)
    && NoLostWakeUp(s)
  }

  lemma InitInv(initialSequence: int)
    ensures Inv(Init(initialSequence))
  {
  }

  // ---------------------------------------------------------------- what one move does to each part

  ghost predicate Moves(adders: map<Id, Adder>, id: Id, adders': map<Id, Adder>)
  {
    forall w: Id :: w != id ==> AdderIn(adders', w) == AdderIn(adders, w)
  }

  /** Nobody has moved to or from `p`. */
  ghost predicate SameAt(place: map<Id, Place>, place': map<Id, Place>, p: Place)
  {
    forall w: Id :: (w in place && place[w] == p) <==> (w in place' && place'[w] == p)
  }

  lemma StillHolds(list: seq<Id>, place: map<Id, Place>, place': map<Id, Place>, p: Place)
    requires Holds(list, place, p) && SameAt(place, place', p)
    ensures Holds(list, place', p)
  {
  }

  lemma OthersStillHold(adders: map<Id, Adder>, id: Id, adders': map<Id, Adder>, place: map<Id, Place>, place': map<Id, Place>)
    requires forall w: Id :: Holds(Private(AdderIn(adders, w)), place, With(w))
    requires Moves(adders, id, adders') && Holds(Private(AdderIn(adders', id)), place', With(id))
    requires forall w: Id :: w != id ==> SameAt(place, place', With(w))
    ensures forall w: Id :: Holds(Private(AdderIn(adders', w)), place', With(w))
  {
    forall w: Id
      ensures Holds(Private(AdderIn(adders', w)), place', With(w))
    {
      if w != id {
        assert Holds(Private(AdderIn(adders, w)), place, With(w));
        StillHolds(Private(AdderIn(adders, w)), place, place', With(w));
      }
    }
  }

  lemma {:induction false} SplitKeepsApart(list: seq<Id>, targets: map<Id, int>, known: int)
    requires NoDuplicates(list)
    ensures NoDuplicates(Ahead(list, targets, known)) && NoDuplicates(Reached(list, targets, known))
  {
    if list != [] {
      PrefixHasOther([list[0]], list[1..]);
      assert [list[0]] + list[1..] == list;
      SplitKeepsApart(list[1..], targets, known);
    }
  }

  /** What taking the whole shared list and splitting it at `known` gives to a thread that holds `resume`. */
  lemma TakeHolds(list: seq<Id>, resume: seq<Id>, targets: map<Id, int>, known: int, place: map<Id, Place>, p: Place)
    requires Holds(list, place, Shared) && Holds(resume, place, p) && p != Shared
    ensures var place' := Placed(place, list, p);
            && Holds(Ahead(list, targets, known) + (resume + Reached(list, targets, known)), place', p)
            && Holds([], place', Shared)
  {
    var ahead, reached := Ahead(list, targets, known), Reached(list, targets, known);
    SplitKeepsApart(list, targets, known);
    JoinNoDuplicates(resume, reached);
    JoinNoDuplicates(ahead, resume + reached);
    assert forall w: Id :: w in ahead + (resume + reached) <==> w in list || w in resume;
  }

  /** What pushing a private requeue list onto the shared list leaves in both. */
  lemma PushHolds(list: seq<Id>, requeue: seq<Id>, resume: seq<Id>, place: map<Id, Place>, p: Place)
    requires Holds(list, place, Shared) && Holds(requeue + resume, place, p) && p != Shared
    ensures var place' := Placed(place, requeue, Shared);
            Holds(requeue + list, place', Shared) && Holds(resume, place', p)
  {
    PrefixHasOther(requeue, resume);
    assert forall w: Id :: w in requeue ==> w in requeue + resume;
    assert forall w: Id :: w in resume ==> w in requeue + resume;
    JoinNoDuplicates(requeue, list);
  }

  /** What releasing the first of a private list leaves. */
  lemma ResumeHolds(resume: seq<Id>, place: map<Id, Place>, place': map<Id, Place>, p: Place)
    requires resume != [] && Holds(resume, place, p) && p != Released && place' == place[resume[0] := Released]
    ensures Holds(resume[1..], place', p)
  {
    var w := resume[0];
    assert w in resume && w !in resume[1..];
    assert forall x: Id :: x in resume <==> x == w || x in resume[1..];
  }

  lemma KnownMove(adders: map<Id, Adder>, id: Id, adders': map<Id, Adder>, targets: set<Id>, place: set<Id>)
    requires KnownOk(adders, targets, place) && Moves(adders, id, adders')
    requires Waits(AdderIn(adders, id)) == Waits(AdderIn(adders', id))
    requires AdderIn(adders, id).Absent? == AdderIn(adders', id).Absent?
    ensures KnownOk(adders', targets, place)
  {
  }

  lemma HandshakeMove(adders: map<Id, Adder>, id: Id, adders': map<Id, Adder>, place: map<Id, Place>,
                      place': map<Id, Place>, ready: set<Id>, continued: multiset<Id>)
    requires HandshakeOk(adders, place, ready, continued) && Moves(adders, id, adders')
    requires AdderIn(adders, id).Left? == AdderIn(adders', id).Left?
    requires AdderIn(adders, id).ReadyAtOnce? == AdderIn(adders', id).ReadyAtOnce?
    requires SameAt(place, place', Released)
    ensures HandshakeOk(adders', place', ready, continued)
  {
    assert forall w: Id :: HasContinued(adders, place, w) == HasContinued(adders', place', w);
  }

  lemma TargetsMove(published: int, adders: map<Id, Adder>, id: Id, adders': map<Id, Adder>, targets: map<Id, int>)
    requires TargetsOk(published, adders, targets) && Moves(adders, id, adders')
    requires AdderTargetsOk(published, AdderIn(adders', id), targets)
    ensures TargetsOk(published, adders', targets)
  {
    forall w: Id
      ensures AdderTargetsOk(published, AdderIn(adders', w), targets)
    {
      assert AdderTargetsOk(published, AdderIn(adders, w), targets);
    }
  }

  lemma ValuesMove(published: int, place: map<Id, Place>, place': map<Id, Place>, targets: map<Id, int>, known: map<Id, int>)
    requires ValuesOk(published, place, targets, known) && SameAt(place, place', Released)
    ensures ValuesOk(published, place', targets, known)
  {
  }

  /** Whoever covered the list and is not the one that moves still covers it. */
  lemma CoverMove(published: int, producer: Producer, adders: map<Id, Adder>, id: Id, adders': map<Id, Adder>)
    requires Moves(adders, id, adders')
    requires Covered(published, producer, adders) && !Covers(published, AdderIn(adders, id))
    ensures Covered(published, producer, adders')
  {
    if !(producer.PublishLoad? || producer.PublishTake?) {
      var w: Id :| Covers(published, AdderIn(adders, w));
      assert Covers(published, AdderIn(adders', w));
    }
  }

  // ---------------------------------------------------------------- the steps of a waiter

  /** The load of the shared list's head, or a compare-and-swap that fails. */
  lemma AdderHeadMove(s: State, id: Id, s': State)
    requires Inv(s) && Moves(s.adders, id, s'.adders) && AdderIn(s'.adders, id).AddCas? && s' == s.(adders := s'.adders)
    requires var d, d' := AdderIn(s.adders, id), AdderIn(s'.adders, id);
             (d.AddPush? || d.AddCas?) && d'.requeue == d.requeue && d'.target == d.target && d'.resume == d.resume
    ensures Inv(s')
  {
    hide KnownOk, HandshakeOk, TargetsOk, ValuesOk, Covered, Holds;
    assert Holds(Private(AdderIn(s.adders, id)), s.place, With(id));
    OthersStillHold(s.adders, id, s'.adders, s.place, s.place);
    KnownMove(s.adders, id, s'.adders, s.targets.Keys, s.place.Keys);
    HandshakeMove(s.adders, id, s'.adders, s.place, s'.place, s.ready, s.continued);
    AdderTargets(s, id);
    TargetsMove(s.published, s.adders, id, s'.adders, s.targets);
    QuietCovers(s, id, s');
  }

  lemma AdderPushMove(s: State, id: Id, s': State)
    requires Inv(s) && AdderIn(s.adders, id).AddCas? && Moves(s.adders, id, s'.adders)
    requires var d := AdderIn(s.adders, id);
             && AdderIn(s'.adders, id) == AddLoad(d.target, d.resume)
             && s' == s.(list := d.requeue + s.list, place := Placed(s.place, d.requeue, Shared), adders := s'.adders)
    ensures Inv(s')
  {
    hide KnownOk, HandshakeOk, TargetsOk, ValuesOk, Covered;
    AdderPushPlaces(s, id, s');
    KnownMove(s.adders, id, s'.adders, s.targets.Keys, s.place.Keys);
    HandshakeMove(s.adders, id, s'.adders, s.place, s'.place, s.ready, s.continued);
    AdderTargets(s, id);
    TargetsMove(s.published, s.adders, id, s'.adders, s.targets);
    ValuesMove(s.published, s.place, s'.place, s.targets, s.known);
    AdderPushCovers(s, id, s');
  }

  lemma AdderTargets(s: State, id: Id)
    requires TargetsOk(s.published, s.adders, s.targets)
    ensures AdderTargetsOk(s.published, AdderIn(s.adders, id), s.targets)
  {
  }

  lemma AdderPushPlaces(s: State, id: Id, s': State)
    requires PlacesOk(s.list, s.producer, s.adders, s.place) && Moves(s.adders, id, s'.adders)
    requires AdderIn(s.adders, id).AddCas? && AdderIn(s'.adders, id).AddLoad? && s'.producer == s.producer
    requires var d := AdderIn(s.adders, id);
             && AdderIn(s'.adders, id).resume == d.resume
             && s'.list == d.requeue + s.list && s'.place == Placed(s.place, d.requeue, Shared)
    ensures PlacesOk(s'.list, s'.producer, s'.adders, s'.place)
    ensures s'.place.Keys == s.place.Keys && SameAt(s.place, s'.place, Released)
  {
    var d := AdderIn(s.adders, id);
    assert Holds(Private(d), s.place, With(id));
    assert forall w: Id :: w in d.requeue ==> w in Private(d);
    PushHolds(s.list, d.requeue, d.resume, s.place, With(id));
    StillHolds(ProducerPrivate(s.producer), s.place, s'.place, WithProducer);
    OthersStillHold(s.adders, id, s'.adders, s.place, s'.place);
  }

  lemma AdderPushCovers(s: State, id: Id, s': State)
    requires NoLostWakeUp(s) && Moves(s.adders, id, s'.adders)
    requires s'.published == s.published && s'.producer == s.producer && s'.targets == s.targets
    requires AdderIn(s.adders, id).AddCas? && AdderTargetsOk(s.published, AdderIn(s.adders, id), s.targets)
    requires var d := AdderIn(s.adders, id);
             AdderIn(s'.adders, id) == AddLoad(d.target, d.resume) && s'.list == d.requeue + s.list
    ensures NoLostWakeUp(s')
  {
    if AdderIn(s.adders, id).target <= s.published {
      assert Covers(s'.published, AdderIn(s'.adders, id));
    } else if Covered(s.published, s.producer, s.adders) {
      CoverMove(s.published, s.producer, s.adders, id, s'.adders);
    }
  }

  /** The read of the published number after the push. A waiter that stops here covers nothing. */
  lemma AdderLoadMove(s: State, id: Id, s': State)
    requires Inv(s) && AdderIn(s.adders, id).AddLoad? && Moves(s.adders, id, s'.adders)
    requires s' == s.(adders := s'.adders)
    requires var d := AdderIn(s.adders, id);
             AdderIn(s'.adders, id) == if s.published < d.target then AdderAfterResume(s.published, d.resume)
                                       else AddTake(s.published, d.resume)
    ensures Inv(s')
  {
    hide KnownOk, HandshakeOk, TargetsOk, ValuesOk, Covered, Holds;
    assert Holds(Private(AdderIn(s.adders, id)), s.place, With(id));
    OthersStillHold(s.adders, id, s'.adders, s.place, s.place);
    KnownMove(s.adders, id, s'.adders, s.targets.Keys, s.place.Keys);
    HandshakeMove(s.adders, id, s'.adders, s.place, s'.place, s.ready, s.continued);
    AdderTargets(s, id);
    TargetsMove(s.published, s.adders, id, s'.adders, s.targets);
    AdderLoadCovers(s, id, s');
  }

  lemma AdderLoadCovers(s: State, id: Id, s': State)
    requires NoLostWakeUp(s) && AdderIn(s.adders, id).AddLoad? && Moves(s.adders, id, s'.adders)
    requires s' == s.(adders := s'.adders)
    requires AdderIn(s'.adders, id).AddTake? <==> AdderIn(s.adders, id).target <= s.published
    ensures NoLostWakeUp(s')
  {
    if AdderIn(s'.adders, id).AddTake? {
      assert Covers(s'.published, AdderIn(s'.adders, id));
    } else if Covered(s.published, s.producer, s.adders) {
      CoverMove(s.published, s.producer, s.adders, id, s'.adders);
    }
  }

  lemma AdderTakeMove(s: State, id: Id, s': State)
    requires Inv(s) && AdderIn(s.adders, id).AddTake? && Moves(s.adders, id, s'.adders)
    requires s' == s.(list := [], place := Placed(s.place, s.list, With(id)), adders := s'.adders)
    requires var d := AdderIn(s.adders, id);
             var requeue, resume := Ahead(s.list, s.targets, d.known), d.resume + Reached(s.list, s.targets, d.known);
             AdderIn(s'.adders, id) == if requeue != [] then AddPush(requeue, Earliest(requeue, s.targets), resume)
                                       else AdderAfterResume(d.known, resume)
    ensures Inv(s')
  {
    hide KnownOk, HandshakeOk, TargetsOk, ValuesOk, Holds, Covered;
    AdderTakePlaces(s, id, s');
    KnownMove(s.adders, id, s'.adders, s.targets.Keys, s.place.Keys);
    HandshakeMove(s.adders, id, s'.adders, s.place, s'.place, s.ready, s.continued);
    AdderTargets(s, id);
    TargetsMove(s.published, s.adders, id, s'.adders, s.targets);
    ValuesMove(s.published, s.place, s'.place, s.targets, s.known);
  }

  lemma AdderTakePlaces(s: State, id: Id, s': State)
    requires PlacesOk(s.list, s.producer, s.adders, s.place) && Moves(s.adders, id, s'.adders)
    requires AdderIn(s.adders, id).AddTake? && s'.list == [] && s'.producer == s.producer
    requires var d := AdderIn(s.adders, id);
             Private(AdderIn(s'.adders, id))
             == Ahead(s.list, s.targets, d.known) + (d.resume + Reached(s.list, s.targets, d.known))
    requires s'.place == Placed(s.place, s.list, With(id))
    ensures PlacesOk(s'.list, s'.producer, s'.adders, s'.place)
    ensures s'.place.Keys == s.place.Keys && SameAt(s.place, s'.place, Released)
  {
    hide Holds, Placed, SameAt, Ahead, Reached;
    var d := AdderIn(s.adders, id);
    assert Holds(Private(d), s.place, With(id));
    TakeHolds(s.list, d.resume, s.targets, d.known, s.place, With(id));
    TakenFromShared(s.list, s.place, With(id));
    StillHolds(ProducerPrivate(s.producer), s.place, s'.place, WithProducer);
    OthersStillHold(s.adders, id, s'.adders, s.place, s'.place);
  }

  /** Taking the shared list concerns nobody who is elsewhere. */
  lemma TakenFromShared(list: seq<Id>, place: map<Id, Place>, p: Place)
    requires Holds(list, place, Shared) && p != Shared
    ensures forall q: Place :: q != Shared && q != p ==> SameAt(place, Placed(place, list, p), q)
    ensures Placed(place, list, p).Keys == place.Keys
  {
  }

  /** What `resume()` on a waiter that is due does to the hand-shake and to the values handed out. */
  lemma ResumeKeeps(s: State, w: Id, known: int, id: Id, adders': map<Id, Adder>)
    requires HandshakeOk(s.adders, s.place, s.ready, s.continued) && Moves(s.adders, id, adders')
    requires ValuesOk(s.published, s.place, s.targets, s.known)
    requires AdderIn(s.adders, id).Left? == AdderIn(adders', id).Left?
    requires AdderIn(s.adders, id).ReadyAtOnce? == AdderIn(adders', id).ReadyAtOnce?
    requires w in s.place && !s.place[w].Released? && !AdderIn(s.adders, w).ReadyAtOnce?
    requires Target(s.targets, w) <= known <= s.published
    ensures var s' := Resume(s, w, known);
            && HandshakeOk(adders', s'.place, s'.ready, s'.continued)
            && ValuesOk(s.published, s'.place, s.targets, s'.known)
  {
    var s' := Resume(s, w, known);
    forall x: Id
      ensures s'.continued[x] == if HasContinued(adders', s'.place, x) then 1 else 0
    {
      assert s.continued[x] == if HasContinued(s.adders, s.place, x) then 1 else 0;
    }
  }

  lemma AdderResumeMove(s: State, id: Id, s': State)
    requires Inv(s) && AdderIn(s.adders, id).AddResume? && Moves(s.adders, id, s'.adders)
    requires var d := AdderIn(s.adders, id);
             && d.resume != []
             && AdderIn(s'.adders, id) == AdderAfterResume(d.known, d.resume[1..])
             && s' == Resume(s, d.resume[0], d.known).(adders := s'.adders)
    ensures Inv(s')
  {
    hide HandshakeOk, TargetsOk, ValuesOk, Holds, Covered;
    var d := AdderIn(s.adders, id);
    var w := d.resume[0];
    assert w in d.resume;
    AdderTargets(s, id);
    TargetsMove(s.published, s.adders, id, s'.adders, s.targets);
    AdderResumePlaces(s, id, s');
    KnownMove(s.adders, id, s'.adders, s.targets.Keys, s.place.Keys);
    ResumeKeeps(s, w, d.known, id, s'.adders);
    QuietCovers(s, id, s');
  }

  lemma AdderResumePlaces(s: State, id: Id, s': State)
    requires PlacesOk(s.list, s.producer, s.adders, s.place) && Moves(s.adders, id, s'.adders)
    requires AdderIn(s.adders, id).AddResume? && s'.list == s.list && s'.producer == s.producer
    requires var d := AdderIn(s.adders, id);
             d.resume != [] && Private(AdderIn(s'.adders, id)) == d.resume[1..]
             && s'.place == s.place[d.resume[0] := Released]
    ensures PlacesOk(s'.list, s'.producer, s'.adders, s'.place)
    ensures var w := AdderIn(s.adders, id).resume[0];
            w in s.place && s.place[w] == With(id) && s'.place.Keys == s.place.Keys
  {
    var d := AdderIn(s.adders, id);
    assert Holds(Private(d), s.place, With(id));
    assert d.resume[0] in Private(d);
    ResumeHolds(d.resume, s.place, s'.place, With(id));
    StillHolds(s.list, s.place, s'.place, Shared);
    StillHolds(ProducerPrivate(s.producer), s.place, s'.place, WithProducer);
    OthersStillHold(s.adders, id, s'.adders, s.place, s'.place);
  }

  /** A waiter that covers nothing moves without touching the shared list. */
  lemma QuietCovers(s: State, id: Id, s': State)
    requires NoLostWakeUp(s) && Moves(s.adders, id, s'.adders) && !Covers(s.published, AdderIn(s.adders, id))
    requires s'.list == s.list && s'.published == s.published && s'.producer == s.producer
    requires forall w :: w in s.list ==> Target(s'.targets, w) == Target(s.targets, w)
    ensures NoLostWakeUp(s')
  {
    if Covered(s.published, s.producer, s.adders) {
      CoverMove(s.published, s.producer, s.adders, id, s'.adders);
    }
  }

  /** The end of `await_suspend`. */
  lemma AdderReadyMove(s: State, id: Id, s': State)
    requires Inv(s) && AdderIn(s.adders, id).AddReady? && Moves(s.adders, id, s'.adders) && AdderIn(s'.adders, id).Left?
    requires s' == s.(ready := s.ready + {id}, adders := s'.adders,
                      continued := if id in s.ready then s.continued + multiset{id} else s.continued)
    ensures Inv(s')
  {
    hide TargetsOk, ValuesOk, Holds, Covered;
    assert Holds(Private(AdderIn(s.adders, id)), s.place, With(id));
    OthersStillHold(s.adders, id, s'.adders, s.place, s.place);
    KnownMove(s.adders, id, s'.adders, s.targets.Keys, s.place.Keys);
    TargetsMove(s.published, s.adders, id, s'.adders, s.targets);
    ReadyKeepsHandshake(s, id, s');
    QuietCovers(s, id, s');
  }

  lemma ReadyKeepsHandshake(s: State, id: Id, s': State)
    requires HandshakeOk(s.adders, s.place, s.ready, s.continued) && id in s.place
    requires AdderIn(s.adders, id).AddReady? && Moves(s.adders, id, s'.adders) && AdderIn(s'.adders, id).Left?
    requires s'.place == s.place && s'.ready == s.ready + {id}
    requires s'.continued == if id in s.ready then s.continued + multiset{id} else s.continued
    ensures HandshakeOk(s'.adders, s'.place, s'.ready, s'.continued)
  {
    forall x: Id
      ensures s'.continued[x] == if HasContinued(s'.adders, s'.place, x) then 1 else 0
    {
      assert s.continued[x] == if HasContinued(s.adders, s.place, x) then 1 else 0;
    }
  }

  lemma AwaitMove(s: State, id: Id, target: int)
    requires Inv(s) && Enabled(s, Await(id, target)) && s.published < target
    ensures Inv(Apply(s, Await(id, target)))
  {
    var s' := Apply(s, Await(id, target));
    hide TargetsOk, ValuesOk, Holds, Covered;
    assert Moves(s.adders, id, s'.adders) && AdderIn(s.adders, id).Absent?;
    assert id !in s.place && id !in s.targets;
    AwaitPlaces(s, id, s');
    AwaitTargets(s, id, target, s');
    NewcomerIsUnlisted(s, id);
    QuietCovers(s, id, s');
    AwaitKnown(s, id, s');
  }

  lemma AwaitKnown(s: State, id: Id, s': State)
    requires HandshakeOk(s.adders, s.place, s.ready, s.continued) && KnownOk(s.adders, s.targets.Keys, s.place.Keys)
    requires Moves(s.adders, id, s'.adders) && AdderIn(s.adders, id).Absent? && AdderIn(s'.adders, id).AddPush?
    requires s'.place == s.place[id := With(id)] && s'.targets.Keys == s.targets.Keys + {id}
    requires s'.ready == s.ready && s'.continued == s.continued
    ensures HandshakeOk(s'.adders, s'.place, s'.ready, s'.continued)
    ensures KnownOk(s'.adders, s'.targets.Keys, s'.place.Keys)
  {
    assert id !in s.place;
    HandshakeMove(s.adders, id, s'.adders, s.place, s'.place, s.ready, s.continued);
  }

  lemma NewcomerIsUnlisted(s: State, id: Id)
    requires PlacesOk(s.list, s.producer, s.adders, s.place) && id !in s.place
    ensures id !in s.list && id !in ProducerPrivate(s.producer)
    ensures forall w: Id :: id !in Private(AdderIn(s.adders, w))
  {
    forall w: Id
      ensures id !in Private(AdderIn(s.adders, w))
    {
      assert Holds(Private(AdderIn(s.adders, w)), s.place, With(w));
    }
  }

  lemma AwaitPlaces(s: State, id: Id, s': State)
    requires PlacesOk(s.list, s.producer, s.adders, s.place) && Moves(s.adders, id, s'.adders)
    requires id !in s.place && s'.list == s.list && s'.producer == s.producer
    requires s'.place == s.place[id := With(id)] && AdderIn(s.adders, id).Absent?
    requires Private(AdderIn(s'.adders, id)) == [id]
    ensures PlacesOk(s'.list, s'.producer, s'.adders, s'.place)
  {
    assert Holds(Private(AdderIn(s.adders, id)), s.place, With(id));
    assert forall w: Id :: !(w in s.place && s.place[w] == With(id));
    StillHolds(s.list, s.place, s'.place, Shared);
    StillHolds(ProducerPrivate(s.producer), s.place, s'.place, WithProducer);
    OthersStillHold(s.adders, id, s'.adders, s.place, s'.place);
  }

  /** A newcomer's target concerns nobody else. */
  lemma AwaitTargets(s: State, id: Id, target: int, s': State)
    requires PlacesOk(s.list, s.producer, s.adders, s.place) && id !in s.place && s.published < target
    requires TargetsOk(s.published, s.adders, s.targets) && Moves(s.adders, id, s'.adders)
    requires ProducerTargetsOk(s.published, s.producer, s.targets)
    requires ValuesOk(s.published, s.place, s.targets, s.known)
    requires s'.targets == s.targets[id := target] && s'.published == s.published && s'.producer == s.producer
    requires s'.known == s.known[id := s.published]
    requires AdderIn(s'.adders, id) == AddPush([id], target, []) || AdderIn(s'.adders, id).ReadyAtOnce?
    requires (s'.place == s.place[id := With(id)]) || s'.place == s.place
    ensures TargetsOk(s'.published, s'.adders, s'.targets)
    ensures ProducerTargetsOk(s'.published, s'.producer, s'.targets)
    ensures ValuesOk(s'.published, s'.place, s'.targets, s'.known)
  {
    NewcomerIsUnlisted(s, id);
    forall w: Id
      ensures AdderTargetsOk(s'.published, AdderIn(s'.adders, w), s'.targets)
    {
      assert AdderTargetsOk(s.published, AdderIn(s.adders, w), s.targets);
      assert forall x: Id :: x in Private(AdderIn(s.adders, w)) ==> Target(s'.targets, x) == Target(s.targets, x);
    }
  }

  /** A target that was already published when the operation was created: no suspension at all. */
  lemma ReadyAtOnceMove(s: State, id: Id, target: int)
    requires Inv(s) && Enabled(s, Await(id, target)) && target <= s.published
    ensures Inv(Apply(s, Await(id, target)))
  {
    var s' := Apply(s, Await(id, target));
    hide TargetsOk, ValuesOk, Holds, Covered;
    assert Moves(s.adders, id, s'.adders) && AdderIn(s.adders, id).Absent?;
    assert id !in s.place && id !in s.targets;
    assert Holds(Private(AdderIn(s.adders, id)), s.place, With(id));
    OthersStillHold(s.adders, id, s'.adders, s.place, s'.place);
    ReadyTargets(s, id, target, s');
    NewcomerIsUnlisted(s, id);
    QuietCovers(s, id, s');
    ReadyKnown(s, id, s');
  }

  lemma ReadyTargets(s: State, id: Id, target: int, s': State)
    requires PlacesOk(s.list, s.producer, s.adders, s.place) && id !in s.place
    requires TargetsOk(s.published, s.adders, s.targets) && Moves(s.adders, id, s'.adders)
    requires ProducerTargetsOk(s.published, s.producer, s.targets)
    requires ValuesOk(s.published, s.place, s.targets, s.known)
    requires s'.targets == s.targets[id := target] && s'.published == s.published && s'.producer == s.producer
    requires s'.known == s.known[id := s.published] && s'.place == s.place
    requires AdderIn(s'.adders, id).ReadyAtOnce?
    ensures TargetsOk(s'.published, s'.adders, s'.targets)
    ensures ProducerTargetsOk(s'.published, s'.producer, s'.targets)
    ensures ValuesOk(s'.published, s'.place, s'.targets, s'.known)
  {
    NewcomerIsUnlisted(s, id);
    forall w: Id
      ensures AdderTargetsOk(s'.published, AdderIn(s'.adders, w), s'.targets)
    {
      assert AdderTargetsOk(s.published, AdderIn(s.adders, w), s.targets);
      assert forall x: Id :: x in Private(AdderIn(s.adders, w)) ==> Target(s'.targets, x) == Target(s.targets, x);
    }
  }

  lemma ReadyKnown(s: State, id: Id, s': State)
    requires HandshakeOk(s.adders, s.place, s.ready, s.continued) && KnownOk(s.adders, s.targets.Keys, s.place.Keys)
    requires Moves(s.adders, id, s'.adders) && AdderIn(s.adders, id).Absent? && AdderIn(s'.adders, id).ReadyAtOnce?
    requires s'.place == s.place && s'.targets.Keys == s.targets.Keys + {id}
    requires s'.ready == s.ready && s'.continued == s.continued + multiset{id}
    ensures HandshakeOk(s'.adders, s'.place, s'.ready, s'.continued)
    ensures KnownOk(s'.adders, s'.targets.Keys, s'.place.Keys)
  {
    assert id !in s.place;
    forall x: Id
      ensures s'.continued[x] == if HasContinued(s'.adders, s'.place, x) then 1 else 0
    {
      assert s.continued[x] == if HasContinued(s.adders, s.place, x) then 1 else 0;
    }
  }

  // ---------------------------------------------------------------- the steps of the producer

  lemma ProducerPlaces(s: State, s': State)
    requires PlacesOk(s.list, s.producer, s.adders, s.place) && s'.adders == s.adders
    requires Holds(s'.list, s'.place, Shared) && Holds(ProducerPrivate(s'.producer), s'.place, WithProducer)
    requires forall id: Id :: SameAt(s.place, s'.place, With(id))
    ensures PlacesOk(s'.list, s'.producer, s'.adders, s'.place)
  {
    forall w: Id
      ensures Holds(Private(AdderIn(s'.adders, w)), s'.place, With(w))
    {
      assert Holds(Private(AdderIn(s.adders, w)), s.place, With(w));
      StillHolds(Private(AdderIn(s.adders, w)), s.place, s'.place, With(w));
    }
  }

  lemma PublishMove(s: State, sequence: int, s': State)
    requires Inv(s) && s.producer.Idle? && sequence >= s.published
    requires s' == s.(published := sequence, producer := PublishLoad)
    ensures Inv(s')
  {
    hide Holds, HandshakeOk, KnownOk;
    forall w: Id
      ensures AdderTargetsOk(s'.published, AdderIn(s'.adders, w), s'.targets)
    {
      assert AdderTargetsOk(s.published, AdderIn(s.adders, w), s.targets);
    }
  }

  lemma PublishTakePlaces(s: State, s': State)
    requires PlacesOk(s.list, s.producer, s.adders, s.place) && ProducerPrivate(s.producer) == []
    requires s'.adders == s.adders && s'.list == [] && s'.place == Placed(s.place, s.list, WithProducer)
    requires ProducerPrivate(s'.producer)
             == Ahead(s.list, s.targets, s.published) + Reached(s.list, s.targets, s.published)
    ensures PlacesOk(s'.list, s'.producer, s'.adders, s'.place)
    ensures s'.place.Keys == s.place.Keys && SameAt(s.place, s'.place, Released)
  {
    TakeHolds(s.list, [], s.targets, s.published, s.place, WithProducer);
    assert [] + Reached(s.list, s.targets, s.published) == Reached(s.list, s.targets, s.published);
    ProducerPlaces(s, s');
  }

  lemma PublishTakeMove(s: State, s': State)
    requires Inv(s) && s.producer.PublishTake?
    requires var requeue, resume := Ahead(s.list, s.targets, s.published), Reached(s.list, s.targets, s.published);
             s' == s.(list := [], place := Placed(s.place, s.list, WithProducer),
                      producer := if requeue != [] then PublishRequeue(requeue, resume, Empty) else AfterResume(resume))
    ensures Inv(s')
  {
    hide HandshakeOk, KnownOk, TargetsOk, ValuesOk, PlacesOk, Covered;
    PublishTakePlaces(s, s');
    HandshakeMove(s.adders, 0, s'.adders, s.place, s'.place, s.ready, s.continued);
    ValuesMove(s.published, s.place, s'.place, s.targets, s.known);
  }

  lemma PublishRequeuePlaces(s: State, s': State)
    requires PlacesOk(s.list, s.producer, s.adders, s.place) && s.producer.PublishRequeue?
    requires s'.list == s.producer.requeue + s.list && s'.place == Placed(s.place, s.producer.requeue, Shared)
    requires s'.adders == s.adders && ProducerPrivate(s'.producer) == s.producer.resume
    ensures PlacesOk(s'.list, s'.producer, s'.adders, s'.place)
    ensures s'.place.Keys == s.place.Keys && SameAt(s.place, s'.place, Released)
  {
    PushHolds(s.list, s.producer.requeue, s.producer.resume, s.place, WithProducer);
    assert forall w: Id :: w in s.producer.requeue ==> w in ProducerPrivate(s.producer);
    ProducerPlaces(s, s');
  }

  lemma ProducerRetryMove(s: State, s': State)
    requires Inv(s) && s.producer.PublishRequeue? && s'.producer.PublishRequeue?
    requires s' == s.(producer := s.producer.(seen := s'.producer.seen))
    ensures Inv(s')
  {
    hide HandshakeOk, KnownOk, TargetsOk, ValuesOk, Holds;
  }

  /** What the producer puts back needs no further look: nobody else publishes. */
  lemma PublishRequeueMove(s: State, s': State)
    requires Inv(s) && s.producer.PublishRequeue?
    requires s' == s.(list := s.producer.requeue + s.list, place := Placed(s.place, s.producer.requeue, Shared),
                      producer := AfterResume(s.producer.resume))
    ensures Inv(s')
  {
    hide HandshakeOk, KnownOk, TargetsOk, ValuesOk, PlacesOk;
    PublishRequeuePlaces(s, s');
    HandshakeMove(s.adders, 0, s'.adders, s.place, s'.place, s.ready, s.continued);
    ValuesMove(s.published, s.place, s'.place, s.targets, s.known);
  }

  lemma PublishResumePlaces(s: State, s': State)
    requires PlacesOk(s.list, s.producer, s.adders, s.place) && s.producer.PublishResume? && s.producer.resume != []
    requires s'.list == s.list && s'.place == s.place[s.producer.resume[0] := Released]
    requires s'.adders == s.adders && ProducerPrivate(s'.producer) == s.producer.resume[1..]
    ensures PlacesOk(s'.list, s'.producer, s'.adders, s'.place)
    ensures s'.place.Keys == s.place.Keys && s.producer.resume[0] in s.place
    ensures s.place[s.producer.resume[0]] == WithProducer
  {
    var resume := s.producer.resume;
    assert resume[0] in ProducerPrivate(s.producer);
    ResumeHolds(resume, s.place, s'.place, WithProducer);
    StillHolds(s.list, s.place, s'.place, Shared);
    ProducerPlaces(s, s');
  }

  lemma PublishResumeMove(s: State, s': State)
    requires Inv(s) && s.producer.PublishResume? && s.producer.resume != []
    requires s' == Resume(s, s.producer.resume[0], s.published).(producer := AfterResume(s.producer.resume[1..]))
    ensures Inv(s')
  {
    hide HandshakeOk, TargetsOk, ValuesOk, PlacesOk;
    PublishResumePlaces(s, s');
    var w := s.producer.resume[0];
    assert w in s.producer.resume;
    assert Waits(AdderIn(s.adders, w));
    ResumeKeeps(s, w, s.published, 0, s.adders);
  }

  // ---------------------------------------------------------------- every step

  lemma ProducerFacts(s: State)
    requires Inv(s)
    ensures s.producer.PublishResume? ==> s.producer.resume != []
  {
  }

  lemma ProducerLoadMove(s: State, s': State)
    requires Inv(s) && s.producer.PublishLoad? && s' == s.(producer := if s.list == [] then Idle else PublishTake)
    ensures Inv(s')
  {
  }

  lemma ProducerSteps(s: State)
    requires Inv(s) && !s.producer.Idle?
    ensures Inv(ProducerApply(s))
  {
    hide Inv;
    ProducerFacts(s);
    match s.producer {
      case PublishLoad => ProducerLoadMove(s, ProducerApply(s));
      case PublishTake => PublishTakeMove(s, ProducerApply(s));
      case PublishRequeue(_, _, seen) =>
        if TopOf(s.list) == seen {
          PublishRequeueMove(s, ProducerApply(s));
        } else {
          ProducerRetryMove(s, ProducerApply(s));
        }
      case PublishResume(_) => PublishResumeMove(s, ProducerApply(s));
    }
  }

  lemma AdderFacts(s: State, id: Id)
    requires Inv(s)
    ensures AdderIn(s.adders, id).AddResume? ==> AdderIn(s.adders, id).resume != []
  {
    AdderTargets(s, id);
  }

  lemma AdderCasSteps(s: State, id: Id)
    requires Inv(s) && AdderIn(s.adders, id).AddCas?
    ensures Inv(AdderApply(s, id))
  {
    hide Inv;
    var s' := AdderApply(s, id);
    assert Moves(s.adders, id, s'.adders);
    if TopOf(s.list) == AdderIn(s.adders, id).seen {
      AdderPushMove(s, id, s');
    } else {
      AdderHeadMove(s, id, s');
    }
  }

  lemma AdderLoadSteps(s: State, id: Id)
    requires Inv(s) && AdderIn(s.adders, id).AddLoad?
    ensures Inv(AdderApply(s, id))
  {
    hide Inv;
    assert Moves(s.adders, id, AdderApply(s, id).adders);
    AdderLoadMove(s, id, AdderApply(s, id));
  }

  lemma AdderTakeSteps(s: State, id: Id)
    requires Inv(s) && AdderIn(s.adders, id).AddTake?
    ensures Inv(AdderApply(s, id))
  {
    hide Inv;
    assert Moves(s.adders, id, AdderApply(s, id).adders);
    AdderTakeMove(s, id, AdderApply(s, id));
  }

  lemma AdderResumeSteps(s: State, id: Id)
    requires Inv(s) && AdderIn(s.adders, id).AddResume?
    ensures Inv(AdderApply(s, id))
  {
    hide Inv;
    AdderFacts(s, id);
    assert Moves(s.adders, id, AdderApply(s, id).adders);
    AdderResumeMove(s, id, AdderApply(s, id));
  }

  lemma AdderReadySteps(s: State, id: Id)
    requires Inv(s) && AdderIn(s.adders, id).AddReady?
    ensures Inv(AdderApply(s, id))
  {
    hide Inv;
    assert Moves(s.adders, id, AdderApply(s, id).adders);
    AdderReadyMove(s, id, AdderApply(s, id));
  }

  lemma AdderSteps(s: State, id: Id)
    requires Inv(s) && Enabled(s, AdderStep(id))
    ensures Inv(AdderApply(s, id))
  {
    hide Inv;
    match AdderIn(s.adders, id) {
      case AddPush(_, _, _) =>
        assert Moves(s.adders, id, AdderApply(s, id).adders);
        AdderHeadMove(s, id, AdderApply(s, id));
      case AddCas(_, _, _, _) => AdderCasSteps(s, id);
      case AddLoad(_, _) => AdderLoadSteps(s, id);
      case AddTake(_, _) => AdderTakeSteps(s, id);
      case AddResume(_, _) => AdderResumeSteps(s, id);
      case AddReady => AdderReadySteps(s, id);
    }
  }

  /** Every atomic step of the producer and of every waiter keeps the invariant. */
  lemma StepKeepsInv(s: State, a: Action)
    requires Inv(s) && Enabled(s, a)
    ensures Inv(Apply(s, a))
  {
    hide Inv;
    match a {
      case Publish(sequence) => PublishMove(s, sequence, Apply(s, a));
      case ProducerStep => ProducerSteps(s);
      case ProducerRetry => ProducerRetryMove(s, Apply(s, a));
      case AdderStep(id) => AdderSteps(s, id);
      case AdderRetry(id) =>
        assert Moves(s.adders, id, Apply(s, a).adders);
        AdderHeadMove(s, id, Apply(s, a));
      case Await(id, target) =>
        if s.published < target {
          AwaitMove(s, id, target);
        } else {
          ReadyAtOnceMove(s, id, target);
        }
    }
  }

  // ---------------------------------------------------------------- whole runs

  ghost predicate Reaches(s: State, run: seq<Action>, s': State)
    decreases |run|
  {
    if run == [] then s == s'
    else Enabled(s, run[0]) && Reaches(Apply(s, run[0]), run[1..], s')
  }

  lemma {:induction false} RunsKeepInv(s: State, run: seq<Action>, s': State)
    requires Inv(s) && Reaches(s, run, s')
    ensures Inv(s')
    decreases |run|
  {
    hide Inv;
    if run != [] {
      StepKeepsInv(s, run[0]);
      RunsKeepInv(Apply(s, run[0]), run[1..], s');
    }
  }

  ghost predicate Reachable(s: State)
  {
    exists initial: int, run: seq<Action> :: Reaches(Init(initial), run, s)
  }

  lemma ReachableInv(s: State)
    requires Reachable(s)
    ensures Inv(s)
  {
    hide Inv;
    var initial: int, run: seq<Action> :| Reaches(Init(initial), run, s);
    InitInv(initial);
    RunsKeepInv(Init(initial), run, s);
  }

  lemma InitReachable(initial: int)
    ensures Reachable(Init(initial))
  {
    assert Reaches(Init(initial), [], Init(initial));
  }

  lemma {:induction false} OneMore(s: State, run: seq<Action>, s': State, a: Action)
    requires Reaches(s, run, s') && Enabled(s', a)
    ensures Reaches(s, run + [a], Apply(s', a))
    decreases |run|
  {
    hide Apply, Enabled;
    if run == [] {
      assert ([a])[1..] == [];
      assert Reaches(Apply(s, a), [], Apply(s, a));
      assert run + [a] == [a];
    } else {
      OneMore(Apply(s, run[0]), run[1..], s', a);
      assert (run + [a])[1..] == run[1..] + [a];
    }
  }

  lemma StepKeepsReachable(s: State, a: Action)
    requires Reachable(s) && Enabled(s, a)
    ensures Reachable(Apply(s, a))
  {
    hide Apply, Enabled;
    var initial: int, run: seq<Action> :| Reaches(Init(initial), run, s);
    OneMore(Init(initial), run, s, a);
  }

  /** No `publish` and no `add_awaiter` is in progress. */
  predicate AtRest(s: State)
  {
    s.producer.Idle? && forall id :: id in s.adders ==> s.adders[id].Left? || s.adders[id].ReadyAtOnce?
  }

  /** No lost wake-up: at rest every queued waiter's target is strictly after the published number, and
      every other waiter has continued. */
  lemma NoWakeUpIsLost(initial: int, run: seq<Action>, s: State)
    requires Reaches(Init(initial), run, s) && AtRest(s)
    ensures forall w: Id :: w in s.list ==> Target(s.targets, w) > s.published
    ensures forall w :: w in s.adders && w !in s.list ==> s.continued[w] == 1
  {
    InitInv(initial);
    RunsKeepInv(Init(initial), run, s);
    assert !Covered(s.published, s.producer, s.adders);
    forall w | w in s.adders && w !in s.list
      ensures s.continued[w] == 1
    {
      if Waits(AdderIn(s.adders, w)) {
        RestReleases(s, w);
      }
    }
  }

  lemma RestReleases(s: State, w: Id)
    requires PlacesOk(s.list, s.producer, s.adders, s.place) && AtRest(s)
    requires w in s.place && w !in s.list
    ensures s.place[w].Released?
  {
    assert s.place[w] != Shared && s.place[w] != WithProducer;
    forall id: Id
      ensures s.place[w] != With(id)
    {
      assert Holds(Private(AdderIn(s.adders, id)), s.place, With(id));
    }
  }

  /** In every reachable state a waiter is in the shared list, in one private list, or released, never in
      two of these; it continues at most once, and only after it was released or needed no wait; and
      then it sees a published number that does not precede its target. */
  lemma EveryWaiterContinuesOnce(initial: int, run: seq<Action>, s: State, w: Id)
    requires Reaches(Init(initial), run, s)
    ensures s.continued[w] <= 1
    ensures s.continued[w] == 1 && Waits(AdderIn(s.adders, w)) ==>
              w in s.known && Target(s.targets, w) <= s.known[w] <= s.published
    ensures s.continued[w] == 1 ==> w !in s.list && w !in ProducerPrivate(s.producer)
    ensures s.continued[w] == 1 ==> forall id: Id :: w !in Private(AdderIn(s.adders, id))
    ensures w in s.list ==> w !in ProducerPrivate(s.producer)
    ensures forall id: Id :: w in Private(AdderIn(s.adders, id)) ==> w !in s.list && w !in ProducerPrivate(s.producer)
    ensures forall id: Id, id': Id ::
              w in Private(AdderIn(s.adders, id)) && w in Private(AdderIn(s.adders, id')) ==> id == id'
    ensures NoDuplicates(s.list)
  {
    InitInv(initial);
    RunsKeepInv(Init(initial), run, s);
    assert s.continued[w] == if HasContinued(s.adders, s.place, w) then 1 else 0;
    forall id: Id
      ensures w in Private(AdderIn(s.adders, id)) <==> w in s.place && s.place[w] == With(id)
    {
      assert Holds(Private(AdderIn(s.adders, id)), s.place, With(id));
    }
  }

  // ---------------------------------------------------------------- what happens between the steps of a call

  /** Who makes a call. */
  datatype Self = Producing | Adding(id: Id)

  predicate IsOwn(self: Self, a: Action)
  {
    match a
    case Await(id, _) => self == Adding(id)
    case AdderStep(id) => self == Adding(id)
    case AdderRetry(id) => self == Adding(id)
    case _ => self.Producing?
  }

  /** Where a call has got to, and what it alone can change. */
  ghost predicate SameOwn(self: Self, s: State, s': State)
  {
    match self
    case Producing => s'.producer == s.producer && s'.published == s.published
    case Adding(id) => AdderIn(s'.adders, id) == AdderIn(s.adders, id)
  }

  ghost predicate OthersRan(self: Self, s: State, s': State)
  {
    exists run: seq<Action> :: Reaches(s, run, s') && forall i :: 0 <= i < |run| ==> !IsOwn(self, run[i])
  }

  lemma NobodyRan(self: Self, s: State)
    ensures OthersRan(self, s, s)
  {
    assert Reaches(s, [], s);
  }

  lemma OthersLeaveOwn(self: Self, s: State, s': State)
    requires OthersRan(self, s, s')
    ensures SameOwn(self, s, s')
  {
    hide Reaches;
    var run: seq<Action> :| Reaches(s, run, s') && forall i :: 0 <= i < |run| ==> !IsOwn(self, run[i]);
    OtherRunsLeaveOwn(self, s, run, s');
  }

  lemma {:induction false} OtherRunsLeaveOwn(self: Self, s: State, run: seq<Action>, s': State)
    requires Reaches(s, run, s') && forall i :: 0 <= i < |run| ==> !IsOwn(self, run[i])
    ensures SameOwn(self, s, s')
    decreases |run|
  {
    hide Apply, Enabled;
    if run != [] {
      assert !IsOwn(self, run[0]);
      OtherStepLeavesOwn(self, s, run[0]);
      assert forall i :: 0 <= i < |run[1..]| ==> run[1..][i] == run[i + 1];
      OtherRunsLeaveOwn(self, Apply(s, run[0]), run[1..], s');
    }
  }

  lemma OtherStepLeavesOwn(self: Self, s: State, a: Action)
    requires Enabled(s, a) && !IsOwn(self, a)
    ensures SameOwn(self, s, Apply(s, a))
  {
    hide ProducerApply, AdderApply;
    match a {
      case ProducerStep => ProducerLeavesAdders(s);
      case AdderStep(id) => AdderLeavesOthers(s, id);
      case _ =>
    }
  }

  lemma ProducerLeavesAdders(s: State)
    ensures ProducerApply(s).adders == s.adders
  {
  }

  ghost predicate OnlyAdder(s: State, id: Id, s': State)
  {
    s'.producer == s.producer && s'.published == s.published && Moves(s.adders, id, s'.adders)
  }

  lemma AdderLeavesOthers(s: State, id: Id)
    requires Enabled(s, AdderStep(id))
    ensures OnlyAdder(s, id, AdderApply(s, id))
  {
    hide AdderApply, OnlyAdder;
    match AdderIn(s.adders, id) {
      case AddCas(_, _, _, _) => CasLeavesOthers(s, id);
      case AddTake(_, _) => TakeLeavesOthers(s, id);
      case AddResume(_, _) => ResumeLeavesOthers(s, id);
      case _ => QuietLeavesOthers(s, id);
    }
  }

  lemma CasLeavesOthers(s: State, id: Id)
    requires AdderIn(s.adders, id).AddCas?
    ensures OnlyAdder(s, id, AdderApply(s, id))
  {
  }

  lemma TakeLeavesOthers(s: State, id: Id)
    requires AdderIn(s.adders, id).AddTake?
    ensures OnlyAdder(s, id, AdderApply(s, id))
  {
    hide Ahead, Reached, Earliest, Placed;
  }

  lemma ResumeLeavesOthers(s: State, id: Id)
    requires AdderIn(s.adders, id).AddResume?
    ensures OnlyAdder(s, id, AdderApply(s, id))
  {
  }

  lemma QuietLeavesOthers(s: State, id: Id)
    requires AdderIn(s.adders, id).AddPush? || AdderIn(s.adders, id).AddLoad? || AdderIn(s.adders, id).AddReady?
    ensures OnlyAdder(s, id, AdderApply(s, id))
  {
  }
}
