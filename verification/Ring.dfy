/** The ring of `multi_producer_sequencer` as a state machine: producers claim ranges of sequence numbers with
    one fetch-and-add, wait until the consumers are at most one ring behind, and publish by storing each
    number in its slot; consumers publish how far they have read. Sequence numbers are unbounded here;
    `MultiProducerSequencers` shows that the wrapping words of the program agree with them. */
module Ring {
  import opened Words

  /** A producer's claim. */
  type Id = nat

  /** A claimed range `[lo, hi)`. After admission, `left` holds the numbers its producer has yet to publish,
      outside of a batch `[a, b)` it is publishing: of the batch, `a` comes last and `k` next. */
  datatype Claim =
    | Waiting(lo: int, hi: int)
    | Admitted(lo: int, hi: int, left: set<int>)
    | Batch(lo: int, hi: int, left: set<int>, a: int, b: int, k: int)

  datatype State = State(
    size: nat, published: seq<int>, next: int, consumed: int, claims: map<Id, Claim>,
    // what follows only records who claimed a number
    owner: map<int, Id>)

  datatype Action =
    | ClaimUpTo(id: Id, count: nat)
    | Admit(id: Id)
    | Publish(id: Id, q: int)
    | StartBatch(id: Id, a: int, b: int)
    | BatchStep(id: Id)
    | Consume(q: int)

  /** The number stored in slot `i` by the constructor: the slots hold the last `size` numbers up to `initial`. */
  function InitialAt(initial: int, size: nat, i: nat): (v: int)
    requires size > 0 && i < size
    ensures initial - size < v <= initial && Slot(v, size) == i
  {
    var d := (initial - i) % size;
    var q := (initial - i) / size;
    assert initial - d == q * size + i;
    RemainderIs(initial - d, size, q, i);
    initial - d
  }

  function Init(size: nat, initial: int): State
    requires size > 0
  {
    State(size, seq(size, i requires 0 <= i < size => InitialAt(initial, size, i)), initial + 1, initial, map[], map[])
  }

  predicate Stored(published: seq<int>, q: int)
    requires |published| > 0
  {
    published[Slot(q, |published|)] == q
  }

  function Store(published: seq<int>, q: int): seq<int>
    requires |published| > 0
  {
    published[Slot(q, |published|) := q]
  }

  /** Every number after `k` up to `e` has been published. */
  ghost predicate AllStored(published: seq<int>, k: int, e: int)
    requires |published| > 0
  {
    forall q :: k < q <= e ==> Stored(published, q)
  }

  /** `e` is the end of the contiguous published run after `k`. */
  ghost predicate IsEnd(published: seq<int>, k: int, e: int)
    requires |published| > 0
  {
    k <= e && AllStored(published, k, e) && !Stored(published, e + 1)
  }

  ghost predicate Enabled(s: State, a: Action)
  {
    && |s.published| > 0
    && match a
       case ClaimUpTo(id, _) => id !in s.claims
       case Admit(id) => id in s.claims && s.claims[id].Waiting? && s.claims[id].hi - 1 - s.size <= s.consumed
       case Publish(id, q) => id in s.claims && s.claims[id].Admitted? && q in s.claims[id].left
       case StartBatch(id, a, b) =>
         id in s.claims && s.claims[id].Admitted? && a < b && Range(a, b) <= s.claims[id].left
       case BatchStep(id) => id in s.claims && s.claims[id].Batch?
       case Consume(q) => s.consumed < q && AllStored(s.published, s.consumed, q)
  }

  function Range(lo: int, hi: int): (r: set<int>)
    ensures forall q :: q in r <==> lo <= q < hi
    decreases hi - lo
  {
    if hi <= lo then {} else Range(lo, hi - 1) + {hi - 1}
  }

  function BatchApply(s: State, id: Id): State
    requires |s.published| > 0 && id in s.claims && s.claims[id].Batch?
  {
    var c := s.claims[id];
    if c.k < c.b then s.(published := Store(s.published, c.k), claims := s.claims[id := Batch(c.lo, c.hi, c.left, c.a, c.b, c.k + 1)])
    else s.(published := Store(s.published, c.a), claims := s.claims[id := Admitted(c.lo, c.hi, c.left)])
  }

  ghost function Apply(s: State, a: Action): State
    requires Enabled(s, a)
  {
    match a
    case ClaimUpTo(id, count) =>
      var hi := s.next + (if count < s.size then count else s.size);
      s.(next := hi, claims := s.claims[id := Waiting(s.next, hi)],
         owner := map q | q in s.owner.Keys + Range(s.next, hi) :: if q in Range(s.next, hi) then id else s.owner[q])
    case Admit(id) =>
      var c := s.claims[id];
      s.(claims := s.claims[id := Admitted(c.lo, c.hi, Range(c.lo, c.hi))])
    case Publish(id, q) =>
      var c := s.claims[id];
      s.(published := Store(s.published, q), claims := s.claims[id := Admitted(c.lo, c.hi, c.left - {q})])
    case StartBatch(id, a, b) =>
      var c := s.claims[id];
      s.(claims := s.claims[id := Batch(c.lo, c.hi, c.left - Range(a, b), a, b, a + 1)])
    case BatchStep(id) => BatchApply(s, id)
    case Consume(q) => s.(consumed := q)
  }

  // ---------------------------------------------------------------- the invariant

  /** The claim's producer has yet to publish `q`. */
  predicate Pending(c: Claim, q: int)
  {
    match c
    case Waiting(lo, hi) => lo <= q < hi
    case Admitted(_, _, left) => q in left
    case Batch(_, _, left, a, b, k) => q in left || q == a || k <= q < b
  }

  /** Every slot holds a number of its own residue, of the ring before or the ring after the barrier. */
  ghost predicate SlotsOk(size: nat, published: seq<int>, next: int, consumed: int)
  {
    && size > 0 && |published| == size
    && forall i :: 0 <= i < size ==>
         Slot(published[i], size) == i && consumed - size < published[i] <= consumed + size && published[i] < next
  }

  ghost predicate ClaimOk(c: Claim, size: nat, next: int, consumed: int)
  {
    && c.lo <= c.hi <= next
    && (!c.Waiting? ==> c.hi - 1 <= consumed + size && forall q :: q in c.left ==> c.lo <= q < c.hi)
    && (c.Batch? ==> c.lo <= c.a < c.k <= c.b <= c.hi && forall q :: c.a <= q < c.b ==> q !in c.left)
  }

  ghost predicate ClaimsOk(claims: map<Id, Claim>, size: nat, next: int, consumed: int)
  {
    forall id :: id in claims ==> ClaimOk(claims[id], size, next, consumed)
  }

  ghost predicate Owned(claims: map<Id, Claim>, owner: map<int, Id>, q: int)
  {
    q in owner && owner[q] in claims && Pending(claims[owner[q]], q)
  }

  ghost predicate IsAhead(s: State, id: Id, q: int)
    requires |s.published| > 0
  {
    q in s.owner && s.owner[q] == id && s.consumed < q < s.next && !Stored(s.published, q)
  }

  /** What is pending is owned by one claim, is ahead of the consumers, and is not in its slot; and everything
      claimed, not consumed and not in its slot is pending. */
  ghost predicate PendingOk(s: State)
    requires |s.published| > 0
  {
    && (forall id, q :: id in s.claims && Pending(s.claims[id], q) ==> IsAhead(s, id, q))
    && (forall q :: s.consumed < q < s.next && !Stored(s.published, q) ==> Owned(s.claims, s.owner, q))
    && (forall q :: q in s.owner ==> q < s.next)
  }

  ghost predicate Inv(s: State)
  {
    && SlotsOk(s.size, s.published, s.next, s.consumed) && ClaimsOk(s.claims, s.size, s.next, s.consumed)
    && PendingOk(s) && s.consumed < s.next
  }

  lemma InitInv(size: nat, initial: int)
    requires size > 0
    ensures Inv(Init(size, initial))
  {
    var s := Init(size, initial);
    forall i | 0 <= i < size
      ensures s.published[i] == InitialAt(initial, size, i)
    {
    }
  }

  // ---------------------------------------------------------------- the moves

  /** The slot of a number that is not more than a ring ahead of the consumers holds the number itself or
      the one a ring before. */
  lemma SlotHolds(size: nat, published: seq<int>, next: int, consumed: int, q: int)
    requires SlotsOk(size, published, next, consumed) && consumed < q <= consumed + size
    ensures published[Slot(q, size)] == q || published[Slot(q, size)] == q - size
  {
    var v := published[Slot(q, size)];
    assert Slot(v, size) == Slot(q, size);
    if v > consumed {
      SlotsNearbyDiffer(v, q, size);
    } else {
      SlotOneRingAway(q - size, size);
      SlotsNearbyDiffer(v, q - size, size);
    }
  }

  ghost predicate Moves(claims: map<Id, Claim>, id: Id, claims': map<Id, Claim>)
  {
    && id in claims' && claims'.Keys == claims.Keys + {id}
    && forall w :: w in claims && w != id ==> claims'[w] == claims[w]
  }

  ghost predicate SamePending(c: Claim, c': Claim)
  {
    forall q :: Pending(c', q) <==> Pending(c, q)
  }

  lemma ClaimMove(s: State, id: Id, hi: int, s': State)
    requires Inv(s) && id !in s.claims && s.next <= hi && Moves(s.claims, id, s'.claims)
    requires s'.claims[id] == Waiting(s.next, hi)
    requires s' == s.(next := hi, claims := s'.claims, owner := s'.owner)
    requires s'.owner.Keys == s.owner.Keys + Range(s.next, hi)
    requires forall q :: q in s'.owner ==> s'.owner[q] == if s.next <= q < hi then id else s.owner[q]
    ensures Inv(s')
  {
    forall q | s'.consumed < q < s'.next && !Stored(s'.published, q)
      ensures Owned(s'.claims, s'.owner, q)
    {
      if q < s.next {
        assert Owned(s.claims, s.owner, q);
      }
    }
    forall q | s.next <= q < hi
      ensures !Stored(s.published, q)
    {
      assert s.published[Slot(q, s.size)] < s.next;
    }
  }

  /** A claim moves on without anything being stored. */
  lemma QuietMove(s: State, id: Id, s': State)
    requires Inv(s) && id in s.claims && Moves(s.claims, id, s'.claims) && s' == s.(claims := s'.claims)
    requires ClaimOk(s'.claims[id], s.size, s.next, s.consumed) && SamePending(s.claims[id], s'.claims[id])
    ensures Inv(s')
  {
    hide ClaimOk, Stored;
    forall w, q | w in s'.claims && Pending(s'.claims[w], q)
      ensures IsAhead(s', w, q)
    {
      assert IsAhead(s, w, q);
    }
    forall q | s'.consumed < q < s'.next && !Stored(s'.published, q)
      ensures Owned(s'.claims, s'.owner, q)
    {
      assert Owned(s.claims, s.owner, q);
    }
  }

  /** A pending number of an admitted claim is stored: it replaces exactly the number a ring before. */
  lemma StoreMove(s: State, id: Id, q: int, s': State)
    requires Inv(s) && id in s.claims && Moves(s.claims, id, s'.claims) && Pending(s.claims[id], q) && q <= s.consumed + s.size
    requires ClaimOk(s'.claims[id], s.size, s.next, s.consumed)
    requires forall x :: Pending(s'.claims[id], x) <==> Pending(s.claims[id], x) && x != q
    requires s' == s.(published := Store(s.published, q), claims := s'.claims)
    ensures Inv(s') && s.published[Slot(q, s.size)] == q - s.size
  {
    assert IsAhead(s, id, q);
    SlotHolds(s.size, s.published, s.next, s.consumed, q);
    StoreKeepsSlots(s.size, s.published, s.next, s.consumed, q);
    forall x | s.consumed < x < s.next
      ensures Stored(s'.published, x) <==> x == q || Stored(s.published, x)
    {
      StoredAfter(s.size, s.published, s.next, s.consumed, q, x);
    }
    StoreKeepsPending(s, id, q, s');
  }

  lemma StoreKeepsSlots(size: nat, published: seq<int>, next: int, consumed: int, q: int)
    requires SlotsOk(size, published, next, consumed) && consumed < q <= consumed + size && q < next
    ensures SlotsOk(size, Store(published, q), next, consumed)
  {
  }

  lemma StoredAfter(size: nat, published: seq<int>, next: int, consumed: int, q: int, x: int)
    requires SlotsOk(size, published, next, consumed) && consumed < q <= consumed + size && consumed < x
    ensures Stored(Store(published, q), x) <==> x == q || Stored(published, x)
  {
    if Slot(x, size) == Slot(q, size) && Stored(published, x) {
      SlotsNearbyDiffer(x, q, size);
    }
  }

  lemma StoreKeepsPending(s: State, id: Id, q: int, s': State)
    requires |s.published| > 0 && |s'.published| > 0 && PendingOk(s) && id in s.claims && Moves(s.claims, id, s'.claims)
    requires Pending(s.claims[id], q)
    requires forall x :: Pending(s'.claims[id], x) <==> Pending(s.claims[id], x) && x != q
    requires s'.owner == s.owner && s'.consumed == s.consumed && s'.next == s.next
    requires forall x :: s.consumed < x < s.next ==> (Stored(s'.published, x) <==> x == q || Stored(s.published, x))
    ensures PendingOk(s')
  {
    hide Stored, Pending;
    forall x | s'.consumed < x < s'.next && !Stored(s'.published, x)
      ensures Owned(s'.claims, s'.owner, x)
    {
      assert Owned(s.claims, s.owner, x);
    }
    forall w, x | w in s'.claims && Pending(s'.claims[w], x)
      ensures IsAhead(s', w, x)
    {
      assert IsAhead(s, w, x) && IsAhead(s, id, q);
    }
  }

  /** The consumers move on over published numbers. */
  lemma ConsumeMove(s: State, q: int)
    requires Inv(s) && s.consumed < q && AllStored(s.published, s.consumed, q)
    ensures Inv(s.(consumed := q)) && q <= s.consumed + s.size
  {
    assert Stored(s.published, q);
    forall i | 0 <= i < s.size
      ensures q - s.size < s.published[i]
    {
      var v := s.published[i];
      SlotOneRingAway(v, s.size);
      assert s.consumed < v + s.size <= q ==> Stored(s.published, v + s.size);
    }
  }

  // ---------------------------------------------------------------- every step

  lemma BatchSteps(s: State, id: Id)
    requires Inv(s) && Enabled(s, BatchStep(id))
    ensures Inv(Apply(s, BatchStep(id)))
  {
    var s', c := Apply(s, BatchStep(id)), s.claims[id];
    assert ClaimOk(c, s.size, s.next, s.consumed);
    StoreMove(s, id, if c.k < c.b then c.k else c.a, s');
  }

  lemma PublishSteps(s: State, id: Id, q: int)
    requires Inv(s) && Enabled(s, Publish(id, q))
    ensures Inv(Apply(s, Publish(id, q)))
  {
    assert ClaimOk(s.claims[id], s.size, s.next, s.consumed);
    StoreMove(s, id, q, Apply(s, Publish(id, q)));
  }

  lemma QuietSteps(s: State, a: Action)
    requires Inv(s) && Enabled(s, a) && (a.Admit? || a.StartBatch?)
    ensures Inv(Apply(s, a))
  {
    assert ClaimOk(s.claims[a.id], s.size, s.next, s.consumed);
    assert a.StartBatch? ==> a.a in Range(a.a, a.b) && a.b - 1 in Range(a.a, a.b);
    QuietMove(s, a.id, Apply(s, a));
  }

  /** Every step of every producer and of the consumers keeps the invariant. */
  lemma StepKeepsInv(s: State, a: Action)
    requires Inv(s) && Enabled(s, a)
    ensures Inv(Apply(s, a))
  {
    hide Inv;
    match a {
      case ClaimUpTo(id, count) =>
        ClaimMove(s, id, Apply(s, a).next, Apply(s, a));
      case Publish(id, q) => PublishSteps(s, id, q);
      case BatchStep(id) => BatchSteps(s, id);
      case Consume(q) => ConsumeMove(s, q);
      case _ => QuietSteps(s, a);
    }
  }

  // ---------------------------------------------------------------- whole runs

  ghost predicate Reaches(s: State, run: seq<Action>, s': State)
    decreases |run|
  {
    if run == [] then s == s'
    else Enabled(s, run[0]) && Reaches(Apply(s, run[0]), run[1..], s')
  }

  lemma {:induction false} RunsKeepInv(s: State, run: seq<Action>, s': State)
    requires Inv(s) && Reaches(s, run, s')
    ensures Inv(s') && s'.size == s.size
    decreases |run|
  {
    hide Inv;
    if run != [] {
      StepKeepsInv(s, run[0]);
      RunsKeepInv(Apply(s, run[0]), run[1..], s');
    }
  }

  ghost predicate Reachable(s: State)
  {
    exists size: nat, initial: int, run: seq<Action> :: size > 0 && Reaches(Init(size, initial), run, s)
  }

  lemma ReachableInv(s: State)
    requires Reachable(s)
    ensures Inv(s)
  {
    hide Inv;
    var size: nat, initial: int, run: seq<Action> :| size > 0 && Reaches(Init(size, initial), run, s);
    InitInv(size, initial);
    RunsKeepInv(Init(size, initial), run, s);
  }

  lemma InitReachable(size: nat, initial: int)
    requires size > 0
    ensures Reachable(Init(size, initial))
  {
    assert Reaches(Init(size, initial), [], Init(size, initial));
  }

  lemma {:induction false} OneMore(s: State, run: seq<Action>, s': State, a: Action)
    requires Reaches(s, run, s') && Enabled(s', a)
    ensures Reaches(s, run + [a], Apply(s', a))
    decreases |run|
  {
    hide Apply, Enabled;
    if run == [] {
      assert [a][1..] == [];
      assert Reaches(Apply(s, a), [], Apply(s, a));
      assert run + [a] == [a];
    } else {
      OneMore(Apply(s, run[0]), run[1..], s', a);
      assert (run + [a])[1..] == run[1..] + [a];
    }
  }

  lemma StepKeepsReachable(s: State, a: Action)
    requires Reachable(s) && Enabled(s, a)
    ensures Reachable(Apply(s, a))
  {
    hide Apply, Enabled, Init;
    var size: nat, initial: int, run: seq<Action> :| size > 0 && Reaches(Init(size, initial), run, s);
    OneMore(Init(size, initial), run, s, a);
  }

  predicate IsAdmitted(s: State, q: int)
  {
    q in s.owner && s.owner[q] in s.claims && !s.claims[s.owner[q]].Waiting?
  }

  /** In every reachable state two admitted, unconsumed numbers use different slots, so no producer writes
      where another producer writes or a consumer has yet to read. */
  lemma AdmittedNumbersHaveOwnSlots(size: nat, initial: int, run: seq<Action>, s: State, q: int, r: int)
    requires size > 0 && Reaches(Init(size, initial), run, s)
    requires IsAdmitted(s, q) && IsAdmitted(s, r) && s.consumed < q && s.consumed < r && q != r
    ensures Slot(q, size) != Slot(r, size)
  {
    InitInv(size, initial);
    RunsKeepInv(Init(size, initial), run, s);
    OwnersHoldRanges(Init(size, initial), run, s, q);
    OwnersHoldRanges(Init(size, initial), run, s, r);
    assert ClaimOk(s.claims[s.owner[q]], s.size, s.next, s.consumed);
    assert ClaimOk(s.claims[s.owner[r]], s.size, s.next, s.consumed);
    SlotsNearbyDiffer(q, r, size);
  }

  /** The owner of a number claimed a range with the number in it. */
  ghost predicate RangesOk(s: State)
  {
    forall q :: q in s.owner ==> s.owner[q] in s.claims && s.claims[s.owner[q]].lo <= q < s.claims[s.owner[q]].hi
  }

  lemma {:induction false} OwnersHoldRanges(s: State, run: seq<Action>, s': State, q: int)
    requires RangesOk(s) && Reaches(s, run, s')
    ensures RangesOk(s')
    decreases |run|
  {
    if run != [] {
      StepKeepsRanges(s, run[0]);
      OwnersHoldRanges(Apply(s, run[0]), run[1..], s', q);
    }
  }

  lemma StepKeepsRanges(s: State, a: Action)
    requires RangesOk(s) && Enabled(s, a)
    ensures RangesOk(Apply(s, a))
  {
    var s' := Apply(s, a);
    forall q | q in s'.owner
      ensures s'.owner[q] in s'.claims && s'.claims[s'.owner[q]].lo <= q < s'.claims[s'.owner[q]].hi
    {
      assert q in s.owner ==> s.owner[q] in s.claims && s.claims[s.owner[q]].lo <= q < s.claims[s.owner[q]].hi;
      assert a.ClaimUpTo? || s'.owner == s.owner;
    }
  }

  /** A store puts a number where the number one ring before was, which every consumer has passed. */
  lemma StoreReplacesOneRingBefore(size: nat, initial: int, run: seq<Action>, s: State, id: Id, q: int)
    requires size > 0 && Reaches(Init(size, initial), run, s)
    requires id in s.claims && !s.claims[id].Waiting? && Pending(s.claims[id], q)
    ensures |s.published| == size && s.published[Slot(q, size)] == q - size <= s.consumed < q
    ensures Stored(Store(s.published, q), q)
    ensures forall x :: s.consumed < x && x != q ==> (Stored(Store(s.published, q), x) <==> Stored(s.published, x))
  {
    InitInv(size, initial);
    RunsKeepInv(Init(size, initial), run, s);
    assert ClaimOk(s.claims[id], s.size, s.next, s.consumed) && IsAhead(s, id, q);
    SlotHolds(s.size, s.published, s.next, s.consumed, q);
    forall x | s.consumed < x
      ensures Stored(Store(s.published, q), x) <==> x == q || Stored(s.published, x)
    {
      StoredAfter(s.size, s.published, s.next, s.consumed, q, x);
    }
  }

  /** Every claimed number is consumed, in its slot, or yet to be published by the one claim that owns it. */
  lemma NoNumberIsLost(size: nat, initial: int, run: seq<Action>, s: State, q: int)
    requires size > 0 && Reaches(Init(size, initial), run, s) && s.consumed < q < s.next
    ensures |s.published| == size
    ensures Stored(s.published, q) != Owned(s.claims, s.owner, q)
    ensures forall id :: id in s.claims && Pending(s.claims[id], q) ==> q in s.owner && id == s.owner[q]
  {
    InitInv(size, initial);
    RunsKeepInv(Init(size, initial), run, s);
    if Owned(s.claims, s.owner, q) {
      assert IsAhead(s, s.owner[q], q);
    }
    forall id | id in s.claims && Pending(s.claims[id], q)
      ensures q in s.owner && id == s.owner[q]
    {
      assert IsAhead(s, id, q);
    }
  }

  /** While a batch is being stored nothing of it is visible to a reader that goes through the published
      numbers in order, for its first number is stored last; the step that stores it makes all of the
      batch visible at once. */
  lemma BatchIsVisibleAtOnce(size: nat, initial: int, run: seq<Action>, s: State, id: Id, k: int, e: int)
    requires size > 0 && Reaches(Init(size, initial), run, s) && id in s.claims && s.claims[id].Batch?
    requires |s.published| > 0 && s.consumed <= k < s.claims[id].a && IsEnd(s.published, k, e)
    ensures e < s.claims[id].a
    ensures s.claims[id].k == s.claims[id].b && e == s.claims[id].a - 1 ==>
              AllStored(Apply(s, BatchStep(id)).published, k, s.claims[id].b - 1)
  {
    InitInv(size, initial);
    RunsKeepInv(Init(size, initial), run, s);
    var c := s.claims[id];
    assert ClaimOk(c, s.size, s.next, s.consumed) && IsAhead(s, id, c.a);
    BatchesAreStored(Init(size, initial), run, s);
    EndIsBefore(s.published, k, e, c.a);
    if c.k == c.b && e == c.a - 1 {
      forall q | k < q <= c.b - 1
        ensures Stored(Apply(s, BatchStep(id)).published, q)
      {
        assert q > c.a ==> Stored(s.published, q);
        StoredAfter(s.size, s.published, s.next, s.consumed, c.a, q);
      }
    }
  }

  lemma EndIsBefore(published: seq<int>, k: int, e: int, x: int)
    requires |published| > 0 && IsEnd(published, k, e) && k < x && !Stored(published, x)
    ensures e < x
  {
  }

  /** What a batch has got to so far is in the slots. */
  ghost predicate BatchesOk(s: State)
    requires |s.published| > 0
  {
    forall id :: id in s.claims && s.claims[id].Batch? ==> AllStored(s.published, s.claims[id].a, s.claims[id].k - 1)
  }

  lemma {:induction false} BatchesAreStored(s: State, run: seq<Action>, s': State)
    requires Inv(s) && BatchesOk(s) && Reaches(s, run, s')
    ensures Inv(s') && BatchesOk(s')
    decreases |run|
  {
    hide Inv, BatchesOk;
    if run != [] {
      StepKeepsInv(s, run[0]);
      StepKeepsBatches(s, run[0]);
      BatchesAreStored(Apply(s, run[0]), run[1..], s');
    }
  }

  lemma StoreKeepsRun(s: State, q: int, lo: int, hi: int)
    requires SlotsOk(s.size, s.published, s.next, s.consumed) && s.consumed < q <= s.consumed + s.size
    requires AllStored(s.published, lo, hi) && s.consumed <= lo
    ensures AllStored(Store(s.published, q), lo, hi)
  {
    forall x | lo < x <= hi
      ensures Stored(Store(s.published, q), x)
    {
      StoredAfter(s.size, s.published, s.next, s.consumed, q, x);
    }
  }

  /** A store by claim `id` keeps what every batch has got to; a batch gets one further by its own store. */
  lemma StoreKeepsBatches(s: State, id: Id, q: int, s': State)
    requires Inv(s) && BatchesOk(s) && id in s.claims && Moves(s.claims, id, s'.claims)
    requires s.consumed < q <= s.consumed + s.size && s'.published == Store(s.published, q)
    requires s'.claims[id].Batch? ==>
               s.claims[id].Batch? && s'.claims[id].a == s.claims[id].a && s'.claims[id].k == s.claims[id].k + 1 && q == s.claims[id].k
    ensures BatchesOk(s')
  {
    forall w | w in s'.claims && s'.claims[w].Batch?
      ensures AllStored(s'.published, s'.claims[w].a, s'.claims[w].k - 1)
    {
      assert IsAhead(s, w, s.claims[w].a) by {
        assert Pending(s.claims[w], s.claims[w].a);
      }
      StoreKeepsRun(s, q, s.claims[w].a, s.claims[w].k - 1);
    }
  }

  lemma StepKeepsBatches(s: State, a: Action)
    requires Inv(s) && BatchesOk(s) && Enabled(s, a)
    ensures |Apply(s, a).published| > 0 && BatchesOk(Apply(s, a))
  {
    if a.Publish? || a.BatchStep? {
      var c := s.claims[a.id];
      var q := if a.Publish? then a.q else if c.k < c.b then c.k else c.a;
      assert ClaimOk(c, s.size, s.next, s.consumed) && Pending(c, q) && IsAhead(s, a.id, q);
      hide Inv, BatchesOk, SlotsOk, PendingOk, ClaimsOk, Pending, Stored;
      StoreKeepsBatches(s, a.id, q, Apply(s, a));
    } else {
      QuietKeepsBatches(s, a);
    }
  }

  lemma QuietKeepsBatches(s: State, a: Action)
    requires |s.published| > 0 && BatchesOk(s) && Enabled(s, a) && !a.Publish? && !a.BatchStep?
    ensures Apply(s, a).published == s.published && BatchesOk(Apply(s, a))
  {
    hide Stored;
  }

  // ---------------------------------------------------------------- reading while others publish

  /** A published number stays in its slot until the consumers have passed it. */
  lemma {:induction false} PublishedStays(s: State, run: seq<Action>, s': State, q: int)
    requires Inv(s) && Reaches(s, run, s') && s'.consumed < q && Stored(s.published, q)
    ensures Inv(s') && s'.size == s.size && s.consumed <= s'.consumed && Stored(s'.published, q)
    decreases |run|
  {
    hide Inv, Stored;
    if run != [] {
      StepKeepsInv(s, run[0]);
      ConsumersAdvance(Apply(s, run[0]), run[1..], s');
      StepKeepsPublished(s, run[0], q);
      PublishedStays(Apply(s, run[0]), run[1..], s', q);
    }
  }

  lemma {:induction false} ConsumersAdvance(s: State, run: seq<Action>, s': State)
    requires Reaches(s, run, s')
    ensures s.consumed <= s'.consumed
    decreases |run|
  {
    if run != [] {
      ConsumersAdvance(Apply(s, run[0]), run[1..], s');
    }
  }

  lemma StepKeepsPublished(s: State, a: Action, q: int)
    requires Inv(s) && Enabled(s, a) && Apply(s, a).consumed < q && Stored(s.published, q)
    ensures |Apply(s, a).published| > 0 && Stored(Apply(s, a).published, q) && s.consumed <= Apply(s, a).consumed
  {
    if a.Publish? || a.BatchStep? {
      var c := s.claims[a.id];
      var x := if a.Publish? then a.q else if c.k < c.b then c.k else c.a;
      assert ClaimOk(c, s.size, s.next, s.consumed) && Pending(c, x) && IsAhead(s, a.id, x);
      StoredAfter(s.size, s.published, s.next, s.consumed, x, q);
    }
  }

  ghost predicate Follows(s: State, s': State)
  {
    exists run: seq<Action> :: Reaches(s, run, s')
  }

  /** The states in which `last_published_after(k)` makes its loads, one after the other: all but the last
      load find the number they look for. */
  ghost predicate Reading(states: seq<State>, k: int)
  {
    && states != [] && Inv(states[0])
    && (forall i :: 0 < i < |states| ==> Follows(states[i - 1], states[i]))
    && (forall i :: 0 <= i < |states| ==> |states[i].published| > 0)
    && (forall i :: 0 <= i < |states| - 1 ==> Stored(states[i].published, k + 1 + i))
    && !Stored(states[|states| - 1].published, k + |states|)
  }

  lemma {:induction false} StatesAreSafe(states: seq<State>, k: int, j: nat)
    requires Reading(states, k) && j < |states|
    ensures Inv(states[j]) && states[j].size == states[0].size
    decreases j
  {
    hide Inv, Stored;
    if j > 0 {
      var run: seq<Action> :| Reaches(states[j - 1], run, states[j]);
      StatesAreSafe(states, k, j - 1);
      RunsKeepInv(states[j - 1], run, states[j]);
    }
  }

  lemma {:induction false} ReadStays(states: seq<State>, k: int, i: nat, j: nat)
    requires Reading(states, k) && i <= j < |states| && i < |states| - 1 && states[j].consumed <= k + i
    ensures Stored(states[j].published, k + 1 + i)
    decreases j
  {
    hide Inv, Stored;
    if i < j {
      var run: seq<Action> :| Reaches(states[j - 1], run, states[j]);
      ConsumersAdvance(states[j - 1], run, states[j]);
      ReadStays(states, k, i, j - 1);
      StatesAreSafe(states, k, j - 1);
      PublishedStays(states[j - 1], run, states[j], k + 1 + i);
    }
  }

  /** Whatever producers and other consumers do between the loads, the number `last_published_after(k)`
      returns is the end of the published run at the moment of its last load, and it takes at most one
      load more than the ring has slots; all that is needed is that the barrier has not passed `k`. */
  lemma ReadingIsExact(states: seq<State>, k: int)
    requires Reading(states, k) && states[|states| - 1].consumed <= k
    ensures IsEnd(states[|states| - 1].published, k, k + |states| - 1)
    ensures |states| - 1 <= states[0].size
  {
    var n := |states| - 1;
    var last := states[n];
    forall q | k < q <= k + n
      ensures Stored(last.published, q)
    {
      ReadStays(states, k, q - k - 1, n);
    }
    StatesAreSafe(states, k, n);
    assert n > 0 ==> Stored(last.published, k + n);
  }

  // ---------------------------------------------------------------- what happens between the steps of a call

  predicate IsBy(id: Id, a: Action)
  {
    match a
    case Consume(_) => false
    case ClaimUpTo(w, _) => w == id
    case Admit(w) => w == id
    case Publish(w, _) => w == id
    case StartBatch(w, _, _) => w == id
    case BatchStep(w) => w == id
  }

  /** Everybody but one producer has done any number of steps. */
  ghost predicate OthersRan(id: Id, s: State, s': State)
  {
    exists run: seq<Action> :: Reaches(s, run, s') && forall i :: 0 <= i < |run| ==> !IsBy(id, run[i])
  }

  lemma NobodyRan(id: Id, s: State)
    ensures OthersRan(id, s, s) && Follows(s, s)
  {
    assert Reaches(s, [], s);
  }

  lemma OthersLeaveClaim(id: Id, s: State, s': State)
    requires Inv(s) && id in s.claims && OthersRan(id, s, s')
    ensures Inv(s') && s'.size == s.size && id in s'.claims && s'.claims[id] == s.claims[id]
  {
    hide Inv, Reaches;
    var run: seq<Action> :| Reaches(s, run, s') && forall i :: 0 <= i < |run| ==> !IsBy(id, run[i]);
    OtherRunsLeaveClaim(id, s, run, s');
  }

  lemma {:induction false} OtherRunsLeaveClaim(id: Id, s: State, run: seq<Action>, s': State)
    requires Inv(s) && id in s.claims && Reaches(s, run, s') && forall i :: 0 <= i < |run| ==> !IsBy(id, run[i])
    ensures Inv(s') && s'.size == s.size && id in s'.claims && s'.claims[id] == s.claims[id]
    decreases |run|
  {
    hide Inv;
    if run != [] {
      var mid := Apply(s, run[0]);
      assert !IsBy(id, run[0]);
      StepKeepsInv(s, run[0]);
      assert id in mid.claims && mid.claims[id] == s.claims[id] && mid.size == s.size;
      assert forall i :: 0 <= i < |run[1..]| ==> run[1..][i] == run[i + 1];
      OtherRunsLeaveClaim(id, mid, run[1..], s');
    }
  }

  /** The last store of a batch makes all of it readable. */
  lemma BatchCompletes(s: State, id: Id)
    requires Reachable(s) && |s.published| > 0 && id in s.claims && s.claims[id].Batch? && s.claims[id].k == s.claims[id].b
    ensures |Apply(s, BatchStep(id)).published| > 0
    ensures AllStored(Apply(s, BatchStep(id)).published, s.claims[id].a - 1, s.claims[id].b - 1)
  {
    var size: nat, initial: int, run: seq<Action> :| size > 0 && Reaches(Init(size, initial), run, s);
    InitInv(size, initial);
    BatchesAreStored(Init(size, initial), run, s);
    var c := s.claims[id];
    assert ClaimOk(c, s.size, s.next, s.consumed) && Pending(c, c.a) && IsAhead(s, id, c.a);
    forall q | c.a <= q < c.b
      ensures Stored(Apply(s, BatchStep(id)).published, q)
    {
      StoredAfter(s.size, s.published, s.next, s.consumed, c.a, q);
    }
  }

  /** What was published stays readable while the consumers stay where they are. */
  lemma RunStaysStored(s: State, s': State, k: int, e: int)
    requires Inv(s) && Follows(s, s') && |s.published| > 0 && s'.consumed <= k && AllStored(s.published, k, e)
    ensures Inv(s') && s'.size == s.size && AllStored(s'.published, k, e)
  {
    hide Inv, Stored;
    var run: seq<Action> :| Reaches(s, run, s');
    RunsKeepInv(s, run, s');
    PublishedIsThere(s');
    forall q | k < q <= e
      ensures Stored(s'.published, q)
    {
      PublishedStays(s, run, s', q);
    }
  }

  lemma PublishedIsThere(s: State)
    requires Inv(s)
    ensures |s.published| == s.size > 0
  {
  }
}
