/** `single_producer_sequencer`: the one producer claims numbers up to one ring ahead of the consumers. The
    barriers are their last published words; waiting on them is the business of `SequenceBarriers`. */
module SingleProducerSequencers {
  import opened Words
  import opened SequenceRanges

  /** The range `[lo, hi)` handed out to a claim of up to `count` numbers, which found `known` published by
      the consumers. */
  datatype Claim = Claim(lo: int, hi: int, count: nat, known: int)

  /** The sequencer with unbounded numbers; `claimed` records the claims, in order. */
  datatype State = State(size: nat, initial: int, next: int, published: int, consumed: int, claimed: seq<Claim>)

  /** A claim that found `known`, a number the consumers have published, when it was resumed. */
  datatype Action = ClaimOne(known: int) | ClaimUpTo(known: int, count: nat) | Publish(q: int) | Consume(q: int)

  function Init(size: nat, initial: int): State
  {
    State(size, initial, initial + 1, initial, initial, [])
  }

  /** A claim is resumed with a published number of the consumers' barrier that has reached its target. */
  predicate IsKnown(s: State, known: int)
  {
    s.next - s.size <= known <= s.consumed
  }

  predicate Enabled(s: State, a: Action)
  {
    match a
    case ClaimOne(known) => IsKnown(s, known)
    case ClaimUpTo(known, _) => IsKnown(s, known)
    case Publish(q) => s.published <= q < s.next
    case Consume(q) => s.consumed <= q <= s.published
  }

  function Claimed(s: State, end: int, count: nat, known: int): State
  {
    s.(next := end, claimed := s.claimed + [Claim(s.next, end, count, known)])
  }

  function Apply(s: State, a: Action): State
    requires Enabled(s, a)
  {
    match a
    case ClaimOne(known) => Claimed(s, s.next + 1, 1, known)
    case ClaimUpTo(known, count) =>
      var available := known + s.size - s.next + 1;
      Claimed(s, s.next + (if count < available then count else available), count, known)
    case Publish(q) => s.(published := q)
    case Consume(q) => s.(consumed := q)
  }

  ghost predicate Reaches(s: State, run: seq<Action>, s': State)
    decreases |run|
  {
    if run == [] then s == s'
    else Enabled(s, run[0]) && Reaches(Apply(s, run[0]), run[1..], s')
  }

  /** The claims follow one another without gap or overlap, from `start` to `end`, and each is fair. */
  ghost predicate Contiguous(claims: seq<Claim>, size: nat, start: int, end: int)
  {
    && (if claims == [] then start == end else claims[0].lo == start && claims[|claims| - 1].hi == end)
    && (forall i :: 0 <= i < |claims| ==> IsFair(claims[i], size))
    && forall i :: 0 < i < |claims| ==> claims[i - 1].hi == claims[i].lo
  }

  /** A claim gets what it asked for, or else everything up to one ring past what was known to be consumed;
      only one that asks for nothing gets nothing. */
  predicate IsFair(c: Claim, size: nat)
  {
    && c.lo <= c.hi <= c.lo + c.count && (c.lo == c.hi <==> c.count == 0)
    && c.hi - 1 <= c.known + size && (c.hi < c.lo + c.count ==> c.hi - 1 == c.known + size)
  }

  ghost predicate Inv(s: State)
  {
    && s.consumed <= s.published < s.next <= s.consumed + s.size + 1
    && Contiguous(s.claimed, s.size, s.initial + 1, s.next)
    && forall i :: 0 <= i < |s.claimed| ==> s.claimed[i].known <= s.consumed
  }

  lemma StepKeepsInv(s: State, a: Action)
    requires Inv(s) && Enabled(s, a)
    ensures Inv(Apply(s, a))
  {
  }

  lemma {:induction false} RunsKeepInv(s: State, run: seq<Action>, s': State)
    requires Inv(s) && Reaches(s, run, s')
    ensures Inv(s') && s'.initial == s.initial && s'.size == s.size
    decreases |run|
  {
    if run != [] {
      StepKeepsInv(s, run[0]);
      RunsKeepInv(Apply(s, run[0]), run[1..], s');
    }
  }

  lemma {:induction false} RangesAreOrdered(claims: seq<Claim>, size: nat, start: int, end: int, i: nat, j: nat)
    requires Contiguous(claims, size, start, end) && i < j < |claims|
    ensures claims[i].hi <= claims[j].lo
    decreases j
  {
    if i + 1 < j {
      RangesAreOrdered(claims, size, start, end, i, j - 1);
      assert IsFair(claims[j - 1], size);
    }
  }

  /** Over any run the claimed ranges are non-empty unless nothing was asked for, follow one another, are
      disjoint, and never extend more than the buffer size beyond what the consumers have published. A claim
      that gets less than it asked for gets every number up to one ring past what it knew to be consumed. */
  lemma ClaimsAreSafe(size: nat, initial: int, run: seq<Action>, s: State)
    requires Reaches(Init(size, initial), run, s)
    ensures Contiguous(s.claimed, size, initial + 1, s.next)
    ensures forall i :: 0 <= i < |s.claimed| && s.claimed[i].count >= 1 ==> s.claimed[i].lo < s.claimed[i].hi
    ensures forall i, j :: 0 <= i < j < |s.claimed| ==> s.claimed[i].hi <= s.claimed[j].lo
    ensures forall i :: 0 <= i < |s.claimed| ==> s.claimed[i].hi - 1 <= s.claimed[i].known + size <= s.consumed + size
    ensures forall i :: 0 <= i < |s.claimed| && s.claimed[i].hi - s.claimed[i].lo < s.claimed[i].count ==>
              s.claimed[i].hi - 1 == s.claimed[i].known + size
  {
    RunsKeepInv(Init(size, initial), run, s);
    assert forall i :: 0 <= i < |s.claimed| ==> IsFair(s.claimed[i], size);
    forall i, j | 0 <= i < j < |s.claimed|
      ensures s.claimed[i].hi <= s.claimed[j].lo
    {
      RangesAreOrdered(s.claimed, size, initial + 1, s.next, i, j);
    }
  }

  ghost predicate Reachable(s: State)
  {
    exists run: seq<Action> :: Reaches(Init(s.size, s.initial), run, s)
  }

  lemma ReachableInv(s: State)
    requires Reachable(s)
    ensures Inv(s)
  {
    var run: seq<Action> :| Reaches(Init(s.size, s.initial), run, s);
    RunsKeepInv(Init(s.size, s.initial), run, s);
  }

  lemma {:induction false} OneMore(s: State, run: seq<Action>, s': State, a: Action)
    requires Reaches(s, run, s') && Enabled(s', a)
    ensures Reaches(s, run + [a], Apply(s', a))
    decreases |run|
  {
    if run == [] {
      assert [a][1..] == [];
      assert Reaches(Apply(s, a), [], Apply(s, a));
      assert run + [a] == [a];
    } else {
      OneMore(Apply(s, run[0]), run[1..], s', a);
      assert (run + [a])[1..] == run[1..] + [a];
    }
  }

  lemma StepKeepsReachable(s: State, a: Action)
    requires Reachable(s) && Enabled(s, a)
    ensures Reachable(Apply(s, a))
  {
    var run: seq<Action> :| Reaches(Init(s.size, s.initial), run, s);
    OneMore(Init(s.size, s.initial), run, s, a);
  }

  /** Comparisons are within half the range as long as the buffer is smaller than that. */
  const MAX_SIZE: nat := 0x7FFF_FFFF_FFFF_FFFF

  class SingleProducerSequencer {
    const bufferSize: nat
    var nextToClaim: Word
    var producerPublished: Word
    /** `m_consumerBarrier.last_published()`. */
    var consumerPublished: Word
    ghost var s: State

    ghost predicate Valid()
      reads this
    {
      && Reachable(s) && bufferSize == s.size <= MAX_SIZE
      && nextToClaim == Wrap(s.next) && producerPublished == Wrap(s.published) && consumerPublished == Wrap(s.consumed)
    }

    constructor (bufferSize: nat, initialSequence: Word, ghost initial: int)
      requires bufferSize <= MAX_SIZE && initialSequence == Wrap(initial)
      ensures Valid() && s == Init(bufferSize, initial)
    {
      WrapOfSum(initial, 1);
      this.bufferSize, nextToClaim := bufferSize, Wrap(initialSequence as int + 1);
      producerPublished, consumerPublished := initialSequence, initialSequence;
      s := Init(bufferSize, initial);
      new;
      assert Reaches(Init(bufferSize, initial), [], s);
    }

    /** The target of a claim, and `await_ready`: whether the consumers have reached it. */
    method AwaitReady() returns (target: Word, ready: bool)
      requires Valid()
      ensures target == Wrap(s.next - s.size)
      ensures ready <==> s.next - s.size <= s.consumed
      ensures ready <==> IsKnown(s, s.consumed)
    {
      ReachableInv(s);
      WrapOfSum(s.next, s.size);
      DifferenceOfWraps(s.consumed, s.next - s.size);
      target := Wrap(nextToClaim as int - bufferSize);
      ready := !Precedes(consumerPublished, target);
    }

    /** `claim_one`'s `await_resume`: `m_nextToClaim++`. */
    method ResumeClaimOne(ghost known: int) returns (sequence: Word)
      requires Valid() && IsKnown(s, known)
      modifies this`s, this`nextToClaim
      ensures Valid() && s == Apply(old(s), ClaimOne(known))
      ensures sequence == Wrap(old(s.next)) && s.next == old(s.next) + 1
    {
      WrapOfSum(s.next, 1);
      sequence := nextToClaim;
      nextToClaim := Wrap(nextToClaim as int + 1);
      StepKeepsReachable(s, ClaimOne(known));
      s := Apply(s, ClaimOne(known));
    }

    /** `claim_up_to`'s `await_resume`: `count` numbers, or all that are free when those are fewer. */
    method ResumeClaimUpTo(lastKnownPublished: Word, count: Word, ghost known: int) returns (range: SequenceRange)
      requires Valid() && IsKnown(s, known) && lastKnownPublished == Wrap(known)
      modifies this`s, this`nextToClaim
      ensures Valid() && s == Apply(old(s), ClaimUpTo(known, count))
      ensures range == Of(old(s.next), s.next)
      ensures var available := known + bufferSize - old(s.next) + 1;
              available >= 1 && range.Size() == if count < available then count else available
    {
      hide Wrap, Reachable, Contiguous;
      ReachableInv(s);
      ghost var available := known + s.size - s.next + 1;
      WrapOfSum(known, s.size);
      AvailableWord(known, s.size, s.next);
      var lastAvailableSequence := Wrap(lastKnownPublished as int + bufferSize);
      var begin := nextToClaim;
      var availableCount := Wrap(Wrap(lastAvailableSequence as int - begin) + 1);
      var countToClaim := if count < availableCount then count else availableCount;
      WrapOfSum(s.next, countToClaim);
      var end := Wrap(begin as int + countToClaim);
      nextToClaim := end;
      range := SequenceRange(begin, end);
      RangeOperations(s.next, s.next + countToClaim, 0);
      StepKeepsReachable(s, ClaimUpTo(known, count));
      s := Apply(s, ClaimUpTo(known, count));
    }

    method PublishUpTo(range: SequenceRange, ghost q: int)
      requires Valid() && Enabled(s, Publish(q)) && range.end == Wrap(q + 1)
      modifies this`s, this`producerPublished
      ensures Valid() && s == Apply(old(s), Publish(q))
    {
      WrapOfSum(q + 1, 1);
      producerPublished := range.Back();
      StepKeepsReachable(s, Publish(q));
      s := Apply(s, Publish(q));
    }

    method PublishConsumed(sequence: Word, ghost q: int)
      requires Valid() && Enabled(s, Consume(q)) && sequence == Wrap(q)
      modifies this`s, this`consumerPublished
      ensures Valid() && s == Apply(old(s), Consume(q))
    {
      consumerPublished := sequence;
      StepKeepsReachable(s, Consume(q));
      s := Apply(s, Consume(q));
    }
  }

  /** The unsigned difference is the number of free slots less one, even across wrap-around. */
  lemma AvailableWord(known: int, size: nat, next: int)
    requires next - size <= known < next && size <= MAX_SIZE
    ensures Wrap(Wrap(Wrap(known + size) - Wrap(next)) + 1) == known + size - next + 1
  {
    hide Wrap;
    WrapOfDifference(known + size, next);
    WrapOfSum(known + size - next, 1);
    WrapSmall(known + size - next + 1);
  }
}
