/** `multi_producer_sequencer` with the program's own fields: wrapping words, and an array masked by its
    power-of-two size. Each method is proved to take the steps of the machine in `Ring`. The barrier the
    consumers publish to is its last published word. */
module MultiProducerSequencers {
  import opened Words
  import opened SequenceRanges
  import opened Ring

  /** `size_t` numbers are compared within half their range, so the buffer may be no larger than this. */
  const MAX_SIZE: nat := 0x7FFF_FFFF_FFFF_FFFF

  /** The array holds the words of the machine's numbers. */
  ghost predicate Mirrors(words: array<Word>, published: seq<int>)
    reads words
  {
    words.Length == |published| && forall i :: 0 <= i < |published| ==> words[i] == Wrap(published[i])
  }

  /** The loop of the constructor: `seq++ != initialSequence` ends it, even across wrap-around. */
  method FillInitial(published: array<Word>, initialSequence: Word, ghost initial: int)
    requires IsPowerOfTwo(published.Length) && published.Length <= MAX_SIZE && initialSequence == Wrap(initial)
    modifies published
    ensures Mirrors(published, Init(published.Length, initial).published)
  {
    hide Wrap, BitAnd, Slot;
    var bufferSize := published.Length;
    WrapOfSum(initial, bufferSize - 1);
    var sequence, done := Wrap(initialSequence as int - (bufferSize - 1)), false;
    ghost var x := initial - (bufferSize - 1);
    while !done
      invariant initial - bufferSize < x <= initial + 1 && sequence == Wrap(x) && (done <==> x == initial + 1)
      invariant Filled(published, initial - bufferSize, x)
      decreases initial + 1 - x
    {
      SlotOfWrap(x, bufferSize);
      FillOne(published[..], initial - bufferSize, x, bufferSize);
      published[BitAnd(sequence, bufferSize - 1)] := sequence;
      WrapOfSum(x, 1);
      done := sequence == initialSequence;
      if done {
        WrapIsInjectiveNearby(x, initial);
      }
      sequence, x := Wrap(sequence as int + 1), x + 1;
    }
    forall i | 0 <= i < bufferSize
      ensures published[i] == Wrap(InitialAt(initial, bufferSize, i))
    {
      assert published[Slot(InitialAt(initial, bufferSize, i), bufferSize)] == Wrap(InitialAt(initial, bufferSize, i));
    }
  }

  ghost predicate Filled(words: array<Word>, lo: int, x: int)
    reads words
  {
    words.Length > 0 && forall y :: lo < y < x ==> words[Slot(y, words.Length)] == Wrap(y)
  }

  lemma FillOne(words: seq<Word>, lo: int, x: int, size: nat)
    requires size > 0 && x - lo <= size
    ensures forall y :: lo < y < x ==> Slot(y, size) != Slot(x, size)
  {
    forall y | lo < y < x
      ensures Slot(y, size) != Slot(x, size)
    {
      SlotsNearbyDiffer(x, y, size);
    }
  }

  class MultiProducerSequencer {
    const sequenceMask: Word
    const published: array<Word>
    var nextToClaim: Word
    /** `m_consumerBarrier.last_published()`. */
    var consumerPublished: Word
    ghost var s: State

    ghost predicate Valid()
      reads this, published
    {
      && Reachable(s) && IsPowerOfTwo(s.size) && 0 < |s.published| == s.size <= MAX_SIZE && sequenceMask == s.size - 1
      && Mirrors(published, s.published) && nextToClaim == Wrap(s.next) && consumerPublished == Wrap(s.consumed)
    }

    /** The initialising loop leaves in every slot the last number up to the initial one that belongs there. */
    constructor (bufferSize: nat, initialSequence: Word, ghost initial: int)
      requires IsPowerOfTwo(bufferSize) && bufferSize <= MAX_SIZE && initialSequence == Wrap(initial)
      ensures Valid() && s == Init(bufferSize, initial) && fresh(published)
    {
      sequenceMask := bufferSize - 1;
      published := new Word[bufferSize];
      nextToClaim := Wrap(initialSequence as int + 1);
      consumerPublished := initialSequence;
      s := Init(bufferSize, initial);
      new;
      WrapOfSum(initial, 1);
      InitReachable(bufferSize, initial);
      FillInitial(published, initialSequence, initial);
    }

    ghost method Advance(a: Action)
      requires Reachable(s) && Enabled(s, a)
      modifies this`s
      ensures Reachable(s) && s == Apply(old(s), a)
    {
      StepKeepsReachable(s, a);
      s := Apply(s, a);
    }

    /** The fetch-and-add that claims numbers; `claim_one` is a claim of one. */
    method FetchAddClaim(id: Id, count: nat) returns (range: SequenceRange)
      requires Valid() && id !in s.claims
      modifies this`s, this`nextToClaim
      ensures Valid() && s == Apply(old(s), ClaimUpTo(id, count))
      ensures range == Of(old(s.next), s.next) && s.claims[id] == Waiting(old(s.next), s.next)
      ensures s.next - old(s.next) == range.Size() == if count < s.size then count else s.size
    {
      hide *;
      Open();
      var bufferSize := sequenceMask as int + 1;
      var n := if count < bufferSize then count else bufferSize;
      ClaimApplies(s, id, count);
      WrapOfSum(s.next, n);
      RangeOperations(s.next, s.next + n, 0);
      ghost var after := Apply(s, ClaimUpTo(id, count));
      range := SequenceRange(nextToClaim, Wrap(nextToClaim as int + n));
      nextToClaim := Wrap(nextToClaim as int + n);
      RangeIsOf(range, s.next, s.next + n);
      Advance(ClaimUpTo(id, count));
      assert s == after;
      Close();
    }

    /** `await_ready` of a claim: the last claimed number is at most one ring ahead of the consumers. The
        claims that are waiting must not span half the range of the words. */
    method TryAdmit(id: Id, range: SequenceRange) returns (ready: bool)
      requires Valid() && id in s.claims && s.claims[id].Waiting? && range == Of(s.claims[id].lo, s.claims[id].hi)
      requires -(SIZE / 2) < s.claims[id].hi - 1 - s.size - s.consumed < SIZE / 2
      modifies this`s
      ensures Valid() && (ready <==> old(s.claims[id].hi - 1 - s.size <= s.consumed)) && (ready <==> Enabled(old(s), Admit(id)))
      ensures var c := old(s.claims[id]); ready ==> id in s.claims && s.claims[id] == Admitted(c.lo, c.hi, Range(c.lo, c.hi))
      ensures if ready then s == Apply(old(s), Admit(id)) else s == old(s)
    {
      hide *;
      Open();
      ghost var target := s.claims[id].hi - 1 - s.size;
      AdmitApplies(s, id);
      BackOf(s.claims[id].lo, s.claims[id].hi, s.size);
      PrecedesIsLess(s.consumed, target);
      var bufferSize := sequenceMask as int + 1;
      ready := !Precedes(consumerPublished, Wrap(range.Back() as int - bufferSize));
      if ready {
        ghost var after := Apply(s, Admit(id));
        Advance(Admit(id));
        assert s == after;
      }
      Close();
    }

    /** Publishing one number. */
    method PublishOne(id: Id, sequence: Word, ghost q: int)
      requires Valid() && Enabled(s, Ring.Publish(id, q)) && sequence == Wrap(q)
      modifies this`s, published
      ensures Valid() && s == Apply(old(s), Ring.Publish(id, q)) && Stored(s.published, q)
    {
      hide *;
      Open();
      PublishApplies(s, id, q);
      ghost var after := Apply(s, Ring.Publish(id, q));
      StoreWord(sequence, q);
      Advance(Ring.Publish(id, q));
      assert s == after;
      Close();
    }

    /** The masked store. */
    method StoreWord(sequence: Word, ghost q: int)
      requires IsPowerOfTwo(s.size) && 0 < |s.published| == s.size <= MAX_SIZE && sequenceMask == s.size - 1
      requires Mirrors(published, s.published) && sequence == Wrap(q)
      modifies published
      ensures Mirrors(published, Store(s.published, q))
    {
      SlotOfWrap(q, s.size);
      published[BitAnd(sequence, sequenceMask)] := sequence;
    }

    /** One store of a batch. */
    method StoreOfBatch(id: Id, sequence: Word)
      requires Valid() && Enabled(s, BatchStep(id))
      requires var c := s.claims[id]; sequence == Wrap(if c.k < c.b then c.k else c.a)
      modifies this`s, published
      ensures Valid() && s == Apply(old(s), BatchStep(id))
    {
      hide *;
      Open();
      BatchApplies(s, id);
      ghost var after, c := Apply(s, BatchStep(id)), s.claims[id];
      StoreWord(sequence, if c.k < c.b then c.k else c.a);
      Advance(BatchStep(id));
      assert s == after;
      Close();
    }

    /** Any steps of the others, between two steps of one producer: a caller knows no more than the contract. */
    method Others(ghost id: Id)
      requires Valid()
      modifies this, published
      ensures Valid() && OthersRan(id, old(s), s)
    {
      NobodyRan(id, s);
    }

    method Pause(ghost id: Id)
      requires Valid() && id in s.claims
      modifies this, published
      ensures Valid() && id in s.claims && s.claims[id] == old(s.claims[id]) && s.size == old(s.size)
    {
      hide Reachable, OthersRan;
      ghost var before := s;
      ReachableInv(s);
      Others(id);
      OthersLeaveClaim(id, before, s);
    }

    /** Publishing a range: all but its first number in a loop, the first one last, whatever others do between
        two stores. At the end all of it is readable. */
    method PublishRange(id: Id, range: SequenceRange, ghost a: int, ghost b: int)
      requires Valid() && a <= b && range == Of(a, b)
      requires a < b ==> Enabled(s, StartBatch(id, a, b))
      modifies this, published
      ensures Valid() && (a == b ==> s == old(s))
      ensures a < b ==>
                && id in s.claims
                && s.claims[id] == Admitted(old(s.claims[id].lo), old(s.claims[id].hi), old(s.claims[id].left) - Range(a, b))
                && AllStored(s.published, a - 1, b - 1)
    {
      hide *;
      Open();
      RangeIsShort(s, id, a, b);
      RangeOperations(a, b, 1);
      if range.Empty() {
        return;
      }
      StartApplies(s, id, a, b);
      ghost var c := s.claims[id];
      Begin(id, a, b);
      var rest := range.Skip(1);
      RangeWords(rest, a + 1, b);
      var sequence := rest.begin;
      ghost var k := a + 1;
      while sequence != rest.end
        invariant a < k <= b && sequence == Wrap(k) && rest.end == Wrap(b) && Valid()
        invariant id in s.claims && s.claims[id] == Batch(c.lo, c.hi, c.left - Range(a, b), a, b, k)
        decreases b - k
      {
        WrapDiffers(k, b);
        Pause(id);
        Open();
        BatchTurns(s, id);
        StoreOfBatch(id, sequence);
        NextWord(k);
        sequence, k := Wrap(sequence as int + 1), k + 1;
      }
      WrapMeets(k, b, b - a);
      Pause(id);
      Open();
      BatchTurns(s, id);
      BatchCompletes(s, id);
      StoreOfBatch(id, range.Front());
    }

    ghost method Begin(id: Id, a: int, b: int)
      requires Valid() && Enabled(s, StartBatch(id, a, b))
      modifies this`s
      ensures Valid() && s == Apply(old(s), StartBatch(id, a, b))
    {
      StepKeepsReachable(s, StartBatch(id, a, b));
      s := Apply(s, StartBatch(id, a, b));
    }

    /** The consumers publish to their barrier a number they found published. */
    method PublishConsumed(sequence: Word, ghost q: int)
      requires Valid() && Enabled(s, Consume(q)) && sequence == Wrap(q)
      modifies this`s, this`consumerPublished
      ensures Valid() && s == Apply(old(s), Consume(q))
    {
      consumerPublished := sequence;
      StepKeepsReachable(s, Consume(q));
      s := Apply(s, Consume(q));
    }

    /** Any steps of others while the consumers' barrier stays where it is or goes no further than `k`: the
        reader is one of the consumers, and has yet to publish that it has read more. */
    method Publishers(ghost k: int)
      requires Valid() && s.consumed <= k
      modifies this, published
      ensures Valid() && Follows(old(s), s) && s.consumed <= k
    {
      NobodyRan(0, s);
    }

    /** The end of the published run after a number the consumers' barrier has not passed, whatever others
        publish between two loads: it is exact at the last load. */
    method LastPublishedAfter(lastKnownPublished: Word, ghost k: int) returns (last: Word, ghost e: int)
      requires Valid() && s.consumed <= k && (k == s.consumed || Stored(s.published, k)) && lastKnownPublished == Wrap(k)
      modifies this, published
      ensures Valid() && |s.published| == s.size == old(s.size)
      ensures last == Wrap(e) && IsEnd(s.published, k, e) && e - k <= s.size
    {
      hide Reachable, Stored, Mirrors, Follows, Wrap, BitAnd;
      Open();
      StoredIsNear(s, k);
      last, e := lastKnownPublished, k;
      WrapOfSum(k, 1);
      var sequence := Wrap(lastKnownPublished as int + 1);
      ghost var size := s.size;
      WaitForLoad(k, e);
      while LoadIs(sequence, e + 1)
        invariant Valid() && s.consumed <= k && s.size == size
        invariant k <= e <= s.consumed + s.size && last == Wrap(e) && sequence == Wrap(e + 1)
        invariant AllStored(s.published, k, e)
        decreases k + size - e
      {
        StoredIsNear(s, e + 1);
        last, e := sequence, e + 1;
        WrapOfSum(e, 1);
        sequence := Wrap(sequence as int + 1);
        WaitForLoad(k, e);
      }
    }

    /** Between two loads of a reader. */
    method WaitForLoad(ghost k: int, ghost e: int)
      requires Valid() && s.consumed <= k <= e <= s.consumed + s.size && AllStored(s.published, k, e)
      modifies this, published
      ensures Valid() && s.size == old(s.size) && s.consumed <= k && e <= s.consumed + s.size && AllStored(s.published, k, e)
    {
      hide Reachable, Stored, Mirrors, Follows;
      ghost var before := s;
      ReachableInv(s);
      Publishers(k);
      RunStaysStored(before, s, k, e);
      FollowsAdvances(before, s);
    }

    /** Comparing the loaded word with the one looked for is comparing the numbers. */
    predicate LoadIs(sequence: Word, ghost q: int): (r: bool)
      requires Valid() && s.consumed < q <= s.consumed + s.size + 1 && sequence == Wrap(q)
      reads this, published
      ensures r <==> Stored(s.published, q)
    {
      SlotOfWrap(q, s.size);
      LoadAgrees(published, s, q);
      published[BitAnd(sequence, sequenceMask)] == sequence
    }

    lemma Open()
      requires Valid()
      ensures Reachable(s) && IsPowerOfTwo(s.size) && 0 < s.size <= MAX_SIZE && sequenceMask == s.size - 1
      ensures |s.published| == s.size && published.Length == s.size
      ensures Mirrors(published, s.published) && nextToClaim == Wrap(s.next) && consumerPublished == Wrap(s.consumed)
      ensures MAX_SIZE < SIZE / 2
    {
    }

    lemma Close()
      requires Reachable(s) && IsPowerOfTwo(s.size) && 0 < |s.published| == s.size <= MAX_SIZE && sequenceMask == s.size - 1
      requires Mirrors(published, s.published) && nextToClaim == Wrap(s.next) && consumerPublished == Wrap(s.consumed)
      ensures Valid()
    {
    }
  }

  lemma RangeIsOf(range: SequenceRange, lo: int, hi: int)
    requires range.begin == Wrap(lo) && range.end == Wrap(hi)
    ensures range == Of(lo, hi)
  {
  }

  lemma ClaimApplies(s: State, id: Id, count: nat)
    requires |s.published| > 0 && id !in s.claims
    ensures Enabled(s, ClaimUpTo(id, count))
    ensures var s', n := Apply(s, ClaimUpTo(id, count)), if count < s.size then count else s.size;
            && s'.size == s.size && s'.published == s.published && s'.next == s.next + n && s'.consumed == s.consumed
            && id in s'.claims && s'.claims[id] == Waiting(s.next, s.next + n)
  {
  }

  lemma BackOf(lo: int, hi: int, size: nat)
    ensures Wrap(Of(lo, hi).Back() as int - size) == Wrap(hi - 1 - size)
  {
    WrapOfSum(hi, 1);
    WrapOfSum(hi - 1, size);
  }

  lemma PrecedesIsLess(x: int, y: int)
    requires -(SIZE / 2) < y - x < SIZE / 2
    ensures Precedes(Wrap(x), Wrap(y)) <==> x < y
  {
    DifferenceOfWraps(x, y);
  }

  lemma AdmitApplies(s: State, id: Id)
    requires |s.published| > 0 && id in s.claims && s.claims[id].Waiting?
    ensures Enabled(s, Admit(id)) <==> s.claims[id].hi - 1 - s.size <= s.consumed
    ensures Enabled(s, Admit(id)) ==>
              var s' := Apply(s, Admit(id));
              && s'.size == s.size && s'.published == s.published && s'.next == s.next && s'.consumed == s.consumed
              && id in s'.claims && s'.claims[id] == Admitted(s.claims[id].lo, s.claims[id].hi, Range(s.claims[id].lo, s.claims[id].hi))
  {
  }

  lemma PublishApplies(s: State, id: Id, q: int)
    requires Enabled(s, Ring.Publish(id, q))
    ensures var s' := Apply(s, Ring.Publish(id, q));
            && s'.size == s.size && s'.published == Store(s.published, q) && s'.next == s.next && s'.consumed == s.consumed
            && |s'.published| == |s.published| && Stored(s'.published, q)
  {
  }

  lemma BatchApplies(s: State, id: Id)
    requires Enabled(s, BatchStep(id))
    ensures id in s.claims && s.claims[id].Batch?
    ensures var s', c := Apply(s, BatchStep(id)), s.claims[id];
            && s'.size == s.size && s'.published == Store(s.published, if c.k < c.b then c.k else c.a)
            && s'.next == s.next && s'.consumed == s.consumed && |s'.published| == |s.published|
  {
  }

  lemma StoredIsNear(s: State, q: int)
    requires Reachable(s) && |s.published| > 0 && (q == s.consumed || Stored(s.published, q))
    ensures q <= s.consumed + s.size
  {
    ReachableInv(s);
  }

  lemma LoadAgrees(words: array<Word>, s: State, q: int)
    requires Reachable(s) && 0 < |s.published| == s.size <= MAX_SIZE && Mirrors(words, s.published)
    requires s.consumed < q <= s.consumed + s.size + 1
    ensures words[Slot(q, s.size)] == Wrap(q) <==> Stored(s.published, q)
  {
    ReachableInv(s);
    var v := s.published[Slot(q, s.size)];
    if Wrap(v) == Wrap(q) {
      WrapIsInjectiveNearby(v, q);
    }
  }

  // ---------------------------------------------------------------- the steps of a batch

  lemma RangeIsShort(s: State, id: Id, a: int, b: int)
    requires Reachable(s) && 0 < |s.published| == s.size <= MAX_SIZE && a <= b
    requires a < b ==> Enabled(s, StartBatch(id, a, b))
    ensures b - a <= s.size < SIZE / 2
  {
    ReachableInv(s);
    if a < b {
      assert ClaimOk(s.claims[id], s.size, s.next, s.consumed);
      assert a in Range(a, b) && b - 1 in Range(a, b);
      assert IsAhead(s, id, a);
    }
  }

  lemma StartApplies(s: State, id: Id, a: int, b: int)
    requires Enabled(s, StartBatch(id, a, b))
    ensures id in s.claims && s.claims[id].Admitted? && |s.published| > 0
    ensures var s', c := Apply(s, StartBatch(id, a, b)), s.claims[id];
            && s'.size == s.size && s'.published == s.published && s'.next == s.next && s'.consumed == s.consumed
            && id in s'.claims && s'.claims[id] == Batch(c.lo, c.hi, c.left - Range(a, b), a, b, a + 1)
            && s' == s.(claims := s'.claims) && s'.claims == s.claims[id := s'.claims[id]]
  {
  }

  lemma BatchTurns(s: State, id: Id)
    requires |s.published| > 0 && id in s.claims && s.claims[id].Batch?
    ensures Enabled(s, BatchStep(id))
    ensures var s', c := Apply(s, BatchStep(id)), s.claims[id];
            && id in s'.claims
            && s'.claims[id] == if c.k < c.b then Batch(c.lo, c.hi, c.left, c.a, c.b, c.k + 1) else Admitted(c.lo, c.hi, c.left)
  {
  }

  lemma FollowsAdvances(s: State, s': State)
    requires Follows(s, s')
    ensures s.consumed <= s'.consumed
  {
    var run: seq<Action> :| Reaches(s, run, s');
    ConsumersAdvance(s, run, s');
  }

  lemma RangeWords(range: SequenceRange, lo: int, hi: int)
    requires range == Of(lo, hi)
    ensures range.begin == Wrap(lo) && range.end == Wrap(hi)
  {
  }

  lemma WrapDiffers(k: int, b: int)
    requires Wrap(k) != Wrap(b)
    ensures k != b
  {
  }

  lemma WrapMeets(k: int, b: int, n: int)
    requires Wrap(k) == Wrap(b) && b - n < k <= b && n < SIZE
    ensures k == b
  {
    WrapIsInjectiveNearby(k, b);
  }

  lemma NextWord(k: int)
    ensures Wrap(Wrap(k) + 1) == Wrap(k + 1)
  {
    WrapOfSum(k, 1);
  }
}
