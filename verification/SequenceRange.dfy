/** `sequence_range`: a range of wrapping sequence numbers. */
module SequenceRanges {
  import opened Words

  datatype SequenceRange = SequenceRange(begin: Word, end: Word) {
    function Front(): Word
    {
      begin
    }

    function Back(): Word
    {
      Wrap(end - 1)
    }

    function Size(): Word
    {
      Wrap(Difference(end, begin))
    }

    predicate Empty()
    {
      begin == end
    }

    function At(index: Word): Word
    {
      Wrap(begin + index)
    }

    function First(count: Word): SequenceRange
    {
      SequenceRange(begin, Wrap(begin + if Size() < count then Size() else count))
    }

    function Skip(count: Word): SequenceRange
    {
      SequenceRange(Wrap(begin + if Size() < count then Size() else count), end)
    }
  }

  /** The range of the words of `lo`, ..., `hi - 1`. */
  function Of(lo: int, hi: int): SequenceRange
  {
    SequenceRange(Wrap(lo), Wrap(hi))
  }

  /** For fewer than 2^63 numbers the operations on words are those on the numbers, across wrap-around. */
  lemma RangeOperations(lo: int, hi: int, count: Word)
    requires lo <= hi < lo + SIZE / 2
    ensures var r, n := Of(lo, hi), if count < hi - lo then count as int else hi - lo;
            && r.Front() == Wrap(lo) && r.Back() == Wrap(hi - 1) && r.Size() == hi - lo && (r.Empty() <==> lo == hi)
            && r.First(count) == Of(lo, lo + n) && r.Skip(count) == Of(lo + n, hi)
    ensures Of(lo, hi).At(count) == Wrap(lo + count)
  {
    hide Wrap, Difference;
    var n := if count < hi - lo then count as int else hi - lo;
    WrapSmall(hi - lo);
    DifferenceOfWraps(hi, lo);
    WrapOfSum(lo, n);
    WrapOfSum(lo, count);
    WrapOfSum(hi, 1);
    if Wrap(lo) == Wrap(hi) {
      WrapIsInjectiveNearby(lo, hi);
    }
  }
}
