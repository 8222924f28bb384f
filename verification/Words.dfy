/** The 64-bit unsigned integers (`std::size_t`, `std::uint64_t`) the library computes with, and the
    facts about wrap-around and masking that its ring buffers and sequence numbers rely on. */
module Words {

  /** 2^64. */
  const SIZE: int := 0x1_0000_0000_0000_0000

  type Word = w: nat | w < SIZE

  /** Conversion of an unbounded number to a word: what unsigned arithmetic keeps of it. */
  function Wrap(x: int): (w: Word)
  {
    x % SIZE
  }

  /** The cast of a word to the signed type of the same width. */
  function Signed(w: Word): (d: int)
    ensures -(SIZE / 2) <= d < SIZE / 2
  {
    if w < SIZE / 2 then w else w - SIZE
  }

  /** `static_cast<difference_type>(a - b)`. */
  function Difference(a: Word, b: Word): int
  {
    Signed(Wrap(a - b))
  }

  /** The wrap-around order of sequence numbers. */
  predicate Precedes(a: Word, b: Word)
  {
    Difference(a, b) < 0
  }

  lemma WrapSmall(x: int)
    requires 0 <= x < SIZE
    ensures Wrap(x) == x
  {
  }

  lemma WrapOfSum(x: int, y: int)
    ensures Wrap(Wrap(x) + y) == Wrap(x + y)
    ensures Wrap(Wrap(x) - y) == Wrap(x - y)
  {
    var k := x / SIZE;
    assert Wrap(x) == x - k * SIZE;
    WrapShift(x + y, -k);
    WrapShift(x - y, -k);
  }

  lemma WrapOfDifference(x: int, y: int)
    ensures Wrap(Wrap(x) - Wrap(y)) == Wrap(x - y)
  {
    WrapOfSum(x, 0 - Wrap(y));
    var k := y / SIZE;
    assert Wrap(y) == y - k * SIZE;
    WrapShift(x - y, k);
  }

  lemma {:induction false} WrapShift(x: int, k: int)
    ensures Wrap(x + k * SIZE) == Wrap(x)
    decreases if k < 0 then -k else k
  {
    if k > 0 {
      WrapShift(x, k - 1);
      assert x + k * SIZE == x + (k - 1) * SIZE + SIZE;
    } else if k < 0 {
      WrapShift(x, k + 1);
      assert x + k * SIZE == x + (k + 1) * SIZE - SIZE;
    }
  }

  /** Within half the range, the signed difference of two wrapped numbers is their true difference. */
  lemma DifferenceOfWraps(x: int, y: int)
    requires -(SIZE / 2) <= x - y < SIZE / 2
    ensures Difference(Wrap(x), Wrap(y)) == x - y
  {
    WrapOfDifference(x, y);
  }

  /** A multiple of `d` of absolute value less than `d` is zero. */
  lemma SmallMultipleIsZero(q: int, d: int)
    requires d > 0
    requires 0 - d < q * d < d
    ensures q == 0
  {
    MultipleBounds(q, d);
  }

  lemma MultipleBounds(q: int, d: int)
    requires d > 0
    ensures q >= 1 ==> q * d >= d
    ensures q <= -1 ==> q * d <= 0 - d
  {
  }

  /** Two numbers less than 2^64 apart are equal when their words are. */
  lemma WrapIsInjectiveNearby(x: int, y: int)
    requires 0 - SIZE < x - y < SIZE
    requires Wrap(x) == Wrap(y)
    ensures x == y
  {
    var q := x / SIZE - y / SIZE;
    assert x - y == q * SIZE;
    SmallMultipleIsZero(q, SIZE);
  }

  /** Bitwise conjunction of two unsigned numbers. */
  function BitAnd(a: nat, b: nat): nat
  {
    if a == 0 || b == 0 then 0
    else 2 * BitAnd(a / 2, b / 2) + (if a % 2 == 1 && b % 2 == 1 then 1 else 0)
  }

  predicate IsPowerOfTwo(n: nat)
  {
    n == 1 || (n > 1 && n % 2 == 0 && IsPowerOfTwo(n / 2))
  }

  /** `w & (size - 1)` is the remainder by `size` exactly because `size` is a power of two. */
  lemma {:induction false} MaskIsRemainder(w: nat, size: nat)
    requires IsPowerOfTwo(size)
    ensures BitAnd(w, size - 1) == w % size
    decreases size
  {
    if size == 1 || w == 0 {
    } else {
      var half := size / 2;
      MaskIsRemainder(w / 2, half);
      MaskUnfolds(w, half);
      RemainderByEven(w, half);
      assert size == 2 * half;
    }
  }

  lemma MaskUnfolds(w: nat, half: nat)
    requires w > 0 && half > 0
    ensures BitAnd(w, 2 * half - 1) == 2 * BitAnd(w / 2, half - 1) + w % 2
  {
    var b := 2 * half - 1;
    assert b / 2 == half - 1 && b % 2 == 1;
    assert BitAnd(w, b) == 2 * BitAnd(w / 2, b / 2) + w % 2;
  }

  lemma RemainderByEven(w: nat, half: nat)
    requires half > 0
    ensures w % (2 * half) == 2 * ((w / 2) % half) + w % 2
  {
    var q, r := (w / 2) / half, (w / 2) % half;
    assert w / 2 == q * half + r;
    assert w == q * (2 * half) + (2 * r + w % 2);
    RemainderIs(w, 2 * half, q, 2 * r + w % 2);
  }

  /** A quotient and a small remainder determine each other. */
  lemma RemainderIs(x: int, d: int, q: int, r: int)
    requires d > 0 && 0 <= r < d && x == q * d + r
    ensures x % d == r && x / d == q
  {
    var q', r' := x / d, x % d;
    assert (q - q') * d == r' - r;
    SmallMultipleIsZero(q - q', d);
  }

  lemma {:induction false} PowersDivide(small: nat, large: nat)
    requires IsPowerOfTwo(small) && IsPowerOfTwo(large) && small <= large
    ensures large % small == 0
    decreases small
  {
    if small > 1 {
      PowersDivide(small / 2, large / 2);
      RemainderByEven(large, small / 2);
    }
  }

  lemma {:induction false} PowersMultiply(a: nat, b: nat)
    requires IsPowerOfTwo(a) && IsPowerOfTwo(b)
    ensures IsPowerOfTwo(a * b)
  {
    if a > 1 {
      var h := a / 2;
      assert a == 2 * h;
      PowersMultiply(h, b);
      DoubledProduct(h, b);
      PowerDoubles(h * b);
    } else {
      assert a * b == b;
    }
  }

  lemma DoubledProduct(a: int, b: int)
    ensures 2 * a * b == 2 * (a * b)
  {
  }

  lemma PowerDoubles(n: nat)
    requires IsPowerOfTwo(n)
    ensures IsPowerOfTwo(2 * n)
  {
  }

  lemma SizeIsPowerOfTwo()
    ensures IsPowerOfTwo(SIZE)
  {
    assert IsPowerOfTwo(4) && IsPowerOfTwo(16) by {
      assert IsPowerOfTwo(2);
      assert IsPowerOfTwo(4);
      assert IsPowerOfTwo(8);
    }
    PowersMultiply(16, 16);
    PowersMultiply(256, 256);
    PowersMultiply(0x1_0000, 0x1_0000);
    PowersMultiply(0x1_0000_0000, 0x1_0000_0000);
  }

  /** The slot of an unbounded position in a ring of `size` slots. */
  function Slot(x: int, size: nat): (i: nat)
    requires size > 0
    ensures i < size
  {
    x % size
  }

  /** Masking the word of a position gives the slot of the position: wrap-around is invisible to a ring
      whose size is a power of two. */
  lemma SlotOfWrap(x: int, size: nat)
    requires IsPowerOfTwo(size) && size <= SIZE
    ensures BitAnd(Wrap(x), size - 1) == Slot(x, size)
  {
    MaskIsRemainder(Wrap(x), size);
    SizeIsPowerOfTwo();
    PowersDivide(size, SIZE);
    RemainderOfRemainder(x, SIZE, size);
  }

  lemma RemainderOfRemainder(x: int, large: int, small: int)
    requires small > 0 && large > 0 && large % small == 0
    ensures (x % large) % small == x % small
  {
    var m, k := large / small, x / large;
    var w := x % large;
    var q, r := w / small, w % small;
    assert large == m * small;
    assert k * large == (k * m) * small by {
      MultiplyIsAssociative(k, m, small);
    }
    assert x == (k * m) * small + q * small + r;
    DistributeSum(k * m, q, small);
    RemainderIs(x, small, k * m + q, r);
  }

  lemma MultiplyIsAssociative(a: int, b: int, c: int)
    ensures a * (b * c) == (a * b) * c
  {
  }

  lemma DistributeSum(a: int, b: int, c: int)
    ensures a * c + b * c == (a + b) * c
  {
  }

  /** Positions less than a whole ring apart never share a slot; positions a whole ring apart do. */
  lemma SlotsNearbyDiffer(x: int, y: int, size: nat)
    requires size > 0
    requires 0 - size < x - y < size
    ensures Slot(x, size) == Slot(y, size) <==> x == y
  {
    if Slot(x, size) == Slot(y, size) {
      var q := x / size - y / size;
      DistributeSum(y / size, q, size);
      assert x - y == q * size;
      SmallMultipleIsZero(q, size);
    }
  }

  lemma SlotOneRingAway(x: int, size: nat)
    requires size > 0
    ensures Slot(x + size, size) == Slot(x, size)
  {
    DistributeSum(x / size, 1, size);
    RemainderIs(x + size, size, x / size + 1, x % size);
  }
}
