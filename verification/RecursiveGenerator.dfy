/** `recursive_generator`: nested generators that behave as one flat sequence. A coroutine body is a tree of
    what it yields; a promise keeps what its coroutine has yet to execute, and the root, leaf and parent
    pointers that the nested `co_yield` and `pull` rewrite. */
module RecursiveGenerators {
  import opened Lists

  /** What a coroutine does: yield a value, yield all values of a fresh nested generator, yield a generator
      object that holds no coroutine, or finish. */
  datatype Body =
    | Return
    | YieldValue(value: int, next: Body)
    | YieldNested(child: Body, next: Body)
    | YieldEmpty(next: Body)

  /** The values of a body in order, those of nested generators in place. */
  function Flatten(b: Body): seq<int>
  {
    match b
    case Return => []
    case YieldValue(v, next) => [v] + Flatten(next)
    case YieldNested(child, next) => Flatten(child) + Flatten(next)
    case YieldEmpty(next) => Flatten(next)
  }

  function Steps(b: Body): nat
  {
    match b
    case Return => 0
    case YieldValue(_, next) => 1 + Steps(next)
    case YieldNested(child, next) => 1 + Steps(child) + Steps(next)
    case YieldEmpty(next) => 1 + Steps(next)
  }

  class Promise {
    var value: int
    var root: Promise
    /** In the root promise the leaf, in every other one its parent. */
    var parentOrLeaf: Promise
    /** The coroutine frame: what is left of the body, and whether the coroutine is at its final suspension. */
    var rest: Body
    var isComplete: bool

    constructor (body: Body)
      ensures root == this && parentOrLeaf == this && rest == body && !isComplete
    {
      value, rest, isComplete := 0, body, false;
      root, parentOrLeaf := this, this;
    }

    /** `coroutine_handle::resume`: the coroutine runs until it is suspended at a value, its own or that of
        a nested generator, or is complete. */
    method Resume(ghost chain: seq<Promise>) returns (ghost chain': seq<Promise>)
      requires IsChain(chain) && Leaf(chain) == this && !isComplete
      modifies this`value, this`rest, this`isComplete, Root(chain)`parentOrLeaf
      ensures IsChain(chain') && Extends(chain, chain') && forall i :: |chain| <= i < |chain'| ==> fresh(chain'[i])
      ensures Flatten(old(rest)) == [] ==> isComplete && chain' == chain
      ensures Flatten(old(rest)) != [] ==>
                && SuspendedFrom(chain', |chain| - 1)
                && [Leaf(chain').value] + Remaining(chain'[|chain| - 1..]) == Flatten(old(rest))
      decreases Steps(rest), 1
    {
      hide NoDuplicates, Remaining;
      chain' := chain;
      while true
        invariant IsChain(chain) && !isComplete && Steps(rest) <= old(Steps(rest))
        invariant Flatten(rest) == Flatten(old(rest))
        invariant chain[0].parentOrLeaf == this && chain' == chain
        decreases Steps(rest)
      {
        match rest {
          case Return =>
            isComplete := true;
            return;
          case YieldValue(v, next) =>
            value, rest := v, next;
            assert chain'[|chain| - 1..] == [this];
            RemainingUnder([], this);
            return;
          case YieldNested(child, next) =>
            rest := next;
            var generator := new Promise(child);
            var suspended;
            suspended, chain' := YieldGenerator(generator, chain);
            if suspended {
              assert chain'[|chain| - 1..] == [this] + chain'[|chain|..];
              RemainingUnder(chain'[|chain|..], this);
              FirstOfNested(Leaf(chain').value, Remaining(chain'[|chain|..]), Flatten(child), Flatten(next));
              return;
            }
          case YieldEmpty(next) =>
            rest := next;
        }
      }
    }

    /** The nested `yield_value`: the child becomes the leaf and runs at once; whether the parent is now
        suspended. */
    method YieldGenerator(generator: Promise, ghost chain: seq<Promise>) returns (suspended: bool, ghost chain': seq<Promise>)
      requires IsChain(chain) && Leaf(chain) == this
      requires generator !in chain && !generator.isComplete
      modifies Root(chain)`parentOrLeaf, generator
      ensures suspended <==> Flatten(old(generator.rest)) != []
      ensures !suspended ==> chain' == chain && IsChain(chain)
      ensures suspended ==>
                && IsChain(chain') && Extends(chain + [generator], chain')
                && (forall i :: |chain| < i < |chain'| ==> fresh(chain'[i]))
                && SuspendedFrom(chain', |chain|)
                && [Leaf(chain').value] + Remaining(chain'[|chain|..]) == Flatten(old(generator.rest))
      decreases Steps(generator.rest), 2
    {
      root.parentOrLeaf := generator;
      generator.root := root;
      generator.parentOrLeaf := this;
      chain' := generator.Resume(chain + [generator]);
      if !generator.isComplete {
        return true, chain';
      }
      root.parentOrLeaf := this;
      return false, chain;
    }

    /** One resumption of the leaf: it is suspended at the next value, or it is complete and its ancestors
        have yet to yield that value. */
    static method ResumeLeaf(leaf: Promise, ghost chain: seq<Promise>) returns (ghost chain': seq<Promise>)
      requires IsChain(chain) && Leaf(chain) == leaf && SuspendedFrom(chain, 0)
      modifies leaf`value, leaf`rest, leaf`isComplete, Root(chain)`parentOrLeaf
      ensures IsChain(chain') && Extends(chain, chain') && forall i :: |chain| <= i < |chain'| ==> fresh(chain'[i])
      ensures PullState(chain', old(Remaining(chain)))
      ensures Leaf(chain').isComplete ==> chain' == chain
    {
      hide NoDuplicates, Remaining;
      ghost var n, above, own := |chain| - 1, chain[..|chain| - 1], Flatten(leaf.rest);
      RemainingUnfolds(chain);
      LastIsOnce(chain);
      chain' := leaf.Resume(chain);
      if own != [] {
        assert chain' == above + chain'[n..];
        RemainingBelow(above, chain'[n..]);
        FirstOfNested(Leaf(chain').value, Remaining(chain'[n..]), own, Remaining(above));
        assert forall i :: 0 <= i < n ==> chain'[i] == above[i];
      }
    }

    /** Resumes the leaf; while that completes a nested generator, its parent becomes the leaf and goes on.
        Afterwards the root is complete or the leaf is suspended at the next value. */
    method Pull(ghost chain: seq<Promise>) returns (ghost chain': seq<Promise>)
      requires IsChain(chain) && Root(chain) == this && SuspendedFrom(chain, 0)
      modifies chain
      ensures IsChain(chain') && Root(chain') == this && forall i :: 0 <= i < |chain'| ==> chain'[i] in chain || fresh(chain'[i])
      ensures isComplete <==> old(Remaining(chain)) == []
      ensures !isComplete ==>
                && SuspendedFrom(chain', 0)
                && [Leaf(chain').value] + Remaining(chain') == old(Remaining(chain))
      ensures isComplete ==> parentOrLeaf == this
    {
      hide NoDuplicates, Remaining;
      chain' := ResumeLeaf(parentOrLeaf, chain);
      while parentOrLeaf != this && parentOrLeaf.isComplete
        invariant IsChain(chain') && Root(chain') == this
        invariant forall i :: 0 <= i < |chain'| ==> chain'[i] in chain || fresh(chain'[i])
        invariant PullState(chain', old(Remaining(chain)))
        decreases if Leaf(chain').isComplete then |chain'| else 0
      {
        ghost var above := chain'[..|chain'| - 1];
        PrefixIsDistinct(chain', |chain'| - 1);
        parentOrLeaf := parentOrLeaf.parentOrLeaf;
        assert parentOrLeaf == chain'[|above| - 1];
        chain' := ResumeLeaf(parentOrLeaf, above);
      }
      PullEnds(chain', old(Remaining(chain)));
    }

    method Value(ghost chain: seq<Promise>) returns (v: int)
      requires IsChain(chain) && Root(chain) == this && SuspendedFrom(chain, 0)
      ensures v == Leaf(chain).value
    {
      v := parentOrLeaf.value;
    }
  }

  /** A generator object and its iterator; both only hold the promise. */
  class RecursiveGenerator {
    var promise: Promise?

    constructor (body: Body)
      ensures promise != null && fresh(promise) && promise.rest == body
      ensures promise.root == promise.parentOrLeaf == promise && !promise.isComplete
    {
      promise := new Promise(body);
    }

    constructor Empty()
      ensures promise == null
    {
      promise := null;
    }

    /** The first value, if there is one. */
    method Begin() returns (it: Iterator)
      requires promise != null ==> promise.root == promise.parentOrLeaf == promise && !promise.isComplete
      modifies promise
      ensures fresh(it) && it.Valid() && it.Values() == if promise == null then [] else old(Flatten(promise.rest))
      ensures forall i :: 0 <= i < |it.chain| ==> it.chain[i] == promise || fresh(it.chain[i])
    {
      if promise != null {
        ghost var chain := [promise];
        RemainingUnder([], promise);
        chain := promise.Pull(chain);
        if !promise.isComplete {
          it := new Iterator(promise, chain);
          return;
        }
      }
      it := new Iterator(null, []);
    }
  }

  class Iterator {
    var promise: Promise?
    ghost var chain: seq<Promise>

    constructor (promise: Promise?, ghost chain: seq<Promise>)
      ensures this.promise == promise && this.chain == chain
    {
      this.promise, this.chain := promise, chain;
    }

    ghost predicate Valid()
      reads this, chain
    {
      promise != null ==> IsChain(chain) && Root(chain) == promise && SuspendedFrom(chain, 0)
    }

    /** The value the iterator points at and those after it. */
    ghost function Values(): seq<int>
      requires Valid()
      reads this, chain
    {
      if promise == null then [] else [Leaf(chain).value] + Remaining(chain)
    }

    method Current() returns (v: int)
      requires Valid() && promise != null
      ensures Values() != [] && v == Values()[0]
    {
      v := promise.Value(chain);
    }

    /** `operator++`. */
    method Increment()
      requires Valid() && promise != null
      modifies this, chain
      ensures Valid() && Values() == old(Values())[1..]
      ensures forall i :: 0 <= i < |chain| ==> chain[i] in old(chain) || fresh(chain[i])
    {
      hide IsChain, SuspendedFrom, Remaining;
      assert Values()[1..] == Remaining(chain);
      chain := promise.Pull(chain);
      if promise.isComplete {
        promise := null;
      }
    }
  }

  /** Iterating over a fresh generator from `begin` to `end` gives the flattened sequence. */
  method Collect(generator: RecursiveGenerator) returns (values: seq<int>)
    requires generator.promise != null ==>
               var p := generator.promise; p.root == p.parentOrLeaf == p && !p.isComplete
    modifies generator.promise
    ensures values == if generator.promise == null then [] else old(Flatten(generator.promise.rest))
  {
    hide IsChain, SuspendedFrom, Remaining;
    values := [];
    var it := generator.Begin();
    ghost var all := it.Values();
    while it.promise != null
      invariant fresh(it) && it.Valid() && values + it.Values() == all
      invariant forall i :: 0 <= i < |it.chain| ==> it.chain[i] == generator.promise || fresh(it.chain[i])
      decreases |it.Values()|
    {
      var v := it.Current();
      FirstMoves(values, it.Values());
      values := values + [v];
      it.Increment();
    }
  }

  lemma FirstMoves(front: seq<int>, back: seq<int>)
    requires back != []
    ensures (front + [back[0]]) + back[1..] == front + back
  {
  }

  /** A promise above a part of the chain yields after it. */
  lemma {:induction false} RemainingUnder(part: seq<Promise>, parent: Promise)
    ensures Remaining([parent] + part) == Remaining(part) + Flatten(parent.rest)
    ensures Remaining([parent]) == Flatten(parent.rest)
    decreases |part|
  {
    var all, n := [parent] + part, |part|;
    assert [parent][..0] == [];
    if part == [] {
      assert all[..0] == [];
    } else {
      assert all[..n] == [parent] + part[..n - 1];
      RemainingUnder(part[..n - 1], parent);
    }
  }

  /** The lower part of a chain yields before the upper part. */
  lemma {:induction false} RemainingBelow(above: seq<Promise>, below: seq<Promise>)
    ensures Remaining(above + below) == Remaining(below) + Remaining(above)
    decreases |below|
  {
    hide Flatten;
    if below == [] {
      assert above + below == above;
    } else {
      var n := |below| - 1;
      assert (above + below)[..|above| + n] == above + below[..n];
      RemainingBelow(above, below[..n]);
    }
  }

  lemma RemainingUnfolds(chain: seq<Promise>)
    requires chain != []
    ensures Remaining(chain) == Flatten(Leaf(chain).rest) + Remaining(chain[..|chain| - 1])
  {
  }

  lemma LastIsOnce(chain: seq<Promise>)
    requires chain != [] && NoDuplicates(chain)
    ensures Leaf(chain) !in chain[..|chain| - 1]
  {
  }

  lemma PrefixIsDistinct(chain: seq<Promise>, k: nat)
    requires k <= |chain| && NoDuplicates(chain)
    ensures NoDuplicates(chain[..k])
  {
  }

  /** Between two resumptions of `pull`, when `values` were still to come. */
  ghost predicate PullState(chain: seq<Promise>, values: seq<int>)
    reads chain`rest, chain`value, chain`isComplete
  {
    chain != [] &&
    if Leaf(chain).isComplete then
      SuspendedFrom(chain[..|chain| - 1], 0) && Remaining(chain[..|chain| - 1]) == values
    else SuspendedFrom(chain, 0) && [Leaf(chain).value] + Remaining(chain) == values
  }

  lemma PullEnds(chain: seq<Promise>, values: seq<int>)
    requires PullState(chain, values) && (Leaf(chain) == Root(chain) || !Leaf(chain).isComplete)
    requires NoDuplicates(chain)
    ensures Root(chain).isComplete <==> values == []
    ensures !Root(chain).isComplete ==> SuspendedFrom(chain, 0) && [Leaf(chain).value] + Remaining(chain) == values
  {
    if Leaf(chain).isComplete {
      assert |chain| == 1;
      assert chain[..0] == [];
    }
  }

  lemma FirstOfNested(v: int, more: seq<int>, child: seq<int>, next: seq<int>)
    requires [v] + more == child
    ensures [v] + (more + next) == child + next
  {
  }

  function Root(chain: seq<Promise>): Promise
    requires chain != []
  {
    chain[0]
  }

  function Leaf(chain: seq<Promise>): Promise
    requires chain != []
  {
    chain[|chain| - 1]
  }

  /** A longer chain below the same promises. */
  ghost predicate Extends(chain: seq<Promise>, chain': seq<Promise>)
  {
    |chain| <= |chain'| && forall i :: 0 <= i < |chain| ==> chain'[i] == chain[i]
  }

  /** The active promises from the root down to the leaf: following parents from the leaf leads to the root. */
  ghost predicate IsChain(chain: seq<Promise>)
    reads chain`root, chain`parentOrLeaf
  {
    && chain != [] && NoDuplicates(chain)
    && chain[0].parentOrLeaf == chain[|chain| - 1]
    && (forall i :: 0 <= i < |chain| ==> chain[i].root == chain[0])
    && (forall i :: 0 < i < |chain| ==> chain[i].parentOrLeaf == chain[i - 1])
  }

  ghost predicate SuspendedFrom(chain: seq<Promise>, k: int)
    reads chain`isComplete
  {
    forall i :: 0 <= k <= i < |chain| ==> !chain[i].isComplete
  }

  /** What the active coroutines will still yield: the leaf first, the root last. */
  ghost function Remaining(chain: seq<Promise>): seq<int>
    reads chain`rest
  {
    if chain == [] then []
    else Flatten(chain[|chain| - 1].rest) + Remaining(chain[..|chain| - 1])
  }
}
