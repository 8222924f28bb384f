/** Lists of operations that are known by numbers: which objects a list of numbers stands for, and who may
    modify what. */
module Operations {
  import opened Words
  import opened Lists
  import opened IntrusiveLists

  /** The operation objects of a list of waiters. */
  ghost function NodesOf(ops: map<nat, Waiter>, list: seq<nat>): (nodes: seq<Waiter>)
    requires forall w :: w in list ==> w in ops
    ensures |nodes| == |list|
  {
    seq(|list|, i requires 0 <= i < |list| => ops[list[i]])
  }

  ghost predicate Identified(ops: map<nat, Waiter>)
  {
    forall w :: w in ops ==> ops[w].id == w
  }

  lemma NodesOfMore(ops: map<nat, Waiter>, list: seq<nat>, w: nat)
    requires (forall x :: x in list ==> x in ops) && w in ops
    ensures forall x :: x in list + [w] ==> x in ops
    ensures NodesOf(ops, list + [w]) == NodesOf(ops, list) + [ops[w]]
  {
  }

  /** `head` is a null-terminated list of operations. */
  ghost predicate IsList(ops: map<nat, Waiter>, head: Waiter?, list: seq<nat>)
    reads ops.Values`next
  {
    (forall w :: w in list ==> w in ops) && Linked(head, NodesOf(ops, list))
  }

  /** A list still being built, known by its first and last operation. */
  ghost predicate IsOpenList(ops: map<nat, Waiter>, head: Waiter?, last: Waiter?, list: seq<nat>)
    reads ops.Values`next
  {
    && (forall w :: w in list ==> w in ops)
    && Chained(NodesOf(ops, list)) && head == First(NodesOf(ops, list)) && last == Last(NodesOf(ops, list))
  }

  lemma ListParts(ops: map<nat, Waiter>, head: Waiter?, list: seq<nat>)
    requires IsList(ops, head, list)
    ensures (forall w :: w in list ==> w in ops) && Linked(head, NodesOf(ops, list))
    ensures head == null <==> list == []
  {
  }

  lemma MakeLists(ops: map<nat, Waiter>, head: Waiter?, list: seq<nat>)
    requires (forall w :: w in list ==> w in ops) && Linked(head, NodesOf(ops, list))
    ensures IsList(ops, head, list) && IsOpenList(ops, head, Last(NodesOf(ops, list)), list)
    ensures head == null <==> list == []
  {
  }

  ghost function Nodes(ops: map<nat, Waiter>, list: seq<nat>): set<Waiter>
  {
    set w | w in list && w in ops :: ops[w]
  }

  lemma NodesAreListed(ops: map<nat, Waiter>, list: seq<nat>)
    requires forall w :: w in list ==> w in ops
    ensures forall x :: x in NodesOf(ops, list) ==> x in Nodes(ops, list)
  {
    forall x | x in NodesOf(ops, list)
      ensures x in Nodes(ops, list)
    {
      var i :| 0 <= i < |list| && NodesOf(ops, list)[i] == x;
      assert list[i] in list;
    }
  }

  lemma NodesApart(ops: map<nat, Waiter>, a: seq<nat>, b: seq<nat>)
    requires Identified(ops) && (forall w :: w in a ==> w in ops && w !in b) && forall w :: w in b ==> w in ops
    ensures forall x :: x in NodesOf(ops, a) ==> x !in NodesOf(ops, b)
    ensures NodesOf(ops, a + b) == NodesOf(ops, a) + NodesOf(ops, b)
  {
    forall i, j | 0 <= i < |a| && 0 <= j < |b|
      ensures NodesOf(ops, a)[i] != NodesOf(ops, b)[j]
    {
      assert a[i] in a && b[j] in b;
    }
  }

  lemma OpenListParts(ops: map<nat, Waiter>, head: Waiter?, last: Waiter?, list: seq<nat>)
    requires IsOpenList(ops, head, last, list)
    ensures (forall w :: w in list ==> w in ops)
    ensures Chained(NodesOf(ops, list)) && head == First(NodesOf(ops, list)) && last == Last(NodesOf(ops, list))
  {
  }

  lemma MakeOpenList(ops: map<nat, Waiter>, head: Waiter?, last: Waiter?, aside: seq<nat>, due: seq<nat>)
    requires (forall w :: w in aside ==> w in ops) && (forall w :: w in due ==> w in ops)
    requires var nodes := NodesOf(ops, aside) + NodesOf(ops, due);
             Chained(nodes) && head == First(nodes) && last == Last(nodes)
    ensures IsOpenList(ops, head, last, aside + due)
  {
    assert NodesOf(ops, aside + due) == NodesOf(ops, aside) + NodesOf(ops, due);
  }

  lemma LastIsListed(ops: map<nat, Waiter>, head: Waiter?, last: Waiter?, part: seq<nat>, list: seq<nat>)
    requires IsOpenList(ops, head, last, part) && forall w :: w in part ==> w in list
    ensures last != null ==> last in Nodes(ops, list)
  {
    if part != [] {
      assert part[|part| - 1] in part;
    }
  }

  /** The first of a list, and what follows it. */
  lemma RestOfList(ops: map<nat, Waiter>, head: Waiter, list: seq<nat>)
    requires Identified(ops) && IsList(ops, head, list)
    ensures list != [] && head.id == list[0] && ops[list[0]] == head && IsList(ops, head.next, list[1..])
  {
    var nodes := NodesOf(ops, list);
    assert list[0] in list;
    assert nodes[1..] == NodesOf(ops, list[1..]);
    PrefixHasOther([nodes[0]], nodes[1..]);
    assert [nodes[0]] + nodes[1..] == nodes;
    assert forall i :: 0 <= i < |nodes[1..]| ==> nodes[1..][i] == nodes[i + 1];
  }

  lemma NothingIsListed(ops: map<nat, Waiter>)
    ensures Linked(null, []) && IsList(ops, null, [])
  {
  }

  /** An operation whose link leads to the head of a list is the head of a longer one. */
  lemma Pushed(ops: map<nat, Waiter>, op: Waiter, head: Waiter?, stack: seq<nat>)
    requires Identified(ops) && op.id in ops && ops[op.id] == op && op.next == head
    requires IsList(ops, head, stack) && op.id !in stack
    ensures IsList(ops, op, [op.id] + stack)
  {
    ListParts(ops, head, stack);
    NodesApart(ops, [op.id], stack);
    assert NodesOf(ops, [op.id]) == [op];
    JoinIsLinked(op, [op], head, NodesOf(ops, stack));
    MakeLists(ops, op, [op.id] + stack);
  }

  lemma EndOfList(ops: map<nat, Waiter>, head: Waiter?, last: Waiter?, list: seq<nat>)
    requires IsList(ops, head, list) && IsOpenList(ops, head, last, list)
    ensures head != null ==> last != null && last.next == null
  {
  }

  /** An open list whose last link leads to the head of another one. */
  lemma JoinedList(ops: map<nat, Waiter>, head: Waiter, last: Waiter, front: seq<nat>, rest: Waiter?, list: seq<nat>)
    requires Identified(ops) && IsOpenList(ops, head, last, front) && last.next == rest && IsList(ops, rest, list)
    requires forall w :: w in front ==> w !in list
    ensures IsList(ops, head, front + list)
  {
    OpenListParts(ops, head, last, front);
    ListParts(ops, rest, list);
    NodesApart(ops, front, list);
    LastIsIn(NodesOf(ops, front));
    JoinIsLinked(head, NodesOf(ops, front), rest, NodesOf(ops, list));
    MakeLists(ops, head, front + list);
  }

  /** Lists do not change when another operation is created. */
  lemma NewOperation(ops: map<nat, Waiter>, op: Waiter, head: Waiter?, list: seq<nat>)
    requires Identified(ops) && op.id !in ops && IsList(ops, head, list)
    ensures Identified(ops[op.id := op]) && IsList(ops[op.id := op], head, list)
  {
    assert NodesOf(ops[op.id := op], list) == NodesOf(ops, list);
  }

  lemma OutsideList(ops: map<nat, Waiter>, op: Waiter, list: seq<nat>)
    requires Identified(ops) && op.id in ops && ops[op.id] == op && op.id !in list
    ensures (forall w :: w in list ==> w in ops) ==> op !in NodesOf(ops, list)
  {
  }

  lemma ReversedList(ops: map<nat, Waiter>, head: Waiter, stack: seq<nat>)
    requires (forall w :: w in stack ==> w in ops) && Linked(head, Reverse(NodesOf(ops, stack)) + [])
    ensures IsList(ops, head, Reverse(stack))
  {
    forall w | w in Reverse(stack)
      ensures w in stack
    {
      InReverse(stack, w);
    }
    assert Reverse(NodesOf(ops, stack)) + [] == NodesOf(ops, Reverse(stack));
  }

  /** The pointer stands for what the machine remembers of a load of the top of a stack. */
  ghost predicate Stands(ops: map<nat, Waiter>, pointer: Waiter?, seen: Top)
  {
    match seen
    case Empty => pointer == null
    case On(op) => op in ops && pointer == ops[op]
  }

  lemma TopStands(ops: map<nat, Waiter>, pointer: Waiter?, tail: seq<nat>)
    requires IsList(ops, pointer, tail)
    ensures Stands(ops, pointer, TopOf(tail))
  {
    if tail != [] {
      assert tail[0] in tail;
    }
  }

  /** Comparing pointers is comparing operations. */
  lemma SamePointer(ops: map<nat, Waiter>, pointer: Waiter?, seen: Top, pointer': Waiter?, seen': Top)
    requires Identified(ops) && Stands(ops, pointer, seen) && Stands(ops, pointer', seen')
    ensures pointer == pointer' <==> seen == seen'
  {
  }

  lemma NodesAreOperations(ops: map<nat, Waiter>, list: seq<nat>)
    ensures Nodes(ops, list) <= ops.Values
  {
  }

  /** What a pointer stands for does not change when more operations are created. */
  lemma StandsOn(known: map<nat, Waiter>, ops: map<nat, Waiter>, pointer: Waiter?, seen: Top)
    requires Stands(known, pointer, seen) && forall w :: w in known ==> w in ops && ops[w] == known[w]
    ensures Stands(ops, pointer, seen)
  {
  }
}
