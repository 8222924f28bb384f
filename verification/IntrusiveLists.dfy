/** The pointer loops over waiters that are linked through their own `m_next` fields: reversing a stack into
    a queue, and splitting a list in place through two tail pointers. */
module IntrusiveLists {
  import opened Words
  import opened Lists

  /** An operation object waiting in some list. One class stands for the operation classes of the barrier, the
      event, the mutex and the thread pool, which are linked alike; none of them uses another one's fields. */
  class Waiter {
    const id: nat
    const target: Word
    var next: Waiter?
    // what the sequence barrier keeps in it
    var lastKnownPublished: Word
    var readyToResume: bool
    // what the auto-reset event keeps in it
    var refCount: nat

    constructor (id: nat, target: Word, lastKnownPublished: Word)
      ensures this.id == id && this.target == target && next == null
      ensures this.lastKnownPublished == lastKnownPublished && !readyToResume && refCount == 2
    {
      this.id, this.target, next := id, target, null;
      this.lastKnownPublished, readyToResume, refCount := lastKnownPublished, false, 2;
    }
  }

  /** The fields link `nodes` in order; the last link is not constrained. */
  ghost predicate Chained(nodes: seq<Waiter>)
    reads nodes`next
  {
    NoDuplicates(nodes) && forall i :: 0 <= i < |nodes| - 1 ==> nodes[i].next == nodes[i + 1]
  }

  function First(nodes: seq<Waiter>): Waiter?
  {
    if nodes == [] then null else nodes[0]
  }

  function Last(nodes: seq<Waiter>): Waiter?
  {
    if nodes == [] then null else nodes[|nodes| - 1]
  }

  /** `head` is the null-terminated list of `nodes`. */
  ghost predicate Linked(head: Waiter?, nodes: seq<Waiter>)
    reads nodes`next
  {
    Chained(nodes) && head == First(nodes) && (nodes != [] ==> nodes[|nodes| - 1].next == null)
  }

  function Ids(nodes: seq<Waiter>): (r: seq<nat>)
    ensures |r| == |nodes|
    ensures forall i :: 0 <= i < |nodes| ==> r[i] == nodes[i].id
  {
    seq(|nodes|, i requires 0 <= i < |nodes| => nodes[i].id)
  }

  /** The nodes from index `k` on are still linked as they were. */
  ghost predicate Rest(node: Waiter?, nodes: seq<Waiter>, k: nat)
    requires k <= |nodes|
    reads nodes`next
  {
    && node == (if k < |nodes| then nodes[k] else null)
    && (forall i :: k <= i < |nodes| - 1 ==> nodes[i].next == nodes[i + 1])
    && (nodes != [] && k < |nodes| ==> nodes[|nodes| - 1].next == null)
  }

  /** The first `k` nodes are linked backwards from `head` onto `queue`. */
  ghost predicate Backward(head: Waiter?, nodes: seq<Waiter>, k: nat, queue: Waiter?)
    requires k <= |nodes|
    reads nodes`next
  {
    && head == (if k == 0 then queue else nodes[k - 1])
    && (k > 0 ==> nodes[0].next == queue)
    && forall i :: 0 <= i < k - 1 ==> nodes[i + 1].next == nodes[i]
  }

  /** One turn of the reversing loop. */
  method TurnAround(node: Waiter, reversed: Waiter?, ghost nodes: seq<Waiter>, ghost k: nat, ghost queue: Waiter?)
    returns (rest: Waiter?)
    requires NoDuplicates(nodes) && k < |nodes| && Rest(node, nodes, k) && Backward(reversed, nodes, k, queue)
    modifies node`next
    ensures Rest(rest, nodes, k + 1) && Backward(node, nodes, k + 1, queue)
  {
    rest := node.next;
    node.next := reversed;
  }

  /** The loop that reverses a stack onto the front of a queue, as in `async_mutex::unlock`, `resume_waiters`
      and `try_global_dequeue`: no waiter is dropped, and the oldest comes first. */
  method ReverseOnto(list: Waiter, queue: Waiter?, ghost nodes: seq<Waiter>, ghost queued: seq<Waiter>)
    returns (head: Waiter)
    requires Linked(list, nodes) && Linked(queue, queued)
    requires forall x :: x in nodes ==> x !in queued
    modifies nodes`next
    ensures Linked(head, Reverse(nodes) + queued)
    ensures Ids(Reverse(nodes) + queued) == Reverse(Ids(nodes)) + Ids(queued)
  {
    hide *;
    LinkedParts(list, nodes);
    var next: Waiter? := list;
    var reversed := queue;
    ghost var k := 0;
    NothingIsBackward(nodes, queue);
    while next != null
      invariant 0 <= k <= |nodes| && Rest(next, nodes, k) && Backward(reversed, nodes, k, queue)
      invariant Linked(queue, queued)
      decreases |nodes| - k
    {
      RestAdvances(next, nodes, k);
      assert next !in queued;
      var temp := TurnAround(next, reversed, nodes, k, queue);
      reversed := next;
      next := temp;
      k := k + 1;
    }
    RestEnds(nodes, k);
    ReversedIsLinked(reversed, nodes, queue, queued);
    ReversedIds(nodes, queued);
    head := reversed;
  }

  lemma NothingIsBackward(nodes: seq<Waiter>, queue: Waiter?)
    ensures Backward(queue, nodes, 0, queue)
  {
  }

  lemma ReversedIds(nodes: seq<Waiter>, queued: seq<Waiter>)
    ensures Ids(Reverse(nodes) + queued) == Reverse(Ids(nodes)) + Ids(queued)
  {
  }

  lemma ReversedIsLinked(head: Waiter?, nodes: seq<Waiter>, queue: Waiter?, queued: seq<Waiter>)
    requires nodes != [] && NoDuplicates(nodes) && Linked(queue, queued)
    requires Backward(head, nodes, |nodes|, queue)
    requires forall x :: x in nodes ==> x !in queued
    ensures head != null && Linked(head, Reverse(nodes) + queued)
  {
    hide NoDuplicates;
    var reversed, n := Reverse(nodes), |nodes|;
    ReverseNoDuplicates(nodes);
    forall x | x in reversed
      ensures x !in queued
    {
      InReverse(nodes, x);
    }
    JoinNoDuplicates(reversed, queued);
    var all := reversed + queued;
    forall i | 0 <= i < |all| - 1
      ensures all[i].next == all[i + 1]
    {
      if i < n - 1 {
        assert all[i] == nodes[n - 1 - i] && all[i + 1] == nodes[n - 2 - i];
      } else if i == n - 1 {
        assert all[i] == nodes[0] && all[i + 1] == queued[0];
      } else {
        assert all[i] == queued[i - n] && all[i + 1] == queued[i - n + 1];
      }
    }
    assert all[0] == nodes[n - 1];
    assert all[|all| - 1] == if queued == [] then nodes[0] else queued[|queued| - 1];
  }

  /** `*tail = node; tail = &node->m_next`, where the tail pointer is that of a possibly empty list. */
  method Append(head: Waiter?, last: Waiter?, node: Waiter, ghost nodes: seq<Waiter>)
    returns (head': Waiter, last': Waiter)
    requires Chained(nodes) && head == First(nodes) && last == Last(nodes) && node !in nodes
    modifies (if nodes == [] then {} else {nodes[|nodes| - 1]})`next
    ensures Chained(nodes + [node]) && head' == First(nodes + [node]) && last' == node
  {
    if last == null {
      head' := node;
    } else {
      last.next := node;
      head' := head;
    }
    last' := node;
  }

  /** The waiters of a list whose target is still ahead, and the others; both keep their order. */
  function StillWaiting(nodes: seq<Waiter>, ahead: Word -> bool): (r: seq<Waiter>)
    ensures forall x :: x in r ==> x in nodes
  {
    if nodes == [] then []
    else
      var n := |nodes| - 1;
      StillWaiting(nodes[..n], ahead) + (if ahead(nodes[n].target) then [nodes[n]] else [])
  }

  function Satisfied(nodes: seq<Waiter>, ahead: Word -> bool): (r: seq<Waiter>)
    ensures forall x :: x in r ==> x in nodes
  {
    if nodes == [] then []
    else
      var n := |nodes| - 1;
      Satisfied(nodes[..n], ahead) + (if ahead(nodes[n].target) then [] else [nodes[n]])
  }

  /** `publish` asks whether the published number precedes the target. */
  function NotReached(sequence: Word): Word -> bool
  {
    (target: Word) => Precedes(sequence, target)
  }

  /** `add_awaiter` asks whether the target is a positive distance away. */
  function Distant(known: Word): Word -> bool
  {
    (target: Word) => Difference(target, known) > 0
  }

  /** The two questions have the same answer except at exactly half the range. */
  lemma QuestionsAgreeIff(known: Word, target: Word)
    ensures NotReached(known)(target) == Distant(known)(target) <==> Wrap(target - known) != SIZE / 2
  {
    var d := Wrap(target - known);
    assert Wrap(known - target) == if d == 0 then 0 else SIZE - d;
  }

  /** None of `mine` is still ahead of position `k` of the list being traversed. */
  ghost predicate Behind(mine: seq<Waiter>, nodes: seq<Waiter>, k: nat)
    requires k <= |nodes|
  {
    forall i :: k <= i < |nodes| ==> nodes[i] !in mine
  }

  lemma StaysBehind(mine: seq<Waiter>, nodes: seq<Waiter>, k: nat)
    requires NoDuplicates(nodes) && k < |nodes| && Behind(mine, nodes, k)
    ensures nodes[k] !in mine && Behind(mine, nodes, k + 1) && Behind(mine + [nodes[k]], nodes, k + 1)
  {
  }

  /** `*tail = nullptr`. */
  method Terminate(head: Waiter?, last: Waiter?, ghost nodes: seq<Waiter>)
    requires Chained(nodes) && head == First(nodes) && last == Last(nodes)
    modifies (if nodes == [] then {} else {nodes[|nodes| - 1]})`next
    ensures Linked(head, nodes)
  {
    if last != null {
      last.next := null;
    }
  }

  lemma LastIsIn(nodes: seq<Waiter>)
    ensures nodes != [] ==> nodes[|nodes| - 1] in nodes
  {
  }

  lemma RestAdvances(node: Waiter, nodes: seq<Waiter>, k: nat)
    requires k <= |nodes| && Rest(node, nodes, k)
    ensures k < |nodes| && node == nodes[k] && Rest(node.next, nodes, k + 1)
  {
  }

  lemma RestEnds(nodes: seq<Waiter>, k: nat)
    requires k <= |nodes| && Rest(null, nodes, k)
    ensures k == |nodes| && nodes[..k] == nodes
  {
  }

  /** One turn of a splitting loop: the node goes to the end of one list; the other list and the part not
      yet traversed keep their links. */
  method MoveTo(head: Waiter?, last: Waiter?, node: Waiter, ghost mine: seq<Waiter>, ghost other: seq<Waiter>,
                ghost nodes: seq<Waiter>, ghost k: nat)
    returns (head': Waiter, last': Waiter)
    requires Chained(mine) && head == First(mine) && last == Last(mine) && Chained(other)
    requires NoDuplicates(nodes) && k < |nodes| && node == nodes[k] && Rest(node, nodes, k)
    requires Behind(mine, nodes, k) && forall x :: x in mine ==> x !in other
    modifies (if mine == [] then {} else {mine[|mine| - 1]})`next
    ensures Chained(mine + [node]) && head' == First(mine + [node]) && last' == Last(mine + [node])
    ensures Chained(other) && Rest(node, nodes, k)
  {
    LastIsIn(mine);
    head', last' := Append(head, last, node, mine);
  }

  /** The splitting loop of `sequence_barrier::publish`: both result lists are built by relinking the
      nodes of the list being traversed, through two tail pointers. */
  method SplitForPublish(list: Waiter, sequence: Word, ghost nodes: seq<Waiter>)
    returns (requeue: Waiter?, requeueLast: Waiter?, resume: Waiter?)
    requires Linked(list, nodes)
    modifies nodes`next
    ensures requeueLast == Last(StillWaiting(nodes, NotReached(sequence)))
    ensures Linked(requeue, StillWaiting(nodes, NotReached(sequence))) && Linked(resume, Satisfied(nodes, NotReached(sequence)))
  {
    hide *;
    LinkedParts(list, nodes);
    var awaiters: Waiter? := list;
    var resumeLast: Waiter?;
    requeue, requeueLast, resume, resumeLast := null, null, null, null;
    ghost var k := 0;
    ghost var waiting: seq<Waiter>, due: seq<Waiter> := [], [];
    EmptyIsChained();
    while awaiters != null
      invariant 0 <= k <= |nodes| && Rest(awaiters, nodes, k)
      invariant waiting == StillWaiting(nodes[..k], NotReached(sequence)) && due == Satisfied(nodes[..k], NotReached(sequence))
      invariant Chained(waiting) && requeue == First(waiting) && requeueLast == Last(waiting)
      invariant Chained(due) && resume == First(due) && resumeLast == Last(due)
      invariant Behind(waiting, nodes, k) && Behind(due, nodes, k)
      invariant forall x :: x in waiting ==> x !in due && x in nodes
      invariant forall x :: x in due ==> x !in waiting && x in nodes
      decreases |nodes| - k
    {
      RestAdvances(awaiters, nodes, k);
      SplitsGrow(nodes, k, NotReached(sequence));
      AsksPrecedes(sequence, awaiters.target);
      StaysBehind(waiting, nodes, k);
      StaysBehind(due, nodes, k);
      LastIsIn(waiting);
      LastIsIn(due);
      if Precedes(sequence, awaiters.target) {
        requeue, requeueLast := MoveTo(requeue, requeueLast, awaiters, waiting, due, nodes, k);
        waiting := waiting + [awaiters];
      } else {
        resume, resumeLast := MoveTo(resume, resumeLast, awaiters, due, waiting, nodes, k);
        due := due + [awaiters];
      }
      RestAdvances(awaiters, nodes, k);
      awaiters := awaiters.next;
      k := k + 1;
    }
    RestEnds(nodes, k);
    LastIsIn(waiting);
    LastIsIn(due);
    Terminate(requeue, requeueLast, waiting);
    Terminate(resume, resumeLast, due);
  }

  lemma LinkedParts(head: Waiter?, nodes: seq<Waiter>)
    requires Linked(head, nodes)
    ensures NoDuplicates(nodes) && Rest(head, nodes, 0) && (head != null ==> nodes != []) && nodes[..0] == []
  {
  }

  lemma AsksPrecedes(sequence: Word, target: Word)
    ensures NotReached(sequence)(target) == Precedes(sequence, target)
  {
  }

  /** One more node joins one of the two parts, and was in neither. */
  lemma SplitsGrow(nodes: seq<Waiter>, k: nat, ahead: Word -> bool)
    requires NoDuplicates(nodes) && k < |nodes|
    ensures StillWaiting(nodes[..k + 1], ahead)
            == StillWaiting(nodes[..k], ahead) + (if ahead(nodes[k].target) then [nodes[k]] else [])
    ensures Satisfied(nodes[..k + 1], ahead)
            == Satisfied(nodes[..k], ahead) + (if ahead(nodes[k].target) then [] else [nodes[k]])
  {
    assert nodes[..k + 1][..k] == nodes[..k];
  }

  /** A target at the least distance from `known` among those of `waiting`. */
  ghost predicate IsMinimum(minDiff: int, waiting: seq<Waiter>, known: Word)
  {
    && (forall x :: x in waiting ==> minDiff <= Difference(x.target, known))
    && (if waiting == [] then minDiff == SIZE / 2 - 1
        else exists x :: x in waiting && Difference(x.target, known) == minDiff)
  }

  lemma MinimumOfMore(minDiff: int, waiting: seq<Waiter>, known: Word, x: Waiter)
    requires IsMinimum(minDiff, waiting, known)
    ensures var diff := Difference(x.target, known);
            IsMinimum(if diff < minDiff then diff else minDiff, waiting + [x], known)
  {
    assert x in waiting + [x];
    forall y | y in waiting
      ensures y in waiting + [x]
    {
    }
  }

  lemma DistanceBack(known: Word, target: Word)
    ensures Wrap(known + Difference(target, known)) == target
  {
    hide Wrap;
    var d := Wrap(target - known);
    WrapOfSum(target - known, known);
    WrapShift(known + d, -1);
    WrapSmall(target);
  }

  /** The splitting loop of `add_awaiter`, which appends to what earlier rounds put aside, and the earliest
      target among the waiters to put back. */
  method SplitForAdd(list: Waiter?, known: Word, resume: Waiter?, resumeLast: Waiter?,
                     ghost nodes: seq<Waiter>, ghost resumed: seq<Waiter>)
    returns (requeue: Waiter?, requeueLast: Waiter?, targetSequence: Word, resume': Waiter?, resumeLast': Waiter?)
    requires Linked(list, nodes)
    requires Chained(resumed) && resume == First(resumed) && resumeLast == Last(resumed)
    requires forall x :: x in resumed ==> x !in nodes
    modifies nodes`next, resumed`next
    ensures Linked(requeue, StillWaiting(nodes, Distant(known)))
    ensures requeueLast == Last(StillWaiting(nodes, Distant(known)))
    ensures var due := resumed + Satisfied(nodes, Distant(known));
            Chained(due) && resume' == First(due) && resumeLast' == Last(due)
    ensures forall x :: x in StillWaiting(nodes, Distant(known)) ==>
              Difference(targetSequence, known) <= Difference(x.target, known)
    ensures requeue != null ==>
              exists x :: x in StillWaiting(nodes, Distant(known)) && x.target == targetSequence
  {
    hide *;
    LinkedParts(list, nodes);
    var awaiters := list;
    requeue, requeueLast, resume', resumeLast' := null, null, resume, resumeLast;
    var minDiff: int := SIZE / 2 - 1;
    ghost var k := 0;
    ghost var waiting: seq<Waiter>, due: seq<Waiter> := [], resumed;
    EmptyIsChained();
    NothingSplit(resumed, nodes, known);
    while awaiters != null
      invariant 0 <= k <= |nodes| && Rest(awaiters, nodes, k)
      invariant waiting == StillWaiting(nodes[..k], Distant(known))
      invariant due == resumed + Satisfied(nodes[..k], Distant(known))
      invariant Chained(waiting) && requeue == First(waiting) && requeueLast == Last(waiting)
      invariant Chained(due) && resume' == First(due) && resumeLast' == Last(due)
      invariant Behind(waiting, nodes, k) && Behind(due, nodes, k)
      invariant forall x :: x in waiting ==> x !in due && x in nodes
      invariant forall x :: x in due ==> x !in waiting && (x in nodes || x in resumed)
      invariant IsMinimum(minDiff, waiting, known)
      decreases |nodes| - k
    {
      RestAdvances(awaiters, nodes, k);
      SplitsGrow(nodes, k, Distant(known));
      AsksDistance(known, awaiters.target);
      StaysBehind(waiting, nodes, k);
      StaysBehind(due, nodes, k);
      LastIsIn(waiting);
      LastIsIn(due);
      var diff := Difference(awaiters.target, known);
      if diff > 0 {
        MinimumOfMore(minDiff, waiting, known, awaiters);
        requeue, requeueLast := MoveTo(requeue, requeueLast, awaiters, waiting, due, nodes, k);
        waiting := waiting + [awaiters];
        minDiff := if diff < minDiff then diff else minDiff;
      } else {
        resume', resumeLast' := MoveTo(resume', resumeLast', awaiters, due, waiting, nodes, k);
        due := due + [awaiters];
      }
      RestAdvances(awaiters, nodes, k);
      awaiters := awaiters.next;
      k := k + 1;
    }
    RestEnds(nodes, k);
    LastIsIn(waiting);
    Terminate(requeue, requeueLast, waiting);
    targetSequence := Wrap(known + minDiff);
    EarliestTarget(requeue, minDiff, waiting, known);
  }

  lemma EarliestTarget(requeue: Waiter?, minDiff: int, waiting: seq<Waiter>, known: Word)
    requires IsMinimum(minDiff, waiting, known) && requeue == First(waiting)
    ensures var targetSequence := Wrap(known + minDiff);
            && (forall x :: x in waiting ==> Difference(targetSequence, known) <= Difference(x.target, known))
            && (requeue != null ==> exists x :: x in waiting && x.target == targetSequence)
  {
    if waiting != [] {
      var x :| x in waiting && Difference(x.target, known) == minDiff;
      DistanceBack(known, x.target);
    }
  }

  lemma AsksDistance(known: Word, target: Word)
    ensures Distant(known)(target) == (Difference(target, known) > 0)
  {
  }

  lemma NothingSplit(resumed: seq<Waiter>, nodes: seq<Waiter>, known: Word)
    requires forall x :: x in resumed ==> x !in nodes
    ensures resumed + [] == resumed && Behind(resumed, nodes, 0) && Behind([], nodes, 0)
    ensures IsMinimum(SIZE / 2 - 1, [], known)
  {
  }

  /** A private list is put in front of the shared one: its last link leads to the old head. */
  lemma JoinIsLinked(head: Waiter, nodes: seq<Waiter>, oldHead: Waiter?, queued: seq<Waiter>)
    requires Chained(nodes) && head == First(nodes) && nodes[|nodes| - 1].next == oldHead
    requires Linked(oldHead, queued) && forall x :: x in nodes ==> x !in queued
    ensures Linked(head, nodes + queued)
  {
    JoinNoDuplicates(nodes, queued);
    var all, n := nodes + queued, |nodes|;
    forall i | 0 <= i < |all| - 1
      ensures all[i].next == all[i + 1]
    {
      if i < n - 1 {
        assert all[i] == nodes[i] && all[i + 1] == nodes[i + 1];
      } else if i == n - 1 {
        assert all[i] == nodes[n - 1] && all[i + 1] == queued[0];
      } else {
        assert all[i] == queued[i - n] && all[i + 1] == queued[i - n + 1];
      }
    }
    assert all[|all| - 1] == if queued == [] then nodes[n - 1] else queued[|queued| - 1];
  }

  lemma EmptyIsChained()
    ensures Chained([]) && First([]) == null && Last([]) == null && forall nodes :: Behind([], nodes, 0)
    ensures forall ahead :: StillWaiting([], ahead) == [] && Satisfied([], ahead) == []
  {
  }
}
