/** `cancellation_state` as a state machine: any number of registering and deregistering threads race with
    the one thread whose `request_cancellation` came first. An action is one atomic operation on the
    flags, on a slot, or on a link between chunks. The free counts only steer the search for a slot, so
    here a registration may try any slot in any order; `CancellationStates` proves the search loop. */
module Cancellation {
  import opened Words

  /** A registration object. */
  type Id = nat
  type Thread = nat

  /** A slot: list, chunk in the list's chain, entry in the chunk. */
  datatype Pos = Pos(l: nat, c: nat, e: nat)

  datatype Registrar =
    | Absent
    | CheckFlag
    | LoadState
    | CasState
    | LoadList
    | CasList(l: nat)
    | Search(l: nat)
    | Recheck(p: Pos)
    | Withdraw(p: Pos)
    /** `try_register_callback` returned false: the registering thread runs the callback itself. */
    | RunSelf
    | RanSelf
    /** The token could never be cancelled; no registration was made. */
    | Inert
    /** An allocation failed: the constructor threw. */
    | Failed
    | Registered(p: Pos)
    | Deregister(p: Pos, thread: Thread)
    | Wait(thread: Thread)
    /** The destructor has returned. `removed`: it took the registration out of its slot itself. */
    | Gone(removed: bool, thread: Thread)

  datatype Canceller =
    | NotRequested
    | LoadRegistrations
    | AtList(l: nat)
    | AtEntry(p: Pos)
    | Exchange(p: Pos)
    /** Inside the callback of the registration it took from the slot. */
    | Running(p: Pos, id: Id)
    | Complete
    /** `request_cancellation` has returned. */
    | Returned

  datatype State = State(
    requested: bool, complete: bool, sources: nat,
    /** The chunk sizes of every list; no list at all while `m_registrationState` is null. */
    sizes: seq<seq<nat>>, slots: map<Pos, Id>, notifier: Thread,
    canceller: Canceller, acts: map<Id, Registrar>,
    // what follows only records what happened
    taken: set<Id>, ran: multiset<Id>)

  datatype Action =
    | AddSource
    | DropSource
    | Request(thread: Thread)
    | CancellerStep
    | Register(id: Id)
    /** `l` is the list picked by the thread's hash; `memory`: whether an allocation succeeds. */
    | RegisterStep(id: Id, l: nat, memory: bool)
    | TryClaim(id: Id, c: nat, e: nat)
    | TryExtend(id: Id, c: nat, memory: bool)
    | StartDeregister(id: Id, thread: Thread)
    | DeregisterStep(id: Id)

  const INITIAL_CHUNK_SIZE: nat := 16
  const MAX_ELEMENT_COUNT: nat := 1024
  const MAX_LIST_COUNT: nat := 16

  function Init(): State
  {
    State(false, false, 1, [], map[], 0, NotRequested, map[], {}, multiset{})
  }

  function ActIn(acts: map<Id, Registrar>, id: Id): Registrar
  {
    if id in acts then acts[id] else Absent
  }

  function NextSize(size: nat): nat
  {
    if size < MAX_ELEMENT_COUNT then size * 2 else MAX_ELEMENT_COUNT
  }

  predicate HasChunk(sizes: seq<seq<nat>>, l: nat, c: nat)
  {
    l < |sizes| && c < |sizes[l]|
  }

  predicate HasSlot(sizes: seq<seq<nat>>, p: Pos)
  {
    HasChunk(sizes, p.l, p.c) && p.e < sizes[p.l][p.c]
  }

  predicate Enabled(s: State, a: Action)
  {
    match a
    case AddSource => s.sources > 0
    case DropSource => s.sources > 0
    case Request(_) => s.sources > 0
    case CancellerStep => !s.canceller.NotRequested? && !s.canceller.Returned?
    case Register(id) => id !in s.acts
    case RegisterStep(id, choice, _) =>
      var r := ActIn(s.acts, id);
      && (r.CheckFlag? || r.LoadState? || r.CasState? || r.LoadList? || r.CasList? || r.Recheck? || r.Withdraw? || r.RunSelf?)
      && (r.CasState? ==> 0 < choice <= MAX_LIST_COUNT)
      && (r.LoadList? ==> choice < |s.sizes|)
    case TryClaim(id, c, e) => ActIn(s.acts, id).Search? && HasSlot(s.sizes, Pos(ActIn(s.acts, id).l, c, e))
    case TryExtend(id, c, _) => ActIn(s.acts, id).Search? && HasChunk(s.sizes, ActIn(s.acts, id).l, c)
    case StartDeregister(id, _) => ActIn(s.acts, id).Registered?
    case DeregisterStep(id) => ActIn(s.acts, id).Deregister? || ActIn(s.acts, id).Wait?
  }

  function Go(s: State, id: Id, r: Registrar): State
  {
    s.(acts := s.acts[id := r])
  }

  function Turn(s: State, c: Canceller): State
  {
    s.(canceller := c)
  }

  /** The scan goes on behind the entry at `p`. */
  function Behind(p: Pos): Canceller
  {
    AtEntry(p.(e := p.e + 1))
  }

  function CancellerApply(s: State): State
  {
    match s.canceller
    case LoadRegistrations => if s.sizes == [] then Turn(s, Returned) else Turn(s, AtList(0))
    case AtList(l) =>
      if l >= |s.sizes| then Turn(s, Complete)
      else if s.sizes[l] == [] then Turn(s, AtList(l + 1))
      else Turn(s, AtEntry(Pos(l, 0, 0)))
    case AtEntry(p) =>
      if HasSlot(s.sizes, p) then
        if p in s.slots then Turn(s, Exchange(p)) else Turn(s, Behind(p))
      else if HasChunk(s.sizes, p.l, p.c + 1) then Turn(s, AtEntry(Pos(p.l, p.c + 1, 0)))
      else Turn(s, AtList(p.l + 1))
    case Exchange(p) =>
      if p in s.slots then
        var id := s.slots[p];
        s.(slots := s.slots - {p}, canceller := Running(p, id), taken := s.taken + {id}, ran := s.ran + multiset{id})
      else Turn(s, Behind(p))
    case Running(p, _) => Turn(s, Behind(p))
    case Complete => s.(complete := true, canceller := Returned)
    case _ => s
  }

  function RegisterApply(s: State, id: Id, choice: nat, memory: bool): State
    requires Enabled(s, RegisterStep(id, choice, memory))
  {
    match ActIn(s.acts, id)
    case CheckFlag => Go(s, id, if s.requested then RunSelf else LoadState)
    case LoadState => Go(s, id, if s.sizes != [] then LoadList else if memory then CasState else Failed)
    case CasState =>
      Go(if s.sizes == [] then s.(sizes := seq(choice, _ => [])) else s, id, LoadList)
    case LoadList =>
      Go(s, id, if s.sizes[choice] != [] then Search(choice) else if memory then CasList(choice) else Failed)
    case CasList(l) =>
      if l < |s.sizes| && s.sizes[l] == [] then
        Go(s.(sizes := s.sizes[l := [INITIAL_CHUNK_SIZE]], slots := s.slots[Pos(l, 0, 0) := id]), id, Recheck(Pos(l, 0, 0)))
      else Go(s, id, Search(l))
    case Recheck(p) => Go(s, id, if s.requested then Withdraw(p) else Registered(p))
    case Withdraw(p) =>
      if p in s.slots && s.slots[p] == id then Go(s.(slots := s.slots - {p}), id, RunSelf)
      else Go(s, id, Registered(p))
    case RunSelf => Go(s.(ran := s.ran + multiset{id}), id, RanSelf)
    case _ => s
  }

  /** The compare-and-swap on one slot of the search. */
  function ClaimApply(s: State, id: Id, p: Pos): State
  {
    if p in s.slots then s else Go(s.(slots := s.slots[p := id]), id, Recheck(p))
  }

  /** The compare-and-swap that appends a chunk behind chunk `c`, with its first slot already claimed. */
  function ExtendApply(s: State, id: Id, l: nat, c: nat, memory: bool): State
    requires HasChunk(s.sizes, l, c)
  {
    if !memory then Go(s, id, Failed)
    else if c + 1 == |s.sizes[l]| then
      var p := Pos(l, c + 1, 0);
      Go(s.(sizes := s.sizes[l := s.sizes[l] + [NextSize(s.sizes[l][c])]], slots := s.slots[p := id]), id, Recheck(p))
    else s
  }

  function DeregisterApply(s: State, id: Id): State
  {
    match ActIn(s.acts, id)
    case Deregister(p, thread) =>
      if p in s.slots && s.slots[p] == id then Go(s.(slots := s.slots - {p}), id, Gone(true, thread))
      else if thread == s.notifier then Go(s, id, Gone(false, thread))
      else Go(s, id, Wait(thread))
    case Wait(thread) => if s.complete then Go(s, id, Gone(false, thread)) else s
    case _ => s
  }

  function Apply(s: State, a: Action): State
    requires Enabled(s, a)
  {
    match a
    case AddSource => s.(sources := s.sources + 1)
    case DropSource => s.(sources := s.sources - 1)
    case Request(thread) =>
      if s.requested then s else s.(requested := true, notifier := thread, canceller := LoadRegistrations)
    case CancellerStep => CancellerApply(s)
    case Register(id) => Go(s, id, if s.requested || s.sources > 0 then CheckFlag else Inert)
    case RegisterStep(id, choice, memory) => RegisterApply(s, id, choice, memory)
    case TryClaim(id, c, e) => ClaimApply(s, id, Pos(ActIn(s.acts, id).l, c, e))
    case TryExtend(id, c, memory) => ExtendApply(s, id, ActIn(s.acts, id).l, c, memory)
    case StartDeregister(id, thread) =>
      Go(s, id, Deregister(ActIn(s.acts, id).p, thread))
    case DeregisterStep(id) => DeregisterApply(s, id)
  }

  // ---------------------------------------------------------------- the invariant

  predicate HasPos(r: Registrar)
  {
    r.Recheck? || r.Withdraw? || r.Registered? || r.Deregister?
  }

  /** A registration whose constructor has returned and whose destructor has not yet touched the slot. */
  predicate Settled(r: Registrar)
  {
    r.Registered? || r.Deregister?
  }

  /** A registration is in its own slot and in no other, until the canceller takes it. */
  ghost predicate SlotsOk(slots: map<Pos, Id>, acts: map<Id, Registrar>, taken: set<Id>)
  {
    && (forall p :: p in slots ==> HasPos(ActIn(acts, slots[p])) && ActIn(acts, slots[p]).p == p)
    && (forall id: Id :: HasPos(ActIn(acts, id)) ==> (Holds(slots, ActIn(acts, id).p, id) <==> id !in taken))
  }

  predicate Holds(slots: map<Pos, Id>, p: Pos, id: Id)
  {
    p in slots && slots[p] == id
  }

  predicate MayBeTaken(r: Registrar)
  {
    HasPos(r) || r.Wait? || (r.Gone? && !r.removed)
  }

  predicate MustBeTaken(r: Registrar)
  {
    r.Wait? || (r.Gone? && !r.removed)
  }

  ghost predicate TakenOk(acts: map<Id, Registrar>, taken: set<Id>, ran: multiset<Id>)
  {
    && (forall id: Id :: id in taken ==> MayBeTaken(ActIn(acts, id)))
    && (forall id: Id :: MustBeTaken(ActIn(acts, id)) ==> id in taken)
    && (forall id: Id :: ran[id] == if id in taken || ActIn(acts, id).RanSelf? then 1 else 0)
  }

  ghost predicate ShapeOk(sizes: seq<seq<nat>>, slots: map<Pos, Id>)
  {
    && (forall p :: p in slots ==> HasSlot(sizes, p))
    && (forall l: nat, c: nat :: HasChunk(sizes, l, c) ==> SizeOk(sizes[l], c))
  }

  /** Chunks start at 16 slots and double up to 1024, so a size is always a power of two. */
  ghost predicate SizeOk(chain: seq<nat>, c: nat)
    requires c < |chain|
  {
    && IsPowerOfTwo(chain[c]) && INITIAL_CHUNK_SIZE <= chain[c] <= MAX_ELEMENT_COUNT
    && chain[c] == if c == 0 then INITIAL_CHUNK_SIZE else NextSize(chain[c - 1])
  }

  /** The canceller has not yet passed the slot. */
  predicate Unvisited(c: Canceller, p: Pos)
  {
    match c
    case NotRequested => true
    case LoadRegistrations => true
    case AtList(l) => p.l >= l
    case AtEntry(q) => !Before(p, q)
    case Exchange(q) => !Before(p, q)
    case Running(q, _) => Before(q, p)
    case Complete => false
    case Returned => false
  }

  predicate Before(p: Pos, q: Pos)
  {
    p.l < q.l || (p.l == q.l && (p.c < q.c || (p.c == q.c && p.e < q.e)))
  }

  /** Whoever is settled in a slot will still be visited. */
  ghost predicate CoverOk(slots: map<Pos, Id>, acts: map<Id, Registrar>, canceller: Canceller)
  {
    forall p :: p in slots && Settled(ActIn(acts, slots[p])) ==> Unvisited(canceller, p)
  }

  predicate AfterRequest(r: Registrar)
  {
    r.Withdraw? || r.RunSelf? || r.RanSelf?
  }

  predicate Scanning(c: Canceller)
  {
    c.AtList? || c.AtEntry? || c.Exchange? || c.Running? || c.Complete?
  }

  ghost predicate FlagsOk(s: State)
  {
    && (s.requested <==> !s.canceller.NotRequested?)
    && (s.complete ==> s.canceller.Returned?)
    && (s.canceller.Returned? && !s.complete ==> s.taken == {})
    && (s.canceller.NotRequested? || s.canceller.LoadRegistrations? ==> s.taken == {})
    && (s.canceller.Running? ==> s.canceller.id in s.taken)
    && (s.canceller.AtEntry? || s.canceller.Exchange? || s.canceller.Running? ==>
          HasChunk(s.sizes, s.canceller.p.l, s.canceller.p.c))
  }

  ghost predicate ActsOk(s: State)
  {
    && (forall id: Id :: AfterRequest(ActIn(s.acts, id)) ==> s.requested)
    && (forall id: Id :: ActIn(s.acts, id).Inert? ==> s.sources == 0 && !s.requested)
    && (forall id: Id :: ActIn(s.acts, id).Gone? && !ActIn(s.acts, id).removed && ActIn(s.acts, id).thread != s.notifier ==>
          s.complete)
    && (forall id: Id :: ActIn(s.acts, id).Wait? ==> ActIn(s.acts, id).thread != s.notifier)
    && (forall id: Id :: InList(ActIn(s.acts, id)) ==> ListOf(ActIn(s.acts, id)) < |s.sizes|)
  }

  predicate InList(r: Registrar)
  {
    r.CasList? || r.Search?
  }

  function ListOf(r: Registrar): nat
    requires InList(r)
  {
    r.l
  }

  ghost predicate Inv(s: State)
  {
    && SlotsOk(s.slots, s.acts, s.taken) && TakenOk(s.acts, s.taken, s.ran) && ShapeOk(s.sizes, s.slots)
    && CoverOk(s.slots, s.acts, s.canceller) && FlagsOk(s) && ActsOk(s)
  }

  lemma InitInv()
    ensures Inv(Init())
  {
  }

  // ---------------------------------------------------------------- the moves

  ghost predicate Moves(acts: map<Id, Registrar>, id: Id, acts': map<Id, Registrar>)
  {
    forall w: Id :: w != id ==> ActIn(acts', w) == ActIn(acts, w)
  }

  predicate Early(r: Registrar)
  {
    !HasPos(r) && !MustBeTaken(r) && !r.RanSelf? && !(r.Gone?)
  }

  ghost predicate Grows(sizes: seq<seq<nat>>, sizes': seq<seq<nat>>)
  {
    || (sizes == [] && forall l :: 0 <= l < |sizes'| ==> sizes'[l] == [])
    || (|sizes| == |sizes'| && forall l :: 0 <= l < |sizes| ==> sizes[l] <= sizes'[l])
  }

  lemma GrownHas(sizes: seq<seq<nat>>, sizes': seq<seq<nat>>)
    requires Grows(sizes, sizes')
    ensures forall p :: HasSlot(sizes, p) ==> HasSlot(sizes', p)
    ensures forall l: nat, c: nat :: HasChunk(sizes, l, c) ==> HasChunk(sizes', l, c)
    ensures |sizes| <= |sizes'|
  {
  }

  lemma ActsMove(s: State, id: Id, s': State)
    requires ActsOk(s) && Moves(s.acts, id, s'.acts) && |s.sizes| <= |s'.sizes|
    requires s'.requested == s.requested && s'.sources == s.sources && s'.notifier == s.notifier && s'.complete == s.complete
    requires AfterRequest(ActIn(s'.acts, id)) ==> s.requested
    requires ActIn(s'.acts, id).Inert? ==> s.sources == 0 && !s.requested
    requires InList(ActIn(s'.acts, id)) ==> ListOf(ActIn(s'.acts, id)) < |s'.sizes|
    requires ActIn(s'.acts, id).Gone? && !ActIn(s'.acts, id).removed ==> s.complete || ActIn(s'.acts, id).thread == s.notifier
    requires ActIn(s'.acts, id).Wait? ==> ActIn(s'.acts, id).thread != s.notifier
    ensures ActsOk(s')
  {
  }

  lemma TakenMove(acts: map<Id, Registrar>, taken: set<Id>, ran: multiset<Id>, id: Id, acts': map<Id, Registrar>)
    requires TakenOk(acts, taken, ran) && Moves(acts, id, acts')
    requires ActIn(acts, id).RanSelf? == ActIn(acts', id).RanSelf?
    requires id in taken ==> MayBeTaken(ActIn(acts', id))
    requires id !in taken ==> !MustBeTaken(ActIn(acts', id))
    ensures TakenOk(acts', taken, ran)
  {
  }

  /** A registration that has no slot before or after the move. */
  lemma EarlyMove(s: State, id: Id, s': State)
    requires Inv(s) && Moves(s.acts, id, s'.acts) && Early(ActIn(s.acts, id)) && Early(ActIn(s'.acts, id))
    requires s' == s.(acts := s'.acts, sizes := s'.sizes)
    requires s'.sizes == s.sizes || (s.sizes == [] && Grows(s.sizes, s'.sizes))
    requires AfterRequest(ActIn(s'.acts, id)) ==> s.requested
    requires ActIn(s'.acts, id).Inert? ==> s.sources == 0 && !s.requested
    requires InList(ActIn(s'.acts, id)) ==> ListOf(ActIn(s'.acts, id)) < |s'.sizes|
    ensures Inv(s')
  {
    hide SizeOk, TakenOk, ActsOk;
    EarlyIsNotTaken(s, id);
    TakenMove(s.acts, s.taken, s.ran, id, s'.acts);
    ActsMove(s, id, s');
    GrownHas(s.sizes, s'.sizes);
  }

  lemma EarlyIsNotTaken(s: State, id: Id)
    requires TakenOk(s.acts, s.taken, s.ran) && Early(ActIn(s.acts, id))
    ensures id !in s.taken
  {
  }

  /** A slot is claimed, perhaps in a chunk that was just linked. */
  lemma PublishMove(s: State, id: Id, p: Pos, s': State)
    requires Inv(s) && Moves(s.acts, id, s'.acts) && Early(ActIn(s.acts, id)) && ActIn(s'.acts, id) == Recheck(p)
    requires p !in s.slots && s' == s.(acts := s'.acts, sizes := s'.sizes, slots := s.slots[p := id])
    requires Grows(s.sizes, s'.sizes) && HasSlot(s'.sizes, p) && ShapeOk(s'.sizes, map[])
    ensures Inv(s')
  {
    hide SizeOk, TakenOk, ActsOk, Grows, HasSlot;
    EarlyIsNotTaken(s, id);
    GrownHas(s.sizes, s'.sizes);
    TakenMove(s.acts, s.taken, s.ran, id, s'.acts);
    ActsMove(s, id, s');
    SlotsPublish(s.slots, s.acts, s.taken, id, p, s'.acts);
  }

  lemma SlotsPublish(slots: map<Pos, Id>, acts: map<Id, Registrar>, taken: set<Id>, id: Id, p: Pos, acts': map<Id, Registrar>)
    requires SlotsOk(slots, acts, taken) && Moves(acts, id, acts') && id !in taken && p !in slots
    requires !HasPos(ActIn(acts, id)) && ActIn(acts', id) == Recheck(p)
    ensures SlotsOk(slots[p := id], acts', taken)
  {
  }

  /** The second look at the flag, or a withdrawal that comes too late. */
  lemma SettleMove(s: State, id: Id, s': State)
    requires Inv(s) && Moves(s.acts, id, s'.acts) && s' == s.(acts := s'.acts)
    requires HasPos(ActIn(s.acts, id)) && HasPos(ActIn(s'.acts, id)) && ActIn(s'.acts, id).p == ActIn(s.acts, id).p
    requires ActIn(s'.acts, id).Withdraw? ==> s.requested
    requires Settled(ActIn(s'.acts, id)) ==>
               Settled(ActIn(s.acts, id)) || !s.requested || !Holds(s.slots, ActIn(s.acts, id).p, id)
    ensures Inv(s')
  {
    hide ShapeOk;
  }

  /** A registration leaves its slot by its own hand. */
  lemma RemoveMove(s: State, id: Id, p: Pos, s': State)
    requires Inv(s) && Moves(s.acts, id, s'.acts) && Holds(s.slots, p, id)
    requires s' == s.(acts := s'.acts, slots := s.slots - {p})
    requires (ActIn(s'.acts, id).RunSelf? && s.requested) || (ActIn(s'.acts, id).Gone? && ActIn(s'.acts, id).removed)
    ensures Inv(s')
  {
    hide SizeOk, TakenOk, ActsOk, HasSlot, HasChunk;
    SlotsRemove(s.slots, s.acts, s.taken, id, p, s'.acts);
    TakenMove(s.acts, s.taken, s.ran, id, s'.acts);
    ActsMove(s, id, s');
  }

  lemma SlotsRemove(slots: map<Pos, Id>, acts: map<Id, Registrar>, taken: set<Id>, id: Id, p: Pos, acts': map<Id, Registrar>)
    requires SlotsOk(slots, acts, taken) && Moves(acts, id, acts') && Holds(slots, p, id) && !HasPos(ActIn(acts', id))
    ensures SlotsOk(slots - {p}, acts', taken) && id !in taken && HasPos(ActIn(acts, id))
  {
    var slots' := slots - {p};
    assert forall q :: q in slots' ==> slots'[q] != id;
    forall w: Id | HasPos(ActIn(acts', w))
      ensures Holds(slots', ActIn(acts', w).p, w) <==> w !in taken
    {
      assert Holds(slots, ActIn(acts, w).p, w) <==> w !in taken;
    }
  }

  lemma RanSelfMove(s: State, id: Id, s': State)
    requires Inv(s) && Moves(s.acts, id, s'.acts) && ActIn(s.acts, id).RunSelf? && ActIn(s'.acts, id).RanSelf?
    requires s' == s.(acts := s'.acts, ran := s.ran + multiset{id})
    ensures Inv(s')
  {
    hide ShapeOk;
  }

  /** A destructor that finds its registration taken. */
  lemma LostMove(s: State, id: Id, s': State)
    requires Inv(s) && Moves(s.acts, id, s'.acts) && s' == s.(acts := s'.acts)
    requires ActIn(s.acts, id).Wait? || (ActIn(s.acts, id).Deregister? && !Holds(s.slots, ActIn(s.acts, id).p, id))
    requires MustBeTaken(ActIn(s'.acts, id))
    requires ActIn(s'.acts, id).Gone? ==> s.complete || ActIn(s'.acts, id).thread == s.notifier
    requires ActIn(s'.acts, id).Wait? ==> ActIn(s'.acts, id).thread != s.notifier
    ensures Inv(s')
  {
    hide ShapeOk;
  }

  lemma ScanMove(s: State, s': State)
    requires Inv(s) && s' == s.(canceller := s'.canceller) && Scanning(s'.canceller) && !s'.canceller.Running?
    requires Scanning(s.canceller) || s.canceller.LoadRegistrations?
    requires forall p :: p in s.slots && Unvisited(s.canceller, p) ==> Unvisited(s'.canceller, p)
    requires s'.canceller.AtEntry? || s'.canceller.Exchange? ==> HasChunk(s.sizes, s'.canceller.p.l, s'.canceller.p.c)
    ensures Inv(s')
  {
    hide ShapeOk;
  }

  lemma TakeMove(s: State, p: Pos, s': State)
    requires Inv(s) && s.canceller == Exchange(p) && p in s.slots
    requires var id := s.slots[p];
             s' == s.(slots := s.slots - {p}, canceller := Running(p, id), taken := s.taken + {id}, ran := s.ran + multiset{id})
    ensures Inv(s')
  {
    var id := s.slots[p];
    assert Holds(s.slots, p, id) && id !in s.taken;
    forall q | q in s'.slots && Settled(ActIn(s'.acts, s'.slots[q]))
      ensures Unvisited(s'.canceller, q)
    {
      assert Unvisited(s.canceller, q) && q != p;
    }
  }

  lemma EndMove(s: State, s': State)
    requires Inv(s) && s'.canceller.Returned?
    requires || (s.canceller.Complete? && s' == s.(canceller := Returned, complete := true))
             || (s.canceller.LoadRegistrations? && s.sizes == [] && s' == s.(canceller := Returned))
    ensures Inv(s')
  {
    hide SizeOk;
  }

  lemma RequestMove(s: State, thread: Thread, s': State)
    requires Inv(s) && !s.requested && s.sources > 0
    requires s' == s.(requested := true, notifier := thread, canceller := LoadRegistrations)
    ensures Inv(s')
  {
    hide ShapeOk;
  }

  // ---------------------------------------------------------------- every step

  lemma ActFacts(s: State, id: Id)
    requires Inv(s)
    ensures var r := ActIn(s.acts, id);
            && (HasPos(r) ==> (Holds(s.slots, r.p, id) <==> id !in s.taken))
            && (AfterRequest(r) ==> s.requested)
            && (InList(r) ==> ListOf(r) < |s.sizes|)
    ensures s.canceller.LoadRegistrations? || Scanning(s.canceller) <==> !s.canceller.NotRequested? && !s.canceller.Returned?
    ensures s.requested <==> !s.canceller.NotRequested?
  {
  }

  lemma NewList(s: State, l: nat)
    requires Inv(s) && l < |s.sizes| && s.sizes[l] == []
    ensures var sizes' := s.sizes[l := [INITIAL_CHUNK_SIZE]];
            && Grows(s.sizes, sizes') && HasSlot(sizes', Pos(l, 0, 0)) && ShapeOk(sizes', map[])
            && Pos(l, 0, 0) !in s.slots
  {
    var sizes' := s.sizes[l := [INITIAL_CHUNK_SIZE]];
    assert IsPowerOfTwo(8);
    forall m: nat, c: nat | HasChunk(sizes', m, c)
      ensures SizeOk(sizes'[m], c)
    {
      assert m != l ==> HasChunk(s.sizes, m, c);
    }
    assert !HasSlot(s.sizes, Pos(l, 0, 0));
  }

  lemma NewChunk(s: State, l: nat, c: nat)
    requires Inv(s) && HasChunk(s.sizes, l, c) && c + 1 == |s.sizes[l]|
    ensures var sizes' := s.sizes[l := s.sizes[l] + [NextSize(s.sizes[l][c])]];
            && Grows(s.sizes, sizes') && HasSlot(sizes', Pos(l, c + 1, 0)) && ShapeOk(sizes', map[])
            && Pos(l, c + 1, 0) !in s.slots
  {
    var chain := s.sizes[l];
    var chain' := chain + [NextSize(chain[c])];
    var sizes' := s.sizes[l := chain'];
    assert SizeOk(chain, c);
    NextSizeOk(chain[c]);
    forall m: nat, d: nat | HasChunk(sizes', m, d)
      ensures SizeOk(sizes'[m], d)
    {
      if m != l || d <= c {
        assert HasChunk(s.sizes, m, d);
        assert SizeOk(s.sizes[m], d);
      }
    }
    assert !HasSlot(s.sizes, Pos(l, c + 1, 0));
  }

  lemma NextSizeOk(size: nat)
    requires IsPowerOfTwo(size) && INITIAL_CHUNK_SIZE <= size <= MAX_ELEMENT_COUNT
    ensures IsPowerOfTwo(NextSize(size)) && size <= NextSize(size) <= MAX_ELEMENT_COUNT
  {
    assert IsPowerOfTwo(MAX_ELEMENT_COUNT) by {
      assert IsPowerOfTwo(4);
      assert IsPowerOfTwo(16);
      assert IsPowerOfTwo(64);
      assert IsPowerOfTwo(256);
    }
    PowersDivide(size, MAX_ELEMENT_COUNT);
    var q := MAX_ELEMENT_COUNT / size;
    assert MAX_ELEMENT_COUNT == q * size;
    assert q >= 2 ==> q * size >= 2 * size;
  }

  lemma EarlySteps(s: State, id: Id, choice: nat, memory: bool)
    requires Inv(s) && Enabled(s, RegisterStep(id, choice, memory))
    requires var r := ActIn(s.acts, id); r.CheckFlag? || r.LoadState? || r.CasState? || r.LoadList?
    ensures Inv(RegisterApply(s, id, choice, memory))
  {
    hide Inv, ShapeOk, HasSlot, HasChunk;
    EarlyMove(s, id, RegisterApply(s, id, choice, memory));
  }

  lemma CasListSteps(s: State, id: Id, choice: nat, memory: bool)
    requires Inv(s) && Enabled(s, RegisterStep(id, choice, memory)) && ActIn(s.acts, id).CasList?
    ensures Inv(RegisterApply(s, id, choice, memory))
  {
    hide Inv, ShapeOk, HasSlot, HasChunk, Grows;
    ActFacts(s, id);
    var s', l := RegisterApply(s, id, choice, memory), ActIn(s.acts, id).l;
    assert Moves(s.acts, id, s'.acts);
    if s.sizes[l] == [] {
      NewList(s, l);
      PublishMove(s, id, Pos(l, 0, 0), s');
    } else {
      EarlyMove(s, id, s');
    }
  }

  lemma SettleSteps(s: State, id: Id, choice: nat, memory: bool)
    requires Inv(s) && Enabled(s, RegisterStep(id, choice, memory))
    requires var r := ActIn(s.acts, id); r.Recheck? || r.Withdraw? || r.RunSelf?
    ensures Inv(RegisterApply(s, id, choice, memory))
  {
    hide Inv, ShapeOk, HasSlot, HasChunk;
    ActFacts(s, id);
    var s', r := RegisterApply(s, id, choice, memory), ActIn(s.acts, id);
    assert Moves(s.acts, id, s'.acts);
    if r.RunSelf? {
      RanSelfMove(s, id, s');
    } else if r.Withdraw? && Holds(s.slots, r.p, id) {
      RemoveMove(s, id, r.p, s');
    } else {
      SettleMove(s, id, s');
    }
  }

  lemma RegisterSteps(s: State, id: Id, choice: nat, memory: bool)
    requires Inv(s) && Enabled(s, RegisterStep(id, choice, memory))
    ensures Inv(RegisterApply(s, id, choice, memory))
  {
    hide Inv, RegisterApply;
    match ActIn(s.acts, id) {
      case CasList(_) => CasListSteps(s, id, choice, memory);
      case Recheck(_) => SettleSteps(s, id, choice, memory);
      case Withdraw(_) => SettleSteps(s, id, choice, memory);
      case RunSelf => SettleSteps(s, id, choice, memory);
      case _ => EarlySteps(s, id, choice, memory);
    }
  }

  lemma ClaimSteps(s: State, id: Id, c: nat, e: nat)
    requires Inv(s) && Enabled(s, TryClaim(id, c, e))
    ensures Inv(Apply(s, TryClaim(id, c, e)))
  {
    hide Inv, ShapeOk, HasSlot, HasChunk;
    var s', p := Apply(s, TryClaim(id, c, e)), Pos(ActIn(s.acts, id).l, c, e);
    SameShape(s);
    if p !in s.slots {
      PublishMove(s, id, p, s');
    }
  }

  lemma ExtendSteps(s: State, id: Id, c: nat, memory: bool)
    requires Inv(s) && Enabled(s, TryExtend(id, c, memory))
    ensures Inv(Apply(s, TryExtend(id, c, memory)))
  {
    hide Inv, ShapeOk, HasSlot, Grows, NextSize;
    var s', l := Apply(s, TryExtend(id, c, memory)), ActIn(s.acts, id).l;
    if !memory {
      EarlyMove(s, id, s');
    } else if c + 1 == |s.sizes[l]| {
      NewChunk(s, l, c);
      PublishMove(s, id, Pos(l, c + 1, 0), s');
    }
  }

  lemma SameShape(s: State)
    requires Inv(s)
    ensures Grows(s.sizes, s.sizes) && ShapeOk(s.sizes, map[])
  {
  }

  lemma CancellerSteps(s: State)
    requires Inv(s) && Enabled(s, CancellerStep)
    ensures Inv(CancellerApply(s))
  {
    var s' := CancellerApply(s);
    match s.canceller {
      case LoadRegistrations => BeginOrEnd(s);
      case AtList(_) => ScanFrom(s);
      case AtEntry(_) => ScanFrom(s);
      case Exchange(p) =>
        if p in s.slots {
          TakeMove(s, p, s');
        } else {
          ScanFrom(s);
        }
      case Running(_, _) => ScanFrom(s);
      case Complete => EndMove(s, s');
    }
  }

  lemma BeginOrEnd(s: State)
    requires Inv(s) && s.canceller.LoadRegistrations?
    ensures Inv(CancellerApply(s))
  {
    if s.sizes == [] {
      EndMove(s, CancellerApply(s));
    } else {
      ScanMove(s, CancellerApply(s));
    }
  }

  /** The scan never passes a slot that holds a registration. */
  lemma ScanFrom(s: State)
    requires Inv(s) && (s.canceller.AtList? || s.canceller.AtEntry? || s.canceller.Exchange? || s.canceller.Running?)
    requires s.canceller.Exchange? ==> s.canceller.p !in s.slots
    ensures Inv(CancellerApply(s))
  {
    var s' := CancellerApply(s);
    hide SizeOk, TakenOk, SlotsOk, CoverOk, ActsOk;
    forall p | p in s.slots && Unvisited(s.canceller, p)
      ensures Unvisited(s'.canceller, p)
    {
      assert HasSlot(s.sizes, p);
    }
    ScanMove(s, s');
  }

  lemma DeregisterSteps(s: State, a: Action)
    requires Inv(s) && Enabled(s, a) && (a.StartDeregister? || a.DeregisterStep?)
    ensures Inv(Apply(s, a))
  {
    hide Inv;
    ActFacts(s, a.id);
    var s' := Apply(s, a);
    assert Moves(s.acts, a.id, s'.acts);
    if a.StartDeregister? {
      SettleMove(s, a.id, s');
    } else if ActIn(s.acts, a.id).Deregister? && Holds(s.slots, ActIn(s.acts, a.id).p, a.id) {
      RemoveMove(s, a.id, ActIn(s.acts, a.id).p, s');
    } else if s' != s {
      LostMove(s, a.id, s');
    }
  }

  lemma SourceSteps(s: State, a: Action)
    requires Inv(s) && Enabled(s, a) && (a.AddSource? || a.DropSource? || a.Request? || a.Register?)
    ensures Inv(Apply(s, a))
  {
    if a.Register? {
      assert Moves(s.acts, a.id, Apply(s, a).acts);
      EarlyMove(s, a.id, Apply(s, a));
    } else if a.Request? && !s.requested {
      RequestMove(s, a.thread, Apply(s, a));
    }
  }

  /** Every atomic step of every thread keeps the invariant. */
  lemma StepKeepsInv(s: State, a: Action)
    requires Inv(s) && Enabled(s, a)
    ensures Inv(Apply(s, a))
  {
    hide Inv;
    match a {
      case CancellerStep => CancellerSteps(s);
      case RegisterStep(id, choice, memory) => RegisterSteps(s, id, choice, memory);
      case TryClaim(id, c, e) => ClaimSteps(s, id, c, e);
      case TryExtend(id, c, memory) => ExtendSteps(s, id, c, memory);
      case StartDeregister(_, _) => DeregisterSteps(s, a);
      case DeregisterStep(_) => DeregisterSteps(s, a);
      case _ => SourceSteps(s, a);
    }
  }

  // ---------------------------------------------------------------- whole runs

  ghost predicate Reaches(s: State, run: seq<Action>, s': State)
    decreases |run|
  {
    if run == [] then s == s'
    else Enabled(s, run[0]) && Reaches(Apply(s, run[0]), run[1..], s')
  }

  lemma {:induction false} RunsKeepInv(s: State, run: seq<Action>, s': State)
    requires Inv(s) && Reaches(s, run, s')
    ensures Inv(s')
    decreases |run|
  {
    hide Inv;
    if run != [] {
      StepKeepsInv(s, run[0]);
      RunsKeepInv(Apply(s, run[0]), run[1..], s');
    }
  }

  ghost predicate Reachable(s: State)
  {
    exists run: seq<Action> :: Reaches(Init(), run, s)
  }

  lemma ReachableInv(s: State)
    requires Reachable(s)
    ensures Inv(s)
  {
    hide Inv;
    var run: seq<Action> :| Reaches(Init(), run, s);
    InitInv();
    RunsKeepInv(Init(), run, s);
  }

  lemma InitReachable()
    ensures Reachable(Init())
  {
    assert Reaches(Init(), [], Init());
  }

  lemma {:induction false} OneMore(s: State, run: seq<Action>, s': State, a: Action)
    requires Reaches(s, run, s') && Enabled(s', a)
    ensures Reaches(s, run + [a], Apply(s', a))
    decreases |run|
  {
    hide Apply, Enabled;
    if run == [] {
      assert [a][1..] == [];
      assert Reaches(Apply(s, a), [], Apply(s, a));
      assert run + [a] == [a];
    } else {
      OneMore(Apply(s, run[0]), run[1..], s', a);
      assert (run + [a])[1..] == run[1..] + [a];
    }
  }

  lemma StepKeepsReachable(s: State, a: Action)
    requires Reachable(s) && Enabled(s, a)
    ensures Reachable(Apply(s, a))
  {
    hide Apply, Enabled;
    var run: seq<Action> :| Reaches(Init(), run, s);
    OneMore(Init(), run, s, a);
  }

  /** No callback runs twice or before a request; and when `request_cancellation` and the constructor have
      both returned, every registration not removed by its destructor has run. */
  lemma EveryCallbackRunsOnce(run: seq<Action>, s: State, id: Id)
    requires Reaches(Init(), run, s)
    ensures s.ran[id] <= 1 && (s.ran[id] == 1 ==> s.requested)
    ensures var r := ActIn(s.acts, id);
            && (s.canceller.Returned? && (r.Registered? || r.RanSelf?) ==> s.ran[id] == 1)
            && (r.Gone? ==> s.ran[id] == if r.removed then 0 else 1)
            && (r.Inert? || r.Failed? ==> s.ran[id] == 0)
  {
    InitInv();
    RunsKeepInv(Init(), run, s);
    TakenOrUnvisited(s, id);
  }

  lemma TakenOrUnvisited(s: State, id: Id)
    requires Inv(s)
    ensures Settled(ActIn(s.acts, id)) ==> id in s.taken || Unvisited(s.canceller, ActIn(s.acts, id).p)
  {
    if Settled(ActIn(s.acts, id)) {
      assert Holds(s.slots, ActIn(s.acts, id).p, id) <==> id !in s.taken;
    }
  }

  predicate IsRunning(c: Canceller, id: Id)
  {
    c.Running? && c.id == id
  }

  /** What a destructor has done stays done. */
  lemma {:induction false} GoneStaysGone(s: State, run: seq<Action>, s': State, id: Id)
    requires Reaches(s, run, s') && ActIn(s.acts, id).Gone?
    ensures ActIn(s'.acts, id) == ActIn(s.acts, id)
    ensures s.requested ==> s'.requested && s'.notifier == s.notifier
    decreases |run|
  {
    if run != [] {
      hide Apply, Enabled;
      StepKeepsEnds(s, run[0], id);
      GoneStaysGone(Apply(s, run[0]), run[1..], s', id);
    }
  }

  lemma StepKeepsEnds(s: State, a: Action, id: Id)
    requires Enabled(s, a)
    ensures ActIn(s.acts, id).Gone? || ActIn(s.acts, id).Inert? ==> ActIn(Apply(s, a).acts, id) == ActIn(s.acts, id)
    ensures s.requested ==> Apply(s, a).requested && Apply(s, a).notifier == s.notifier
  {
  }

  /** After a destructor has returned on a thread other than the notifying one, the callback is not running
      and never runs again; and on any thread, it never starts again. */
  lemma NoCallbackAfterDeregister(run: seq<Action>, s: State, more: seq<Action>, s': State, id: Id)
    requires Reaches(Init(), run, s) && ActIn(s.acts, id).Gone? && Reaches(s, more, s')
    ensures s'.ran[id] == s.ran[id]
    ensures ActIn(s.acts, id).removed || ActIn(s.acts, id).thread != s.notifier ==> !IsRunning(s'.canceller, id)
  {
    InitInv();
    RunsKeepInv(Init(), run, s);
    RunsKeepInv(s, more, s');
    GoneStaysGone(s, more, s', id);
  }

  /** Whoever waits for the notification to complete waits for a canceller that will say so, and is not the
      thread that notifies. */
  lemma WaitIsNotForever(run: seq<Action>, s: State, id: Id)
    requires Reaches(Init(), run, s) && ActIn(s.acts, id).Wait?
    ensures s.complete || Scanning(s.canceller)
    ensures ActIn(s.acts, id).thread != s.notifier
  {
    InitInv();
    RunsKeepInv(Init(), run, s);
  }

  /** Every chunk of every list has a power of two of slots, between 16 and 1024. */
  lemma ChunksAreMaskable(run: seq<Action>, s: State, l: nat, c: nat)
    requires Reaches(Init(), run, s) && HasChunk(s.sizes, l, c)
    ensures IsPowerOfTwo(s.sizes[l][c]) && INITIAL_CHUNK_SIZE <= s.sizes[l][c] <= MAX_ELEMENT_COUNT
  {
    InitInv();
    RunsKeepInv(Init(), run, s);
    assert SizeOk(s.sizes[l], c);
  }

  /** A registration that was never made was not needed: nobody can request cancellation any more. */
  lemma InertIsHarmless(run: seq<Action>, s: State, id: Id, more: seq<Action>, s': State)
    requires Reaches(Init(), run, s) && ActIn(s.acts, id).Inert? && Reaches(s, more, s')
    ensures !s'.requested && s'.ran[id] == 0
  {
    InitInv();
    RunsKeepInv(Init(), run, s);
    InertStaysInert(s, more, s', id);
    RunsKeepInv(s, more, s');
  }

  lemma {:induction false} InertStaysInert(s: State, run: seq<Action>, s': State, id: Id)
    requires Reaches(s, run, s') && ActIn(s.acts, id).Inert?
    ensures ActIn(s'.acts, id).Inert?
    decreases |run|
  {
    if run != [] {
      hide Apply, Enabled;
      StepKeepsEnds(s, run[0], id);
      InertStaysInert(Apply(s, run[0]), run[1..], s', id);
    }
  }

  // ---------------------------------------------------------------- what happens between the steps of a call

  /** Who makes a call. */
  datatype Self = Cancelling | Registering(id: Id)

  predicate IsOwn(self: Self, a: Action)
  {
    match a
    case AddSource => false
    case DropSource => false
    case Request(_) => false
    case CancellerStep => self.Cancelling?
    case Register(id) => self == Registering(id)
    case RegisterStep(id, _, _) => self == Registering(id)
    case TryClaim(id, _, _) => self == Registering(id)
    case TryExtend(id, _, _) => self == Registering(id)
    case StartDeregister(id, _) => self == Registering(id)
    case DeregisterStep(id) => self == Registering(id)
  }

  ghost predicate OthersRan(self: Self, s: State, s': State)
  {
    exists run: seq<Action> :: Reaches(s, run, s') && forall i :: 0 <= i < |run| ==> !IsOwn(self, run[i])
  }

  lemma NobodyRan(self: Self, s: State)
    ensures OthersRan(self, s, s)
  {
    assert Reaches(s, [], s);
  }

  /** Where a call has got to: later callers of `request_cancellation` do not disturb the first one. */
  ghost predicate SameOwn(self: Self, s: State, s': State)
  {
    match self
    case Cancelling => s.requested ==> s'.requested && s'.canceller == s.canceller
    case Registering(id) => ActIn(s'.acts, id) == ActIn(s.acts, id)
  }

  lemma OthersLeaveOwn(self: Self, s: State, s': State)
    requires OthersRan(self, s, s')
    ensures SameOwn(self, s, s')
  {
    hide Reaches;
    var run: seq<Action> :| Reaches(s, run, s') && forall i :: 0 <= i < |run| ==> !IsOwn(self, run[i]);
    OtherRunsLeaveOwn(self, s, run, s');
  }

  lemma {:induction false} OtherRunsLeaveOwn(self: Self, s: State, run: seq<Action>, s': State)
    requires Reaches(s, run, s') && forall i :: 0 <= i < |run| ==> !IsOwn(self, run[i])
    ensures SameOwn(self, s, s')
    decreases |run|
  {
    hide Apply, Enabled;
    if run != [] {
      assert !IsOwn(self, run[0]);
      OtherStepLeavesOwn(self, s, run[0]);
      assert forall i :: 0 <= i < |run[1..]| ==> run[1..][i] == run[i + 1];
      OtherRunsLeaveOwn(self, Apply(s, run[0]), run[1..], s');
    }
  }

  lemma OtherStepLeavesOwn(self: Self, s: State, a: Action)
    requires Enabled(s, a) && !IsOwn(self, a)
    ensures SameOwn(self, s, Apply(s, a))
  {
    hide CancellerApply, RegisterApply, ClaimApply, ExtendApply, DeregisterApply;
    match a {
      case CancellerStep => CancellerLeavesActs(s);
      case RegisterStep(id, choice, memory) => RegistrarLeavesCanceller(s, id, choice, memory);
      case TryClaim(id, c, e) => ClaimLeavesCanceller(s, id, Pos(ActIn(s.acts, id).l, c, e));
      case TryExtend(id, c, memory) => ExtendLeavesCanceller(s, id, ActIn(s.acts, id).l, c, memory);
      case DeregisterStep(id) => DeregisterLeavesCanceller(s, id);
      case _ =>
    }
  }

  ghost predicate OnlyAct(s: State, id: Id, s': State)
  {
    && s'.requested == s.requested && s'.canceller == s.canceller
    && forall w: Id :: w != id ==> ActIn(s'.acts, w) == ActIn(s.acts, w)
  }

  lemma CancellerLeavesActs(s: State)
    ensures CancellerApply(s).acts == s.acts
  {
  }

  lemma RegistrarLeavesCanceller(s: State, id: Id, choice: nat, memory: bool)
    requires Enabled(s, RegisterStep(id, choice, memory))
    ensures OnlyAct(s, id, RegisterApply(s, id, choice, memory))
  {
  }

  lemma ClaimLeavesCanceller(s: State, id: Id, p: Pos)
    ensures OnlyAct(s, id, ClaimApply(s, id, p))
  {
  }

  lemma ExtendLeavesCanceller(s: State, id: Id, l: nat, c: nat, memory: bool)
    requires HasChunk(s.sizes, l, c)
    ensures OnlyAct(s, id, ExtendApply(s, id, l, c, memory))
  {
  }

  lemma DeregisterLeavesCanceller(s: State, id: Id)
    ensures OnlyAct(s, id, DeregisterApply(s, id))
  {
  }
}
