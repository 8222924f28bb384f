/** `cancellation_state` with the program's own fields: the flags and reference counts packed in one word,
    chunks of slots, and the loop that searches a chunk for a free slot. Each method of `CancellationState`
    is one atomic operation and is proved to be the step of the machine in `Cancellation`; the search of a
    chunk and the whole of `request_cancellation` follow at the end of the class. */
module CancellationStates {
  import opened Words
  import opened Cancellation

  // ---------------------------------------------------------------- the packed word

  const REQUESTED_FLAG: nat := 1
  const COMPLETE_FLAG: nat := 2
  const SOURCE_REF_INCREMENT: nat := 4
  const TOKEN_REF_INCREMENT: nat := 0x2_0000_0000
  /** Both reference counts stay below this. */
  const MAX_REFS: nat := 0x8000_0000

  function Pack(requested: bool, complete: bool, sources: nat, tokens: nat): nat
  {
    (if requested then REQUESTED_FLAG else 0) + (if complete then COMPLETE_FLAG else 0)
    + sources * SOURCE_REF_INCREMENT + tokens * TOKEN_REF_INCREMENT
  }

  function RequestedBit(state: Word): bool
  {
    state % 2 == 1
  }

  function CompleteBit(state: Word): bool
  {
    state / 2 % 2 == 1
  }

  /** `(state & can_be_cancelled_mask) != 0`: the low 33 bits. */
  function CanBeCancelled(state: Word): bool
  {
    state % TOKEN_REF_INCREMENT != 0
  }

  /** The flags can be read off the packed word, whatever the reference counts. */
  lemma PackedBits(requested: bool, complete: bool, sources: nat, tokens: nat)
    requires sources < MAX_REFS && tokens < MAX_REFS
    ensures var state := Pack(requested, complete, sources, tokens);
            && state < SIZE && RequestedBit(state) == requested && CompleteBit(state) == complete
            && (CanBeCancelled(state) <==> requested || complete || sources > 0)
  {
    var state := Pack(requested, complete, sources, tokens);
    var low := (if requested then 1 else 0) + (if complete then 2 else 0) + sources * 4;
    RemainderIs(state, TOKEN_REF_INCREMENT, tokens, low);
    var high := sources + tokens * (TOKEN_REF_INCREMENT / 4);
    var rest := (if complete then 1 else 0) + 2 * high;
    assert state == (if requested then 1 else 0) + 2 * rest;
    assert state / 2 == rest;
  }

  // ---------------------------------------------------------------- the search for a slot

  const FORCED_SEARCH_THRESHOLD: int := -10
  /** 2^32: slots are numbered by 32-bit unsigned arithmetic. */
  const SIZE32: int := 0x1_0000_0000

  type Int32 = x: int | -0x8000_0000 <= x < 0x8000_0000

  /** The slot tried in turn `i` of the search: `(entryCount - freeCount + i) & (entryCount - 1)`. */
  function EntryIndex(entryCount: nat, freeCount: int, i: nat): nat
    requires entryCount > 0
  {
    BitAnd((entryCount - freeCount + i) % SIZE32, entryCount - 1)
  }

  lemma Size32IsPowerOfTwo()
    ensures IsPowerOfTwo(0x1_0000_0000)
  {
    assert IsPowerOfTwo(4) && IsPowerOfTwo(16) by {
      assert IsPowerOfTwo(2);
      assert IsPowerOfTwo(4);
      assert IsPowerOfTwo(8);
    }
    PowersMultiply(16, 16);
    PowersMultiply(256, 256);
    PowersMultiply(0x1_0000, 0x1_0000);
  }

  lemma EntryIndexIsSlot(entryCount: nat, freeCount: int, i: nat)
    requires IsPowerOfTwo(entryCount) && entryCount <= MAX_ELEMENT_COUNT
    ensures EntryIndex(entryCount, freeCount, i) == Slot(entryCount - freeCount + i, entryCount)
  {
    var x := entryCount - freeCount + i;
    MaskIsRemainder(x % SIZE32, entryCount);
    Size32IsPowerOfTwo();
    PowersDivide(entryCount, 0x1_0000_0000);
    RemainderOfRemainder(x, SIZE32, entryCount);
  }

  predicate IsVisited(entryCount: nat, freeCount: int, e: nat)
    requires entryCount > 0
  {
    exists i :: 0 <= i < entryCount && EntryIndex(entryCount, freeCount, i) == e
  }

  /** Whatever the free count says, the search visits every slot of a chunk exactly once: the turns are a
      permutation of the slots. */
  lemma EverySlotIsVisitedOnce(entryCount: nat, freeCount: int)
    requires IsPowerOfTwo(entryCount) && entryCount <= MAX_ELEMENT_COUNT
    ensures forall i :: 0 <= i < entryCount ==> EntryIndex(entryCount, freeCount, i) < entryCount
    ensures forall i, j :: 0 <= i < j < entryCount ==> EntryIndex(entryCount, freeCount, i) != EntryIndex(entryCount, freeCount, j)
    ensures forall e :: 0 <= e < entryCount ==> IsVisited(entryCount, freeCount, e)
  {
    forall i: nat
      ensures EntryIndex(entryCount, freeCount, i) == Slot(entryCount - freeCount + i, entryCount)
    {
      EntryIndexIsSlot(entryCount, freeCount, i);
    }
    forall i, j | 0 <= i < j < entryCount
      ensures EntryIndex(entryCount, freeCount, i) != EntryIndex(entryCount, freeCount, j)
    {
      SlotsNearbyDiffer(entryCount - freeCount + i, entryCount - freeCount + j, entryCount);
    }
    forall e | 0 <= e < entryCount
      ensures IsVisited(entryCount, freeCount, e)
    {
      var i := TurnOf(entryCount, freeCount, e);
    }
  }

  /** The turn in which slot `e` is tried. */
  lemma TurnOf(entryCount: nat, freeCount: int, e: nat) returns (i: nat)
    requires IsPowerOfTwo(entryCount) && entryCount <= MAX_ELEMENT_COUNT && e < entryCount
    ensures i < entryCount && EntryIndex(entryCount, freeCount, i) == e
  {
    var d := e - (entryCount - freeCount);
    i := d % entryCount;
    var q := d / entryCount;
    assert entryCount - freeCount + i == (0 - q) * entryCount + e;
    RemainderIs(entryCount - freeCount + i, entryCount, 0 - q, e);
    EntryIndexIsSlot(entryCount, freeCount, i);
  }

  datatype Entry = Null | Of(id: Id)

  class Chunk {
    const entries: array<Entry>
    var approximateFreeCount: Int32

    /** A fresh chunk; the free count already allows for the slot its creator claims. */
    constructor (entryCount: nat)
      requires 0 < entryCount <= MAX_ELEMENT_COUNT
      ensures fresh(entries) && entries.Length == entryCount && approximateFreeCount == entryCount - 1
      ensures forall e :: 0 <= e < entryCount ==> entries[e] == Null
    {
      entries := new Entry[entryCount](_ => Null);
      approximateFreeCount := entryCount - 1;
    }
  }

  // ---------------------------------------------------------------- the shared state

  ghost function EntryAt(slots: map<Pos, Id>, p: Pos): Entry
  {
    if p in slots then Of(slots[p]) else Null
  }

  ghost predicate ChunkOk(chunk: Chunk, l: nat, c: nat, size: nat, slots: map<Pos, Id>, home: map<array<Entry>, (nat, nat)>)
    reads chunk.entries
  {
    && chunk.entries in home && home[chunk.entries] == (l, c) && chunk.entries.Length == size
    && forall e :: 0 <= e < size ==> chunk.entries[e] == EntryAt(slots, Pos(l, c, e))
  }

  /** The chunks hold what the machine says about their slots; `home` tells where a chunk is linked. */
  ghost predicate Mirrors(lists: seq<seq<Chunk>>, sizes: seq<seq<nat>>, slots: map<Pos, Id>, home: map<array<Entry>, (nat, nat)>)
    reads home.Keys
  {
    && |lists| == |sizes| && (forall l :: 0 <= l < |sizes| ==> |lists[l]| == |sizes[l]|)
    && forall l: nat, c: nat :: HasChunk(sizes, l, c) ==>
         lists[l][c].entries in home && ChunkOk(lists[l][c], l, c, sizes[l][c], slots, home)
  }

  predicate IsAt(lists: seq<seq<Chunk>>, chunk: Chunk, p: Pos)
  {
    p.l < |lists| && p.c < |lists[p.l]| && chunk == lists[p.l][p.c]
  }

  lemma SlotAt(lists: seq<seq<Chunk>>, sizes: seq<seq<nat>>, slots: map<Pos, Id>, home: map<array<Entry>, (nat, nat)>, p: Pos)
    requires Mirrors(lists, sizes, slots, home) && HasSlot(sizes, p)
    ensures HasChunk(sizes, p.l, p.c) && |lists| == |sizes| && |lists[p.l]| == |sizes[p.l]|
    ensures IsAt(lists, lists[p.l][p.c], p) && forall chunk :: IsAt(lists, chunk, p) ==> chunk == lists[p.l][p.c]
    ensures var chunk := lists[p.l][p.c];
            && p.e < chunk.entries.Length == sizes[p.l][p.c] && chunk.entries[p.e] == EntryAt(slots, p)
            && chunk.entries in home && home[chunk.entries] == (p.l, p.c)
  {
    assert ChunkOk(lists[p.l][p.c], p.l, p.c, sizes[p.l][p.c], slots, home);
  }

  /** One atomic store to a slot. */
  method StoreEntry(chunk: Chunk, entryIndex: nat, entry: Entry, ghost p: Pos, ghost lists: seq<seq<Chunk>>,
                    ghost sizes: seq<seq<nat>>, ghost slots: map<Pos, Id>, ghost slots': map<Pos, Id>,
                    ghost home: map<array<Entry>, (nat, nat)>)
    requires Mirrors(lists, sizes, slots, home) && HasSlot(sizes, p)
    requires IsAt(lists, chunk, p) && entryIndex == p.e && entry == EntryAt(slots', p)
    requires forall q :: q != p ==> EntryAt(slots', q) == EntryAt(slots, q)
    modifies chunk.entries
    ensures Mirrors(lists, sizes, slots', home)
  {
    SlotAt(lists, sizes, slots, home, p);
    chunk.entries[entryIndex] := entry;
    forall l: nat, c: nat | HasChunk(sizes, l, c)
      ensures lists[l][c].entries in home && ChunkOk(lists[l][c], l, c, sizes[l][c], slots', home)
    {
      assert old(ChunkOk(lists[l][c], l, c, sizes[l][c], slots, home));
      if l != p.l || c != p.c {
        assert lists[l][c].entries != chunk.entries;
      }
      assert forall e: nat :: Pos(l, c, e) != p ==> EntryAt(slots', Pos(l, c, e)) == EntryAt(slots, Pos(l, c, e));
    }
  }

  class CancellationState {
    var state: Word
    /** `m_registrationState`'s lists, each with its chain of chunks; no list while it is null. */
    var lists: seq<seq<Chunk>>
    ghost var home: map<array<Entry>, (nat, nat)>
    ghost var tokens: nat
    ghost var s: State

    ghost predicate Packed()
      reads this
    {
      s.sources < MAX_REFS && tokens < MAX_REFS && state == Pack(s.requested, s.complete, s.sources, tokens)
    }

    ghost predicate Valid()
      reads this, home.Keys
    {
      Reachable(s) && Packed() && Mirrors(lists, s.sizes, s.slots, home)
    }

    constructor ()
      ensures Valid() && s == Init()
    {
      state, lists, home, tokens := SOURCE_REF_INCREMENT, [], map[], 0;
      s := Init();
      new;
      InitReachable();
    }

    lemma Open()
      requires Valid()
      ensures Reachable(s) && Packed() && Mirrors(lists, s.sizes, s.slots, home)
      ensures s.sources < MAX_REFS && tokens < MAX_REFS && state == Pack(s.requested, s.complete, s.sources, tokens)
      ensures RequestedBit(state) == s.requested && CompleteBit(state) == s.complete
      ensures CanBeCancelled(state) <==> s.requested || s.sources > 0
    {
      PackedBits(s.requested, s.complete, s.sources, tokens);
      CompleteAfterRequest(s);
    }

    lemma Close()
      requires Reachable(s) && Mirrors(lists, s.sizes, s.slots, home)
      requires s.sources < MAX_REFS && tokens < MAX_REFS && state == Pack(s.requested, s.complete, s.sources, tokens)
      ensures Valid()
    {
    }

    ghost method Advance(a: Action)
      requires Reachable(s) && Enabled(s, a)
      modifies this`s
      ensures Reachable(s) && s == Apply(old(s), a)
    {
      StepKeepsReachable(s, a);
      s := Apply(s, a);
    }

    /** A step that changes neither the flags nor the slots. */
    ghost method AdvanceQuietly(a: Action)
      requires Valid() && Enabled(s, a) && IsQuiet(s, Apply(s, a))
      modifies this`s
      ensures Valid() && s == Apply(old(s), a)
    {
      StepKeepsReachable(s, a);
      s := Apply(s, a);
    }

    // ---------------------------------------------------------------- request_cancellation

    /** `fetch_or` of the requested flag; whether this caller is the first. */
    method FetchOrRequested(ghost thread: Thread) returns (first: bool)
      requires Valid() && s.sources > 0
      modifies this`s, this`state
      ensures Valid() && s == Apply(old(s), Request(thread))
      ensures first <==> !old(s).requested
      ensures s.requested && lists == old(lists)
      ensures (if first then s.canceller == Canceller.LoadRegistrations && s.notifier == thread else s == old(s))
    {
      hide *;
      Open();
      RequestApplies(s, thread);
      PackedFlags(s.requested, s.complete, s.sources, tokens);
      ghost var after := Apply(s, Request(thread));
      first := !RequestedBit(state);
      if first {
        state := state + REQUESTED_FLAG;
      }
      Advance(Request(thread));
      assert s == after;
      Close();
    }

    /** The load of `m_registrationState`. */
    method LoadRegistrations() returns (none: bool)
      requires Valid() && s.canceller.LoadRegistrations?
      modifies this`s
      ensures Valid() && s == Apply(old(s), CancellerStep) && (none <==> s.sizes == []) && (none <==> s.canceller.Returned?)
      ensures s.requested == old(s.requested) && (!none ==> s.canceller == AtList(0))
    {
      none := lists == [];
      AdvanceQuietly(CancellerStep);
    }

    /** The load of one list pointer, or the end of the loop over them. */
    method ScanList(listIndex: nat) returns (done: bool, isNull: bool)
      requires Valid() && s.canceller == AtList(listIndex)
      modifies this`s
      ensures Valid() && s == Apply(old(s), CancellerStep)
      ensures (done <==> s.canceller.Complete?) && (!done && !isNull <==> s.canceller.AtEntry?)
      ensures s.requested == old(s.requested) && done == (listIndex >= |lists|) && (!done ==> isNull == (lists[listIndex] == []))
      ensures s.canceller == if done then Complete else if isNull then AtList(listIndex + 1) else AtEntry(Pos(listIndex, 0, 0))
    {
      done := listIndex >= |lists|;
      isNull := !done && lists[listIndex] == [];
      AdvanceQuietly(CancellerStep);
    }

    /** The callback returns. */
    method EndCallback()
      requires Valid() && s.canceller.Running?
      modifies this`s
      ensures Valid() && s == Apply(old(s), CancellerStep) && s.canceller.AtEntry?
      ensures s.requested == old(s.requested) && s.canceller == Behind(old(s.canceller.p))
    {
      AdvanceQuietly(CancellerStep);
    }

    /** The scan's look at an entry, and at the chain behind the last one. */
    method ScanEntry(chunk: Chunk, entryIndex: nat) returns (found: bool, next: bool)
      requires Valid() && s.canceller.AtEntry? && entryIndex == s.canceller.p.e
      requires HasChunk(s.sizes, s.canceller.p.l, s.canceller.p.c) && IsAt(lists, chunk, s.canceller.p)
      modifies this`s
      ensures Valid() && s == Apply(old(s), CancellerStep)
      ensures found <==> old(entryIndex < chunk.entries.Length && s.canceller.p in s.slots)
      ensures found <==> s.canceller.Exchange?
      ensures (next <==> entryIndex >= chunk.entries.Length) && (next ==> !found)
      ensures var p := old(s.canceller.p);
              s.canceller == if found then Exchange(p) else if !next then Behind(p)
                             else if p.c + 1 < |lists[p.l]| then AtEntry(Pos(p.l, p.c + 1, 0)) else AtList(p.l + 1)
      ensures s.requested == old(s.requested)
    {
      hide *;
      Open();
      ScanApplies(s);
      ghost var after := Apply(s, CancellerStep);
      next := entryIndex >= chunk.entries.Length;
      found := false;
      ChunkLength(lists, s.sizes, s.slots, home, s.canceller.p);
      if !next {
        SlotAt(lists, s.sizes, s.slots, home, s.canceller.p);
        found := EntryIsOf(chunk.entries[entryIndex], s.slots, s.canceller.p);
      }
      Advance(CancellerStep);
      assert s == after;
      Close();
    }

    /** The exchange that takes a registration out of its slot for good. */
    method ExchangeEntry(chunk: Chunk, entryIndex: nat) returns (registration: Entry)
      requires Valid() && s.canceller.Exchange? && entryIndex == s.canceller.p.e
      requires HasSlot(s.sizes, s.canceller.p) && IsAt(lists, chunk, s.canceller.p)
      modifies this`s, chunk.entries
      ensures Valid() && s == Apply(old(s), CancellerStep)
      ensures registration.Of? <==> old(s.canceller.p) in old(s.slots)
      ensures registration.Of? ==> registration.id == old(s.slots[s.canceller.p])
      ensures registration.Of? <==> s.canceller.Running?
      ensures registration.Of? ==> registration.id == s.canceller.id && s.ran == old(s.ran) + multiset{registration.id}
      ensures var p := old(s.canceller.p); s.canceller == if registration.Of? then Running(p, registration.id) else Behind(p)
      ensures s.requested == old(s.requested)
    {
      hide *;
      Open();
      ExchangeApplies(s);
      ghost var after, p := Apply(s, CancellerStep), s.canceller.p;
      SlotAt(lists, s.sizes, s.slots, home, p);
      registration := chunk.entries[entryIndex];
      EntryIsWhat(registration, s.slots, p, 0);
      StoreEntry(chunk, entryIndex, Null, p, lists, s.sizes, s.slots, after.slots, home);
      Advance(CancellerStep);
      assert s == after;
      Close();
    }

    /** The end of the notification. */
    method FetchAddComplete()
      requires Valid() && s.canceller.Complete?
      modifies this`s, this`state
      ensures Valid() && s == Apply(old(s), CancellerStep) && s.complete && s.canceller.Returned? && s.requested == old(s.requested)
    {
      hide *;
      Open();
      CompleteApplies(s);
      PackedFlags(s.requested, s.complete, s.sources, tokens);
      ghost var after := Apply(s, CancellerStep);
      state := Wrap(state + COMPLETE_FLAG);
      Advance(CancellerStep);
      assert s == after;
      Close();
    }

    // ---------------------------------------------------------------- try_register_callback

    method BeginRegister(id: Id) returns (canBeCancelled: bool)
      requires Valid() && id !in s.acts
      modifies this`s
      ensures Valid() && s == Apply(old(s), Register(id))
      ensures canBeCancelled <==> s.requested || s.sources > 0
      ensures ActIn(s.acts, id) == if canBeCancelled then CheckFlag else Inert
    {
      Open();
      canBeCancelled := CanBeCancelled(state);
      AdvanceQuietly(Register(id));
    }

    /** Both looks at the requested flag: before the registration, and after it was put into a slot. */
    method LoadRequested(id: Id) returns (requested: bool)
      requires Valid() && (ActIn(s.acts, id).CheckFlag? || ActIn(s.acts, id).Recheck?)
      modifies this`s
      ensures Valid() && s == Apply(old(s), RegisterStep(id, 0, true))
      ensures requested <==> s.requested
      ensures s.requested == old(s.requested) && s.slots == old(s.slots)
      ensures old(ActIn(s.acts, id)).CheckFlag? ==> ActIn(s.acts, id) == if requested then RunSelf else Registrar.LoadState
      ensures old(ActIn(s.acts, id)).Recheck? ==>
                var p := old(ActIn(s.acts, id)).p; ActIn(s.acts, id) == if requested then Withdraw(p) else Registered(p)
    {
      Open();
      requested := RequestedBit(state);
      AdvanceQuietly(RegisterStep(id, 0, true));
    }

    method LoadState(id: Id, memory: bool) returns (isNull: bool)
      requires Valid() && ActIn(s.acts, id).LoadState?
      modifies this`s
      ensures Valid() && s == Apply(old(s), RegisterStep(id, 0, memory))
      ensures isNull <==> s.sizes == []
      ensures ActIn(s.acts, id) == if !isNull then Registrar.LoadList else if memory then CasState else Failed
    {
      isNull := lists == [];
      AdvanceQuietly(RegisterStep(id, 0, memory));
    }

    /** The compare-and-swap that publishes the array of lists. */
    method PublishState(id: Id, listCount: nat)
      requires Valid() && ActIn(s.acts, id).CasState? && 0 < listCount <= MAX_LIST_COUNT
      modifies this`s, this`lists
      ensures Valid() && s == Apply(old(s), RegisterStep(id, listCount, true))
      ensures ActIn(s.acts, id).LoadList? && s.slots == old(s.slots)
      ensures s.sizes == if old(s.sizes) == [] then seq(listCount, _ => []) else old(s.sizes)
    {
      if lists == [] {
        lists := seq(listCount, _ => []);
      }
      StepKeepsReachable(s, RegisterStep(id, listCount, true));
      s := Apply(s, RegisterStep(id, listCount, true));
    }

    method LoadList(id: Id, listIndex: nat, memory: bool) returns (isNull: bool)
      requires Valid() && ActIn(s.acts, id).LoadList? && listIndex < |lists|
      modifies this`s
      ensures Valid() && s == Apply(old(s), RegisterStep(id, listIndex, memory))
      ensures isNull <==> listIndex < |s.sizes| && s.sizes[listIndex] == []
      ensures ActIn(s.acts, id) == if !isNull then Search(listIndex) else if memory then CasList(listIndex) else Failed
    {
      isNull := lists[listIndex] == [];
      AdvanceQuietly(RegisterStep(id, listIndex, memory));
    }

    /** The compare-and-swap that publishes a new list, whose first slot is already claimed. */
    method PublishList(id: Id, listIndex: nat) returns (published: bool, chunk: Chunk)
      requires Valid() && ActIn(s.acts, id) == CasList(listIndex) && listIndex < |lists|
      modifies this`s, this`lists, this`home
      ensures Valid() && s == Apply(old(s), RegisterStep(id, 0, true))
      ensures published <==> listIndex < |old(s.sizes)| && old(s.sizes)[listIndex] == []
      ensures published ==> s.sizes == old(s.sizes)[listIndex := [INITIAL_CHUNK_SIZE]] && s.slots == old(s.slots)[Pos(listIndex, 0, 0) := id]
      ensures published ==> ActIn(s.acts, id) == Recheck(Pos(listIndex, 0, 0)) && IsAt(lists, chunk, Pos(listIndex, 0, 0))
      ensures !published ==> ActIn(s.acts, id) == Search(listIndex) && s.sizes == old(s.sizes) && s.slots == old(s.slots)
    {
      hide *;
      Open();
      MirrorShape(lists, s.sizes, s.slots, home);
      PublishListApplies(s, id, listIndex);
      SlotsExist(s);
      ghost var after := Apply(s, RegisterStep(id, 0, true));
      chunk := new Chunk(INITIAL_CHUNK_SIZE);
      chunk.entries[0] := Of(id);
      published := lists[listIndex] == [];
      if published {
        assert lists[listIndex] + [chunk] == [chunk];
        Link(lists, s.sizes, s.slots, home, chunk, Pos(listIndex, 0, 0), id);
        lists, home := lists[listIndex := [chunk]], home[chunk.entries := (listIndex, 0)];
        IsLinked(lists, chunk, Pos(listIndex, 0, 0));
      }
      Advance(RegisterStep(id, 0, true));
      assert s == after;
      Close();
    }

    /** The compare-and-swap on one slot of the search. */
    method ClaimEntry(id: Id, chunk: Chunk, ghost p: Pos, entryIndex: nat) returns (claimed: bool)
      requires Valid() && ActIn(s.acts, id) == Search(p.l) && HasSlot(s.sizes, p) && IsAt(lists, chunk, p) && entryIndex == p.e
      modifies this`s, chunk.entries
      ensures Valid() && s == Apply(old(s), TryClaim(id, p.c, p.e))
      ensures claimed <==> p !in old(s.slots)
      ensures if claimed then ActIn(s.acts, id) == Recheck(p) && s.slots == old(s.slots)[p := id] else s == old(s)
    {
      hide *;
      Open();
      ClaimApplies(s, id, p);
      ghost var after := Apply(s, TryClaim(id, p.c, p.e));
      SlotAt(lists, s.sizes, s.slots, home, p);
      EntryIsWhat(chunk.entries[entryIndex], s.slots, p, id);
      claimed := chunk.entries[entryIndex] == Null;
      if claimed {
        StoreEntry(chunk, entryIndex, Of(id), p, lists, s.sizes, s.slots, after.slots, home);
      }
      Advance(TryClaim(id, p.c, p.e));
      assert s == after;
      Close();
    }

    /** The compare-and-swap that appends a chunk, whose first slot is already claimed, to the chain. */
    method AppendChunk(id: Id, lastChunk: Chunk, listIndex: nat, c: nat) returns (appended: bool, chunk: Chunk)
      requires Valid() && ActIn(s.acts, id) == Search(listIndex) && HasChunk(s.sizes, listIndex, c)
      requires IsAt(lists, lastChunk, Pos(listIndex, c, 0))
      modifies this`s, this`lists, this`home
      ensures Valid() && s == Apply(old(s), TryExtend(id, c, true))
      ensures appended <==> listIndex < |old(s.sizes)| && c + 1 == |old(s.sizes)[listIndex]|
      ensures appended ==> ActIn(s.acts, id) == Recheck(Pos(listIndex, c + 1, 0)) && IsAt(lists, chunk, Pos(listIndex, c + 1, 0))
      ensures appended ==> s.slots == old(s.slots)[Pos(listIndex, c + 1, 0) := id]
      ensures !appended ==> s == old(s)
    {
      hide *;
      Open();
      MirrorShape(lists, s.sizes, s.slots, home);
      ExtendApplies(s, id, listIndex, c);
      SlotsExist(s);
      ChunkLength(lists, s.sizes, s.slots, home, Pos(listIndex, c, 0));
      ghost var after := Apply(s, TryExtend(id, c, true));
      var size := lastChunk.entries.Length;
      chunk := new Chunk(if size < MAX_ELEMENT_COUNT then size * 2 else MAX_ELEMENT_COUNT);
      chunk.entries[0] := Of(id);
      appended := c + 1 == |lists[listIndex]|;
      if appended {
        Link(lists, s.sizes, s.slots, home, chunk, Pos(listIndex, c + 1, 0), id);
        lists, home := lists[listIndex := lists[listIndex] + [chunk]], home[chunk.entries := (listIndex, c + 1)];
        IsLinked(lists, chunk, Pos(listIndex, c + 1, 0));
      }
      Advance(TryExtend(id, c, true));
      assert s == after;
      Close();
    }

    // ---------------------------------------------------------------- taking a registration out again

    /** The compare-and-swap by which a registration leaves its slot: when its thread finds the request
        after all, or in its destructor. */
    method RemoveEntry(id: Id, chunk: Chunk, ghost p: Pos, entryIndex: nat) returns (removed: bool)
      requires Valid() && (ActIn(s.acts, id) == Withdraw(p) || (ActIn(s.acts, id).Deregister? && ActIn(s.acts, id).p == p))
      requires HasSlot(s.sizes, p) && IsAt(lists, chunk, p) && entryIndex == p.e
      modifies this`s, chunk.entries
      ensures Valid() && s == Apply(old(s), RemoveStep(old(s), id))
      ensures removed <==> Holds(old(s.slots), p, id)
      ensures s.slots == if removed then old(s.slots) - {p} else old(s.slots)
      ensures old(ActIn(s.acts, id)).Withdraw? ==> ActIn(s.acts, id) == if removed then RunSelf else Registered(p)
      ensures old(ActIn(s.acts, id)).Deregister? ==>
                var thread := old(ActIn(s.acts, id)).thread;
                ActIn(s.acts, id) == if removed then Gone(true, thread) else if thread == s.notifier then Gone(false, thread) else Wait(thread)
    {
      hide *;
      Open();
      RemoveApplies(s, id, p);
      ghost var after := Apply(s, RemoveStep(s, id));
      SlotAt(lists, s.sizes, s.slots, home, p);
      EntryIsWhat(chunk.entries[entryIndex], s.slots, p, id);
      removed := chunk.entries[entryIndex] == Of(id);
      if removed {
        StoreEntry(chunk, entryIndex, Null, p, lists, s.sizes, s.slots, after.slots, home);
      }
      Advance(RemoveStep(s, id));
      assert s == after;
      Close();
    }

    /** One turn of the loop that waits for the notification to complete. */
    method PollComplete(id: Id) returns (complete: bool)
      requires Valid() && ActIn(s.acts, id).Wait?
      modifies this`s
      ensures Valid() && s == Apply(old(s), DeregisterStep(id))
      ensures complete <==> s.complete
      ensures var r := old(ActIn(s.acts, id)); ActIn(s.acts, id) == if complete then Gone(false, r.thread) else r
    {
      Open();
      complete := CompleteBit(state);
      AdvanceQuietly(DeregisterStep(id));
    }

    // ---------------------------------------------------------------- whole calls

    /** Any steps of the others, between two steps of one thread: a caller knows no more than the contract. `n`
        bounds how often a call is still going to be interrupted. Chunks stay where they are linked. */
    method Others(ghost self: Self, ghost n: nat) returns (ghost left: nat)
      requires Valid()
      modifies this, home.Keys
      ensures Valid() && OthersRan(self, old(s), s) && left <= n && (left == n ==> s == old(s))
      ensures Extends(old(lists), old(home), lists, home) && forall a :: a in home ==> a in old(home) || fresh(a)
    {
      NobodyRan(self, s);
      left := n;
    }

    method Pause(ghost self: Self, ghost n: nat) returns (ghost left: nat)
      requires Valid()
      modifies this, home.Keys
      ensures Valid() && SameOwn(self, old(s), s) && left <= n && (left == n ==> s == old(s))
      ensures Extends(old(lists), old(home), lists, home) && forall a :: a in home ==> a in old(home) || fresh(a)
    {
      hide *;
      ghost var before := s;
      left := Others(self, n);
      OthersLeaveOwn(self, before, s);
    }

    /** One chunk's part of `add_registration`, whatever others do meanwhile. A chunk that claims to be full is
        searched all the same every so often. A search that claims nothing has found every slot taken when
        it looked at it; and when nobody interferes it claims a slot whenever one is free. */
    method SearchChunk(id: Id, chunk: Chunk, ghost l: nat, ghost c: nat, ghost n: nat)
      returns (claimed: bool, entryIndex: nat, ghost left: nat, ghost seen: set<nat>)
      requires Valid() && ActIn(s.acts, id) == Search(l) && IsAt(lists, chunk, Pos(l, c, 0))
      requires chunk.approximateFreeCount > -0x8000_0000
      modifies this, home.Keys, chunk`approximateFreeCount
      ensures Valid() && left <= n && IsAt(lists, chunk, Pos(l, c, 0))
      ensures ActIn(s.acts, id) == if claimed then Recheck(Pos(l, c, entryIndex)) else Search(l)
      ensures var f := old(chunk.approximateFreeCount);
              var searches := f > 0 || f <= FORCED_SEARCH_THRESHOLD;
              && (claimed ==> searches)
              && (!claimed && searches ==> forall e: nat :: e < chunk.entries.Length ==> e in seen)
              && (left == n ==> (claimed <==> searches && HasFree(old(s.slots), l, c, chunk.entries.Length)))
              && chunk.approximateFreeCount
                 == if claimed then (if f < 1 then 0 else f - 1) else if searches then 0 else f - 1
      ensures Extends(old(lists), old(home), lists, home) && forall a :: a in home ==> a in old(home) || fresh(a)
    {
      hide *;
      var freeCount: int := chunk.approximateFreeCount;
      if freeCount < 1 {
        freeCount := freeCount - 1;
        chunk.approximateFreeCount := freeCount;
      }
      claimed, entryIndex, left, seen := false, 0, n, {};
      ExtendsItself(lists, home);
      if freeCount > 0 || freeCount < FORCED_SEARCH_THRESHOLD {
        var entryCount := chunk.entries.Length;
        ChunkIsMaskable(chunk, l, c);
        EverySlotIsVisitedOnce(entryCount, freeCount);
        ghost var slots := s.slots;
        var i := 0;
        while i < entryCount
          invariant 0 <= i <= entryCount && Valid() && left <= n && ActIn(s.acts, id) == Search(l)
          invariant IsAt(lists, chunk, Pos(l, c, 0)) && (left == n ==> s.slots == slots)
          invariant Extends(old(lists), old(home), lists, home) && forall a :: a in home ==> a in old(home) || fresh(a)
          invariant forall j :: 0 <= j < i ==> EntryIndex(entryCount, freeCount, j) in seen
          invariant left == n ==> forall j :: 0 <= j < i ==> Pos(l, c, EntryIndex(entryCount, freeCount, j)) in slots
          invariant chunk.approximateFreeCount == freeCount
        {
          entryIndex := EntryIndex(entryCount, freeCount, i);
          ghost var lists0, home0 := lists, home;
          left, claimed := TryEntry(id, chunk, l, c, entryIndex, left);
          ExtendsOn(old(lists), old(home), lists0, home0, lists, home);
          if claimed {
            if left == n {
              FreeSlot(slots, l, c, entryIndex, entryCount);
            }
            chunk.approximateFreeCount := if freeCount < 0 then 0 else freeCount - 1;
            return;
          }
          seen := seen + {entryIndex};
          i := i + 1;
        }
        chunk.approximateFreeCount := 0;
        AllVisited(entryCount, freeCount, seen);
        if left == n {
          NoFreeSlot(slots, l, c, entryCount, freeCount);
        }
      }
    }

    /** One turn of the search: the cheap look, then the compare-and-swap. */
    method TryEntry(id: Id, chunk: Chunk, ghost l: nat, ghost c: nat, entryIndex: nat, ghost n: nat)
      returns (ghost left: nat, claimed: bool)
      requires Valid() && ActIn(s.acts, id) == Search(l) && IsAt(lists, chunk, Pos(l, c, 0)) && entryIndex < chunk.entries.Length
      modifies this, home.Keys
      ensures Valid() && left <= n && IsAt(lists, chunk, Pos(l, c, 0))
      ensures ActIn(s.acts, id) == if claimed then Recheck(Pos(l, c, entryIndex)) else Search(l)
      ensures left == n ==> if claimed then Pos(l, c, entryIndex) !in old(s.slots)
                            else s.slots == old(s.slots) && Pos(l, c, entryIndex) in s.slots
      ensures Extends(old(lists), old(home), lists, home) && forall a :: a in home ==> a in old(home) || fresh(a)
    {
      hide *;
      ghost var p, before := Pos(l, c, entryIndex), s;
      left := Pause(Registering(id), n);
      StillRegistering(id, before, s);
      StillAt(old(lists), old(home), lists, home, chunk, Pos(l, c, 0));
      EntryExists(chunk, p);
      claimed := false;
      if chunk.entries[entryIndex] == Null {
        before := s;
        ghost var lists0, home0 := lists, home;
        left := Pause(Registering(id), left);
        StillRegistering(id, before, s);
        StillAt(lists0, home0, lists, home, chunk, Pos(l, c, 0));
        ExtendsOn(old(lists), old(home), lists0, home0, lists, home);
        EntryExists(chunk, p);
        ClaimApplies(s, id, p);
        before := s;
        claimed := ClaimEntry(id, chunk, p, entryIndex);
        ClaimResult(before, id, p);
      }
    }

    lemma EntryExists(chunk: Chunk, p: Pos)
      requires Valid() && IsAt(lists, chunk, Pos(p.l, p.c, 0)) && p.e < chunk.entries.Length
      ensures HasSlot(s.sizes, p) && IsAt(lists, chunk, p) && chunk.entries in home
      ensures chunk.entries[p.e] == EntryAt(s.slots, p) && (chunk.entries[p.e] == Null <==> p !in s.slots)
    {
      assert HasChunk(s.sizes, p.l, p.c);
      ChunkLength(lists, s.sizes, s.slots, home, p);
      SlotAt(lists, s.sizes, s.slots, home, p);
    }

    lemma ChunkIsMaskable(chunk: Chunk, l: nat, c: nat)
      requires Valid() && IsAt(lists, chunk, Pos(l, c, 0))
      ensures IsPowerOfTwo(chunk.entries.Length) && chunk.entries.Length <= MAX_ELEMENT_COUNT
    {
      assert HasChunk(s.sizes, l, c);
      ChunkLength(lists, s.sizes, s.slots, home, Pos(l, c, 0));
      SizeIsMaskable(s, l, c);
    }

    /** The constructor runs the callback itself. */
    method RunCallback(id: Id)
      requires Valid() && ActIn(s.acts, id).RunSelf?
      modifies this`s
      ensures Valid() && s == Apply(old(s), RegisterStep(id, 0, true))
      ensures ActIn(s.acts, id).RanSelf? && s.ran == old(s.ran) + multiset{id} && s.ran[id] == 1
    {
      hide Inv, Reachable;
      AdvanceQuietly(RegisterStep(id, 0, true));
      ReachableInv(s);
      RanOnce(s, id);
    }

    /** The end of the constructor, once the registration is in its slot, whatever others do meanwhile: it stays
        registered, or leaves its slot again and its callback is run at once. When nobody interferes the latter
        happens iff cancellation was requested and the canceller has not taken it. */
    method FinishRegister(id: Id, chunk: Chunk, ghost p: Pos, entryIndex: nat, ghost n: nat) returns (registered: bool, ghost left: nat)
      requires Valid() && ActIn(s.acts, id) == Recheck(p) && HasSlot(s.sizes, p) && IsAt(lists, chunk, p) && entryIndex == p.e
      modifies this, home.Keys
      ensures Valid() && left <= n
      ensures if registered then ActIn(s.acts, id) == Registered(p) else ActIn(s.acts, id).RanSelf? && s.ran[id] == 1
      ensures left == n ==> (registered <==> !(old(s).requested && Holds(old(s).slots, p, id)))
    {
      hide *;
      ghost var before, lists0, home0 := s, lists, home;
      SlotIsInChunk(chunk, p);
      left := Pause(Registering(id), n);
      StillRegistering(id, before, s);
      StillAt(lists0, home0, lists, home, chunk, p);
      var requested := LoadRequested(id);
      if !requested {
        return true, left;
      }
      before, lists0, home0 := s, lists, home;
      left := Pause(Registering(id), left);
      StillRegistering(id, before, s);
      StillAt(lists0, home0, lists, home, chunk, p);
      AtSlot(chunk, p);
      var removed := RemoveEntry(id, chunk, p, entryIndex);
      registered := !removed;
      if removed {
        before := s;
        left := Pause(Registering(id), left);
        StillRegistering(id, before, s);
        RunCallback(id);
      }
    }

    /** The destructor up to its waiting loop, whatever others do meanwhile: the registration has left its slot and
        its callback has not run, or it was taken; then the notifying thread goes on, and any other one waits. */
    method Deregister(id: Id, ghost thread: Thread, chunk: Chunk, ghost p: Pos, entryIndex: nat, ghost n: nat)
      returns (removed: bool, ghost left: nat)
      requires Valid() && ActIn(s.acts, id) == Registered(p) && HasSlot(s.sizes, p) && IsAt(lists, chunk, p) && entryIndex == p.e
      modifies this, home.Keys
      ensures Valid() && left <= n
      ensures ActIn(s.acts, id) == if removed then Gone(true, thread) else if thread == s.notifier then Gone(false, thread) else Wait(thread)
      ensures s.ran[id] == if removed then 0 else 1
      ensures left == n ==> (removed <==> Holds(old(s).slots, p, id))
    {
      hide *;
      SlotIsInChunk(chunk, p);
      DeregisterApplies(s, id, thread);
      ghost var lists0, home0 := lists, home;
      BeginDeregister(id, thread);
      ghost var before := s;
      left := Pause(Registering(id), n);
      StillRegistering(id, before, s);
      StillAt(lists0, home0, lists, home, chunk, p);
      AtSlot(chunk, p);
      removed := RemoveEntry(id, chunk, p, entryIndex);
      Open();
      ReachableInv(s);
      RanOnce(s, id);
    }

    ghost method BeginDeregister(id: Id, thread: Thread)
      requires Valid() && ActIn(s.acts, id).Registered?
      modifies this`s
      ensures Valid() && s == Apply(old(s), StartDeregister(id, thread))
    {
      AdvanceQuietly(StartDeregister(id, thread));
    }

    lemma SlotIsInChunk(chunk: Chunk, p: Pos)
      requires Valid() && HasSlot(s.sizes, p) && IsAt(lists, chunk, p)
      ensures p.e < chunk.entries.Length
    {
      SlotAt(lists, s.sizes, s.slots, home, p);
    }

    lemma AtSlot(chunk: Chunk, p: Pos)
      requires Valid() && IsAt(lists, chunk, p) && p.e < chunk.entries.Length
      ensures HasSlot(s.sizes, p) && chunk.entries in home
    {
      EntryExists(chunk, p);
    }

    /** `request_cancellation`, whatever others do meanwhile: the first caller scans all lists, and returns when
        the notification is complete, or at once when nothing was registered; then the callback of every
        registration that is still there has run. The others return at once. */
    method RequestCancellation(ghost thread: Thread, ghost n: nat) returns (first: bool)
      requires Valid() && s.sources > 0
      modifies this, home.Keys
      ensures Valid() && s.requested && (first <==> !old(s).requested)
      ensures first ==> s.canceller.Returned? && (s.complete || s.taken == {})
      ensures first ==> forall id: Id :: ActIn(s.acts, id).Registered? ==> s.ran[id] == 1
      ensures !first ==> s == old(s)
      ensures Extends(old(lists), old(home), lists, home) && forall a :: a in home ==> a in old(home) || fresh(a)
    {
      hide *;
      RequestApplies(s, thread);
      ExtendsItself(lists, home);
      first := FetchOrRequested(thread);
      if !first {
        return;
      }
      ghost var before := s;
      ghost var left := Pause(Cancelling, n);
      StillCancelling(before, s);
      var none := LoadRegistrations();
      if !none {
        ghost var lists0, home0 := lists, home;
        ScanAll(left);
        ExtendsOn(old(lists), old(home), lists0, home0, lists, home);
      }
      Open();
      RegisteredHaveRun(s);
    }

    /** The scan of all lists, and the end of the notification. */
    method ScanAll(ghost n: nat)
      requires Valid() && s.requested && s.canceller == AtList(0)
      modifies this, home.Keys
      ensures Valid() && s.requested && s.canceller.Returned? && s.complete
      ensures Extends(old(lists), old(home), lists, home) && forall a :: a in home ==> a in old(home) || fresh(a)
    {
      hide *;
      ghost var left := n;
      var listIndex: nat, done := 0, false;
      ExtendsItself(lists, home);
      while !done
        invariant Valid() && s.requested && s.canceller == if done then Complete else AtList(listIndex)
        invariant Extends(old(lists), old(home), lists, home) && forall a :: a in home ==> a in old(home) || fresh(a)
        decreases !done, left, |lists| - listIndex
      {
        ghost var before, lists0, home0 := s, lists, home;
        SizeOfLists();
        left := Pause(Cancelling, left);
        StillCancelling(before, s);
        ExtendsOn(old(lists), old(home), lists0, home0, lists, home);
        SizeOfLists();
        var isNull;
        done, isNull := ScanList(listIndex);
        if !done {
          if !isNull {
            lists0, home0 := lists, home;
            left := ScanChain(listIndex, left);
            ExtendsOn(old(lists), old(home), lists0, home0, lists, home);
          }
          listIndex := listIndex + 1;
        }
      }
      ghost var before, lists0, home0 := s, lists, home;
      left := Pause(Cancelling, left);
      StillCancelling(before, s);
      ExtendsOn(old(lists), old(home), lists0, home0, lists, home);
      FetchAddComplete();
    }

    /** The scan of one list's chunks. */
    method ScanChain(listIndex: nat, ghost n: nat) returns (ghost left: nat)
      requires Valid() && s.requested && s.canceller == AtEntry(Pos(listIndex, 0, 0))
      requires listIndex < |lists| && lists[listIndex] != []
      modifies this, home.Keys
      ensures Valid() && s.requested && s.canceller == AtList(listIndex + 1) && left <= n && (left == n ==> |lists| == |old(lists)|)
      ensures Extends(old(lists), old(home), lists, home) && forall a :: a in home ==> a in old(home) || fresh(a)
    {
      hide *;
      var c: nat, entryIndex: nat, chunk, ended := 0, 0, lists[listIndex][0], false;
      left := n;
      ExtendsItself(lists, home);
      IsLinked(lists, chunk, Pos(listIndex, 0, 0));
      while !ended
        invariant Valid() && s.requested && left <= n && (left == n ==> |lists| == |old(lists)|)
        invariant s.canceller == if ended then AtList(listIndex + 1) else AtEntry(Pos(listIndex, c, entryIndex))
        invariant !ended ==> IsAt(lists, chunk, Pos(listIndex, c, 0))
        invariant listIndex < |lists|
        invariant Extends(old(lists), old(home), lists, home) && forall a :: a in home ==> a in old(home) || fresh(a)
        decreases !ended, left, |lists[listIndex]| - c, chunk.entries.Length - entryIndex
      {
        ghost var before, lists0, home0 := s, lists, home;
        SizeOfLists();
        left := Pause(Cancelling, left);
        StillCancelling(before, s);
        StillAt(lists0, home0, lists, home, chunk, Pos(listIndex, c, 0));
        ExtendsOn(old(lists), old(home), lists0, home0, lists, home);
        SizeOfLists();
        ChunkExists(chunk, Pos(listIndex, c, entryIndex));
        BehindIs(Pos(listIndex, c, entryIndex));
        var found, next := ScanEntry(chunk, entryIndex);
        if next {
          if c + 1 < |lists[listIndex]| {
            c, entryIndex := c + 1, 0;
            chunk := lists[listIndex][c];
            IsLinked(lists, chunk, Pos(listIndex, c, 0));
          } else {
            ended := true;
          }
        } else {
          if found {
            lists0, home0 := lists, home;
            left := RunEntry(chunk, listIndex, c, entryIndex, left);
            LengthsAre(lists0, lists);
            StillAt(lists0, home0, lists, home, chunk, Pos(listIndex, c, 0));
            ExtendsOn(old(lists), old(home), lists0, home0, lists, home);
          }
          entryIndex := entryIndex + 1;
        }
      }
    }

    /** Taking a registration out of its slot and running its callback, unless its thread was faster. */
    method RunEntry(chunk: Chunk, ghost listIndex: nat, ghost c: nat, entryIndex: nat, ghost n: nat) returns (ghost left: nat)
      requires Valid() && s.requested && s.canceller == Exchange(Pos(listIndex, c, entryIndex))
      requires IsAt(lists, chunk, Pos(listIndex, c, 0)) && entryIndex < chunk.entries.Length
      modifies this, home.Keys
      ensures Valid() && s.requested && s.canceller == Behind(Pos(listIndex, c, entryIndex)) && left <= n
      ensures left == n ==> SameLengths(old(lists), lists)
      ensures Extends(old(lists), old(home), lists, home) && forall a :: a in home ==> a in old(home) || fresh(a)
    {
      hide *;
      ghost var p, before := Pos(listIndex, c, entryIndex), s;
      SizeOfLists();
      left := Pause(Cancelling, n);
      StillCancelling(before, s);
      StillAt(old(lists), old(home), lists, home, chunk, Pos(listIndex, c, 0));
      EntryExists(chunk, p);
      SizeOfLists();
      if left == n {
        LengthsAre(old(lists), lists);
      }
      var registration := ExchangeEntry(chunk, entryIndex);
      if registration != Null {
        before := s;
        ghost var lists0, home0 := lists, home;
        SizeOfLists();
        left := Pause(Cancelling, left);
        StillCancelling(before, s);
        ExtendsOn(old(lists), old(home), lists0, home0, lists, home);
        SizeOfLists();
        if left == n {
          LengthsAre(lists0, lists);
          SameLengthsOn(old(lists), lists0, lists);
        }
        EndCallback();
      }
    }

    lemma SizeOfLists()
      requires Valid()
      ensures |lists| == |s.sizes| && forall l :: 0 <= l < |lists| ==> |lists[l]| == |s.sizes[l]|
    {
    }

    lemma ChunkExists(chunk: Chunk, p: Pos)
      requires Valid() && IsAt(lists, chunk, Pos(p.l, p.c, 0))
      ensures HasChunk(s.sizes, p.l, p.c) && IsAt(lists, chunk, p)
      ensures HasSlot(s.sizes, p) <==> p.e < chunk.entries.Length
    {
      assert HasChunk(s.sizes, p.l, p.c);
      ChunkLength(lists, s.sizes, s.slots, home, p);
    }
  }

  /** No list and no chunk has been added. */
  ghost predicate SameLengths(lists: seq<seq<Chunk>>, lists': seq<seq<Chunk>>)
  {
    |lists'| == |lists| && forall l :: 0 <= l < |lists| ==> |lists'[l]| == |lists[l]|
  }

  lemma LengthsAre(lists: seq<seq<Chunk>>, lists': seq<seq<Chunk>>)
    ensures SameLengths(lists, lists') <==>
              |lists'| == |lists| && forall l :: 0 <= l < |lists| ==> |lists'[l]| == |lists[l]|
  {
  }

  lemma SameLengthsOn(lists: seq<seq<Chunk>>, lists': seq<seq<Chunk>>, lists'': seq<seq<Chunk>>)
    requires SameLengths(lists, lists') && SameLengths(lists', lists'')
    ensures SameLengths(lists, lists'')
  {
  }

  lemma BehindIs(p: Pos)
    ensures Behind(p) == AtEntry(Pos(p.l, p.c, p.e + 1))
  {
  }

  /** Chunks stay where they are linked. */
  ghost predicate Extends(lists: seq<seq<Chunk>>, home: map<array<Entry>, (nat, nat)>, lists': seq<seq<Chunk>>,
                          home': map<array<Entry>, (nat, nat)>)
  {
    && (forall a :: a in home ==> a in home' && home'[a] == home[a])
    && |lists| <= |lists'| && forall l :: 0 <= l < |lists| ==> lists[l] <= lists'[l]
  }

  lemma ExtendsItself(lists: seq<seq<Chunk>>, home: map<array<Entry>, (nat, nat)>)
    ensures Extends(lists, home, lists, home)
  {
  }

  lemma ExtendsOn(lists: seq<seq<Chunk>>, home: map<array<Entry>, (nat, nat)>, lists': seq<seq<Chunk>>,
                  home': map<array<Entry>, (nat, nat)>, lists'': seq<seq<Chunk>>, home'': map<array<Entry>, (nat, nat)>)
    requires Extends(lists, home, lists', home') && Extends(lists', home', lists'', home'')
    ensures Extends(lists, home, lists'', home'')
  {
  }

  lemma StillAt(lists: seq<seq<Chunk>>, home: map<array<Entry>, (nat, nat)>, lists': seq<seq<Chunk>>,
                home': map<array<Entry>, (nat, nat)>, chunk: Chunk, p: Pos)
    requires Extends(lists, home, lists', home') && IsAt(lists, chunk, p)
    ensures IsAt(lists', chunk, p)
  {
  }

  lemma StillRegistering(id: Id, s: State, s': State)
    requires SameOwn(Registering(id), s, s')
    ensures ActIn(s'.acts, id) == ActIn(s.acts, id)
  {
  }

  lemma StillCancelling(s: State, s': State)
    requires SameOwn(Cancelling, s, s') && s.requested
    ensures s'.requested && s'.canceller == s.canceller
  {
  }

  ghost predicate HasFree(slots: map<Pos, Id>, l: nat, c: nat, size: nat)
  {
    exists e: nat :: e < size && Pos(l, c, e) !in slots
  }

  lemma FreeSlot(slots: map<Pos, Id>, l: nat, c: nat, e: nat, size: nat)
    requires e < size && Pos(l, c, e) !in slots
    ensures HasFree(slots, l, c, size)
  {
  }

  lemma AllVisited(entryCount: nat, freeCount: int, seen: set<nat>)
    requires IsPowerOfTwo(entryCount) && entryCount <= MAX_ELEMENT_COUNT
    requires forall j :: 0 <= j < entryCount ==> EntryIndex(entryCount, freeCount, j) in seen
    ensures forall e: nat :: e < entryCount ==> e in seen
  {
    forall e: nat | e < entryCount
      ensures e in seen
    {
      var j := TurnOf(entryCount, freeCount, e);
    }
  }

  lemma NoFreeSlot(slots: map<Pos, Id>, l: nat, c: nat, entryCount: nat, freeCount: int)
    requires IsPowerOfTwo(entryCount) && entryCount <= MAX_ELEMENT_COUNT
    requires forall j :: 0 <= j < entryCount ==> Pos(l, c, EntryIndex(entryCount, freeCount, j)) in slots
    ensures !HasFree(slots, l, c, entryCount)
  {
    forall e: nat | e < entryCount
      ensures Pos(l, c, e) in slots
    {
      var j := TurnOf(entryCount, freeCount, e);
    }
  }

  lemma ClaimResult(s: State, id: Id, p: Pos)
    requires ActIn(s.acts, id) == Search(p.l) && HasSlot(s.sizes, p)
    ensures Enabled(s, TryClaim(id, p.c, p.e))
    ensures var s' := Apply(s, TryClaim(id, p.c, p.e));
            if p in s.slots then s' == s else ActIn(s'.acts, id) == Recheck(p)
  {
    assert Pos(p.l, p.c, p.e) == p;
  }

  lemma SizeIsMaskable(s: State, l: nat, c: nat)
    requires Reachable(s) && HasChunk(s.sizes, l, c)
    ensures IsPowerOfTwo(s.sizes[l][c]) && s.sizes[l][c] <= MAX_ELEMENT_COUNT
  {
    ReachableInv(s);
    assert SizeOk(s.sizes[l], c);
  }

  predicate EntryIsOf(entry: Entry, ghost slots: map<Pos, Id>, ghost p: Pos): (r: bool)
    requires entry == EntryAt(slots, p)
    ensures r <==> p in slots
  {
    entry.Of?
  }

  lemma EntryIsWhat(entry: Entry, slots: map<Pos, Id>, p: Pos, id: Id)
    requires entry == EntryAt(slots, p)
    ensures entry.Of? <==> p in slots
    ensures p in slots ==> entry.id == slots[p]
    ensures entry == Of(id) <==> Holds(slots, p, id)
    ensures EntryAt(slots - {p}, p) == Null && EntryAt(slots[p := id], p) == Of(id)
    ensures forall q: Pos :: q != p ==> EntryAt(slots - {p}, q) == EntryAt(slots, q) == EntryAt(slots[p := id], q)
  {
  }

  lemma ChunkLength(lists: seq<seq<Chunk>>, sizes: seq<seq<nat>>, slots: map<Pos, Id>, home: map<array<Entry>, (nat, nat)>, p: Pos)
    requires Mirrors(lists, sizes, slots, home) && HasChunk(sizes, p.l, p.c)
    ensures |lists| == |sizes| && |lists[p.l]| == |sizes[p.l]|
    ensures lists[p.l][p.c].entries.Length == sizes[p.l][p.c]
    ensures forall chunk :: IsAt(lists, chunk, p) ==> chunk == lists[p.l][p.c]
    ensures HasSlot(sizes, p) <==> p.e < lists[p.l][p.c].entries.Length
    ensures HasChunk(sizes, p.l, p.c + 1) <==> p.c + 1 < |lists[p.l]|
  {
    assert ChunkOk(lists[p.l][p.c], p.l, p.c, sizes[p.l][p.c], slots, home);
  }

  lemma RanOnce(s: State, id: Id)
    requires Inv(s)
    ensures ActIn(s.acts, id).RanSelf? ==> s.ran[id] == 1
    ensures ActIn(s.acts, id).Wait? ==> s.ran[id] == 1
    ensures ActIn(s.acts, id).Gone? ==> s.ran[id] == if ActIn(s.acts, id).removed then 0 else 1
  {
  }

  lemma DeregisterApplies(s: State, id: Id, thread: Thread)
    requires ActIn(s.acts, id).Registered?
    ensures Enabled(s, StartDeregister(id, thread))
    ensures var s' := Apply(s, StartDeregister(id, thread));
            ActIn(s'.acts, id) == Registrar.Deregister(ActIn(s.acts, id).p, thread) && s'.slots == s.slots
  {
  }

  /** When `request_cancellation` has returned, whoever is registered has been called. */
  lemma RegisteredHaveRun(s: State)
    requires Reachable(s) && s.canceller.Returned?
    ensures s.complete || s.taken == {}
    ensures forall id: Id :: ActIn(s.acts, id).Registered? ==> s.ran[id] == 1
  {
    hide Inv, Reaches;
    ReachableInv(s);
    ReturnedFlags(s);
    var run: seq<Action> :| Reaches(Init(), run, s);
    forall id: Id | ActIn(s.acts, id).Registered?
      ensures s.ran[id] == 1
    {
      EveryCallbackRunsOnce(run, s, id);
    }
  }

  lemma ReturnedFlags(s: State)
    requires Inv(s) && s.canceller.Returned?
    ensures s.complete || s.taken == {}
  {
  }

  lemma CompleteAfterRequest(s: State)
    requires Reachable(s)
    ensures s.complete ==> s.requested
  {
    ReachableInv(s);
  }

  lemma PackedFlags(requested: bool, complete: bool, sources: nat, tokens: nat)
    requires sources < MAX_REFS && tokens < MAX_REFS
    ensures !requested ==> Pack(requested, complete, sources, tokens) + REQUESTED_FLAG == Pack(true, complete, sources, tokens) < SIZE
    ensures !complete ==> Wrap(Pack(requested, complete, sources, tokens) + COMPLETE_FLAG) == Pack(requested, true, sources, tokens)
  {
    PackedBits(true, complete, sources, tokens);
    PackedBits(requested, true, sources, tokens);
  }

  lemma RequestApplies(s: State, thread: Thread)
    requires s.sources > 0
    ensures Enabled(s, Request(thread))
    ensures var s' := Apply(s, Request(thread));
            && (if s.requested then s' == s else s'.canceller == Canceller.LoadRegistrations && s'.notifier == thread)
            && s'.requested && s'.complete == s.complete && s'.sources == s.sources && s'.sizes == s.sizes && s'.slots == s.slots
  {
  }

  lemma ScanApplies(s: State)
    requires s.canceller.AtEntry?
    ensures Enabled(s, CancellerStep)
    ensures var s' := Apply(s, CancellerStep);
            && s'.requested == s.requested && s'.complete == s.complete && s'.sources == s.sources
            && s'.sizes == s.sizes && s'.slots == s.slots
            && (var p := s.canceller.p;
                s'.canceller == if HasSlot(s.sizes, p) then (if p in s.slots then Exchange(p) else Behind(p))
                                else if HasChunk(s.sizes, p.l, p.c + 1) then AtEntry(Pos(p.l, p.c + 1, 0)) else AtList(p.l + 1))
            && (s'.canceller.Exchange? <==> HasSlot(s.sizes, s.canceller.p) && s.canceller.p in s.slots)
  {
  }

  lemma ExchangeApplies(s: State)
    requires s.canceller.Exchange?
    ensures Enabled(s, CancellerStep)
    ensures var s', p := Apply(s, CancellerStep), s.canceller.p;
            && s'.requested == s.requested && s'.complete == s.complete && s'.sources == s.sources && s'.sizes == s.sizes
            && s'.slots == s.slots - {p} && (s'.canceller.Running? <==> p in s.slots)
            && s'.canceller == (if p in s.slots then Running(p, s.slots[p]) else Behind(p))
            && (p in s.slots ==> s'.canceller.id == s.slots[p] && s'.ran == s.ran + multiset{s.slots[p]})
  {
    assert s.canceller.p !in s.slots ==> s.slots - {s.canceller.p} == s.slots;
  }

  lemma CompleteApplies(s: State)
    requires s.canceller.Complete? && Reachable(s)
    ensures Enabled(s, CancellerStep) && !s.complete
    ensures var s' := Apply(s, CancellerStep);
            && s'.canceller.Returned? && s'.requested == s.requested && s'.complete && s'.sources == s.sources
            && s'.sizes == s.sizes && s'.slots == s.slots
  {
    ReachableInv(s);
  }

  ghost predicate IsQuiet(s: State, s': State)
  {
    && s'.requested == s.requested && s'.complete == s.complete && s'.sources == s.sources
    && s'.sizes == s.sizes && s'.slots == s.slots
  }

  ghost function RemoveStep(s: State, id: Id): Action
  {
    if ActIn(s.acts, id).Withdraw? then RegisterStep(id, 0, true) else DeregisterStep(id)
  }

  lemma RemoveApplies(s: State, id: Id, p: Pos)
    requires ActIn(s.acts, id) == Withdraw(p) || (ActIn(s.acts, id).Deregister? && ActIn(s.acts, id).p == p)
    ensures Enabled(s, RemoveStep(s, id))
    ensures var s' := Apply(s, RemoveStep(s, id));
            && s'.requested == s.requested && s'.complete == s.complete && s'.sources == s.sources && s'.sizes == s.sizes
            && s'.slots == (if Holds(s.slots, p, id) then s.slots - {p} else s.slots)
            && s'.notifier == s.notifier
            && (var r, removed := ActIn(s.acts, id), Holds(s.slots, p, id);
                ActIn(s'.acts, id) == if r.Withdraw? then (if removed then RunSelf else Registered(p))
                                      else if removed then Gone(true, r.thread)
                                      else if r.thread == s.notifier then Gone(false, r.thread) else Wait(r.thread))
  {
  }

  lemma ClaimApplies(s: State, id: Id, p: Pos)
    requires ActIn(s.acts, id) == Search(p.l) && HasSlot(s.sizes, p)
    ensures Enabled(s, TryClaim(id, p.c, p.e))
    ensures var s' := Apply(s, TryClaim(id, p.c, p.e));
            && s'.requested == s.requested && s'.complete == s.complete && s'.sources == s.sources && s'.sizes == s.sizes
            && s'.slots == (if p in s.slots then s.slots else s.slots[p := id])
            && (if p in s.slots then s' == s else ActIn(s'.acts, id) == Recheck(p))
  {
    assert Pos(p.l, p.c, p.e) == p;
  }

  lemma PublishListApplies(s: State, id: Id, l: nat)
    requires ActIn(s.acts, id) == CasList(l) && l < |s.sizes|
    ensures Enabled(s, RegisterStep(id, 0, true))
    ensures var s', p := Apply(s, RegisterStep(id, 0, true)), Pos(l, 0, 0);
            && s'.requested == s.requested && s'.complete == s.complete && s'.sources == s.sources
            && s'.sizes == (if s.sizes[l] == [] then s.sizes[l := s.sizes[l] + [INITIAL_CHUNK_SIZE]] else s.sizes)
            && s'.slots == (if s.sizes[l] == [] then s.slots[p := id] else s.slots)
            && (s.sizes[l] == [] ==> s'.sizes == s.sizes[l := [INITIAL_CHUNK_SIZE]])
            && ActIn(s'.acts, id) == (if s.sizes[l] == [] then Recheck(p) else Search(l))
  {
    assert s.sizes[l] == [] ==> s.sizes[l] + [INITIAL_CHUNK_SIZE] == [INITIAL_CHUNK_SIZE];
  }

  lemma ExtendApplies(s: State, id: Id, l: nat, c: nat)
    requires Reachable(s) && ActIn(s.acts, id) == Search(l) && HasChunk(s.sizes, l, c)
    ensures l < |s.sizes| && c < |s.sizes[l]| && 0 < s.sizes[l][c] <= MAX_ELEMENT_COUNT
    ensures Enabled(s, TryExtend(id, c, true))
    ensures var s', p := Apply(s, TryExtend(id, c, true)), Pos(l, c + 1, 0);
            var size' := if s.sizes[l][c] < MAX_ELEMENT_COUNT then s.sizes[l][c] * 2 else MAX_ELEMENT_COUNT;
            && 0 < size' <= MAX_ELEMENT_COUNT
            && s'.requested == s.requested && s'.complete == s.complete && s'.sources == s.sources
            && s'.sizes == (if c + 1 == |s.sizes[l]| then s.sizes[l := s.sizes[l] + [size']] else s.sizes)
            && s'.slots == (if c + 1 == |s.sizes[l]| then s.slots[p := id] else s.slots)
            && (if c + 1 == |s.sizes[l]| then ActIn(s'.acts, id) == Recheck(p) else s' == s)
  {
    SizesInRange(s, l, c);
  }

  lemma SlotsExist(s: State)
    requires Reachable(s)
    ensures forall q: Pos :: q in s.slots ==> HasSlot(s.sizes, q)
    ensures 0 < INITIAL_CHUNK_SIZE <= MAX_ELEMENT_COUNT
  {
    ReachableInv(s);
  }

  lemma SizesInRange(s: State, l: nat, c: nat)
    requires Reachable(s) && HasChunk(s.sizes, l, c)
    ensures INITIAL_CHUNK_SIZE <= s.sizes[l][c] <= MAX_ELEMENT_COUNT
    ensures 0 < NextSize(s.sizes[l][c]) <= MAX_ELEMENT_COUNT
  {
    ReachableInv(s);
    assert SizeOk(s.sizes[l], c);
    NextSizeOk(s.sizes[l][c]);
  }

  lemma MirrorShape(lists: seq<seq<Chunk>>, sizes: seq<seq<nat>>, slots: map<Pos, Id>, home: map<array<Entry>, (nat, nat)>)
    requires Mirrors(lists, sizes, slots, home)
    ensures |lists| == |sizes| && forall l :: 0 <= l < |sizes| ==> |lists[l]| == |sizes[l]|
  {
  }

  lemma IsLinked(lists: seq<seq<Chunk>>, chunk: Chunk, p: Pos)
    requires p.l < |lists| && p.c < |lists[p.l]| && chunk == lists[p.l][p.c]
    ensures IsAt(lists, chunk, p)
  {
  }

  /** A fresh chunk, its first slot claimed, becomes the last of its chain. */
  lemma Link(lists: seq<seq<Chunk>>, sizes: seq<seq<nat>>, slots: map<Pos, Id>, home: map<array<Entry>, (nat, nat)>,
             chunk: Chunk, p: Pos, id: Id)
    requires Mirrors(lists, sizes, slots, home) && chunk.entries !in home && p.e == 0
    requires |lists| == |sizes| && p.l < |sizes| && |lists[p.l]| == |sizes[p.l]| == p.c && chunk.entries.Length > 0
    requires chunk.entries[0] == Of(id) && forall e :: 0 < e < chunk.entries.Length ==> chunk.entries[e] == Null
    requires forall q: Pos :: q in slots ==> HasSlot(sizes, q)
    ensures Mirrors(lists[p.l := lists[p.l] + [chunk]], sizes[p.l := sizes[p.l] + [chunk.entries.Length]],
                    slots[p := id], home[chunk.entries := (p.l, p.c)])
  {
    var lists': seq<seq<Chunk>> := lists[p.l := lists[p.l] + [chunk]];
    var sizes': seq<seq<nat>> := sizes[p.l := sizes[p.l] + [chunk.entries.Length]];
    var slots', home' := slots[p := id], home[chunk.entries := (p.l, p.c)];
    forall l: nat, c: nat | HasChunk(sizes', l, c)
      ensures lists'[l][c].entries in home' && ChunkOk(lists'[l][c], l, c, sizes'[l][c], slots', home')
    {
      if l == p.l && c == p.c {
        assert forall e: nat :: Pos(l, c, e) !in slots;
      } else {
        assert HasChunk(sizes, l, c);
        assert ChunkOk(lists[l][c], l, c, sizes[l][c], slots, home);
        assert forall e: nat :: EntryAt(slots', Pos(l, c, e)) == EntryAt(slots, Pos(l, c, e));
      }
    }
  }
}
