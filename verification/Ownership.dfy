/** Buffers across the call boundary: what one call hands over, and what it takes back when it fails. */
module Ownership {
  import opened Basics

  /**
   * The buffers allocated and not yet freed, by address; addresses are never reused. `grants` is any
   * allocator at all: whether the n-th request so far, for so many bytes, is met.
   */
  class Memory {
    const grants: (nat, nat) -> bool
    var live: map<nat, Bytes>
    var next: nat
    var asked: nat

    constructor (grants: (nat, nat) -> bool)
      ensures Valid() && live == map[] && this.grants == grants && asked == 0
    {
      this.grants := grants;
      live, next, asked := map[], 1, 0;
    }

    ghost predicate Valid()
      reads this
    {
      forall p :: p in live ==> p < next
    }

    /** A new buffer holding the data, or nothing when the allocator refuses. */
    method Alloc(data: Bytes) returns (ptr: Option<nat>)
      requires Valid()
      modifies this
      ensures Valid() && asked == old(asked) + 1
      ensures ptr.Some? <==> grants(old(asked), |data|)
      ensures match ptr {
                case None => live == old(live)
                case Some(p) => p !in old(live) && live == old(live)[p := data]
              }
    {
      asked := asked + 1;
      if !grants(asked - 1, |data|) {
        return None;
      }
      ptr := Some(next);
      live := live[next := data];
      next := next + 1;
    }

    /** Only a live buffer can be freed, and only with its own length. */
    method Free(ptr: nat, len: nat)
      requires Valid() && ptr in live && |live[ptr]| == len
      modifies this`live
      ensures Valid() && live == old(live) - {ptr}
    {
      live := live - {ptr};
    }
  }

  /** What a cell holds: no buffer, or the address and the length of one. */
  datatype Slot = Holding(ptr: Option<nat>, len: nat)

  const EMPTY := Holding(None, 0)

  /** A cell a caller passes in and a call fills. */
  class Buffer {
    var ptr: Option<nat>
    var len: nat

    constructor ()
      ensures Slot() == EMPTY
    {
      ptr, len := None, 0;
    }

    function Slot(): Slot
      reads this
    {
      Holding(ptr, len)
    }
  }

  /** A slot for these bytes: empty for none, or a live buffer with them and their length. */
  predicate Holds(live: map<nat, Bytes>, slot: Slot, data: Bytes) {
    if data == [] then slot == EMPTY
    else slot.ptr.Some? && slot.len == |data| && slot.ptr.value in live && live[slot.ptr.value] == data
  }

  lemma HoldsStill(live: map<nat, Bytes>, later: map<nat, Bytes>, slot: Slot, data: Bytes)
    requires Holds(live, slot, data) && forall p :: p in live ==> p in later && later[p] == live[p]
    ensures Holds(later, slot, data)
  {
  }

  function Slots(cells: seq<Buffer>): (slots: seq<Slot>)
    reads cells
    ensures |slots| == |cells|
    ensures forall i :: 0 <= i < |cells| ==> slots[i] == cells[i].Slot()
  {
    if cells == [] then [] else [cells[0].Slot()] + Slots(cells[1..])
  }

  ghost predicate AllDistinct(cells: seq<Buffer>) {
    forall i, j :: 0 <= i < j < |cells| ==> cells[i] != cells[j]
  }

  /** A slot is empty, or points to a live buffer that was not there before and has its length. */
  ghost predicate Owns(live: map<nat, Bytes>, before: map<nat, Bytes>, slot: Slot) {
    || slot == EMPTY
    || (slot.ptr.Some? && slot.len > 0 && slot.ptr.value !in before
        && slot.ptr.value in live && |live[slot.ptr.value]| == slot.len)
  }

  ghost predicate PointsTo(slots: seq<Slot>, p: nat) {
    exists i :: 0 <= i < |slots| && slots[i].ptr == Some(p)
  }

  /** The live buffers are those from before, and one more for each slot that is not empty. */
  ghost predicate Added(live: map<nat, Bytes>, before: map<nat, Bytes>, slots: seq<Slot>) {
    && (forall i :: 0 <= i < |slots| ==> Owns(live, before, slots[i]))
    && (forall i, j :: 0 <= i < j < |slots| && slots[i].ptr.Some? ==> slots[i].ptr != slots[j].ptr)
    && (forall p :: p in live && p !in before ==> PointsTo(slots, p))
    && (forall p :: p in before ==> p in live && live[p] == before[p])
  }

  lemma NothingAdded(live: map<nat, Bytes>, before: map<nat, Bytes>, slots: seq<Slot>)
    requires Added(live, before, slots) && forall i :: 0 <= i < |slots| ==> slots[i] == EMPTY
    ensures live == before
  {
  }

  lemma AddsNothing(live: map<nat, Bytes>)
    ensures Added(live, live, [])
  {
  }

  lemma AddsEmpty(live: map<nat, Bytes>, before: map<nat, Bytes>, slots: seq<Slot>)
    requires Added(live, before, slots)
    ensures Added(live, before, slots + [EMPTY])
  {
    var all := slots + [EMPTY];
    forall p | p in live && p !in before ensures PointsTo(all, p) {
      var i :| 0 <= i < |slots| && slots[i].ptr == Some(p);
      assert all[i] == slots[i];
    }
  }

  /** Pointing an empty slot at a buffer just allocated. */
  lemma AddsOwner(live: map<nat, Bytes>, before: map<nat, Bytes>, slots: seq<Slot>, i: nat, p: nat, data: Bytes)
    requires Added(live, before, slots) && i < |slots| && slots[i] == EMPTY
    requires p !in live && |data| > 0
    ensures Added(live[p := data], before, slots[i := Holding(Some(p), |data|)])
  {
    var now, all := live[p := data], slots[i := Holding(Some(p), |data|)];
    forall k | 0 <= k < |all| ensures Owns(now, before, all[k]) {
      assert Owns(live, before, slots[k]);
    }
    forall q | q in now && q !in before ensures PointsTo(all, q) {
      if q == p {
        assert all[i].ptr == Some(q);
      } else {
        var k :| 0 <= k < |slots| && slots[k].ptr == Some(q);
        assert all[k] == slots[k];
      }
    }
    forall j, k | 0 <= j < k < |all| && all[j].ptr.Some? ensures all[j].ptr != all[k].ptr {
      assert Owns(live, before, slots[j]) && Owns(live, before, slots[k]);
    }
  }

  lemma OwnsEach(live: map<nat, Bytes>, before: map<nat, Bytes>, slots: seq<Slot>, i: nat)
    requires Added(live, before, slots) && i < |slots|
    ensures Owns(live, before, slots[i])
  {
  }

  /** Freeing what a slot points to and emptying it. */
  lemma ReleasesOwner(live: map<nat, Bytes>, before: map<nat, Bytes>, slots: seq<Slot>, i: nat)
    requires Added(live, before, slots) && i < |slots| && slots[i].ptr.Some?
    ensures Added(live - {slots[i].ptr.value}, before, slots[i := EMPTY])
  {
    var p := slots[i].ptr.value;
    var now, all := live - {p}, slots[i := EMPTY];
    forall k | 0 <= k < |all| ensures Owns(now, before, all[k]) {
      assert k < i ==> slots[k].ptr.None? || slots[k].ptr != slots[i].ptr;
      assert i < k ==> slots[i].ptr != slots[k].ptr;
    }
    forall q | q in now && q !in before ensures PointsTo(all, q) {
      var k :| 0 <= k < |slots| && slots[k].ptr == Some(q);
      assert all[k] == slots[k];
    }
  }

  const MAX_GIVEN := 8

  class Call {
    var given: seq<Buffer>

    constructor ()
      ensures given == []
    {
      given := [];
    }

    /** The buffers live now are those from before, and one for each cell filled so far. */
    ghost predicate Owed(mem: Memory, before: map<nat, Bytes>)
      reads this, mem, given
    {
      mem.Valid() && AllDistinct(given) && Added(mem.live, before, Slots(given))
    }

    /** Registers the cell as empty, then hands it a copy of the data unless there is none. */
    method Give(mem: Memory, cell: Buffer, data: Bytes, ghost before: map<nat, Bytes>) returns (r: Result<(), Fault>)
      requires |given| < MAX_GIVEN && cell !in given && Owed(mem, before)
      modifies this, cell, mem
      ensures given == old(given) + [cell] && Owed(mem, before)
      ensures match r {
                case Ok(_) => Holds(mem.live, cell.Slot(), data)
                case Err(fault) => fault == OutOfMemory && cell.Slot() == EMPTY
              }
      ensures r.Ok? <==> data == [] || mem.grants(old(mem.asked), |data|)
      ensures mem.asked == old(mem.asked) + if data == [] then 0 else 1
      ensures forall p :: p in old(mem.live) ==> p in mem.live && mem.live[p] == old(mem.live)[p]
    {
      hide Added, Slots;
      ghost var slots := Slots(given);
      AddsEmpty(mem.live, before, slots);
      cell.ptr, cell.len := None, 0;
      given := given + [cell];
      assert Slots(given) == slots + [EMPTY];
      if data == [] {
        return Ok(());
      }
      var copy := mem.Alloc(data);
      if copy.None? {
        assert Slots(given) == slots + [EMPTY];
        return Err(OutOfMemory);
      }
      AddsOwner(old(mem.live), before, slots + [EMPTY], |slots|, copy.value, data);
      cell.ptr, cell.len := copy, |data|;
      assert Slots(given) == (slots + [EMPTY])[|slots| := Holding(copy, |data|)];
      return Ok(());
    }

    /** On a fault every cell handed over so far is freed and emptied; otherwise nothing changes. */
    method Close(mem: Memory, result: Result<(), Fault>, ghost before: map<nat, Bytes>) returns (status: int)
      requires Owed(mem, before) && result != Err(Trap)
      modifies mem, given
      ensures status == match result { case Ok(_) => 0 case Err(fault) => StatusOf(fault) }
      ensures result.Ok? ==> mem.live == old(mem.live) && Slots(given) == old(Slots(given))
      ensures result.Err? ==> mem.live == before && forall g :: g in given ==> g.Slot() == EMPTY
      ensures given == old(given) && Owed(mem, before)
    {
      if result.Ok? {
        return 0;
      }
      hide Added, Slots;
      for i := 0 to |given|
        invariant given == old(given) && Owed(mem, before)
        invariant forall k :: 0 <= k < i ==> given[k].Slot() == EMPTY
      {
        Release(mem, given[i], given, i, before);
      }
      NothingAdded(mem.live, before, Slots(given));
      return StatusOf(result.error);
    }
  }

  /** Frees what one cell points to and empties it; every other cell keeps its own. */
  method Release(mem: Memory, cell: Buffer, ghost cells: seq<Buffer>, ghost i: nat, ghost before: map<nat, Bytes>)
    requires i < |cells| && cells[i] == cell && AllDistinct(cells)
    requires mem.Valid() && Added(mem.live, before, Slots(cells))
    modifies mem, cell
    ensures mem.Valid() && Added(mem.live, before, Slots(cells)) && cell.Slot() == EMPTY
  {
    hide Added, Slots;
    ghost var slots := Slots(cells);
    ghost var slot := slots[i];
    OwnsEach(mem.live, before, slots, i);
    if cell.ptr.Some? {
      ReleasesOwner(mem.live, before, slots, i);
    }
    if cell.ptr.Some? && cell.len > 0 {
      mem.Free(cell.ptr.value, cell.len);
    }
    cell.ptr, cell.len := None, 0;
    assert Slots(cells) == slots[i := EMPTY];
    assert slot == EMPTY ==> slots[i := EMPTY] == slots;
  }

  /** The status a fault is reported as; a trap ends the call without one. */
  function StatusOf(fault: Fault): (status: int)
    ensures status != 0
  {
    match fault
    case BadArgument => 1
    case WrongLength => 1
    case BadSession => 2
    case BadKey => 3
    case UnknownKeyType => 3
    case BadSignature => 4
    case BadMessage => 5
    case BadPadding => 5
    case BadKeyId => 6
    case UntrustedIdentity => 7
    case NoSession => 8
    case Replay => 9
    case LegacyVersion => 10
    case UnknownVersion => 11
    case OutOfMemory => 12
    case Trap => -1
  }
}
