/** One call from the host into linear memory: what it reserves, what it copies out and what it frees. */
module Bridge {
  import opened Basics

  const CELL_SIZE := 8

  /** A reserved block: plain bytes, or an output cell of two 32-bit words. */
  datatype Block = Raw(data: Bytes) | Cell(ptr: nat, len: nat) {
    function Size(): nat {
      match this
      case Raw(data) => |data|
      case Cell(_, _) => CELL_SIZE
    }
  }

  type Live = map<nat, Block>

  function Zeros(n: nat): (r: Bytes)
    ensures |r| == n && forall i :: 0 <= i < n ==> r[i] == 0
  {
    seq(n, _ => 0)
  }

  /** The address a request for no bytes is answered with; it is never live. */
  const NOWHERE := 0xFFFF_FFFF

  /**
   * Linear memory. `grants` is any allocator at all: whether the n-th request so far, for so many bytes,
   * is met.
   */
  class Linear {
    const grants: (nat, nat) -> bool
    var live: Live
    var next: nat
    var asked: nat

    constructor (grants: (nat, nat) -> bool)
      ensures Valid() && live == map[] && this.grants == grants && asked == 0
    {
      this.grants := grants;
      live, next, asked := map[], NOWHERE + 1, 0;
    }

    ghost predicate Valid()
      reads this
    {
      next > NOWHERE && forall p :: p in live ==> NOWHERE < p < next
    }

    /** A zeroed block, or null when the allocator refuses; no bytes are always granted, at the top address. */
    method Alloc(len: nat) returns (ptr: Option<nat>)
      requires Valid()
      modifies this
      ensures Valid() && asked == old(asked) + if len == 0 then 0 else 1
      ensures ptr.Some? <==> len == 0 || grants(old(asked), len)
      ensures match ptr {
                case None => live == old(live)
                case Some(p) =>
                  if len == 0 then p == NOWHERE && live == old(live)
                  else p !in old(live) && p > NOWHERE && live == old(live)[p := Raw(Zeros(len))]
              }
    {
      if len == 0 {
        return Some(NOWHERE);
      }
      asked := asked + 1;
      if !grants(asked - 1, len) {
        return None;
      }
      ptr := Some(next);
      live := live[next := Raw(Zeros(len))];
      next := next + 1;
    }

    /** Only a live block can be freed, and only with its own length. */
    method Free(ptr: nat, len: nat)
      requires Valid() && (len > 0 ==> ptr in live && live[ptr].Size() == len)
      modifies this`live
      ensures Valid() && live == if len > 0 then old(live) - {ptr} else old(live)
    {
      if len > 0 {
        live := live - {ptr};
      }
    }

    /** The core's own allocation for an output; the host learns of it through a cell. */
    method Place(data: Bytes) returns (ptr: nat)
      requires Valid()
      modifies this
      ensures Valid() && ptr > NOWHERE && asked == old(asked)
      ensures data == [] ==> live == old(live)
      ensures data != [] ==> ptr !in old(live) && live == old(live)[ptr := Raw(data)]
    {
      ptr := next;
      next := next + 1;
      if data != [] {
        live := live[ptr := Raw(data)];
      }
    }

    method Write(ptr: nat, block: Block)
      requires Valid() && ptr in live && live[ptr].Size() == block.Size()
      modifies this`live
      ensures Valid() && live == old(live)[ptr := block]
    {
      live := live[ptr := block];
    }
  }

  // What is owed

  /** An address due to be freed and what is there; an empty block takes no room and is never freed. */
  datatype Region = Region(ptr: nat, block: Block)

  /** The blocks due by address, for regions to be freed in this order. */
  ghost function DueOf(order: seq<Region>): Live {
    if order == [] then map[]
    else if order[0].block.Size() == 0 then DueOf(order[1..])
    else DueOf(order[1..])[order[0].ptr := order[0].block]
  }

  /** No address is due twice. */
  ghost predicate Once(order: seq<Region>) {
    order != [] ==> Once(order[1..]) && (order[0].block.Size() > 0 ==> order[0].ptr !in DueOf(order[1..]))
  }

  /** The live blocks are those from before and, once each, those still due. */
  ghost predicate Owing(live: Live, before: Live, order: seq<Region>) {
    && Once(order)
    && before.Keys !! DueOf(order).Keys
    && live == before + DueOf(order)
  }

  lemma OwingNothing(live: Live, before: Live)
    ensures Owing(live, live, [])
    ensures Owing(live, before, []) ==> live == before
  {
  }

  lemma DueFront(order: seq<Region>)
    requires order != []
    ensures var r := order[0];
            && (Once(order) <==> Once(order[1..]) && (r.block.Size() > 0 ==> r.ptr !in DueOf(order[1..])))
            && DueOf(order) == if r.block.Size() > 0 then DueOf(order[1..])[r.ptr := r.block] else DueOf(order[1..])
  {
  }

  lemma {:induction false} Inserted(a: seq<Region>, b: seq<Region>, r: Region)
    requires Once(a + b) && (r.block.Size() > 0 ==> r.ptr !in DueOf(a + b))
    ensures Once(a + [r] + b)
    ensures DueOf(a + [r] + b) == if r.block.Size() > 0 then DueOf(a + b)[r.ptr := r.block] else DueOf(a + b)
  {
    hide Once, DueOf;
    DueFront(a + [r] + b);
    if a == [] {
      assert a + b == b && (a + [r] + b)[1..] == b;
    } else {
      DueFront(a + b);
      assert (a + b)[1..] == a[1..] + b;
      assert (a + [r] + b)[1..] == a[1..] + [r] + b;
      Inserted(a[1..], b, r);
    }
  }

  lemma Reserving(live: Live, before: Live, a: seq<Region>, b: seq<Region>, r: Region)
    requires Owing(live, before, a + b) && (r.block.Size() > 0 ==> r.ptr !in live)
    ensures Owing(if r.block.Size() > 0 then live[r.ptr := r.block] else live, before, a + [r] + b)
  {
    hide Once, DueOf;
    Inserted(a, b, r);
  }

  lemma {:induction false} Removed(a: seq<Region>, b: seq<Region>, r: Region)
    requires Once(a + [r] + b)
    ensures Once(a + b)
    ensures if r.block.Size() > 0 then
              r.ptr !in DueOf(a + b) && DueOf(a + [r] + b) == DueOf(a + b)[r.ptr := r.block]
            else DueOf(a + [r] + b) == DueOf(a + b)
  {
    hide Once, DueOf;
    DueFront(a + [r] + b);
    if a == [] {
      assert a + b == b && (a + [r] + b)[1..] == b;
    } else {
      DueFront(a + b);
      assert (a + b)[1..] == a[1..] + b;
      assert (a + [r] + b)[1..] == a[1..] + [r] + b;
      Removed(a[1..], b, r);
    }
  }

  /** A region due can be freed with its length, and then the others are due. */
  lemma Releasing(live: Live, before: Live, a: seq<Region>, b: seq<Region>, r: Region)
    requires Owing(live, before, a + [r] + b)
    ensures r.block.Size() > 0 ==> r.ptr in live && live[r.ptr] == r.block
    ensures Owing(if r.block.Size() > 0 then live - {r.ptr} else live, before, a + b)
  {
    hide Once, DueOf;
    Removed(a, b, r);
  }

  /** What is due at a place in the order is live there; it can be overwritten in its own size. */
  lemma {:induction false} Overwritten(order: seq<Region>, i: nat, block: Block)
    requires Once(order) && i < |order| && order[i].block.Size() > 0 && block.Size() == order[i].block.Size()
    ensures order[i].ptr in DueOf(order) && DueOf(order)[order[i].ptr] == order[i].block
    ensures var now := order[i := Region(order[i].ptr, block)];
            Once(now) && DueOf(now) == DueOf(order)[order[i].ptr := block]
  {
    var now := order[i := Region(order[i].ptr, block)];
    if i > 0 {
      Overwritten(order[1..], i - 1, block);
      assert now[1..] == order[1..][i - 1 := Region(order[i].ptr, block)];
    }
  }

  lemma Overwriting(live: Live, before: Live, order: seq<Region>, i: nat, block: Block)
    requires Owing(live, before, order) && i < |order| && order[i].block.Size() > 0 && block.Size() == order[i].block.Size()
    ensures order[i].ptr in live && live[order[i].ptr] == order[i].block
    ensures Owing(live[order[i].ptr := block], before, order[i := Region(order[i].ptr, block)])
  {
    hide Once, DueOf;
    Overwritten(order, i, block);
  }

  // The objects of a call

  /** An input or a pad: where it is and how long. */
  datatype Span = Span(ptr: nat, len: nat)

  ghost function Regions(spans: seq<Span>, data: seq<Bytes>): seq<Region>
    requires |spans| == |data|
  {
    seq(|spans|, i requires 0 <= i < |spans| => Region(spans[i].ptr, Raw(data[i])))
  }

  ghost predicate Sized(spans: seq<Span>, data: seq<Bytes>) {
    |spans| == |data| && forall i :: 0 <= i < |spans| ==> spans[i].len == |data[i]|
  }

  /** Output cells that nothing has been put in yet. */
  ghost function EmptyCells(outs: seq<nat>): seq<Region> {
    seq(|outs|, i requires 0 <= i < |outs| => Region(outs[i], Cell(0, 0)))
  }

  /** Filled output cells, each after the buffer it points to. */
  ghost function FullCells(outs: seq<nat>, buffers: seq<Region>): seq<Region>
    requires |outs| == |buffers|
  {
    if outs == [] then []
    else [buffers[0], Region(outs[0], Cell(buffers[0].ptr, buffers[0].block.Size()))] + FullCells(outs[1..], buffers[1..])
  }

  /** An input is copied in; an empty one reserves nothing. */
  method NewIn(mem: Linear, value: Bytes, ghost before: Live, ghost a: seq<Region>, ghost b: seq<Region>) returns (input: Option<Span>)
    requires mem.Valid() && Owing(mem.live, before, a + b)
    modifies mem
    ensures mem.Valid()
    ensures match input {
              case None => mem.live == old(mem.live)
              case Some(s) =>
                && s.len == |value| && Owing(mem.live, before, a + [Region(s.ptr, Raw(value))] + b)
                && if value == [] then mem.live == old(mem.live) else |mem.live| == |old(mem.live)| + 1
            }
    ensures input.Some? <==> value == [] || mem.grants(old(mem.asked), |value|)
    ensures mem.asked == old(mem.asked) + if value == [] then 0 else 1
  {
    hide Owing;
    if value == [] {
      Reserving(mem.live, before, a, b, Region(0, Raw(value)));
      return Some(Span(0, 0));
    }
    var p := mem.Alloc(|value|);
    if p.None? {
      return None;
    }
    mem.Write(p.value, Raw(value));
    Reserving(old(mem.live), before, a, b, Region(p.value, Raw(value)));
    assert mem.live == old(mem.live)[p.value := Raw(value)];
    return Some(Span(p.value, |value|));
  }

  /** An output cell starts with two zero words. */
  method NewOut(mem: Linear, ghost before: Live, ghost a: seq<Region>, ghost b: seq<Region>) returns (cell: Option<nat>)
    requires mem.Valid() && Owing(mem.live, before, a + b)
    modifies mem
    ensures mem.Valid()
    ensures match cell {
              case None => mem.live == old(mem.live)
              case Some(p) =>
                Owing(mem.live, before, a + [Region(p, Cell(0, 0))] + b) && |mem.live| == |old(mem.live)| + 1
            }
    ensures cell.Some? <==> mem.grants(old(mem.asked), 8)
    ensures mem.asked == old(mem.asked) + 1
  {
    hide Owing;
    cell := mem.Alloc(CELL_SIZE);
    if cell.None? {
      return;
    }
    mem.Write(cell.value, Cell(0, 0));
    Reserving(old(mem.live), before, a, b, Region(cell.value, Cell(0, 0)));
    assert mem.live == old(mem.live)[cell.value := Cell(0, 0)];
  }

  /** Why an argument cannot be pushed: the allocator refused, or a pad of no bytes is beyond memory. */
  datatype Stop = Refused | OutOfRange

  /** A pad is zeroed through a view, and there is no view at the top address. */
  method NewPad(mem: Linear, len: nat, ghost before: Live, ghost a: seq<Region>, ghost b: seq<Region>) returns (pad: Result<Span, Stop>)
    requires mem.Valid() && Owing(mem.live, before, a + b)
    modifies mem
    ensures mem.Valid()
    ensures match pad {
              case Err(_) => mem.live == old(mem.live)
              case Ok(s) =>
                && s.len == len && Owing(mem.live, before, a + [Region(s.ptr, Raw(Zeros(len)))] + b)
                && |mem.live| == |old(mem.live)| + 1
            }
    ensures pad.Err? <==> len == 0 || !mem.grants(old(mem.asked), len)
    ensures pad.Err? ==> pad.error == if len == 0 then OutOfRange else Refused
    ensures mem.asked == old(mem.asked) + if len == 0 then 0 else 1
  {
    hide Owing;
    var p := mem.Alloc(len);
    if p.None? {
      return Err(Refused);
    }
    if p.value == NOWHERE {
      return Err(OutOfRange);
    }
    Reserving(old(mem.live), before, a, b, Region(p.value, Raw(Zeros(len))));
    return Ok(Span(p.value, len));
  }

  /** Frees inputs or pads one by one. */
  method FreeAll(mem: Linear, spans: seq<Span>, ghost data: seq<Bytes>, ghost before: Live, ghost a: seq<Region>, ghost b: seq<Region>)
    requires mem.Valid() && Sized(spans, data) && Owing(mem.live, before, a + Regions(spans, data) + b)
    modifies mem
    ensures mem.Valid() && Owing(mem.live, before, a + b)
  {
    hide Owing;
    ghost var all := Regions(spans, data);
    assert all[0..] == all;
    for i := 0 to |spans|
      invariant mem.Valid() && Owing(mem.live, before, a + all[i..] + b)
    {
      assert a + all[i..] + b == a + [all[i]] + (all[i + 1..] + b);
      assert a + all[i + 1..] + b == a + (all[i + 1..] + b);
      Releasing(mem.live, before, a, all[i + 1..] + b, all[i]);
      mem.Free(spans[i].ptr, spans[i].len);
    }
    assert a + all[|spans|..] + b == a + b;
  }

  // The export's side

  /** The export puts each output in a buffer of its own and points its cell there. */
  method HandOver(mem: Linear, outs: seq<nat>, outputs: seq<Bytes>, ghost before: Live, ghost a: seq<Region>, ghost b: seq<Region>)
    returns (ghost buffers: seq<Region>)
    requires mem.Valid() && |outs| == |outputs| && Owing(mem.live, before, a + EmptyCells(outs) + b)
    modifies mem
    ensures mem.Valid() && |buffers| == |outs|
    ensures forall i :: 0 <= i < |outs| ==> buffers[i].block == Raw(outputs[i])
    ensures Owing(mem.live, before, a + FullCells(outs, buffers) + b)
    decreases |outs|
  {
    hide Owing;
    if outs == [] {
      return [];
    }
    ghost var others := EmptyCells(outs[1..]) + b;
    ghost var empty := Region(outs[0], Cell(0, 0));
    assert EmptyCells(outs) == [empty] + EmptyCells(outs[1..]);
    assert a + EmptyCells(outs) + b == a + ([empty] + others);
    var p := mem.Place(outputs[0]);
    ghost var buffer := Region(p, Raw(outputs[0]));
    Reserving(old(mem.live), before, a, [empty] + others, buffer);
    ghost var due := a + [buffer] + ([empty] + others);
    var filled := Cell(p, |outputs[0]|);
    Overwriting(mem.live, before, due, |a| + 1, filled);
    mem.Write(outs[0], filled);
    ghost var head := a + [buffer, Region(outs[0], filled)];
    assert due[|a| + 1 := Region(outs[0], filled)] == head + EmptyCells(outs[1..]) + b;
    ghost var later := HandOver(mem, outs[1..], outputs[1..], before, head, b);
    buffers := [buffer] + later;
    assert buffers[1..] == later;
    assert a + FullCells(outs, buffers) + b == head + FullCells(outs[1..], later) + b;
  }

  /** The export writes each pad in its own size. */
  method FillPads(mem: Linear, pads: seq<Span>, ghost data: seq<Bytes>, filled: seq<Bytes>, ghost before: Live, ghost a: seq<Region>)
    requires mem.Valid() && Sized(pads, data) && Sized(pads, filled) && Owing(mem.live, before, a + Regions(pads, data))
    modifies mem
    ensures mem.Valid() && Owing(mem.live, before, a + Regions(pads, filled))
    decreases |pads|
  {
    hide Owing;
    if pads == [] {
      assert Regions(pads, data) == Regions(pads, filled);
      return;
    }
    ghost var was, now := Region(pads[0].ptr, Raw(data[0])), Region(pads[0].ptr, Raw(filled[0]));
    ghost var others := Regions(pads[1..], data[1..]);
    assert a + Regions(pads, data) == a + ([was] + others);
    ghost var due := a + ([was] + others);
    if pads[0].len > 0 {
      Overwriting(mem.live, before, due, |a|, Raw(filled[0]));
      mem.Write(pads[0].ptr, Raw(filled[0]));
    }
    assert due[|a| := now] == a + [now] + others;
    assert pads[0].len == 0 ==> now == was && due[|a| := now] == due;
    FillPads(mem, pads[1..], data[1..], filled[1..], before, a + [now]);
    assert a + [now] + Regions(pads[1..], filled[1..]) == a + Regions(pads, filled);
  }

  /** What is behind inputs or pads, read without changing anything. */
  method ReadAll(mem: Linear, spans: seq<Span>, ghost data: seq<Bytes>, ghost before: Live, ghost a: seq<Region>, ghost b: seq<Region>)
    returns (read: seq<Bytes>)
    requires Sized(spans, data) && Owing(mem.live, before, a + Regions(spans, data) + b)
    ensures read == data
  {
    hide Owing;
    read := [];
    for i := 0 to |spans|
      invariant read == data[..i]
    {
      var bytes: Bytes := [];
      assert (a + Regions(spans, data) + b)[|a| + i] == Region(spans[i].ptr, Raw(data[i]));
      if spans[i].len > 0 {
        Overwriting(mem.live, before, a + Regions(spans, data) + b, |a| + i, Raw(data[i]));
        bytes := mem.live[spans[i].ptr].data;
      }
      read := read + [bytes];
    }
  }

  // Taking outputs

  /** Copies one output out, then frees its buffer and its cell. */
  method Take(mem: Linear, cell: nat, ghost buffer: Region, ghost before: Live, ghost b: seq<Region>) returns (copy: Bytes)
    requires mem.Valid() && buffer.block.Raw?
    requires Owing(mem.live, before, [buffer, Region(cell, Cell(buffer.ptr, buffer.block.Size()))] + b)
    modifies mem
    ensures mem.Valid() && copy == buffer.block.data && Owing(mem.live, before, b)
  {
    hide Owing;
    ghost var full := Region(cell, Cell(buffer.ptr, buffer.block.Size()));
    ghost var due := [buffer, full] + b;
    Overwriting(mem.live, before, due, 1, full.block);
    var ptr, len := mem.live[cell].ptr, mem.live[cell].len;
    copy := [];
    assert due == [] + [buffer] + ([full] + b);
    Releasing(mem.live, before, [], [full] + b, buffer);
    if len > 0 {
      copy := mem.live[ptr].data;
      mem.Free(ptr, len);
    }
    assert [] + ([full] + b) == [] + [full] + b;
    Releasing(mem.live, before, [], b, full);
    mem.Free(cell, CELL_SIZE);
    assert [] + b == b;
  }

  method TakeAll(mem: Linear, outs: seq<nat>, ghost buffers: seq<Region>, ghost outputs: seq<Bytes>, ghost before: Live, ghost b: seq<Region>)
    returns (copies: seq<Bytes>)
    requires mem.Valid() && |outs| == |buffers| == |outputs|
    requires forall i :: 0 <= i < |outs| ==> buffers[i].block == Raw(outputs[i])
    requires Owing(mem.live, before, FullCells(outs, buffers) + b)
    modifies mem
    ensures mem.Valid() && copies == outputs && Owing(mem.live, before, b)
  {
    hide Owing;
    copies := [];
    assert outs[0..] == outs && buffers[0..] == buffers;
    for i := 0 to |outs|
      invariant mem.Valid() && copies == outputs[..i]
      invariant Owing(mem.live, before, FullCells(outs[i..], buffers[i..]) + b)
    {
      ghost var others := FullCells(outs[i + 1..], buffers[i + 1..]) + b;
      ghost var full := Region(outs[i], Cell(buffers[i].ptr, buffers[i].block.Size()));
      assert outs[i..][1..] == outs[i + 1..] && buffers[i..][1..] == buffers[i + 1..];
      assert FullCells(outs[i..], buffers[i..]) + b == [buffers[i], full] + others;
      var copy := Take(mem, outs[i], buffers[i], before, others);
      copies := copies + [copy];
    }
    assert FullCells(outs[|outs|..], buffers[|outs|..]) + b == b;
  }

  // A call

  /** What an export does with its inputs: it traps, or returns a status, its outputs and its pads. */
  datatype Effect = Trap | Done(status: int, outputs: seq<Bytes>, filled: seq<Bytes>)

  datatype Ending<+T> = Gave(value: T) | Threw(status: int) | ReadThrew | Trapped | Unbuilt(why: Stop)

  /** What a call ends with, given what the export does and how the host reads it. */
  function EndingOf<T>(effect: Effect, read: (seq<Bytes>, seq<Bytes>) -> Option<T>): Ending<T> {
    match effect
    case Trap => Trapped
    case Done(status, outputs, filled) =>
      if status != 0 then Threw(status)
      else match read(outputs, filled) { case None => ReadThrew case Some(t) => Gave(t) }
  }

  function ZeroPads(pads: seq<Span>): seq<Bytes> {
    seq(|pads|, i requires 0 <= i < |pads| => Zeros(pads[i].len))
  }

  /** One output for each cell, and each pad filled in its own length. */
  ghost predicate Fitting(effect: Effect, outs: nat, pads: seq<Span>) {
    effect.Done? ==> |effect.outputs| == outs && Sized(pads, effect.filled)
  }

  /** What a caller puts in a call, in argument order. */
  datatype Arg = Bytes(data: Bytes) | Num(value: int) | Out | Pad(len: nat)

  /** What some arguments come to: their inputs, output cells and pad lengths, and how many blocks they reserve. */
  datatype Tally = Tally(inputs: seq<Bytes>, outs: nat, pads: seq<nat>, room: nat)

  function Plus(t: Tally, arg: Arg): Tally {
    match arg
    case Bytes(data) => t.(inputs := t.inputs + [data], room := t.room + if data == [] then 0 else 1)
    case Num(_) => t
    case Out => t.(outs := t.outs + 1, room := t.room + 1)
    case Pad(len) => t.(pads := t.pads + [len], room := t.room + if len == 0 then 0 else 1)
  }

  function TallyOf(args: seq<Arg>): Tally {
    if args == [] then Tally([], 0, [], 0) else Plus(TallyOf(args[..|args| - 1]), args[|args| - 1])
  }

  lemma TallyStep(args: seq<Arg>, i: nat)
    requires i < |args|
    ensures TallyOf(args[..i + 1]) == Plus(TallyOf(args[..i]), args[i])
  {
    assert args[..i + 1][..i] == args[..i];
  }

  /** Why one argument cannot be pushed once so many requests have been made, if it cannot. */
  function StopOf(grants: (nat, nat) -> bool, asked: nat, arg: Arg): Option<Stop> {
    match arg
    case Bytes(data) => if data == [] || grants(asked, |data|) then None else Some(Refused)
    case Num(_) => None
    case Out => if grants(asked, 8) then None else Some(Refused)
    case Pad(len) => if len == 0 then Some(OutOfRange) else if grants(asked, len) then None else Some(Refused)
  }

  /** Where building a call stops: how many blocks are reserved by then, and why. */
  datatype Halt = Halt(reserved: nat, why: Stop)

  function HaltOf(grants: (nat, nat) -> bool, asked: nat, args: seq<Arg>): Option<Halt> {
    if args == [] then None
    else
      var front := args[..|args| - 1];
      var room := TallyOf(front).room;
      match HaltOf(grants, asked, front)
      case Some(h) => Some(h)
      case None =>
        match StopOf(grants, asked + room, args[|args| - 1])
        case None => None
        case Some(why) => Some(Halt(room, why))
  }

  lemma HaltStep(grants: (nat, nat) -> bool, asked: nat, args: seq<Arg>, i: nat)
    requires i < |args| && HaltOf(grants, asked, args[..i]).None?
    ensures HaltOf(grants, asked, args[..i + 1]) ==
            match StopOf(grants, asked + TallyOf(args[..i]).room, args[i]) {
              case None => None
              case Some(why) => Some(Halt(TallyOf(args[..i]).room, why))
            }
  {
    assert args[..i + 1][..i] == args[..i];
  }

  /** Where building stops, it stops. */
  lemma {:induction false} HaltStays(grants: (nat, nat) -> bool, asked: nat, args: seq<Arg>, i: nat)
    requires i <= |args| && HaltOf(grants, asked, args[..i]).Some?
    ensures HaltOf(grants, asked, args) == HaltOf(grants, asked, args[..i])
    decreases |args|
  {
    if i < |args| {
      assert args[..|args| - 1][..i] == args[..i];
      HaltStays(grants, asked, args[..|args| - 1], i);
    } else {
      assert args[..i] == args;
    }
  }

  /** What two lists of arguments come to together: the inputs and pads of the one before those of the other. */
  lemma {:induction false} TallyJoins(a: seq<Arg>, b: seq<Arg>)
    ensures var s, t, all := TallyOf(a), TallyOf(b), TallyOf(a + b);
            && all.inputs == s.inputs + t.inputs && all.pads == s.pads + t.pads
            && all.outs == s.outs + t.outs && all.room == s.room + t.room
  {
    if b == [] {
      assert a + b == a;
    } else {
      assert (a + b)[..|a + b| - 1] == a + b[..|b| - 1];
      TallyJoins(a, b[..|b| - 1]);
    }
  }

  /** One argument alone: what it gives the export and how many blocks it takes, none for no bytes. */
  lemma TallyOfOne(data: Bytes, value: int, len: nat)
    ensures TallyOf([Bytes(data)]) == Tally([data], 0, [], if data == [] then 0 else 1)
    ensures TallyOf([Num(value)]) == Tally([], 0, [], 0)
    ensures TallyOf([Out]) == Tally([], 1, [], 1)
    ensures TallyOf([Pad(len)]) == Tally([], 0, [len], if len == 0 then 0 else 1)
  {
    assert forall x: Arg :: [x][..0] == [];
  }

  /** Building halts at the first argument that cannot be pushed, with the blocks of those before it. */
  lemma {:induction false} HaltsAtFirst(grants: (nat, nat) -> bool, asked: nat, args: seq<Arg>) returns (at: nat)
    ensures at <= |args|
    ensures forall i :: 0 <= i < at ==> StopOf(grants, asked + TallyOf(args[..i]).room, args[i]).None?
    ensures match HaltOf(grants, asked, args) {
              case None => at == |args|
              case Some(h) =>
                && at < |args| && h.reserved == TallyOf(args[..at]).room
                && StopOf(grants, asked + TallyOf(args[..at]).room, args[at]) == Some(h.why)
            }
  {
    hide TallyOf, StopOf;
    if args == [] {
      at := 0;
    } else {
      var front := args[..|args| - 1];
      at := HaltsAtFirst(grants, asked, front);
      assert forall i :: 0 <= i <= |front| ==> front[..i] == args[..i];
      if HaltOf(grants, asked, front).None? && HaltOf(grants, asked, args).None? {
        at := |args|;
      }
    }
  }

  ghost predicate Lengths(spans: seq<Span>, lens: seq<nat>) {
    |spans| == |lens| && forall i :: 0 <= i < |spans| ==> spans[i].len == lens[i]
  }

  class Call {
    var args: seq<int>
    var ins: seq<Span>
    var outs: seq<nat>
    var pads: seq<Span>
    ghost const before: Live
    ghost var inputs: seq<Bytes>

    constructor (mem: Linear)
      requires mem.Valid()
      ensures Built(mem) && before == mem.live
      ensures args == [] && ins == [] && outs == [] && pads == [] && inputs == []
    {
      args, ins, outs, pads, inputs := [], [], [], [], [];
      before := mem.live;
      new;
      OwingNothing(mem.live, mem.live);
      assert EmptyCells(outs) + Regions(ins, inputs) + Regions(pads, ZeroPads(pads)) == [];
    }

    /** Every object pushed so far is live, and nothing else that was not live before. */
    ghost predicate Built(mem: Linear)
      reads this, mem
    {
      && mem.Valid()
      && Sized(ins, inputs)
      && Owing(mem.live, before, EmptyCells(outs) + Regions(ins, inputs) + Regions(pads, ZeroPads(pads)))
    }

    method PushBytes(mem: Linear, value: Bytes) returns (ok: bool)
      requires Built(mem)
      modifies this, mem
      ensures Built(mem) && outs == old(outs) && pads == old(pads)
      ensures if ok then
                && inputs == old(inputs) + [value] && |ins| == |old(ins)| + 1
                && args == old(args) + [ins[|ins| - 1].ptr, |value|]
                && if value == [] then mem.live == old(mem.live) else |mem.live| == |old(mem.live)| + 1
              else mem.live == old(mem.live)
      ensures ok <==> value == [] || mem.grants(old(mem.asked), |value|)
      ensures mem.asked == old(mem.asked) + if value == [] then 0 else 1
    {
      hide Owing;
      ghost var a, b := EmptyCells(outs) + Regions(ins, inputs), Regions(pads, ZeroPads(pads));
      var input := NewIn(mem, value, before, a, b);
      if input.None? {
        return false;
      }
      ins := ins + [input.value];
      inputs := inputs + [value];
      args := args + [input.value.ptr, input.value.len];
      assert EmptyCells(outs) + Regions(ins, inputs) == a + [Region(input.value.ptr, Raw(value))];
      return true;
    }

    method PushNum(mem: Linear, value: int)
      requires Built(mem)
      modifies this`args
      ensures Built(mem) && args == old(args) + [value]
    {
      args := args + [value];
    }

    method PushOut(mem: Linear) returns (ok: bool)
      requires Built(mem)
      modifies this, mem
      ensures Built(mem) && pads == old(pads) && inputs == old(inputs)
      ensures if ok then
                && |outs| == |old(outs)| + 1 && args == old(args) + [outs[|outs| - 1]]
                && |mem.live| == |old(mem.live)| + 1
              else mem.live == old(mem.live)
      ensures ok <==> mem.grants(old(mem.asked), 8)
      ensures mem.asked == old(mem.asked) + 1
    {
      hide Owing;
      ghost var a, b := EmptyCells(outs), Regions(ins, inputs) + Regions(pads, ZeroPads(pads));
      assert a + b == EmptyCells(outs) + Regions(ins, inputs) + Regions(pads, ZeroPads(pads));
      var cell := NewOut(mem, before, a, b);
      if cell.None? {
        return false;
      }
      outs := outs + [cell.value];
      args := args + [cell.value];
      assert EmptyCells(outs) == a + [Region(cell.value, Cell(0, 0))];
      assert EmptyCells(outs) + b == EmptyCells(outs) + Regions(ins, inputs) + Regions(pads, ZeroPads(pads));
      return true;
    }

    method PushPad(mem: Linear, len: nat) returns (stop: Option<Stop>)
      requires Built(mem)
      modifies this, mem
      ensures Built(mem) && outs == old(outs) && inputs == old(inputs)
      ensures if stop.None? then
                && |pads| == |old(pads)| + 1 && pads[..|old(pads)|] == old(pads) && pads[|pads| - 1].len == len
                && args == old(args) + [pads[|pads| - 1].ptr]
                && |mem.live| == |old(mem.live)| + 1
              else mem.live == old(mem.live)
      ensures stop == StopOf(mem.grants, old(mem.asked), Pad(len))
      ensures mem.asked == old(mem.asked) + if len == 0 then 0 else 1
    {
      hide Owing;
      ghost var a := EmptyCells(outs) + Regions(ins, inputs) + Regions(pads, ZeroPads(pads));
      assert a + [] == a;
      var pad := NewPad(mem, len, before, a, []);
      if pad.Err? {
        return Some(pad.error);
      }
      pads := pads + [pad.value];
      args := args + [pad.value.ptr];
      assert EmptyCells(outs) + Regions(ins, inputs) + Regions(pads, ZeroPads(pads)) ==
             a + [Region(pad.value.ptr, Raw(Zeros(len)))] + [];
      return None;
    }

    ghost predicate Tallied(t: Tally)
      reads this
    {
      inputs == t.inputs && |outs| == t.outs && Lengths(pads, t.pads)
    }

    method Push(mem: Linear, arg: Arg, ghost t: Tally) returns (stop: Option<Stop>)
      requires Built(mem) && Tallied(t)
      modifies this, mem
      ensures mem.Valid() && Built(mem)
      ensures stop == StopOf(mem.grants, old(mem.asked), arg)
      ensures stop.None? ==> Tallied(Plus(t, arg)) && |mem.live| == |old(mem.live)| + Plus(t, arg).room - t.room
      ensures stop.None? ==> mem.asked == old(mem.asked) + Plus(t, arg).room - t.room
      ensures stop.Some? || Plus(t, arg).room == t.room ==> mem.live == old(mem.live)
    {
      hide Owing, Sized;
      var ok := true;
      match arg {
        case Bytes(data) => ok := PushBytes(mem, data);
        case Num(value) => PushNum(mem, value);
        case Out => ok := PushOut(mem);
        case Pad(len) =>
          stop := PushPad(mem, len);
          return;
      }
      return if ok then None else Some(Refused);
    }

    /** The last loops of a call: inputs, then pads. */
    method FreeRest(mem: Linear, ghost contents: seq<Bytes>, ghost a: seq<Region>)
      requires mem.Valid() && Sized(ins, inputs) && Sized(pads, contents)
      requires Owing(mem.live, before, a + Regions(ins, inputs) + Regions(pads, contents))
      modifies mem
      ensures mem.Valid() && Owing(mem.live, before, a)
    {
      hide Owing;
      FreeAll(mem, ins, inputs, before, a, Regions(pads, contents));
      assert a + Regions(pads, contents) == a + Regions(pads, contents) + [];
      FreeAll(mem, pads, contents, before, a, []);
      assert a + [] == a;
    }

    /** What follows a return of the export: outputs are taken whatever the status, then the host reads. */
    method TakeAndRead<T>(mem: Linear, effect: Effect, read: (seq<Bytes>, seq<Bytes>) -> Option<T>) returns (r: Ending<T>)
      requires Built(mem) && effect.Done? && Fitting(effect, |outs|, pads)
      modifies mem
      ensures mem.Valid() && r == EndingOf(effect, read)
      ensures Owing(mem.live, before, Regions(ins, inputs) + Regions(pads, effect.filled))
    {
      hide Owing;
      ghost var cells, given, zeros := EmptyCells(outs), Regions(ins, inputs), ZeroPads(pads);
      assert cells + given + Regions(pads, zeros) == [] + cells + (given + Regions(pads, zeros));
      ghost var buffers := HandOver(mem, outs, effect.outputs, before, [], given + Regions(pads, zeros));
      ghost var full := FullCells(outs, buffers);
      assert [] + full + (given + Regions(pads, zeros)) == full + given + Regions(pads, zeros);
      FillPads(mem, pads, zeros, effect.filled, before, full + given);
      ghost var filled := Regions(pads, effect.filled);
      assert full + given + filled == full + (given + filled);
      var copies := TakeAll(mem, outs, buffers, effect.outputs, before, given + filled);
      if effect.status != 0 {
        return Threw(effect.status);
      }
      assert given + filled == given + filled + [];
      var contents := ReadAll(mem, pads, effect.filled, before, given, []);
      r := match read(copies, contents) { case None => ReadThrew case Some(t) => Gave(t) };
    }

    /**
     * Runs the export, copies every output out and frees everything. Whatever the status, and whether
     * the reader throws or not, memory is what it was; only a trap leaves something: the output cells.
     */
    method Finish<T>(mem: Linear, core: seq<Bytes> -> Effect, read: (seq<Bytes>, seq<Bytes>) -> Option<T>)
      returns (r: Ending<T>)
      requires Built(mem) && Fitting(core(inputs), |outs|, pads)
      modifies mem
      ensures mem.Valid() && r == EndingOf(core(inputs), read)
      ensures if r.Trapped? then Owing(mem.live, before, EmptyCells(outs)) else mem.live == before
    {
      hide Owing;
      ghost var cells, given, zeros := EmptyCells(outs), Regions(ins, inputs), ZeroPads(pads);
      var seen := ReadAll(mem, ins, inputs, before, cells, Regions(pads, zeros));
      var effect := core(seen);
      if effect.Trap? {
        FreeRest(mem, zeros, cells);
        return Trapped;
      }
      r := TakeAndRead(mem, effect, read);
      ghost var filled := Regions(pads, effect.filled);
      assert given + filled == [] + given + filled;
      FreeRest(mem, effect.filled, []);
      OwingNothing(mem.live, before);
    }
  }

  // A whole call

  ghost predicate Answers(effect: Effect, t: Tally) {
    effect.Done? ==>
      && |effect.outputs| == t.outs && |effect.filled| == |t.pads|
      && forall i :: 0 <= i < |effect.filled| ==> |effect.filled[i]| == t.pads[i]
  }

  /** Cells left by a trap are there: none only when the call had none. */
  lemma CellsLeft(live: Live, before: Live, outs: seq<nat>)
    requires Owing(live, before, EmptyCells(outs))
    ensures live == before <==> outs == []
  {
    if outs != [] {
      Overwritten(EmptyCells(outs), 0, Cell(0, 0));
    }
  }

  /** Pushes every argument; stops at the first that cannot be pushed, with what it reserved still live. */
  method Build(mem: Linear, args: seq<Arg>) returns (call: Call, stop: Option<Stop>)
    requires mem.Valid()
    modifies mem
    ensures mem.Valid() && fresh(call)
    ensures match HaltOf(mem.grants, old(mem.asked), args) {
              case Some(h) =>
                && stop == Some(h.why) && |mem.live| == |old(mem.live)| + h.reserved
                && (h.reserved == 0 ==> mem.live == old(mem.live))
              case None =>
                stop == None && call.Built(mem) && call.before == old(mem.live) && call.Tallied(TallyOf(args))
            }
  {
    hide Owing, Plus, Call.Built, Call.Tallied, StopOf, HaltOf;
    call := new Call(mem);
    StartTally(call);
    NoHalt(mem.grants, mem.asked);
    stop := None;
    for i := 0 to |args|
      invariant mem.Valid() && fresh(call) && call.Built(mem) && call.before == old(mem.live) && call.Tallied(TallyOf(args[..i]))
      invariant HaltOf(mem.grants, old(mem.asked), args[..i]).None? && stop == None
      invariant |mem.live| == |old(mem.live)| + TallyOf(args[..i]).room && mem.asked == old(mem.asked) + TallyOf(args[..i]).room
      invariant TallyOf(args[..i]).room == 0 ==> mem.live == old(mem.live)
    {
      TallyStep(args, i);
      HaltStep(mem.grants, old(mem.asked), args, i);
      RoomStep(TallyOf(args[..i]), args[i]);
      stop := call.Push(mem, args[i], TallyOf(args[..i]));
      if stop.Some? {
        HaltStays(mem.grants, old(mem.asked), args, i + 1);
        return;
      }
    }
    assert args[..|args|] == args;
  }

  lemma NoHalt(grants: (nat, nat) -> bool, asked: nat)
    ensures HaltOf(grants, asked, []) == None
  {
  }

  lemma RoomStep(t: Tally, arg: Arg)
    ensures t.room <= Plus(t, arg).room <= t.room + 1
  {
  }

  lemma StartTally(call: Call)
    requires call.inputs == [] && call.outs == [] && call.pads == []
    ensures call.Tallied(TallyOf([]))
  {
  }

  /**
   * A call with any inputs, outputs and pads, any status and any allocator. Memory afterwards is what it
   * was before, unless building stopped with something already reserved, or the export trapped with an
   * output cell.
   */
  method RunCall<T>(mem: Linear, args: seq<Arg>, core: seq<Bytes> -> Effect, read: (seq<Bytes>, seq<Bytes>) -> Option<T>)
    returns (r: Ending<T>)
    requires mem.Valid() && Answers(core(TallyOf(args).inputs), TallyOf(args))
    modifies mem
    ensures mem.Valid()
    ensures match HaltOf(mem.grants, old(mem.asked), args) {
              case Some(h) => r == Unbuilt(h.why) && (mem.live == old(mem.live) <==> h.reserved == 0)
              case None =>
                && r == EndingOf(core(TallyOf(args).inputs), read)
                && (mem.live == old(mem.live) <==> (r.Trapped? ==> TallyOf(args).outs == 0))
            }
    ensures HaltOf(mem.grants, old(mem.asked), args).None? ==>
              var effect := core(TallyOf(args).inputs);
              if effect.Trap? then r == Trapped
              else if effect.status != 0 then r == Threw(effect.status)
              else if read(effect.outputs, effect.filled).None? then r == ReadThrew
              else r == Gave(read(effect.outputs, effect.filled).value)
  {
    hide Owing, TallyOf, HaltOf;
    var call, stop := Build(mem, args);
    if stop.Some? {
      return Unbuilt(stop.value);
    }
    r := call.Finish(mem, core, read);
    if r.Trapped? {
      CellsLeft(mem.live, old(mem.live), call.outs);
    }
  }
}
