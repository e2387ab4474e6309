/** The codec's two objects, its varint loops, and the field walk every parser shares. */
module Wire {
  import opened Basics
  import opened Codec

  /** Folds the fields of a message into an accumulator, stopping at the first fault. */
  function Fold<A>(step: (A, Field) -> Result<A, Fault>, fs: seq<Field>, acc: A): Result<A, Fault> {
    if fs == [] then Ok(acc)
    else
      match step(acc, fs[0])
      case Err(e) => Err(e)
      case Ok(next) => Fold(step, fs[1..], next)
  }

  /** What a reader's error is to its caller: the message's own fault, but for an overrun. */
  function FaultOf(e: ReadError, bad: Fault): Fault {
    if e == Overran then Trap else bad
  }

  /** A whole message: a field's own fault comes first, an unreadable message is `bad`. */
  function Parse<A>(step: (A, Field) -> Result<A, Fault>, data: Bytes, acc: A, bad: Fault): Result<A, Fault> {
    ParseFrom(step, data, |data|, acc, bad)
  }

  /** The same of what is left of a message of `total` bytes. */
  function ParseFrom<A>(step: (A, Field) -> Result<A, Fault>, data: Bytes, total: nat, acc: A, bad: Fault): Result<A, Fault>
    requires |data| <= total
  {
    var scan := ScanFrom(data, total);
    match Fold(step, scan.fields, acc)
    case Err(e) => Err(e)
    case Ok(a) => match scan.stopped { case Some(e) => Err(FaultOf(e, bad)) case None => Ok(a) }
  }

  lemma ParsesWrittenFields<A>(step: (A, Field) -> Result<A, Fault>, fs: seq<Field>, acc: A, bad: Fault)
    requires forall f :: f in fs ==> Writable(f)
    ensures Parse(step, EncodeAll(fs), acc, bad) == Fold(step, fs, acc)
  {
    ScansWrittenFields(fs);
  }

  lemma {:induction false} FoldSplits<A>(step: (A, Field) -> Result<A, Fault>, a: seq<Field>, b: seq<Field>, acc: A)
    ensures Fold(step, a + b, acc) ==
            match Fold(step, a, acc) { case Err(e) => Err(e) case Ok(mid) => Fold(step, b, mid) }
  {
    if a == [] {
      assert a + b == b;
    } else {
      assert (a + b)[1..] == a[1..] + b;
      if step(acc, a[0]).Ok? {
        FoldSplits(step, a[1..], b, step(acc, a[0]).value);
      }
    }
  }

  /** One field off the front of a fold. */
  lemma FoldFront<A>(step: (A, Field) -> Result<A, Fault>, fs: seq<Field>, acc: A)
    requires fs != []
    ensures Fold(step, fs, acc) ==
            match step(acc, fs[0]) { case Err(e) => Err(e) case Ok(next) => Fold(step, fs[1..], next) }
  {
  }

  lemma FoldNone<A>(step: (A, Field) -> Result<A, Fault>, acc: A)
    ensures Fold(step, [], acc) == Ok(acc)
  {
  }

  // Reading

  /** A shift to the left by whole groups of seven bits, without a word size. */
  function Shift(v: nat, shift: nat): nat
    requires shift % 7 == 0 && shift <= 63
  {
    if shift == 0 then v
    else if shift == 7 then 0x80 * v
    else if shift == 14 then 0x4000 * v
    else if shift == 21 then 0x20_0000 * v
    else if shift == 28 then 0x1000_0000 * v
    else if shift == 35 then 0x8_0000_0000 * v
    else if shift == 42 then 0x400_0000_0000 * v
    else if shift == 49 then 0x2_0000_0000_0000 * v
    else if shift == 56 then 0x100_0000_0000_0000 * v
    else 0x8000_0000_0000_0000 * v
  }

  /** The same in a 64-bit word: what passes the top falls off. */
  function Shifted(v: nat, shift: nat): U64
    requires shift % 7 == 0 && shift <= 63
  {
    Shift(v, shift) % U64_LIMIT
  }

  lemma ShiftByGroups(v: nat, group: nat, shift: nat)
    requires shift % 7 == 0 && shift < 63 && group < 128
    ensures Shift(group + 128 * v, shift) == Shift(group, shift) + Shift(v, shift + 7)
    ensures Shifted(group, shift) == Shift(group, shift)
  {
  }

  lemma TopGroup(group: nat)
    ensures Shifted(group, 63) == Shift(group % 2, 63)
  {
    DropsMultiples(group / 2, 0x8000_0000_0000_0000 * (group % 2));
  }

  lemma DropsMultiples(q: nat, r: U64)
    ensures (q * U64_LIMIT + r) % U64_LIMIT == r
  {
  }

  /** What a varint is worth when `k` groups worth `value` have been read and `data` is left. */
  ghost function Resume(data: Bytes, k: nat, value: nat): Read<nat>
    requires k <= 9
  {
    match ReadVarint(data, k)
    case Stop(e) => Stop(e)
    case Got(v, rest) => Got(value + Shift(v, 7 * k), rest)
  }

  lemma ResumeLast(data: Bytes, k: nat, value: nat)
    requires k <= 9 && data != [] && data[0] < 128
    ensures Resume(data, k, value) == Got(value + Shifted(data[0] % 128, 7 * k), data[1..])
  {
    if k < 9 {
      ShiftByGroups(0, data[0], 7 * k);
    } else {
      TopGroup(data[0]);
    }
  }

  lemma ResumeStart(data: Bytes)
    ensures Resume(data, 0, 0) == ReadVarint(data, 0)
  {
  }

  lemma ResumeEmpty(k: nat, value: nat)
    requires k <= 9
    ensures Resume([], k, value) == Stop(Truncated)
  {
  }

  lemma ResumeOverflow(data: Bytes, value: nat)
    requires data != [] && data[0] >= 128
    ensures Resume(data, 9, value) == Stop(Overflow)
  {
  }

  lemma ResumeNext(data: Bytes, k: nat, value: nat)
    requires k < 9 && data != [] && data[0] >= 128
    ensures Resume(data, k, value) == Resume(data[1..], k + 1, value + Shifted(data[0] % 128, 7 * k))
  {
    match ReadVarint(data[1..], k + 1) {
      case Stop(_) =>
      case Got(v, _) =>
        ShiftByGroups(v, data[0] % 128, 7 * k);
    }
  }

  class Reader {
    const data: Bytes
    var at: nat

    constructor (data: Bytes)
      ensures this.data == data && at == 0
    {
      this.data := data;
      at := 0;
    }

    ghost predicate Valid()
      reads this
    {
      at <= |data|
    }

    /** The bytes still to read. */
    ghost function Rest(): Bytes
      reads this
      requires Valid()
    {
      data[at..]
    }

    method Groups() returns (r: Result<nat, ReadError>)
      requires Valid()
      modifies this`at
      ensures Valid()
      ensures match ReadVarint(old(Rest()), 0) {
                case Got(v, rest) => r == Ok(v) && Rest() == rest
                case Stop(e) => r == Err(e)
              }
    {
      hide ReadVarint, Resume, Shifted, Shift;
      ResumeStart(Rest());
      var value, shift := 0, 0;
      ghost var k, tail, goal := 0, Rest(), ReadVarint(Rest(), 0);
      assert goal == Resume(tail, 0, 0);
      while at < |data|
        invariant at <= |data| && k <= 9 && shift == 7 * k && value >= 0
        invariant tail == data[at..] && goal == Resume(tail, k, value)
      {
        var b := data[at];
        ghost var before, so := tail, value;
        at := at + 1;
        tail := tail[1..];
        assert tail == data[at..];
        // The value so far lies below `shift`, so adding the shifted group is the bitwise union.
        value := value + Shifted(b % 128, shift);
        if b < 128 {
          ResumeLast(before, k, so);
          assert goal == Got(value, tail);
          return Ok(value);
        }
        if shift >= 63 {
          ResumeOverflow(before, so);
          return Err(Overflow);
        }
        ResumeNext(before, k, so);
        shift := shift + 7;
        k := k + 1;
      }
      ResumeEmpty(k, value);
      return Err(Truncated);
    }

    method NextVarint() returns (r: Result<U64, ReadError>)
      requires Valid()
      modifies this`at
      ensures Valid()
      ensures match ReadU64(old(Rest())) {
                case Got(v, rest) => r == Ok(v) && Rest() == rest
                case Stop(e) => r == Err(e)
              }
    {
      RoomIsSixtyFourBits();
      ReadVarintFits(Rest(), 0);
      var v :- Groups();
      return Ok(v);
    }

    method NextValue(number: U32, kind: Kind) returns (r: Result<Field, ReadError>)
      requires Valid()
      modifies this`at
      ensures Valid()
      ensures match ReadValue(number, kind, old(Rest()), |data|) {
                case Got(f, rest) => r == Ok(f) && Rest() == rest
                case Stop(e) => r == Err(e)
              }
    {
      match kind {
        case Uint =>
          var v :- NextVarint();
          return Ok(UintField(number, v));
        case Word64 =>
          if at + 8 > |data| {
            return Err(Truncated);
          }
          var word := Take(8);
          return Ok(Word64Field(number, Word(word)));
        case Word32 =>
          if at + 4 > |data| {
            return Err(Truncated);
          }
          var word := Take(4);
          return Ok(Word32Field(number, Word(word)));
        case Blob =>
          var n :- NextVarint();
          if at + n > |data| {
            return Err(if at + n >= U64_LIMIT then Overran else Truncated);
          }
          var slice := Take(n);
          return Ok(BytesField(number, slice));
      }
    }

    method Take(n: nat) returns (slice: Bytes)
      requires Valid() && at + n <= |data|
      modifies this`at
      ensures Valid()
      ensures slice == old(Rest())[..n] && Rest() == old(Rest())[n..]
    {
      slice := data[at..at + n];
      at := at + n;
    }

    /** The next field, nothing at the end, or why the bytes are not a field. */
    method Next() returns (r: Result<Option<Field>, ReadError>)
      requires Valid()
      modifies this`at
      ensures Valid()
      ensures old(Rest()) == [] ==> r == Ok(None) && Rest() == []
      ensures old(Rest()) != [] ==>
                match ReadField(old(Rest()), |data|) {
                  case Got(f, rest) => r == Ok(Some(f)) && Rest() == rest
                  case Stop(e) => r == Err(e)
                }
    {
      if at >= |data| {
        return Ok(None);
      }
      var tag :- NextVarint();
      var number := (tag / 8) % U32_LIMIT;
      var kind := KindOf(tag % 8);
      if number == 0 || kind.None? {
        return Err(BadTag);
      }
      var f :- NextValue(number, kind.value);
      return Ok(Some(f));
    }
  }

  /** The loop of every parser: read a field, apply the parser's switch to it, stop at a fault. */
  method Walk<A>(step: (A, Field) -> Result<A, Fault>, data: Bytes, start: A, bad: Fault)
    returns (r: Result<A, Fault>)
    ensures r == Parse(step, data, start, bad)
  {
    var reader := new Reader(data);
    var acc := start;
    while true
      invariant reader.Valid() && reader.data == data
      invariant ParseFrom(step, reader.Rest(), |data|, acc, bad) == Parse(step, data, start, bad)
      decreases |reader.Rest()|
    {
      ghost var rest := reader.Rest();
      var next := reader.Next();
      match next {
        case Err(e) => return Err(FaultOf(e, bad));
        case Ok(None) => return Ok(acc);
        case Ok(Some(f)) =>
          ParseOneField(step, rest, |data|, acc, bad, f, reader.Rest());
          acc :- step(acc, f);
      }
    }
  }

  lemma ParseOneField<A>(step: (A, Field) -> Result<A, Fault>, data: Bytes, total: nat, acc: A, bad: Fault, f: Field, rest: Bytes)
    requires data != [] && |data| <= total && ReadField(data, total) == Got(f, rest)
    ensures ParseFrom(step, data, total, acc, bad) ==
            match step(acc, f) { case Err(e) => Err(e) case Ok(next) => ParseFrom(step, rest, total, next, bad) }
  {
  }

  // Writing

  /** Writes the varint of `value` at the head of `out` and returns how many bytes it took. */
  method PutVarint(value: U64, out: array<Byte>) returns (n: nat)
    requires out.Length >= 10
    modifies out
    ensures n <= 10 && out[..n] == Codec.Varint(value)
  {
    RoomIsSixtyFourBits();
    var v := value;
    n := 0;
    while true
      invariant n <= 9 && 0 <= v < Room(n)
      invariant out[..n] + Codec.Varint(v) == Codec.Varint(value)
      decreases v
    {
      var low := v % 128;
      ghost var before, was := out[..n], v;
      v := v / 128;
      out[n] := if v == 0 then low else low + 128;
      assert out[..n] == before;
      assert out[..n + 1] == before + [out[n]];
      if v == 0 {
        return n + 1;
      }
      assert Codec.Varint(was) == [out[n]] + Codec.Varint(v);
      assert out[..n + 1] + Codec.Varint(v) == before + Codec.Varint(was);
      n := n + 1;
    }
  }

  class Writer {
    var buf: Bytes

    constructor ()
      ensures buf == []
    {
      buf := [];
    }

    method PutTag(number: U32, kind: Kind)
      modifies this
      ensures buf == old(buf) + Tag(number, kind)
    {
      var scratch := new Byte[10](_ => 0);
      var n := PutVarint(number * 8 + KindNumber(kind), scratch);
      buf := buf + scratch[..n];
    }

    method PutUint(number: U32, value: U64)
      modifies this
      ensures buf == old(buf) + Encode(UintField(number, value))
    {
      PutTag(number, Kind.Uint);
      var scratch := new Byte[10](_ => 0);
      var n := PutVarint(value, scratch);
      buf := buf + scratch[..n];
    }

    method PutBytes(number: U32, data: Bytes)
      requires |data| < U64_LIMIT
      modifies this
      ensures buf == old(buf) + Encode(BytesField(number, data))
    {
      PutTag(number, Kind.Blob);
      var scratch := new Byte[10](_ => 0);
      var n := PutVarint(|data|, scratch);
      buf := buf + scratch[..n] + data;
    }

    method PutWord64(number: U32, value: U64)
      modifies this
      ensures buf == old(buf) + Encode(Word64Field(number, value))
    {
      PutTag(number, Kind.Word64);
      buf := buf + Little(value, 8);
    }

    /** A zero is the default and is not written. */
    method PutUintIfSet(number: U32, value: U64)
      modifies this
      ensures buf == old(buf) + EncodeAll(UintIfSet(number, value))
    {
      if value != 0 {
        PutUint(number, value);
      }
    }
  }

  function UintIfSet(number: U32, value: U64): seq<Field> {
    if value == 0 then [] else [UintField(number, value)]
  }
}
