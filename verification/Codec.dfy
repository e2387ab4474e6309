/** The field codec of records and messages: base-128 varints and tagged fields. */
module Codec {
  import opened Basics

  /** `Overran` is the position and a length adding past the machine word, which the caller does not survive. */
  datatype ReadError = Truncated | BadTag | Overflow | Overran

  datatype Kind = Uint | Word64 | Blob | Word32

  datatype Field = Field(number: U32, kind: Kind, uintValue: U64, byteValue: Bytes) {
    function AsUint(): Option<U64> {
      if kind == Uint then Some(uintValue) else None
    }

    function AsBytes(): Option<Bytes> {
      if kind == Blob then Some(byteValue) else None
    }

    function AsWord(): Option<U64> {
      if kind == Word64 || kind == Word32 then Some(uintValue) else None
    }
  }

  function UintField(number: U32, value: U64): Field {
    Field(number, Uint, value, [])
  }

  function BytesField(number: U32, data: Bytes): Field {
    Field(number, Blob, 0, data)
  }

  function Word32Field(number: U32, value: U64): Field {
    Field(number, Word32, value, [])
  }

  function Word64Field(number: U32, value: U64): Field {
    Field(number, Word64, value, [])
  }

  // Varints

  function Varint(v: nat): (out: Bytes)
    ensures |out| > 0
  {
    if v < 128 then [v] else [v % 128 + 128] + Varint(v / 128)
  }

  /** Something read from the head of some bytes and what is left of them, or why it could not be. */
  datatype Read<+T> = Got(value: T, rest: Bytes) | Stop(error: ReadError)

  /** What the varint at the head of `data` is worth when `k` groups have already been read. */
  function ReadVarint(data: Bytes, k: nat): (r: Read<nat>)
    requires k <= 9
    ensures r.Got? ==> |r.rest| < |data|
    decreases 9 - k
  {
    if data == [] then Stop(Truncated)
    else if k == 9 then
      // The tenth group has one bit left in sixty-four; the others shift out.
      if data[0] >= 128 then Stop(Overflow) else Got(data[0] % 2, data[1..])
    else if data[0] < 128 then Got(data[0], data[1..])
    else
      match ReadVarint(data[1..], k + 1)
      case Stop(e) => Stop(e)
      case Got(v, rest) => Got(data[0] % 128 + 128 * v, rest)
  }

  lemma {:induction false} ReadVarintFits(data: Bytes, k: nat)
    requires k <= 9
    ensures ReadVarint(data, k).Got? ==> ReadVarint(data, k).value < Room(k)
    decreases 9 - k
  {
    if data != [] && k < 9 {
      RoomAtLeast(k);
      ReadVarintFits(data[1..], k + 1);
    }
  }

  /** How many values fit above the `k` low groups of a 64-bit varint. */
  ghost function Room(k: nat): nat
    requires k <= 9
    decreases 9 - k
  {
    if k == 9 then 2 else 128 * Room(k + 1)
  }

  lemma {:induction false} RoomAtLeast(k: nat)
    requires k < 9
    ensures Room(k) >= 128
    decreases 9 - k
  {
    if k < 8 {
      RoomAtLeast(k + 1);
    }
  }

  lemma RoomIsSixtyFourBits()
    ensures Room(0) == U64_LIMIT
  {
  }

  lemma {:induction false} ReadsWrittenVarint(v: nat, k: nat, rest: Bytes)
    requires k <= 9 && v < Room(k)
    ensures ReadVarint(Varint(v) + rest, k) == Got(v, rest)
    decreases v
  {
    if v >= 128 {
      assert (Varint(v) + rest)[1..] == Varint(v / 128) + rest;
      ReadsWrittenVarint(v / 128, k + 1, rest);
    }
  }

  function ReadU64(data: Bytes): (r: Read<U64>)
    ensures r.Got? ==> |r.rest| < |data|
  {
    RoomIsSixtyFourBits();
    ReadVarintFits(data, 0);
    match ReadVarint(data, 0)
    case Stop(e) => Stop(e)
    case Got(v, rest) => Got(v, rest)
  }

  lemma ReadsWrittenU64(v: U64, rest: Bytes)
    ensures ReadU64(Varint(v) + rest) == Got(v, rest)
  {
    RoomIsSixtyFourBits();
    ReadsWrittenVarint(v, 0, rest);
  }

  // Fixed words, little-endian

  function Little(v: nat, n: nat): (out: Bytes)
    ensures |out| == n
  {
    if n == 0 then [] else [v % 256] + Little(v / 256, n - 1)
  }

  function FromLittle(data: Bytes): nat {
    if data == [] then 0 else data[0] + 256 * FromLittle(data[1..])
  }

  ghost function Pow256(n: nat): nat {
    if n == 0 then 1 else 256 * Pow256(n - 1)
  }

  lemma {:induction false} LittleRoundTrip(v: nat, n: nat)
    requires v < Pow256(n)
    ensures FromLittle(Little(v, n)) == v
  {
    if n > 0 {
      LittleRoundTrip(v / 256, n - 1);
    }
  }

  lemma {:induction false} FromLittleFits(data: Bytes)
    ensures FromLittle(data) < Pow256(|data|)
  {
    if data != [] {
      FromLittleFits(data[1..]);
    }
  }

  lemma {:induction false} Pow256Grows(n: nat)
    requires n <= 8
    ensures Pow256(n) <= U64_LIMIT
    decreases 8 - n
  {
    if n < 8 {
      Pow256Grows(n + 1);
    }
  }

  lemma FromLittleBound(data: Bytes)
    requires |data| <= 8
    ensures FromLittle(data) < U64_LIMIT
  {
    FromLittleFits(data);
    Pow256Grows(|data|);
  }

  lemma PowerValues()
    ensures Pow256(8) == U64_LIMIT && Pow256(4) == U32_LIMIT
  {
  }

  // Fields

  function KindNumber(k: Kind): nat {
    match k
    case Uint => 0
    case Word64 => 1
    case Blob => 2
    case Word32 => 5
  }

  function KindOf(n: nat): Option<Kind> {
    if n == 0 then Some(Uint)
    else if n == 1 then Some(Word64)
    else if n == 2 then Some(Blob)
    else if n == 5 then Some(Word32)
    else None
  }

  /** The value that follows a tag in a message of `total` bytes, and the bytes after it. */
  function ReadValue(number: U32, kind: Kind, data: Bytes, total: nat): (r: Read<Field>)
    requires |data| <= total
    ensures r.Got? ==> |r.rest| <= |data|
  {
    match kind
    case Uint => (
      match ReadU64(data)
      case Stop(e) => Stop(e)
      case Got(v, rest) => Got(UintField(number, v), rest))
    case Word64 =>
      if |data| < 8 then Stop(Truncated) else Got(Word64Field(number, Word(data[..8])), data[8..])
    case Word32 =>
      if |data| < 4 then Stop(Truncated) else Got(Word32Field(number, Word(data[..4])), data[4..])
    case Blob => (
      match ReadU64(data)
      case Stop(e) => Stop(e)
      case Got(n, rest) =>
        if |rest| < n then Stop(if total - |rest| + n >= U64_LIMIT then Overran else Truncated)
        else Got(BytesField(number, rest[..n]), rest[n..]))
  }

  /** A little-endian word of at most eight bytes. */
  function Word(data: Bytes): (v: U64)
    requires |data| <= 8
  {
    FromLittleBound(data);
    FromLittle(data)
  }

  function ReadField(data: Bytes, total: nat): (r: Read<Field>)
    requires data != [] && |data| <= total
    ensures r.Got? ==> |r.rest| < |data|
  {
    match ReadU64(data)
    case Stop(e) => Stop(e)
    case Got(tag, rest) => ReadTagged((tag / 8) % U32_LIMIT, KindOf(tag % 8), rest, total)
  }

  function ReadTagged(number: U32, kind: Option<Kind>, rest: Bytes, total: nat): (r: Read<Field>)
    requires |rest| <= total
    ensures r.Got? ==> |r.rest| <= |rest|
  {
    if number == 0 || kind.None? then Stop(BadTag) else ReadValue(number, kind.value, rest, total)
  }

  /** Every field of a message up to its end or to the first thing that is not a field. */
  datatype Scan = Scan(fields: seq<Field>, stopped: Option<ReadError>)

  function ScanOf(data: Bytes): Scan {
    ScanFrom(data, |data|)
  }

  /** The same of what is left of a message of `total` bytes. */
  function ScanFrom(data: Bytes, total: nat): Scan
    requires |data| <= total
    decreases |data|
  {
    if data == [] then Scan([], None)
    else
      match ReadField(data, total)
      case Stop(e) => Scan([], Some(e))
      case Got(f, rest) =>
        var s := ScanFrom(rest, total);
        Scan([f] + s.fields, s.stopped)
  }

  /** What is left where the scan stops. */
  function StopsAt(data: Bytes, total: nat): (left: Bytes)
    requires |data| <= total
    ensures |left| <= |data|
    decreases |data|
  {
    if data == [] then []
    else match ReadField(data, total) { case Stop(_) => data case Got(_, rest) => StopsAt(rest, total) }
  }

  /** A byte field begins here whose length, added to where its bytes begin, passes the machine word and the end. */
  predicate RunsOver(data: Bytes, total: nat)
    requires |data| <= total
  {
    match ReadU64(data)
    case Stop(_) => false
    case Got(tag, after) =>
      && (tag / 8) % U32_LIMIT != 0 && KindOf(tag % 8) == Some(Blob)
      && match ReadU64(after) {
           case Stop(_) => false
           case Got(n, rest) => |rest| < n && total - |rest| + n >= U64_LIMIT
         }
  }

  /** A message overruns exactly when its scan stops at such a field. */
  lemma {:induction false} OverrunsIff(data: Bytes, total: nat)
    requires |data| <= total
    ensures ScanFrom(data, total).stopped == Some(Overran) <==>
            StopsAt(data, total) != [] && RunsOver(StopsAt(data, total), total)
    decreases |data|
  {
    if data != [] {
      FieldOverrunsIff(data, total);
      match ReadField(data, total) {
        case Stop(_) =>
        case Got(_, rest) => OverrunsIff(rest, total);
      }
    }
  }

  lemma FieldOverrunsIff(data: Bytes, total: nat)
    requires data != [] && |data| <= total
    ensures ReadField(data, total) == Stop(Overran) <==> RunsOver(data, total)
  {
    VarintsNeverOverrun(data, 0);
    if ReadU64(data).Got? {
      VarintsNeverOverrun(ReadU64(data).rest, 0);
    }
  }

  lemma {:induction false} VarintsNeverOverrun(data: Bytes, k: nat)
    requires k <= 9
    ensures ReadVarint(data, k) != Stop(Overran)
    decreases 9 - k
  {
    if data != [] && k < 9 {
      VarintsNeverOverrun(data[1..], k + 1);
    }
  }

  /** The longest length there is, with nothing after it, does it. */
  lemma LongestLengthOverruns(number: U32)
    requires number != 0
    ensures ScanOf(Tag(number, Blob) + Varint(U64_LIMIT - 1)).stopped == Some(Overran)
  {
    hide Varint, ReadU64;
    var length: U64 := U64_LIMIT - 1;
    var data := Tag(number, Blob) + Varint(length);
    TagSplits(number, Blob);
    ReadsWrittenU64(number * 8 + KindNumber(Blob), Varint(length));
    assert Varint(length) + [] == Varint(length);
    ReadsWrittenU64(length, []);
    FieldOverrunsIff(data, |data|);
  }

  // Writing

  function Tag(number: U32, kind: Kind): Bytes {
    Varint(number * 8 + KindNumber(kind))
  }

  /** The bytes that follow a field's tag; the writer itself has no 32-bit word form. */
  function Body(f: Field): Bytes {
    match f.kind
    case Uint => Varint(f.uintValue)
    case Word64 => Little(f.uintValue, 8)
    case Blob => Varint(|f.byteValue|) + f.byteValue
    case Word32 => Little(f.uintValue, 4)
  }

  function Encode(f: Field): (out: Bytes)
    ensures out != []
  {
    Tag(f.number, f.kind) + Body(f)
  }

  function EncodeAll(fs: seq<Field>): Bytes {
    if fs == [] then [] else Encode(fs[0]) + EncodeAll(fs[1..])
  }

  /** A field as a writer builds it: numbered, and with the unused half left at its default. */
  predicate Writable(f: Field) {
    && f.number != 0
    && |f.byteValue| < U64_LIMIT
    && match f.kind {
      case Uint => f.byteValue == []
      case Word64 => f.byteValue == []
      case Blob => f.uintValue == 0
      case Word32 => f.byteValue == [] && f.uintValue < U32_LIMIT
    }
  }

  lemma ReadsWrittenBody(f: Field, rest: Bytes, total: nat)
    requires Writable(f)
    requires |Body(f) + rest| <= total
    ensures ReadValue(f.number, f.kind, Body(f) + rest, total) == Got(f, rest)
  {
    PowerValues();
    var data := Body(f) + rest;
    match f.kind {
      case Uint =>
        ReadsWrittenU64(f.uintValue, rest);
      case Word64 =>
        LittleRoundTrip(f.uintValue, 8);
      case Word32 =>
        LittleRoundTrip(f.uintValue, 4);
      case Blob =>
        var n, tail := |f.byteValue|, f.byteValue + rest;
        assert data == Varint(n) + tail;
        ReadsWrittenU64(n, tail);
    }
  }

  lemma TagSplits(number: U32, kind: Kind)
    ensures var tag := number * 8 + KindNumber(kind);
            (tag / 8) % U32_LIMIT == number && KindOf(tag % 8) == Some(kind)
  {
  }

  lemma ReadsWrittenField(f: Field, rest: Bytes, total: nat)
    requires Writable(f) && |Encode(f) + rest| <= total
    ensures ReadField(Encode(f) + rest, total) == Got(f, rest)
  {
    var tag := f.number * 8 + KindNumber(f.kind);
    var tail := Body(f) + rest;
    assert Encode(f) + rest == Varint(tag) + tail;
    ReadsWrittenU64(tag, tail);
    TagSplits(f.number, f.kind);
    ReadsWrittenBody(f, rest, total);
  }

  /** Reading a written message gives back its fields, each one exactly, and nothing else. */
  lemma ScansWrittenFields(fs: seq<Field>)
    requires forall f :: f in fs ==> Writable(f)
    ensures ScanOf(EncodeAll(fs)) == Scan(fs, None)
  {
    ScansTheRest(fs, |EncodeAll(fs)|);
  }

  lemma {:induction false} ScansTheRest(fs: seq<Field>, total: nat)
    requires (forall f :: f in fs ==> Writable(f)) && |EncodeAll(fs)| <= total
    ensures ScanFrom(EncodeAll(fs), total) == Scan(fs, None)
  {
    if fs != [] {
      var head, tail := fs[0], EncodeAll(fs[1..]);
      ReadsWrittenField(head, tail, total);
      ScansTheRest(fs[1..], total);
    }
  }

  lemma {:induction false} EncodeAllSplits(a: seq<Field>, b: seq<Field>)
    ensures EncodeAll(a + b) == EncodeAll(a) + EncodeAll(b)
  {
    if a == [] {
      assert a + b == b;
    } else {
      assert (a + b)[1..] == a[1..] + b;
      EncodeAllSplits(a[1..], b);
    }
  }

  // Lengths

  lemma {:induction false} VarintLength(v: nat, n: nat)
    requires 1 <= n && v < Exp128(n)
    ensures |Varint(v)| <= n
    decreases n
  {
    if v >= 128 {
      VarintLength(v / 128, n - 1);
    }
  }

  ghost function Exp128(n: nat): nat {
    if n == 0 then 1 else 128 * Exp128(n - 1)
  }

  lemma U64Varint(v: U64)
    ensures |Varint(v)| <= 10
  {
    VarintLength(v, 10);
  }

  lemma EncodedLength(f: Field)
    requires (f.kind == Uint || f.kind == Blob) && f.number < 0x1000 && |f.byteValue| < U64_LIMIT
    ensures |Encode(f)| <= 20 + if f.kind == Blob then |f.byteValue| else 0
  {
    U64Varint(f.uintValue);
    U64Varint(|f.byteValue|);
    U64Varint(f.number * 8);
    U64Varint(f.number * 8 + 2);
  }
}
