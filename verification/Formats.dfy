/** The bytes of every message and record, written out: what is on the wire, whoever wrote it. */
module Formats {
  import opened Basics
  import opened Codec
  import opened Wire
  import opened Suites
  import opened Chains
  import opened Records
  import opened RecordCodec
  import opened Posts
  import opened Certificates
  import opened Contents
  import Cipher

  // Numbers

  /** Seven bits to a byte, the lowest first, all but the last with the top bit set. */
  function Groups(v: U32): (out: Bytes)
    ensures 1 <= |out| <= 5
  {
    if v < 0x80 then [v]
    else if v < 0x4000 then [v % 128 + 128, v / 0x80]
    else if v < 0x20_0000 then [v % 128 + 128, v / 0x80 % 128 + 128, v / 0x4000]
    else if v < 0x1000_0000 then [v % 128 + 128, v / 0x80 % 128 + 128, v / 0x4000 % 128 + 128, v / 0x20_0000]
    else [v % 128 + 128, v / 0x80 % 128 + 128, v / 0x4000 % 128 + 128, v / 0x20_0000 % 128 + 128, v / 0x1000_0000]
  }

  /** The bytes of every 32-bit varint. */
  lemma VarintBytes(v: U32)
    ensures Varint(v) == Groups(v)
  {
    hide Varint;
    Sevens(v);
    VarintGroups(v, v / 0x80, v / 0x4000, v / 0x20_0000, v / 0x1000_0000);
  }

  lemma VarintGroups(v: nat, a: nat, b: nat, c: nat, d: nat)
    requires a == v / 128 && b == a / 128 && c == b / 128 && d == c / 128 && d < 128
    ensures a == 0 ==> Varint(v) == [v]
    ensures a > 0 && b == 0 ==> Varint(v) == [v % 128 + 128, a]
    ensures b > 0 && c == 0 ==> Varint(v) == [v % 128 + 128, a % 128 + 128, b]
    ensures c > 0 && d == 0 ==> Varint(v) == [v % 128 + 128, a % 128 + 128, b % 128 + 128, c]
    ensures d > 0 ==> Varint(v) == [v % 128 + 128, a % 128 + 128, b % 128 + 128, c % 128 + 128, d]
  {
    hide Varint;
    VarintFront(v);
    VarintFront(a);
    VarintFront(b);
    VarintFront(c);
    VarintFront(d);
  }

  lemma VarintFront(v: nat)
    ensures Varint(v) == if v < 128 then [v] else [v % 128 + 128] + Varint(v / 128)
  {
  }

  lemma Sevens(v: nat)
    ensures v / 0x80 / 128 == v / 0x4000 && v / 0x4000 / 128 == v / 0x20_0000 && v / 0x20_0000 / 128 == v / 0x1000_0000
    ensures v < U32_LIMIT ==> v / 0x1000_0000 < 128
  {
  }

  /** A 64-bit word's eight bytes, the lowest first. */
  function LittleEndian(v: U64): Bytes {
    [v % 256, v / 0x100 % 256, v / 0x1_0000 % 256, v / 0x100_0000 % 256, v / 0x1_0000_0000 % 256,
     v / 0x100_0000_0000 % 256, v / 0x1_0000_0000_0000 % 256, v / 0x100_0000_0000_0000 % 256]
  }

  lemma WordBytes(v: U64)
    ensures Little(v, 8) == LittleEndian(v)
  {
    Bytewise(v);
    var v1, v2, v3, v4: nat := v / 0x100, v / 0x1_0000, v / 0x100_0000, v / 0x1_0000_0000;
    var v5, v6, v7: nat := v / 0x100_0000_0000, v / 0x1_0000_0000_0000, v / 0x100_0000_0000_0000;
    assert Little(v7, 1) == [v7 % 256];
    assert Little(v6, 2) == [v6 % 256] + Little(v7, 1);
    assert Little(v5, 3) == [v5 % 256] + Little(v6, 2);
    assert Little(v4, 4) == [v4 % 256] + Little(v5, 3);
    assert Little(v3, 5) == [v3 % 256] + Little(v4, 4);
    assert Little(v2, 6) == [v2 % 256] + Little(v3, 5);
    assert Little(v1, 7) == [v1 % 256] + Little(v2, 6);
    assert Little(v, 8) == [v % 256] + Little(v1, 7);
  }

  lemma Bytewise(v: nat)
    ensures v / 0x100 / 256 == v / 0x1_0000
    ensures v / 0x1_0000 / 256 == v / 0x100_0000
    ensures v / 0x100_0000 / 256 == v / 0x1_0000_0000
    ensures v / 0x1_0000_0000 / 256 == v / 0x100_0000_0000
    ensures v / 0x100_0000_0000 / 256 == v / 0x1_0000_0000_0000
    ensures v / 0x1_0000_0000_0000 / 256 == v / 0x100_0000_0000_0000
  {
  }

  // Fields

  lemma NumberForm(number: U32, v: U32)
    requires number < 16
    ensures Encode(UintField(number, v)) == [number * 8] + Groups(v)
  {
    hide Varint;
    VarintBytes(number * 8);
    VarintBytes(v);
  }

  lemma BlobForm(number: U32, data: Bytes)
    requires number < 16 && |data| < U32_LIMIT
    ensures Encode(BytesField(number, data)) == [number * 8 + 2] + Groups(|data|) + data
  {
    hide Varint;
    VarintBytes(number * 8 + 2);
    VarintBytes(|data|);
  }

  lemma WordForm(number: U32, v: U64)
    requires number < 16
    ensures Encode(Word64Field(number, v)) == [number * 8 + 1] + LittleEndian(v)
  {
    hide Varint, LittleEndian;
    VarintBytes(number * 8 + 1);
    WordBytes(v);
  }

  /** A number field that a zero leaves out. */
  function Unless0(tag: Byte, v: U32): Bytes {
    if v == 0 then [] else [tag] + Groups(v)
  }

  lemma OptionalForm(number: U32, v: U32)
    requires number < 16
    ensures EncodeAll(UintIfSet(number, v)) == Unless0(number * 8, v)
  {
    hide Groups;
    NumberForm(number, v);
    if v != 0 {
      EncodeOne(UintField(number, v));
    }
  }

  // Reading numbers

  /** What groups of seven bits are worth, the first the lowest. */
  function Worth(data: Bytes, n: nat): nat
    requires n <= |data|
  {
    if n == 0 then 0 else data[0] % 128 + 128 * Worth(data[1..], n - 1)
  }

  /**
   * Any varint at all, overlong ones included: up to nine groups are worth their bits; of a tenth one bit
   * counts; an eleventh is too many, and an end inside a varint is a truncation.
   */
  lemma VarintMeans(data: Bytes, n: nat)
    requires n <= 9 && n <= |data| && forall i :: 0 <= i < n ==> data[i] >= 128
    ensures |data| == n ==> ReadU64(data) == Stop(Truncated)
    ensures |data| > n && n < 9 && data[n] < 128 ==> ReadU64(data) == Got(Worth(data, n + 1), data[n + 1..])
    ensures |data| > n == 9 && data[9] < 128 ==>
              ReadU64(data) == Got(Worth(data, 9) + (if data[9] % 2 == 1 then 0x8000_0000_0000_0000 else 0), data[10..])
    ensures |data| > n == 9 && data[9] >= 128 ==> ReadU64(data) == Stop(Overflow)
  {
    hide ReadVarint, Worth, Exp;
    NinthPower();
    GroupsMean(data, n, 0);
  }

  ghost function Exp(n: nat): nat {
    if n == 0 then 1 else 128 * Exp(n - 1)
  }

  lemma {:induction false} GroupsMean(data: Bytes, n: nat, k: nat)
    requires n + k <= 9 && n <= |data| && forall i :: 0 <= i < n ==> data[i] >= 128
    ensures |data| == n ==> ReadVarint(data, k) == Stop(Truncated)
    ensures |data| > n && n + k < 9 && data[n] < 128 ==> ReadVarint(data, k) == Got(Worth(data, n + 1), data[n + 1..])
    ensures |data| > n && n + k == 9 && data[n] < 128 ==> ReadVarint(data, k) == Got(Worth(data, n) + (if data[n] % 2 == 1 then Exp(n) else 0), data[n + 1..])
    ensures |data| > n && n + k == 9 && data[n] >= 128 ==> ReadVarint(data, k) == Stop(Overflow)
    decreases n
  {
    hide ReadVarint, Worth;
    if data != [] {
      OneGroupRead(data, k);
    }
    WorthFront(data, n);
    if n == 0 {
      NoGroup(data, k);
      if data != [] {
        WorthFront(data, 1);
        WorthFront(data[1..], 0);
      }
    } else {
      GroupsMean(data[1..], n - 1, k + 1);
      if |data| > n {
        WorthFront(data, n + 1);
        assert data[1..][n - 1] == data[n] && data[1..][n..] == data[n + 1..];
      }
    }
  }

  lemma NoGroup(data: Bytes, k: nat)
    requires k <= 9
    ensures data == [] ==> ReadVarint(data, k) == Stop(Truncated)
  {
  }

  lemma WorthFront(data: Bytes, n: nat)
    requires n <= |data|
    ensures Worth(data, n) == if n == 0 then 0 else data[0] % 128 + 128 * Worth(data[1..], n - 1)
  {
  }

  lemma OneGroupRead(data: Bytes, k: nat)
    requires data != [] && k <= 9
    ensures ReadVarint(data, k) ==
            if k == 9 then if data[0] >= 128 then Stop(Overflow) else Got(data[0] % 2, data[1..])
            else if data[0] < 128 then Got(data[0], data[1..])
            else match ReadVarint(data[1..], k + 1) { case Stop(e) => Stop(e) case Got(v, rest) => Got(data[0] % 128 + 128 * v, rest) }
  {
  }

  lemma NinthPower()
    ensures Exp(9) == 0x8000_0000_0000_0000
  {
  }

  /** Field number zero and the kinds three, four, six and seven are no tags. */
  lemma TagsRefused(tag: U64, rest: Bytes)
    requires (tag / 8) % 0x1_0000_0000 == 0 || tag % 8 in {3, 4, 6, 7}
    ensures var data := Varint(tag) + rest; ReadField(data, |data|) == Stop(BadTag)
  {
    hide Varint;
    ReadsWrittenU64(tag, rest);
  }

  /** A field of kind five is a word of four bytes, the lowest first. */
  lemma WordRead(number: U32, a: Byte, b: Byte, c: Byte, d: Byte, rest: Bytes)
    requires 0 < number < 16
    ensures var data := [number * 8 + 5, a, b, c, d] + rest;
            ReadField(data, |data|) == Got(Word32Field(number, a + 0x100 * b + 0x1_0000 * c + 0x100_0000 * d), rest)
  {
    hide Varint, Groups, ReadU64, FromLittle;
    var data := [number * 8 + 5, a, b, c, d] + rest;
    VarintBytes(number * 8 + 5);
    OneGroup(number * 8 + 5);
    assert data == Varint(number * 8 + 5) + ([a, b, c, d] + rest);
    ReadsWrittenU64(number * 8 + 5, [a, b, c, d] + rest);
    FourBytes(a, b, c, d);
    assert ([a, b, c, d] + rest)[..4] == [a, b, c, d] && ([a, b, c, d] + rest)[4..] == rest;
  }

  lemma FourBytes(a: Byte, b: Byte, c: Byte, d: Byte)
    ensures FromLittle([a, b, c, d]) == a + 0x100 * b + 0x1_0000 * c + 0x100_0000 * d
  {
    assert FromLittle([d]) == d + 256 * FromLittle([]);
    assert FromLittle([c, d]) == c + 256 * FromLittle([d]);
    assert FromLittle([b, c, d]) == b + 256 * FromLittle([c, d]);
  }

  // Group messages

  /** An announcement, byte by byte: the version nibbles, then id, chain, step, seed and key. */
  lemma AnnounceForm(circleId: Bytes16, chainId: U32, step: U32, seed: Bytes32, key: Public)
    ensures AnnounceBytes(3, circleId, chainId, step, seed, key) ==
            [0x33] + ([0x0A, 16] + circleId) + ([0x10] + Groups(chainId)) + ([0x18] + Groups(step)) + ([0x22, 32] + seed) +
            ([0x2A, 33, 5] + key.u)
  {
    hide Encode, EncodeAll, Groups;
    EncodeFive(BytesField(1, circleId), UintField(2, chainId), UintField(3, step), BytesField(4, seed), BytesField(5, SerializePublic(key)));
    NumberForm(2, chainId);
    NumberForm(3, step);
    FixedForms(circleId, seed, key);
    Unbracket([0x33], [0x0A, 16] + circleId, [0x10] + Groups(chainId), [0x18] + Groups(step), [0x22, 32] + seed, [0x2A, 33, 5] + key.u);
  }

  /** The same of small numbers, without the brackets. */
  lemma SmallAnnounceForm(circleId: Bytes16, chainId: U32, step: U32, seed: Bytes32, key: Public)
    requires chainId < 128 && step < 128
    ensures AnnounceBytes(3, circleId, chainId, step, seed, key) ==
            [0x33, 0x0A, 16] + circleId + [0x10, chainId, 0x18, step, 0x22, 32] + seed + [0x2A, 33, 5] + key.u
  {
    hide AnnounceBytes;
    AnnounceForm(circleId, chainId, step, seed, key);
    SmallNumbers(circleId, chainId, step, [0x22, 32] + seed);
    var head, tail := [0x33, 0x0A, 16] + circleId + [0x10, chainId, 0x18, step], [0x2A, 33, 5] + key.u;
    assert head + ([0x22, 32] + seed) == [0x33, 0x0A, 16] + circleId + [0x10, chainId, 0x18, step, 0x22, 32] + seed by {
      assert head + [0x22, 32] == [0x33, 0x0A, 16] + circleId + [0x10, chainId, 0x18, step, 0x22, 32];
    }
    assert head + ([0x22, 32] + seed) + tail == head + ([0x22, 32] + seed) + [0x2A, 33, 5] + key.u;
  }

  /** The same of a note of small numbers and a short body. */
  lemma SmallNoteForm(circleId: Bytes16, chainId: U32, step: U32, body: Bytes)
    requires chainId < 128 && step < 128 && |body| < 128
    ensures NoteContent(3, circleId, chainId, step, body) ==
            [0x33, 0x0A, 16] + circleId + [0x10, chainId, 0x18, step, 0x22, |body|] + body
  {
    hide NoteContent;
    NoteForm(circleId, chainId, step, body);
    SmallNumbers(circleId, chainId, step, [0x22, |body|] + body);
    var head := [0x33, 0x0A, 16] + circleId + [0x10, chainId, 0x18, step];
    assert [0x22] + Groups(|body|) + body == [0x22, |body|] + body;
    assert head + ([0x22, |body|] + body) == [0x33, 0x0A, 16] + circleId + [0x10, chainId, 0x18, step, 0x22, |body|] + body by {
      assert head + [0x22, |body|] == [0x33, 0x0A, 16] + circleId + [0x10, chainId, 0x18, step, 0x22, |body|];
    }
  }

  lemma SmallNumbers(circleId: Bytes16, chainId: U32, step: U32, rest: Bytes)
    requires chainId < 128 && step < 128
    ensures [0x33] + ([0x0A, 16] + circleId) + ([0x10] + Groups(chainId)) + ([0x18] + Groups(step)) + rest ==
            [0x33, 0x0A, 16] + circleId + [0x10, chainId, 0x18, step] + rest
  {
    assert [0x33] + ([0x0A, 16] + circleId) + ([0x10] + Groups(chainId)) + ([0x18] + Groups(step)) ==
           [0x33, 0x0A, 16] + circleId + [0x10, chainId, 0x18, step];
  }

  lemma FixedForms(circleId: Bytes16, seed: Bytes32, key: Public)
    ensures Encode(BytesField(1, circleId)) == [0x0A, 16] + circleId
    ensures Encode(BytesField(4, seed)) == [0x22, 32] + seed
    ensures Encode(BytesField(5, SerializePublic(key))) == [0x2A, 33, 5] + key.u
  {
    hide Encode;
    BlobForm(1, circleId);
    BlobForm(4, seed);
    BlobForm(5, SerializePublic(key));
  }

  lemma Unbracket(p: Bytes, a: Bytes, b: Bytes, c: Bytes, d: Bytes, e: Bytes)
    ensures p + (a + b + c + d + e) == p + a + b + c + d + e
    ensures p + (a + b + c + d) == p + a + b + c + d
  {
    assert p + (a + b) == p + a + b;
    assert p + (a + b + c) == p + (a + b) + c;
    assert p + (a + b + c + d) == p + (a + b + c) + d;
    assert p + (a + b + c + d + e) == p + (a + b + c + d) + e;
  }

  /** The signed content of a note, byte by byte; its signature follows. */
  lemma NoteForm(circleId: Bytes16, chainId: U32, step: U32, body: Bytes)
    requires |body| < U32_LIMIT
    ensures NoteContent(3, circleId, chainId, step, body) ==
            [0x33] + ([0x0A, 16] + circleId) + ([0x10] + Groups(chainId)) + ([0x18] + Groups(step)) + ([0x22] + Groups(|body|) + body)
  {
    hide Encode, EncodeAll, Groups;
    EncodeFour(BytesField(1, circleId), UintField(2, chainId), UintField(3, step), BytesField(4, body));
    NumberForm(2, chainId);
    NumberForm(3, step);
    FixedForms(circleId, ZERO32, Public(ZERO32));
    BlobForm(4, body);
    Unbracket([0x33], [0x0A, 16] + circleId, [0x10] + Groups(chainId), [0x18] + Groups(step), [0x22] + Groups(|body|) + body, []);
  }

  /** What another version's first byte is refused as, whatever follows. */
  lemma VersionsRefused(first: Byte, rest: Bytes)
    ensures first < 0x30 ==> AnnounceOf([first] + rest) == Err(LegacyVersion)
    ensures first >= 0x40 ==> AnnounceOf([first] + rest) == Err(UnknownVersion)
    ensures |rest| >= 64 && first < 0x30 ==> NoteOf([first] + rest) == Err(LegacyVersion)
    ensures |rest| >= 64 && first >= 0x40 ==> NoteOf([first] + rest) == Err(UnknownVersion)
    ensures |rest| < 64 ==> NoteOf([first] + rest) == Err(BadMessage)
  {
  }

  // The circle record

  /** A link or a kept key: its step, unless it is zero, then its seed. */
  function StepSeed(step: U32, seed: Bytes32): (out: Bytes)
    ensures |out| < 128
  {
    Unless0(0x08, step) + [0x12, 32] + seed
  }

  function KeyPair(key: Public, secret: Option<Secret>): (out: Bytes)
    ensures |out| == if secret.None? then 35 else 69
  {
    ([0x0A, 33, 5] + key.u) + match secret { case None => [] case Some(s) => [0x12, 32] + s }
  }

  function Kept(ys: seq<Yield>): Bytes {
    if ys == [] then []
    else
      var one := StepSeed(ys[0].step, ys[0].seed);
      [0x22, |one|] + one + Kept(ys[1..])
  }

  lemma SeedForm(step: U32, seed: Bytes32)
    ensures EncodeAll(SeedFields(step, seed)) == StepSeed(step, seed)
  {
    hide Encode, EncodeAll;
    EncodeAllSplits(UintIfSet(1, step), [BytesField(2, seed)]);
    OptionalForm(1, step);
    EncodeOne(BytesField(2, seed));
    BlobForm(2, seed);
  }

  lemma KeyForm(key: Public, secret: Option<Secret>)
    ensures EncodeAll(KeyFields(key, secret)) == KeyPair(key, secret)
  {
    hide Encode, EncodeAll;
    var k: Bytes := SerializePublic(key);
    EncodeOne(BytesField(1, k));
    BlobForm(1, k);
    if secret.Some? {
      EncodeAllSplits([BytesField(1, k)], [BytesField(2, secret.value)]);
      EncodeOne(BytesField(2, secret.value));
      BlobForm(2, secret.value);
    } else {
      assert KeyFields(key, secret) == [BytesField(1, k)];
    }
  }

  lemma {:induction false} KeptForm(ys: seq<Yield>)
    ensures EncodeAll(SkippedFields(ys)) == Kept(ys)
  {
    hide Encode, SeedFields, StepSeed;
    if ys != [] {
      SeedForm(ys[0].step, ys[0].seed);
      var one := StepSeed(ys[0].step, ys[0].seed);
      BlobForm(4, one);
      KeptForm(ys[1..]);
      assert SkippedFields(ys)[1..] == SkippedFields(ys[1..]);
    }
  }

  /** A member's bytes: chain id, link, keys, kept keys, version, the zeros left out. */
  function MemberBytes(m: MemberState): Bytes {
    var link, keys := StepSeed(m.link.step, m.link.seed), KeyPair(m.signing, m.secret);
    Unless0(0x08, m.chainId) + [0x12, |link|] + link + [0x1A, |keys|] + keys + Kept(m.skipped) + Unless0(0x28, m.version)
  }

  lemma MemberForm(m: MemberState)
    ensures EncodeAll(MemberFields(m)) == MemberBytes(m)
  {
    hide Encode, EncodeAll, SeedFields, KeyFields, SkippedFields, StepSeed, KeyPair, Kept, Unless0;
    var link, keys := StepSeed(m.link.step, m.link.seed), KeyPair(m.signing, m.secret);
    EncodeAllSplits(HeadFields(m), SkippedFields(m.skipped));
    EncodeAllSplits(HeadFields(m) + SkippedFields(m.skipped), UintIfSet(5, m.version));
    EncodeHead(m);
    OptionalForm(1, m.chainId);
    SeedForm(m.link.step, m.link.seed);
    KeyForm(m.signing, m.secret);
    BlobForm(2, link);
    BlobForm(3, keys);
    KeptForm(m.skipped);
    OptionalForm(5, m.version);
  }

  /** A circle's record: each member's bytes behind their length, newest first. */
  function RecordBytes(ms: seq<MemberState>): Bytes
    requires forall m :: m in ms ==> |MemberBytes(m)| < U32_LIMIT
  {
    if ms == [] then [] else [0x0A] + Groups(|MemberBytes(ms[0])|) + MemberBytes(ms[0]) + RecordBytes(ms[1..])
  }

  lemma {:induction false} RecordForm(ms: seq<MemberState>)
    requires forall m :: m in ms ==> |MemberBytes(m)| < U32_LIMIT
    ensures CircleBytes(ms) == RecordBytes(ms)
  {
    hide Encode, EncodeAll, CircleBytes, MemberFields, MemberBytes, Groups;
    if ms == [] {
      CircleNone();
    } else {
      MemberForm(ms[0]);
      BlobForm(1, MemberBytes(ms[0]));
      RecordForm(ms[1..]);
      CircleFront(ms);
    }
  }

  lemma CircleFront(ms: seq<MemberState>)
    requires ms != []
    ensures CircleBytes(ms) == Encode(BytesField(1, EncodeAll(MemberFields(ms[0])))) + CircleBytes(ms[1..])
  {
    hide Encode, MemberFields;
    assert CircleFields(ms)[1..] == CircleFields(ms[1..]);
  }

  lemma CircleNone()
    ensures CircleBytes([]) == []
  {
  }

  /** The record of a sender's chain as another device first keeps it, at step zero, which is left out. */
  lemma JoinedRecordForm(chainId: U32, seed: Bytes32, key: Public)
    ensures var id := Unless0(0x08, chainId);
            CircleBytes([MemberState(3, chainId, Link(0, seed), key, None, [])]) ==
            [0x0A, 75 + |id|] + (id + [0x12, 34] + ([0x12, 32] + seed) + [0x1A, 35] + ([0x0A, 33, 5] + key.u) + [0x28, 3])
  {
    OneMemberForm(MemberState(3, chainId, Link(0, seed), key, None, []));
  }

  /** The record of our own chain before its first note. */
  lemma OwnRecordForm(chainId: U32, seed: Bytes32, key: Public, secret: Secret)
    ensures var id := Unless0(0x08, chainId);
            CircleBytes([MemberState(3, chainId, Link(0, seed), key, Some(secret), [])]) ==
            [0x0A, 109 + |id|] +
            (id + [0x12, 34] + ([0x12, 32] + seed) + [0x1A, 69] + ([0x0A, 33, 5] + key.u + ([0x12, 32] + secret)) + [0x28, 3])
  {
    OneMemberForm(MemberState(3, chainId, Link(0, seed), key, Some(secret), []));
  }

  lemma OneMemberForm(m: MemberState)
    requires m.version == 3 && m.skipped == [] && m.link.step == 0
    ensures var id, link, keys := Unless0(0x08, m.chainId), [0x12, 32] + m.link.seed, KeyPair(m.signing, m.secret);
            CircleBytes([m]) == [0x0A, 40 + |id| + |keys|] + (id + [0x12, 34] + link + [0x1A, |keys|] + keys + [0x28, 3])
  {
    hide Encode, CircleBytes, Groups, KeyPair, Unless0;
    SmallZeros(m.chainId);
    var id, link, keys := Unless0(0x08, m.chainId), [0x12, 32] + m.link.seed, KeyPair(m.signing, m.secret);
    assert StepSeed(0, m.link.seed) == link;
    assert MemberBytes(m) == id + [0x12, 34] + link + [0x1A, |keys|] + keys + [0x28, 3];
    OneGroup(|MemberBytes(m)|);
    RecordForm([m]);
    assert RecordBytes([m][1..]) == [];
  }

  lemma SmallZeros(chainId: U32)
    ensures Unless0(0x08, 0) == [] && Unless0(0x28, 3) == [0x28, 3] && |Unless0(0x08, chainId)| <= 6
  {
  }

  lemma OneGroup(v: U32)
    ensures v < 128 ==> Groups(v) == [v]
  {
  }

  // Sealed envelopes

  /** What the root signs of a server, and how a body and its signature travel. */
  lemma ServerForm(keyId: U32, key: Public, body: Bytes, signature: Bytes64)
    requires |body| < U32_LIMIT
    ensures EncodeAll(ServerFields(keyId, key)) == [0x08] + Groups(keyId) + ([0x12, 33, 5] + key.u)
    ensures JoinSigned(body, signature) == [0x0A] + Groups(|body|) + body + ([0x12, 64] + signature)
  {
    hide Encode, EncodeAll, Groups;
    var k: Bytes := SerializePublic(key);
    EncodeTwo(UintField(1, keyId), BytesField(2, k));
    NumberForm(1, keyId);
    BlobForm(2, k);
    OneGroup(33);
    assert [0x12] + [33] + k == [0x12, 33, 5] + key.u;
    assert 1 * 8 == 0x08;
    EncodeTwo(BytesField(1, body), BytesField(2, signature));
    BlobForm(1, body);
    BlobForm(2, signature);
    OneGroup(64);
    assert [0x12] + [64] == [0x12, 64];
  }

  lemma EncodeTwo(a: Field, b: Field)
    ensures EncodeAll([a, b]) == Encode(a) + Encode(b)
  {
    hide Encode, EncodeAll;
    EncodeAllSplits([a], [b]);
    EncodeOne(a);
    EncodeOne(b);
    assert [a] + [b] == [a, b];
  }

  /** A byte field that nothing leaves out. */
  function UnlessNone(tag: Byte, data: Option<Bytes>): Bytes
    requires data.Some? ==> |data.value| < U32_LIMIT
  {
    match data case None => [] case Some(b) => [tag] + Groups(|b|) + b
  }

  /** What a server signs of a sender: phone, device, expiry, key, the server's certificate, id. */
  lemma SenderForm(claim: Claim, server: Bytes)
    requires |server| < U32_LIMIT && |claim.id| < U32_LIMIT && (claim.phone.Some? ==> |claim.phone.value| < U32_LIMIT)
    ensures SenderBody(claim, server) ==
            UnlessNone(0x0A, claim.phone) + ([0x10] + Groups(claim.device)) + ([0x19] + LittleEndian(claim.expires)) +
            ([0x22, 33, 5] + claim.key.u) + ([0x2A] + Groups(|server|) + server) + ([0x32] + Groups(|claim.id|) + claim.id)
  {
    hide Encode, EncodeAll, Groups, LittleEndian, UnlessNone, PhoneFields;
    EncodeSender(claim, server);
    NumberForm(2, claim.device);
    WordForm(3, claim.expires);
    BlobForm(4, SerializePublic(claim.key));
    OneGroup(33);
    assert [0x22] + [33] + SerializePublic(claim.key) == [0x22, 33, 5] + claim.key.u;
    BlobForm(5, server);
    BlobForm(6, claim.id);
    PhoneForm(claim.phone);
  }

  lemma PhoneForm(phone: Option<Bytes>)
    requires phone.Some? ==> |phone.value| < U32_LIMIT
    ensures EncodeAll(PhoneFields(phone)) == UnlessNone(0x0A, phone)
  {
    hide Encode, EncodeAll, Groups;
    if phone.Some? {
      EncodeOne(BytesField(1, phone.value));
      BlobForm(1, phone.value);
    } else {
      EncodeNone();
    }
  }

  lemma GroupForm(circleId: Option<Bytes>)
    requires circleId.Some? ==> |circleId.value| < U32_LIMIT
    ensures EncodeAll(GroupFields(circleId)) == UnlessNone(0x2A, circleId)
  {
    hide Encode, EncodeAll, Groups;
    if circleId.Some? {
      EncodeOne(BytesField(5, circleId.value));
      BlobForm(5, circleId.value);
    } else {
      EncodeNone();
    }
  }

  lemma EncodeNone()
    ensures EncodeAll([]) == []
  {
  }

  /** A first message is kind 1, a whisper 2, a circle message 7, a plain one 8. */
  function KindByte(kind: MessageKind): Byte {
    match kind case First => 1 case Whisper => 2 case Circle => 7 case Plain => 8
  }

  /** The content of an envelope: kind, sender, body, then a hint unless it is the default, then a group if any. */
  lemma ContentForm(kind: MessageKind, sender: Bytes, body: Bytes, hint: Byte, circleId: Option<Bytes>)
    requires |sender| < U32_LIMIT && |body| < U32_LIMIT && (circleId.Some? ==> |circleId.value| < U32_LIMIT)
    ensures ContentBytes(kind, sender, body, hint, circleId) ==
            [0x08, KindByte(kind)] + ([0x12] + Groups(|sender|) + sender) + ([0x1A] + Groups(|body|) + body) +
            Unless0(0x20, hint) + UnlessNone(0x2A, circleId)
  {
    hide Encode, EncodeAll, Groups, Unless0, UnlessNone, ContentBytes, KindToRecord, KindByte, UintIfSet, GroupFields;
    EncodeContent(kind, sender, body, hint, circleId);
    KindForm(kind);
    BlobForm(2, sender);
    BlobForm(3, body);
    OptionalForm(4, hint);
    GroupForm(circleId);
  }

  lemma KindForm(kind: MessageKind)
    ensures Encode(UintField(1, KindToRecord(kind))) == [0x08, KindByte(kind)]
  {
    hide Encode;
    NumberForm(1, KindToRecord(kind));
  }

  // A recorded exchange

  const RECORDED_CIRCLE: Bytes16 := [
    0x00, 0x00, 0x00, 0x00, 0x11, 0x11, 0x22, 0x22, 0x33, 0x33, 0x44, 0x44, 0x44, 0x44, 0x44, 0x44]
  const RECORDED_SEED: Bytes32 :=
    [0x43, 0x3A, 0x10, 0x60, 0x2E, 0x0C, 0x81, 0x2A, 0x1B, 0x1E, 0x2B, 0xED, 0xBB, 0xAD, 0x80, 0xFB] +
    [0x76, 0x5B, 0x2D, 0x73, 0x7D, 0xF5, 0x39, 0x1E, 0xBF, 0x9C, 0xBD, 0x6E, 0x38, 0xE2, 0x22, 0xB7]
  const RECORDED_KEY: Bytes32 :=
    [0x3B, 0x13, 0xE5, 0x16, 0x2C, 0x11, 0x48, 0xDC, 0x39, 0x2C, 0xB1, 0x32, 0x50, 0xF5, 0x39, 0x95] +
    [0xBA, 0xD2, 0x75, 0x0C, 0x91, 0x9B, 0x43, 0x2B, 0x6D, 0xC8, 0xD7, 0xFB, 0x15, 0x8B, 0x11, 0x67]

  /** A recorded announcement, in the order of its bytes. */
  const RECORDED_ANNOUNCE: Bytes :=
    [0x33] + ([0x0A, 0x10] + RECORDED_CIRCLE) + [0x10, 0x8B, 0xE2, 0xF7, 0xD4, 0x05] + [0x18, 0x00] + ([0x22, 0x20] + RECORDED_SEED) +
    ([0x2A, 0x21, 0x05] + RECORDED_KEY)

  /** The record kept of it. */
  const RECORDED_RECORD: Bytes :=
    [0x0A, 0x51] + ([0x08, 0x8B, 0xE2, 0xF7, 0xD4, 0x05] + [0x12, 0x22] + ([0x12, 0x20] + RECORDED_SEED) + [0x1A, 0x23] +
                    ([0x0A, 0x21, 0x05] + RECORDED_KEY) + [0x28, 0x03])

  /** The recorded announcement means what it should, and admitted into an empty circle leaves the recorded record. */
  lemma RecordedAnnounceIsKept()
    ensures var a := AnnounceOf(RECORDED_ANNOUNCE);
            && a == Ok(Announce(3, RECORDED_CIRCLE, 1520300299, 0, RECORDED_SEED, Public(RECORDED_KEY), RECORDED_ANNOUNCE))
            && CircleBytes(Cipher.Admit([], a.value)) == RECORDED_RECORD
  {
    hide AnnounceOf, AnnounceBytes, CircleBytes;
    var chainId, key := 1520300299, Public(RECORDED_KEY);
    assert [0x10] + Groups(chainId) == [0x10, 0x8B, 0xE2, 0xF7, 0xD4, 0x05] && [0x18] + Groups(0) == [0x18, 0x00];
    AnnounceForm(RECORDED_CIRCLE, chainId, 0, RECORDED_SEED, key);
    AnnounceRoundTrip(3, RECORDED_CIRCLE, chainId, 0, RECORDED_SEED, key);
    assert Unless0(0x08, chainId) == [0x08, 0x8B, 0xE2, 0xF7, 0xD4, 0x05];
    JoinedRecordForm(chainId, RECORDED_SEED, key);
    AdmittedAlone(MemberState(3, chainId, Link(0, RECORDED_SEED), key, None, []));
  }

  lemma AdmittedAlone(m: MemberState)
    ensures Admitted([], m) == [m]
  {
  }
}
