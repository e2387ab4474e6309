/** The byte form of a circle record: nested fields, dropped zeros, an optional signing secret. */
module RecordCodec {
  import opened Basics
  import opened Codec
  import opened Wire
  import opened Suites
  import opened Chains
  import opened Records

  // Writing

  /** A link and a kept key share one form: the step when it is not zero, then the seed. */
  function SeedFields(step: U32, seed: Bytes32): seq<Field> {
    UintIfSet(1, step) + [BytesField(2, seed)]
  }

  function KeyFields(signing: Public, secret: Option<Secret>): seq<Field> {
    [BytesField(1, SerializePublic(signing))] +
    match secret { case None => [] case Some(s) => [BytesField(2, s)] }
  }

  function SkippedFields(ys: seq<Yield>): seq<Field> {
    if ys == [] then []
    else [BytesField(4, EncodeAll(SeedFields(ys[0].step, ys[0].seed)))] + SkippedFields(ys[1..])
  }

  function HeadFields(m: MemberState): seq<Field> {
    UintIfSet(1, m.chainId) +
    [BytesField(2, EncodeAll(SeedFields(m.link.step, m.link.seed)))] +
    [BytesField(3, EncodeAll(KeyFields(m.signing, m.secret)))]
  }

  function MemberFields(m: MemberState): seq<Field> {
    HeadFields(m) + SkippedFields(m.skipped) + UintIfSet(5, m.version)
  }

  function CircleFields(ms: seq<MemberState>): seq<Field> {
    if ms == [] then [] else [BytesField(1, EncodeAll(MemberFields(ms[0])))] + CircleFields(ms[1..])
  }

  function CircleBytes(ms: seq<MemberState>): Bytes {
    EncodeAll(CircleFields(ms))
  }

  // Reading

  /** A missing or mistyped number reads as zero; one too wide is a fault. */
  function NumberField(v: U32, f: Field): Result<U32, Fault> {
    match f.AsUint()
    case None => Ok(0)
    case Some(n) => if n < U32_LIMIT then Ok(n) else Err(BadSession)
  }

  function SeedField(l: Link, f: Field): Result<Link, Fault> {
    if f.number == 1 then
      var step :- NumberField(l.step, f);
      Ok(Link(step, l.seed))
    else if f.number == 2 then
      match f.AsBytes()
      case None => Ok(l)
      case Some(b) => if |b| == 32 then Ok(Link(l.step, b)) else Ok(l)
    else Ok(l)
  }

  datatype Keys = Keys(signing: Option<Public>, secret: Option<Secret>)

  function KeyField(k: Keys, f: Field): Result<Keys, Fault> {
    if f.number == 1 then
      var b :- OrFault(f.AsBytes(), BadSession);
      var key :- ParsePublic(b);
      Ok(k.(signing := Some(key)))
    else if f.number == 2 then
      match f.AsBytes()
      case None => Ok(k)
      case Some(b) =>
        if b == [] then Ok(k)
        else
          var s :- ParseSecret(b);
          Ok(k.(secret := Some(s)))
    else Ok(k)
  }

  function LinkField(l: Link, f: Field): Result<Link, Fault> {
    var b :- OrFault(f.AsBytes(), BadSession);
    Parse(SeedField, b, l, BadSession)
  }

  function KeysField(k: Keys, f: Field): Result<Keys, Fault> {
    var b :- OrFault(f.AsBytes(), BadSession);
    Parse(KeyField, b, k, BadSession)
  }

  function SkippedField(ys: seq<Yield>, f: Field): Result<seq<Yield>, Fault> {
    var b :- OrFault(f.AsBytes(), BadSession);
    var l :- Parse(SeedField, b, Link(0, ZERO32), BadSession);
    Ok(ys + [Yield(l.step, l.seed)])
  }

  datatype MemberParts = MemberParts(chainId: U32, link: Link, keys: Keys, skipped: seq<Yield>, version: U32)

  const NO_MEMBER_PARTS := MemberParts(0, Link(0, ZERO32), Keys(None, None), [], 0)

  function MemberField(p: MemberParts, f: Field): Result<MemberParts, Fault> {
    if f.number == 1 then
      var v :- NumberField(p.chainId, f);
      Ok(p.(chainId := v))
    else if f.number == 2 then
      var l :- LinkField(p.link, f);
      Ok(p.(link := l))
    else if f.number == 3 then
      var k :- KeysField(p.keys, f);
      Ok(p.(keys := k))
    else if f.number == 4 then
      var ys :- SkippedField(p.skipped, f);
      Ok(p.(skipped := ys))
    else if f.number == 5 then
      var v :- NumberField(p.version, f);
      Ok(p.(version := v))
    else Ok(p)
  }

  function MemberFrom(p: MemberParts): Result<MemberState, Fault> {
    var signing :- OrFault(p.keys.signing, BadSession);
    Ok(MemberState(p.version, p.chainId, p.link, signing, p.keys.secret, p.skipped))
  }

  function MemberOf(data: Bytes): Result<MemberState, Fault> {
    var p :- Parse(MemberField, data, NO_MEMBER_PARTS, BadSession);
    MemberFrom(p)
  }

  function CircleField(ms: seq<MemberState>, f: Field): Result<seq<MemberState>, Fault> {
    if f.number != 1 then Ok(ms)
    else
      var b :- OrFault(f.AsBytes(), BadSession);
      var m :- MemberOf(b);
      Ok(ms + [m])
  }

  function CircleOf(data: Bytes): Result<seq<MemberState>, Fault> {
    Parse(CircleField, data, [], BadSession)
  }

  // Sizes: a message that fits memory has nested messages that do

  lemma {:induction false} BlobFits(fs: seq<Field>, f: Field)
    requires f in fs && f.kind == Blob
    ensures |f.byteValue| <= |EncodeAll(fs)|
  {
    if fs[0] != f {
      BlobFits(fs[1..], f);
    }
  }

  // Round trip

  lemma SeedReadsBack(step: U32, seed: Bytes32)
    ensures Parse(SeedField, EncodeAll(SeedFields(step, seed)), Link(0, ZERO32), BadSession) == Ok(Link(step, seed))
  {
    hide Fold;
    var fs := SeedFields(step, seed);
    ParsesWrittenFields(SeedField, fs, Link(0, ZERO32), BadSession);
    var last := Link(step, ZERO32);
    assert [BytesField(2, seed)][1..] == [];
    FoldFront(SeedField, [BytesField(2, seed)], last);
    FoldNone(SeedField, Link(step, seed));
    FoldFront(SeedField, fs, Link(0, ZERO32));
  }

  lemma KeysReadBack(signing: Public, secret: Option<Secret>)
    ensures Parse(KeyField, EncodeAll(KeyFields(signing, secret)), Keys(None, None), BadSession) ==
            Ok(Keys(Some(signing), secret))
  {
    hide Fold;
    var fs := KeyFields(signing, secret);
    ParsesWrittenFields(KeyField, fs, Keys(None, None), BadSession);
    var k := Keys(Some(signing), None);
    FoldFront(KeyField, fs, Keys(None, None));
    match secret {
      case None =>
        assert fs[1..] == [];
        FoldNone(KeyField, k);
      case Some(s) =>
        assert fs[1..] == [BytesField(2, s)] && [BytesField(2, s)][1..] == [];
        SecretRoundTrip(s, ZERO32);
        FoldFront(KeyField, fs[1..], k);
        FoldNone(KeyField, Keys(Some(signing), secret));
    }
  }

  lemma HeadReadsBack(m: MemberState)
    ensures Fold(MemberField, HeadFields(m), NO_MEMBER_PARTS) ==
            Ok(MemberParts(m.chainId, m.link, Keys(Some(m.signing), m.secret), [], 0))
  {
    hide Fold, EncodeAll, Parse;
    var link := BytesField(2, EncodeAll(SeedFields(m.link.step, m.link.seed)));
    var keys := BytesField(3, EncodeAll(KeyFields(m.signing, m.secret)));
    SeedReadsBack(m.link.step, m.link.seed);
    KeysReadBack(m.signing, m.secret);
    var p1 := NO_MEMBER_PARTS.(chainId := m.chainId);
    var p2 := p1.(link := m.link);
    var p3 := p2.(keys := Keys(Some(m.signing), m.secret));
    assert [link, keys][1..] == [keys] && [keys][1..] == [];
    FoldNone(MemberField, p3);
    FoldFront(MemberField, [keys], p2);
    FoldFront(MemberField, [link, keys], p1);
    var fs := HeadFields(m);
    if m.chainId != 0 {
      assert fs[1..] == [link, keys];
      FoldFront(MemberField, fs, NO_MEMBER_PARTS);
    } else {
      assert fs == [link, keys];
    }
  }

  lemma {:induction false} SkippedReadBack(ys: seq<Yield>, p: MemberParts)
    ensures Fold(MemberField, SkippedFields(ys), p) == Ok(p.(skipped := p.skipped + ys))
  {
    hide Fold, EncodeAll, Parse;
    if ys == [] {
      FoldNone(MemberField, p);
      assert p.skipped + ys == p.skipped;
    } else {
      SeedReadsBack(ys[0].step, ys[0].seed);
      var next := p.(skipped := p.skipped + [ys[0]]);
      FoldFront(MemberField, SkippedFields(ys), p);
      SkippedReadBack(ys[1..], next);
      assert next.skipped + ys[1..] == p.skipped + ys;
    }
  }

  lemma MemberFoldsBack(m: MemberState)
    ensures Fold(MemberField, MemberFields(m), NO_MEMBER_PARTS) ==
            Ok(MemberParts(m.chainId, m.link, Keys(Some(m.signing), m.secret), m.skipped, m.version))
  {
    hide Fold, HeadFields, SkippedFields, EncodeAll, Parse;
    var head, kept, tail := HeadFields(m), SkippedFields(m.skipped), UintIfSet(5, m.version);
    var p := MemberParts(m.chainId, m.link, Keys(Some(m.signing), m.secret), [], 0);
    var q := p.(skipped := m.skipped);
    HeadReadsBack(m);
    SkippedReadBack(m.skipped, p);
    assert [] + m.skipped == m.skipped;
    FoldSplits(MemberField, head, kept, NO_MEMBER_PARTS);
    FoldSplits(MemberField, head + kept, tail, NO_MEMBER_PARTS);
    FoldNone(MemberField, q.(version := m.version));
    if m.version != 0 {
      assert tail[1..] == [];
      FoldFront(MemberField, tail, q);
    }
  }

  lemma {:induction false} SkippedAreBlobs(ys: seq<Yield>)
    ensures forall f :: f in SkippedFields(ys) ==> f.kind == Blob && f.uintValue == 0 && f.number == 4
  {
    if ys != [] {
      SkippedAreBlobs(ys[1..]);
    }
  }

  lemma MemberIsWritable(m: MemberState)
    requires |EncodeAll(MemberFields(m))| < U64_LIMIT
    ensures forall f :: f in MemberFields(m) ==> Writable(f)
  {
    hide EncodeAll, SkippedFields;
    SkippedAreBlobs(m.skipped);
    forall f | f in MemberFields(m) ensures Writable(f) {
      if f.kind == Blob {
        BlobFits(MemberFields(m), f);
      }
    }
  }

  /** A written member reads back exactly, however many keys it keeps. */
  lemma MemberRoundTrip(m: MemberState)
    requires |EncodeAll(MemberFields(m))| < U64_LIMIT
    ensures MemberOf(EncodeAll(MemberFields(m))) == Ok(m)
  {
    MemberIsWritable(m);
    ParsesWrittenFields(MemberField, MemberFields(m), NO_MEMBER_PARTS, BadSession);
    MemberFoldsBack(m);
  }

  lemma {:induction false} CircleFoldsBack(before: seq<MemberState>, ms: seq<MemberState>)
    requires forall f :: f in CircleFields(ms) ==> |f.byteValue| < U64_LIMIT
    ensures Fold(CircleField, CircleFields(ms), before) == Ok(before + ms)
    ensures forall f :: f in CircleFields(ms) ==> Writable(f)
    decreases |ms|
  {
    hide Fold, EncodeAll;
    if ms == [] {
      FoldNone(CircleField, before);
      assert before + ms == before;
    } else {
      var fs := CircleFields(ms);
      MemberRoundTrip(ms[0]);
      FoldFront(CircleField, fs, before);
      CircleFoldsBack(before + [ms[0]], ms[1..]);
      assert before + [ms[0]] + ms[1..] == before + ms;
    }
  }

  lemma {:induction false} CirclesAreBlobs(ms: seq<MemberState>)
    ensures forall f :: f in CircleFields(ms) ==> f.kind == Blob
  {
    if ms != [] {
      CirclesAreBlobs(ms[1..]);
    }
  }

  /** Parsing a serialised circle gives back the same circle, any list of members at all. */
  lemma CircleRoundTrip(ms: seq<MemberState>)
    requires |CircleBytes(ms)| < U64_LIMIT
    ensures CircleOf(CircleBytes(ms)) == Ok(ms)
  {
    CirclesAreBlobs(ms);
    forall f | f in CircleFields(ms) ensures |f.byteValue| < U64_LIMIT {
      BlobFits(CircleFields(ms), f);
    }
    CircleFoldsBack([], ms);
    ParsesWrittenFields(CircleField, CircleFields(ms), [], BadSession);
    assert [] + ms == ms;
  }

  /** Two different circles never have the same record. */
  lemma RecordsAreDistinct(a: seq<MemberState>, b: seq<MemberState>)
    requires |CircleBytes(a)| < U64_LIMIT && CircleBytes(a) == CircleBytes(b)
    ensures a == b
  {
    CircleRoundTrip(a);
    CircleRoundTrip(b);
  }

  // Field order

  /** The fields under one number, in their order. */
  function Only(fs: seq<Field>, number: U32): seq<Field> {
    if fs == [] then []
    else if fs[0].number == number then [fs[0]] + Only(fs[1..], number)
    else Only(fs[1..], number)
  }

  function MemberOfFields(fs: seq<Field>): Result<MemberState, Fault> {
    var p :- Fold(MemberField, fs, NO_MEMBER_PARTS);
    MemberFrom(p)
  }

  /** The five parts of a member are folded independently, each from its own fields. */
  ghost predicate PartsFold(fs: seq<Field>, p: MemberParts) {
    var chainId := Fold(NumberField, Only(fs, 1), p.chainId);
    var link := Fold(LinkField, Only(fs, 2), p.link);
    var keys := Fold(KeysField, Only(fs, 3), p.keys);
    var skipped := Fold(SkippedField, Only(fs, 4), p.skipped);
    var version := Fold(NumberField, Only(fs, 5), p.version);
    var whole := Fold(MemberField, fs, p);
    if chainId.Ok? && link.Ok? && keys.Ok? && skipped.Ok? && version.Ok? then
      whole == Ok(MemberParts(chainId.value, link.value, keys.value, skipped.value, version.value))
    else whole.Err?
  }

  lemma FoldOnly<A>(step: (A, Field) -> Result<A, Fault>, fs: seq<Field>, number: U32, acc: A)
    requires fs != []
    ensures Fold(step, Only(fs, number), acc) ==
            if fs[0].number != number then Fold(step, Only(fs[1..], number), acc)
            else match step(acc, fs[0]) { case Err(e) => Err(e) case Ok(next) => Fold(step, Only(fs[1..], number), next) }
  {
  }

  lemma {:induction false} PartsFoldApart(fs: seq<Field>, p: MemberParts)
    ensures PartsFold(fs, p)
  {
    if fs != [] {
      hide Fold, Only, Parse;
      FoldOnly(NumberField, fs, 1, p.chainId);
      FoldOnly(LinkField, fs, 2, p.link);
      FoldOnly(KeysField, fs, 3, p.keys);
      FoldOnly(SkippedField, fs, 4, p.skipped);
      FoldOnly(NumberField, fs, 5, p.version);
      match MemberField(p, fs[0]) {
        case Err(_) =>
        case Ok(next) => PartsFoldApart(fs[1..], next);
      }
    }
  }

  /**
   * What a parsed member means depends only on the fields under each of its five numbers: unknown
   * fields and any interleaving of different numbers change neither success nor the result.
   */
  lemma FieldOrderIsFree(a: seq<Field>, b: seq<Field>)
    requires forall n: U32 :: 1 <= n <= 5 ==> Only(a, n) == Only(b, n)
    ensures MemberOfFields(a).Ok? <==> MemberOfFields(b).Ok?
    ensures MemberOfFields(a).Ok? ==> MemberOfFields(a) == MemberOfFields(b)
  {
    hide Fold;
    PartsFoldApart(a, NO_MEMBER_PARTS);
    PartsFoldApart(b, NO_MEMBER_PARTS);
  }

  /** The same of bytes: any two messages that read through and agree number by number mean the same member. */
  lemma MemberBytesOrderIsFree(a: Bytes, b: Bytes)
    requires ScanOf(a).stopped.Some? <==> ScanOf(b).stopped.Some?
    requires forall n: U32 :: 1 <= n <= 5 ==> Only(ScanOf(a).fields, n) == Only(ScanOf(b).fields, n)
    ensures MemberOf(a).Ok? <==> MemberOf(b).Ok?
    ensures MemberOf(a).Ok? ==> MemberOf(a) == MemberOf(b)
  {
    hide Fold, Only, MemberField;
    FieldOrderIsFree(ScanOf(a).fields, ScanOf(b).fields);
  }

  // The writer and the parser

  method WriteSeed(step: U32, seed: Bytes32) returns (inner: Writer)
    ensures fresh(inner) && inner.buf == EncodeAll(SeedFields(step, seed))
  {
    hide Encode;
    inner := new Writer();
    inner.PutUintIfSet(1, step);
    inner.PutBytes(2, seed);
    EncodeAllSplits(UintIfSet(1, step), [BytesField(2, seed)]);
  }

  method WriteMember(m: MemberState) returns (w: Writer)
    requires |EncodeAll(MemberFields(m))| < U64_LIMIT
    ensures fresh(w) && w.buf == EncodeAll(MemberFields(m))
  {
    hide Encode, EncodeAll, SeedFields, KeyFields, UintIfSet, SkippedFields;
    MemberBlobsFit(m);
    w := new Writer();
    w.PutUintIfSet(1, m.chainId);
    var link := WriteSeed(m.link.step, m.link.seed);
    w.PutBytes(2, link.buf);
    var keys := WriteKeys(m.signing, m.secret);
    w.PutBytes(3, keys.buf);
    EncodeHead(m);
    assert w.buf == EncodeAll(HeadFields(m));
    ghost var head := w.buf;
    SkippedStart(m.skipped);
    for i := 0 to |m.skipped|
      invariant w.buf == head + EncodeAll(SkippedFields(m.skipped[..i]))
    {
      var kept := WriteSeed(m.skipped[i].step, m.skipped[i].seed);
      EncodeSkippedStep(m.skipped, i);
      w.PutBytes(4, kept.buf);
    }
    assert m.skipped[..|m.skipped|] == m.skipped;
    w.PutUintIfSet(5, m.version);
    EncodeAllSplits(HeadFields(m), SkippedFields(m.skipped));
    EncodeAllSplits(HeadFields(m) + SkippedFields(m.skipped), UintIfSet(5, m.version));
  }

  method WriteKeys(signing: Public, secret: Option<Secret>) returns (inner: Writer)
    ensures fresh(inner) && inner.buf == EncodeAll(KeyFields(signing, secret))
  {
    hide Encode;
    inner := new Writer();
    inner.PutBytes(1, SerializePublic(signing));
    if secret.Some? {
      inner.PutBytes(2, secret.value);
      EncodeAllSplits([BytesField(1, SerializePublic(signing))], [BytesField(2, secret.value)]);
    } else {
      assert KeyFields(signing, secret) == [BytesField(1, SerializePublic(signing))];
    }
  }

  lemma EncodeHead(m: MemberState)
    ensures EncodeAll(HeadFields(m)) ==
            EncodeAll(UintIfSet(1, m.chainId)) +
            Encode(BytesField(2, EncodeAll(SeedFields(m.link.step, m.link.seed)))) +
            Encode(BytesField(3, EncodeAll(KeyFields(m.signing, m.secret))))
  {
    hide Encode, SeedFields, KeyFields;
    var a := UintIfSet(1, m.chainId);
    var link := BytesField(2, EncodeAll(SeedFields(m.link.step, m.link.seed)));
    var keys := BytesField(3, EncodeAll(KeyFields(m.signing, m.secret)));
    EncodeAllSplits(a + [link], [keys]);
  }

  lemma {:induction false} SkippedFieldsSplit(a: seq<Yield>, b: seq<Yield>)
    ensures SkippedFields(a + b) == SkippedFields(a) + SkippedFields(b)
  {
    if a == [] {
      assert a + b == b;
    } else {
      assert (a + b)[1..] == a[1..] + b;
      SkippedFieldsSplit(a[1..], b);
    }
  }

  lemma SkippedStart(ys: seq<Yield>)
    ensures EncodeAll(SkippedFields(ys[..0])) == []
  {
  }

  lemma EncodeSkippedStep(ys: seq<Yield>, i: nat)
    requires i < |ys|
    ensures EncodeAll(SkippedFields(ys[..i + 1])) ==
            EncodeAll(SkippedFields(ys[..i])) + Encode(BytesField(4, EncodeAll(SeedFields(ys[i].step, ys[i].seed))))
  {
    hide Encode, SeedFields;
    assert ys[..i + 1] == ys[..i] + [ys[i]];
    SkippedFieldsSplit(ys[..i], [ys[i]]);
    var one := BytesField(4, EncodeAll(SeedFields(ys[i].step, ys[i].seed)));
    assert SkippedFields([ys[i]]) == [one];
    EncodeAllSplits(SkippedFields(ys[..i]), [one]);
  }

  lemma MemberBlobsFit(m: MemberState)
    requires |EncodeAll(MemberFields(m))| < U64_LIMIT
    ensures |EncodeAll(SeedFields(m.link.step, m.link.seed))| < U64_LIMIT
    ensures |EncodeAll(KeyFields(m.signing, m.secret))| < U64_LIMIT
    ensures forall i :: 0 <= i < |m.skipped| ==> |EncodeAll(SeedFields(m.skipped[i].step, m.skipped[i].seed))| < U64_LIMIT
  {
    hide EncodeAll, SeedFields, KeyFields;
    var fs := MemberFields(m);
    BlobFits(fs, BytesField(2, EncodeAll(SeedFields(m.link.step, m.link.seed))));
    BlobFits(fs, BytesField(3, EncodeAll(KeyFields(m.signing, m.secret))));
    forall i | 0 <= i < |m.skipped|
      ensures |EncodeAll(SeedFields(m.skipped[i].step, m.skipped[i].seed))| < U64_LIMIT
    {
      SkippedIsAField(m.skipped, i);
      BlobFits(fs, BytesField(4, EncodeAll(SeedFields(m.skipped[i].step, m.skipped[i].seed))));
    }
  }

  lemma {:induction false} SkippedIsAField(ys: seq<Yield>, i: nat)
    requires i < |ys|
    ensures BytesField(4, EncodeAll(SeedFields(ys[i].step, ys[i].seed))) in SkippedFields(ys)
  {
    hide EncodeAll, SeedFields;
    if i > 0 {
      SkippedIsAField(ys[1..], i - 1);
    }
  }

  /** Serialises a circle's members in order, each one nested. */
  method Serialize(circle: Circle) returns (data: Bytes)
    requires |CircleBytes(circle.States())| < U64_LIMIT
    ensures data == CircleBytes(circle.States())
  {
    hide Encode, EncodeAll, MemberFields;
    var w := new Writer();
    ghost var states := circle.States();
    CircleStart(states);
    for i := 0 to |circle.members|
      invariant states == circle.States()
      invariant w.buf == EncodeAll(CircleFields(states[..i]))
    {
      var m := circle.members[i].State();
      CircleStep(states, i);
      var inner := WriteMember(m);
      w.PutBytes(1, inner.buf);
    }
    assert states[..|circle.members|] == states;
    return w.buf;
  }

  lemma CircleStart(ms: seq<MemberState>)
    ensures EncodeAll(CircleFields(ms[..0])) == []
  {
  }

  lemma {:induction false} CircleFieldsSplit(a: seq<MemberState>, b: seq<MemberState>)
    ensures CircleFields(a + b) == CircleFields(a) + CircleFields(b)
  {
    if a == [] {
      assert a + b == b;
    } else {
      assert (a + b)[1..] == a[1..] + b;
      CircleFieldsSplit(a[1..], b);
    }
  }

  lemma CircleStep(ms: seq<MemberState>, i: nat)
    requires i < |ms| && |CircleBytes(ms)| < U64_LIMIT
    ensures |EncodeAll(MemberFields(ms[i]))| < U64_LIMIT
    ensures EncodeAll(CircleFields(ms[..i + 1])) ==
            EncodeAll(CircleFields(ms[..i])) + Encode(BytesField(1, EncodeAll(MemberFields(ms[i]))))
  {
    hide Encode, MemberFields;
    var one := BytesField(1, EncodeAll(MemberFields(ms[i])));
    assert ms == ms[..i] + ([ms[i]] + ms[i + 1..]);
    CircleFieldsSplit(ms[..i], [ms[i]] + ms[i + 1..]);
    BlobFits(CircleFields(ms), one);
    assert ms[..i + 1] == ms[..i] + [ms[i]];
    CircleFieldsSplit(ms[..i], [ms[i]]);
    assert CircleFields([ms[i]]) == [one];
    EncodeAllSplits(CircleFields(ms[..i]), [one]);
  }

  /** Reads a record into a new circle, member by member. */
  method ParseCircle(data: Bytes) returns (r: Result<Circle, Fault>)
    ensures match CircleOf(data) {
              case Err(e) => r == Err(e)
              case Ok(ms) => r.Ok? && fresh(r.value) && r.value.Valid() && r.value.States() == ms &&
                             forall m :: m in r.value.members ==> fresh(m)
            }
  {
    var ms :- Walk(CircleField, data, [], BadSession);
    var circle := new Circle();
    for i := 0 to |ms|
      invariant circle.Valid() && |circle.members| == i && fresh(circle)
      invariant forall m :: m in circle.members ==> fresh(m)
      invariant forall k :: 0 <= k < i ==> circle.members[k].State() == ms[k]
    {
      var m := new Member(ms[i]);
      circle.members := circle.members + [m];
    }
    assert circle.States() == ms;
    return Ok(circle);
  }
}
