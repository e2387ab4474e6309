/** The two group messages: the announcement that hands over a chain, and the signed note. */
module Posts {
  import opened Basics
  import opened Codec
  import opened Wire
  import opened Suites

  const VERSION: Byte := 3

  function VersionOf(b: Byte): Result<Byte, Fault> {
    var v := b / 16;
    if v < VERSION then Err(LegacyVersion)
    else if v > VERSION then Err(UnknownVersion)
    else Ok(v)
  }

  function VersionByte(v: Byte): Byte {
    (v % 16) * 16 + VERSION
  }

  /** A 32-bit field: the wrong kind and a value too wide are the same fault. */
  function U32Of(f: Field, bad: Fault): Result<U32, Fault> {
    match f.AsUint()
    case None => Err(bad)
    case Some(v) => if v < U32_LIMIT then Ok(v) else Err(bad)
  }

  function SizedOf(f: Field, n: nat, bad: Fault): (r: Result<Bytes, Fault>)
    ensures r.Ok? ==> |r.value| == n
  {
    match f.AsBytes()
    case None => Err(bad)
    case Some(b) => if |b| == n then Ok(b) else Err(bad)
  }

  // Announcements

  datatype Announce = Announce(
    version: Byte,
    circleId: Bytes16,
    chainId: U32,
    step: U32,
    seed: Bytes32,
    signing: Public,
    bytes: Bytes)

  datatype AnnounceParts = AnnounceParts(
    circleId: Option<Bytes16>,
    chainId: Option<U32>,
    step: Option<U32>,
    seed: Option<Bytes32>,
    signing: Option<Public>)

  function AnnounceField(p: AnnounceParts, f: Field): Result<AnnounceParts, Fault> {
    if f.number == 1 then
      var b :- SizedOf(f, 16, BadMessage);
      Ok(p.(circleId := Some(b)))
    else if f.number == 2 then
      var v :- U32Of(f, BadMessage);
      Ok(p.(chainId := Some(v)))
    else if f.number == 3 then
      var v :- U32Of(f, BadMessage);
      Ok(p.(step := Some(v)))
    else if f.number == 4 then
      var b :- SizedOf(f, 32, BadMessage);
      Ok(p.(seed := Some(b)))
    else if f.number == 5 then
      var b :- OrFault(f.AsBytes(), BadMessage);
      var key :- ParsePublic(b);
      Ok(p.(signing := Some(key)))
    else Ok(p)
  }

  const NO_ANNOUNCE_PARTS := AnnounceParts(None, None, None, None, None)

  function AnnounceFrom(version: Byte, p: AnnounceParts, bytes: Bytes): Result<Announce, Fault> {
    var circleId :- OrFault(p.circleId, BadMessage);
    var chainId :- OrFault(p.chainId, BadMessage);
    var step :- OrFault(p.step, BadMessage);
    var seed :- OrFault(p.seed, BadMessage);
    var signing :- OrFault(p.signing, BadMessage);
    Ok(Announce(version, circleId, chainId, step, seed, signing, bytes))
  }

  /** What the bytes of an announcement mean. */
  function AnnounceOf(bytes: Bytes): Result<Announce, Fault> {
    if |bytes| < 1 then Err(BadMessage)
    else
      var v :- VersionOf(bytes[0]);
      var p :- Parse(AnnounceField, bytes[1..], NO_ANNOUNCE_PARTS, BadMessage);
      AnnounceFrom(v, p, bytes)
  }

  function AnnounceFields(circleId: Bytes16, chainId: U32, step: U32, seed: Bytes32, signing: Public): seq<Field> {
    [BytesField(1, circleId), UintField(2, chainId), UintField(3, step), BytesField(4, seed),
     BytesField(5, SerializePublic(signing))]
  }

  function AnnounceBytes(v: Byte, circleId: Bytes16, chainId: U32, step: U32, seed: Bytes32, signing: Public): Bytes {
    [VersionByte(v)] + EncodeAll(AnnounceFields(circleId, chainId, step, seed, signing))
  }

  method ParseAnnounce(bytes: Bytes) returns (r: Result<Announce, Fault>)
    ensures r == AnnounceOf(bytes)
  {
    if |bytes| < 1 {
      return Err(BadMessage);
    }
    var v :- VersionOf(bytes[0]);
    var p :- Walk(AnnounceField, bytes[1..], NO_ANNOUNCE_PARTS, BadMessage);
    return AnnounceFrom(v, p, bytes);
  }

  method MakeAnnounce(v: Byte, circleId: Bytes16, chainId: U32, step: U32, seed: Bytes32, signing: Public)
    returns (r: Result<Announce, Fault>)
    ensures r == AnnounceOf(AnnounceBytes(v, circleId, chainId, step, seed, signing))
  {
    hide Encode;
    var w := new Writer();
    w.buf := w.buf + [VersionByte(v)];
    w.PutBytes(1, circleId);
    w.PutUint(2, chainId);
    w.PutUint(3, step);
    w.PutBytes(4, seed);
    w.PutBytes(5, SerializePublic(signing));
    EncodeFive(BytesField(1, circleId), UintField(2, chainId), UintField(3, step), BytesField(4, seed),
               BytesField(5, SerializePublic(signing)));
    assert w.buf == AnnounceBytes(v, circleId, chainId, step, seed, signing);
    r := ParseAnnounce(w.buf);
  }

  lemma EncodeFour(a: Field, b: Field, c: Field, d: Field)
    ensures EncodeAll([a, b, c, d]) == Encode(a) + Encode(b) + Encode(c) + Encode(d)
  {
    hide Encode;
    assert EncodeAll([d]) == Encode(d);
    assert EncodeAll([c, d]) == Encode(c) + Encode(d);
  }

  lemma EncodeFive(a: Field, b: Field, c: Field, d: Field, e: Field)
    ensures EncodeAll([a, b, c, d, e]) == Encode(a) + Encode(b) + Encode(c) + Encode(d) + Encode(e)
  {
    hide Encode;
    EncodeFour(b, c, d, e);
  }

  /**
   * Making then parsing an announcement returns every field, zero ids and steps included,
   * exactly when the version's low nibble is the one version spoken.
   */
  lemma AnnounceRoundTrip(v: Byte, circleId: Bytes16, chainId: U32, step: U32, seed: Bytes32, signing: Public)
    ensures var bytes := AnnounceBytes(v, circleId, chainId, step, seed, signing);
            AnnounceOf(bytes) ==
            if v % 16 < VERSION then Err(LegacyVersion)
            else if v % 16 > VERSION then Err(UnknownVersion)
            else Ok(Announce(VERSION, circleId, chainId, step, seed, signing, bytes))
  {
    var bytes := AnnounceBytes(v, circleId, chainId, step, seed, signing);
    var fs := AnnounceFields(circleId, chainId, step, seed, signing);
    assert bytes[1..] == EncodeAll(fs);
    ParsesWrittenFields(AnnounceField, fs, NO_ANNOUNCE_PARTS, BadMessage);
    AnnounceFolds(circleId, chainId, step, seed, signing);
  }

  lemma AnnounceFolds(circleId: Bytes16, chainId: U32, step: U32, seed: Bytes32, signing: Public)
    ensures Fold(AnnounceField, AnnounceFields(circleId, chainId, step, seed, signing), NO_ANNOUNCE_PARTS) ==
            Ok(AnnounceParts(Some(circleId), Some(chainId), Some(step), Some(seed), Some(signing)))
  {
    hide Fold;
    var fs := AnnounceFields(circleId, chainId, step, seed, signing);
    var p0 := NO_ANNOUNCE_PARTS;
    var p1 := p0.(circleId := Some(circleId));
    var p2 := p1.(chainId := Some(chainId));
    var p3 := p2.(step := Some(step));
    var p4 := p3.(seed := Some(seed));
    FoldNone(AnnounceField, p4.(signing := Some(signing)));
    FoldFront(AnnounceField, fs, p0);
    FoldFront(AnnounceField, fs[1..], p1);
    FoldFront(AnnounceField, fs[2..], p2);
    FoldFront(AnnounceField, fs[3..], p3);
    FoldFront(AnnounceField, fs[4..], p4);
    assert fs[1..][1..] == fs[2..] && fs[2..][1..] == fs[3..] && fs[3..][1..] == fs[4..] && fs[4..][1..] == [];
  }

  // Notes

  datatype Note = Note(
    version: Byte,
    circleId: Bytes16,
    chainId: U32,
    step: U32,
    body: Bytes,
    bytes: Bytes)
  {
    /** The signature covers the version byte and every field before it. */
    predicate SignedBy(c: Suite, signing: Public)
      requires |bytes| >= SIGNATURE_LENGTH
    {
      var end := |bytes| - SIGNATURE_LENGTH;
      c.verify(signing, bytes[..end], bytes[end..])
    }
  }

  datatype NoteParts = NoteParts(
    circleId: Option<Bytes16>,
    chainId: Option<U32>,
    step: Option<U32>,
    body: Option<Bytes>)

  const NO_NOTE_PARTS := NoteParts(None, None, None, None)

  function NoteField(p: NoteParts, f: Field): Result<NoteParts, Fault> {
    if f.number == 1 then
      var b :- SizedOf(f, 16, BadMessage);
      Ok(p.(circleId := Some(b)))
    else if f.number == 2 then
      var v :- U32Of(f, BadMessage);
      Ok(p.(chainId := Some(v)))
    else if f.number == 3 then
      var v :- U32Of(f, BadMessage);
      Ok(p.(step := Some(v)))
    else if f.number == 4 then Ok(p.(body := f.AsBytes()))
    else Ok(p)
  }

  function NoteFrom(version: Byte, p: NoteParts, bytes: Bytes): Result<Note, Fault> {
    var circleId :- OrFault(p.circleId, BadMessage);
    var chainId :- OrFault(p.chainId, BadMessage);
    var step :- OrFault(p.step, BadMessage);
    var body :- OrFault(p.body, BadMessage);
    Ok(Note(version, circleId, chainId, step, body, bytes))
  }

  function NoteOf(bytes: Bytes): (r: Result<Note, Fault>)
    ensures r.Ok? ==> r.value.bytes == bytes && |bytes| > SIGNATURE_LENGTH
  {
    if |bytes| < 1 + SIGNATURE_LENGTH then Err(BadMessage)
    else
      var v :- VersionOf(bytes[0]);
      var p :- Parse(NoteField, bytes[1..|bytes| - SIGNATURE_LENGTH], NO_NOTE_PARTS, BadMessage);
      NoteFrom(v, p, bytes)
  }

  function NoteFields(circleId: Bytes16, chainId: U32, step: U32, body: Bytes): seq<Field> {
    [BytesField(1, circleId), UintField(2, chainId), UintField(3, step), BytesField(4, body)]
  }

  /** What a note's signature is made over. */
  function NoteContent(v: Byte, circleId: Bytes16, chainId: U32, step: U32, body: Bytes): Bytes {
    [VersionByte(v)] + EncodeAll(NoteFields(circleId, chainId, step, body))
  }

  function MadeNote(c: Suite, v: Byte, circleId: Bytes16, chainId: U32, step: U32, body: Bytes, signer: Secret, nonce: Bytes64): Result<Note, Fault> {
    var content := NoteContent(v, circleId, chainId, step, body);
    match c.sign(signer, content, nonce)
    case None => Err(BadKey)
    case Some(signature) => NoteOf(content + signature)
  }

  method ParseNote(bytes: Bytes) returns (r: Result<Note, Fault>)
    ensures r == NoteOf(bytes)
  {
    if |bytes| < 1 + SIGNATURE_LENGTH {
      return Err(BadMessage);
    }
    var v :- VersionOf(bytes[0]);
    var content := bytes[1..|bytes| - SIGNATURE_LENGTH];
    var p :- Walk(NoteField, content, NO_NOTE_PARTS, BadMessage);
    return NoteFrom(v, p, bytes);
  }

  method MakeNote(c: Suite, v: Byte, circleId: Bytes16, chainId: U32, step: U32, body: Bytes, signer: Secret, nonce: Bytes64)
    returns (r: Result<Note, Fault>)
    requires |body| < U64_LIMIT
    ensures r == MadeNote(c, v, circleId, chainId, step, body, signer, nonce)
  {
    hide Encode;
    var w := new Writer();
    w.buf := w.buf + [VersionByte(v)];
    w.PutBytes(1, circleId);
    w.PutUint(2, chainId);
    w.PutUint(3, step);
    w.PutBytes(4, body);
    EncodeFour(BytesField(1, circleId), UintField(2, chainId), UintField(3, step), BytesField(4, body));
    assert w.buf == NoteContent(v, circleId, chainId, step, body);
    var signature := c.sign(signer, w.buf, nonce);
    if signature.None? {
      return Err(BadKey);
    }
    w.buf := w.buf + signature.value;
    r := ParseNote(w.buf);
  }

  lemma NoteFolds(circleId: Bytes16, chainId: U32, step: U32, body: Bytes)
    ensures Fold(NoteField, NoteFields(circleId, chainId, step, body), NO_NOTE_PARTS) ==
            Ok(NoteParts(Some(circleId), Some(chainId), Some(step), Some(body)))
  {
    hide Fold;
    var fs := NoteFields(circleId, chainId, step, body);
    var p0 := NO_NOTE_PARTS;
    var p1 := p0.(circleId := Some(circleId));
    var p2 := p1.(chainId := Some(chainId));
    var p3 := p2.(step := Some(step));
    FoldNone(NoteField, p3.(body := Some(body)));
    FoldFront(NoteField, fs, p0);
    FoldFront(NoteField, fs[1..], p1);
    FoldFront(NoteField, fs[2..], p2);
    FoldFront(NoteField, fs[3..], p3);
    assert fs[1..][1..] == fs[2..] && fs[2..][1..] == fs[3..] && fs[3..][1..] == [];
  }

  /**
   * A made note parses back to every field it was made from, zero ids and steps included, exactly
   * when the version's low nibble is the one spoken and the signer can sign.
   */
  lemma NoteRoundTrip(c: Suite, v: Byte, circleId: Bytes16, chainId: U32, step: U32, body: Bytes, signer: Secret, nonce: Bytes64)
    requires |body| < U64_LIMIT
    ensures var content := NoteContent(v, circleId, chainId, step, body);
            MadeNote(c, v, circleId, chainId, step, body, signer, nonce) ==
            match c.sign(signer, content, nonce) {
              case None => Err(BadKey)
              case Some(signature) =>
                if v % 16 < VERSION then Err(LegacyVersion)
                else if v % 16 > VERSION then Err(UnknownVersion)
                else Ok(Note(VERSION, circleId, chainId, step, body, content + signature))
            }
  {
    var content := NoteContent(v, circleId, chainId, step, body);
    match c.sign(signer, content, nonce) {
      case None =>
      case Some(signature) =>
        var bytes := content + signature;
        var fs := NoteFields(circleId, chainId, step, body);
        assert bytes[0] == VersionByte(v);
        ParsesWrittenFields(NoteField, fs, NO_NOTE_PARTS, BadMessage);
        NoteFolds(circleId, chainId, step, body);
    }
  }

  /** A made note verifies under its signer, and under ideal signatures under no other key. */
  lemma MadeNoteVerifies(c: Suite, v: Byte, circleId: Bytes16, chainId: U32, step: U32, body: Bytes, signer: Secret, nonce: Bytes64, key: Public)
    requires |body| < U64_LIMIT && Lawful(c)
    requires MadeNote(c, v, circleId, chainId, step, body, signer, nonce).Ok?
    ensures var note := MadeNote(c, v, circleId, chainId, step, body, signer, nonce).value;
            && (c.publicOf(signer) == Some(key) ==> note.SignedBy(c, key))
            && (Ideal(c) ==> (note.SignedBy(c, key) <==> c.publicOf(signer) == Some(key)))
  {
  }
}
