/** What an envelope carries: the kind of a message, its sender's certificate, the message, a hint and a group. */
module Contents {
  import opened Basics
  import opened Codec
  import opened Wire
  import opened Suites
  import opened RecordCodec
  import opened Certificates

  datatype MessageKind = Whisper | First | Circle | Plain

  /** A first message is numbered one here and three everywhere else. */
  function KindToRecord(k: MessageKind): U64 {
    match k
    case First => 1
    case Whisper => 2
    case Circle => 7
    case Plain => 8
  }

  function KindFromRecord(v: U64): Result<MessageKind, Fault> {
    if v == 1 then Ok(First)
    else if v == 2 then Ok(Whisper)
    else if v == 7 then Ok(Circle)
    else if v == 8 then Ok(Plain)
    else Err(BadMessage)
  }

  /** The two numberings undo each other, and every other number is refused. */
  lemma KindRoundTrip(k: MessageKind, v: U64)
    ensures KindFromRecord(KindToRecord(k)) == Ok(k)
    ensures match KindFromRecord(v) {
              case Ok(found) => KindToRecord(found) == v
              case Err(e) => e == BadMessage && forall any: MessageKind :: KindToRecord(any) != v
            }
  {
  }

  const DEFAULT_HINT: Byte := 0

  /** Any byte is a hint; three of them have names. */
  datatype Content = Content(
    kind: MessageKind,
    sender: SenderCert,
    body: Bytes,
    hint: Byte,
    circleId: Option<Bytes>,
    bytes: Bytes)

  datatype ContentParts = ContentParts(
    kind: Option<MessageKind>,
    sender: Option<Bytes>,
    body: Option<Bytes>,
    hint: Byte,
    circleId: Option<Bytes>)

  const NO_CONTENT_PARTS := ContentParts(None, None, None, DEFAULT_HINT, None)

  function ContentField(p: ContentParts, f: Field): Result<ContentParts, Fault> {
    if f.number == 1 then
      var v :- OrFault(f.AsUint(), BadMessage);
      var k :- KindFromRecord(v);
      Ok(p.(kind := Some(k)))
    else if f.number == 2 then Ok(p.(sender := f.AsBytes()))
    else if f.number == 3 then Ok(p.(body := f.AsBytes()))
    else if f.number == 4 then
      // A hint wider than a byte keeps its low byte; a mistyped one is the default.
      Ok(p.(hint := match f.AsUint() { case None => DEFAULT_HINT case Some(v) => v % U8_LIMIT }))
    else if f.number == 5 then Ok(p.(circleId := f.AsBytes()))
    else Ok(p)
  }

  function ContentFrom(p: ContentParts, bytes: Bytes): Result<Content, Fault> {
    var kind :- OrFault(p.kind, BadMessage);
    var nested :- OrFault(p.sender, BadMessage);
    var sender :- SenderOf(nested);
    var body :- OrFault(p.body, BadMessage);
    Ok(Content(kind, sender, body, p.hint, p.circleId, bytes))
  }

  function ContentOf(bytes: Bytes): Result<Content, Fault> {
    var p :- Parse(ContentField, bytes, NO_CONTENT_PARTS, BadMessage);
    ContentFrom(p, bytes)
  }

  function ContentHead(kind: MessageKind, sender: Bytes, body: Bytes): seq<Field> {
    [UintField(1, KindToRecord(kind)), BytesField(2, sender), BytesField(3, body)]
  }

  function GroupFields(circleId: Option<Bytes>): seq<Field> {
    match circleId case None => [] case Some(g) => [BytesField(5, g)]
  }

  function ContentFields(kind: MessageKind, sender: Bytes, body: Bytes, hint: Byte, circleId: Option<Bytes>): seq<Field> {
    ContentHead(kind, sender, body) + UintIfSet(4, hint) + GroupFields(circleId)
  }

  function ContentBytes(kind: MessageKind, sender: Bytes, body: Bytes, hint: Byte, circleId: Option<Bytes>): Bytes {
    EncodeAll(ContentFields(kind, sender, body, hint, circleId))
  }

  lemma HeadFolds(kind: MessageKind, sender: Bytes, body: Bytes)
    ensures Fold(ContentField, ContentHead(kind, sender, body), NO_CONTENT_PARTS) ==
            Ok(ContentParts(Some(kind), Some(sender), Some(body), DEFAULT_HINT, None))
  {
    hide Fold;
    var fs := ContentHead(kind, sender, body);
    KindRoundTrip(kind, 0);
    var p1 := NO_CONTENT_PARTS.(kind := Some(kind));
    var p2 := p1.(sender := Some(sender));
    FoldFront(ContentField, fs, NO_CONTENT_PARTS);
    FoldFront(ContentField, fs[1..], p1);
    FoldFront(ContentField, fs[2..], p2);
    FoldNone(ContentField, p2.(body := Some(body)));
    assert fs[1..][1..] == fs[2..] && fs[2..][1..] == [];
  }

  lemma HintAndGroupFold(p: ContentParts, hint: Byte, circleId: Option<Bytes>)
    requires p.hint == DEFAULT_HINT && p.circleId == None
    ensures Fold(ContentField, UintIfSet(4, hint) + GroupFields(circleId), p) == Ok(p.(hint := hint, circleId := circleId))
  {
    var q := p.(hint := hint);
    FoldSplits(ContentField, UintIfSet(4, hint), GroupFields(circleId), p);
    match circleId {
      case None => FoldNone(ContentField, q);
      case Some(g) =>
    }
  }

  lemma ContentIsWritable(kind: MessageKind, sender: Bytes, body: Bytes, hint: Byte, circleId: Option<Bytes>)
    requires |ContentBytes(kind, sender, body, hint, circleId)| < U64_LIMIT
    ensures forall f :: f in ContentFields(kind, sender, body, hint, circleId) ==> Writable(f)
  {
    hide EncodeAll;
    var fs := ContentFields(kind, sender, body, hint, circleId);
    forall f | f in fs ensures Writable(f) {
      if f.kind == Blob {
        BlobFits(fs, f);
      }
    }
  }

  /** Making then parsing a content gives back every part, default hint and absent group included. */
  lemma ContentRoundTrip(kind: MessageKind, sender: SenderCert, body: Bytes, hint: Byte, circleId: Option<Bytes>)
    requires var bytes := ContentBytes(kind, sender.bytes, body, hint, circleId);
             |bytes| < U64_LIMIT && SenderOf(sender.bytes) == Ok(sender)
    ensures var bytes := ContentBytes(kind, sender.bytes, body, hint, circleId);
            ContentOf(bytes) == Ok(Content(kind, sender, body, hint, circleId, bytes))
  {
    hide Fold, EncodeAll, Parse, SenderOf, UintIfSet, GroupFields;
    ContentIsWritable(kind, sender.bytes, body, hint, circleId);
    var head, tail := ContentHead(kind, sender.bytes, body), UintIfSet(4, hint) + GroupFields(circleId);
    var fs := ContentFields(kind, sender.bytes, body, hint, circleId);
    assert fs == head + tail;
    ParsesWrittenFields(ContentField, fs, NO_CONTENT_PARTS, BadMessage);
    FoldSplits(ContentField, head, tail, NO_CONTENT_PARTS);
    HeadFolds(kind, sender.bytes, body);
    HintAndGroupFold(ContentParts(Some(kind), Some(sender.bytes), Some(body), DEFAULT_HINT, None), hint, circleId);
  }

  /**
   * All three levels: a server certificate inside a sender certificate inside a content, made from their
   * parts, parse back to those parts from the outermost bytes alone.
   */
  lemma ThreeLevelsRoundTrip(c: Suite, keyId: U32, key: Public, root: Secret, n: Bytes64, claim: Claim, secret: Secret, m: Bytes64,
                             kind: MessageKind, body: Bytes, hint: Byte, circleId: Option<Bytes>)
    requires MadeServer(c, keyId, key, root, n).Ok?
    requires var server := MadeServer(c, keyId, key, root, n).value;
             |SenderBody(claim, server.bytes)| < U64_LIMIT && MadeSender(c, claim, server, secret, m).Ok?
    requires var sender := MadeSender(c, claim, MadeServer(c, keyId, key, root, n).value, secret, m).value;
             |ContentBytes(kind, sender.bytes, body, hint, circleId)| < U64_LIMIT
    ensures var sender := MadeSender(c, claim, MadeServer(c, keyId, key, root, n).value, secret, m).value;
            var back := ContentOf(ContentBytes(kind, sender.bytes, body, hint, circleId));
            && back.Ok? && back.value.kind == kind && back.value.body == body && back.value.hint == hint
            && back.value.circleId == circleId && back.value.sender == sender
            && Claim(sender.id, sender.phone, sender.device, sender.key, sender.expires) == claim
            && sender.server == MadeServer(c, keyId, key, root, n).value
            && sender.server.keyId == keyId && sender.server.key == key
  {
    hide EncodeAll, ServerOf, SenderOf, ContentOf, ContentBytes, SenderBody, JoinSigned, ServerFields;
    var server := MadeServer(c, keyId, key, root, n).value;
    ServerRoundTrip(c, keyId, key, root, n);
    SenderRoundTrip(c, claim, server, secret, m);
    ContentRoundTrip(kind, MadeSender(c, claim, server, secret, m).value, body, hint, circleId);
  }

  method ParseContent(bytes: Bytes) returns (r: Result<Content, Fault>)
    ensures r == ContentOf(bytes)
  {
    var p :- Walk(ContentField, bytes, NO_CONTENT_PARTS, BadMessage);
    var kind :- OrFault(p.kind, BadMessage);
    var nested :- OrFault(p.sender, BadMessage);
    var sender :- ParseSender(nested);
    var body :- OrFault(p.body, BadMessage);
    return Ok(Content(kind, sender, body, p.hint, p.circleId, bytes));
  }

  lemma EncodeContent(kind: MessageKind, sender: Bytes, body: Bytes, hint: Byte, circleId: Option<Bytes>)
    ensures ContentBytes(kind, sender, body, hint, circleId) ==
            Encode(UintField(1, KindToRecord(kind))) + Encode(BytesField(2, sender)) + Encode(BytesField(3, body)) +
            EncodeAll(UintIfSet(4, hint)) + EncodeAll(GroupFields(circleId))
  {
    hide Encode, EncodeAll, UintIfSet, GroupFields;
    var a, b, d := UintField(1, KindToRecord(kind)), BytesField(2, sender), BytesField(3, body);
    var head := ContentHead(kind, sender, body);
    EncodeAllSplits(head, UintIfSet(4, hint));
    EncodeAllSplits(head + UintIfSet(4, hint), GroupFields(circleId));
    assert head == [a] + [b] + [d];
    EncodeAllSplits([a] + [b], [d]);
    EncodeAllSplits([a], [b]);
    EncodeOne(a);
    EncodeOne(b);
    EncodeOne(d);
  }

  lemma EncodeOne(f: Field)
    ensures EncodeAll([f]) == Encode(f)
  {
  }

  lemma ContentBlobsFit(kind: MessageKind, sender: Bytes, body: Bytes, hint: Byte, circleId: Option<Bytes>)
    requires |ContentBytes(kind, sender, body, hint, circleId)| < U64_LIMIT
    ensures |sender| < U64_LIMIT && |body| < U64_LIMIT && (circleId.Some? ==> |circleId.value| < U64_LIMIT)
  {
    hide EncodeAll;
    var fs := ContentFields(kind, sender, body, hint, circleId);
    BlobFits(fs, fs[1]);
    BlobFits(fs, fs[2]);
    if circleId.Some? {
      BlobFits(fs, fs[|fs| - 1]);
    }
  }

  method MakeContent(kind: MessageKind, sender: SenderCert, body: Bytes, hint: Byte, circleId: Option<Bytes>) returns (r: Result<Content, Fault>)
    requires |ContentBytes(kind, sender.bytes, body, hint, circleId)| < U64_LIMIT
    ensures r == ContentOf(ContentBytes(kind, sender.bytes, body, hint, circleId))
  {
    hide Encode, ContentOf, ContentBytes;
    ContentBlobsFit(kind, sender.bytes, body, hint, circleId);
    EncodeContent(kind, sender.bytes, body, hint, circleId);
    var w := new Writer();
    w.PutUint(1, KindToRecord(kind));
    w.PutBytes(2, sender.bytes);
    w.PutBytes(3, body);
    if hint != DEFAULT_HINT {
      w.PutUint(4, hint);
      EncodeOne(UintField(4, hint));
    }
    if circleId.Some? {
      w.PutBytes(5, circleId.value);
      EncodeOne(BytesField(5, circleId.value));
    }
    assert w.buf == ContentBytes(kind, sender.bytes, body, hint, circleId);
    r := ParseContent(w.buf);
  }
}
