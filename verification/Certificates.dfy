/** The certificates behind a sealed envelope and the content they travel in: three signed or tagged levels. */
module Certificates {
  import opened Basics
  import opened Codec
  import opened Wire
  import opened Suites
  import opened Posts
  import opened RecordCodec

  // Signed bodies

  datatype Signed = Signed(body: Bytes, signature: Bytes64)

  datatype SignedParts = SignedParts(body: Option<Bytes>, signature: Option<Bytes>)

  const NO_SIGNED_PARTS := SignedParts(None, None)

  function SignedField(p: SignedParts, f: Field): Result<SignedParts, Fault> {
    if f.number == 1 then Ok(p.(body := f.AsBytes()))
    else if f.number == 2 then Ok(p.(signature := f.AsBytes()))
    else Ok(p)
  }

  function SignedFrom(p: SignedParts): Result<Signed, Fault> {
    var body :- OrFault(p.body, BadMessage);
    var signature :- OrFault(p.signature, BadMessage);
    if |signature| != 64 then Err(BadSignature) else Ok(Signed(body, signature))
  }

  function SplitSigned(data: Bytes): Result<Signed, Fault> {
    var p :- Parse(SignedField, data, NO_SIGNED_PARTS, BadMessage);
    SignedFrom(p)
  }

  function JoinSigned(body: Bytes, signature: Bytes64): Bytes {
    EncodeAll([BytesField(1, body), BytesField(2, signature)])
  }

  lemma SplitsJoined(body: Bytes, signature: Bytes64)
    requires |body| < U64_LIMIT
    ensures SplitSigned(JoinSigned(body, signature)) == Ok(Signed(body, signature))
  {
    hide Fold, EncodeAll;
    var fs := [BytesField(1, body), BytesField(2, signature)];
    ParsesWrittenFields(SignedField, fs, NO_SIGNED_PARTS, BadMessage);
    assert fs[1..] == [fs[1]] && fs[1..][1..] == [];
    FoldFront(SignedField, fs, NO_SIGNED_PARTS);
    FoldFront(SignedField, [fs[1]], SignedParts(Some(body), None));
    FoldNone(SignedField, SignedParts(Some(body), Some(signature)));
  }

  method WriteSigned(body: Bytes, signature: Bytes64) returns (data: Bytes)
    requires |body| < U64_LIMIT
    ensures data == JoinSigned(body, signature)
  {
    hide Encode;
    var w := new Writer();
    w.PutBytes(1, body);
    w.PutBytes(2, signature);
    EncodeAllSplits([BytesField(1, body)], [BytesField(2, signature)]);
    assert EncodeAll([BytesField(1, body)]) == Encode(BytesField(1, body)) + EncodeAll([]);
    assert EncodeAll([BytesField(2, signature)]) == Encode(BytesField(2, signature)) + EncodeAll([]);
    return w.buf;
  }

  method ReadSigned(data: Bytes) returns (r: Result<Signed, Fault>)
    ensures r == SplitSigned(data)
  {
    var p :- Walk(SignedField, data, NO_SIGNED_PARTS, BadMessage);
    return SignedFrom(p);
  }

  // Server certificates

  datatype ServerCert = ServerCert(keyId: U32, key: Public, body: Bytes, signature: Bytes64, bytes: Bytes) {
    predicate SignedBy(c: Suite, root: Public) {
      c.verify(root, body, signature)
    }
  }

  datatype ServerParts = ServerParts(keyId: Option<U32>, key: Option<Public>)

  const NO_SERVER_PARTS := ServerParts(None, None)

  function ServerField(p: ServerParts, f: Field): Result<ServerParts, Fault> {
    if f.number == 1 then
      var v :- U32Of(f, BadMessage);
      Ok(p.(keyId := Some(v)))
    else if f.number == 2 then
      var b :- OrFault(f.AsBytes(), BadMessage);
      var key :- ParsePublic(b);
      Ok(p.(key := Some(key)))
    else Ok(p)
  }

  function ServerFrom(p: ServerParts, signed: Signed, bytes: Bytes): Result<ServerCert, Fault> {
    var keyId :- OrFault(p.keyId, BadMessage);
    var key :- OrFault(p.key, BadMessage);
    Ok(ServerCert(keyId, key, signed.body, signed.signature, bytes))
  }

  function ServerOf(bytes: Bytes): Result<ServerCert, Fault> {
    var signed :- SplitSigned(bytes);
    var p :- Parse(ServerField, signed.body, NO_SERVER_PARTS, BadMessage);
    ServerFrom(p, signed, bytes)
  }

  function ServerFields(keyId: U32, key: Public): seq<Field> {
    [UintField(1, keyId), BytesField(2, SerializePublic(key))]
  }

  function MadeServer(c: Suite, keyId: U32, key: Public, root: Secret, nonce: Bytes64): Result<ServerCert, Fault> {
    var body := EncodeAll(ServerFields(keyId, key));
    match c.sign(root, body, nonce)
    case None => Err(BadKey)
    case Some(signature) => ServerOf(JoinSigned(body, signature))
  }

  lemma ServerBodyReadsBack(keyId: U32, key: Public)
    ensures Parse(ServerField, EncodeAll(ServerFields(keyId, key)), NO_SERVER_PARTS, BadMessage) ==
            Ok(ServerParts(Some(keyId), Some(key)))
  {
    hide Fold, EncodeAll;
    var fs := ServerFields(keyId, key);
    ParsesWrittenFields(ServerField, fs, NO_SERVER_PARTS, BadMessage);
    assert fs[1..] == [fs[1]] && fs[1..][1..] == [];
    FoldFront(ServerField, fs, NO_SERVER_PARTS);
    FoldFront(ServerField, [fs[1]], ServerParts(Some(keyId), None));
    FoldNone(ServerField, ServerParts(Some(keyId), Some(key)));
  }

  lemma ServerBodyIsShort(keyId: U32, key: Public)
    ensures |EncodeAll(ServerFields(keyId, key))| < 1000
  {
    hide Encode;
    var a, b := UintField(1, keyId), BytesField(2, SerializePublic(key));
    EncodedLength(a);
    EncodedLength(b);
    EncodeAllSplits([a], [b]);
  }

  /** Making then parsing a server certificate gives back its key and id, with the body that was signed. */
  lemma ServerRoundTrip(c: Suite, keyId: U32, key: Public, root: Secret, nonce: Bytes64)
    ensures var body := EncodeAll(ServerFields(keyId, key));
            MadeServer(c, keyId, key, root, nonce) ==
            match c.sign(root, body, nonce) {
              case None => Err(BadKey)
              case Some(signature) => Ok(ServerCert(keyId, key, body, signature, JoinSigned(body, signature)))
            }
  {
    hide Parse, EncodeAll, SplitSigned, JoinSigned, ServerFields;
    var body := EncodeAll(ServerFields(keyId, key));
    ServerBodyIsShort(keyId, key);
    ServerBodyReadsBack(keyId, key);
    match c.sign(root, body, nonce) {
      case None =>
      case Some(signature) => SplitsJoined(body, signature);
    }
  }

  method ParseServer(bytes: Bytes) returns (r: Result<ServerCert, Fault>)
    ensures r == ServerOf(bytes)
  {
    var signed :- ReadSigned(bytes);
    var p :- Walk(ServerField, signed.body, NO_SERVER_PARTS, BadMessage);
    return ServerFrom(p, signed, bytes);
  }

  method MakeServer(c: Suite, keyId: U32, key: Public, root: Secret, nonce: Bytes64) returns (r: Result<ServerCert, Fault>)
    ensures r == MadeServer(c, keyId, key, root, nonce)
  {
    hide Encode, ServerOf, JoinSigned;
    var body := new Writer();
    body.PutUint(1, keyId);
    body.PutBytes(2, SerializePublic(key));
    var a, b := UintField(1, keyId), BytesField(2, SerializePublic(key));
    assert ServerFields(keyId, key)[1..] == [b];
    assert EncodeAll([b]) == Encode(b) + EncodeAll([]);
    assert body.buf == EncodeAll(ServerFields(keyId, key));
    ServerBodyIsShort(keyId, key);
    var signature := c.sign(root, body.buf, nonce);
    if signature.None? {
      return Err(BadKey);
    }
    var bytes := WriteSigned(body.buf, signature.value);
    r := ParseServer(bytes);
  }

  // Sender certificates

  datatype SenderCert = SenderCert(
    id: Bytes,
    phone: Option<Bytes>,
    device: U32,
    key: Public,
    expires: U64,
    server: ServerCert,
    body: Bytes,
    signature: Bytes64,
    bytes: Bytes)
  {
    /** Leads to the trust root and has not expired. */
    predicate Valid(c: Suite, root: Public, now: U64) {
      server.SignedBy(c, root) && c.verify(server.key, body, signature) && now <= expires
    }
  }

  /** What a sender certificate says, before anyone signs it. */
  datatype Claim = Claim(id: Bytes, phone: Option<Bytes>, device: U32, key: Public, expires: U64)

  datatype SenderParts = SenderParts(
    phone: Option<Bytes>,
    device: Option<U32>,
    expires: Option<U64>,
    key: Option<Public>,
    server: Option<Bytes>,
    id: Option<Bytes>)

  const NO_SENDER_PARTS := SenderParts(None, None, None, None, None, None)

  function SenderField(p: SenderParts, f: Field): Result<SenderParts, Fault> {
    if f.number == 1 then Ok(p.(phone := f.AsBytes()))
    else if f.number == 2 then
      var v :- U32Of(f, BadMessage);
      Ok(p.(device := Some(v)))
    else if f.number == 3 then Ok(p.(expires := f.AsWord()))
    else if f.number == 4 then
      var b :- OrFault(f.AsBytes(), BadMessage);
      var key :- ParsePublic(b);
      Ok(p.(key := Some(key)))
    else if f.number == 5 then Ok(p.(server := f.AsBytes()))
    else if f.number == 6 then Ok(p.(id := f.AsBytes()))
    else Ok(p)
  }

  /** The claim in a body with the server certificate's bytes, a missing part being a fault. */
  function ClaimFrom(p: SenderParts): Result<Claim, Fault> {
    var id :- OrFault(p.id, BadMessage);
    var device :- OrFault(p.device, BadMessage);
    var key :- OrFault(p.key, BadMessage);
    var expires :- OrFault(p.expires, BadMessage);
    Ok(Claim(id, p.phone, device, key, expires))
  }

  function SenderFrom(claim: Claim, server: ServerCert, signed: Signed, bytes: Bytes): SenderCert {
    SenderCert(claim.id, claim.phone, claim.device, claim.key, claim.expires, server, signed.body, signed.signature, bytes)
  }

  function SenderOf(bytes: Bytes): Result<SenderCert, Fault> {
    var signed :- SplitSigned(bytes);
    var p :- Parse(SenderField, signed.body, NO_SENDER_PARTS, BadMessage);
    var claim :- ClaimFrom(p);
    var nested :- OrFault(p.server, BadMessage);
    var server :- ServerOf(nested);
    Ok(SenderFrom(claim, server, signed, bytes))
  }

  function PhoneFields(phone: Option<Bytes>): seq<Field> {
    match phone case None => [] case Some(p) => [BytesField(1, p)]
  }

  function SenderTail(claim: Claim, server: Bytes): seq<Field> {
    [UintField(2, claim.device), Word64Field(3, claim.expires), BytesField(4, SerializePublic(claim.key)),
     BytesField(5, server), BytesField(6, claim.id)]
  }

  function SenderFields(claim: Claim, server: Bytes): seq<Field> {
    PhoneFields(claim.phone) + SenderTail(claim, server)
  }

  function SenderBody(claim: Claim, server: Bytes): Bytes {
    EncodeAll(SenderFields(claim, server))
  }

  function MadeSender(c: Suite, claim: Claim, server: ServerCert, secret: Secret, nonce: Bytes64): Result<SenderCert, Fault> {
    var body := SenderBody(claim, server.bytes);
    match c.sign(secret, body, nonce)
    case None => Err(BadKey)
    case Some(signature) => SenderOf(JoinSigned(body, signature))
  }

  lemma SenderIsWritable(claim: Claim, server: Bytes)
    requires |SenderBody(claim, server)| < U64_LIMIT
    ensures forall f :: f in SenderFields(claim, server) ==> Writable(f)
  {
    hide EncodeAll;
    forall f | f in SenderFields(claim, server) ensures Writable(f) {
      if f.kind == Blob {
        BlobFits(SenderFields(claim, server), f);
      }
    }
  }

  lemma SenderTailFolds(claim: Claim, server: Bytes, p: SenderParts)
    ensures Fold(SenderField, SenderTail(claim, server), p) ==
            Ok(SenderParts(p.phone, Some(claim.device), Some(claim.expires), Some(claim.key), Some(server), Some(claim.id)))
  {
    hide Fold;
    var fs := SenderTail(claim, server);
    var p1 := p.(device := Some(claim.device));
    var p2 := p1.(expires := Some(claim.expires));
    var p3 := p2.(key := Some(claim.key));
    var p4 := p3.(server := Some(server));
    FoldFront(SenderField, fs, p);
    FoldFront(SenderField, fs[1..], p1);
    FoldFront(SenderField, fs[2..], p2);
    FoldFront(SenderField, fs[3..], p3);
    FoldFront(SenderField, fs[4..], p4);
    FoldNone(SenderField, p4.(id := Some(claim.id)));
    assert fs[1..][1..] == fs[2..] && fs[2..][1..] == fs[3..] && fs[3..][1..] == fs[4..] && fs[4..][1..] == [];
  }

  lemma PhoneFolds(phone: Option<Bytes>)
    ensures Fold(SenderField, PhoneFields(phone), NO_SENDER_PARTS) == Ok(NO_SENDER_PARTS.(phone := phone))
  {
  }

  lemma SenderBodyReadsBack(claim: Claim, server: Bytes)
    requires |SenderBody(claim, server)| < U64_LIMIT
    ensures Parse(SenderField, SenderBody(claim, server), NO_SENDER_PARTS, BadMessage) ==
            Ok(SenderParts(claim.phone, Some(claim.device), Some(claim.expires), Some(claim.key), Some(server), Some(claim.id)))
  {
    hide Fold, EncodeAll, Parse;
    SenderIsWritable(claim, server);
    ParsesWrittenFields(SenderField, SenderFields(claim, server), NO_SENDER_PARTS, BadMessage);
    FoldSplits(SenderField, PhoneFields(claim.phone), SenderTail(claim, server), NO_SENDER_PARTS);
    PhoneFolds(claim.phone);
    SenderTailFolds(claim, server, NO_SENDER_PARTS.(phone := claim.phone));
  }

  /** Making then parsing a sender certificate gives back its claim and the server certificate inside it. */
  lemma SenderRoundTrip(c: Suite, claim: Claim, server: ServerCert, secret: Secret, nonce: Bytes64)
    requires |SenderBody(claim, server.bytes)| < U64_LIMIT && ServerOf(server.bytes) == Ok(server)
    ensures var body := SenderBody(claim, server.bytes);
            MadeSender(c, claim, server, secret, nonce) ==
            match c.sign(secret, body, nonce) {
              case None => Err(BadKey)
              case Some(signature) =>
                Ok(SenderFrom(claim, server, Signed(body, signature), JoinSigned(body, signature)))
            }
  {
    hide Parse, SplitSigned, JoinSigned, SenderBody, ServerOf;
    var body := SenderBody(claim, server.bytes);
    SenderBodyReadsBack(claim, server.bytes);
    match c.sign(secret, body, nonce) {
      case None =>
      case Some(signature) => SplitsJoined(body, signature);
    }
  }

  /**
   * Under ideal signatures a made chain is valid exactly for the trust root that signed the server
   * certificate, when the server's own secret signed the sender certificate, until it expires.
   */
  lemma ValidIff(c: Suite, keyId: U32, key: Public, root: Secret, n: Bytes64, claim: Claim, secret: Secret, m: Bytes64, trusted: Public, now: U64)
    requires Ideal(c) && MadeServer(c, keyId, key, root, n).Ok?
    requires var server := MadeServer(c, keyId, key, root, n).value;
             |SenderBody(claim, server.bytes)| < U64_LIMIT && MadeSender(c, claim, server, secret, m).Ok?
    ensures var server := MadeServer(c, keyId, key, root, n).value;
            var cert := MadeSender(c, claim, server, secret, m).value;
            cert.Valid(c, trusted, now) <==>
            c.publicOf(root) == Some(trusted) && c.publicOf(secret) == Some(key) && now <= claim.expires
  {
    hide SenderBody, EncodeAll, ServerFields, JoinSigned, SenderOf, ServerOf;
    var server := MadeServer(c, keyId, key, root, n).value;
    ServerRoundTrip(c, keyId, key, root, n);
    SenderRoundTrip(c, claim, server, secret, m);
  }

  /** A parsed certificate says what the two signed bodies say, and nothing besides. */
  ghost predicate SaysWhatIsSigned(bytes: Bytes, cert: SenderCert) {
    && SplitSigned(bytes) == Ok(Signed(cert.body, cert.signature))
    && Parse(SenderField, cert.body, NO_SENDER_PARTS, BadMessage) ==
       Ok(SenderParts(cert.phone, Some(cert.device), Some(cert.expires), Some(cert.key), Some(cert.server.bytes), Some(cert.id)))
    && SplitSigned(cert.server.bytes) == Ok(Signed(cert.server.body, cert.server.signature))
    && Parse(ServerField, cert.server.body, NO_SERVER_PARTS, BadMessage) ==
       Ok(ServerParts(Some(cert.server.keyId), Some(cert.server.key)))
  }

  /**
   * Of any bytes whatever that parse as a sender certificate, signatures taken from elsewhere included:
   * when nothing verifies but what was signed, the certificate is valid exactly when the trust root's
   * secret signed this server body, the secret of the key in it signed this sender body, and the time is
   * not past the expiry in it.
   */
  lemma ParsedValidIff(c: Suite, bytes: Bytes, trusted: Public, now: U64)
    requires Unforged(c) && SenderOf(bytes).Ok?
    ensures var cert := SenderOf(bytes).value;
            && SaysWhatIsSigned(bytes, cert)
            && (cert.Valid(c, trusted, now) <==>
                SignedWith(c, trusted, cert.server.body, cert.server.signature) &&
                SignedWith(c, cert.server.key, cert.body, cert.signature) &&
                now <= cert.expires)
  {
    hide SplitSigned, Parse;
    var cert := SenderOf(bytes).value;
    VerifiesIffSigned(c, trusted, cert.server.body, cert.server.signature);
    VerifiesIffSigned(c, cert.server.key, cert.body, cert.signature);
  }

  /**
   * What was issued: the trust root's secret signs only bodies of these server certificates, and a server's
   * secret only bodies that carry one of them and make one of that server's claims.
   */
  ghost predicate SignsOnlyIssued(c: Suite, root: Public, servers: (U32, Public) -> bool, claims: (Public, Claim, Bytes) -> bool) {
    && (forall m: Bytes, g: Bytes64 :: SignedWith(c, root, m, g) ==>
          exists keyId: U32, key: Public :: servers(keyId, key) && m == EncodeAll(ServerFields(keyId, key)))
    && (forall keyId: U32, key: Public, m: Bytes, g: Bytes64 :: servers(keyId, key) && SignedWith(c, key, m, g) ==>
          exists claim: Claim, server: Bytes :: claims(key, claim, server) && m == SenderBody(claim, server) && |m| < U64_LIMIT)
  }

  /**
   * Where only issued bodies are signed, and nothing verifies but what was signed: any bytes that parse and
   * are valid make exactly one of the claims issued, by a server issued under the trust root, in time.
   */
  lemma ValidWasIssued(c: Suite, bytes: Bytes, root: Public, now: U64, servers: (U32, Public) -> bool, claims: (Public, Claim, Bytes) -> bool)
    requires Unforged(c) && SignsOnlyIssued(c, root, servers, claims)
    requires SenderOf(bytes).Ok? && SenderOf(bytes).value.Valid(c, root, now)
    ensures var cert := SenderOf(bytes).value;
            && servers(cert.server.keyId, cert.server.key)
            && claims(cert.server.key, Claim(cert.id, cert.phone, cert.device, cert.key, cert.expires), cert.server.bytes)
            && now <= cert.expires
  {
    hide Parse, SplitSigned, EncodeAll, SenderFields, ServerFields, SenderOf, SignedWith, Unforged;
    var cert := SenderOf(bytes).value;
    ParsedValidIff(c, bytes, root, now);
    assert SignedWith(c, root, cert.server.body, cert.server.signature);
    var keyId: U32, key: Public :| servers(keyId, key) && cert.server.body == EncodeAll(ServerFields(keyId, key));
    ServerBodyReadsBack(keyId, key);
    assert SignedWith(c, cert.server.key, cert.body, cert.signature);
    var claim: Claim, server: Bytes :|
      claims(key, claim, server) && cert.body == SenderBody(claim, server) && |cert.body| < U64_LIMIT;
    SenderBodyReadsBack(claim, server);
  }

  lemma VerifiesIffSigned(c: Suite, p: Public, m: Bytes, g: Bytes64)
    requires Unforged(c)
    ensures c.verify(p, m, g) <==> SignedWith(c, p, m, g)
  {
    if SignedWith(c, p, m, g) {
      var s: Secret, n: Bytes64 :| c.publicOf(s) == Some(p) && c.sign(s, m, n) == Some(g);
    }
  }

  method ParseSender(bytes: Bytes) returns (r: Result<SenderCert, Fault>)
    ensures r == SenderOf(bytes)
  {
    var signed :- ReadSigned(bytes);
    var p :- Walk(SenderField, signed.body, NO_SENDER_PARTS, BadMessage);
    var claim :- ClaimFrom(p);
    var nested :- OrFault(p.server, BadMessage);
    var server :- ParseServer(nested);
    return Ok(SenderFrom(claim, server, signed, bytes));
  }

  lemma EncodeSender(claim: Claim, server: Bytes)
    ensures SenderBody(claim, server) ==
            EncodeAll(PhoneFields(claim.phone)) +
            Encode(UintField(2, claim.device)) + Encode(Word64Field(3, claim.expires)) +
            Encode(BytesField(4, SerializePublic(claim.key))) + Encode(BytesField(5, server)) + Encode(BytesField(6, claim.id))
  {
    hide Encode, EncodeAll;
    EncodeAllSplits(PhoneFields(claim.phone), SenderTail(claim, server));
    EncodeFive(UintField(2, claim.device), Word64Field(3, claim.expires), BytesField(4, SerializePublic(claim.key)),
               BytesField(5, server), BytesField(6, claim.id));
  }

  lemma SenderBlobsFit(claim: Claim, server: Bytes)
    requires |SenderBody(claim, server)| < U64_LIMIT
    ensures |server| < U64_LIMIT && |claim.id| < U64_LIMIT && (claim.phone.Some? ==> |claim.phone.value| < U64_LIMIT)
  {
    hide EncodeAll;
    var fs := SenderFields(claim, server);
    var n := |PhoneFields(claim.phone)|;
    BlobFits(fs, fs[n + 3]);
    BlobFits(fs, fs[n + 4]);
    if claim.phone.Some? {
      BlobFits(fs, fs[0]);
    }
  }

  method MakeSender(c: Suite, claim: Claim, server: ServerCert, secret: Secret, nonce: Bytes64) returns (r: Result<SenderCert, Fault>)
    requires |SenderBody(claim, server.bytes)| < U64_LIMIT
    ensures r == MadeSender(c, claim, server, secret, nonce)
  {
    hide Encode, SenderOf, JoinSigned, SenderBody;
    SenderBlobsFit(claim, server.bytes);
    EncodeSender(claim, server.bytes);
    var body := new Writer();
    if claim.phone.Some? {
      body.PutBytes(1, claim.phone.value);
      assert EncodeAll(PhoneFields(claim.phone)) == Encode(BytesField(1, claim.phone.value)) + EncodeAll([]);
    }
    assert body.buf == EncodeAll(PhoneFields(claim.phone));
    body.PutUint(2, claim.device);
    body.PutWord64(3, claim.expires);
    body.PutBytes(4, SerializePublic(claim.key));
    body.PutBytes(5, server.bytes);
    body.PutBytes(6, claim.id);
    var signature := c.sign(secret, body.buf, nonce);
    if signature.None? {
      return Err(BadKey);
    }
    var bytes := WriteSigned(body.buf, signature.value);
    r := ParseSender(bytes);
  }
}
