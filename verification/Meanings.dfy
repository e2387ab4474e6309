/** What the bytes of each message mean, whoever wrote them: the last field of a number counts, unknown ones do not. */
module Meanings {
  import opened Basics
  import opened Codec
  import opened Wire
  import opened Suites
  import opened Chains
  import opened Records
  import opened RecordCodec
  import opened Posts
  import opened Certificates
  import opened Contents

  /** The last field under a number. */
  function Last(fs: seq<Field>, number: U32): (f: Option<Field>)
    ensures f.Some? ==> f.value in fs && f.value.number == number
    ensures f.None? <==> forall g :: g in fs ==> g.number != number
  {
    if fs == [] then None
    else
      var later := Last(fs[1..], number);
      if later.Some? then later else if fs[0].number == number then Some(fs[0]) else None
  }

  /** The first fault among some fields, if any is wrong. */
  function FirstWrong(wrong: Field -> Option<Fault>, fs: seq<Field>): Option<Fault> {
    if fs == [] then None else if wrong(fs[0]).Some? then wrong(fs[0]) else FirstWrong(wrong, fs[1..])
  }

  predicate IsBlob(f: Field, n: nat) {
    f.kind == Blob && |f.byteValue| == n
  }

  predicate IsSmall(f: Field) {
    f.kind == Uint && f.uintValue < 0x1_0000_0000
  }

  /** A public key is 33 bytes, the first of them five. */
  function KeyWrong(f: Field): Option<Fault> {
    if f.kind != Blob then Some(BadMessage)
    else if |f.byteValue| != 33 then Some(BadKey)
    else if f.byteValue[0] != 5 then Some(UnknownKeyType)
    else None
  }

  function BlobOf(f: Field): Option<Bytes> {
    if f.kind == Blob then Some(f.byteValue) else None
  }

  lemma LastFront(fs: seq<Field>, number: U32)
    requires fs != []
    ensures Last(fs, number) == if Last(fs[1..], number).Some? then Last(fs[1..], number) else Last([fs[0]], number)
  {
  }

  // Announcements

  function AnnounceWrong(f: Field): Option<Fault> {
    if f.number == 1 then if IsBlob(f, 16) then None else Some(BadMessage)
    else if f.number == 2 || f.number == 3 then if IsSmall(f) then None else Some(BadMessage)
    else if f.number == 4 then if IsBlob(f, 32) then None else Some(BadMessage)
    else if f.number == 5 then KeyWrong(f)
    else None
  }

  /** The parts of an announcement once some fields were read. */
  ghost predicate AnnounceEnds(p: AnnounceParts, q: AnnounceParts, fs: seq<Field>) {
    && (match Last(fs, 1) case None => q.circleId == p.circleId case Some(f) => q.circleId.Some? && q.circleId.value == f.byteValue)
    && (match Last(fs, 2) case None => q.chainId == p.chainId case Some(f) => q.chainId.Some? && q.chainId.value == f.uintValue)
    && (match Last(fs, 3) case None => q.step == p.step case Some(f) => q.step.Some? && q.step.value == f.uintValue)
    && (match Last(fs, 4) case None => q.seed == p.seed case Some(f) => q.seed.Some? && q.seed.value == f.byteValue)
    && (match Last(fs, 5) case None => q.signing == p.signing
        case Some(f) => q.signing.Some? && [5] + q.signing.value.u == f.byteValue)
  }

  lemma {:induction false} AnnounceFolding(fs: seq<Field>, p: AnnounceParts)
    ensures match FirstWrong(AnnounceWrong, fs) {
              case Some(e) => Fold(AnnounceField, fs, p) == Err(e)
              case None => Fold(AnnounceField, fs, p).Ok? && AnnounceEnds(p, Fold(AnnounceField, fs, p).value, fs)
            }
  {
    hide AnnounceEnds;
    if fs == [] {
      AnnounceStart(p);
    } else {
      AnnounceStep(p, fs[0]);
      if AnnounceField(p, fs[0]).Ok? {
        var next := AnnounceField(p, fs[0]).value;
        AnnounceFolding(fs[1..], next);
        if FirstWrong(AnnounceWrong, fs[1..]).None? {
          AnnounceOneMore(p, next, Fold(AnnounceField, fs[1..], next).value, fs);
        }
      }
    }
  }

  lemma AnnounceStart(p: AnnounceParts)
    ensures AnnounceEnds(p, p, [])
  {
  }

  lemma AnnounceStep(p: AnnounceParts, f: Field)
    ensures match AnnounceWrong(f) {
              case Some(e) => AnnounceField(p, f) == Err(e)
              case None => AnnounceField(p, f).Ok? && AnnounceEnds(p, AnnounceField(p, f).value, [f])
            }
  {
  }

  lemma AnnounceOneMore(p: AnnounceParts, next: AnnounceParts, q: AnnounceParts, fs: seq<Field>)
    requires fs != [] && AnnounceEnds(p, next, [fs[0]]) && AnnounceEnds(next, q, fs[1..])
    ensures AnnounceEnds(p, q, fs)
  {
    hide Last;
    LastFront(fs, 1);
    LastFront(fs, 2);
    LastFront(fs, 3);
    LastFront(fs, 4);
    LastFront(fs, 5);
  }

  /**
   * What an announcement in this version means: the first wrong field decides its fault; then bytes that are
   * not fields, then a missing number of one to five; otherwise the last field of each number is its part.
   */
  lemma AnnounceMeans(first: Byte, rest: Bytes)
    requires first / 16 == 3
    ensures var a, s := AnnounceOf([first] + rest), ScanOf(rest);
            match FirstWrong(AnnounceWrong, s.fields) {
              case Some(e) => a == Err(e)
              case None =>
                if s.stopped == Some(Overran) then a == Err(Fault.Trap)
                else if s.stopped.Some? || exists n: U32 :: 1 <= n <= 5 && Last(s.fields, n).None? then a == Err(BadMessage)
                else
                  && a.Ok? && a.value.bytes == [first] + rest && a.value.version == 3
                  && a.value.circleId == Last(s.fields, 1).value.byteValue
                  && a.value.chainId == Last(s.fields, 2).value.uintValue
                  && a.value.step == Last(s.fields, 3).value.uintValue
                  && a.value.seed == Last(s.fields, 4).value.byteValue
                  && [5] + a.value.signing.u == Last(s.fields, 5).value.byteValue
            }
  {
    hide Fold, FirstWrong;
    assert ([first] + rest)[1..] == rest;
    AnnounceFolding(ScanOf(rest).fields, NO_ANNOUNCE_PARTS);
  }

  // Notes

  function NoteWrong(f: Field): Option<Fault> {
    if f.number == 1 then if IsBlob(f, 16) then None else Some(BadMessage)
    else if f.number == 2 || f.number == 3 then if IsSmall(f) then None else Some(BadMessage)
    else None
  }

  ghost predicate NoteEnds(p: NoteParts, q: NoteParts, fs: seq<Field>) {
    && (match Last(fs, 1) case None => q.circleId == p.circleId case Some(f) => q.circleId.Some? && q.circleId.value == f.byteValue)
    && (match Last(fs, 2) case None => q.chainId == p.chainId case Some(f) => q.chainId.Some? && q.chainId.value == f.uintValue)
    && (match Last(fs, 3) case None => q.step == p.step case Some(f) => q.step.Some? && q.step.value == f.uintValue)
    && (match Last(fs, 4) case None => q.body == p.body case Some(f) => q.body == BlobOf(f))
  }

  lemma {:induction false} NoteFolding(fs: seq<Field>, p: NoteParts)
    ensures match FirstWrong(NoteWrong, fs) {
              case Some(e) => Fold(NoteField, fs, p) == Err(e)
              case None => Fold(NoteField, fs, p).Ok? && NoteEnds(p, Fold(NoteField, fs, p).value, fs)
            }
  {
    hide NoteEnds;
    if fs == [] {
      NoteStart(p);
    } else {
      NoteStep(p, fs[0]);
      if NoteField(p, fs[0]).Ok? {
        var next := NoteField(p, fs[0]).value;
        NoteFolding(fs[1..], next);
        if FirstWrong(NoteWrong, fs[1..]).None? {
          NoteOneMore(p, next, Fold(NoteField, fs[1..], next).value, fs);
        }
      }
    }
  }

  lemma NoteStart(p: NoteParts)
    ensures NoteEnds(p, p, [])
  {
  }

  lemma NoteStep(p: NoteParts, f: Field)
    ensures match NoteWrong(f) {
              case Some(e) => NoteField(p, f) == Err(e)
              case None => NoteField(p, f).Ok? && NoteEnds(p, NoteField(p, f).value, [f])
            }
  {
  }

  lemma NoteOneMore(p: NoteParts, next: NoteParts, q: NoteParts, fs: seq<Field>)
    requires fs != [] && NoteEnds(p, next, [fs[0]]) && NoteEnds(next, q, fs[1..])
    ensures NoteEnds(p, q, fs)
  {
    hide Last;
    LastFront(fs, 1);
    LastFront(fs, 2);
    LastFront(fs, 3);
    LastFront(fs, 4);
  }

  /** What a note in this version means: the last 64 bytes are its signature, the fields before them its parts. */
  lemma NoteMeans(first: Byte, fields: Bytes, signature: Bytes64)
    requires first / 16 == 3
    ensures var a, s := NoteOf([first] + fields + signature), ScanOf(fields);
            match FirstWrong(NoteWrong, s.fields) {
              case Some(e) => a == Err(e)
              case None =>
                if s.stopped == Some(Overran) then a == Err(Fault.Trap)
                else if s.stopped.Some? || exists n: U32 :: 1 <= n <= 4 && Last(s.fields, n).None? then a == Err(BadMessage)
                else if Last(s.fields, 4).value.kind != Blob then a == Err(BadMessage)
                else
                  && a.Ok? && a.value.bytes == [first] + fields + signature && a.value.version == 3
                  && a.value.circleId == Last(s.fields, 1).value.byteValue
                  && a.value.chainId == Last(s.fields, 2).value.uintValue
                  && a.value.step == Last(s.fields, 3).value.uintValue
                  && a.value.body == Last(s.fields, 4).value.byteValue
            }
    ensures forall c: Suite, key: Public :: NoteOf([first] + fields + signature).Ok? ==>
              (NoteOf([first] + fields + signature).value.SignedBy(c, key) <==> c.verify(key, [first] + fields, signature))
  {
    hide Fold, FirstWrong;
    var bytes := [first] + fields + signature;
    assert bytes[1..|bytes| - 64] == fields && bytes[..|bytes| - 64] == [first] + fields && bytes[|bytes| - 64..] == signature;
    NoteFolding(ScanOf(fields).fields, NO_NOTE_PARTS);
  }

  // Signed bodies

  ghost predicate SignedEnds(p: SignedParts, q: SignedParts, fs: seq<Field>) {
    && (match Last(fs, 1) case None => q.body == p.body case Some(f) => q.body == BlobOf(f))
    && (match Last(fs, 2) case None => q.signature == p.signature case Some(f) => q.signature == BlobOf(f))
  }

  lemma {:induction false} SignedFolding(fs: seq<Field>, p: SignedParts)
    ensures Fold(SignedField, fs, p).Ok? && SignedEnds(p, Fold(SignedField, fs, p).value, fs)
  {
    if fs != [] {
      hide Last;
      var next := SignedField(p, fs[0]).value;
      SignedFolding(fs[1..], next);
      LastFront(fs, 1);
      LastFront(fs, 2);
      LastAlone(fs[0], 1);
      LastAlone(fs[0], 2);
    } else {
      LastNone(1);
      LastNone(2);
    }
  }

  lemma LastNone(number: U32)
    ensures Last([], number) == None
  {
  }

  lemma LastAlone(f: Field, number: U32)
    ensures Last([f], number) == if f.number == number then Some(f) else None
  {
  }

  /** What signed bytes mean: the last fields one and two, of which the second has 64 bytes. */
  lemma SignedMeans(data: Bytes)
    ensures var a, s := SplitSigned(data), ScanOf(data);
            if s.stopped == Some(Overran) then a == Err(Fault.Trap)
            else if s.stopped.Some? || Last(s.fields, 1).None? || Last(s.fields, 2).None? then a == Err(BadMessage)
            else if Last(s.fields, 1).value.kind != Blob || Last(s.fields, 2).value.kind != Blob then a == Err(BadMessage)
            else if |Last(s.fields, 2).value.byteValue| != 64 then a == Err(BadSignature)
            else a.Ok? && a.value.body == Last(s.fields, 1).value.byteValue && a.value.signature == Last(s.fields, 2).value.byteValue
  {
    hide Fold;
    SignedFolding(ScanOf(data).fields, NO_SIGNED_PARTS);
  }

  // Server certificates

  function ServerWrong(f: Field): Option<Fault> {
    if f.number == 1 then if IsSmall(f) then None else Some(BadMessage)
    else if f.number == 2 then KeyWrong(f)
    else None
  }

  ghost predicate ServerEnds(p: ServerParts, q: ServerParts, fs: seq<Field>) {
    && (match Last(fs, 1) case None => q.keyId == p.keyId case Some(f) => q.keyId.Some? && q.keyId.value == f.uintValue)
    && (match Last(fs, 2) case None => q.key == p.key case Some(f) => q.key.Some? && [5] + q.key.value.u == f.byteValue)
  }

  lemma ServerStep(p: ServerParts, f: Field)
    ensures match ServerWrong(f) {
              case Some(e) => ServerField(p, f) == Err(e)
              case None => ServerField(p, f).Ok? && ServerEnds(p, ServerField(p, f).value, [f])
            }
  {
  }

  lemma {:induction false} ServerFolding(fs: seq<Field>, p: ServerParts)
    ensures match FirstWrong(ServerWrong, fs) {
              case Some(e) => Fold(ServerField, fs, p) == Err(e)
              case None => Fold(ServerField, fs, p).Ok? && ServerEnds(p, Fold(ServerField, fs, p).value, fs)
            }
  {
    hide Last;
    LastNone(1);
    LastNone(2);
    if fs != [] {
      ServerStep(p, fs[0]);
      LastFront(fs, 1);
      LastFront(fs, 2);
      if ServerField(p, fs[0]).Ok? {
        ServerFolding(fs[1..], ServerField(p, fs[0]).value);
      }
    }
  }

  /** What a server certificate means, once its signed body is split off. */
  lemma ServerMeans(data: Bytes)
    ensures SplitSigned(data).Err? ==> ServerOf(data) == Err(SplitSigned(data).error)
    ensures SplitSigned(data).Ok? ==>
              var a, signed := ServerOf(data), SplitSigned(data).value;
              var s := ScanOf(signed.body);
              match FirstWrong(ServerWrong, s.fields) {
                case Some(e) => a == Err(e)
                case None =>
                  if s.stopped == Some(Overran) then a == Err(Fault.Trap)
                  else if s.stopped.Some? || Last(s.fields, 1).None? || Last(s.fields, 2).None? then a == Err(BadMessage)
                  else
                    && a.Ok? && a.value.body == signed.body && a.value.signature == signed.signature && a.value.bytes == data
                    && a.value.keyId == Last(s.fields, 1).value.uintValue
                    && [5] + a.value.key.u == Last(s.fields, 2).value.byteValue
              }
  {
    hide Fold, FirstWrong, SplitSigned;
    if SplitSigned(data).Ok? {
      ServerFolding(ScanOf(SplitSigned(data).value.body).fields, NO_SERVER_PARTS);
    }
  }

  // Sender certificates

  function SenderWrong(f: Field): Option<Fault> {
    if f.number == 2 then if IsSmall(f) then None else Some(BadMessage)
    else if f.number == 4 then KeyWrong(f)
    else None
  }

  function WordOf(f: Field): Option<U64> {
    if f.kind == Word64 || f.kind == Word32 then Some(f.uintValue) else None
  }

  ghost predicate SenderEnds(p: SenderParts, q: SenderParts, fs: seq<Field>) {
    && (match Last(fs, 1) case None => q.phone == p.phone case Some(f) => q.phone == BlobOf(f))
    && (match Last(fs, 2) case None => q.device == p.device case Some(f) => q.device.Some? && q.device.value == f.uintValue)
    && (match Last(fs, 3) case None => q.expires == p.expires case Some(f) => q.expires == WordOf(f))
    && (match Last(fs, 4) case None => q.key == p.key case Some(f) => q.key.Some? && [5] + q.key.value.u == f.byteValue)
    && (match Last(fs, 5) case None => q.server == p.server case Some(f) => q.server == BlobOf(f))
    && (match Last(fs, 6) case None => q.id == p.id case Some(f) => q.id == BlobOf(f))
  }

  lemma SenderStep(p: SenderParts, f: Field)
    ensures match SenderWrong(f) {
              case Some(e) => SenderField(p, f) == Err(e)
              case None => SenderField(p, f).Ok? && SenderEnds(p, SenderField(p, f).value, [f])
            }
  {
  }

  lemma SenderOneMore(p: SenderParts, next: SenderParts, q: SenderParts, fs: seq<Field>)
    requires fs != [] && SenderEnds(p, next, [fs[0]]) && SenderEnds(next, q, fs[1..])
    ensures SenderEnds(p, q, fs)
  {
    hide Last;
    LastFront(fs, 1);
    LastFront(fs, 2);
    LastFront(fs, 3);
    LastFront(fs, 4);
    LastFront(fs, 5);
    LastFront(fs, 6);
  }

  lemma SenderStart(p: SenderParts)
    ensures SenderEnds(p, p, [])
  {
  }

  lemma {:induction false} SenderFolding(fs: seq<Field>, p: SenderParts)
    ensures match FirstWrong(SenderWrong, fs) {
              case Some(e) => Fold(SenderField, fs, p) == Err(e)
              case None => Fold(SenderField, fs, p).Ok? && SenderEnds(p, Fold(SenderField, fs, p).value, fs)
            }
  {
    hide SenderEnds;
    if fs == [] {
      SenderStart(p);
    } else {
      SenderStep(p, fs[0]);
      if SenderField(p, fs[0]).Ok? {
        var next := SenderField(p, fs[0]).value;
        SenderFolding(fs[1..], next);
        if FirstWrong(SenderWrong, fs[1..]).None? {
          SenderOneMore(p, next, Fold(SenderField, fs[1..], next).value, fs);
        }
      }
    }
  }

  /** The field has the kind its part is read as; a mistyped one counts as missing. */
  predicate HasBlob(fs: seq<Field>, number: U32) {
    Last(fs, number).Some? && Last(fs, number).value.kind == Blob
  }

  /** A sender certificate has all its parts but a phone number, which may be missing. */
  predicate SenderWhole(fs: seq<Field>) {
    && HasBlob(fs, 6) && Last(fs, 2).Some? && Last(fs, 4).Some? && HasBlob(fs, 5)
    && Last(fs, 3).Some? && (Last(fs, 3).value.kind == Word64 || Last(fs, 3).value.kind == Word32)
  }

  /** What a sender certificate means, down to the server certificate nested in it. */
  lemma SenderMeans(data: Bytes)
    ensures SplitSigned(data).Err? ==> SenderOf(data) == Err(SplitSigned(data).error)
    ensures SplitSigned(data).Ok? ==>
              var a, signed := SenderOf(data), SplitSigned(data).value;
              var s := ScanOf(signed.body);
              match FirstWrong(SenderWrong, s.fields) {
                case Some(e) => a == Err(e)
                case None =>
                  if s.stopped == Some(Overran) then a == Err(Fault.Trap)
                  else if s.stopped.Some? || !SenderWhole(s.fields) then a == Err(BadMessage)
                  else if ServerOf(Last(s.fields, 5).value.byteValue).Err? then a.Err? && a.error == ServerOf(Last(s.fields, 5).value.byteValue).error
                  else
                    && a.Ok? && a.value.body == signed.body && a.value.signature == signed.signature && a.value.bytes == data
                    && a.value.server == ServerOf(Last(s.fields, 5).value.byteValue).value
                    && a.value.id == Last(s.fields, 6).value.byteValue
                    && a.value.device == Last(s.fields, 2).value.uintValue
                    && a.value.expires == Last(s.fields, 3).value.uintValue
                    && [5] + a.value.key.u == Last(s.fields, 4).value.byteValue
                    && a.value.phone == if HasBlob(s.fields, 1) then Some(Last(s.fields, 1).value.byteValue) else None
              }
  {
    hide Fold, FirstWrong, SplitSigned, ServerOf, Last;
    if SplitSigned(data).Ok? {
      SenderFolding(ScanOf(SplitSigned(data).value.body).fields, NO_SENDER_PARTS);
    }
  }

  // Contents

  function ContentWrong(f: Field): Option<Fault> {
    if f.number == 1 && !(f.kind == Uint && f.uintValue in {1, 2, 7, 8}) then Some(BadMessage) else None
  }

  function KindNumbered(v: U64): MessageKind {
    if v == 1 then First else if v == 2 then MessageKind.Whisper else if v == 7 then MessageKind.Circle else Plain
  }

  ghost predicate ContentEnds(p: ContentParts, q: ContentParts, fs: seq<Field>) {
    && (match Last(fs, 1) case None => q.kind == p.kind case Some(f) => q.kind == Some(KindNumbered(f.uintValue)))
    && (match Last(fs, 2) case None => q.sender == p.sender case Some(f) => q.sender == BlobOf(f))
    && (match Last(fs, 3) case None => q.body == p.body case Some(f) => q.body == BlobOf(f))
    && (match Last(fs, 4) case None => q.hint == p.hint case Some(f) => q.hint == if f.kind == Uint then f.uintValue % 256 else 0)
    && (match Last(fs, 5) case None => q.circleId == p.circleId case Some(f) => q.circleId == BlobOf(f))
  }

  lemma ContentStep(p: ContentParts, f: Field)
    ensures match ContentWrong(f) {
              case Some(e) => ContentField(p, f) == Err(e)
              case None => ContentField(p, f).Ok? && ContentEnds(p, ContentField(p, f).value, [f])
            }
  {
  }

  lemma ContentOneMore(p: ContentParts, next: ContentParts, q: ContentParts, fs: seq<Field>)
    requires fs != [] && ContentEnds(p, next, [fs[0]]) && ContentEnds(next, q, fs[1..])
    ensures ContentEnds(p, q, fs)
  {
    hide Last;
    LastFront(fs, 1);
    LastFront(fs, 2);
    LastFront(fs, 3);
    LastFront(fs, 4);
    LastFront(fs, 5);
  }

  lemma ContentStart(p: ContentParts)
    ensures ContentEnds(p, p, [])
  {
  }

  lemma {:induction false} ContentFolding(fs: seq<Field>, p: ContentParts)
    ensures match FirstWrong(ContentWrong, fs) {
              case Some(e) => Fold(ContentField, fs, p) == Err(e)
              case None => Fold(ContentField, fs, p).Ok? && ContentEnds(p, Fold(ContentField, fs, p).value, fs)
            }
  {
    hide ContentEnds;
    if fs == [] {
      ContentStart(p);
    } else {
      ContentStep(p, fs[0]);
      if ContentField(p, fs[0]).Ok? {
        var next := ContentField(p, fs[0]).value;
        ContentFolding(fs[1..], next);
        if FirstWrong(ContentWrong, fs[1..]).None? {
          ContentOneMore(p, next, Fold(ContentField, fs[1..], next).value, fs);
        }
      }
    }
  }

  /** What an envelope's content means: a hint keeps its low byte and is zero by default, a group may be missing. */
  lemma ContentMeans(data: Bytes)
    ensures var a, s := ContentOf(data), ScanOf(data);
            match FirstWrong(ContentWrong, s.fields) {
              case Some(e) => a == Err(e)
              case None =>
                if s.stopped == Some(Overran) then a == Err(Fault.Trap)
                else if s.stopped.Some? || Last(s.fields, 1).None? || !HasBlob(s.fields, 2) then a == Err(BadMessage)
                else if SenderOf(Last(s.fields, 2).value.byteValue).Err? then a.Err? && a.error == SenderOf(Last(s.fields, 2).value.byteValue).error
                else if !HasBlob(s.fields, 3) then a == Err(BadMessage)
                else
                  && a.Ok? && a.value.bytes == data
                  && a.value.kind == KindNumbered(Last(s.fields, 1).value.uintValue)
                  && a.value.sender == SenderOf(Last(s.fields, 2).value.byteValue).value
                  && a.value.body == Last(s.fields, 3).value.byteValue
                  && a.value.hint == (match Last(s.fields, 4) case None => 0 case Some(f) => if f.kind == Uint then f.uintValue % 256 else 0)
                  && a.value.circleId == (match Last(s.fields, 5) case None => None case Some(f) => BlobOf(f))
            }
  {
    hide Fold, FirstWrong, SenderOf, Last;
    ContentFolding(ScanOf(data).fields, NO_CONTENT_PARTS);
  }

  // Members of a record

  /** A number of a record: mistyped it is zero. */
  function NumberOf(f: Field): U64 {
    if f.kind == Uint then f.uintValue else 0
  }

  function CountOf(fs: seq<Field>, number: U32): nat {
    if fs == [] then 0 else (if fs[0].number == number then 1 else 0) + CountOf(fs[1..], number)
  }

  ghost predicate MemberEnds(p: MemberParts, q: MemberParts, fs: seq<Field>) {
    && (match Last(fs, 1) case None => q.chainId == p.chainId case Some(f) => q.chainId == NumberOf(f))
    && (Last(fs, 2).None? ==> q.link == p.link)
    && (Last(fs, 3).None? ==> q.keys == p.keys)
    && (|q.skipped| == |p.skipped| + CountOf(fs, 4) && p.skipped <= q.skipped)
    && (match Last(fs, 5) case None => q.version == p.version case Some(f) => q.version == NumberOf(f))
  }

  lemma MemberStep(p: MemberParts, f: Field)
    ensures MemberField(p, f).Ok? ==> MemberEnds(p, MemberField(p, f).value, [f])
    ensures f.number in {1, 5} && f.kind == Uint && f.uintValue >= 0x1_0000_0000 ==> MemberField(p, f) == Err(BadSession)
    ensures f.number in {2, 3, 4} && f.kind != Blob ==> MemberField(p, f) == Err(BadSession)
  {
    hide Parse;
    assert CountOf([f], 4) == if f.number == 4 then 1 else 0;
  }

  lemma MemberOneMore(p: MemberParts, next: MemberParts, q: MemberParts, fs: seq<Field>)
    requires fs != [] && MemberEnds(p, next, [fs[0]]) && MemberEnds(next, q, fs[1..])
    ensures MemberEnds(p, q, fs)
  {
    hide Last;
    assert CountOf([fs[0]], 4) == if fs[0].number == 4 then 1 else 0;
    LastFront(fs, 1);
    LastFront(fs, 2);
    LastFront(fs, 3);
    LastFront(fs, 5);
  }

  lemma MemberStart(p: MemberParts)
    ensures MemberEnds(p, p, [])
  {
  }

  lemma {:induction false} MemberFolding(fs: seq<Field>, p: MemberParts)
    ensures Fold(MemberField, fs, p).Ok? ==> MemberEnds(p, Fold(MemberField, fs, p).value, fs)
  {
    hide MemberEnds, MemberField;
    if fs == [] {
      MemberStart(p);
    } else if MemberField(p, fs[0]).Ok? {
      var next := MemberField(p, fs[0]).value;
      MemberStep(p, fs[0]);
      MemberFolding(fs[1..], next);
      if Fold(MemberField, fs[1..], next).Ok? {
        MemberOneMore(p, next, Fold(MemberField, fs[1..], next).value, fs);
      }
    }
  }

  /** A member without a number has its default, without keys there is none, and each field four is one kept key. */
  lemma MemberMeans(data: Bytes)
    ensures var a, s := MemberOf(data), ScanOf(data);
            && (a.Ok? ==>
                  && s.stopped.None? && Last(s.fields, 3).Some?
                  && a.value.chainId == (match Last(s.fields, 1) case None => 0 case Some(f) => NumberOf(f))
                  && a.value.version == (match Last(s.fields, 5) case None => 0 case Some(f) => NumberOf(f))
                  && (Last(s.fields, 2).None? ==> a.value.link == Link(0, ZERO32))
                  && |a.value.skipped| == CountOf(s.fields, 4))
            && (s.fields == [] && s.stopped != Some(Overran) ==> a == Err(BadSession))
  {
    hide Fold, Last, MemberField, CountOf;
    MemberFolding(ScanOf(data).fields, NO_MEMBER_PARTS);
    FoldNone(MemberField, NO_MEMBER_PARTS);
  }

  /** A link or a kept key: the last number one, and the last of its 32-byte seeds. */
  lemma {:induction false} SeedFolding(fs: seq<Field>, l: Link)
    ensures Fold(SeedField, fs, l).Ok? ==>
              Fold(SeedField, fs, l).value.step == (match Last(fs, 1) case None => l.step case Some(f) => NumberOf(f))
    ensures (forall f :: f in fs && f.number == 2 ==> IsBlob(f, 32)) && Fold(SeedField, fs, l).Ok? ==>
              Fold(SeedField, fs, l).value.seed == (match Last(fs, 2) case None => l.seed case Some(f) => f.byteValue)
  {
    hide Last;
    LastNone(1);
    LastNone(2);
    if fs != [] {
      LastFront(fs, 1);
      LastFront(fs, 2);
      LastAlone(fs[0], 1);
      LastAlone(fs[0], 2);
      assert fs[0] in fs;
      if SeedField(l, fs[0]).Ok? {
        SeedFolding(fs[1..], SeedField(l, fs[0]).value);
      }
    }
  }

  /** A link or a kept key alone: without a number its step is zero, without a seed its seed is zeros. */
  lemma SeedMeans(data: Bytes)
    ensures var a, fs := Parse(SeedField, data, Link(0, ZERO32), BadSession), ScanOf(data).fields;
            a.Ok? ==>
              && a.value.step == (match Last(fs, 1) case None => 0 case Some(f) => NumberOf(f))
              && ((forall f :: f in fs && f.number == 2 ==> IsBlob(f, 32)) ==>
                    a.value.seed == (match Last(fs, 2) case None => ZERO32 case Some(f) => f.byteValue))
  {
    hide Fold, Last;
    SeedFolding(ScanOf(data).fields, Link(0, ZERO32));
  }

  /** One field of a pair of keys: a public key, or a secret of 32 bytes, an empty one being none. */
  lemma KeyFieldMeans(k: Keys, f: Field)
    ensures f.number == 1 && f.kind != Blob ==> KeyField(k, f) == Err(BadSession)
    ensures f.number == 1 && f.kind == Blob ==>
              match KeyWrong(f) {
                case Some(e) => KeyField(k, f) == Err(e)
                case None => KeyField(k, f) == Ok(k.(signing := Some(Public(f.byteValue[1..]))))
              }
    ensures f.number == 2 && f.kind == Blob && |f.byteValue| !in {0, 32} ==> KeyField(k, f) == Err(BadKey)
    ensures f.number == 2 && IsBlob(f, 32) ==> KeyField(k, f) == Ok(k.(secret := Some(Clamp(f.byteValue))))
    ensures f.number !in {1, 2} || (f.number == 2 && (f.kind != Blob || f.byteValue == [])) ==> KeyField(k, f) == Ok(k)
  {
  }
}
