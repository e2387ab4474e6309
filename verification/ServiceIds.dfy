/** Service ids: an account or a phone-number identity, in text and in two byte forms. */
module ServiceIds {
  import opened Basics
  import opened Names

  datatype ServiceKind = Aci | Pni

  datatype ServiceId = ServiceId(kind: ServiceKind, uuid: Bytes16)

  function TextOf(s: ServiceId): string {
    if s.kind == Pni then "PNI:" + UuidText(s.uuid) else UuidText(s.uuid)
  }

  function FromText(s: string): Result<ServiceId, Fault> {
    if |s| >= 4 && s[..4] == "PNI:" then
      var uuid :- UuidBytes(s[4..]);
      Ok(ServiceId(Pni, uuid))
    else
      var uuid :- UuidBytes(s);
      Ok(ServiceId(Aci, uuid))
  }

  /** Seventeen bytes: the kind, then the id. */
  function Fixed(s: ServiceId): Bytes17 {
    [if s.kind == Pni then 1 else 0] + s.uuid
  }

  function FromFixed(b: Bytes): Result<ServiceId, Fault> {
    if |b| != 17 || b[0] > 1 then Err(BadArgument)
    else
      var uuid: Bytes16 := b[1..];
      Ok(ServiceId(if b[0] == 1 then Pni else Aci, uuid))
  }

  /** Sixteen bytes for an account, seventeen for a phone identity. */
  function Compact(s: ServiceId): Bytes {
    if s.kind == Aci then s.uuid else Fixed(s)
  }

  function FromCompact(b: Bytes): Result<ServiceId, Fault> {
    if |b| == 16 then
      var uuid: Bytes16 := b;
      Ok(ServiceId(Aci, uuid))
    else if |b| == 17 && b[0] == 1 then
      var uuid: Bytes16 := b[1..];
      Ok(ServiceId(Pni, uuid))
    else Err(BadArgument)
  }

  /** Every encoding reads back; the text of an account id is never taken for a phone identity's. */
  lemma EncodingsReadBack(s: ServiceId)
    ensures FromText(TextOf(s)) == Ok(s)
    ensures FromFixed(Fixed(s)) == Ok(s)
    ensures FromCompact(Compact(s)) == Ok(s)
  {
    hide UuidBytes;
    TextReadsBack(s.uuid);
    var text := UuidText(s.uuid);
    if s.kind != Pni {
      assert text[..4][0] == text[0] && text[0] != 'P';
    }
  }

  /** The byte forms are canonical: what is accepted is the encoding of what it reads as. */
  lemma AcceptedIsCanonical(b: Bytes)
    ensures match FromFixed(b) { case Ok(s) => Fixed(s) == b case Err(_) => true }
    ensures match FromCompact(b) { case Ok(s) => Compact(s) == b case Err(_) => true }
  {
  }

  lemma TextIsInjective(s: ServiceId, t: ServiceId)
    ensures TextOf(s) == TextOf(t) <==> s == t
  {
    EncodingsReadBack(s);
    EncodingsReadBack(t);
  }

  /** The three forms: an account's kind is zero and its text bare, a phone identity's one and marked. */
  lemma FormsAre(uuid: Bytes16)
    ensures Fixed(ServiceId(Aci, uuid)) == [0] + uuid && Fixed(ServiceId(Pni, uuid)) == [1] + uuid
    ensures Compact(ServiceId(Aci, uuid)) == uuid && Compact(ServiceId(Pni, uuid)) == [1] + uuid
    ensures TextOf(ServiceId(Aci, uuid)) == UuidText(uuid) && TextOf(ServiceId(Pni, uuid)) == "PNI:" + UuidText(uuid)
  {
  }

  /** Exactly those byte forms are accepted, and every other one is a bad argument. */
  lemma AcceptedForms(b: Bytes)
    ensures FromFixed(b).Ok? <==> |b| == 17 && b[0] <= 1
    ensures FromCompact(b).Ok? <==> |b| == 16 || (|b| == 17 && b[0] == 1)
    ensures FromFixed(b).Err? ==> FromFixed(b) == Err(BadArgument)
    ensures FromCompact(b).Err? ==> FromCompact(b) == Err(BadArgument)
  {
  }
}
