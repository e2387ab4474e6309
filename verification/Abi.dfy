/** The circle exports: record bytes in, an answer and new record bytes out through two cells. */
module Abi {
  import opened Basics
  import opened Codec
  import opened Wire
  import opened Suites
  import opened Chains
  import opened Records
  import opened RecordCodec
  import opened Posts
  import opened Windows
  import opened Ownership
  import Cipher
  import Calls
  import Cbc

  // What an export answers

  datatype Request =
    | OpenRequest(note: Bytes)
    | AdmitRequest(announce: Bytes)
    | SealRequest(circleId: Bytes, plain: Bytes, nonce: Bytes64)
    | AnnounceRequest(circleId: Bytes, entropy: Cipher.Entropy)

  /** The circle call a request stands for; a circle id of the wrong length stands for none. */
  function CallOf(req: Request): Result<Calls.Call, Fault> {
    match req
    case OpenRequest(note) => Ok(Calls.OpenCall(note))
    case AdmitRequest(announce) => Ok(Calls.AdmitCall(announce))
    case SealRequest(id, plain, nonce) => if |id| == 16 then Ok(Calls.SealCall(id, plain, nonce)) else Err(WrongLength)
    case AnnounceRequest(id, entropy) => if |id| == 16 then Ok(Calls.AnnounceCall(id, entropy)) else Err(WrongLength)
  }

  /** No record at all is an empty circle. */
  function CircleFrom(record: Bytes): Result<seq<MemberState>, Fault> {
    if record == [] then Ok([]) else CircleOf(record)
  }

  datatype Reply = Reply(answer: Bytes, record: Bytes)

  function Answer(c: Suite, record: Bytes, req: Request): Result<Reply, Fault> {
    var ms :- CircleFrom(record);
    var call :- CallOf(req);
    var (answer, left) :- Calls.Apply(c, ms, call);
    Ok(Reply(answer, CircleBytes(left)))
  }

  // Bytes answer as circles do

  const SEED_FIELDS_MAX := 100
  const MEMBER_MAX := 300_000

  lemma SeedLength(step: U32, seed: Bytes32)
    ensures |EncodeAll(SeedFields(step, seed))| <= SEED_FIELDS_MAX
  {
    hide Encode;
    EncodedLength(UintField(1, step));
    EncodedLength(BytesField(2, seed));
    EncodeAllSplits(UintIfSet(1, step), [BytesField(2, seed)]);
  }

  lemma {:induction false} SkippedLength(ys: seq<Yield>)
    ensures |EncodeAll(SkippedFields(ys))| <= (SEED_FIELDS_MAX + 20) * |ys|
  {
    hide Encode, SeedFields;
    if ys != [] {
      SeedLength(ys[0].step, ys[0].seed);
      var data := EncodeAll(SeedFields(ys[0].step, ys[0].seed));
      EncodedLength(BytesField(4, data));
      SkippedLength(ys[1..]);
    }
  }

  lemma HeadLength(m: MemberState)
    ensures |EncodeAll(HeadFields(m))| <= 1000
  {
    hide Encode;
    SeedLength(m.link.step, m.link.seed);
    var keys := KeyFields(m.signing, m.secret);
    EncodedLength(BytesField(1, SerializePublic(m.signing)));
    if m.secret.Some? {
      EncodedLength(BytesField(2, m.secret.value));
      EncodeAllSplits([BytesField(1, SerializePublic(m.signing))], [BytesField(2, m.secret.value)]);
    }
    EncodeHead(m);
    EncodedLength(UintField(1, m.chainId));
    EncodedLength(BytesField(2, EncodeAll(SeedFields(m.link.step, m.link.seed))));
    EncodedLength(BytesField(3, EncodeAll(keys)));
  }

  lemma MemberLength(m: MemberState)
    requires |m.skipped| <= MAX_SKIPPED
    ensures |EncodeAll(MemberFields(m))| <= MEMBER_MAX
  {
    hide Encode, HeadFields, SkippedFields;
    HeadLength(m);
    SkippedLength(m.skipped);
    EncodedLength(UintField(5, m.version));
    EncodeAllSplits(HeadFields(m), SkippedFields(m.skipped));
    EncodeAllSplits(HeadFields(m) + SkippedFields(m.skipped), UintIfSet(5, m.version));
  }

  lemma {:induction false} CircleLength(ms: seq<MemberState>)
    requires forall m :: m in ms ==> |m.skipped| <= MAX_SKIPPED
    ensures |CircleBytes(ms)| <= (MEMBER_MAX + 20) * |ms|
  {
    hide Encode, MemberFields;
    if ms != [] {
      MemberLength(ms[0]);
      EncodedLength(BytesField(1, EncodeAll(MemberFields(ms[0]))));
      CircleLength(ms[1..]);
    }
  }

  /** A reachable circle's record is bounded: five members of at most 2,000 kept keys. */
  lemma HeldRecordIsSmall(c: Suite, ms: seq<MemberState>, ws: map<U32, Window>)
    requires Calls.Held(c, ms, ws)
    ensures |CircleBytes(ms)| <= 1_600_000
  {
    forall m | m in ms ensures |m.skipped| <= MAX_SKIPPED {
    }
    CircleLength(ms);
  }

  /** Before any call: a record that cannot be read is its own fault, then a circle id that is not sixteen bytes. */
  lemma RequestRefused(c: Suite, record: Bytes, req: Request)
    ensures record != [] && CircleOf(record).Err? ==> Answer(c, record, req) == Err(CircleOf(record).error)
    ensures (record == [] || CircleOf(record).Ok?) && (req.SealRequest? || req.AnnounceRequest?) && |req.circleId| != 16 ==>
              Answer(c, record, req) == Err(WrongLength)
  {
    hide CircleOf, Calls.Apply;
  }

  /** The record a host keeps after a call. */
  function RecordAfter(c: Suite, record: Bytes, req: Request): Bytes {
    match Answer(c, record, req)
    case Err(_) => record
    case Ok(reply) => reply.record
  }

  function RunOnRecord(c: Suite, record: Bytes, reqs: seq<Request>): Bytes
    decreases |reqs|
  {
    if reqs == [] then record else RunOnRecord(c, RecordAfter(c, record, reqs[0]), reqs[1..])
  }

  /** The circle calls behind some requests, leaving out the ones that stand for none. */
  function CallsOf(reqs: seq<Request>): seq<Calls.Call> {
    if reqs == [] then []
    else (match CallOf(reqs[0]) case Ok(call) => [call] case Err(_) => []) + CallsOf(reqs[1..])
  }

  lemma RecordReadsBack(c: Suite, ms: seq<MemberState>, ws: map<U32, Window>)
    requires Calls.Held(c, ms, ws)
    ensures CircleFrom(CircleBytes(ms)) == Ok(ms)
  {
    HeldRecordIsSmall(c, ms, ws);
    CircleRoundTrip(ms);
  }

  /** One request on the record of a reachable circle is the circle call, saved and loaded. */
  lemma RequestIsCall(c: Suite, ms: seq<MemberState>, ws: map<U32, Window>, req: Request)
    requires Calls.Held(c, ms, ws)
    ensures match CallOf(req) {
              case Err(e) => Answer(c, CircleBytes(ms), req) == Err(e) && RecordAfter(c, CircleBytes(ms), req) == CircleBytes(ms)
              case Ok(call) =>
                && RecordAfter(c, CircleBytes(ms), req) == CircleBytes(Calls.After(c, ms, call))
                && match Calls.Apply(c, ms, call) {
                     case Err(e) => Answer(c, CircleBytes(ms), req) == Err(e)
                     case Ok(done) => Answer(c, CircleBytes(ms), req) == Ok(Reply(done.0, CircleBytes(done.1)))
                   }
            }
  {
    hide CircleBytes, Calls.Apply, CircleFrom, Calls.Held;
    RecordReadsBack(c, ms, ws);
  }

  /** Any run of requests, saving and loading the record each time, is the run of calls on the circle itself. */
  lemma {:induction false} RunOnRecordIsRun(c: Suite, ms: seq<MemberState>, ws: map<U32, Window>, reqs: seq<Request>)
    requires Calls.Held(c, ms, ws)
    ensures RunOnRecord(c, CircleBytes(ms), reqs) == CircleBytes(Calls.Run(c, ms, CallsOf(reqs)))
    decreases |reqs|
  {
    hide CircleBytes, Calls.Apply, Calls.Held, Calls.After, Calls.NextWindows, Answer;
    if reqs != [] {
      RequestIsCall(c, ms, ws, reqs[0]);
      match CallOf(reqs[0]) {
        case Err(_) =>
          assert CallsOf(reqs) == CallsOf(reqs[1..]);
          RunOnRecordIsRun(c, ms, ws, reqs[1..]);
        case Ok(call) =>
          Calls.CallKeepsHeld(c, ms, ws, call);
          RunOnRecordIsRun(c, Calls.After(c, ms, call), Calls.NextWindows(c, ms, ws, call), reqs[1..]);
      }
    }
  }

  /** The note is for a held chain and signed by it. */
  predicate Addressed(c: Suite, ms: seq<MemberState>, note: Note)
    requires |note.bytes| >= SIGNATURE_LENGTH
  {
    match IndexOf(ms, note.chainId)
    case None => false
    case Some(i) => note.version == ms[i].version && note.SignedBy(c, ms[i].signing)
  }

  /** A note for a step its window does not refuse, whose body does not open under that step's key. */
  predicate BadBody(c: Suite, ms: seq<MemberState>, w: Window, note: Note)
    requires |note.bytes| >= SIGNATURE_LENGTH
  {
    var keys := KeyOf(c, w, note.step).Keys(c);
    Addressed(c, ms, note) && Refusal(w, note.step).None? && Cbc.Open(c, keys.cipher, keys.iv, note.body).Err?
  }

  /**
   * Among the opens that fail, exactly those with a bad body change the circle in memory: their key is
   * spent. A trap, which ends the process, leaves the keys of the steps passed on the way to the last one.
   */
  lemma OnlyBadBodySpendsKey(c: Suite, ms: seq<MemberState>, ws: map<U32, Window>, note: Note)
    requires Calls.Held(c, ms, ws) && |note.bytes| >= SIGNATURE_LENGTH
    ensures IndexOf(ms, note.chainId).Some? ==> note.chainId in ws
    ensures var o := Cipher.Open(c, ms, note);
            match IndexOf(ms, note.chainId) {
              case None => o == Cipher.Outcome(ms, Err(NoSession))
              case Some(i) =>
                var w := ws[note.chainId];
                && (o.answer.Err? && o.answer != Err(Trap) ==> (o.members != ms <==> BadBody(c, ms, w, note)))
                && (BadBody(c, ms, w, note) ==> o.answer.Err?)
                && (o.answer == Err(Trap) <==> Addressed(c, ms, note) && Refusal(w, note.step) == Some(Trap))
                && (o.answer == Err(Trap) ==>
                    o.members == ms[i := ms[i].(skipped := Cipher.KeptAfter(ms[i].skipped, Yields(c, ms[i].link, LAST_STEP - ms[i].link.step)))])
            }
  {
    hide Tracks, Refusal, Cbc.Open, Cipher.KeptAfter, Cipher.YieldFor, Cipher.Open;
    OpensAddressed(c, ms, note);
    match IndexOf(ms, note.chainId) {
      case None =>
      case Some(i) =>
        var w := ws[note.chainId];
        var keys := KeyOf(c, w, note.step).Keys(c);
        YieldForTracks(c, ms[i], w, note.step);
        RefusedUnchanged(c, ms[i], w, note.step);
        BodyNeverTraps(c, keys.cipher, keys.iv, note.body);
        PuttingBack(ms, i, Cipher.YieldFor(c, ms[i], note.step).0);
    }
  }

  lemma PuttingBack(ms: seq<MemberState>, i: nat, next: MemberState)
    requires i < |ms|
    ensures ms[i := next] == ms <==> next == ms[i]
  {
    assert ms[i := next][i] == next;
  }

  /** An open in three parts: whom it is for, what its step gives, what its body opens to. */
  lemma OpensAddressed(c: Suite, ms: seq<MemberState>, note: Note)
    requires |note.bytes| >= SIGNATURE_LENGTH
    ensures var o := Cipher.Open(c, ms, note);
            match IndexOf(ms, note.chainId) {
              case None => o == Cipher.Outcome(ms, Err(NoSession))
              case Some(i) =>
                if note.version != ms[i].version then o == Cipher.Outcome(ms, Err(UnknownVersion))
                else if !note.SignedBy(c, ms[i].signing) then o == Cipher.Outcome(ms, Err(BadSignature))
                else
                  var (next, y) := Cipher.YieldFor(c, ms[i], note.step);
                  && o.members == ms[i := next]
                  && o.answer == match y {
                       case Err(e) => Err(e)
                       case Ok(key) => Cbc.Open(c, key.Keys(c).cipher, key.Keys(c).iv, note.body)
                     }
            }
  {
    hide Cbc.Open, Cipher.YieldFor;
  }

  /** What a refused step leaves of the member: all of it, but for a trap. */
  lemma RefusedUnchanged(c: Suite, m: MemberState, w: Window, step: U32)
    requires Tracks(c, m, w)
    ensures var (next, y) := Cipher.YieldFor(c, m, step);
            match Refusal(w, step) {
              case None => next != m
              case Some(Trap) => next == m.(skipped := Cipher.KeptAfter(m.skipped, Yields(c, m.link, LAST_STEP - m.link.step)))
              case Some(_) => next == m
            }
  {
    hide Cipher.KeptAfter, Yields;
    YieldForTracks(c, m, w, step);
  }

  lemma BodyNeverTraps(c: Suite, key: Bytes32, iv: Bytes16, body: Bytes)
    ensures Cbc.Open(c, key, iv, body) != Err(Trap)
  {
  }

  // The exports

  method LoadCircle(record: Bytes) returns (r: Result<Circle, Fault>)
    ensures match CircleFrom(record) {
              case Err(e) => r == Err(e)
              case Ok(ms) => r.Ok? && fresh(r.value) && r.value.Valid() && r.value.States() == ms &&
                             forall m :: m in r.value.members ==> fresh(m)
            }
  {
    if record == [] {
      var circle := new Circle();
      return Ok(circle);
    }
    r := ParseCircle(record);
  }

  /** What fits the address space: the text to seal and the record to hand out. */
  predicate Fits(c: Suite, record: Bytes, req: Request) {
    && (req.SealRequest? ==> Cipher.Sealable(req.plain))
    && (Answer(c, record, req).Ok? ==> |Answer(c, record, req).value.record| < U64_LIMIT)
  }

  /** The circle call a request stands for, on a circle in memory. */
  method Perform(c: Suite, circle: Circle, req: Request) returns (r: Result<Bytes, Fault>)
    requires circle.Valid() && (req.SealRequest? ==> Cipher.Sealable(req.plain))
    modifies circle, circle.members
    ensures match CallOf(req) {
              case Err(e) => r == Err(e)
              case Ok(call) =>
                match Calls.Apply(c, old(circle.States()), call)
                case Err(e) => r == Err(e)
                case Ok(done) => r == Ok(done.0) && circle.States() == done.1
            }
  {
    hide Cipher.Open, Cipher.Seal, Cipher.AnnounceOwn, Admitted, AnnounceOf, NoteOf;
    match req {
      case OpenRequest(data) =>
        if circle.members == [] {
          return Err(NoSession);
        }
        var note :- ParseNote(data);
        r := Cipher.OpenNote(c, circle, note);
      case AdmitRequest(data) =>
        var a :- ParseAnnounce(data);
        circle.Admit(Cipher.FromAnnounce(a));
        return Ok([]);
      case SealRequest(id, plain, nonce) =>
        if |id| != 16 {
          return Err(WrongLength);
        }
        r := Cipher.SealNote(c, circle, id, plain, nonce);
      case AnnounceRequest(id, entropy) =>
        if |id| != 16 {
          return Err(WrongLength);
        }
        var a :- Cipher.AnnounceOwnChain(c, circle, id, entropy);
        return Ok(a.bytes);
    }
  }

  /** Loads the record, does the request and writes the circle out again. */
  method Work(c: Suite, record: Bytes, req: Request) returns (r: Result<Reply, Fault>)
    requires Fits(c, record, req)
    ensures r == Answer(c, record, req)
  {
    hide CircleBytes, CircleFrom, StatesOf, Calls.Apply;
    var circle :- LoadCircle(record);
    assert forall i :: 0 <= i < |circle.members| ==> circle.members[i] in circle.members;
    var answer :- Perform(c, circle, req);
    var data := Serialize(circle);
    return Ok(Reply(answer, data));
  }

  /** The name the host gives a status. */
  function KindName(status: int): string {
    if status == 1 then "InvalidArgument"
    else if status == 2 then "InvalidState"
    else if status == 3 then "InvalidKey"
    else if status == 4 then "InvalidSignature"
    else if status == 5 then "InvalidMessage"
    else if status == 6 then "InvalidKeyIdentifier"
    else if status == 7 then "UntrustedIdentity"
    else if status == 8 then "SessionNotFound"
    else if status == 9 then "DuplicatedMessage"
    else if status == 10 then "LegacyCiphertextVersion"
    else if status == 11 then "UnrecognizedMessageVersion"
    else if status == 12 then "OutOfMemory"
    else if status == 13 then "VerificationFailed"
    else "InternalError"
  }

  /** What the core's faults are called at the host, across the status they travel as. */
  lemma FaultsAtHost()
    ensures KindName(StatusOf(BadArgument)) == "InvalidArgument" && KindName(StatusOf(WrongLength)) == "InvalidArgument"
    ensures KindName(StatusOf(BadSession)) == "InvalidState"
    ensures KindName(StatusOf(BadKey)) == "InvalidKey" && KindName(StatusOf(UnknownKeyType)) == "InvalidKey"
    ensures KindName(StatusOf(BadSignature)) == "InvalidSignature"
    ensures KindName(StatusOf(BadMessage)) == "InvalidMessage" && KindName(StatusOf(BadPadding)) == "InvalidMessage"
    ensures KindName(StatusOf(BadKeyId)) == "InvalidKeyIdentifier"
    ensures KindName(StatusOf(UntrustedIdentity)) == "UntrustedIdentity"
    ensures KindName(StatusOf(NoSession)) == "SessionNotFound"
    ensures KindName(StatusOf(Replay)) == "DuplicatedMessage"
    ensures KindName(StatusOf(LegacyVersion)) == "LegacyCiphertextVersion"
    ensures KindName(StatusOf(UnknownVersion)) == "UnrecognizedMessageVersion"
    ensures KindName(StatusOf(OutOfMemory)) == "OutOfMemory"
  {
  }

  datatype Exit = Returned(status: int) | Aborted

  /** The cells of a request in the order its export fills them; an admission has no answer. */
  function Cells(req: Request, answer: Buffer, outRecord: Buffer): seq<Buffer> {
    match req
    case AdmitRequest(_) => [outRecord]
    case AnnounceRequest(_, _) => [outRecord, answer]
    case _ => [answer, outRecord]
  }

  /** What goes into those cells. */
  function Contents(req: Request, reply: Reply): seq<Bytes> {
    match req
    case AdmitRequest(_) => [reply.record]
    case AnnounceRequest(_, _) => [reply.record, reply.answer]
    case _ => [reply.answer, reply.record]
  }

  /** The allocator meets each request in turn; nothing is requested for no bytes. */
  predicate AllGranted(grants: (nat, nat) -> bool, asked: nat, contents: seq<Bytes>)
    decreases |contents|
  {
    contents == [] ||
    if contents[0] == [] then AllGranted(grants, asked, contents[1..])
    else grants(asked, |contents[0]|) && AllGranted(grants, asked + 1, contents[1..])
  }

  lemma OneGranted(grants: (nat, nat) -> bool, asked: nat, a: Bytes)
    ensures AllGranted(grants, asked, [a]) <==> a == [] || grants(asked, |a|)
  {
    assert AllGranted(grants, asked, [a][1..]) && AllGranted(grants, asked + 1, [a][1..]);
  }

  lemma BothGranted(grants: (nat, nat) -> bool, asked: nat, a: Bytes, b: Bytes)
    ensures AllGranted(grants, asked, [a, b]) <==>
            (a == [] || grants(asked, |a|)) && (b == [] || grants(if a == [] then asked else asked + 1, |b|))
  {
    assert [a, b][1..] == [b];
    OneGranted(grants, asked, b);
    OneGranted(grants, asked + 1, b);
  }

  /** Hands over two buffers, or fails on the first the allocator refuses. */
  method GiveBoth(mem: Memory, call: Call, first: Buffer, head: Bytes, last: Buffer, tail: Bytes, ghost before: map<nat, Bytes>)
    returns (r: Result<(), Fault>)
    requires call.given == [] && first != last && call.Owed(mem, before) && mem.live == before
    modifies call, mem, first, last
    ensures call.Owed(mem, before)
    ensures match r {
              case Err(fault) =>
                && fault == OutOfMemory
                && (call.given == [first, last] || (call.given == [first] && unchanged(last)))
              case Ok(_) =>
                call.given == [first, last] && Holds(mem.live, first.Slot(), head) && Holds(mem.live, last.Slot(), tail)
            }
    ensures r.Ok? <==> AllGranted(mem.grants, old(mem.asked), [head, tail])
  {
    hide Slots, Added, AllGranted, Holds;
    BothGranted(mem.grants, mem.asked, head, tail);
    var _ :- call.Give(mem, first, head, before);
    assert call.given == [first];
    ghost var slot, live := first.Slot(), mem.live;
    r := call.Give(mem, last, tail, before);
    HoldsStill(live, mem.live, slot, head);
  }

  /** Hands over the answer and the record, each request in its own order. */
  method GiveReply(mem: Memory, call: Call, req: Request, reply: Reply, answer: Buffer, outRecord: Buffer, ghost before: map<nat, Bytes>)
    returns (r: Result<(), Fault>)
    requires call.given == [] && answer != outRecord && call.Owed(mem, before) && mem.live == before
    modifies call, mem, answer, outRecord
    ensures call.Owed(mem, before)
    ensures forall cell :: cell in call.given ==> cell == answer || cell == outRecord
    ensures answer !in call.given ==> unchanged(answer)
    ensures outRecord !in call.given ==> unchanged(outRecord)
    ensures match r {
              case Err(fault) => fault == OutOfMemory
              case Ok(_) =>
                && call.given == Cells(req, answer, outRecord)
                && Holds(mem.live, outRecord.Slot(), reply.record)
                && (!req.AdmitRequest? ==> Holds(mem.live, answer.Slot(), reply.answer))
            }
    ensures r.Ok? <==> AllGranted(mem.grants, old(mem.asked), Contents(req, reply))
  {
    hide Slots, Added, Holds, AllGranted;
    OneGranted(mem.grants, mem.asked, reply.record);
    if req.AdmitRequest? {
      r := call.Give(mem, outRecord, reply.record, before);
    } else if req.AnnounceRequest? {
      r := GiveBoth(mem, call, outRecord, reply.record, answer, reply.answer, before);
    } else {
      r := GiveBoth(mem, call, answer, reply.answer, outRecord, reply.record, before);
    }
  }

  /**
   * One export. A fault hands out nothing, frees what it had handed over and leaves memory as it was;
   * success adds exactly the buffers of its cells.
   */
  method Export(c: Suite, mem: Memory, record: Bytes, req: Request, answer: Buffer, outRecord: Buffer) returns (exit: Exit)
    requires mem.Valid() && answer != outRecord && Fits(c, record, req)
    modifies mem, answer, outRecord
    ensures mem.Valid()
    ensures exit == Aborted <==> Answer(c, record, req) == Err(Trap)
    ensures exit.Returned? && exit.status != 0 ==>
              && mem.live == old(mem.live)
              && (answer.Slot() == Holding(None, 0) || unchanged(answer))
              && (outRecord.Slot() == Holding(None, 0) || unchanged(outRecord))
    ensures match Answer(c, record, req) {
              case Err(e) => exit == Aborted || (exit == Returned(StatusOf(e)) && unchanged(answer, outRecord))
              case Ok(reply) =>
                if !AllGranted(mem.grants, old(mem.asked), Contents(req, reply)) then exit == Returned(12)
                else
                  && exit == Returned(0)
                  && Added(mem.live, old(mem.live), Slots(Cells(req, answer, outRecord)))
                  && Holds(mem.live, outRecord.Slot(), reply.record)
                  && if req.AdmitRequest? then unchanged(answer) else Holds(mem.live, answer.Slot(), reply.answer)
            }
  {
    hide Slots, Added, Answer, AllGranted;
    ghost var before := mem.live;
    var call := new Call();
    AddsNothing(before);
    assert Slots(call.given) == [];
    var reply := Work(c, record, req);
    if reply == Err(Trap) {
      return Aborted;
    }
    var r: Result<(), Fault> := Ok(());
    if reply.Err? {
      r := Err(reply.error);
    } else {
      r := GiveReply(mem, call, req, reply.value, answer, outRecord, before);
    }
    assert forall i :: 0 <= i < |call.given| ==> call.given[i] in call.given;
    var status := call.Close(mem, r, before);
    return Returned(status);
  }
}
