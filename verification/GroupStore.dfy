/** The host's group operations over a store of sender-key records kept under text keys. */
module GroupStore {
  import opened Basics
  import opened Suites
  import opened Records
  import opened RecordCodec
  import opened Posts
  import opened Names
  import opened Abi
  import opened Windows
  import Chains
  import Calls
  import Cipher
  import Sender
  import Runs

  type Keys = map<string, Bytes>

  function KeyFor(a: Address, id: string): string {
    KeyText(a.name, a.device, id)
  }

  /** A missing record reads as no bytes. */
  function RecordAt(keys: Keys, key: string): Bytes {
    if key in keys then keys[key] else []
  }

  class SenderKeyStore {
    var keys: Keys

    constructor ()
      ensures keys == map[]
    {
      keys := map[];
    }

    function Load(a: Address, id: string): Bytes
      reads this
    {
      RecordAt(keys, KeyFor(a, id))
    }

    method Store(a: Address, id: string, record: Bytes)
      modifies this
      ensures keys == old(keys)[KeyFor(a, id) := record]
    {
      keys := keys[KeyFor(a, id) := record];
    }
  }

  // Operations

  datatype Op =
    | Distribute(to: Address, id: string, entropy: Cipher.Entropy)
    | Process(from: Address, message: Bytes)
    | Encrypt(to: Address, id: string, plain: Bytes, nonce: Bytes64)
    | Decrypt(from: Address, message: Bytes)

  /** The record key and the request an operation comes to, or why it fails before it has both. */
  datatype Plan = Plan(key: string, request: Request)

  function PlanOf(op: Op): Result<Plan, Fault> {
    match op
    case Distribute(to, id, entropy) =>
      var bytes :- UuidBytes(id);
      Ok(Plan(KeyFor(to, id), AnnounceRequest(bytes, entropy)))
    case Process(from, message) =>
      var a :- AnnounceOf(message);
      Ok(Plan(KeyFor(from, UuidText(a.circleId)), AdmitRequest(message)))
    case Encrypt(to, id, plain, nonce) =>
      var bytes :- UuidBytes(id);
      Ok(Plan(KeyFor(to, id), SealRequest(bytes, plain, nonce)))
    case Decrypt(from, message) =>
      var note :- NoteOf(message);
      Ok(Plan(KeyFor(from, UuidText(note.circleId)), OpenRequest(message)))
  }

  /** What an operation answers; sealing and opening want a record, and a seal looks for it first. */
  function AnswerTo(c: Suite, keys: Keys, op: Op): Result<Bytes, Fault> {
    if op.Encrypt? && RecordAt(keys, KeyFor(op.to, op.id)) == [] then Err(NoSession)
    else
      var plan :- PlanOf(op);
      var reply :- Answer(c, RecordAt(keys, plan.key), plan.request);
      Ok(reply.answer)
  }

  /** The store after an operation: a failed one writes nothing. */
  function KeysAfter(c: Suite, keys: Keys, op: Op): Keys {
    match PlanOf(op)
    case Err(_) => keys
    case Ok(plan) =>
      match Answer(c, RecordAt(keys, plan.key), plan.request)
      case Err(_) => keys
      case Ok(reply) => keys[plan.key := reply.record]
  }

  function RunOps(c: Suite, keys: Keys, ops: seq<Op>): Keys
    decreases |ops|
  {
    if ops == [] then keys else RunOps(c, KeysAfter(c, keys, ops[0]), ops[1..])
  }

  /** Sealing or opening without a record finds no chain. */
  lemma NoRecordNoAnswer(c: Suite, req: Request)
    requires req.SealRequest? || req.OpenRequest?
    ensures Answer(c, [], req).Err?
    ensures (req.SealRequest? ==> |req.circleId| == 16) ==> Answer(c, [], req) == Err(NoSession)
  {
  }

  /** What the machine can address, for the record an operation is about. */
  predicate OpFits(c: Suite, keys: Keys, op: Op) {
    match PlanOf(op)
    case Err(_) => true
    case Ok(plan) => Fits(c, RecordAt(keys, plan.key), plan.request)
  }

  // The four operations: each loads, calls and stores with nothing in between

  method CreateSenderKeyDistribution(c: Suite, to: Address, id: string, entropy: Cipher.Entropy, store: SenderKeyStore)
    returns (r: Result<Bytes, Fault>)
    requires OpFits(c, store.keys, Distribute(to, id, entropy))
    modifies store
    ensures r == AnswerTo(c, old(store.keys), Distribute(to, id, entropy))
    ensures store.keys == KeysAfter(c, old(store.keys), Distribute(to, id, entropy))
  {
    hide Answer, UuidBytes;
    var bytes :- UuidToBytes(id);
    var reply :- Work(c, store.Load(to, id), AnnounceRequest(bytes, entropy));
    store.Store(to, id, reply.record);
    return Ok(reply.answer);
  }

  method ProcessSenderKeyDistribution(c: Suite, from: Address, message: Bytes, store: SenderKeyStore)
    returns (r: Result<Bytes, Fault>)
    requires OpFits(c, store.keys, Process(from, message))
    modifies store
    ensures r == AnswerTo(c, old(store.keys), Process(from, message))
    ensures store.keys == KeysAfter(c, old(store.keys), Process(from, message))
  {
    hide Answer, AnnounceOf, UuidText;
    var a :- ParseAnnounce(message);
    var id := UuidText(a.circleId);
    var reply :- Work(c, store.Load(from, id), AdmitRequest(message));
    store.Store(from, id, reply.record);
    return Ok(reply.answer);
  }

  method EncryptGroupMessage(c: Suite, to: Address, id: string, plain: Bytes, nonce: Bytes64, store: SenderKeyStore)
    returns (r: Result<Bytes, Fault>)
    requires OpFits(c, store.keys, Encrypt(to, id, plain, nonce))
    modifies store
    ensures r == AnswerTo(c, old(store.keys), Encrypt(to, id, plain, nonce))
    ensures store.keys == KeysAfter(c, old(store.keys), Encrypt(to, id, plain, nonce))
  {
    hide Answer, UuidBytes;
    var existing := store.Load(to, id);
    if existing == [] {
      if UuidBytes(id).Ok? {
        NoRecordNoAnswer(c, SealRequest(UuidBytes(id).value, plain, nonce));
      }
      return Err(NoSession);
    }
    var bytes :- UuidToBytes(id);
    var reply :- Work(c, existing, SealRequest(bytes, plain, nonce));
    store.Store(to, id, reply.record);
    return Ok(reply.answer);
  }

  method DecryptGroupMessage(c: Suite, from: Address, message: Bytes, store: SenderKeyStore)
    returns (r: Result<Bytes, Fault>)
    requires OpFits(c, store.keys, Decrypt(from, message))
    modifies store
    ensures r == AnswerTo(c, old(store.keys), Decrypt(from, message))
    ensures store.keys == KeysAfter(c, old(store.keys), Decrypt(from, message))
  {
    hide Answer, NoteOf, UuidText;
    var note :- ParseNote(message);
    var id := UuidText(note.circleId);
    var existing := store.Load(from, id);
    if existing == [] {
      NoRecordNoAnswer(c, OpenRequest(message));
      return Err(NoSession);
    }
    var reply :- Work(c, existing, OpenRequest(message));
    store.Store(from, id, reply.record);
    return Ok(reply.answer);
  }

  // Records are independent

  /** The requests that the operations on one record come to, in order. */
  function RequestsAt(ops: seq<Op>, key: string): seq<Request> {
    if ops == [] then []
    else
      (match PlanOf(ops[0])
       case Ok(plan) => if plan.key == key then [plan.request] else []
       case Err(_) => []) + RequestsAt(ops[1..], key)
  }

  lemma OpTouchesOneRecord(c: Suite, keys: Keys, op: Op, key: string)
    ensures RecordAt(KeysAfter(c, keys, op), key) ==
            match PlanOf(op) {
              case Ok(plan) => if plan.key == key then RecordAfter(c, RecordAt(keys, key), plan.request) else RecordAt(keys, key)
              case Err(_) => RecordAt(keys, key)
            }
  {
    hide Answer;
  }

  /** Each record after any run of operations is its own requests run on it alone. */
  lemma {:induction false} RunsApart(c: Suite, keys: Keys, ops: seq<Op>, key: string)
    ensures RecordAt(RunOps(c, keys, ops), key) == RunOnRecord(c, RecordAt(keys, key), RequestsAt(ops, key))
    decreases |ops|
  {
    hide RecordAfter, KeysAfter, RecordAt, PlanOf;
    if ops != [] {
      OpTouchesOneRecord(c, keys, ops[0], key);
      RunsApart(c, KeysAfter(c, keys, ops[0]), ops[1..], key);
      match PlanOf(ops[0]) {
        case Err(_) =>
          assert RequestsAt(ops, key) == RequestsAt(ops[1..], key);
        case Ok(plan) =>
          if plan.key != key {
            assert RequestsAt(ops, key) == RequestsAt(ops[1..], key);
          }
      }
    }
  }

  // Overlapping calls

  /** What a successful operation used of the record it is about: a chain and a step. */
  function StepUsed(c: Suite, keys: Keys, op: Op): Option<(U32, U32)> {
    match PlanOf(op)
    case Err(_) => None
    case Ok(plan) =>
      match CircleFrom(RecordAt(keys, plan.key))
      case Err(_) => None
      case Ok(ms) =>
        match CallOf(plan.request)
        case Err(_) => None
        case Ok(call) => Calls.Used(c, ms, call)
  }

  /** The operation is about the record under this key. */
  predicate At(op: Op, key: string) {
    PlanOf(op).Ok? && PlanOf(op).value.key == key
  }

  /**
   * However many operations overlap on one store, each runs from load to store with nothing in between.
   * So no step of a chain is used by two of them, to seal or to open, while the circle keeps the chain.
   */
  lemma NoStepTwiceInStore(c: Suite, keys: Keys, ops: seq<Op>, again: Op, key: string, ms: seq<MemberState>, ws: map<U32, Window>,
                           id: U32, signing: Public, step: U32)
    requires Calls.Held(c, ms, ws) && RecordAt(keys, key) == CircleBytes(ms)
    requires ops != [] && At(ops[0], key) && At(again, key)
    requires Runs.PresentThroughout(c, ms, CallsOf(RequestsAt(ops, key)), id, signing)
    requires StepUsed(c, keys, ops[0]) == Some((id, step))
    ensures StepUsed(c, RunOps(c, keys, ops), again) != Some((id, step))
  {
    hide RecordAt, PlanOf, CircleFrom, CircleBytes, RunOps, Calls.Used, Calls.Run, RunOnRecord, Calls.Held, Runs.PresentThroughout;
    var calls := CallsOf(RequestsAt(ops, key));
    RunsApart(c, keys, ops, key);
    RunOnRecordIsRun(c, ms, ws, RequestsAt(ops, key));
    RecordReadsBack(c, ms, ws);
    var ws' := Runs.RunKeepsHeld(c, ms, ws, calls);
    RecordReadsBack(c, Calls.Run(c, ms, calls), ws');
    match CallOf(PlanOf(again).value.request) {
      case Err(_) =>
      case Ok(call) => Runs.NoStepTwice(c, ms, ws, calls[0], calls[1..], call, id, signing, step);
    }
  }

  /** How many of the operations sealed a note under the key. */
  function NotesAt(c: Suite, keys: Keys, ops: seq<Op>, key: string): nat
    decreases |ops|
  {
    if ops == [] then 0
    else
      (if ops[0].Encrypt? && At(ops[0], key) && AnswerTo(c, keys, ops[0]).Ok? then 1 else 0) +
      NotesAt(c, KeysAfter(c, keys, ops[0]), ops[1..], key)
  }

  /** Only our own announcements and seals are about the record. */
  predicate OwnAt(ops: seq<Op>, key: string) {
    forall op :: op in ops && At(op, key) ==> op.Distribute? || (op.Encrypt? && Cipher.Sealable(op.plain))
  }

  lemma ChainIsHeld(c: Suite, m: MemberState) returns (ws: map<U32, Window>)
    requires m.skipped == [] && m.version == CURRENT_VERSION
    ensures Calls.Held(c, [m], ws)
  {
    ws := map[m.chainId := StartWindow(m.link.step, m.link.seed)];
  }

  predicate NoteNames(note: Bytes, chainId: U32, step: nat) {
    NoteOf(note).Ok? && NoteOf(note).value.chainId == chainId && NoteOf(note).value.step == step
  }

  /** One operation of ours on our record: a note, when made, has the chain's step, and the chain moves on. */
  lemma OwnOp(c: Suite, keys: Keys, op: Op, key: string, e: Cipher.Entropy, signing: Public, n: U32)
    requires c.publicOf(e.secret) == Some(signing) && At(op, key) && OwnAt([op], key)
    requires RecordAt(keys, key) == CircleBytes([Sender.ChainAt(c, e, signing, n)])
    ensures var sealed := op.Encrypt? && AnswerTo(c, keys, op).Ok?;
            && (sealed ==> n != Chains.LAST_STEP)
            && (sealed ==> NoteNames(AnswerTo(c, keys, op).value, e.chainId, n))
            && (sealed ==> RecordAt(KeysAfter(c, keys, op), key) == CircleBytes([Sender.ChainAt(c, e, signing, n + 1)]))
            && (!sealed ==> RecordAt(KeysAfter(c, keys, op), key) == RecordAt(keys, key))
  {
    hide RecordAt, CircleBytes, Calls.Apply, Sender.ChainAt, KeysAfter, NoteOf, UuidBytes, Answer, Runs.Honest;
    var own := [Sender.ChainAt(c, e, signing, n)];
    ChainFacts(c, e, signing, n);
    var ws := ChainIsHeld(c, own[0]);
    var plan := PlanOf(op).value;
    OpTouchesOneRecord(c, keys, op, key);
    RequestIsCall(c, own, ws, plan.request);
    RecordIsThere(c, own, ws);
    match op {
      case Distribute(_, id, entropy) =>
        Sender.AnnouncementHandsOver(c, e, signing, n, UuidBytes(id).value, entropy);
      case Encrypt(_, id, plain, nonce) =>
        Sender.SealMakesNote(c, e, signing, n, UuidBytes(id).value, plain, nonce);
        var reply := Calls.Apply(c, own, Calls.SealCall(UuidBytes(id).value, plain, nonce));
        if reply.Ok? {
          Runs.HonestNoteNames(c, e.seed, e.chainId, signing, n, plain, reply.value.0);
        }
    }
  }

  lemma ChainFacts(c: Suite, e: Cipher.Entropy, signing: Public, n: U32)
    ensures var m := Sender.ChainAt(c, e, signing, n); m.skipped == [] && m.version == CURRENT_VERSION
  {
  }

  lemma RecordIsThere(c: Suite, ms: seq<MemberState>, ws: map<U32, Window>)
    requires Calls.Held(c, ms, ws) && ms != []
    ensures CircleBytes(ms) != []
  {
  }

  /**
   * Any run of operations on the store, overlapping or not, about our record and any others: our notes
   * carry consecutive steps, so the next one carries the first step plus the notes made so far.
   */
  lemma {:induction false} NotesAreConsecutive(c: Suite, keys: Keys, ops: seq<Op>, key: string, e: Cipher.Entropy, signing: Public, n: U32)
    requires c.publicOf(e.secret) == Some(signing) && OwnAt(ops, key)
    requires RecordAt(keys, key) == CircleBytes([Sender.ChainAt(c, e, signing, n)])
    ensures n + NotesAt(c, keys, ops, key) < U32_LIMIT
    ensures RecordAt(RunOps(c, keys, ops), key) ==
            CircleBytes([Sender.ChainAt(c, e, signing, n + NotesAt(c, keys, ops, key))])
    decreases |ops|
  {
    hide RecordAt, CircleBytes, Sender.ChainAt, KeysAfter, AnswerTo, NoteOf, PlanOf;
    if ops != [] {
      var op := ops[0];
      var next := KeysAfter(c, keys, op);
      assert op in ops;
      if At(op, key) {
        OwnOp(c, keys, op, key, e, signing, n);
        NotesAreConsecutive(c, next, ops[1..], key, e, signing, if op.Encrypt? && AnswerTo(c, keys, op).Ok? then n + 1 else n);
      } else {
        OpTouchesOneRecord(c, keys, op, key);
        NotesAreConsecutive(c, next, ops[1..], key, e, signing, n);
      }
    }
  }

  /** The note of the next seal after such a run. */
  lemma NextNoteStep(c: Suite, keys: Keys, ops: seq<Op>, next: Op, key: string, e: Cipher.Entropy, signing: Public, n: U32)
    requires c.publicOf(e.secret) == Some(signing) && OwnAt(ops, key) && next.Encrypt? && Cipher.Sealable(next.plain) && At(next, key)
    requires RecordAt(keys, key) == CircleBytes([Sender.ChainAt(c, e, signing, n)])
    requires AnswerTo(c, RunOps(c, keys, ops), next).Ok?
    ensures NoteNames(AnswerTo(c, RunOps(c, keys, ops), next).value, e.chainId, n + NotesAt(c, keys, ops, key))
  {
    hide RecordAt, CircleBytes, Sender.ChainAt, KeysAfter, AnswerTo, NoteOf, PlanOf, RunOps, NotesAt;
    NotesAreConsecutive(c, keys, ops, key, e, signing, n);
    OwnOp(c, RunOps(c, keys, ops), next, key, e, signing, n + NotesAt(c, keys, ops, key));
  }

  // Keys and what they stand for

  lemma LowerSameBytes(s: string, t: string)
    requires Lower(s) == Lower(t) && Hyphenated(s) && Hyphenated(t)
    ensures UuidBytes(s) == UuidBytes(t)
  {
    hide UuidBytes, UuidText;
    HyphenatedIsAccepted(s);
    HyphenatedIsAccepted(t);
    TextReadsBack(UuidBytes(s).value);
    TextReadsBack(UuidBytes(t).value);
  }

  /** For hyphenated ids in either case, text keys are exactly triples of name, device and id bytes. */
  lemma KeysAreTriples(a: Address, id: string, b: Address, other: string)
    requires Hyphenated(id) && Hyphenated(other)
    ensures KeyFor(a, id) == KeyFor(b, other) <==> a == b && UuidBytes(id) == UuidBytes(other)
  {
    hide UuidBytes, UuidText, ReadsAs, Hyphenated;
    HyphenatedIsAccepted(id);
    HyphenatedIsAccepted(other);
    KeyIsInjective(a.name, a.device, id, b.name, b.device, other);
    ReadingNeedsBar(a.name, a.device, id, b.name, b.device, other);
    ReadingNeedsBar(b.name, b.device, other, a.name, a.device, id);
    NoBarInHyphenated(id);
    NoBarInHyphenated(other);
    if KeyFor(a, id) == KeyFor(b, other) {
      LowerSameBytes(id, other);
    } else if UuidBytes(id) == UuidBytes(other) {
      assert Lower(id) == Lower(other);
    }
  }

  lemma NoBarInHyphenated(s: string)
    requires Hyphenated(s)
    ensures '|' !in s
  {
  }
}
