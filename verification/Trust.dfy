/** The host's session calls: identities pinned on first use, sessions stored, in any interleaving of their awaits. */
module Trust {
  import opened Basics
  import opened Names

  // The session core, as far as identities go

  /** What a first message names: its sender's identity and the prekeys it was made with. */
  datatype Opener = Opener(identity: Bytes33, signedId: U32, oneTimeId: Option<U32>, pqId: Option<U32>)

  datatype SealedOne = SealedOne(sealed: Bytes, record: Bytes)
  datatype OpenedOne = OpenedOne(plain: Bytes, record: Bytes)

  /** A first message opened; `used` tells whether a new session consumed the prekeys. */
  datatype OpenedFirst = OpenedFirst(plain: Bytes, record: Bytes, used: bool, oneTimeId: Option<U32>)

  datatype Prekeys = Prekeys(signed: Bytes, oneTime: Bytes, pq: Bytes)

  /**
   * The session calls on record bytes, with their randomness and clock as a parameter. `remote` is the
   * identity a record's live state names, if it has one.
   */
  datatype Core = Core(
    remote: Bytes -> Option<Bytes33>,
    start: (Bytes, Bytes33, Bytes) -> Result<Bytes, Fault>,
    seal: (Bytes, Bytes, Bytes) -> Result<SealedOne, Fault>,
    open: (Bytes, Bytes, Bytes) -> Result<OpenedOne, Fault>,
    openFirst: (Bytes, Bytes, Prekeys, Bytes) -> Result<OpenedFirst, Fault>,
    shelve: Bytes -> Result<Bytes, Fault>,
    opener: Bytes -> Result<Opener, Fault>)

  /**
   * What is assumed of them: a started session names the identity given, sealing wants a live state and
   * keeps its identity, a record that opened something has a live state, a shelved one has none.
   */
  ghost predicate NamesIdentities(core: Core) {
    && (forall record: Bytes, identity: Bytes33, bundle: Bytes :: core.start(record, identity, bundle).Ok? ==>
          core.remote(core.start(record, identity, bundle).value) == Some(identity))
    && (forall record: Bytes, plain: Bytes, entropy: Bytes :: core.seal(record, plain, entropy).Ok? ==>
          core.remote(record).Some? && core.remote(core.seal(record, plain, entropy).value.record) == core.remote(record))
    && (forall record: Bytes, message: Bytes, entropy: Bytes :: core.open(record, message, entropy).Ok? ==>
          core.remote(core.open(record, message, entropy).value.record).Some?)
    && (forall record: Bytes, message: Bytes, keys: Prekeys, entropy: Bytes ::
          core.openFirst(record, message, keys, entropy).Ok? ==>
          core.remote(core.openFirst(record, message, keys, entropy).value.record).Some?)
    && (forall record: Bytes :: core.shelve(record).Ok? ==> core.remote(core.shelve(record).value).None?)
  }

  /** What is assumed of opening besides: a new session consumes the one-time prekey its first message names. */
  ghost predicate ConsumesNamed(core: Core) {
    forall record: Bytes, message: Bytes, keys: Prekeys, entropy: Bytes ::
      core.openFirst(record, message, keys, entropy).Ok? && core.openFirst(record, message, keys, entropy).value.used ==>
      core.opener(message).Ok? &&
      core.openFirst(record, message, keys, entropy).value.oneTimeId == core.opener(message).value.oneTimeId
  }

  /** What one record seals next the other opens as a whisper. */
  type Pairing = (Bytes, Bytes) -> bool

  /** What the first record seals next opens as a first message on the second, with these prekeys. */
  type Greeting = (Bytes, Bytes, Prekeys) -> bool

  /**
   * What is assumed of delivery, for some relation between the records of two devices: what the one seals the
   * other opens to the plaintext, under the identity it named before, and from then on they open each other's.
   */
  ghost predicate Delivers(core: Core, paired: Pairing) {
    && (forall ours: Bytes, theirs: Bytes :: paired(ours, theirs) ==> theirs != [])
    && (forall ours: Bytes, theirs: Bytes, plain: Bytes, e: Bytes, f: Bytes ::
          paired(ours, theirs) && core.seal(ours, plain, e).Ok? ==>
            Arrives(core, paired, core.seal(ours, plain, e).value, core.open(theirs, core.seal(ours, plain, e).value.sealed, f), theirs, plain))
  }

  ghost predicate Arrives(core: Core, paired: Pairing, sent: SealedOne, got: Result<OpenedOne, Fault>, theirs: Bytes, plain: Bytes) {
    && got.Ok? && got.value.plain == plain && core.remote(got.value.record) == core.remote(theirs)
    && paired(sent.record, got.value.record) && paired(got.value.record, sent.record)
  }

  /**
   * The same of a first message: it names its sender and the prekeys it was made with, opens with those to
   * the plaintext as a new session of that sender, and the answer to it is opened.
   */
  ghost predicate DeliversFirst(core: Core, paired: Pairing, greets: Greeting) {
    forall ours: Bytes, theirs: Bytes, keys: Prekeys, plain: Bytes, e: Bytes, f: Bytes ::
      greets(ours, theirs, keys) && core.seal(ours, plain, e).Ok? ==>
        ArrivesFirst(core, paired, core.seal(ours, plain, e).value,
                     core.openFirst(theirs, core.seal(ours, plain, e).value.sealed, keys, f), plain)
  }

  ghost predicate ArrivesFirst(core: Core, paired: Pairing, sent: SealedOne, got: Result<OpenedFirst, Fault>, plain: Bytes) {
    && core.opener(sent.sealed).Ok?
    && got.Ok? && got.value.plain == plain
    && got.value.used && got.value.oneTimeId == core.opener(sent.sealed).value.oneTimeId
    && core.remote(got.value.record) == Some(core.opener(sent.sealed).value.identity)
    && paired(got.value.record, sent.record)
  }

  const ZERO33: Bytes33 := seq(33, _ => 0)

  /** The identity a record is reported to name: zeros when it has no live state. */
  function InfoRemote(core: Core, record: Bytes): Bytes33 {
    match core.remote(record) case Some(key) => key case None => ZERO33
  }

  // The host

  datatype Stage =
    | AwaitsSigned(found: Option<Bytes>)
    | AwaitsOneTime(signed: Bytes, found: Option<Bytes>)
    | AwaitsPq(signed: Bytes, oneTime: Bytes, found: Option<Bytes>)
    | AwaitsRemoval(plain: Bytes, mark: Option<U32>)

  /** A first message being opened: the record it loaded when it began and where it stands. */
  datatype Pending = Pending(at: Address, existing: Bytes, message: Bytes, info: Opener, entropy: Bytes, stage: Stage)

  datatype World = World(
    known: map<string, Bytes33>,
    sessions: map<string, Bytes>,
    signed: map<U32, Bytes>,
    oneTime: map<U32, Bytes>,
    pq: map<U32, Bytes>,
    usedPq: set<U32>,
    pending: map<nat, Pending>)

  function KeyOf(at: Address): string {
    AddressText(at.name, at.device)
  }

  function Find<K, V>(m: map<K, V>, k: K): Option<V> {
    if k in m then Some(m[k]) else None
  }

  /** Unknown is trusted, a changed key is not. */
  predicate IsTrusted(w: World, at: Address, identity: Bytes33) {
    KeyOf(at) in w.known ==> w.known[KeyOf(at)] == identity
  }

  function Load(w: World, at: Address): Bytes {
    if KeyOf(at) in w.sessions then w.sessions[KeyOf(at)] else []
  }

  /** Checks, pins and stores in one segment. */
  function Commit(core: Core, w: World, at: Address, record: Bytes): Result<World, Fault> {
    var theirs := InfoRemote(core, record);
    if !IsTrusted(w, at, theirs) then Err(UntrustedIdentity)
    else Ok(w.(known := w.known[KeyOf(at) := theirs], sessions := w.sessions[KeyOf(at) := record]))
  }

  datatype Event =
    | Bundle(at: Address, identity: Bytes33, bundle: Bytes)
    | Encrypt(at: Address, plain: Bytes, entropy: Bytes)
    | Whisper(at: Address, message: Bytes, entropy: Bytes)
    | First(call: nat, at: Address, message: Bytes, entropy: Bytes)
    | Resume(call: nat)
    | Archive(at: Address)
    | Remove(at: Address)

  /** What a segment of a call leaves behind, and its answer, or why the call threw; `Waits` when it goes on later. */
  datatype Answer = Gives(data: Bytes) | Throws(fault: Fault) | Waits

  datatype Outcome = Outcome(world: World, answer: Answer)

  function Bundled(core: Core, w: World, at: Address, identity: Bytes33, bundle: Bytes): Outcome {
    if !IsTrusted(w, at, identity) then Outcome(w, Throws(UntrustedIdentity))
    else
      match core.start(Load(w, at), identity, bundle)
      case Err(e) => Outcome(w, Throws(e))
      case Ok(record) =>
        Outcome(w.(known := w.known[KeyOf(at) := identity], sessions := w.sessions[KeyOf(at) := record]), Gives([]))
  }

  function Encrypted(core: Core, w: World, at: Address, plain: Bytes, entropy: Bytes): Outcome {
    var existing := Load(w, at);
    if existing == [] then Outcome(w, Throws(NoSession))
    else
      match core.seal(existing, plain, entropy)
      case Err(e) => Outcome(w, Throws(e))
      case Ok(done) =>
        if !IsTrusted(w, at, InfoRemote(core, done.record)) then Outcome(w, Throws(UntrustedIdentity))
        else Outcome(w.(sessions := w.sessions[KeyOf(at) := done.record]), Gives(done.sealed))
  }

  function Whispered(core: Core, w: World, at: Address, message: Bytes, entropy: Bytes): Outcome {
    var existing := Load(w, at);
    if existing == [] then Outcome(w, Throws(NoSession))
    else
      match core.open(existing, message, entropy)
      case Err(e) => Outcome(w, Throws(e))
      case Ok(done) =>
        match Commit(core, w, at, done.record)
        case Err(e) => Outcome(w, Throws(e))
        case Ok(left) => Outcome(left, Gives(done.plain))
  }

  /** The first segment of a first message: load, check trust, ask for the signed prekey. */
  function Began(core: Core, w: World, call: nat, at: Address, message: Bytes, entropy: Bytes): Outcome {
    match core.opener(message)
    case Err(e) => Outcome(w, Throws(e))
    case Ok(info) =>
      if !IsTrusted(w, at, info.identity) then Outcome(w, Throws(UntrustedIdentity))
      else
        var p := Pending(at, Load(w, at), message, info, entropy, AwaitsSigned(Find(w.signed, info.signedId)));
        Outcome(w.(pending := w.pending[call := p]), Waits)
  }

  function Gone(w: World, call: nat): World {
    w.(pending := w.pending - {call})
  }

  function Parked(w: World, call: nat, p: Pending): World {
    w.(pending := w.pending[call := p])
  }

  /** With the signed prekey in hand: ask for the one-time prekey, or go on without. */
  function WithSigned(core: Core, w: World, call: nat, p: Pending, signed: Bytes): Outcome {
    match p.info.oneTimeId
    case None => WithOneTime(core, w, call, p, signed, [])
    case Some(id) => Outcome(Parked(w, call, p.(stage := AwaitsOneTime(signed, Find(w.oneTime, id)))), Waits)
  }

  function WithOneTime(core: Core, w: World, call: nat, p: Pending, signed: Bytes, oneTime: Bytes): Outcome {
    match p.info.pqId
    case None => WithAll(core, w, call, p, Prekeys(signed, oneTime, []))
    case Some(id) => Outcome(Parked(w, call, p.(stage := AwaitsPq(signed, oneTime, Find(w.pq, id)))), Waits)
  }

  function Marked(w: World, mark: Option<U32>): World {
    match mark case None => w case Some(id) => w.(usedPq := w.usedPq + {id})
  }

  /** The last segment: open on the record loaded at the beginning, commit, then let go of the prekeys. */
  function WithAll(core: Core, w: World, call: nat, p: Pending, keys: Prekeys): Outcome {
    match core.openFirst(p.existing, p.message, keys, p.entropy)
    case Err(e) => Outcome(Gone(w, call), Throws(e))
    case Ok(done) =>
      match Commit(core, w, p.at, done.record)
      case Err(e) => Outcome(Gone(w, call), Throws(e))
      case Ok(left) =>
        if !done.used then Outcome(Gone(left, call), Gives(done.plain))
        else
          match done.oneTimeId
          case None => Outcome(Marked(Gone(left, call), p.info.pqId), Gives(done.plain))
          case Some(id) =>
            Outcome(Parked(left.(oneTime := left.oneTime - {id}), call, p.(stage := AwaitsRemoval(done.plain, p.info.pqId))), Waits)
  }

  function Resumed(core: Core, w: World, call: nat): Outcome {
    if call !in w.pending then Outcome(w, Waits)
    else
      var p := w.pending[call];
      match p.stage
      case AwaitsSigned(None) => Outcome(Gone(w, call), Throws(BadKeyId))
      case AwaitsSigned(Some(signed)) => WithSigned(core, w, call, p, signed)
      case AwaitsOneTime(_, None) => Outcome(Gone(w, call), Throws(BadKeyId))
      case AwaitsOneTime(signed, Some(oneTime)) => WithOneTime(core, w, call, p, signed, oneTime)
      case AwaitsPq(_, _, None) => Outcome(Gone(w, call), Throws(BadKeyId))
      case AwaitsPq(signed, oneTime, Some(pq)) => WithAll(core, w, call, p, Prekeys(signed, oneTime, pq))
      case AwaitsRemoval(plain, mark) => Outcome(Marked(Gone(w, call), mark), Gives(plain))
  }

  function Next(core: Core, w: World, event: Event): Outcome {
    match event
    case Bundle(at, identity, bundle) => Bundled(core, w, at, identity, bundle)
    case Encrypt(at, plain, entropy) => Encrypted(core, w, at, plain, entropy)
    case Whisper(at, message, entropy) => Whispered(core, w, at, message, entropy)
    case First(call, at, message, entropy) => Began(core, w, call, at, message, entropy)
    case Resume(call) => Resumed(core, w, call)
    case Archive(at) =>
      if KeyOf(at) !in w.sessions then Outcome(w, Gives([]))
      else (
        match core.shelve(w.sessions[KeyOf(at)])
        case Err(e) => Outcome(w, Throws(e))
        case Ok(record) => Outcome(w.(sessions := w.sessions[KeyOf(at) := record]), Gives([])))
    case Remove(at) => Outcome(w.(sessions := w.sessions - {KeyOf(at)}), Gives([]))
  }

  function Play(core: Core, w: World, events: seq<Event>): World
    decreases |events|
  {
    if events == [] then w else Play(core, Next(core, w, events[0]).world, events[1..])
  }

  // Trust on first use

  /** Every stored session with a live state names the identity pinned for its address. */
  ghost predicate Pinned(core: Core, w: World) {
    forall k :: k in w.sessions && core.remote(w.sessions[k]).Some? ==>
      k in w.known && core.remote(w.sessions[k]) == Some(w.known[k])
  }

  /** Pins once set stay, with the same identity. */
  ghost predicate PinsKept(before: World, after: World) {
    forall k :: k in before.known ==> k in after.known && after.known[k] == before.known[k]
  }

  /** What is kept: of a world whose sessions are under their pins, every pin and that. */
  ghost predicate Keeps(core: Core, before: World, after: World) {
    NamesIdentities(core) && Pinned(core, before) ==> Pinned(core, after) && PinsKept(before, after)
  }

  lemma CommitKeepsPins(core: Core, w: World, at: Address, record: Bytes)
    requires Pinned(core, w) && core.remote(record).Some?
    ensures match Commit(core, w, at, record) {
              case Err(_) => KeyOf(at) in w.known && core.remote(record) != Some(w.known[KeyOf(at)])
              case Ok(left) => Pinned(core, left) && PinsKept(w, left)
            }
  {
  }

  lemma LastSegmentKeepsPins(core: Core, w: World, call: nat, p: Pending, keys: Prekeys)
    requires NamesIdentities(core) && Pinned(core, w)
    ensures Pinned(core, WithAll(core, w, call, p, keys).world) && PinsKept(w, WithAll(core, w, call, p, keys).world)
  {
    hide Commit, InfoRemote, KeyOf;
    var done := core.openFirst(p.existing, p.message, keys, p.entropy);
    if done.Ok? {
      CommitKeepsPins(core, w, p.at, done.value.record);
    }
  }

  lemma BundleKeepsPins(core: Core, w: World, at: Address, identity: Bytes33, bundle: Bytes)
    requires NamesIdentities(core) && Pinned(core, w)
    ensures var left := Bundled(core, w, at, identity, bundle).world; Pinned(core, left) && PinsKept(w, left)
  {
    hide KeyOf;
  }

  lemma EncryptKeepsPins(core: Core, w: World, at: Address, plain: Bytes, entropy: Bytes)
    requires NamesIdentities(core) && Pinned(core, w)
    ensures var left := Encrypted(core, w, at, plain, entropy).world; Pinned(core, left) && PinsKept(w, left)
  {
  }

  lemma WhisperKeepsPins(core: Core, w: World, at: Address, message: Bytes, entropy: Bytes)
    requires NamesIdentities(core) && Pinned(core, w)
    ensures var left := Whispered(core, w, at, message, entropy).world; Pinned(core, left) && PinsKept(w, left)
  {
    hide Commit, KeyOf, InfoRemote;
    var done := core.open(Load(w, at), message, entropy);
    if done.Ok? {
      CommitKeepsPins(core, w, at, done.value.record);
    }
  }

  lemma ArchiveKeepsPins(core: Core, w: World, at: Address)
    requires NamesIdentities(core) && Pinned(core, w)
    ensures var left := Next(core, w, Archive(at)).world; Pinned(core, left) && PinsKept(w, left)
    ensures var left := Next(core, w, Remove(at)).world; Pinned(core, left) && PinsKept(w, left)
  {
    hide KeyOf;
  }

  /** A segment that touches neither store keeps both. */
  lemma SameStores(core: Core, w: World, left: World)
    requires Pinned(core, w) && left.known == w.known && left.sessions == w.sessions
    ensures Pinned(core, left) && PinsKept(w, left)
  {
  }

  /** One segment of any call keeps every pin and every stored session under its pin. */
  lemma SegmentKeepsPins(core: Core, w: World, event: Event)
    requires NamesIdentities(core) && Pinned(core, w)
    ensures Pinned(core, Next(core, w, event).world) && PinsKept(w, Next(core, w, event).world)
  {
    match event {
      case Bundle(at, identity, bundle) => BundleKeepsPins(core, w, at, identity, bundle);
      case Encrypt(at, plain, entropy) => EncryptKeepsPins(core, w, at, plain, entropy);
      case Whisper(at, message, entropy) => WhisperKeepsPins(core, w, at, message, entropy);
      case First(call, at, message, entropy) =>
        hide Pinned, PinsKept, NamesIdentities, KeyOf;
      case Resume(call) => ResumeKeepsPins(core, w, call);
      case Archive(at) => ArchiveKeepsPins(core, w, at);
      case Remove(at) => ArchiveKeepsPins(core, w, at);
    }
  }

  lemma ResumeKeepsPins(core: Core, w: World, call: nat)
    requires NamesIdentities(core) && Pinned(core, w)
    ensures Pinned(core, Resumed(core, w, call).world) && PinsKept(w, Resumed(core, w, call).world)
  {
    hide Commit, KeyOf, WithAll, NamesIdentities, Pinned, PinsKept;
    var left := Resumed(core, w, call).world;
    if left.known == w.known && left.sessions == w.sessions {
      SameStores(core, w, left);
    } else {
      var p := w.pending[call];
      match p.stage {
        case AwaitsSigned(Some(signed)) => LastSegmentKeepsPins(core, w, call, p, Prekeys(signed, [], []));
        case AwaitsOneTime(signed, Some(oneTime)) => LastSegmentKeepsPins(core, w, call, p, Prekeys(signed, oneTime, []));
        case AwaitsPq(signed, oneTime, Some(pq)) => LastSegmentKeepsPins(core, w, call, p, Prekeys(signed, oneTime, pq));
      }
    }
  }

  /** A call that answers at once leaves its address pinned, to the identity its stored session names. */
  lemma AnsweredIsPinned(core: Core, w: World, event: Event)
    requires NamesIdentities(core) && Pinned(core, w)
    requires event.Bundle? || event.Encrypt? || event.Whisper?
    requires Next(core, w, event).answer.Gives?
    ensures var left := Next(core, w, event).world;
            && KeyOf(event.at) in left.known && KeyOf(event.at) in left.sessions
            && core.remote(left.sessions[KeyOf(event.at)]) == Some(left.known[KeyOf(event.at)])
            && (event.Bundle? ==> left.known[KeyOf(event.at)] == event.identity)
  {
    hide KeyOf;
  }

  lemma SegmentKeeps(core: Core, w: World, event: Event)
    ensures Keeps(core, w, Next(core, w, event).world)
  {
    hide NamesIdentities, Pinned, PinsKept, Next;
    if NamesIdentities(core) && Pinned(core, w) {
      SegmentKeepsPins(core, w, event);
    }
  }

  lemma FinishKeeps(core: Core, w: World, call: nat, p: Pending, keys: Prekeys)
    ensures Keeps(core, w, WithAll(core, w, call, p, keys).world)
  {
    hide NamesIdentities, Pinned, PinsKept, WithAll;
    if NamesIdentities(core) && Pinned(core, w) {
      LastSegmentKeepsPins(core, w, call, p, keys);
    }
  }

  lemma AskKeeps(core: Core, w: World, call: nat, p: Pending, signed: Bytes, oneTime: Bytes)
    ensures Keeps(core, w, WithOneTime(core, w, call, p, signed, oneTime).world)
  {
    hide NamesIdentities, Pinned, PinsKept, WithAll;
    FinishKeeps(core, w, call, p, Prekeys(signed, oneTime, []));
    if NamesIdentities(core) && Pinned(core, w) && p.info.pqId.Some? {
      SameStores(core, w, WithOneTime(core, w, call, p, signed, oneTime).world);
    }
  }

  lemma CommitKeeps(core: Core, w: World, at: Address, record: Bytes)
    requires core.remote(record).Some?
    ensures match Commit(core, w, at, record) { case Err(_) => Keeps(core, w, w) case Ok(left) => Keeps(core, w, left) }
  {
    hide NamesIdentities;
    if Pinned(core, w) {
      CommitKeepsPins(core, w, at, record);
    }
  }

  /** Over every interleaving of any calls at their awaits, pins never change and sessions stay under their pins. */
  lemma {:induction false} PinsNeverChange(core: Core, w: World, events: seq<Event>)
    requires NamesIdentities(core) && Pinned(core, w)
    ensures Pinned(core, Play(core, w, events)) && PinsKept(w, Play(core, w, events))
    decreases |events|
  {
    hide NamesIdentities, Pinned, Next;
    if events != [] {
      SegmentKeepsPins(core, w, events[0]);
      PinsNeverChange(core, Next(core, w, events[0]).world, events[1..]);
    }
  }

  /** A core that keeps the remote identity as its record and seals to the plaintext itself. */
  function PlainCore(): Core {
    Core(
      (record: Bytes) => if |record| == 33 then var key: Bytes33 := record; Some(key) else None,
      (record: Bytes, identity: Bytes33, bundle: Bytes) => var made: Bytes := identity; Result<Bytes, Fault>.Ok(made),
      (record: Bytes, plain: Bytes, entropy: Bytes) =>
        if |record| == 33 then Result<SealedOne, Fault>.Ok(SealedOne(plain, record)) else Err(NoSession),
      (record: Bytes, message: Bytes, entropy: Bytes) =>
        if |record| == 33 then Result<OpenedOne, Fault>.Ok(OpenedOne(message, record)) else Err(NoSession),
      (record: Bytes, message: Bytes, keys: Prekeys, entropy: Bytes) =>
        Result<OpenedFirst, Fault>.Ok(OpenedFirst(message, ZERO33, true, None)),
      (record: Bytes) => Result<Bytes, Fault>.Ok([]),
      (data: Bytes) => Result<Opener, Fault>.Ok(Opener(ZERO33, 0, None, None)))
  }

  /** The assumptions on the core can all hold, with calls that succeed. */
  lemma NamesIdentitiesIsConsistent()
    ensures var core := PlainCore();
            && NamesIdentities(core) && ConsumesNamed(core)
            && core.start([], ZERO33, []).Ok? && core.openFirst([], [], Prekeys([], [], []), []).Ok?
  {
  }

  /** So can those on delivery, with records that are paired and greet each other. */
  lemma DeliveryIsConsistent()
    ensures exists paired: Pairing, greets: Greeting ::
              && Delivers(PlainCore(), paired) && DeliversFirst(PlainCore(), paired, greets)
              && paired(ZERO33, ZERO33) && greets(ZERO33, [], Prekeys([], [], [])) && PlainCore().seal(ZERO33, [], []).Ok?
  {
    var paired := (a: Bytes, b: Bytes) => |a| == 33 && |b| == 33;
    var greets := (a: Bytes, b: Bytes, keys: Prekeys) => |a| == 33;
    assert Delivers(PlainCore(), paired) && DeliversFirst(PlainCore(), paired, greets);
  }
}
