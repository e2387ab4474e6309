/** The host's stores as objects, and the session calls over them, segment by segment. */
module TrustStores {
  import opened Basics
  import opened Names
  import opened Trust

  class IdentityStore {
    var known: map<string, Bytes33>

    constructor ()
      ensures known == map[]
    {
      known := map[];
    }

    predicate Trusts(at: Address, identity: Bytes33)
      reads this
    {
      KeyOf(at) in known ==> known[KeyOf(at)] == identity
    }

    /** Pins whatever was known; tells whether that replaced another identity. */
    method Save(at: Address, identity: Bytes33) returns (replaced: bool)
      modifies this
      ensures known == old(known)[KeyOf(at) := identity]
      ensures replaced <==> KeyOf(at) in old(known) && old(known)[KeyOf(at)] != identity
    {
      replaced := KeyOf(at) in known && known[KeyOf(at)] != identity;
      known := known[KeyOf(at) := identity];
    }
  }

  class SessionStore {
    var sessions: map<string, Bytes>

    constructor ()
      ensures sessions == map[]
    {
      sessions := map[];
    }

    function Load(at: Address): Bytes
      reads this
    {
      if KeyOf(at) in sessions then sessions[KeyOf(at)] else []
    }

    method Store(at: Address, record: Bytes)
      modifies this
      ensures sessions == old(sessions)[KeyOf(at) := record]
    {
      sessions := sessions[KeyOf(at) := record];
    }

    method Archive(core: Core, at: Address) returns (r: Result<(), Fault>)
      modifies this
      ensures match core.shelve(old(Load(at))) {
                case Err(e) => sessions == old(sessions) && (r == if KeyOf(at) in sessions then Err(e) else Ok(()))
                case Ok(record) =>
                  r == Ok(()) && sessions == if KeyOf(at) in old(sessions) then old(sessions)[KeyOf(at) := record] else old(sessions)
              }
    {
      if KeyOf(at) in sessions {
        var record :- core.shelve(sessions[KeyOf(at)]);
        sessions := sessions[KeyOf(at) := record];
      }
      return Ok(());
    }

    method Remove(at: Address)
      modifies this
      ensures sessions == old(sessions) - {KeyOf(at)}
    {
      sessions := sessions - {KeyOf(at)};
    }
  }

  class RecordStore {
    var records: map<U32, Bytes>

    constructor ()
      ensures records == map[]
    {
      records := map[];
    }

    function Get(id: U32): Option<Bytes>
      reads this
    {
      Find(records, id)
    }

    method Drop(id: U32)
      modifies this
      ensures records == old(records) - {id}
    {
      records := records - {id};
    }
  }

  class PqStore {
    var records: map<U32, Bytes>
    var used: set<U32>

    constructor ()
      ensures records == map[] && used == {}
    {
      records, used := map[], {};
    }

    function Get(id: U32): Option<Bytes>
      reads this
    {
      Find(records, id)
    }

    method MarkUsed(id: U32)
      modifies this`used
      ensures used == old(used) + {id}
    {
      used := used + {id};
    }
  }

  class Host {
    const core: Core
    const identities: IdentityStore
    const sessions: SessionStore
    const signed: RecordStore
    const oneTime: RecordStore
    const pq: PqStore
    var pending: map<nat, Pending>

    constructor (core: Core, identities: IdentityStore, sessions: SessionStore, signed: RecordStore, oneTime: RecordStore, pq: PqStore)
      requires signed != oneTime
      ensures Valid() && pending == map[]
    {
      this.core, this.identities, this.sessions := core, identities, sessions;
      this.signed, this.oneTime, this.pq := signed, oneTime, pq;
      pending := map[];
    }

    ghost predicate Valid() {
      signed != oneTime
    }

    /** Everything the calls read and write, as a value. */
    ghost function World(): World
      reads this, identities, sessions, signed, oneTime, pq
    {
      Trust.World(identities.known, sessions.sessions, signed.records, oneTime.records, pq.records, pq.used, pending)
    }

    /** Checks, pins and stores with nothing in between. */
    method Commit(record: Bytes, at: Address) returns (r: Result<(), Fault>)
      requires Valid()
      modifies identities, sessions
      ensures match Trust.Commit(core, old(World()), at, record) {
                case Err(e) => r == Err(e) && World() == old(World())
                case Ok(left) => r == Ok(()) && World() == left
              }
      ensures core.remote(record).Some? ==> Keeps(core, old(World()), World())
    {
      if core.remote(record).Some? {
        CommitKeeps(core, World(), at, record);
      }
      hide Keeps;
      var theirs := InfoRemote(core, record);
      if !identities.Trusts(at, theirs) {
        return Err(UntrustedIdentity);
      }
      var _ := identities.Save(at, theirs);
      sessions.Store(at, record);
      return Ok(());
    }

    method ProcessPreKeyBundle(at: Address, identity: Bytes33, bundle: Bytes) returns (answer: Answer)
      requires Valid()
      modifies identities, sessions
      ensures Outcome(World(), answer) == Bundled(core, old(World()), at, identity, bundle)
      ensures Keeps(core, old(World()), World())
    {
      SegmentKeeps(core, World(), Bundle(at, identity, bundle));
      hide Keeps;
      if !identities.Trusts(at, identity) {
        return Throws(UntrustedIdentity);
      }
      var started := core.start(sessions.Load(at), identity, bundle);
      if started.Err? {
        return Throws(started.error);
      }
      var _ := identities.Save(at, identity);
      sessions.Store(at, started.value);
      return Gives([]);
    }

    method EncryptMessage(at: Address, plain: Bytes, entropy: Bytes) returns (answer: Answer)
      requires Valid()
      modifies sessions
      ensures Outcome(World(), answer) == Encrypted(core, old(World()), at, plain, entropy)
      ensures Keeps(core, old(World()), World())
    {
      SegmentKeeps(core, World(), Encrypt(at, plain, entropy));
      hide Keeps;
      var existing := sessions.Load(at);
      if existing == [] {
        return Throws(NoSession);
      }
      var done := core.seal(existing, plain, entropy);
      if done.Err? {
        return Throws(done.error);
      }
      if !identities.Trusts(at, InfoRemote(core, done.value.record)) {
        return Throws(UntrustedIdentity);
      }
      sessions.Store(at, done.value.record);
      return Gives(done.value.sealed);
    }

    method DecryptWhisper(at: Address, message: Bytes, entropy: Bytes) returns (answer: Answer)
      requires Valid()
      modifies identities, sessions
      ensures Outcome(World(), answer) == Whispered(core, old(World()), at, message, entropy)
      ensures Keeps(core, old(World()), World())
    {
      SegmentKeeps(core, World(), Whisper(at, message, entropy));
      hide Keeps;
      hide Trust.Commit;
      var existing := sessions.Load(at);
      if existing == [] {
        return Throws(NoSession);
      }
      var done := core.open(existing, message, entropy);
      if done.Err? {
        return Throws(done.error);
      }
      var committed := Commit(done.value.record, at);
      if committed.Err? {
        return Throws(committed.error);
      }
      return Gives(done.value.plain);
    }

    /** The first segment of opening a first message, up to its first await. */
    method BeginFirst(call: nat, at: Address, message: Bytes, entropy: Bytes) returns (answer: Answer)
      requires Valid()
      modifies this
      ensures Outcome(World(), answer) == Began(core, old(World()), call, at, message, entropy)
      ensures Keeps(core, old(World()), World())
    {
      SegmentKeeps(core, World(), First(call, at, message, entropy));
      hide Keeps;
      var existing := sessions.Load(at);
      var info := core.opener(message);
      if info.Err? {
        return Throws(info.error);
      }
      if !identities.Trusts(at, info.value.identity) {
        return Throws(UntrustedIdentity);
      }
      var found := signed.Get(info.value.signedId);
      pending := pending[call := Pending(at, existing, message, info.value, entropy, AwaitsSigned(found))];
      return Waits;
    }

    /** The segment after an await: missing prekeys end the call, the last one opens and commits. */
    method Continue(call: nat) returns (answer: Answer)
      requires Valid()
      modifies this, identities, sessions, oneTime, pq
      ensures Outcome(World(), answer) == Resumed(core, old(World()), call)
      ensures Keeps(core, old(World()), World())
    {
      SegmentKeeps(core, World(), Resume(call));
      hide Keeps;
      hide Trust.Commit, WithAll;
      if call !in pending {
        return Waits;
      }
      var p := pending[call];
      var keys := Prekeys([], [], []);
      match p.stage {
        case AwaitsRemoval(plain, mark) =>
          pending := pending - {call};
          if mark.Some? {
            pq.MarkUsed(mark.value);
          }
          return Gives(plain);
        case AwaitsPq(signed, oneTime, found) =>
          if found.None? {
            pending := pending - {call};
            return Throws(BadKeyId);
          }
          answer := Finish(call, p, Prekeys(signed, oneTime, found.value));
        case AwaitsOneTime(signed, found) =>
          if found.None? {
            pending := pending - {call};
            return Throws(BadKeyId);
          }
          answer := AskForPq(call, p, signed, found.value);
        case AwaitsSigned(found) =>
          if found.None? {
            pending := pending - {call};
            return Throws(BadKeyId);
          }
          if p.info.oneTimeId.Some? {
            var next := oneTime.Get(p.info.oneTimeId.value);
            pending := pending[call := p.(stage := AwaitsOneTime(found.value, next))];
            return Waits;
          }
          answer := AskForPq(call, p, found.value, []);
      }
    }

    method AskForPq(call: nat, p: Pending, signed: Bytes, oneTime: Bytes) returns (answer: Answer)
      requires Valid()
      modifies this, identities, sessions, this.oneTime, pq
      ensures Outcome(World(), answer) == WithOneTime(core, old(World()), call, p, signed, oneTime)
      ensures Keeps(core, old(World()), World())
    {
      AskKeeps(core, World(), call, p, signed, oneTime);
      hide Keeps;
      hide Trust.Commit, WithAll;
      if p.info.pqId.Some? {
        var found := pq.Get(p.info.pqId.value);
        pending := pending[call := p.(stage := AwaitsPq(signed, oneTime, found))];
        return Waits;
      }
      answer := Finish(call, p, Prekeys(signed, oneTime, []));
    }

    method Finish(call: nat, p: Pending, keys: Prekeys) returns (answer: Answer)
      requires Valid()
      modifies this, identities, sessions, oneTime, pq
      ensures Outcome(World(), answer) == WithAll(core, old(World()), call, p, keys)
      ensures Keeps(core, old(World()), World())
    {
      FinishKeeps(core, World(), call, p, keys);
      hide Keeps;
      hide Trust.Commit;
      var first := core.openFirst(p.existing, p.message, keys, p.entropy);
      if first.Err? {
        pending := pending - {call};
        return Throws(first.error);
      }
      var committed := Commit(first.value.record, p.at);
      if committed.Err? {
        pending := pending - {call};
        return Throws(committed.error);
      }
      if first.value.used && first.value.oneTimeId.Some? {
        oneTime.Drop(first.value.oneTimeId.value);
        pending := pending[call := p.(stage := AwaitsRemoval(first.value.plain, p.info.pqId))];
        return Waits;
      }
      pending := pending - {call};
      if first.value.used && p.info.pqId.Some? {
        pq.MarkUsed(p.info.pqId.value);
      }
      return Gives(first.value.plain);
    }
  }
}
