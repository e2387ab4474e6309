/** Group operations over a circle: announce our chain, admit another's, seal a note, open one. */
module Cipher {
  import opened Basics
  import opened Suites
  import opened Chains
  import opened Records
  import opened Posts
  import Cbc

  /** What a call hands back: the circle it leaves behind and its answer. */
  datatype Outcome<+T> = Outcome(members: seq<MemberState>, answer: Result<T, Fault>)

  // Yields

  /** The keys kept after passing the steps whose yields are `passed`. */
  function KeptAfter(skipped: seq<Yield>, passed: seq<Yield>): seq<Yield> {
    if passed == [] then skipped else Newest(MAX_SKIPPED, skipped + passed)
  }

  /**
   * The key for a step and the member it leaves behind: a step already passed gives its kept key or
   * is a replay; a step ahead passes the ones between, if it is not too far ahead.
   */
  function YieldFor(c: Suite, m: MemberState, step: U32): (MemberState, Result<Yield, Fault>) {
    if m.link.step > step then
      match FindStep(m.skipped, step)
      case None => (m, Err(Replay))
      case Some(i) => (m.(skipped := RemoveAt(m.skipped, i)), Ok(m.skipped[i]))
    else if step - m.link.step > MAX_FORWARD_JUMP then (m, Err(BadMessage))
    else
      var n := step - m.link.step;
      var kept := m.(skipped := KeptAfter(m.skipped, Yields(c, m.link, n)));
      if step == LAST_STEP then (kept, Err(Trap))
      else (kept.(link := Link(step + 1, SeedAfter(c, m.link.seed, n + 1))), Ok(YieldAfter(c, m.link, n)))
  }

  /** Trimming after every key is trimming once at the end. */
  lemma TrimsOnce<T>(n: nat, s: seq<T>, t: seq<T>)
    ensures Newest(n, Newest(n, s) + t) == Newest(n, s + t)
  {
  }

  lemma YieldsGrow(c: Suite, link: Link, n: nat)
    requires link.step + n + 1 < U32_LIMIT
    ensures Yields(c, link, n + 1) == Yields(c, link, n) + [YieldAfter(c, link, n)]
  {
  }

  /** One pass of the skip loop in closed form. */
  lemma KeepsOneMore(c: Suite, skipped: seq<Yield>, link: Link, n: nat)
    requires link.step + n + 1 < U32_LIMIT
    ensures Newest(MAX_SKIPPED, KeptAfter(skipped, Yields(c, link, n)) + [YieldAfter(c, link, n)]) ==
            KeptAfter(skipped, Yields(c, link, n + 1))
  {
    YieldsGrow(c, link, n);
    var passed, y := Yields(c, link, n), [YieldAfter(c, link, n)];
    if passed != [] {
      TrimsOnce(MAX_SKIPPED, skipped + passed, y);
    }
  }

  /** The loop: a local link advances to the step, keeping each passed key; then the member moves on. */
  method TakeYield(c: Suite, m: Member, step: U32) returns (r: Result<Yield, Fault>)
    modifies m
    ensures (m.State(), r) == YieldFor(c, old(m.State()), step)
  {
    var link := m.link;
    if link.step > step {
      var y := m.TakeSkipped(step);
      return OrFault(y, Replay);
    }
    if step - link.step > MAX_FORWARD_JUMP {
      return Err(BadMessage);
    }
    ghost var n, start, skipped := 0, link, m.skipped;
    hide KeptAfter, Yields, Newest;
    KeepsNone(c, skipped, start);
    while link.step < step
      invariant n <= step - start.step && link == Link(start.step + n, SeedAfter(c, start.seed, n))
      invariant m.link == start && m.skipped == KeptAfter(skipped, Yields(c, start, n))
      decreases step - link.step
    {
      m.KeepSkipped(link.YieldNow(c));
      KeepsOneMore(c, skipped, start, n);
      link := link.Advance(c);
      n := n + 1;
    }
    if link.step == LAST_STEP {
      return Err(Trap);
    }
    m.link := link.Advance(c);
    return Ok(link.YieldNow(c));
  }

  lemma KeepsNone(c: Suite, skipped: seq<Yield>, link: Link)
    ensures KeptAfter(skipped, Yields(c, link, 0)) == skipped
  {
  }

  // Announce and admit

  function FromAnnounce(a: Announce): MemberState {
    MemberState(a.version, a.chainId, Link(a.step, a.seed), a.signing, None, [])
  }

  function Admit(ms: seq<MemberState>, a: Announce): seq<MemberState> {
    Admitted(ms, FromAnnounce(a))
  }

  /** What a new chain of our own starts from: a random id and seed and a generated pair. */
  datatype Entropy = Entropy(chainId: U32, seed: Bytes32, secret: Secret)

  function OwnChain(e: Entropy, signing: Public): MemberState {
    MemberState(CURRENT_VERSION, e.chainId, Link(0, e.seed), signing, Some(e.secret), [])
  }

  function AnnounceFor(m: MemberState, circleId: Bytes16): Result<Announce, Fault> {
    if m.version >= U8_LIMIT then Err(Trap)
    else AnnounceOf(AnnounceBytes(m.version, circleId, m.chainId, m.link.step, m.link.seed, m.signing))
  }

  /** The announcement of our own chain, creating the chain on first use. */
  function AnnounceOwn(c: Suite, ms: seq<MemberState>, circleId: Bytes16, e: Entropy): Outcome<Announce> {
    if ms != [] then Outcome(ms, AnnounceFor(ms[0], circleId))
    else
      match c.publicOf(e.secret)
      case None => Outcome(ms, Err(BadKey))
      case Some(signing) =>
        var own := Admitted(ms, OwnChain(e, signing));
        Outcome(own, AnnounceFor(own[0], circleId))
  }

  method AnnounceOwnChain(c: Suite, circle: Circle, circleId: Bytes16, e: Entropy)
    returns (r: Result<Announce, Fault>)
    requires circle.Valid()
    modifies circle
    ensures circle.Valid()
    ensures Outcome(circle.States(), r) == AnnounceOwn(c, old(circle.States()), circleId, e)
  {
    if circle.members == [] {
      var signing := c.publicOf(e.secret);
      if signing.None? {
        return Err(BadKey);
      }
      circle.Admit(OwnChain(e, signing.value));
    }
    var m := circle.members[0];
    assert circle.States()[0] == m.State();
    if m.version >= U8_LIMIT {
      return Err(Trap);
    }
    r := MakeAnnounce(m.version, circleId, m.chainId, m.link.step, m.link.seed, m.signing);
  }

  // Seal

  /** A note under the newest chain's current step; the chain moves on only when the note was made. */
  function Seal(c: Suite, ms: seq<MemberState>, circleId: Bytes16, plain: Bytes, nonce: Bytes64): Outcome<Bytes> {
    if ms == [] then Outcome(ms, Err(NoSession))
    else
      var m := ms[0];
      match m.secret
      case None => Outcome(ms, Err(BadSession))
      case Some(signer) =>
        var y := m.link.YieldNow(c);
        var body := Cbc.Seal(c, y.Keys(c).cipher, y.Keys(c).iv, plain);
        if m.version >= U8_LIMIT then Outcome(ms, Err(Trap))
        else
          match MadeNote(c, m.version, circleId, m.chainId, y.step, body, signer, nonce)
          case Err(e) => Outcome(ms, Err(e))
          case Ok(note) =>
            if m.link.step == LAST_STEP then Outcome(ms, Err(Trap))
            else Outcome(ms[0 := m.(link := m.link.Advance(c))], Ok(note.bytes))
  }

  /** A plaintext whose padded form still has a 64-bit length. */
  predicate Sealable(plain: Bytes) {
    |plain| + 16 < U64_LIMIT
  }

  method SealNote(c: Suite, circle: Circle, circleId: Bytes16, plain: Bytes, nonce: Bytes64)
    returns (r: Result<Bytes, Fault>)
    requires circle.Valid() && Sealable(plain)
    modifies circle.members
    ensures circle.Valid() && circle.members == old(circle.members)
    ensures Outcome(circle.States(), r) == Seal(c, old(circle.States()), circleId, plain, nonce)
  {
    if circle.members == [] {
      return Err(NoSession);
    }
    var m := circle.members[0];
    ghost var before := circle.States();
    assert before[0] == m.State();
    if m.secret.None? {
      return Err(BadSession);
    }
    var link := m.link;
    var y := link.YieldNow(c);
    var keys := y.Keys(c);
    var body := Cbc.CbcSeal(c, keys.cipher, keys.iv, plain);
    if m.version >= U8_LIMIT {
      return Err(Trap);
    }
    var note :- MakeNote(c, m.version, circleId, m.chainId, y.step, body, m.secret.value, nonce);
    if link.step == LAST_STEP {
      return Err(Trap);
    }
    m.link := link.Advance(c);
    assert circle.States() == before[0 := m.State()];
    return Ok(note.bytes);
  }

  // Open

  function Open(c: Suite, ms: seq<MemberState>, note: Note): Outcome<Bytes>
    requires |note.bytes| >= SIGNATURE_LENGTH
  {
    match IndexOf(ms, note.chainId)
    case None => Outcome(ms, Err(NoSession))
    case Some(i) =>
      var m := ms[i];
      if note.version != m.version then Outcome(ms, Err(UnknownVersion))
      else if !note.SignedBy(c, m.signing) then Outcome(ms, Err(BadSignature))
      else
        var (next, y) := YieldFor(c, m, note.step);
        var left := ms[i := next];
        match y
        case Err(e) => Outcome(left, Err(e))
        case Ok(key) => Outcome(left, Cbc.Open(c, key.Keys(c).cipher, key.Keys(c).iv, note.body))
  }

  method OpenNote(c: Suite, circle: Circle, note: Note) returns (r: Result<Bytes, Fault>)
    requires circle.Valid() && |note.bytes| >= SIGNATURE_LENGTH
    modifies circle.members
    ensures circle.Valid() && circle.members == old(circle.members)
    ensures Outcome(circle.States(), r) == Open(c, old(circle.States()), note)
  {
    ghost var before := circle.States();
    var found := circle.ByChain(note.chainId);
    if found == null {
      return Err(NoSession);
    }
    var m: Member := found;
    ghost var i := IndexOf(before, note.chainId).value;
    assert before[i] == m.State();
    if note.version != m.version {
      return Err(UnknownVersion);
    }
    if !note.SignedBy(c, m.signing) {
      return Err(BadSignature);
    }
    var y := TakeYield(c, m, note.step);
    assert circle.States() == before[i := m.State()];
    if y.Err? {
      return Err(y.error);
    }
    var keys := y.value.Keys(c);
    r := Cbc.CbcOpen(c, keys.cipher, keys.iv, note.body);
  }
}
