/** A sender's own chain: consecutive steps from zero, announcements that hand over the next note's link. */
module Sender {
  import opened Basics
  import opened Suites
  import opened Chains
  import opened Records
  import opened Posts
  import opened Windows
  import opened Calls
  import opened Runs
  import Cipher
  import Cbc

  predicate Own(call: Call) {
    call.SealCall? || call.AnnounceCall?
  }

  /** Our chain after `n` notes. */
  function ChainAt(c: Suite, e: Cipher.Entropy, key: Public, n: U32): MemberState {
    Cipher.OwnChain(e, key).(link := Link(n, SeedAfter(c, e.seed, n)))
  }

  /** How many of the calls made a note. */
  function Sealed(c: Suite, ms: seq<MemberState>, calls: seq<Call>): nat
    decreases |calls|
  {
    if calls == [] then 0
    else
      (if calls[0].SealCall? && Apply(c, ms, calls[0]).Ok? then 1 else 0) +
      Sealed(c, After(c, ms, calls[0]), calls[1..])
  }

  /** The first announcement creates the chain at step zero. */
  lemma FirstAnnouncement(c: Suite, circleId: Bytes16, e: Cipher.Entropy, key: Public)
    requires c.publicOf(e.secret) == Some(key)
    ensures After(c, [], AnnounceCall(circleId, e)) == [ChainAt(c, e, key, 0)]
    ensures Apply(c, [], AnnounceCall(circleId, e)) == Apply(c, [ChainAt(c, e, key, 0)], AnnounceCall(circleId, e))
  {
    hide AnnounceOf, AnnounceBytes;
    var own := Cipher.OwnChain(e, key);
    AnnounceRoundTrip(own.version, circleId, e.chainId, 0, e.seed, key);
  }

  /** An announcement taken after `n` notes hands over the link of note `n` and changes nothing. */
  lemma AnnouncementHandsOver(c: Suite, e: Cipher.Entropy, key: Public, n: U32, circleId: Bytes16, other: Cipher.Entropy)
    ensures var reply := Apply(c, [ChainAt(c, e, key, n)], AnnounceCall(circleId, other));
            && reply.Ok? && reply.value.1 == [ChainAt(c, e, key, n)]
            && AnnounceOf(reply.value.0) ==
               Ok(Announce(VERSION, circleId, e.chainId, n, SeedAfter(c, e.seed, n), key, reply.value.0))
  {
    hide AnnounceOf, AnnounceBytes, SeedAfter;
    AnnounceRoundTrip(CURRENT_VERSION, circleId, e.chainId, n, SeedAfter(c, e.seed, n), key);
  }

  /**
   * A seal after `n` notes makes the honest note of step `n` and moves the chain one step, exactly
   * when the signer can sign and a step is left; otherwise the chain stays where it was.
   */
  lemma SealMakesNote(c: Suite, e: Cipher.Entropy, key: Public, n: U32, circleId: Bytes16, plain: Bytes, nonce: Bytes64)
    requires c.publicOf(e.secret) == Some(key) && Cipher.Sealable(plain)
    ensures var keys := c.circleKeys(c.chainSeed(SeedAfter(c, e.seed, n)));
            var content := NoteContent(CURRENT_VERSION, circleId, e.chainId, n, Cbc.Seal(c, keys.cipher, keys.iv, plain));
            var reply := Apply(c, [ChainAt(c, e, key, n)], SealCall(circleId, plain, nonce));
            && (reply.Ok? <==> c.sign(e.secret, content, nonce).Some? && n != LAST_STEP)
            && (reply.Ok? ==> Honest(c, e.seed, e.chainId, key, n, plain, reply.value.0) && n != LAST_STEP)
            && (reply.Ok? && n != LAST_STEP ==> reply.value.1 == [ChainAt(c, e, key, n + 1)])
  {
    var keys := c.circleKeys(c.chainSeed(SeedAfter(c, e.seed, n)));
    var body := Cbc.Seal(c, keys.cipher, keys.iv, plain);
    hide SeedAfter, Cbc.Seal, NoteContent, NoteOf, MadeNote, ChainAt, Apply;
    SealReply(c, e, key, n, circleId, plain, nonce);
    NoteRoundTrip(c, CURRENT_VERSION, circleId, e.chainId, n, body, e.secret, nonce);
    var made := MadeNote(c, CURRENT_VERSION, circleId, e.chainId, n, body, e.secret, nonce);
    if made.Ok? {
      assert HonestUnder(c, e.seed, e.chainId, key, n, plain, made.value.bytes, circleId, e.secret, nonce);
    }
  }

  lemma SealReply(c: Suite, e: Cipher.Entropy, key: Public, n: U32, circleId: Bytes16, plain: Bytes, nonce: Bytes64)
    ensures var keys := c.circleKeys(c.chainSeed(SeedAfter(c, e.seed, n)));
            Apply(c, [ChainAt(c, e, key, n)], SealCall(circleId, plain, nonce)) ==
            match MadeNote(c, CURRENT_VERSION, circleId, e.chainId, n, Cbc.Seal(c, keys.cipher, keys.iv, plain), e.secret, nonce) {
              case Err(fault) => Err(fault)
              case Ok(note) => if n == LAST_STEP then Err(Trap) else Ok((note.bytes, [ChainAt(c, e, key, n + 1)]))
            }
  {
    hide SeedAfter, Cbc.Seal, MadeNote;
    var m := ChainAt(c, e, key, n);
    if n != LAST_STEP {
      SeedStep(c, e.seed, n);
      assert [m][0 := m.(link := m.link.Advance(c))] == [ChainAt(c, e, key, n + 1)];
    }
  }

  lemma SeedStep(c: Suite, seed: Bytes32, n: nat)
    ensures SeedAfter(c, seed, n + 1) == c.chainNext(SeedAfter(c, seed, n))
  {
  }

  predicate OwnCalls(calls: seq<Call>) {
    forall call :: call in calls ==> Own(call) && (call.SealCall? ==> Cipher.Sealable(call.plain))
  }

  /** Over any run of announcements and seals, failed ones included, the chain has moved one step per note. */
  lemma {:induction false} OwnRun(c: Suite, e: Cipher.Entropy, key: Public, n: U32, calls: seq<Call>)
    requires c.publicOf(e.secret) == Some(key) && OwnCalls(calls)
    ensures n + Sealed(c, [ChainAt(c, e, key, n)], calls) < U32_LIMIT
    ensures Run(c, [ChainAt(c, e, key, n)], calls) ==
            [ChainAt(c, e, key, n + Sealed(c, [ChainAt(c, e, key, n)], calls))]
    decreases |calls|
  {
    hide Apply, ChainAt;
    if calls != [] {
      var call := calls[0];
      assert call in calls;
      match call {
        case SealCall(circleId, plain, nonce) =>
          SealMakesNote(c, e, key, n, circleId, plain, nonce);
        case AnnounceCall(circleId, other) =>
          AnnouncementHandsOver(c, e, key, n, circleId, other);
      }
      var moved := call.SealCall? && Apply(c, [ChainAt(c, e, key, n)], call).Ok?;
      OwnRun(c, e, key, if moved then n + 1 else n, calls[1..]);
    }
  }

  /** The announcement our chain gives after a run of our calls. */
  function AnnouncementAfter(c: Suite, e: Cipher.Entropy, key: Public, calls: seq<Call>, circleId: Bytes16): Bytes {
    match Apply(c, Run(c, [ChainAt(c, e, key, 0)], calls), AnnounceCall(circleId, e))
    case Ok((announce, _)) => announce
    case Err(_) => []
  }

  /** The note our chain gives after a run of our calls, or why there is none. */
  function NoteAfter(c: Suite, e: Cipher.Entropy, key: Public, calls: seq<Call>, circleId: Bytes16, plain: Bytes, nonce: Bytes64): Result<Bytes, Fault> {
    Replies(c, Run(c, [ChainAt(c, e, key, 0)], calls), SealCall(circleId, plain, nonce))
  }

  /** Notes carry consecutive steps from zero: the one after a run carries the run's count of notes. */
  lemma NoteAfterRun(c: Suite, e: Cipher.Entropy, key: Public, calls: seq<Call>, circleId: Bytes16, plain: Bytes, nonce: Bytes64)
    requires c.publicOf(e.secret) == Some(key) && OwnCalls(calls) && Cipher.Sealable(plain)
    requires NoteAfter(c, e, key, calls, circleId, plain, nonce).Ok?
    ensures var note, step := NoteAfter(c, e, key, calls, circleId, plain, nonce).value, Sealed(c, [ChainAt(c, e, key, 0)], calls);
            && step < LAST_STEP
            && Honest(c, e.seed, e.chainId, key, step, plain, note)
            && NoteOf(note).Ok? && NoteOf(note).value.chainId == e.chainId && NoteOf(note).value.step == step
  {
    hide Apply, ChainAt, Honest, SeedAfter, NoteOf, Run, Sealed;
    OwnRun(c, e, key, 0, calls);
    var step := Sealed(c, [ChainAt(c, e, key, 0)], calls);
    SealMakesNote(c, e, key, step, circleId, plain, nonce);
    HonestNoteNames(c, e.seed, e.chainId, key, step, plain, NoteAfter(c, e, key, calls, circleId, plain, nonce).value);
  }

  /**
   * The bytes of that note: version 3, its circle, chain and step, then the plaintext sealed under the step's
   * key, signed by the chain's secret. The seed behind the key is stepped once for every note before it.
   */
  lemma NoteBytesAfterRun(c: Suite, e: Cipher.Entropy, key: Public, calls: seq<Call>, circleId: Bytes16, plain: Bytes, nonce: Bytes64)
    requires c.publicOf(e.secret) == Some(key) && OwnCalls(calls) && Cipher.Sealable(plain)
    requires NoteAfter(c, e, key, calls, circleId, plain, nonce).Ok?
    ensures Sealed(c, [ChainAt(c, e, key, 0)], calls) < U32_LIMIT
    ensures var note, step := NoteAfter(c, e, key, calls, circleId, plain, nonce).value, Sealed(c, [ChainAt(c, e, key, 0)], calls);
            var keys := c.circleKeys(c.chainSeed(SeedAfter(c, e.seed, step)));
            var content := NoteContent(3, circleId, e.chainId, step, Cbc.Seal(c, keys.cipher, keys.iv, plain));
            && c.sign(e.secret, content, nonce).Some? && note == content + c.sign(e.secret, content, nonce).value
            && NoteOf(note).Ok? && NoteOf(note).value.circleId == circleId
  {
    hide Apply, ChainAt, SeedAfter, NoteOf, Run, Sealed, Cbc.Seal, NoteContent, MadeNote;
    OwnRun(c, e, key, 0, calls);
    var step := Sealed(c, [ChainAt(c, e, key, 0)], calls);
    var keys := c.circleKeys(c.chainSeed(SeedAfter(c, e.seed, step)));
    SealReply(c, e, key, step, circleId, plain, nonce);
    BodyFits(c, keys.cipher, keys.iv, plain);
    MadeNoteIs(c, circleId, e.chainId, step, Cbc.Seal(c, keys.cipher, keys.iv, plain), e.secret, nonce);
  }

  lemma BodyFits(c: Suite, key: Bytes32, iv: Bytes16, plain: Bytes)
    requires Cipher.Sealable(plain)
    ensures |Cbc.Seal(c, key, iv, plain)| < U64_LIMIT
  {
  }

  lemma MadeNoteIs(c: Suite, circleId: Bytes16, chainId: U32, step: U32, body: Bytes, signer: Secret, nonce: Bytes64)
    requires |body| < U64_LIMIT && MadeNote(c, 3, circleId, chainId, step, body, signer, nonce).Ok?
    ensures var content := NoteContent(3, circleId, chainId, step, body);
            var note := MadeNote(c, 3, circleId, chainId, step, body, signer, nonce).value;
            && c.sign(signer, content, nonce).Some? && note.bytes == content + c.sign(signer, content, nonce).value
            && NoteOf(note.bytes) == Ok(note) && note.circleId == circleId
  {
    hide NoteContent;
    NoteRoundTrip(c, 3, circleId, chainId, step, body, signer, nonce);
    MadeNoteParses(c, 3, circleId, chainId, step, body, signer, nonce);
  }

  /** The seeds of the first notes: the chain's own, stepped once per note before. */
  lemma FirstSeeds(c: Suite, seed: Bytes32, n: nat)
    ensures SeedAfter(c, seed, 0) == seed
    ensures SeedAfter(c, seed, 1) == c.chainNext(seed)
    ensures SeedAfter(c, seed, 2) == c.chainNext(c.chainNext(seed))
    ensures SeedAfter(c, seed, n + 1) == c.chainNext(SeedAfter(c, seed, n))
  {
    SeedStep(c, seed, 0);
    SeedStep(c, seed, 1);
  }

  lemma AnnouncementAfterRun(c: Suite, e: Cipher.Entropy, key: Public, calls: seq<Call>, circleId: Bytes16)
    requires c.publicOf(e.secret) == Some(key) && OwnCalls(calls)
    ensures var announce, step := AnnouncementAfter(c, e, key, calls, circleId), Sealed(c, [ChainAt(c, e, key, 0)], calls);
            && step < U32_LIMIT
            && AnnounceOf(announce) ==
               Ok(Announce(VERSION, circleId, e.chainId, step, SeedAfter(c, e.seed, step), key, announce))
  {
    hide Apply, ChainAt, SeedAfter, AnnounceOf, Run, Sealed;
    OwnRun(c, e, key, 0, calls);
    AnnouncementHandsOver(c, e, key, Sealed(c, [ChainAt(c, e, key, 0)], calls), circleId, e);
  }

  /**
   * From seal to open across the network: an announcement taken after any run of our calls, a note
   * sealed after any other run of them, and any run of calls at a receiver that admitted the
   * announcement and kept the member. The note is answered as its step deserves, and opens to the
   * plaintext sealed when it is near enough ahead, or was passed and never crowded out.
   */
  lemma SealedNoteArrives(c: Suite, e: Cipher.Entropy, key: Public, untilAnnounce: seq<Call>, untilNote: seq<Call>,
                          circleId: Bytes16, plain: Bytes, nonce: Bytes64,
                          ms: seq<MemberState>, ws: map<U32, Window>, calls: seq<Call>)
    requires Lawful(c) && c.publicOf(e.secret) == Some(key) && Cipher.Sealable(plain)
    requires OwnCalls(untilAnnounce) && OwnCalls(untilNote)
    requires Held(c, ms, ws) && !Present(ms, e.chainId, key)
    requires NoteAfter(c, e, key, untilNote, circleId, plain, nonce).Ok?
    requires PresentThroughout(c, After(c, ms, AdmitCall(AnnouncementAfter(c, e, key, untilAnnounce, circleId))), calls, e.chainId, key)
    ensures var own := [ChainAt(c, e, key, 0)];
            var from, step := Sealed(c, own, untilAnnounce), Sealed(c, own, untilNote);
            var joined := After(c, ms, AdmitCall(AnnouncementAfter(c, e, key, untilAnnounce, circleId)));
            var note := NoteAfter(c, e, key, untilNote, circleId, plain, nonce).value;
            && from < U32_LIMIT && step < U32_LIMIT
            && Verdict(StartWindow(from, SeedAfter(c, e.seed, from)), History(c, joined, calls, e.chainId), step, plain,
                       Replies(c, Run(c, joined, calls), OpenCall(note)))
  {
    hide Apply, ChainAt, Honest, Tracks, SeedAfter, Verdict, History, Run, After, PresentThroughout, AnnouncementAfter, NoteAfter, NoteOf, AnnounceOf;
    AnnouncementAfterRun(c, e, key, untilAnnounce, circleId);
    NoteAfterRun(c, e, key, untilNote, circleId, plain, nonce);
    DeliveredNoteOpens(c, ms, ws, AnnouncementAfter(c, e, key, untilAnnounce, circleId), e.seed, calls,
                       Sealed(c, [ChainAt(c, e, key, 0)], untilNote), plain, NoteAfter(c, e, key, untilNote, circleId, plain, nonce).value);
  }

  /** The shortest such history: announce, seal, admit into an empty circle, open. */
  lemma FirstNoteArrives(c: Suite, e: Cipher.Entropy, key: Public, circleId: Bytes16, plain: Bytes, nonce: Bytes64)
    requires Lawful(c) && c.publicOf(e.secret) == Some(key) && Cipher.Sealable(plain)
    requires forall content: Bytes :: c.sign(e.secret, content, nonce).Some?
    ensures NoteAfter(c, e, key, [], circleId, plain, nonce).Ok?
    ensures var joined := After(c, [], AdmitCall(AnnouncementAfter(c, e, key, [], circleId)));
            Replies(c, joined, OpenCall(NoteAfter(c, e, key, [], circleId, plain, nonce).value)) == Ok(plain)
  {
    hide Apply, ChainAt, Honest, Tracks, SeedAfter, AnnounceOf, NoteOf;
    SealMakesNote(c, e, key, 0, circleId, plain, nonce);
    AnnouncementAfterRun(c, e, key, [], circleId);
    var _ := FirstAdmission(c, [], map[], AnnouncementAfter(c, e, key, [], circleId));
    SealedNoteArrives(c, e, key, [], [], circleId, plain, nonce, [], map[], []);
  }
}
