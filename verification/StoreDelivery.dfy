/** Delivery through two hosts' stores: what is distributed and sealed at one is processed and decrypted at the other. */
module StoreDelivery {
  import opened Basics
  import opened Suites
  import opened Chains
  import opened Records
  import RecordCodec
  import opened Posts
  import opened Names
  import opened Abi
  import opened Windows
  import opened GroupStore
  import Calls
  import Cbc
  import Cipher
  import Sender
  import Runs
  import Presence

  // The same record

  lemma TextIsHyphenated(bytes: Bytes16)
    ensures Hyphenated(UuidText(bytes))
  {
    HexIsHex(bytes);
    GroupedIsHyphenated(Hex(bytes));
  }

  /** A distribution is kept where a note is looked up, exactly when both are from one device and of one circle. */
  lemma SameRecordIff(from: Address, message: Bytes, other: Address, data: Bytes)
    requires AnnounceOf(message).Ok? && NoteOf(data).Ok?
    ensures PlanOf(Process(from, message)).Ok? && PlanOf(Decrypt(other, data)).Ok?
    ensures PlanOf(Process(from, message)).value.key == PlanOf(Decrypt(other, data)).value.key <==>
            from == other && AnnounceOf(message).value.circleId == NoteOf(data).value.circleId
  {
    hide UuidBytes, UuidText, Hyphenated, AnnounceOf, NoteOf, KeyFor;
    var a, b := AnnounceOf(message).value.circleId, NoteOf(data).value.circleId;
    TextIsHyphenated(a);
    TextIsHyphenated(b);
    TextReadsBack(a);
    TextReadsBack(b);
    KeysAreTriples(from, UuidText(a), other, UuidText(b));
  }

  // What an operation answers

  /** After any run of operations, one on a record answers as its call does on the circle those on the record ran. */
  lemma AnswersAsCall(c: Suite, keys: Keys, ops: seq<Op>, op: Op, key: string, ms: seq<MemberState>, ws: map<U32, Window>)
    requires Calls.Held(c, ms, ws) && RecordAt(keys, key) == RecordCodec.CircleBytes(ms)
    requires At(op, key) && CallOf(PlanOf(op).value.request).Ok?
    ensures AnswerTo(c, RunOps(c, keys, ops), op) ==
            Calls.Replies(c, Calls.Run(c, ms, CallsOf(RequestsAt(ops, key))), CallOf(PlanOf(op).value.request).value)
  {
    hide RecordAt, RecordCodec.CircleBytes, RunOps, Calls.Apply, Calls.Run, RunOnRecord, Calls.Held, UuidBytes, AnnounceOf, NoteOf, Answer;
    var calls := CallsOf(RequestsAt(ops, key));
    RunsApart(c, keys, ops, key);
    RunOnRecordIsRun(c, ms, ws, RequestsAt(ops, key));
    var ws' := Runs.RunKeepsHeld(c, ms, ws, calls);
    RequestIsCall(c, Calls.Run(c, ms, calls), ws', PlanOf(op).value.request);
    if op.Encrypt? && RecordAt(RunOps(c, keys, ops), key) == [] {
      NoRecordNoAnswer(c, PlanOf(op).value.request);
    }
  }

  // From one store to another

  /** Our operations on our record are our chain's announcements and seals. */
  lemma {:induction false} OwnOpsAreOwnCalls(ops: seq<Op>, key: string)
    requires OwnAt(ops, key)
    ensures Sender.OwnCalls(CallsOf(RequestsAt(ops, key)))
  {
    hide UuidBytes, AnnounceOf, NoteOf, KeyFor, CallOf;
    if ops != [] {
      OwnOpsAreOwnCalls(ops[1..], key);
      assert ops[0] in ops;
      OwnFront(ops, key);
    }
  }

  lemma OwnFront(ops: seq<Op>, key: string)
    requires ops != [] && OwnAt([ops[0]], key) && Sender.OwnCalls(CallsOf(RequestsAt(ops[1..], key)))
    ensures Sender.OwnCalls(CallsOf(RequestsAt(ops, key)))
  {
    hide UuidBytes, AnnounceOf, NoteOf, KeyFor;
    var rest := RequestsAt(ops[1..], key);
    if At(ops[0], key) {
      assert ops[0] in [ops[0]];
      var req := PlanOf(ops[0]).value.request;
      assert RequestsAt(ops, key) == [req] + rest && ([req] + rest)[1..] == rest;
    } else {
      assert RequestsAt(ops, key) == rest;
    }
  }

  /** Where our chain is kept under a text key, what a distribution and a seal there answer after any operations of ours. */
  lemma OwnStoreAnswers(c: Suite, keys: Keys, ops: seq<Op>, to: Address, id: string, e: Cipher.Entropy, signing: Public,
                        other: Cipher.Entropy, plain: Bytes, nonce: Bytes64)
    requires c.publicOf(e.secret) == Some(signing) && UuidBytes(id).Ok? && OwnAt(ops, KeyFor(to, id))
    requires RecordAt(keys, KeyFor(to, id)) == RecordCodec.CircleBytes([Sender.ChainAt(c, e, signing, 0)])
    ensures var calls := CallsOf(RequestsAt(ops, KeyFor(to, id)));
            && Sender.OwnCalls(calls)
            && AnswerTo(c, RunOps(c, keys, ops), Distribute(to, id, other)) ==
               Ok(Sender.AnnouncementAfter(c, e, signing, calls, UuidBytes(id).value))
            && AnswerTo(c, RunOps(c, keys, ops), Encrypt(to, id, plain, nonce)) ==
               Sender.NoteAfter(c, e, signing, calls, UuidBytes(id).value, plain, nonce)
  {
    hide RecordAt, RecordCodec.CircleBytes, RunOps, Calls.Apply, Calls.Run, Calls.Held, UuidBytes, AnswerTo, KeyFor, Sender.ChainAt, RequestsAt;
    var key := KeyFor(to, id);
    var own := [Sender.ChainAt(c, e, signing, 0)];
    ChainFacts(c, e, signing, 0);
    var ws := ChainIsHeld(c, own[0]);
    OwnOpsAreOwnCalls(ops, key);
    AnswersAsCall(c, keys, ops, Distribute(to, id, other), key, own, ws);
    AnswersAsCall(c, keys, ops, Encrypt(to, id, plain, nonce), key, own, ws);
    var calls := CallsOf(RequestsAt(ops, key));
    Sender.OwnRun(c, e, signing, 0, calls);
    var n := Sender.Sealed(c, own, calls);
    Sender.AnnouncementHandsOver(c, e, signing, n, UuidBytes(id).value, other);
    Sender.AnnouncementHandsOver(c, e, signing, n, UuidBytes(id).value, e);
    AnyEntropyAnnounces(c, e, signing, n, UuidBytes(id).value, other);
  }

  /** A chain that is there is announced whatever entropy there was for a new one. */
  lemma AnyEntropyAnnounces(c: Suite, e: Cipher.Entropy, signing: Public, n: U32, circleId: Bytes16, other: Cipher.Entropy)
    ensures var own := [Sender.ChainAt(c, e, signing, n)];
            Calls.Apply(c, own, Calls.AnnounceCall(circleId, other)) == Calls.Apply(c, own, Calls.AnnounceCall(circleId, e))
  {
    hide AnnounceOf, AnnounceBytes, SeedAfter;
  }

  /**
   * Two stores. Ours keeps our chain: after any operations we distribute it, after any other operations we
   * encrypt. Theirs processes the distribution, then does anything that keeps the chain, then decrypts the
   * note. The answer is what the step deserves: the plaintext, a replay, or a bad message.
   */
  lemma EncryptedArrives(c: Suite, e: Cipher.Entropy, signing: Public, to: Address, id: string,
                         ours: Keys, untilDistributed: seq<Op>, other: Cipher.Entropy, message: Bytes,
                         untilEncrypted: seq<Op>, plain: Bytes, nonce: Bytes64, data: Bytes,
                         from: Address, theirs: Keys, ms: seq<MemberState>, ws: map<U32, Window>, ops: seq<Op>)
    requires Lawful(c) && c.publicOf(e.secret) == Some(signing) && Cipher.Sealable(plain) && UuidBytes(id).Ok?
    requires RecordAt(ours, KeyFor(to, id)) == RecordCodec.CircleBytes([Sender.ChainAt(c, e, signing, 0)])
    requires OwnAt(untilDistributed, KeyFor(to, id)) && OwnAt(untilEncrypted, KeyFor(to, id))
    requires AnswerTo(c, RunOps(c, ours, untilDistributed), Distribute(to, id, other)) == Ok(message)
    requires AnswerTo(c, RunOps(c, ours, untilEncrypted), Encrypt(to, id, plain, nonce)) == Ok(data)
    requires var key := KeyFor(from, UuidText(UuidBytes(id).value));
             && Calls.Held(c, ms, ws) && RecordAt(theirs, key) == RecordCodec.CircleBytes(ms) && !Runs.Present(ms, e.chainId, signing)
             && Presence.Stays(CallsOf(RequestsAt(ops, key)), e.chainId, signing, {})
    ensures var key := KeyFor(from, UuidText(UuidBytes(id).value));
            var own := [Sender.ChainAt(c, e, signing, 0)];
            var first := Sender.Sealed(c, own, CallsOf(RequestsAt(untilDistributed, KeyFor(to, id))));
            var step := Sender.Sealed(c, own, CallsOf(RequestsAt(untilEncrypted, KeyFor(to, id))));
            var joined := Calls.After(c, ms, Calls.AdmitCall(message));
            && first < U32_LIMIT && step < U32_LIMIT
            && AnswerTo(c, theirs, Process(from, message)) == Ok([])
            && Runs.Verdict(StartWindow(first, SeedAfter(c, e.seed, first)),
                            Runs.History(c, joined, CallsOf(RequestsAt(ops, key)), e.chainId), step, plain,
                            AnswerTo(c, RunOps(c, KeysAfter(c, theirs, Process(from, message)), ops), Decrypt(from, data)))
  {
    hide RecordAt, RecordCodec.CircleBytes, RunOps, Calls.Apply, Calls.Run, Calls.Held, UuidBytes, UuidText, AnswerTo, KeyFor, KeysAfter,
      Sender.ChainAt, Sender.AnnouncementAfter, Sender.NoteAfter, RequestsAt, Runs.Verdict, Runs.History, Presence.Stays, AnnounceOf, NoteOf,
      SeedAfter, Runs.Present, Calls.After, Runs.Honest, Lawful, Cbc.Seal;
    var bytes := UuidBytes(id).value;
    var key := KeyFor(from, UuidText(bytes));
    var distributed, encrypted := CallsOf(RequestsAt(untilDistributed, KeyFor(to, id))), CallsOf(RequestsAt(untilEncrypted, KeyFor(to, id)));
    OwnStoreAnswers(c, ours, untilDistributed, to, id, e, signing, other, plain, nonce);
    OwnStoreAnswers(c, ours, untilEncrypted, to, id, e, signing, other, plain, nonce);
    Sender.AnnouncementAfterRun(c, e, signing, distributed, bytes);
    Sender.NoteAfterRun(c, e, signing, encrypted, bytes, plain, nonce);
    Sender.NoteBytesAfterRun(c, e, signing, encrypted, bytes, plain, nonce);
    ProcessedIsAdmitted(c, theirs, from, message, bytes, ms, ws);
    var joined := Calls.After(c, ms, Calls.AdmitCall(message));
    var ws' := Runs.FirstAdmission(c, ms, ws, message);
    AnswersAsCall(c, KeysAfter(c, theirs, Process(from, message)), ops, Decrypt(from, data), key, joined, ws');
    Presence.DeliveredWhileKept(c, ms, ws, message, e.seed, CallsOf(RequestsAt(ops, key)),
                                Sender.Sealed(c, [Sender.ChainAt(c, e, signing, 0)], encrypted), plain, data);
  }

  /** Processing a distribution admits it into the circle kept for its sender and circle. */
  lemma ProcessedIsAdmitted(c: Suite, keys: Keys, from: Address, message: Bytes, bytes: Bytes16, ms: seq<MemberState>, ws: map<U32, Window>)
    requires Calls.Held(c, ms, ws) && RecordAt(keys, KeyFor(from, UuidText(bytes))) == RecordCodec.CircleBytes(ms)
    requires AnnounceOf(message).Ok? && AnnounceOf(message).value.circleId == bytes
    ensures AnswerTo(c, keys, Process(from, message)) == Ok([])
    ensures RecordAt(KeysAfter(c, keys, Process(from, message)), KeyFor(from, UuidText(bytes))) ==
            RecordCodec.CircleBytes(Calls.After(c, ms, Calls.AdmitCall(message)))
  {
    hide RecordAt, RecordCodec.CircleBytes, Calls.Held, UuidText, KeyFor, AnnounceOf, Answer, Admitted;
    RequestIsCall(c, ms, ws, AdmitRequest(message));
    OpTouchesOneRecord(c, keys, Process(from, message), KeyFor(from, UuidText(bytes)));
  }

  // From nothing

  /** Without a record nothing is sealed or opened. */
  lemma NothingWithoutRecord(c: Suite, keys: Keys, op: Op)
    requires op.Encrypt? || (op.Decrypt? && NoteOf(op.message).Ok?)
    requires RecordAt(keys, if op.Encrypt? then KeyFor(op.to, op.id) else KeyFor(op.from, UuidText(NoteOf(op.message).value.circleId))) == []
    ensures AnswerTo(c, keys, op) == Err(NoSession) && KeysAfter(c, keys, op) == keys
  {
    hide KeyFor, UuidText, NoteOf, UuidBytes;
  }

  /** The first distribution makes our chain at step zero and keeps it under the name it was asked for. */
  lemma FirstDistribution(c: Suite, keys: Keys, to: Address, id: string, e: Cipher.Entropy, signing: Public)
    requires c.publicOf(e.secret) == Some(signing) && UuidBytes(id).Ok? && RecordAt(keys, KeyFor(to, id)) == []
    ensures AnswerTo(c, keys, Distribute(to, id, e)) == Ok(Sender.AnnouncementAfter(c, e, signing, [], UuidBytes(id).value))
    ensures RecordAt(KeysAfter(c, keys, Distribute(to, id, e)), KeyFor(to, id)) ==
            RecordCodec.CircleBytes([Sender.ChainAt(c, e, signing, 0)])
  {
    hide RecordAt, RecordCodec.CircleBytes, UuidBytes, KeyFor, Answer, Calls.Apply, Sender.ChainAt;
    var bytes := UuidBytes(id).value;
    NoMembersNoBytes();
    HeldNothing(c);
    RequestIsCall(c, [], map[], AnnounceRequest(bytes, e));
    OpTouchesOneRecord(c, keys, Distribute(to, id, e), KeyFor(to, id));
    Sender.FirstAnnouncement(c, bytes, e, signing);
    Sender.AnnouncementHandsOver(c, e, signing, 0, bytes, e);
  }

  lemma NoMembersNoBytes()
    ensures RecordCodec.CircleBytes([]) == []
  {
  }

  lemma HeldNothing(c: Suite)
    ensures Calls.Held(c, [], map[])
  {
  }

  /** The shortest such history, where neither store has a record: distribute, encrypt, process, decrypt. */
  lemma FirstMessageDecrypts(c: Suite, e: Cipher.Entropy, signing: Public, to: Address, id: string, ours: Keys,
                             plain: Bytes, nonce: Bytes64, from: Address, theirs: Keys)
    requires Lawful(c) && c.publicOf(e.secret) == Some(signing) && Cipher.Sealable(plain) && UuidBytes(id).Ok?
    requires forall content: Bytes :: c.sign(e.secret, content, nonce).Some?
    requires RecordAt(ours, KeyFor(to, id)) == [] && RecordAt(theirs, KeyFor(from, UuidText(UuidBytes(id).value))) == []
    ensures var distributed := AnswerTo(c, ours, Distribute(to, id, e));
            var encrypted := AnswerTo(c, KeysAfter(c, ours, Distribute(to, id, e)), Encrypt(to, id, plain, nonce));
            && distributed.Ok? && encrypted.Ok?
            && AnswerTo(c, KeysAfter(c, theirs, Process(from, distributed.value)), Decrypt(from, encrypted.value)) == Ok(plain)
  {
    hide RecordAt, RecordCodec.CircleBytes, Calls.Apply, UuidBytes, UuidText, AnswerTo, KeyFor, KeysAfter, Sender.ChainAt,
      AnnounceOf, NoteOf, SeedAfter, Calls.After, Lawful;
    var kept := KeysAfter(c, ours, Distribute(to, id, e));
    var bytes := UuidBytes(id).value;
    FirstDistribution(c, ours, to, id, e, signing);
    OwnStoreAnswers(c, kept, [], to, id, e, signing, e, plain, nonce);
    Sender.FirstNoteArrives(c, e, signing, bytes, plain, nonce);
    NoMembersNoBytes();
    HeldNothing(c);
    EncryptedArrives(c, e, signing, to, id, kept, [], e, AnswerTo(c, ours, Distribute(to, id, e)).value,
                     [], plain, nonce, AnswerTo(c, kept, Encrypt(to, id, plain, nonce)).value, from, theirs, [], map[], []);
  }
}
