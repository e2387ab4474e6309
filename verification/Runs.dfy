/** Whole runs of a circle: what stays true of a chain while its member is present. */
module Runs {
  import opened Basics
  import opened Suites
  import opened Chains
  import opened Records
  import opened Posts
  import opened Windows
  import opened Calls
  import Cipher
  import Cbc

  /** The circle holds this chain under this signing key. */
  predicate Present(ms: seq<MemberState>, id: U32, key: Public) {
    IndexOf(ms, id).Some? && ms[IndexOf(ms, id).value].signing == key
  }

  predicate PresentThroughout(c: Suite, ms: seq<MemberState>, calls: seq<Call>, id: U32, key: Public)
    decreases |calls|
  {
    Present(ms, id, key) && (calls == [] || PresentThroughout(c, After(c, ms, calls[0]), calls[1..], id, key))
  }

  /** The steps of one chain that a run used, in order. */
  function History(c: Suite, ms: seq<MemberState>, calls: seq<Call>, id: U32): seq<U32>
    decreases |calls|
  {
    if calls == [] then []
    else
      var rest := History(c, After(c, ms, calls[0]), calls[1..], id);
      match Used(c, ms, calls[0])
      case None => rest
      case Some((used, step)) => if used == id then [step] + rest else rest
  }

  function ConsumeAll(w: Window, steps: seq<U32>): Window
    decreases |steps|
  {
    if steps == [] then w else ConsumeAll(Consume(w, steps[0]), steps[1..])
  }

  /** While a chain stays present under its key, a call leaves its window alone or consumes one step of it. */
  lemma CallMovesWindow(c: Suite, ms: seq<MemberState>, ws: map<U32, Window>, call: Call, id: U32, key: Public)
    requires Held(c, ms, ws)
    requires Present(ms, id, key) && Present(After(c, ms, call), id, key)
    ensures id in ws && id in NextWindows(c, ms, ws, call)
    ensures NextWindows(c, ms, ws, call)[id] ==
            match Used(c, ms, call) {
              case Some((used, step)) => if used == id then Consume(ws[id], step) else ws[id]
              case None => ws[id]
            }
  {
    hide Tracks, Consume, Cipher.Seal, Cipher.Open, Without, FirstUnder;
    if Used(c, ms, call).Some? {
      UsedWasFree(c, ms, ws, call);
    } else if Apply(c, ms, call).Ok? {
      match call {
        case AdmitCall(data) =>
          StaysStarted(ms, ws, Cipher.FromAnnounce(AnnounceOf(data).value), id, key);
        case AnnounceCall(_, e) =>
        case OpenCall(_) =>
        case SealCall(_, _, _) =>
      }
    }
  }

  /** Admitting again while the member is present under its key does not start its window anew. */
  lemma StaysStarted(ms: seq<MemberState>, ws: map<U32, Window>, offered: MemberState, id: U32, key: Public)
    requires UniqueIds(ms) && id in ws
    requires Present(ms, id, key) && Present(Admitted(ms, offered), id, key)
    ensures id in Started(ms, ws, offered) && Started(ms, ws, offered)[id] == ws[id]
  {
    hide Without;
    FirstUnderMatches(ms, offered.chainId, offered.signing);
  }

  /** Any run keeps the circle held. */
  lemma {:induction false} RunKeepsHeld(c: Suite, ms: seq<MemberState>, ws: map<U32, Window>, calls: seq<Call>) returns (after: map<U32, Window>)
    requires Held(c, ms, ws)
    ensures Held(c, Run(c, ms, calls), after)
    decreases |calls|
  {
    hide Held, After, NextWindows;
    if calls == [] {
      after := ws;
    } else {
      CallKeepsHeld(c, ms, ws, calls[0]);
      after := RunKeepsHeld(c, After(c, ms, calls[0]), NextWindows(c, ms, ws, calls[0]), calls[1..]);
    }
  }

  /** A run's window is the starting window with the run's history consumed. */
  lemma {:induction false} RunConsumesHistory(c: Suite, ms: seq<MemberState>, ws: map<U32, Window>, calls: seq<Call>, id: U32, key: Public)
    returns (after: map<U32, Window>)
    requires Held(c, ms, ws) && PresentThroughout(c, ms, calls, id, key)
    ensures Held(c, Run(c, ms, calls), after) && Present(Run(c, ms, calls), id, key)
    ensures id in ws && id in after && after[id] == ConsumeAll(ws[id], History(c, ms, calls, id))
    decreases |calls|
  {
    hide Tracks, Consume, NextWindows, Used, Apply;
    if calls == [] {
      after := ws;
    } else {
      CallKeepsHeld(c, ms, ws, calls[0]);
      var next := After(c, ms, calls[0]);
      CallMovesWindow(c, ms, ws, calls[0], id, key);
      after := RunConsumesHistory(c, next, NextWindows(c, ms, ws, calls[0]), calls[1..], id, key);
    }
  }

  lemma {:induction false} ConsumingKeepsUsed(w: Window, steps: seq<U32>, step: U32)
    requires step in w.used
    ensures step in ConsumeAll(w, steps).used
    decreases |steps|
  {
    if steps != [] {
      ConsumingKeepsUsed(Consume(w, steps[0]), steps[1..], step);
    }
  }

  /**
   * No step of a chain is used twice, by opening or by sealing, while its member stays in the circle
   * under the same key, whatever is admitted, opened, refused or reloaded in between.
   */
  lemma NoStepTwice(c: Suite, ms: seq<MemberState>, ws: map<U32, Window>, first: Call, between: seq<Call>, again: Call, id: U32, key: Public, step: U32)
    requires Held(c, ms, ws) && PresentThroughout(c, ms, [first] + between, id, key)
    requires Used(c, ms, first) == Some((id, step))
    ensures Used(c, Run(c, ms, [first] + between), again) != Some((id, step))
  {
    hide Tracks, Consume, NextWindows, Apply;
    var next := After(c, ms, first);
    CallKeepsHeld(c, ms, ws, first);
    UsedWasFree(c, ms, ws, first);
    var left := NextWindows(c, ms, ws, first);
    var after := RunConsumesHistory(c, next, left, between, id, key);
    ConsumingKeepsUsed(left[id], History(c, next, between, id), step);
    if Used(c, Run(c, next, between), again) == Some((id, step)) {
      UsedWasFree(c, Run(c, next, between), after, again);
      assert false;
    }
  }

  // Delivery

  /**
   * A note as its sender makes it: under the chain's key for the step, the chain's seed stepped that
   * far from where it began, signed with the chain's signing key.
   */
  ghost predicate Honest(c: Suite, origin: Bytes32, id: U32, key: Public, step: U32, plain: Bytes, data: Bytes) {
    exists circleId: Bytes16, signer: Secret, nonce: Bytes64 ::
      HonestUnder(c, origin, id, key, step, plain, data, circleId, signer, nonce)
  }

  ghost predicate HonestUnder(c: Suite, origin: Bytes32, id: U32, key: Public, step: U32, plain: Bytes, data: Bytes,
                              circleId: Bytes16, signer: Secret, nonce: Bytes64)
  {
    var keys := c.circleKeys(c.chainSeed(SeedAfter(c, origin, step)));
    var made := MadeNote(c, CURRENT_VERSION, circleId, id, step, Cbc.Seal(c, keys.cipher, keys.iv, plain), signer, nonce);
    && Cipher.Sealable(plain)
    && c.publicOf(signer) == Some(key)
    && made.Ok? && made.value.bytes == data
  }

  /** What opening an honest note answers, from the window of its chain alone. */
  lemma HonestNoteAnswers(c: Suite, ms: seq<MemberState>, ws: map<U32, Window>, origin: Bytes32, id: U32, key: Public, step: U32, plain: Bytes, data: Bytes)
    requires Lawful(c) && Held(c, ms, ws) && Present(ms, id, key)
    requires Honest(c, origin, id, key, step, plain, data)
    requires id in ws && ws[id].seed == SeedAfter(c, origin, ws[id].base)
    ensures match Refusal(ws[id], step) {
              case Some(fault) => Replies(c, ms, OpenCall(data)) == Err(fault)
              case None => Replies(c, ms, OpenCall(data)) == Ok(plain)
            }
  {
    var circleId, signer, nonce :| HonestUnder(c, origin, id, key, step, plain, data, circleId, signer, nonce);
    var keys := c.circleKeys(c.chainSeed(SeedAfter(c, origin, step)));
    var body := Cbc.Seal(c, keys.cipher, keys.iv, plain);
    Cbc.RoundTrip(c, keys.cipher, keys.iv, plain);
    hide Cbc.Seal, Cbc.Open, Tracks, Refusal, Consume, Cipher.YieldFor, NoteContent;
    NoteRoundTrip(c, CURRENT_VERSION, circleId, id, step, body, signer, nonce);
    MadeNoteVerifies(c, CURRENT_VERSION, circleId, id, step, body, signer, nonce, key);
    MadeNoteParses(c, CURRENT_VERSION, circleId, id, step, body, signer, nonce);
    var i := IndexOf(ms, id).value;
    YieldForTracks(c, ms[i], ws[id], step);
    OriginKey(c, origin, ws[id], step);
  }

  lemma MadeNoteParses(c: Suite, v: Byte, circleId: Bytes16, id: U32, step: U32, body: Bytes, signer: Secret, nonce: Bytes64)
    requires MadeNote(c, v, circleId, id, step, body, signer, nonce).Ok?
    ensures var note := MadeNote(c, v, circleId, id, step, body, signer, nonce).value;
            NoteOf(note.bytes) == Ok(note)
  {
  }

  /** A step a window does not refuse has the key its sender used. */
  lemma OriginKey(c: Suite, origin: Bytes32, w: Window, step: U32)
    requires w.seed == SeedAfter(c, origin, w.base) && w.base <= w.floor <= w.next
    ensures Refusal(w, step).None? ==> KeyOf(c, w, step).seed == c.chainSeed(SeedAfter(c, origin, step))
  {
    if w.base <= step {
      SeedAfterAdds(c, origin, w.base, step - w.base);
    }
  }

  // Late joining, loss and reordering

  /** Never more than the bound of passed steps were waiting when the window moved ahead. */
  predicate NeverCrowded(w: Window, steps: seq<U32>)
    decreases |steps|
  {
    steps == [] ||
    (&& (steps[0] >= w.next ==> |Unopened(w.floor, steps[0], w.used)| <= 2_000)
     && NeverCrowded(Consume(w, steps[0]), steps[1..]))
  }

  lemma {:induction false} UncrowdedFloorStays(w: Window, steps: seq<U32>)
    requires NeverCrowded(w, steps)
    ensures ConsumeAll(w, steps).floor == w.floor
    decreases |steps|
  {
    if steps != [] {
      UncrowdedFloorStays(Consume(w, steps[0]), steps[1..]);
    }
  }

  /** One past the highest step used, or where the window already was. */
  function NextAfter(next: U32, steps: seq<U32>): U32
    decreases |steps|
  {
    if steps == [] then next
    else NextAfter(if steps[0] < next || steps[0] == LAST_STEP then next else steps[0] + 1, steps[1..])
  }

  lemma {:induction false} ConsumedWindow(w: Window, steps: seq<U32>, step: U32)
    requires LAST_STEP !in steps
    ensures var v := ConsumeAll(w, steps);
            && v.base == w.base && v.seed == w.seed
            && v.next == NextAfter(w.next, steps)
            && (step in v.used <==> step in w.used || step in steps)
    decreases |steps|
  {
    if steps != [] {
      ConsumedWindow(Consume(w, steps[0]), steps[1..], step);
    }
  }

  lemma {:induction false} HistoryAvoidsLast(c: Suite, ms: seq<MemberState>, ws: map<U32, Window>, calls: seq<Call>, id: U32)
    requires Held(c, ms, ws)
    ensures LAST_STEP !in History(c, ms, calls, id)
    decreases |calls|
  {
    hide Tracks, Consume, NextWindows, Apply;
    if calls != [] {
      if Used(c, ms, calls[0]).Some? {
        UsedWasFree(c, ms, ws, calls[0]);
      }
      CallKeepsHeld(c, ms, ws, calls[0]);
      HistoryAvoidsLast(c, After(c, ms, calls[0]), NextWindows(c, ms, ws, calls[0]), calls[1..], id);
    }
  }

  /** The first admission of a chain puts it in the circle with an empty window. */
  lemma FirstAdmission(c: Suite, ms: seq<MemberState>, ws: map<U32, Window>, announce: Bytes)
    returns (joined: map<U32, Window>)
    requires Held(c, ms, ws) && AnnounceOf(announce).Ok?
    requires var a := AnnounceOf(announce).value; !Present(ms, a.chainId, a.signing)
    ensures var a := AnnounceOf(announce).value;
            && Held(c, After(c, ms, AdmitCall(announce)), joined)
            && Present(After(c, ms, AdmitCall(announce)), a.chainId, a.signing)
            && a.chainId in joined && joined[a.chainId] == StartWindow(a.step, a.seed)
  {
    hide Tracks, Without, FirstUnder;
    var a := AnnounceOf(announce).value;
    CallKeepsHeld(c, ms, ws, AdmitCall(announce));
    joined := NextWindows(c, ms, ws, AdmitCall(announce));
    FirstUnderMatches(ms, a.chainId, a.signing);
  }

  /** With unique ids, a chain is present under a key exactly when some member has both. */
  lemma PresentIsFirstUnder(ms: seq<MemberState>, id: U32, key: Public)
    requires UniqueIds(ms)
    ensures Present(ms, id, key) <==> exists m :: m in ms && m.chainId == id && m.signing == key
    ensures Present(ms, id, key) <==> FirstUnder(ms, id, key).Some?
  {
  }

  /** The answer to a note for `step`, whose plaintext is `plain`, once `steps` were used from `start` on. */
  ghost predicate Verdict(start: Window, steps: seq<U32>, step: U32, plain: Bytes, reply: Result<Bytes, Fault>) {
    var next := NextAfter(start.next, steps);
    && (step < start.base || step in steps ==> reply == Err(Replay))
    && (step >= next && step - next > 25_000 ==> reply == Err(BadMessage))
    && (step >= next && step - next <= 25_000 && step == 0xFFFF_FFFF ==> reply == Err(Trap))
    && (step >= next && step - next <= 25_000 && step != 0xFFFF_FFFF ==> reply == Ok(plain))
    && (start.base <= step < next && step !in steps ==>
          if ConsumeAll(start, steps).floor <= step then reply == Ok(plain) else reply == Err(Replay))
    && (start.base <= step < next && step !in steps && NeverCrowded(start, steps) ==> reply == Ok(plain))
  }

  /**
   * For every run after a chain's first admission, in any order and with any losses, duplicates,
   * forged notes, other chains and reloads, as long as the member stays: an honest note from before
   * the announced step or already used is a replay; any other opens to exactly its plaintext, if it
   * is not too far ahead and, when passed, not below the floor; the floor never moves while passed
   * unopened steps do not crowd the kept keys out.
   */
  lemma DeliveredNoteOpens(c: Suite, ms: seq<MemberState>, ws: map<U32, Window>, announce: Bytes, origin: Bytes32, calls: seq<Call>, step: U32, plain: Bytes, data: Bytes)
    requires Lawful(c) && Held(c, ms, ws) && AnnounceOf(announce).Ok?
    requires var a := AnnounceOf(announce).value;
             && !Present(ms, a.chainId, a.signing)
             && a.seed == SeedAfter(c, origin, a.step)
             && PresentThroughout(c, After(c, ms, AdmitCall(announce)), calls, a.chainId, a.signing)
             && Honest(c, origin, a.chainId, a.signing, step, plain, data)
    ensures var a := AnnounceOf(announce).value;
            var joined := After(c, ms, AdmitCall(announce));
            var steps := History(c, joined, calls, a.chainId);
            Verdict(StartWindow(a.step, a.seed), steps, step, plain, Replies(c, Run(c, joined, calls), OpenCall(data)))
  {
    hide Tracks, Consume, ConsumeAll, NeverCrowded, Apply, History, Honest, SeedAfter;
    var a := AnnounceOf(announce).value;
    var joined := FirstAdmission(c, ms, ws, announce);
    var start, now := StartWindow(a.step, a.seed), After(c, ms, AdmitCall(announce));
    var steps := History(c, now, calls, a.chainId);
    var after := RunConsumesHistory(c, now, joined, calls, a.chainId, a.signing);
    HistoryAvoidsLast(c, now, joined, calls, a.chainId);
    ConsumedWindow(start, steps, step);
    HonestNoteAnswers(c, Run(c, now, calls), after, origin, a.chainId, a.signing, step, plain, data);
    UsedIsBehind(c, Run(c, now, calls), after, a.chainId);
    if NeverCrowded(start, steps) {
      UncrowdedFloorStays(start, steps);
    }
  }

  /** The step is at or after the announced one, not too far ahead of it, and not the last one there is. */
  predicate InReach(announced: U32, step: U32) {
    announced <= step <= announced + 25_000 && step != 0xFFFF_FFFF
  }

  /**
   * Presence is what guards a used step. Where a chain's announcement is admitted again, and the step is
   * used if the member is still there, an honest note for the step opens if and only if the member was
   * gone and the step is in reach of the announcement. What makes a member go that used the step is in
   * `Presence.ReopensIffNotKept`.
   */
  lemma ReopensOnlyWhenForgotten(c: Suite, ms: seq<MemberState>, ws: map<U32, Window>, announce: Bytes, origin: Bytes32, step: U32, plain: Bytes, data: Bytes)
    requires Lawful(c) && Held(c, ms, ws) && AnnounceOf(announce).Ok?
    requires var a := AnnounceOf(announce).value;
             && a.seed == SeedAfter(c, origin, a.step)
             && Honest(c, origin, a.chainId, a.signing, step, plain, data)
             && (Present(ms, a.chainId, a.signing) ==> a.chainId in ws && step in ws[a.chainId].used)
    ensures var a := AnnounceOf(announce).value;
            Used(c, After(c, ms, AdmitCall(announce)), OpenCall(data)) == Some((a.chainId, step)) <==>
            !Present(ms, a.chainId, a.signing) && InReach(a.step, step)
  {
    hide Tracks, Consume, SeedAfter;
    var a := AnnounceOf(announce).value;
    var now := After(c, ms, AdmitCall(announce));
    if Present(ms, a.chainId, a.signing) {
      CallKeepsHeld(c, ms, ws, AdmitCall(announce));
      PresentIsFirstUnder(ms, a.chainId, a.signing);
      if Used(c, now, OpenCall(data)) == Some((a.chainId, step)) {
        UsedWasFree(c, now, NextWindows(c, ms, ws, AdmitCall(announce)), OpenCall(data));
      }
    } else {
      var joined := FirstAdmission(c, ms, ws, announce);
      HonestNoteAnswers(c, now, joined, origin, a.chainId, a.signing, step, plain, data);
      HonestNoteNames(c, origin, a.chainId, a.signing, step, plain, data);
    }
  }

  lemma HonestNoteNames(c: Suite, origin: Bytes32, id: U32, key: Public, step: U32, plain: Bytes, data: Bytes)
    requires Honest(c, origin, id, key, step, plain, data)
    ensures NoteOf(data).Ok? && NoteOf(data).value.chainId == id && NoteOf(data).value.step == step
  {
    var circleId, signer, nonce :| HonestUnder(c, origin, id, key, step, plain, data, circleId, signer, nonce);
    var keys := c.circleKeys(c.chainSeed(SeedAfter(c, origin, step)));
    var body := Cbc.Seal(c, keys.cipher, keys.iv, plain);
    NoteRoundTrip(c, CURRENT_VERSION, circleId, id, step, body, signer, nonce);
  }
}
