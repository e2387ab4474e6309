/** The bounds of a circle in numbers, at the calls: how far ahead, how many kept keys, how many members, which key. */
module Limits {
  import opened Basics
  import opened Suites
  import opened Chains
  import opened Records
  import opened Posts
  import opened Windows
  import opened Calls
  import opened Runs
  import opened Admission
  import Cipher
  import Cbc
  import Sender
  import Presence

  // How far ahead

  /**
   * For every tracked member whose next step is n: an honest note at any step from n to n + 25000 opens to its
   * plaintext, all further ones are bad messages, and the last of all steps, when near enough, ends the process.
   */
  lemma AheadInNumbers(c: Suite, ms: seq<MemberState>, ws: map<U32, Window>, origin: Bytes32, id: U32, key: Public, step: U32, plain: Bytes, data: Bytes)
    requires Lawful(c) && Held(c, ms, ws) && Present(ms, id, key)
    requires Honest(c, origin, id, key, step, plain, data)
    requires id in ws && ws[id].seed == SeedAfter(c, origin, ws[id].base)
    ensures var n := ws[id].next;
            && (n <= step <= n + 25000 && step < 4294967295 ==> Replies(c, ms, OpenCall(data)) == Ok(plain))
            && (step >= n + 25001 ==> Replies(c, ms, OpenCall(data)) == Err(BadMessage))
            && (n <= step <= n + 25000 && step == 4294967295 ==> Replies(c, ms, OpenCall(data)) == Err(Trap))
  {
    hide Held, Honest, Present, Replies, SeedAfter;
    HonestNoteAnswers(c, ms, ws, origin, id, key, step, plain, data);
  }

  // How many kept keys

  /** Passing k steps of a fresh window leaves the newest two thousand of them open. */
  lemma PassingKeeps(start: U32, seed: Bytes32, k: nat)
    requires start + k < LAST_STEP
    ensures var w := Consume(StartWindow(start, seed), start + k);
            && w.base == start && w.seed == seed && w.next == start + k + 1 && w.used == {start + k}
            && w.floor == if k <= 2000 then start else start + k - 2000
  {
    UntouchedRange(start, start + k, {});
  }

  /** Opening an honest note that its window does not refuse keeps the member and consumes the step. */
  lemma OpeningConsumes(c: Suite, ms: seq<MemberState>, ws: map<U32, Window>, origin: Bytes32, id: U32, key: Public, step: U32, plain: Bytes, data: Bytes)
    returns (left: map<U32, Window>)
    requires Lawful(c) && Held(c, ms, ws) && Present(ms, id, key)
    requires Honest(c, origin, id, key, step, plain, data)
    requires id in ws && ws[id].seed == SeedAfter(c, origin, ws[id].base) && Refusal(ws[id], step).None?
    ensures Replies(c, ms, OpenCall(data)) == Ok(plain)
    ensures Held(c, After(c, ms, OpenCall(data)), left) && Present(After(c, ms, OpenCall(data)), id, key)
    ensures id in left && left[id] == Consume(ws[id], step)
  {
    hide Tracks, Honest, Present, SeedAfter, Refusal, Consume, NoteOf, Cipher.Open;
    HonestNoteAnswers(c, ms, ws, origin, id, key, step, plain, data);
    HonestNoteNames(c, origin, id, key, step, plain, data);
    CallKeepsHeld(c, ms, ws, OpenCall(data));
    Presence.CallKeepsPresence(c, ms, OpenCall(data), id, key);
    left := NextWindows(c, ms, ws, OpenCall(data));
  }

  /**
   * A chain joined at a step, its note k steps on opened first, then the one j steps on: it opens to its
   * plaintext if at most 2,000 lie from it to the opened one, and is a replay otherwise.
   */
  lemma PassedInNumbers(c: Suite, ms: seq<MemberState>, ws: map<U32, Window>, announce: Bytes, origin: Bytes32,
                        k: nat, first: Bytes, ahead: Bytes, j: nat, plain: Bytes, data: Bytes)
    requires Lawful(c) && Held(c, ms, ws) && AnnounceOf(announce).Ok? && j <= k <= 25000
    requires var a := AnnounceOf(announce).value;
             && !Present(ms, a.chainId, a.signing)
             && a.step + k < 4294967295
             && a.seed == SeedAfter(c, origin, a.step)
             && Honest(c, origin, a.chainId, a.signing, a.step + k, first, ahead)
             && Honest(c, origin, a.chainId, a.signing, a.step + j, plain, data)
    ensures var joined := After(c, ms, AdmitCall(announce));
            var left := After(c, joined, OpenCall(ahead));
            && Replies(c, joined, OpenCall(ahead)) == Ok(first)
            && (k - 2000 <= j < k ==> Replies(c, left, OpenCall(data)) == Ok(plain))
            && (j < k - 2000 || j == k ==> Replies(c, left, OpenCall(data)) == Err(Replay))
  {
    hide Tracks, Honest, Present, Replies, SeedAfter, Consume, AnnounceOf, After;
    var a := AnnounceOf(announce).value;
    var joined := FirstAdmission(c, ms, ws, announce);
    var now := After(c, ms, AdmitCall(announce));
    var left := OpeningConsumes(c, now, joined, origin, a.chainId, a.signing, a.step + k, first, ahead);
    PassingKeeps(a.step, a.seed, k);
    HonestNoteAnswers(c, After(c, now, OpenCall(ahead)), left, origin, a.chainId, a.signing, a.step + j, plain, data);
  }

  // How many members

  lemma {:induction false} ExceptAbsent(ids: seq<U32>, id: U32)
    requires id !in ids
    ensures Except(ids, id) == ids
  {
    if ids != [] {
      ExceptAbsent(ids[..|ids| - 1], id);
    }
  }

  /** A new chain goes in front of the four before it, or of all when they are fewer. */
  lemma NewcomerInFront(c: Suite, ms: seq<MemberState>, announce: Bytes)
    requires AnnounceOf(announce).Ok? && AnnounceOf(announce).value.chainId !in Ids(ms) && |ms| <= 5
    ensures Ids(After(c, ms, AdmitCall(announce))) ==
            [AnnounceOf(announce).value.chainId] + if |ms| < 5 then Ids(ms) else Ids(ms)[..4]
  {
    hide Ids, AnnounceOf, After, Except;
    IdsAfter(c, ms, AdmitCall(announce));
    ExceptAbsent(Ids(ms), AnnounceOf(announce).value.chainId);
  }

  function IdOf(announce: Bytes): U32
    requires AnnounceOf(announce).Ok?
  {
    AnnounceOf(announce).value.chainId
  }

  predicate DistinctChains(announces: seq<Bytes>) {
    && (forall i :: 0 <= i < |announces| ==> AnnounceOf(announces[i]).Ok?)
    && forall i, j :: 0 <= i < j < |announces| ==> IdOf(announces[i]) != IdOf(announces[j])
  }

  /** Up to five different chains admitted in turn are all held, the last in front. */
  lemma {:induction false} AdmittedInTurn(c: Suite, announces: seq<Bytes>, n: nat)
    requires n <= |announces| && n <= 5 && DistinctChains(announces)
    ensures var held := Ids(Run(c, [], Presence.Admissions(announces[..n])));
            |held| == n && forall i :: 0 <= i < n ==> held[i] == IdOf(announces[n - 1 - i])
  {
    hide Ids, AnnounceOf, After, Run;
    if n == 0 {
      NothingHeld(c);
    } else {
      AdmittedInTurn(c, announces, n - 1);
      var before := Run(c, [], Presence.Admissions(announces[..n - 1]));
      AdmissionsGrow(c, announces, n);
      NewcomerInFront(c, before, announces[n - 1]);
    }
  }

  lemma NothingHeld(c: Suite)
    ensures Ids(Run(c, [], Presence.Admissions([]))) == []
  {
  }

  lemma AdmissionsGrow(c: Suite, announces: seq<Bytes>, n: nat)
    requires 0 < n <= |announces|
    ensures Run(c, [], Presence.Admissions(announces[..n])) ==
            After(c, Run(c, [], Presence.Admissions(announces[..n - 1])), AdmitCall(announces[n - 1]))
  {
    assert announces[..n] == announces[..n - 1] + [announces[n - 1]];
    RunOneMore(c, [], announces[..n - 1], announces[n - 1]);
  }

  lemma {:induction false} RunOneMore(c: Suite, ms: seq<MemberState>, announces: seq<Bytes>, last: Bytes)
    ensures Run(c, ms, Presence.Admissions(announces + [last])) ==
            After(c, Run(c, ms, Presence.Admissions(announces)), AdmitCall(last))
    decreases |announces|
  {
    hide After;
    if announces == [] {
      assert Presence.Admissions([last])[1..] == [];
    } else {
      assert (announces + [last])[1..] == announces[1..] + [last];
      var now := After(c, ms, AdmitCall(announces[0]));
      RunOneMore(c, now, announces[1..], last);
      assert Presence.Admissions(announces)[1..] == Presence.Admissions(announces[1..]);
      assert Presence.Admissions(announces + [last])[1..] == Presence.Admissions(announces[1..] + [last]);
    }
  }

  /** Six different chains admitted one after another: the first five are all held, the sixth evicts the first. */
  lemma SixthEvictsFirst(c: Suite, announces: seq<Bytes>)
    requires |announces| == 6 && DistinctChains(announces)
    ensures var ids := (i: int) requires 0 <= i < 6 => IdOf(announces[i]);
            && Ids(Run(c, [], Presence.Admissions(announces[..5]))) == [ids(4), ids(3), ids(2), ids(1), ids(0)]
            && Ids(Run(c, [], Presence.Admissions(announces))) == [ids(5), ids(4), ids(3), ids(2), ids(1)]
  {
    hide Ids, AnnounceOf, After, Run;
    AdmittedInTurn(c, announces, 5);
    AdmissionsGrow(c, announces, 6);
    assert announces[..6] == announces;
    NewcomerInFront(c, Run(c, [], Presence.Admissions(announces[..5])), announces[5]);
  }

  // Which fault

  /** Every way an open is refused before its step is looked at, in this order; none of them changes the circle. */
  lemma OpenRefused(c: Suite, ms: seq<MemberState>, data: Bytes)
    ensures ms == [] ==> Replies(c, ms, OpenCall(data)) == Err(NoSession)
    ensures ms != [] && NoteOf(data).Err? ==> Replies(c, ms, OpenCall(data)) == Err(NoteOf(data).error)
    ensures ms != [] && NoteOf(data).Ok? ==>
              var note, reply := NoteOf(data).value, Replies(c, ms, OpenCall(data));
              match IndexOf(ms, note.chainId) {
                case None => reply == Err(NoSession)
                case Some(i) =>
                  && (note.version != ms[i].version ==> reply == Err(UnknownVersion))
                  && (note.version == ms[i].version && !note.SignedBy(c, ms[i].signing) ==> reply == Err(BadSignature))
              }
    ensures Replies(c, ms, OpenCall(data)).Err? ==> After(c, ms, OpenCall(data)) == ms
  {
    hide NoteOf, Cipher.YieldFor, Cbc.Open;
  }

  /** Every way a seal is refused: no chain, a chain that is not ours, a signer that cannot sign, no step left. */
  lemma SealRefused(c: Suite, ms: seq<MemberState>, circleId: Bytes16, plain: Bytes, nonce: Bytes64)
    requires Cipher.Sealable(plain)
    ensures var reply := Replies(c, ms, SealCall(circleId, plain, nonce));
            && (ms == [] ==> reply == Err(NoSession))
            && (ms != [] && ms[0].secret.None? ==> reply == Err(BadSession))
            && (ms != [] && ms[0].secret.Some? && ms[0].version == 3 ==>
              var keys := ms[0].link.YieldNow(c).Keys(c);
              var content := NoteContent(3, circleId, ms[0].chainId, ms[0].link.step, Cbc.Seal(c, keys.cipher, keys.iv, plain));
              match c.sign(ms[0].secret.value, content, nonce) {
                case None => reply == Err(BadKey)
                case Some(signature) =>
                  if ms[0].link.step == 4294967295 then reply == Err(Trap) else reply == Ok(content + signature)
              })
    ensures Replies(c, ms, SealCall(circleId, plain, nonce)).Err? ==> After(c, ms, SealCall(circleId, plain, nonce)) == ms
  {
    hide NoteContent, Cbc.Seal, NoteOf;
    if ms != [] && ms[0].secret.Some? && ms[0].version == 3 {
      var keys := ms[0].link.YieldNow(c).Keys(c);
      Sender.BodyFits(c, keys.cipher, keys.iv, plain);
      NoteRoundTrip(c, 3, circleId, ms[0].chainId, ms[0].link.step, Cbc.Seal(c, keys.cipher, keys.iv, plain), ms[0].secret.value, nonce);
    }
  }

  /** An admission answers nothing, unless its announcement cannot be read; a first announcement wants a usable secret. */
  lemma AdmitRefused(c: Suite, ms: seq<MemberState>, data: Bytes, circleId: Bytes16, e: Cipher.Entropy)
    ensures Replies(c, ms, AdmitCall(data)) == (match AnnounceOf(data) case Ok(_) => Ok([]) case Err(fault) => Err(fault))
    ensures AnnounceOf(data).Err? ==> After(c, ms, AdmitCall(data)) == ms
    ensures ms == [] && c.publicOf(e.secret).None? ==> Replies(c, ms, AnnounceCall(circleId, e)) == Err(BadKey)
  {
    hide AnnounceOf;
  }
}
