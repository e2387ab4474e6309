/** The four circle calls as a host sees them: a record in, an answer and a new record out, or a fault and no record. */
module Calls {
  import opened Basics
  import opened Suites
  import opened Chains
  import opened Records
  import opened Posts
  import opened Windows
  import Cipher

  datatype Call =
    | OpenCall(note: Bytes)
    | AdmitCall(announce: Bytes)
    | SealCall(circleId: Bytes16, plain: Bytes, nonce: Bytes64)
    | AnnounceCall(circleId: Bytes16, entropy: Cipher.Entropy)

  /** A call's answer with the circle it leaves, or its fault. */
  function Apply(c: Suite, ms: seq<MemberState>, call: Call): Result<(Bytes, seq<MemberState>), Fault> {
    match call
    case OpenCall(data) =>
      if ms == [] then Err(NoSession)
      else
        var note :- NoteOf(data);
        var o := Cipher.Open(c, ms, note);
        var plain :- o.answer;
        Ok((plain, o.members))
    case AdmitCall(data) =>
      var a :- AnnounceOf(data);
      Ok(([], Cipher.Admit(ms, a)))
    case SealCall(circleId, plain, nonce) =>
      var o := Cipher.Seal(c, ms, circleId, plain, nonce);
      var data :- o.answer;
      Ok((data, o.members))
    case AnnounceCall(circleId, entropy) =>
      var o := Cipher.AnnounceOwn(c, ms, circleId, entropy);
      var a :- o.answer;
      Ok((a.bytes, o.members))
  }

  /** What a call answers, or its fault. */
  function Replies(c: Suite, ms: seq<MemberState>, call: Call): Result<Bytes, Fault> {
    var (answer, _) :- Apply(c, ms, call);
    Ok(answer)
  }

  /** The circle a host keeps after a call: a failed call hands out no record. */
  function After(c: Suite, ms: seq<MemberState>, call: Call): seq<MemberState> {
    match Apply(c, ms, call)
    case Err(_) => ms
    case Ok((_, left)) => left
  }

  function Run(c: Suite, ms: seq<MemberState>, calls: seq<Call>): seq<MemberState>
    decreases |calls|
  {
    if calls == [] then ms else Run(c, After(c, ms, calls[0]), calls[1..])
  }

  /** The chain and step a successful open or seal used up. */
  function Used(c: Suite, ms: seq<MemberState>, call: Call): Option<(U32, U32)> {
    if Apply(c, ms, call).Err? then None
    else
      match call
      case OpenCall(data) => (
        match NoteOf(data)
        case Ok(note) => Some((note.chainId, note.step))
        case Err(_) => None)
      case SealCall(_, _, _) => if ms == [] then None else Some((ms[0].chainId, ms[0].link.step))
      case AdmitCall(_) => None
      case AnnounceCall(_, _) => None
  }

  // The invariant of every reachable circle

  ghost predicate UniqueIds(ms: seq<MemberState>) {
    forall i, j :: 0 <= i < j < |ms| ==> ms[i].chainId != ms[j].chainId
  }

  ghost predicate Held(c: Suite, ms: seq<MemberState>, ws: map<U32, Window>) {
    && UniqueIds(ms)
    && |ms| <= MAX_MEMBERS
    && forall m :: m in ms ==> m.chainId in ws && m.version == CURRENT_VERSION && Tracks(c, m, ws[m.chainId])
  }

  function Started(ms: seq<MemberState>, ws: map<U32, Window>, offered: MemberState): map<U32, Window> {
    if FirstUnder(ms, offered.chainId, offered.signing).Some? then ws
    else ws[offered.chainId := StartWindow(offered.link.step, offered.link.seed)]
  }

  /** The windows after a call: a used step is consumed, a chain that was not kept starts anew. */
  function NextWindows(c: Suite, ms: seq<MemberState>, ws: map<U32, Window>, call: Call): map<U32, Window> {
    if Apply(c, ms, call).Err? then ws
    else
      match call
      case AdmitCall(data) => (
        match AnnounceOf(data)
        case Ok(a) => Started(ms, ws, Cipher.FromAnnounce(a))
        case Err(_) => ws)
      case AnnounceCall(_, e) =>
        if ms != [] then ws
        else (
          match c.publicOf(e.secret)
          case Some(signing) => Started(ms, ws, Cipher.OwnChain(e, signing))
          case None => ws)
      case _ =>
        match Used(c, ms, call)
        case Some((id, step)) => if id in ws then ws[id := Consume(ws[id], step)] else ws
        case None => ws
  }

  lemma {:induction false} WithoutIsUnique(ms: seq<MemberState>, chainId: U32)
    requires UniqueIds(ms)
    ensures UniqueIds(Without(ms, chainId))
  {
    if ms != [] {
      WithoutIsUnique(ms[..|ms| - 1], chainId);
    }
  }

  lemma AdmittedStaysHeld(c: Suite, ms: seq<MemberState>, ws: map<U32, Window>, offered: MemberState)
    requires Held(c, ms, ws)
    requires offered.skipped == [] && offered.version == CURRENT_VERSION
    ensures Held(c, Admitted(ms, offered), Started(ms, ws, offered))
  {
    hide Tracks, Without, FirstUnder;
    FirstUnderMatches(ms, offered.chainId, offered.signing);
    WithoutIsUnique(ms, offered.chainId);
    FreshTracks(c, offered);
  }

  lemma ReplacedStaysHeld(c: Suite, ms: seq<MemberState>, ws: map<U32, Window>, i: nat, next: MemberState, step: U32)
    requires Held(c, ms, ws) && i < |ms|
    requires next.chainId == ms[i].chainId && next.version == ms[i].version
    requires Tracks(c, next, Consume(ws[ms[i].chainId], step))
    ensures Held(c, ms[i := next], ws[ms[i].chainId := Consume(ws[ms[i].chainId], step)])
  {
  }

  /** What an accepted note used: its member's window did not refuse the step, and moved past it. */
  lemma OpenConsumes(c: Suite, ms: seq<MemberState>, ws: map<U32, Window>, note: Note)
    requires Held(c, ms, ws) && |note.bytes| >= SIGNATURE_LENGTH
    requires Cipher.Open(c, ms, note).answer.Ok?
    ensures note.chainId in ws && Refusal(ws[note.chainId], note.step).None?
    ensures Held(c, Cipher.Open(c, ms, note).members, ws[note.chainId := Consume(ws[note.chainId], note.step)])
  {
    hide Tracks, Refusal, Consume, Cipher.YieldFor;
    var i := IndexOf(ms, note.chainId).value;
    YieldForTracks(c, ms[i], ws[note.chainId], note.step);
    YieldForKeepsIdentity(c, ms[i], note.step);
    ReplacedStaysHeld(c, ms, ws, i, Cipher.YieldFor(c, ms[i], note.step).0, note.step);
  }

  lemma YieldForKeepsIdentity(c: Suite, m: MemberState, step: U32)
    ensures var next := Cipher.YieldFor(c, m, step).0;
            next == m.(link := next.link, skipped := next.skipped)
  {
  }

  /** A seal uses the step at the front of the window. */
  lemma SealConsumes(c: Suite, ms: seq<MemberState>, ws: map<U32, Window>, circleId: Bytes16, plain: Bytes, nonce: Bytes64)
    requires Held(c, ms, ws)
    requires Cipher.Seal(c, ms, circleId, plain, nonce).answer.Ok?
    ensures ms != []
    ensures var id, step := ms[0].chainId, ms[0].link.step;
            && id in ws && step == ws[id].next && Refusal(ws[id], step).None?
            && Held(c, Cipher.Seal(c, ms, circleId, plain, nonce).members, ws[id := Consume(ws[id], step)])
  {
    var m := ms[0];
    var w := ws[m.chainId];
    SealTracks(c, m, w);
    hide Tracks, Consume;
    ReplacedStaysHeld(c, ms, ws, 0, m.(link := m.link.Advance(c)), m.link.step);
  }

  lemma SealTracks(c: Suite, m: MemberState, w: Window)
    requires Tracks(c, m, w) && m.link.step != LAST_STEP
    ensures m.link.step == w.next && Refusal(w, w.next).None?
    ensures Tracks(c, m.(link := m.link.Advance(c)), Consume(w, w.next))
  {
    YieldForTracks(c, m, w, w.next);
    Cipher.KeepsNone(c, m.skipped, m.link);
  }

  /** Every call keeps the invariant: ids unique, at most five members, each one tracked by its window. */
  lemma CallKeepsHeld(c: Suite, ms: seq<MemberState>, ws: map<U32, Window>, call: Call)
    requires Held(c, ms, ws)
    ensures Held(c, After(c, ms, call), NextWindows(c, ms, ws, call))
  {
    hide Tracks, Consume, StartWindow, Cipher.Seal, Cipher.Open, Admitted;
    if Apply(c, ms, call).Ok? {
      match call {
        case OpenCall(data) =>
          OpenConsumes(c, ms, ws, NoteOf(data).value);
        case AdmitCall(data) =>
          AdmittedStaysHeld(c, ms, ws, Cipher.FromAnnounce(AnnounceOf(data).value));
        case SealCall(circleId, plain, nonce) =>
          SealConsumes(c, ms, ws, circleId, plain, nonce);
        case AnnounceCall(circleId, e) =>
          if ms == [] {
            AdmittedStaysHeld(c, ms, ws, Cipher.OwnChain(e, c.publicOf(e.secret).value));
          }
      }
    }
  }

  /** A used step was not refused by its window, and is used from then on. */
  lemma UsedWasFree(c: Suite, ms: seq<MemberState>, ws: map<U32, Window>, call: Call)
    requires Held(c, ms, ws) && Used(c, ms, call).Some?
    ensures var (id, step) := Used(c, ms, call).value;
            && id in ws && Refusal(ws[id], step).None? && step !in ws[id].used
            && NextWindows(c, ms, ws, call) == ws[id := Consume(ws[id], step)]
            && step in Consume(ws[id], step).used
            && IndexOf(ms, id).Some?
  {
    hide Tracks, Cipher.Seal, Cipher.Open;
    var (id, step) := Used(c, ms, call).value;
    match call {
      case OpenCall(data) =>
        OpenConsumes(c, ms, ws, NoteOf(data).value);
        OpenFindsMember(c, ms, NoteOf(data).value);
      case SealCall(circleId, plain, nonce) =>
        SealConsumes(c, ms, ws, circleId, plain, nonce);
    }
    UsedIsBehind(c, ms, ws, id);
  }

  lemma OpenFindsMember(c: Suite, ms: seq<MemberState>, note: Note)
    requires |note.bytes| >= SIGNATURE_LENGTH && Cipher.Open(c, ms, note).answer.Ok?
    ensures IndexOf(ms, note.chainId).Some?
  {
  }

  lemma UsedIsBehind(c: Suite, ms: seq<MemberState>, ws: map<U32, Window>, id: U32)
    requires Held(c, ms, ws) && IndexOf(ms, id).Some?
    ensures id in ws && Sound(ws[id])
  {
  }
}
