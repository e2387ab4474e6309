/** Delivery between two hosts: what one encrypts the other decrypts, whispers in any number and first messages in any interleaving. */
module SessionDelivery {
  import opened Basics
  import opened Names
  import opened Trust
  import TrustRuns

  // Whispers

  /** What a host encrypts to an address it has a sealing session for, the paired host decrypts to the plaintext. */
  lemma WhisperArrives(core: Core, paired: Pairing, ours: World, at: Address, theirs: World, from: Address, plain: Bytes, e: Bytes, f: Bytes)
    requires NamesIdentities(core) && Delivers(core, paired) && Pinned(core, ours) && Pinned(core, theirs)
    requires Load(ours, at) != [] && paired(Load(ours, at), Load(theirs, from)) && core.seal(Load(ours, at), plain, e).Ok?
    ensures var sent := Next(core, ours, Encrypt(at, plain, e));
            && sent.answer == Gives(core.seal(Load(ours, at), plain, e).value.sealed)
            && var got := Next(core, theirs, Whisper(from, sent.answer.data, f));
               && got.answer == Gives(plain)
               && paired(Load(sent.world, at), Load(got.world, from)) && paired(Load(got.world, from), Load(sent.world, at))
               && Load(sent.world, at) != []
  {
    hide KeyOf, Delivers, NamesIdentities;
    EncryptGives(core, ours, at, plain, e);
    OpensToPlain(core, paired, Load(ours, at), Load(theirs, from), plain, e, f);
    WhisperGives(core, theirs, from, core.seal(Load(ours, at), plain, e).value.sealed, f);
  }

  lemma OpensToPlain(core: Core, paired: Pairing, ours: Bytes, theirs: Bytes, plain: Bytes, e: Bytes, f: Bytes)
    requires NamesIdentities(core) && Delivers(core, paired) && paired(ours, theirs) && core.seal(ours, plain, e).Ok?
    ensures Arrives(core, paired, core.seal(ours, plain, e).value, core.open(theirs, core.seal(ours, plain, e).value.sealed, f), theirs, plain)
    ensures theirs != [] && core.remote(core.open(theirs, core.seal(ours, plain, e).value.sealed, f).value.record).Some?
    ensures core.seal(ours, plain, e).value.record != []
  {
  }

  /** A sealing session always gives what it sealed: its identity is the pinned one already. */
  lemma EncryptGives(core: Core, w: World, at: Address, plain: Bytes, e: Bytes)
    requires NamesIdentities(core) && Pinned(core, w)
    requires Load(w, at) != [] && core.seal(Load(w, at), plain, e).Ok?
    ensures var done := core.seal(Load(w, at), plain, e).value;
            Next(core, w, Encrypt(at, plain, e)) == Outcome(w.(sessions := w.sessions[KeyOf(at) := done.record]), Gives(done.sealed))
  {
    hide KeyOf;
  }

  /** A whisper that opens under the identity its session named is committed and given. */
  lemma WhisperGives(core: Core, w: World, at: Address, message: Bytes, f: Bytes)
    requires Pinned(core, w) && Load(w, at) != [] && core.open(Load(w, at), message, f).Ok?
    requires var done := core.open(Load(w, at), message, f).value;
             core.remote(done.record) == core.remote(Load(w, at)) && core.remote(done.record).Some?
    ensures var done, got := core.open(Load(w, at), message, f).value, Next(core, w, Whisper(at, message, f));
            got.answer == Gives(done.plain) && Load(got.world, at) == done.record
  {
    hide KeyOf;
  }

  // Conversations

  /** One message of a conversation: what else each host does before it, which of the two speaks, and its randomness. */
  datatype Turn = Turn(ours: seq<Event>, theirs: seq<Event>, weSpeak: bool, plain: Bytes, e: Bytes, f: Bytes)

  /** Two hosts after a turn, and what the listener got of it, or why nothing was sent. */
  datatype Exchange = Exchange(ours: World, theirs: World, got: Answer)

  /** The speaker encrypts and, if that gives something, the listener decrypts it. */
  function Said(core: Core, speaker: World, at: Address, listener: World, from: Address, t: Turn): (World, World, Answer) {
    var sent := Next(core, speaker, Encrypt(at, t.plain, t.e));
    match sent.answer
    case Gives(data) =>
      var got := Next(core, listener, Whisper(from, data, t.f));
      (sent.world, got.world, got.answer)
    case _ => (sent.world, listener, sent.answer)
  }

  function Exchanged(core: Core, ours: World, at: Address, theirs: World, from: Address, t: Turn): Exchange {
    var a, b := Play(core, ours, t.ours), Play(core, theirs, t.theirs);
    if t.weSpeak then
      var (left, right, got) := Said(core, a, at, b, from, t);
      Exchange(left, right, got)
    else
      var (right, left, got) := Said(core, b, from, a, at, t);
      Exchange(left, right, got)
  }

  /** What the listeners of a conversation got, in order. */
  function Heard(core: Core, ours: World, at: Address, theirs: World, from: Address, turns: seq<Turn>): (heard: seq<Answer>)
    ensures |heard| == |turns|
    decreases |turns|
  {
    if turns == [] then []
    else
      var x := Exchanged(core, ours, at, theirs, from, turns[0]);
      [x.got] + Heard(core, x.ours, at, x.theirs, from, turns[1..])
  }

  /** Whatever else the hosts do, they leave this conversation's two sessions alone. */
  predicate Undisturbed(core: Core, ours: World, at: Address, theirs: World, from: Address, turns: seq<Turn>)
    decreases |turns|
  {
    turns == [] ||
    (&& !TrustRuns.WritesIn(core, ours, turns[0].ours, KeyOf(at))
     && !TrustRuns.WritesIn(core, theirs, turns[0].theirs, KeyOf(from))
     && var x := Exchanged(core, ours, at, theirs, from, turns[0]);
        Undisturbed(core, x.ours, at, x.theirs, from, turns[1..]))
  }

  /** Both hosts keep sessions under their pins, and each opens what the other seals next. */
  ghost predicate Talking(core: Core, paired: Pairing, ours: World, at: Address, theirs: World, from: Address) {
    && Pinned(core, ours) && Pinned(core, theirs)
    && paired(Load(ours, at), Load(theirs, from)) && paired(Load(theirs, from), Load(ours, at))
  }

  lemma {:induction false} QuietKeeps(core: Core, w: World, events: seq<Event>, at: Address)
    requires NamesIdentities(core) && Pinned(core, w) && !TrustRuns.WritesIn(core, w, events, KeyOf(at))
    ensures Pinned(core, Play(core, w, events)) && Load(Play(core, w, events), at) == Load(w, at)
    decreases |events|
  {
    hide KeyOf, NamesIdentities, Pinned, Next, TrustRuns.Writes;
    if events != [] {
      SegmentKeepsPins(core, w, events[0]);
      TrustRuns.OnlyWritesChange(core, w, events[0], KeyOf(at));
      QuietKeeps(core, Next(core, w, events[0]).world, events[1..], at);
    }
  }

  /** One message, either way: it is heard as it was said, or could not be said, and the two go on talking. */
  lemma SaidIsHeard(core: Core, paired: Pairing, speaker: World, at: Address, listener: World, from: Address, t: Turn)
    requires NamesIdentities(core) && Delivers(core, paired) && Talking(core, paired, speaker, at, listener, from)
    ensures var (left, right, got) := Said(core, speaker, at, listener, from, t);
            && Talking(core, paired, left, at, right, from)
            && match core.seal(Load(speaker, at), t.plain, t.e) {
                 case Ok(_) => got == Gives(t.plain)
                 case Err(fault) => got == Throws(fault)
               }
  {
    hide KeyOf, NamesIdentities, Pinned;
    NeitherIsEmpty(core, paired, Load(speaker, at), Load(listener, from));
    EncryptKeepsPins(core, speaker, at, t.plain, t.e);
    if core.seal(Load(speaker, at), t.plain, t.e).Ok? {
      WhisperArrives(core, paired, speaker, at, listener, from, t.plain, t.e, t.f);
      WhisperKeepsPins(core, listener, from, core.seal(Load(speaker, at), t.plain, t.e).value.sealed, t.f);
    }
  }

  lemma NeitherIsEmpty(core: Core, paired: Pairing, ours: Bytes, theirs: Bytes)
    requires Delivers(core, paired) && paired(ours, theirs) && paired(theirs, ours)
    ensures ours != [] && theirs != []
  {
  }

  /**
   * Any number of messages, in turn either way, with anything else going on at both hosts: each listener hears
   * exactly what was said, or the speaker's call threw and nothing was sent.
   */
  lemma {:induction false} ConversationIsHeard(core: Core, paired: Pairing, ours: World, at: Address, theirs: World, from: Address, turns: seq<Turn>)
    requires NamesIdentities(core) && Delivers(core, paired) && Talking(core, paired, ours, at, theirs, from)
    requires Undisturbed(core, ours, at, theirs, from, turns)
    ensures var heard := Heard(core, ours, at, theirs, from, turns);
            forall i :: 0 <= i < |turns| ==> heard[i] == Gives(turns[i].plain) || heard[i].Throws?
    decreases |turns|
  {
    hide KeyOf, NamesIdentities, Pinned, Delivers, Said;
    if turns != [] {
      var t := turns[0];
      var a, b := Play(core, ours, t.ours), Play(core, theirs, t.theirs);
      QuietKeeps(core, ours, t.ours, at);
      QuietKeeps(core, theirs, t.theirs, from);
      if t.weSpeak {
        SaidIsHeard(core, paired, a, at, b, from, t);
      } else {
        SaidIsHeard(core, paired, b, from, a, at, t);
      }
      var x := Exchanged(core, ours, at, theirs, from, t);
      ConversationIsHeard(core, paired, x.ours, at, x.theirs, from, turns[1..]);
    }
  }

  // First messages

  /** A first message on its way: whom it is from, the record it was opened on, what it names, and what it should come to. */
  datatype Course = Course(from: Address, existing: Bytes, message: Bytes, info: Opener, f: Bytes, keys: Prekeys, plain: Bytes)

  /** With the prekeys it names, the message opens to the plaintext, as a new session of the sender it names. */
  ghost predicate Sure(core: Core, k: Course) {
    var got := core.openFirst(k.existing, k.message, k.keys, k.f);
    && core.opener(k.message) == Ok(k.info)
    && got.Ok? && got.value.plain == k.plain && got.value.used && got.value.oneTimeId == k.info.oneTimeId
    && core.remote(got.value.record) == Some(k.info.identity)
    && (k.info.oneTimeId.None? ==> k.keys.oneTime == [])
    && (k.info.pqId.None? ==> k.keys.pq == [])
  }

  /** The host has the prekeys the message names; the one-time prekey may be gone. */
  predicate Stocked(w: World, info: Opener, keys: Prekeys) {
    && Find(w.signed, info.signedId) == Some(keys.signed)
    && (info.oneTimeId.Some? && info.oneTimeId.value in w.oneTime ==> w.oneTime[info.oneTimeId.value] == keys.oneTime)
    && (info.pqId.Some? ==> Find(w.pq, info.pqId.value) == Some(keys.pq))
  }

  predicate AtStage(w: World, stage: Stage, k: Course) {
    match stage
    case AwaitsSigned(found) => found == Some(k.keys.signed)
    case AwaitsOneTime(signed, found) =>
      signed == k.keys.signed && k.info.oneTimeId.Some? && (found == Some(k.keys.oneTime) || found == None)
    case AwaitsPq(signed, oneTime, found) =>
      signed == k.keys.signed && oneTime == k.keys.oneTime && k.info.pqId.Some? && found == Some(k.keys.pq)
    case AwaitsRemoval(plain, mark) =>
      plain == k.plain && mark == k.info.pqId && k.info.oneTimeId.Some? && k.info.oneTimeId.value !in w.oneTime
  }

  /** The call is under way with this message, and holds of the prekeys what it has asked for. */
  predicate OnCourse(w: World, call: nat, k: Course) {
    && Stocked(w, k.info, k.keys)
    && call in w.pending
    && var p := w.pending[call];
       && p == Pending(k.from, k.existing, k.message, k.info, k.f, p.stage)
       && AtStage(w, p.stage, k)
  }

  /** How many more segments a call has: one for each prekey still to ask for, one to open, one to remove a prekey. */
  function Segments(info: Opener, stage: Stage): nat {
    var removal, pq := if info.oneTimeId.Some? then 1 else 0, if info.pqId.Some? then 1 else 0;
    match stage
    case AwaitsSigned(_) => 1 + removal + pq + removal
    case AwaitsOneTime(_, _) => 1 + pq + removal
    case AwaitsPq(_, _, _) => 1 + removal
    case AwaitsRemoval(_, _) => 1
  }

  /** No segment adds a prekey or changes one. */
  predicate StockShrinks(w: World, left: World) {
    && left.signed == w.signed && left.pq == w.pq
    && (forall id :: id in left.oneTime ==> id in w.oneTime && left.oneTime[id] == w.oneTime[id])
  }

  lemma EventShrinksStock(core: Core, w: World, event: Event)
    ensures StockShrinks(w, Next(core, w, event).world)
  {
    hide Resumed, Next;
    if event.Resume? {
      TrustRuns.ResumeIsNext(core, w, event.call);
      ResumeShrinksStock(core, w, event.call);
    } else {
      QuietStock(core, w, event);
    }
  }

  lemma QuietStock(core: Core, w: World, event: Event)
    requires !event.Resume?
    ensures var left := Next(core, w, event).world; left.signed == w.signed && left.pq == w.pq && left.oneTime == w.oneTime
  {
    hide KeyOf, InfoRemote;
  }

  lemma ResumeShrinksStock(core: Core, w: World, call: nat)
    ensures StockShrinks(w, Resumed(core, w, call).world)
  {
    hide WithAll, StockShrinks, Find;
    SameStock(w);
    if call in w.pending {
      var p := w.pending[call];
      match p.stage {
        case AwaitsSigned(Some(signed)) =>
          AllShrinks(core, w, call, p, Prekeys(signed, [], []));
          SameStockParked(w, call, p);
        case AwaitsOneTime(signed, Some(oneTime)) =>
          AllShrinks(core, w, call, p, Prekeys(signed, oneTime, []));
          SameStockParked(w, call, p);
        case AwaitsPq(signed, oneTime, Some(pq)) => AllShrinks(core, w, call, p, Prekeys(signed, oneTime, pq));
        case _ => SameStockParked(w, call, p);
      }
    }
  }

  lemma SameStock(w: World)
    ensures StockShrinks(w, w)
  {
  }

  lemma SameStockParked(w: World, call: nat, p: Pending)
    ensures forall stage :: StockShrinks(w, Parked(w, call, p.(stage := stage)))
    ensures forall mark :: StockShrinks(w, Marked(Gone(w, call), mark))
    ensures StockShrinks(w, Gone(w, call))
  {
  }

  lemma AllShrinks(core: Core, w: World, call: nat, p: Pending, keys: Prekeys)
    ensures StockShrinks(w, WithAll(core, w, call, p, keys).world)
  {
    hide Commit, StockShrinks;
    var outcome := core.openFirst(p.existing, p.message, keys, p.entropy);
    SameStockParked(w, call, p);
    if outcome.Ok? {
      var done := outcome.value;
      var committed := Commit(core, w, p.at, done.record);
      if committed.Ok? {
        CommitKeepsStock(core, w, p.at, done.record);
        SameStockParked(committed.value, call, p);
        SameStockStill(w, committed.value, call, p, done, p.info.pqId);
      }
    }
  }

  lemma CommitKeepsStock(core: Core, w: World, at: Address, record: Bytes)
    requires Commit(core, w, at, record).Ok?
    ensures var left := Commit(core, w, at, record).value; left.signed == w.signed && left.pq == w.pq && left.oneTime == w.oneTime
  {
    hide KeyOf, InfoRemote;
  }

  lemma SameStockStill(w: World, left: World, call: nat, p: Pending, done: OpenedFirst, mark: Option<U32>)
    requires left.signed == w.signed && left.pq == w.pq && left.oneTime == w.oneTime
    ensures StockShrinks(w, Gone(left, call)) && StockShrinks(w, Marked(Gone(left, call), mark))
    ensures done.oneTimeId.Some? ==>
              StockShrinks(w, Parked(left.(oneTime := left.oneTime - {done.oneTimeId.value}), call, p.(stage := AwaitsRemoval(done.plain, mark))))
  {
  }

  /** What others do leaves the call on its course. */
  lemma OthersKeepCourse(core: Core, w: World, event: Event, call: nat, k: Course)
    requires OnCourse(w, call, k)
    requires (event.First? || event.Resume?) ==> event.call != call
    ensures OnCourse(Next(core, w, event).world, call, k)
    ensures Next(core, w, event).world.pending[call] == w.pending[call]
  {
    hide KeyOf, InfoRemote, Resumed, StockShrinks;
    var left := Next(core, w, event).world;
    EventShrinksStock(core, w, event);
    if event.Resume? {
      TrustRuns.ResumeTouches(core, w, event.call);
      assert call in (w.pending - {event.call}) && (w.pending - {event.call})[call] == (left.pending - {event.call})[call];
    }
    StaysOnCourse(w, left, call, k);
  }

  lemma StaysOnCourse(w: World, left: World, call: nat, k: Course)
    requires OnCourse(w, call, k) && StockShrinks(w, left) && call in left.pending && left.pending[call] == w.pending[call]
    ensures OnCourse(left, call, k)
  {
  }

  /** The call is over: the one-time prekey is gone, the post-quantum one is marked. */
  predicate Finished(w: World, call: nat, k: Course) {
    && call !in w.pending
    && (k.info.oneTimeId.Some? ==> k.info.oneTimeId.value !in w.oneTime)
    && (k.info.pqId.Some? ==> k.info.pqId.value in w.usedPq)
  }

  /** The one-time prekey was gone when the call asked for it. */
  predicate Missed(stage: Stage) {
    stage.AwaitsOneTime? && stage.found.None?
  }

  /** The last segment before the removal: opened, committed under the sender's identity, prekeys let go of. */
  lemma AllOnCourse(core: Core, w: World, call: nat, k: Course)
    requires Sure(core, k) && OnCourse(w, call, k)
    ensures var p, done := w.pending[call], core.openFirst(k.existing, k.message, k.keys, k.f).value;
            var o := WithAll(core, w, call, p, k.keys);
            if !IsTrusted(w, k.from, k.info.identity) then o.answer == Throws(UntrustedIdentity)
            else
              && Load(o.world, k.from) == done.record && KeyOf(k.from) in o.world.known && o.world.known[KeyOf(k.from)] == k.info.identity
              && if k.info.oneTimeId.None? then o.answer == Gives(k.plain) && Finished(o.world, call, k)
                 else
                   && o.answer == Waits && call in o.world.pending
                   && o.world.pending[call] == p.(stage := AwaitsRemoval(k.plain, k.info.pqId))
                   && k.info.oneTimeId.value !in o.world.oneTime
  {
    hide KeyOf, Find;
  }

  /** The prekeys a call on its course opens with are the ones it should. */
  lemma ReadyWithNamed(core: Core, w: World, call: nat, k: Course)
    requires Sure(core, k) && OnCourse(w, call, k) && TrustRuns.Ready(w.pending[call]).Some?
    ensures TrustRuns.Ready(w.pending[call]) == Some(k.keys)
    ensures Segments(k.info, w.pending[call].stage) == if k.info.oneTimeId.None? then 1 else 2
  {
  }

  /** A segment that does not open yet: it asks for the next prekey, or ends the call. */
  lemma AsksOn(core: Core, w: World, call: nat, k: Course)
    requires OnCourse(w, call, k) && TrustRuns.Ready(w.pending[call]).None? && (k.info.oneTimeId.None? ==> k.keys.oneTime == [])
    ensures var stage, o := w.pending[call].stage, Resumed(core, w, call);
            && (Missed(stage) ==> o == Outcome(Gone(w, call), Throws(BadKeyId)))
            && (stage.AwaitsRemoval? ==> o.answer == Gives(k.plain) && Finished(o.world, call, k))
            && (!Missed(stage) && !stage.AwaitsRemoval? ==>
                  && o.answer == Waits && OnCourse(o.world, call, k)
                  && !o.world.pending[call].stage.AwaitsRemoval?
                  && Segments(k.info, o.world.pending[call].stage) == Segments(k.info, stage) - 1
                  && (Missed(o.world.pending[call].stage) <==> stage.AwaitsSigned? && k.info.oneTimeId.Some? && k.info.oneTimeId.value !in w.oneTime))
            && o.world.sessions == w.sessions
  {
    hide WithAll, KeyOf;
  }

  /**
   * One segment of the call, whatever has happened since the last: it waits, one segment closer to its end, or
   * gives the plaintext as its last; it throws only when the one-time prekey was gone when asked for, or when
   * its address is by then pinned to another identity.
   */
  lemma ResumeOnCourse(core: Core, w: World, call: nat, k: Course)
    requires Sure(core, k) && OnCourse(w, call, k)
    ensures var p, o := w.pending[call], Next(core, w, Resume(call));
            if Missed(p.stage) then o.answer == Throws(BadKeyId)
            else if TrustRuns.Ready(p).Some? && !IsTrusted(w, k.from, k.info.identity) then o.answer == Throws(UntrustedIdentity)
            else if Segments(k.info, p.stage) == 1 then o.answer == Gives(k.plain) && Finished(o.world, call, k)
            else
              && o.answer == Waits && OnCourse(o.world, call, k)
              && Segments(k.info, o.world.pending[call].stage) == Segments(k.info, p.stage) - 1
    ensures var p, o := w.pending[call], Next(core, w, Resume(call));
            if TrustRuns.Ready(p).None? then
              && o.world.sessions == w.sessions
              && (o.answer.Gives? ==> p.stage.AwaitsRemoval?)
              && (o.answer.Waits? ==> call in o.world.pending && !o.world.pending[call].stage.AwaitsRemoval?)
            else o.answer.Throws? || Load(o.world, k.from) == core.openFirst(k.existing, k.message, k.keys, k.f).value.record
  {
    hide WithAll, Sure, KeyOf, Resumed, Finished, StockShrinks;
    var p := w.pending[call];
    TrustRuns.ResumeIsNext(core, w, call);
    if TrustRuns.Ready(p).None? {
      BlankUnnamed(core, k);
      AsksOn(core, w, call, k);
    } else {
      ReadyWithNamed(core, w, call, k);
      TrustRuns.ReadyOpens(core, w, call);
      AllOnCourse(core, w, call, k);
      ResumeShrinksStock(core, w, call);
      if k.info.oneTimeId.Some? && IsTrusted(w, k.from, k.info.identity) {
        RemovalOnCourse(w, Resumed(core, w, call).world, call, k);
      }
    }
  }

  lemma BlankUnnamed(core: Core, k: Course)
    requires Sure(core, k)
    ensures k.info.oneTimeId.None? ==> k.keys.oneTime == []
  {
  }

  lemma RemovalOnCourse(w: World, left: World, call: nat, k: Course)
    requires OnCourse(w, call, k) && StockShrinks(w, left) && k.info.oneTimeId.Some? && k.info.oneTimeId.value !in left.oneTime
    requires call in left.pending && left.pending[call] == w.pending[call].(stage := AwaitsRemoval(k.plain, k.info.pqId))
    ensures OnCourse(left, call, k)
  {
  }

  /** What the segments of a call answer over a run of events, up to the one that ends it. */
  function Answers(core: Core, w: World, events: seq<Event>, call: nat): seq<Answer>
    decreases |events|
  {
    if events == [] then []
    else
      var o := Next(core, w, events[0]);
      if events[0] != Resume(call) then Answers(core, o.world, events[1..], call)
      else [o.answer] + if o.answer.Waits? then Answers(core, o.world, events[1..], call) else []
  }

  /** The events begin no other call under this number. */
  predicate KeepNumber(events: seq<Event>, call: nat) {
    forall event :: event in events && event.First? ==> event.call != call
  }

  /** The one-time prekey is there when the call asks for it, and its address not pinned to another when it opens. */
  predicate Unhindered(core: Core, w: World, events: seq<Event>, call: nat, k: Course)
    decreases |events|
  {
    events == [] ||
    var o := Next(core, w, events[0]);
    if events[0] != Resume(call) || call !in w.pending then Unhindered(core, o.world, events[1..], call, k)
    else
      var p := w.pending[call];
      && (p.stage.AwaitsSigned? && k.info.oneTimeId.Some? ==> k.info.oneTimeId.value in w.oneTime)
      && (TrustRuns.Ready(p).Some? ==> IsTrusted(w, k.from, k.info.identity))
      && (o.answer.Waits? ==> Unhindered(core, o.world, events[1..], call, k))
  }

  lemma {:induction false} MissedThrows(core: Core, w: World, events: seq<Event>, call: nat, k: Course)
    requires Sure(core, k) && OnCourse(w, call, k) && Missed(w.pending[call].stage) && KeepNumber(events, call)
    ensures var a := Answers(core, w, events, call); a == [] || a == [Throws(BadKeyId)]
    decreases |events|
  {
    hide Sure, OnCourse, Next;
    if events != [] {
      assert events[0] in events;
      if events[0] == Resume(call) {
        ResumeOnCourse(core, w, call, k);
      } else {
        OthersKeepCourse(core, w, events[0], call, k);
        MissedThrows(core, Next(core, w, events[0]).world, events[1..], call, k);
      }
    }
  }

  /** What the answers of a call on its course can be, with `n` segments to go. */
  predicate Answered(a: seq<Answer>, n: nat, plain: Bytes, unhindered: bool) {
    && |a| <= n
    && (forall i :: 0 <= i < |a| - 1 ==> a[i] == Waits)
    && (a != [] ==>
          var last := a[|a| - 1];
          && last in {Waits, Gives(plain), Throws(BadKeyId), Throws(UntrustedIdentity)}
          && (|a| == n ==> last != Waits)
          && (last.Gives? ==> |a| == n)
          && (last != Waits ==> (last == Gives(plain) <==> unhindered)))
  }

  lemma {:induction false} CallAnswers(core: Core, w: World, events: seq<Event>, call: nat, k: Course)
    requires Sure(core, k) && OnCourse(w, call, k) && !Missed(w.pending[call].stage) && KeepNumber(events, call)
    ensures Answered(Answers(core, w, events, call), Segments(k.info, w.pending[call].stage), k.plain, Unhindered(core, w, events, call, k))
    decreases |events|
  {
    hide Sure, OnCourse, Next, Segments, Answered, Missed;
    IsPending(w, call, k);
    var p := w.pending[call];
    FirstAnswers(Segments(k.info, p.stage), k.plain);
    if events != [] {
      var o := Next(core, w, events[0]);
      assert events[0] in events;
      if events[0] == Resume(call) {
        ResumeOnCourse(core, w, call, k);
        assert [o.answer] + [] == [o.answer];
        if o.answer.Waits? {
          MissesWhenGone(core, w, call, k);
          if Missed(o.world.pending[call].stage) {
            MissedThrows(core, o.world, events[1..], call, k);
            assert [Waits] + [Throws(BadKeyId)] == [Waits, Throws(BadKeyId)];
          } else {
            CallAnswers(core, o.world, events[1..], call, k);
            IsPending(o.world, call, k);
            WaitsBefore(Answers(core, o.world, events[1..], call), Segments(k.info, o.world.pending[call].stage), k.plain,
                        Unhindered(core, o.world, events[1..], call, k));
          }
        }
      } else {
        OthersKeepCourse(core, w, events[0], call, k);
        CallAnswers(core, o.world, events[1..], call, k);
      }
    }
  }

  lemma IsPending(w: World, call: nat, k: Course)
    requires OnCourse(w, call, k)
    ensures call in w.pending && Segments(k.info, w.pending[call].stage) > 0
    ensures Segments(k.info, w.pending[call].stage) == 1 && w.pending[call].stage.AwaitsSigned? ==> k.info.oneTimeId.None?
  {
  }

  lemma FirstAnswers(n: nat, plain: Bytes)
    requires n > 0
    ensures forall u: bool :: Answered([], n, plain, u)
    ensures Answered([Throws(BadKeyId)], n, plain, false) && Answered([Throws(UntrustedIdentity)], n, plain, false)
    ensures n == 1 ==> Answered([Gives(plain)], n, plain, true)
    ensures n >= 3 ==> Answered([Waits], n, plain, false) && Answered([Waits, Throws(BadKeyId)], n, plain, false)
  {
  }

  lemma WaitsBefore(a: seq<Answer>, n: nat, plain: Bytes, unhindered: bool)
    requires Answered(a, n, plain, unhindered) && n > 0
    ensures Answered([Waits] + a, n + 1, plain, unhindered)
  {
  }

  /** A call misses the one-time prekey exactly when it asks for it after it is gone. */
  lemma MissesWhenGone(core: Core, w: World, call: nat, k: Course)
    requires Sure(core, k) && OnCourse(w, call, k) && !Missed(w.pending[call].stage) && Next(core, w, Resume(call)).answer.Waits?
    ensures call in Next(core, w, Resume(call)).world.pending
    ensures Missed(Next(core, w, Resume(call)).world.pending[call].stage) <==>
            w.pending[call].stage.AwaitsSigned? && k.info.oneTimeId.Some? && k.info.oneTimeId.value !in w.oneTime
    ensures Missed(Next(core, w, Resume(call)).world.pending[call].stage) ==> Segments(k.info, w.pending[call].stage) >= 3
  {
    hide WithAll, KeyOf, Sure, OnCourse, Finished, Resumed;
    TrustRuns.ResumeIsNext(core, w, call);
    IsPending(w, call, k);
    BlankUnnamed(core, k);
    if TrustRuns.Ready(w.pending[call]).None? {
      AsksOn(core, w, call, k);
      if Resumed(core, w, call).answer.Waits? {
        IsPending(Resumed(core, w, call).world, call, k);
      }
    } else {
      ReadyWithNamed(core, w, call, k);
      TrustRuns.ReadyOpens(core, w, call);
      AllOnCourse(core, w, call, k);
    }
  }

  /** What a first message comes to on a host's stored record, with these prekeys. */
  function CourseOf(core: Core, w: World, from: Address, message: Bytes, f: Bytes, keys: Prekeys, plain: Bytes): Course
    requires core.opener(message).Ok?
  {
    Course(from, Load(w, from), message, core.opener(message).value, f, keys, plain)
  }

  /** The host has all the prekeys that are named, and there are none but those. */
  predicate Provides(w: World, info: Opener, keys: Prekeys) {
    && Find(w.signed, info.signedId) == Some(keys.signed)
    && (match info.oneTimeId case None => keys.oneTime == [] case Some(id) => Find(w.oneTime, id) == Some(keys.oneTime))
    && (match info.pqId case None => keys.pq == [] case Some(id) => Find(w.pq, id) == Some(keys.pq))
  }

  lemma GreetingIsSure(core: Core, paired: Pairing, greets: Greeting, ours: Bytes, w: World, from: Address, keys: Prekeys, plain: Bytes, e: Bytes, f: Bytes)
    requires DeliversFirst(core, paired, greets) && greets(ours, Load(w, from), keys) && core.seal(ours, plain, e).Ok?
    requires var sealed := core.seal(ours, plain, e).value.sealed;
             core.opener(sealed).Ok? ==> Provides(w, core.opener(sealed).value, keys)
    ensures var sent := core.seal(ours, plain, e).value;
            && core.opener(sent.sealed).Ok?
            && Sure(core, CourseOf(core, w, from, sent.sealed, f, keys, plain))
            && ArrivesFirst(core, paired, sent, core.openFirst(Load(w, from), sent.sealed, keys, f), plain)
  {
    hide KeyOf, Load;
    assert ArrivesFirst(core, paired, core.seal(ours, plain, e).value,
                        core.openFirst(Load(w, from), core.seal(ours, plain, e).value.sealed, keys, f), plain);
  }

  /** The first segment asks for the signed prekey, or refuses the message of a sender pinned to another identity. */
  lemma BeginsOnCourse(core: Core, w: World, call: nat, from: Address, message: Bytes, f: Bytes, keys: Prekeys, plain: Bytes)
    requires core.opener(message).Ok? && Provides(w, core.opener(message).value, keys)
    ensures var info, o := core.opener(message).value, Next(core, w, First(call, from, message, f));
            if !IsTrusted(w, from, info.identity) then o == Outcome(w, Throws(UntrustedIdentity))
            else
              && o.answer == Waits && OnCourse(o.world, call, CourseOf(core, w, from, message, f, keys, plain))
              && o.world.pending[call].stage.AwaitsSigned?
              && o.world.sessions == w.sessions
  {
    hide KeyOf;
  }

  /**
   * A first message between two hosts. The receiver, who has the prekeys it names, waits for each of them in
   * turn, opens it, and waits once more for a one-time prekey to be removed; over any interleaving with other
   * calls every segment but the last waits, and the last gives the plaintext if and only if the one-time prekey
   * was there when asked for and no other identity was pinned by the time it was opened.
   */
  lemma FirstMessageArrives(core: Core, paired: Pairing, greets: Greeting, ours: World, at: Address, theirs: World, from: Address,
                            call: nat, keys: Prekeys, plain: Bytes, e: Bytes, f: Bytes, events: seq<Event>)
    requires NamesIdentities(core) && DeliversFirst(core, paired, greets) && Pinned(core, ours)
    requires Load(ours, at) != [] && greets(Load(ours, at), Load(theirs, from), keys) && core.seal(Load(ours, at), plain, e).Ok?
    requires var opener := core.opener(core.seal(Load(ours, at), plain, e).value.sealed);
             opener.Ok? ==> Provides(theirs, opener.value, keys) && IsTrusted(theirs, from, opener.value.identity)
    requires KeepNumber(events, call)
    ensures var sent := Next(core, ours, Encrypt(at, plain, e));
            && sent.answer == Gives(core.seal(Load(ours, at), plain, e).value.sealed)
            && core.opener(sent.answer.data).Ok?
            && var info, begun := core.opener(sent.answer.data).value, Next(core, theirs, First(call, from, sent.answer.data, f));
               var n := 1 + (if info.oneTimeId.Some? then 2 else 0) + (if info.pqId.Some? then 1 else 0);
               && begun.answer == Waits
               && Answered(Answers(core, begun.world, events, call), n, plain,
                           Unhindered(core, begun.world, events, call, CourseOf(core, theirs, from, sent.answer.data, f, keys, plain)))
  {
    hide KeyOf, NamesIdentities, DeliversFirst, Pinned, Provides, IsTrusted, Next, Answered, Unhindered, Answers, OnCourse, Sure, ArrivesFirst, Load;
    var message := core.seal(Load(ours, at), plain, e).value.sealed;
    EncryptGives(core, ours, at, plain, e);
    GreetingIsSure(core, paired, greets, Load(ours, at), theirs, from, keys, plain, e, f);
    BeginsOnCourse(core, theirs, call, from, message, f, keys, plain);
    var k := CourseOf(core, theirs, from, message, f, keys, plain);
    var begun := Next(core, theirs, First(call, from, message, f)).world;
    IsPending(begun, call, k);
    CallAnswers(core, begun, events, call, k);
  }

  // The session that is left

  /** No other event writes the session under this key. */
  predicate OthersQuiet(core: Core, w: World, events: seq<Event>, call: nat, key: string)
    decreases |events|
  {
    events == [] ||
    (&& (events[0] != Resume(call) ==> !TrustRuns.Writes(core, w, events[0], key))
     && OthersQuiet(core, Next(core, w, events[0]).world, events[1..], call, key))
  }

  lemma {:induction false} OverStays(core: Core, w: World, events: seq<Event>, call: nat, at: Address)
    requires call !in w.pending && KeepNumber(events, call) && OthersQuiet(core, w, events, call, KeyOf(at))
    ensures Load(Play(core, w, events), at) == Load(w, at) && call !in Play(core, w, events).pending
    decreases |events|
  {
    hide KeyOf, Next, TrustRuns.Writes;
    if events != [] {
      var left := Next(core, w, events[0]).world;
      assert events[0] in events;
      OverStaysOnce(core, w, events[0], call, KeyOf(at));
      OverStays(core, left, events[1..], call, at);
    }
  }

  lemma OverStaysOnce(core: Core, w: World, event: Event, call: nat, key: string)
    requires call !in w.pending && (event.First? ==> event.call != call)
    requires event != Resume(call) ==> !TrustRuns.Writes(core, w, event, key)
    ensures var left := Next(core, w, event).world; call !in left.pending && TrustRuns.RecordAt(left, key) == TrustRuns.RecordAt(w, key)
  {
    hide KeyOf, Next, TrustRuns.Writes, Resumed;
    TrustRuns.OnlyWritesChange(core, w, event, key);
    if event.Resume? {
      TrustRuns.ResumeIsNext(core, w, event.call);
      TrustRuns.ResumeTouches(core, w, event.call);
      if event.call == call {
        TrustRuns.NoOneResumes(core, w, call);
      } else {
        assert call !in w.pending - {event.call};
      }
    } else {
      TrustRuns.QuietSegment(core, w, event);
    }
  }

  /** A call that gave its plaintext left its session in place, unless another call wrote there. */
  lemma {:induction false} CallCommits(core: Core, w: World, events: seq<Event>, call: nat, k: Course)
    requires Sure(core, k) && OnCourse(w, call, k) && KeepNumber(events, call) && OthersQuiet(core, w, events, call, KeyOf(k.from))
    requires w.pending[call].stage.AwaitsRemoval? ==> Load(w, k.from) == core.openFirst(k.existing, k.message, k.keys, k.f).value.record
    ensures var a := Answers(core, w, events, call);
            a != [] && a[|a| - 1].Gives? ==>
              && Load(Play(core, w, events), k.from) == core.openFirst(k.existing, k.message, k.keys, k.f).value.record
              && call !in Play(core, w, events).pending
    decreases |events|
  {
    hide KeyOf, Next, TrustRuns.Writes, OnCourse;
    if events != [] {
      IsPending(w, call, k);
      var o := Next(core, w, events[0]);
      assert events[0] in events;
      if events[0] == Resume(call) {
        ResumeOnCourse(core, w, call, k);
        if o.answer.Waits? {
          CallCommits(core, o.world, events[1..], call, k);
        } else if o.answer.Gives? {
          OverStays(core, o.world, events[1..], call, k.from);
        }
      } else {
        OthersKeepCourse(core, w, events[0], call, k);
        TrustRuns.OnlyWritesChange(core, w, events[0], KeyOf(k.from));
        CallCommits(core, o.world, events[1..], call, k);
      }
    }
  }

  /** After a first message was given, and nothing else stored there, the reply to it is opened by its sender. */
  lemma FirstMessagePairs(core: Core, paired: Pairing, greets: Greeting, ours: World, at: Address, theirs: World, from: Address,
                          call: nat, keys: Prekeys, plain: Bytes, e: Bytes, f: Bytes, events: seq<Event>)
    requires NamesIdentities(core) && DeliversFirst(core, paired, greets) && Pinned(core, ours)
    requires Load(ours, at) != [] && greets(Load(ours, at), Load(theirs, from), keys) && core.seal(Load(ours, at), plain, e).Ok?
    requires var opener := core.opener(core.seal(Load(ours, at), plain, e).value.sealed);
             opener.Ok? ==> Provides(theirs, opener.value, keys) && IsTrusted(theirs, from, opener.value.identity)
    requires KeepNumber(events, call)
    requires var begun := Next(core, theirs, First(call, from, core.seal(Load(ours, at), plain, e).value.sealed, f)).world;
             && OthersQuiet(core, begun, events, call, KeyOf(from))
             && var a := Answers(core, begun, events, call);
                a != [] && a[|a| - 1].Gives?
    ensures var sent := Next(core, ours, Encrypt(at, plain, e));
            && sent.answer.Gives?
            && var begun := Next(core, theirs, First(call, from, sent.answer.data, f)).world;
               paired(Load(Play(core, begun, events), from), Load(sent.world, at))
  {
    hide NamesIdentities, DeliversFirst, Pinned, Provides, IsTrusted, Next, OthersQuiet, Answers, OnCourse, Sure;
    var message := core.seal(Load(ours, at), plain, e).value.sealed;
    EncryptGives(core, ours, at, plain, e);
    GreetingIsSure(core, paired, greets, Load(ours, at), theirs, from, keys, plain, e, f);
    BeginsOnCourse(core, theirs, call, from, message, f, keys, plain);
    CallCommits(core, Next(core, theirs, First(call, from, message, f)).world, events, call, CourseOf(core, theirs, from, message, f, keys, plain));
  }

  // A prekey that is gone

  /** The call names a one-time prekey that is gone, and has not read it. */
  predicate Doomed(w: World, call: nat, id: U32) {
    && id !in w.oneTime && call in w.pending && w.pending[call].info.oneTimeId == Some(id)
    && (w.pending[call].stage.AwaitsSigned? || Missed(w.pending[call].stage))
  }

  lemma ResumeDoomed(core: Core, w: World, call: nat, id: U32)
    requires Doomed(w, call, id)
    ensures var o := Next(core, w, Resume(call));
            || o.answer == Throws(BadKeyId)
            || (o.answer == Waits && w.pending[call].stage.AwaitsSigned? && Doomed(o.world, call, id) && !o.world.pending[call].stage.AwaitsSigned?)
  {
    hide WithOneTime;
  }

  lemma OthersKeepDoomed(core: Core, w: World, event: Event, call: nat, id: U32)
    requires Doomed(w, call, id) && ((event.First? || event.Resume?) ==> event.call != call)
    ensures Doomed(Next(core, w, event).world, call, id)
    ensures Next(core, w, event).world.pending[call].stage == w.pending[call].stage
  {
    hide KeyOf, InfoRemote, Resumed, Next;
    var left := Next(core, w, event).world;
    EventShrinksStock(core, w, event);
    if event.Resume? {
      TrustRuns.ResumeIsNext(core, w, event.call);
      TrustRuns.ResumeTouches(core, w, event.call);
      assert call in (w.pending - {event.call}) && (w.pending - {event.call})[call] == (left.pending - {event.call})[call];
    } else {
      TrustRuns.QuietSegment(core, w, event);
    }
  }

  lemma {:induction false} DoomedThrows(core: Core, w: World, events: seq<Event>, call: nat, id: U32)
    requires Doomed(w, call, id) && KeepNumber(events, call)
    ensures var a := Answers(core, w, events, call);
            && |a| <= (if w.pending[call].stage.AwaitsSigned? then 2 else 1)
            && (forall x :: x in a ==> x == Waits || x == Throws(BadKeyId))
            && (|a| == 2 ==> a[1] == Throws(BadKeyId))
            && (|a| == 1 && !w.pending[call].stage.AwaitsSigned? ==> a[0] == Throws(BadKeyId))
    decreases |events|
  {
    hide Doomed, Next;
    IsDoomed(w, call, id);
    if events != [] {
      var o := Next(core, w, events[0]);
      assert events[0] in events;
      if events[0] == Resume(call) {
        ResumeDoomed(core, w, call, id);
        if o.answer.Waits? {
          IsDoomed(o.world, call, id);
          DoomedThrows(core, o.world, events[1..], call, id);
        }
      } else {
        OthersKeepDoomed(core, w, events[0], call, id);
        DoomedThrows(core, o.world, events[1..], call, id);
      }
    }
  }

  lemma IsDoomed(w: World, call: nat, id: U32)
    ensures Doomed(w, call, id) ==> call in w.pending
  {
  }

  /**
   * A first message that names a one-time prekey already used never opens, though it may belong to the very
   * session that used it: a sender's second message before any reply names the same prekey. Over any
   * interleaving, its call waits at most once and then throws.
   */
  lemma UsedPrekeyNeverOpens(core: Core, w: World, call: nat, from: Address, message: Bytes, f: Bytes, id: U32, events: seq<Event>)
    requires core.opener(message).Ok? && core.opener(message).value.oneTimeId == Some(id) && id !in w.oneTime
    requires IsTrusted(w, from, core.opener(message).value.identity) && KeepNumber(events, call)
    ensures var begun := Next(core, w, First(call, from, message, f));
            && begun.answer == Waits
            && var a := Answers(core, begun.world, events, call);
               && |a| <= 2 && (forall x :: x in a ==> x == Waits || x == Throws(BadKeyId))
               && (|a| == 2 ==> a == [Waits, Throws(BadKeyId)])
  {
    hide KeyOf, Answers;
    var begun := Next(core, w, First(call, from, message, f)).world;
    DoomedThrows(core, begun, events, call, id);
    var a := Answers(core, begun, events, call);
    if |a| == 2 {
      WaitsFirst(core, begun, events, call);
    }
  }

  lemma {:induction false} WaitsFirst(core: Core, w: World, events: seq<Event>, call: nat)
    requires |Answers(core, w, events, call)| > 1
    ensures Answers(core, w, events, call)[0] == Waits
    decreases |events|
  {
    hide Next;
    if events[0] != Resume(call) {
      WaitsFirst(core, Next(core, w, events[0]).world, events[1..], call);
    }
  }

  // First contact

  /** Processing the bundle of an address nobody is pinned for starts a session, stores it and pins its identity. */
  lemma BundlePins(core: Core, w: World, at: Address, identity: Bytes33, bundle: Bytes)
    requires NamesIdentities(core) && KeyOf(at) !in w.known && core.start(Load(w, at), identity, bundle).Ok?
    ensures var o := Next(core, w, Bundle(at, identity, bundle));
            && o.answer == Gives([])
            && o.world.known == w.known[KeyOf(at) := identity]
            && Load(o.world, at) == core.start(Load(w, at), identity, bundle).value
            && core.remote(Load(o.world, at)) == Some(identity)
            && forall other :: other != identity ==>
                 Next(core, o.world, Bundle(at, other, bundle)) == Outcome(o.world, Throws(UntrustedIdentity))
  {
    hide KeyOf;
  }

  // Ends of a session

  /** There is a session at the address that can be shelved. */
  predicate Shelved(core: Core, w: World, at: Address) {
    Load(w, at) != [] && core.shelve(Load(w, at)).Ok?
  }

  /** Once a session is archived or removed nothing is encrypted to its address; a removed one opens nothing either. */
  lemma EndedIsSilent(core: Core, w: World, at: Address, plain: Bytes, e: Bytes, message: Bytes)
    requires NamesIdentities(core)
    ensures Shelved(core, w, at) ==>
              var archived := Next(core, w, Archive(at));
              archived.answer == Gives([]) && Next(core, archived.world, Encrypt(at, plain, e)).answer.Throws?
    ensures var removed := Next(core, w, Remove(at)).world;
            && Next(core, removed, Encrypt(at, plain, e)) == Outcome(removed, Throws(NoSession))
            && Next(core, removed, Whisper(at, message, e)) == Outcome(removed, Throws(NoSession))
            && removed.known == w.known
  {
    hide KeyOf;
  }
}
