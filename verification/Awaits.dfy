/** The host's other group calls: each awaits between loading the record and saving it. */
module Awaits {
  import opened Basics
  import opened Suites
  import opened Records
  import Calls
  import Cipher
  import Chains
  import Sender
  import opened Windows
  import Runs
  import Posts

  /** A call starts by loading the record; later it works on what it loaded and saves the outcome. */
  datatype Event = Load(caller: nat) | Finish(caller: nat, call: Calls.Call)

  datatype Reply = Reply(answer: Result<Bytes, Fault>, used: Option<(U32, U32)>)

  /** The stored circle, what each call under way has loaded, and what each finished call came to. */
  datatype Host = Host(stored: seq<MemberState>, loaded: map<nat, seq<MemberState>>, replies: map<nat, Reply>)

  function ReplyOn(c: Suite, ms: seq<MemberState>, call: Calls.Call): Reply {
    Reply(match Calls.Apply(c, ms, call) { case Ok(done) => Ok(done.0) case Err(e) => Err(e) }, Calls.Used(c, ms, call))
  }

  function Next(c: Suite, h: Host, event: Event): Host {
    match event
    case Load(i) => h.(loaded := h.loaded[i := h.stored])
    case Finish(i, call) =>
      if i !in h.loaded then h
      else
        var ms := h.loaded[i];
        Host(if Calls.Apply(c, ms, call).Ok? then Calls.After(c, ms, call) else h.stored,
             h.loaded - {i},
             h.replies[i := ReplyOn(c, ms, call)])
  }

  function Play(c: Suite, h: Host, events: seq<Event>): Host
    decreases |events|
  {
    if events == [] then h else Play(c, Next(c, h, events[0]), events[1..])
  }

  // Schedules

  /**
   * A schedule in which every call loads once before it finishes and finishes once: `waiting` have
   * loaded already, `gone` are over.
   */
  predicate Complete(events: seq<Event>, waiting: set<nat>, gone: set<nat>) {
    if events == [] then waiting == {}
    else
      match events[0]
      case Load(i) => i !in waiting && i !in gone && Complete(events[1..], waiting + {i}, gone)
      case Finish(i, _) => i in waiting && Complete(events[1..], waiting - {i}, gone + {i})
  }

  /** No call loads while another is under way. */
  predicate Alone(events: seq<Event>, waiting: set<nat>) {
    events == [] ||
    match events[0]
    case Load(i) => waiting == {} && Alone(events[1..], waiting + {i})
    case Finish(i, _) => Alone(events[1..], waiting - {i})
  }

  function CallsIn(events: seq<Event>): seq<Calls.Call> {
    if events == [] then []
    else (match events[0] case Load(_) => [] case Finish(_, call) => [call]) + CallsIn(events[1..])
  }

  /** The replies of the calls made one after another on the stored circle, by caller. */
  function RepliesIn(c: Suite, ms: seq<MemberState>, replies: map<nat, Reply>, events: seq<Event>): map<nat, Reply>
    decreases |events|
  {
    if events == [] then replies
    else
      match events[0]
      case Load(_) => RepliesIn(c, ms, replies, events[1..])
      case Finish(i, call) => RepliesIn(c, Calls.After(c, ms, call), replies[i := ReplyOn(c, ms, call)], events[1..])
  }

  /** Calls that never overlap leave the circle, and give the replies, that the calls one after another would. */
  lemma {:induction false} AloneIsSerial(c: Suite, h: Host, events: seq<Event>, waiting: set<nat>, gone: set<nat>)
    requires Complete(events, waiting, gone) && Alone(events, waiting) && h.loaded.Keys == waiting
    requires |waiting| <= 1 && forall i :: i in waiting ==> h.loaded[i] == h.stored
    ensures Play(c, h, events).stored == Calls.Run(c, h.stored, CallsIn(events))
    ensures Play(c, h, events).replies == RepliesIn(c, h.stored, h.replies, events)
    decreases |events|
  {
    hide ReplyOn, Next, Calls.After;
    if events != [] {
      var next := Next(c, h, events[0]);
      match events[0] {
        case Load(i) =>
          Loads(c, h, i);
          assert CallsIn(events) == CallsIn(events[1..]);
          AloneIsSerial(c, next, events[1..], waiting + {i}, gone);
        case Finish(i, call) =>
          OnlyOne(waiting, i);
          FinishesAlone(c, h, i, call);
          assert CallsIn(events)[0] == call && CallsIn(events)[1..] == CallsIn(events[1..]);
          AloneIsSerial(c, next, events[1..], waiting - {i}, gone + {i});
      }
    }
  }

  lemma Loads(c: Suite, h: Host, i: nat)
    ensures Next(c, h, Load(i)) == Host(h.stored, h.loaded[i := h.stored], h.replies)
  {
  }

  /** A call that loaded what is stored works on the stored circle; a failed one saves nothing. */
  lemma FinishesAlone(c: Suite, h: Host, i: nat, call: Calls.Call)
    requires i in h.loaded && h.loaded[i] == h.stored
    ensures Next(c, h, Finish(i, call)) ==
            Host(Calls.After(c, h.stored, call), h.loaded - {i}, h.replies[i := ReplyOn(c, h.stored, call)])
  {
    hide Calls.Apply, ReplyOn;
  }

  lemma OnlyOne(s: set<nat>, i: nat)
    requires |s| <= 1 && i in s
    ensures s == {i}
  {
    assert |s - {i}| == 0;
  }

  /** No two replies used the same step of a chain. */
  ghost predicate StepsApart(replies: map<nat, Reply>, id: U32) {
    forall i, j :: i in replies && j in replies && i != j && replies[i].used.Some? && replies[i].used.value.0 == id ==>
      replies[i].used != replies[j].used
  }

  /** Every step of the chain that a reply used is used in the chain's window. */
  ghost predicate Marked(replies: map<nat, Reply>, id: U32, w: Window) {
    forall i :: i in replies && replies[i].used.Some? && replies[i].used.value.0 == id ==> replies[i].used.value.1 in w.used
  }

  lemma {:induction false} SerialStepsApart(c: Suite, ms: seq<MemberState>, ws: map<U32, Window>, replies: map<nat, Reply>,
                                            events: seq<Event>, waiting: set<nat>, id: U32, key: Public)
    requires Complete(events, waiting, replies.Keys) && waiting !! replies.Keys
    requires Calls.Held(c, ms, ws) && Runs.PresentThroughout(c, ms, CallsIn(events), id, key)
    requires StepsApart(replies, id) && (id in ws ==> Marked(replies, id, ws[id]))
    ensures StepsApart(RepliesIn(c, ms, replies, events), id)
    decreases |events|
  {
    hide Calls.Apply, Calls.Used, Calls.Held, Calls.After, Calls.NextWindows, Runs.Present, Consume;
    if events != [] {
      match events[0] {
        case Load(i) =>
          assert CallsIn(events) == CallsIn(events[1..]);
          SerialStepsApart(c, ms, ws, replies, events[1..], waiting + {i}, id, key);
        case Finish(i, call) =>
          assert CallsIn(events)[0] == call && CallsIn(events)[1..] == CallsIn(events[1..]);
          Calls.CallKeepsHeld(c, ms, ws, call);
          Runs.CallMovesWindow(c, ms, ws, call, id, key);
          if Calls.Used(c, ms, call).Some? {
            Calls.UsedWasFree(c, ms, ws, call);
            ConsumingGrows(ws[id], Calls.Used(c, ms, call).value.1);
          }
          assert replies[i := ReplyOn(c, ms, call)].Keys == replies.Keys + {i};
          SerialStepsApart(c, Calls.After(c, ms, call), Calls.NextWindows(c, ms, ws, call),
                           replies[i := ReplyOn(c, ms, call)], events[1..], waiting - {i}, id, key);
      }
    }
  }

  lemma ConsumingGrows(w: Window, step: U32)
    ensures w.used <= Consume(w, step).used
  {
  }

  /**
   * Calls of any kind that never overlap: no two use the same step of a chain, to seal or to open, while
   * the circle keeps the chain.
   */
  lemma AloneUsesStepsOnce(c: Suite, ms: seq<MemberState>, ws: map<U32, Window>, events: seq<Event>, id: U32, key: Public)
    requires Complete(events, {}, {}) && Alone(events, {})
    requires Calls.Held(c, ms, ws) && Runs.PresentThroughout(c, ms, CallsIn(events), id, key)
    ensures StepsApart(Play(c, Host(ms, map[], map[]), events).replies, id)
  {
    hide Play, RepliesIn, Calls.Held, Runs.PresentThroughout;
    AloneIsSerial(c, Host(ms, map[], map[]), events, {}, {});
    SerialStepsApart(c, ms, ws, map[], events, {}, id, key);
  }

  // Steps used by overlapping seals

  /** A host of seals on one chain, by steps only: the stored step, the steps loaded, the steps of notes made. */
  datatype Count = Count(stored: nat, loaded: map<nat, nat>, used: map<nat, nat>)

  function Move(a: Count, event: Event): Count {
    match event
    case Load(i) => a.(loaded := a.loaded[i := a.stored])
    case Finish(i, _) =>
      if i !in a.loaded then a else Count(a.loaded[i] + 1, a.loaded - {i}, a.used[i := a.loaded[i]])
  }

  function PlayCount(a: Count, events: seq<Event>): Count
    decreases |events|
  {
    if events == [] then a else PlayCount(Move(a, events[0]), events[1..])
  }

  ghost predicate Distinct(used: map<nat, nat>) {
    forall i, j :: i in used && j in used && i != j ==> used[i] != used[j]
  }

  /** A call that is over keeps its step. */
  lemma {:induction false} UsedStays(a: Count, events: seq<Event>, waiting: set<nat>, gone: set<nat>, i: nat)
    requires Complete(events, waiting, gone) && waiting !! gone && a.loaded.Keys == waiting && i in gone && i in a.used
    ensures i in PlayCount(a, events).used && PlayCount(a, events).used[i] == a.used[i]
    decreases |events|
  {
    if events != [] {
      match events[0] {
        case Load(j) => UsedStays(Move(a, events[0]), events[1..], waiting + {j}, gone, i);
        case Finish(j, _) => UsedStays(Move(a, events[0]), events[1..], waiting - {j}, gone + {j}, i);
      }
    }
  }

  /** A call under way will use the step it loaded, whatever is saved meanwhile. */
  lemma {:induction false} UsesWhatItLoaded(a: Count, events: seq<Event>, waiting: set<nat>, gone: set<nat>, i: nat)
    requires Complete(events, waiting, gone) && waiting !! gone && a.loaded.Keys == waiting && i in waiting
    ensures i in PlayCount(a, events).used && PlayCount(a, events).used[i] == a.loaded[i]
    decreases |events|
  {
    match events[0] {
      case Load(j) => UsesWhatItLoaded(Move(a, events[0]), events[1..], waiting + {j}, gone, i);
      case Finish(j, _) =>
        if j == i {
          UsedStays(Move(a, events[0]), events[1..], waiting - {j}, gone + {j}, i);
        } else {
          UsesWhatItLoaded(Move(a, events[0]), events[1..], waiting - {j}, gone + {j}, i);
        }
    }
  }

  /** At most one call is under way, and it has loaded what is stored. */
  ghost predicate Calm(a: Count, waiting: set<nat>) {
    a.loaded.Keys == waiting && |waiting| <= 1 && forall i :: i in waiting ==> a.loaded[i] == a.stored
  }

  lemma {:induction false} AloneIsDistinct(a: Count, events: seq<Event>, waiting: set<nat>, gone: set<nat>)
    requires Complete(events, waiting, gone) && Alone(events, waiting) && Calm(a, waiting)
    requires Distinct(a.used) && forall i :: i in a.used ==> a.used[i] < a.stored
    ensures Distinct(PlayCount(a, events).used)
    decreases |events|
  {
    if events != [] {
      match events[0] {
        case Load(i) => AloneIsDistinct(Move(a, events[0]), events[1..], waiting + {i}, gone);
        case Finish(i, _) =>
          OnlyOne(waiting, i);
          AloneIsDistinct(Move(a, events[0]), events[1..], waiting - {i}, gone + {i});
      }
    }
  }

  lemma {:induction false} OverlapRepeats(a: Count, events: seq<Event>, waiting: set<nat>, gone: set<nat>)
    requires Complete(events, waiting, gone) && !Alone(events, waiting) && Calm(a, waiting) && waiting !! gone
    ensures !Distinct(PlayCount(a, events).used)
    decreases |events|
  {
    match events[0] {
      case Load(i) =>
        var next := Move(a, events[0]);
        if waiting == {} {
          OverlapRepeats(next, events[1..], waiting + {i}, gone);
        } else {
          var other :| other in waiting;
          UsesWhatItLoaded(next, events[1..], waiting + {i}, gone, i);
          UsesWhatItLoaded(next, events[1..], waiting + {i}, gone, other);
        }
      case Finish(i, _) =>
        OnlyOne(waiting, i);
        OverlapRepeats(Move(a, events[0]), events[1..], waiting - {i}, gone + {i});
    }
  }

  // From records to steps

  /** Every finish seals, with a text that can be sealed. */
  predicate Seals(events: seq<Event>) {
    forall event :: event in events && event.Finish? ==> event.call.SealCall? && Cipher.Sealable(event.call.plain)
  }

  ghost predicate CanSign(c: Suite, secret: Secret) {
    forall content: Bytes, nonce: Bytes64 :: c.sign(secret, content, nonce).Some?
  }

  ghost predicate Matches(c: Suite, e: Cipher.Entropy, key: Public, h: Host, a: Count, bound: nat) {
    && bound < U32_LIMIT && a.stored <= bound && h.stored == [Sender.ChainAt(c, e, key, a.stored)]
    && h.loaded.Keys == a.loaded.Keys && h.replies.Keys == a.used.Keys
    && (forall i :: i in a.loaded ==> a.loaded[i] <= bound && h.loaded[i] == [Sender.ChainAt(c, e, key, a.loaded[i])])
    && (forall i :: i in a.used ==> a.used[i] < U32_LIMIT && h.replies[i].used == Some((e.chainId, a.used[i])))
  }

  lemma SealMatches(c: Suite, e: Cipher.Entropy, key: Public, n: U32, call: Calls.Call)
    requires c.publicOf(e.secret) == Some(key) && CanSign(c, e.secret) && n < Chains.LAST_STEP
    requires call.SealCall? && Cipher.Sealable(call.plain)
    ensures var own := [Sender.ChainAt(c, e, key, n)];
            && Calls.Apply(c, own, call).Ok? && Calls.After(c, own, call) == [Sender.ChainAt(c, e, key, n + 1)]
            && Calls.Used(c, own, call) == Some((e.chainId, n))
  {
    Sender.SealMakesNote(c, e, key, n, call.circleId, call.plain, call.nonce);
  }

  lemma {:induction false} PlayMatches(c: Suite, e: Cipher.Entropy, key: Public, h: Host, a: Count, events: seq<Event>, bound: nat)
    requires c.publicOf(e.secret) == Some(key) && CanSign(c, e.secret) && Seals(events)
    requires bound + |events| < Chains.LAST_STEP && Matches(c, e, key, h, a, bound)
    ensures Matches(c, e, key, Play(c, h, events), PlayCount(a, events), bound + |events|)
    decreases |events|
  {
    hide Calls.Apply, Calls.Used, Calls.After, Sender.ChainAt, CanSign;
    if events != [] {
      assert events[0] in events;
      if events[0].Finish? && events[0].caller in a.loaded {
        SealMatches(c, e, key, a.loaded[events[0].caller], events[0].call);
      }
      PlayMatches(c, e, key, Next(c, h, events[0]), Move(a, events[0]), events[1..], bound + 1);
    }
  }

  /** No two calls sealed under the same step of the same chain. */
  ghost predicate NoStepShared(replies: map<nat, Reply>) {
    forall i, j :: i in replies && j in replies && i != j ==> replies[i].used.None? || replies[i].used != replies[j].used
  }

  /**
   * Any number of seals on one chain, interleaved in any way at their awaits: their notes have pairwise
   * distinct steps exactly when no call loads the record while another is still to save it.
   */
  lemma StepsDistinctIffAlone(c: Suite, e: Cipher.Entropy, key: Public, n: U32, events: seq<Event>)
    requires c.publicOf(e.secret) == Some(key) && CanSign(c, e.secret) && Seals(events)
    requires n + |events| < Chains.LAST_STEP && Complete(events, {}, {})
    ensures NoStepShared(Play(c, Host([Sender.ChainAt(c, e, key, n)], map[], map[]), events).replies) <==> Alone(events, {})
  {
    hide Sender.ChainAt, CanSign, Play, PlayCount;
    var h, a := Host([Sender.ChainAt(c, e, key, n)], map[], map[]), Count(n, map[], map[]);
    PlayMatches(c, e, key, h, a, events, n);
    if Alone(events, {}) {
      AloneIsDistinct(a, events, {}, {});
    } else {
      OverlapRepeats(a, events, {}, {});
    }
    var replies, used := Play(c, h, events).replies, PlayCount(a, events).used;
  }

  // Overlapping opens

  /** A call that is over keeps its reply. */
  lemma {:induction false} ReplyStays(c: Suite, h: Host, events: seq<Event>, waiting: set<nat>, gone: set<nat>, i: nat)
    requires Complete(events, waiting, gone) && waiting !! gone && i in gone && i in h.replies
    ensures i in Play(c, h, events).replies && Play(c, h, events).replies[i] == h.replies[i]
    decreases |events|
  {
    hide Calls.Apply, ReplyOn;
    if events != [] {
      match events[0] {
        case Load(j) => ReplyStays(c, Next(c, h, events[0]), events[1..], waiting + {j}, gone, i);
        case Finish(j, _) => ReplyStays(c, Next(c, h, events[0]), events[1..], waiting - {j}, gone + {j}, i);
      }
    }
  }

  /** The caller's call, wherever it finishes, is this one. */
  predicate Makes(events: seq<Event>, i: nat, call: Calls.Call) {
    forall event :: event in events && event.Finish? && event.caller == i ==> event.call == call
  }

  /** A call under way answers as on the circle it loaded, whatever is saved meanwhile. */
  lemma {:induction false} AnswersWhatItLoaded(c: Suite, h: Host, events: seq<Event>, waiting: set<nat>, gone: set<nat>, i: nat, call: Calls.Call)
    requires Complete(events, waiting, gone) && waiting !! gone && h.loaded.Keys == waiting && i in waiting && Makes(events, i, call)
    ensures i in Play(c, h, events).replies
    ensures Play(c, h, events).replies[i] == ReplyOn(c, h.loaded[i], call)
    decreases |events|
  {
    hide Calls.Apply, ReplyOn;
    assert events[0] in events;
    match events[0] {
      case Load(j) => AnswersWhatItLoaded(c, Next(c, h, events[0]), events[1..], waiting + {j}, gone, i, call);
      case Finish(j, _) =>
        if j == i {
          ReplyStays(c, Next(c, h, events[0]), events[1..], waiting - {j}, gone + {j}, i);
        } else {
          AnswersWhatItLoaded(c, Next(c, h, events[0]), events[1..], waiting - {j}, gone + {j}, i, call);
        }
    }
  }

  /** Any two of the same call under way on the same loaded circle answer alike: of two opens, the second is no replay. */
  lemma OverlappingOpensAgree(c: Suite, h: Host, events: seq<Event>, waiting: set<nat>, gone: set<nat>, i: nat, j: nat, call: Calls.Call)
    requires Complete(events, waiting, gone) && waiting !! gone && h.loaded.Keys == waiting
    requires i in waiting && j in waiting && h.loaded[i] == h.loaded[j] && Makes(events, i, call) && Makes(events, j, call)
    ensures var replies := Play(c, h, events).replies;
            i in replies && j in replies && replies[i] == replies[j] == ReplyOn(c, h.loaded[i], call)
  {
    hide Play, ReplyOn;
    AnswersWhatItLoaded(c, h, events, waiting, gone, i, call);
    AnswersWhatItLoaded(c, h, events, waiting, gone, j, call);
  }

  function Picked(event: Event, pick: nat -> Bytes): Event {
    match event
    case Load(_) => event
    case Finish(i, _) => Finish(i, Calls.OpenCall(pick(i)))
  }

  /** The same schedule, each caller opening the note picked for it. */
  function Opening(events: seq<Event>, pick: nat -> Bytes): seq<Event> {
    if events == [] then [] else [Picked(events[0], pick)] + Opening(events[1..], pick)
  }

  lemma {:induction false} OpeningKeepsShape(events: seq<Event>, pick: nat -> Bytes, waiting: set<nat>, gone: set<nat>)
    ensures Complete(Opening(events, pick), waiting, gone) <==> Complete(events, waiting, gone)
    ensures Alone(Opening(events, pick), waiting) <==> Alone(events, waiting)
    ensures forall i :: Makes(Opening(events, pick), i, Calls.OpenCall(pick(i)))
    decreases |events|
  {
    if events != [] {
      assert Opening(events, pick)[1..] == Opening(events[1..], pick);
      match events[0] {
        case Load(i) => OpeningKeepsShape(events[1..], pick, waiting + {i}, gone);
        case Finish(i, _) => OpeningKeepsShape(events[1..], pick, waiting - {i}, gone + {i});
      }
    }
  }

  /** Every step a reply used is used in its chain's window. */
  ghost predicate AllMarked(replies: map<nat, Reply>, ws: map<U32, Window>) {
    forall i :: i in replies && replies[i].used.Some? ==>
      replies[i].used.value.0 in ws && replies[i].used.value.1 in ws[replies[i].used.value.0].used
  }

  /** Opens one after another use no step twice, whatever they open: none of them brings a chain or drops one. */
  lemma {:induction false} SerialOpensApart(c: Suite, ms: seq<MemberState>, ws: map<U32, Window>, replies: map<nat, Reply>,
                                            events: seq<Event>, pick: nat -> Bytes, waiting: set<nat>)
    requires Complete(events, waiting, replies.Keys) && waiting !! replies.Keys && Calls.Held(c, ms, ws)
    requires NoStepShared(replies) && AllMarked(replies, ws)
    ensures NoStepShared(RepliesIn(c, ms, replies, Opening(events, pick)))
    decreases |events|
  {
    hide Calls.Apply, Calls.Used, Calls.Held, Calls.After, Calls.NextWindows, Consume;
    if events != [] {
      assert Opening(events, pick)[1..] == Opening(events[1..], pick);
      match events[0] {
        case Load(i) => SerialOpensApart(c, ms, ws, replies, events[1..], pick, waiting + {i});
        case Finish(i, _) =>
          var call := Calls.OpenCall(pick(i));
          var next := Calls.NextWindows(c, ms, ws, call);
          Calls.CallKeepsHeld(c, ms, ws, call);
          OpenMovesWindows(c, ms, ws, call);
          var after := replies[i := ReplyOn(c, ms, call)];
          assert after.Keys == replies.Keys + {i};
          MarkedFurther(replies, ws, next);
          SerialOpensApart(c, Calls.After(c, ms, call), next, after, events[1..], pick, waiting - {i});
      }
    }
  }

  /** An open uses no step or one that was free, and every window only gains used steps. */
  lemma OpenMovesWindows(c: Suite, ms: seq<MemberState>, ws: map<U32, Window>, call: Calls.Call)
    requires Calls.Held(c, ms, ws) && call.OpenCall?
    ensures var next := Calls.NextWindows(c, ms, ws, call);
            && (forall id :: id in ws ==> id in next && ws[id].used <= next[id].used)
            && match Calls.Used(c, ms, call) {
                 case None => true
                 case Some((id, step)) => id in ws && step !in ws[id].used && id in next && step in next[id].used
               }
  {
    hide Calls.Held, Calls.Apply, Consume;
    if Calls.Used(c, ms, call).Some? {
      Calls.UsedWasFree(c, ms, ws, call);
      var (id, step) := Calls.Used(c, ms, call).value;
      ConsumingGrows(ws[id], step);
    }
  }

  lemma MarkedFurther(replies: map<nat, Reply>, ws: map<U32, Window>, next: map<U32, Window>)
    requires AllMarked(replies, ws) && forall id :: id in ws ==> id in next && ws[id].used <= next[id].used
    ensures AllMarked(replies, next)
  {
  }

  /** The note for two of the callers, and nothing that opens for any other. */
  function Both(a: nat, b: nat, note: Bytes): nat -> Bytes {
    (i: nat) => if i == a || i == b then note else []
  }

  lemma NothingOpens(c: Suite, ms: seq<MemberState>)
    ensures Calls.Apply(c, ms, Calls.OpenCall([])).Err?
  {
  }

  /** With the note for two callers, and nothing that opens for any other, the two give the same reply to it. */
  ghost predicate Shares(c: Suite, h: Host, events: seq<Event>, a: nat, b: nat, ms: seq<MemberState>, note: Bytes) {
    var replies := Play(c, h, Opening(events, Both(a, b, note))).replies;
    a in replies && b in replies && replies[a] == replies[b] == ReplyOn(c, ms, Calls.OpenCall(note))
  }

  lemma UnderWayShare(c: Suite, h: Host, events: seq<Event>, waiting: set<nat>, gone: set<nat>, a: nat, b: nat, note: Bytes)
    requires Complete(events, waiting, gone) && waiting !! gone && h.loaded.Keys == waiting
    requires a in waiting && b in waiting && h.loaded[a] == h.loaded[b]
    ensures Shares(c, h, events, a, b, h.loaded[a], note)
  {
    hide Complete, Alone, Play, Opening, ReplyOn, Makes;
    var pick := Both(a, b, note);
    OpeningKeepsShape(events, pick, waiting, gone);
    assert pick(a) == note && pick(b) == note;
    assert Makes(Opening(events, pick), a, Calls.OpenCall(pick(a))) && Makes(Opening(events, pick), b, Calls.OpenCall(pick(b)));
    OverlappingOpensAgree(c, h, Opening(events, pick), waiting, gone, a, b, Calls.OpenCall(note));
  }

  lemma ShareAfterLoad(c: Suite, h: Host, events: seq<Event>, a: nat, b: nat, ms: seq<MemberState>, note: Bytes)
    requires events != [] && events[0].Load? && Shares(c, Next(c, h, events[0]), events[1..], a, b, ms, note)
    ensures Shares(c, h, events, a, b, ms, note)
  {
    hide Next, ReplyOn;
    OpeningFront(events, Both(a, b, note));
  }

  /** A finish of any other caller opens nothing, and changes nothing but its own reply. */
  lemma ShareAfterOther(c: Suite, h: Host, events: seq<Event>, a: nat, b: nat, ms: seq<MemberState>, note: Bytes)
    requires events != [] && events[0].Finish? && events[0].caller != a && events[0].caller != b
    requires Shares(c, Next(c, h, Finish(events[0].caller, Calls.OpenCall([]))), events[1..], a, b, ms, note)
    ensures Shares(c, h, events, a, b, ms, note)
  {
    hide Next, ReplyOn;
    OpeningFront(events, Both(a, b, note));
  }

  lemma NothingFinishes(c: Suite, h: Host, i: nat)
    requires i in h.loaded && h.loaded[i] == h.stored
    ensures var next := Next(c, h, Finish(i, Calls.OpenCall([])));
            next.stored == h.stored && next.loaded == h.loaded - {i}
  {
    hide Calls.Apply;
    NothingOpens(c, h.stored);
  }

  /** A schedule that overlaps has two callers that load the same circle, whatever else it does. */
  lemma {:induction false} OverlapShares(c: Suite, h: Host, events: seq<Event>, waiting: set<nat>, gone: set<nat>, note: Bytes)
    returns (a: nat, b: nat)
    requires Complete(events, waiting, gone) && !Alone(events, waiting) && waiting !! gone && |waiting| <= 1
    requires h.loaded.Keys == waiting && forall i :: i in waiting ==> h.loaded[i] == h.stored
    ensures a != b && a !in gone && b !in gone && Shares(c, h, events, a, b, h.stored, note)
    decreases |events|
  {
    hide Complete, Alone, Next, Shares;
    ScheduleFront(events, waiting, gone);
    match events[0] {
      case Load(i) =>
        Loads(c, h, i);
        if waiting == {} {
          assert waiting + {i} == {i};
          a, b := OverlapShares(c, Next(c, h, Load(i)), events[1..], {i}, gone, note);
        } else {
          a :| a in waiting;
          b := i;
          UnderWayShare(c, Next(c, h, Load(i)), events[1..], waiting + {i}, gone, a, b, note);
        }
        ShareAfterLoad(c, h, events, a, b, h.stored, note);
      case Finish(i, _) =>
        OnlyOne(waiting, i);
        NothingFinishes(c, h, i);
        assert waiting - {i} == {};
        a, b := OverlapShares(c, Next(c, h, Finish(i, Calls.OpenCall([]))), events[1..], {}, gone + {i}, note);
        ShareAfterOther(c, h, events, a, b, h.stored, note);
    }
  }

  lemma ScheduleFront(events: seq<Event>, waiting: set<nat>, gone: set<nat>)
    requires Complete(events, waiting, gone) && !Alone(events, waiting)
    ensures events != []
    ensures var i := events[0].caller;
            if events[0].Load? then
              && i !in waiting && i !in gone && Complete(events[1..], waiting + {i}, gone)
              && (waiting == {} ==> !Alone(events[1..], waiting + {i}))
            else i in waiting && Complete(events[1..], waiting - {i}, gone + {i}) && !Alone(events[1..], waiting - {i})
  {
  }

  lemma OpeningFront(events: seq<Event>, pick: nat -> Bytes)
    requires events != []
    ensures Opening(events, pick) != [] && Opening(events, pick)[1..] == Opening(events[1..], pick)
    ensures Opening(events, pick)[0] == Picked(events[0], pick)
  {
  }

  /**
   * Opens of any notes, interleaved in any way at their awaits, on a circle that some note opens on: no
   * choice of the notes uses a step twice exactly when no call loads while another is still to save.
   */
  lemma OpensApartIffAlone(c: Suite, ms: seq<MemberState>, ws: map<U32, Window>, events: seq<Event>, note: Bytes)
    requires Calls.Held(c, ms, ws) && Calls.Apply(c, ms, Calls.OpenCall(note)).Ok? && Complete(events, {}, {})
    ensures (forall pick: nat -> Bytes :: NoStepShared(Play(c, Host(ms, map[], map[]), Opening(events, pick)).replies)) <==>
            Alone(events, {})
  {
    hide Play, RepliesIn, Calls.Held, Calls.Apply, Calls.Used, Opening, Alone, Complete;
    var h := Host(ms, map[], map[]);
    if Alone(events, {}) {
      forall pick: nat -> Bytes ensures NoStepShared(Play(c, h, Opening(events, pick)).replies) {
        OpeningKeepsShape(events, pick, {}, {});
        AloneIsSerial(c, h, Opening(events, pick), {}, {});
        SerialOpensApart(c, ms, ws, map[], events, pick, {});
      }
    } else {
      OpenedIsRefused(c, ms, ws, note);
      var a, b := OverlapShares(c, h, events, {}, {}, note);
      assert !NoStepShared(Play(c, h, Opening(events, Both(a, b, note))).replies);
    }
  }

  // Opens of one note

  /** Every finish opens the note. */
  predicate Opens(events: seq<Event>, note: Bytes) {
    forall event :: event in events && event.Finish? ==> event.call == Calls.OpenCall(note)
  }

  /** Once the stored circle and every loaded one refuse the note, nothing more is saved and nothing used. */
  lemma {:induction false} RefusedFromThenOn(c: Suite, h: Host, events: seq<Event>, waiting: set<nat>, gone: set<nat>, note: Bytes)
    requires Complete(events, waiting, gone) && h.loaded.Keys == waiting && Opens(events, note)
    requires Calls.Apply(c, h.stored, Calls.OpenCall(note)).Err? && forall i :: i in waiting ==> h.loaded[i] == h.stored
    ensures forall i :: i in Play(c, h, events).replies ==>
              Play(c, h, events).replies[i].used.None? || (i in h.replies && Play(c, h, events).replies[i] == h.replies[i])
    decreases |events|
  {
    hide Calls.Apply;
    if events != [] {
      assert events[0] in events;
      match events[0] {
        case Load(j) => RefusedFromThenOn(c, Next(c, h, events[0]), events[1..], waiting + {j}, gone, note);
        case Finish(j, _) => RefusedFromThenOn(c, Next(c, h, events[0]), events[1..], waiting - {j}, gone + {j}, note);
      }
    }
  }

  /** A note that opened does not open again on the circle it left. */
  lemma OpenedIsRefused(c: Suite, ms: seq<MemberState>, ws: map<U32, Window>, note: Bytes)
    requires Calls.Held(c, ms, ws) && Calls.Apply(c, ms, Calls.OpenCall(note)).Ok?
    ensures Calls.Used(c, ms, Calls.OpenCall(note)).Some?
    ensures Calls.Apply(c, Calls.After(c, ms, Calls.OpenCall(note)), Calls.OpenCall(note)).Err?
  {
    hide Calls.Held, Calls.NextWindows, Cipher.Open, Posts.NoteOf, Consume;
    var call := Calls.OpenCall(note);
    var next := Calls.After(c, ms, call);
    Calls.UsedWasFree(c, ms, ws, call);
    Calls.CallKeepsHeld(c, ms, ws, call);
    if Calls.Apply(c, next, call).Ok? {
      Calls.UsedWasFree(c, next, Calls.NextWindows(c, ms, ws, call), call);
    }
  }

  /**
   * Any number of opens of one note that does open, interleaved in any way at their awaits: its step is
   * used once exactly when the first call has saved before any other loads. Otherwise two of them give
   * its plaintext.
   */
  lemma OpenedOnceIffFirstAlone(c: Suite, ms: seq<MemberState>, ws: map<U32, Window>, events: seq<Event>, note: Bytes)
    requires Calls.Held(c, ms, ws) && Calls.Apply(c, ms, Calls.OpenCall(note)).Ok?
    requires Complete(events, {}, {}) && Opens(events, note) && |events| > 1
    ensures NoStepShared(Play(c, Host(ms, map[], map[]), events).replies) <==> events[1].Finish?
    ensures events[1].Load? ==>
              var i, j := events[0].caller, events[1].caller;
              var replies := Play(c, Host(ms, map[], map[]), events).replies;
              i != j && i in replies && j in replies && replies[i] == replies[j] == ReplyOn(c, ms, Calls.OpenCall(note))
  {
    hide Calls.Held, Calls.Apply, Calls.Used, Calls.After;
    var call := Calls.OpenCall(note);
    var h := Host(ms, map[], map[]);
    var i := events[0].caller;
    var one := Next(c, h, events[0]);
    OpenedIsRefused(c, ms, ws, note);
    assert events[1] in events && events[1..][0] == events[1];
    var two := Next(c, one, events[1]);
    var rest := events[1..][1..];
    assert Play(c, h, events) == Play(c, two, rest);
    assert {} + {i} == {i} && {i} - {i} == {};
    if events[1].Finish? {
      RefusedFromThenOn(c, two, rest, {}, {i}, note);
    } else {
      assert {i} + {events[1].caller} == {i, events[1].caller};
      OverlappingOpensAgree(c, two, rest, {i, events[1].caller}, {}, i, events[1].caller, call);
    }
  }
}
