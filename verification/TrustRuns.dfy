/**
 * What first messages under way do to each other over whole runs: the session they commit to, and the
 * one-time prekey they name.
 */
module TrustRuns {
  import opened Basics
  import opened Names
  import opened Trust

  /** The prekeys a call goes to open with in its next segment, if that is its last before the commit. */
  function Ready(p: Pending): Option<Prekeys> {
    match p.stage
    case AwaitsSigned(Some(signed)) =>
      if p.info.oneTimeId.None? && p.info.pqId.None? then Some(Prekeys(signed, [], [])) else None
    case AwaitsOneTime(signed, Some(oneTime)) => if p.info.pqId.None? then Some(Prekeys(signed, oneTime, [])) else None
    case AwaitsPq(signed, oneTime, Some(pq)) => Some(Prekeys(signed, oneTime, pq))
    case _ => None
  }

  /** What a call opens and commits in its next segment, if it does. */
  function Committing(core: Core, w: World, call: nat): Option<OpenedFirst> {
    if call !in w.pending then None
    else
      var p := w.pending[call];
      match Ready(p)
      case None => None
      case Some(keys) =>
        match core.openFirst(p.existing, p.message, keys, p.entropy)
        case Err(_) => None
        case Ok(done) => if Commit(core, w, p.at, done.record).Ok? then Some(done) else None
  }

  // The session a first message commits to

  /** The segment puts a record, or takes one away, at the address. */
  predicate Writes(core: Core, w: World, event: Event, k: string) {
    match event
    case First(_, _, _, _) => false
    case Resume(call) => Committing(core, w, call).Some? && KeyOf(w.pending[call].at) == k
    case Archive(at) => KeyOf(at) == k && k in w.sessions && core.shelve(w.sessions[k]).Ok?
    case Remove(at) => KeyOf(at) == k && k in w.sessions
    case _ => KeyOf(event.at) == k && Next(core, w, event).answer.Gives?
  }

  function RecordAt(w: World, k: string): Bytes {
    if k in w.sessions then w.sessions[k] else []
  }

  predicate WritesIn(core: Core, w: World, events: seq<Event>, k: string)
    decreases |events|
  {
    events != [] && (Writes(core, w, events[0], k) || WritesIn(core, Next(core, w, events[0]).world, events[1..], k))
  }

  /** No record written there is the one given: a session's records do not repeat. */
  predicate NeverWrites(core: Core, w: World, events: seq<Event>, k: string, record: Bytes)
    decreases |events|
  {
    events == [] ||
    (&& (Writes(core, w, events[0], k) ==> RecordAt(Next(core, w, events[0]).world, k) != record)
     && NeverWrites(core, Next(core, w, events[0]).world, events[1..], k, record))
  }

  /** The call has begun, and through all of these events neither commits nor ends nor begins again. */
  predicate UnderWay(core: Core, w: World, events: seq<Event>, call: nat)
    decreases |events|
  {
    && call in w.pending && !w.pending[call].stage.AwaitsRemoval?
    && (events == [] ||
        ((events[0].First? ==> events[0].call != call) && UnderWay(core, Next(core, w, events[0]).world, events[1..], call)))
  }

  lemma OnlyWritesChange(core: Core, w: World, event: Event, k: string)
    ensures !Writes(core, w, event, k) ==> RecordAt(Next(core, w, event).world, k) == RecordAt(w, k)
  {
    hide KeyOf;
    if event.Resume? {
      ResumeWrites(core, w, event.call, k);
    }
  }

  /** The segment moves its own call on, or ends it, and touches no other. */
  predicate MovesOn(w: World, left: World, call: nat) {
    && left.pending - {call} == w.pending - {call}
    && (call in left.pending ==>
          call in w.pending && left.pending[call] == w.pending[call].(stage := left.pending[call].stage))
  }

  lemma ParkedMovesOn(w: World, v: World, call: nat, stage: Stage)
    requires call in w.pending && v.pending == w.pending
    ensures var left := Parked(v, call, w.pending[call].(stage := stage));
            left.sessions == v.sessions && left.known == v.known && left.oneTime == v.oneTime && MovesOn(w, left, call)
  {
  }

  lemma GoneMovesOn(w: World, v: World, call: nat, mark: Option<U32>)
    requires v.pending == w.pending
    ensures MovesOn(w, Gone(v, call), call) && MovesOn(w, Marked(Gone(v, call), mark), call)
    ensures Marked(Gone(v, call), None) == Gone(v, call)
    ensures var left := Marked(Gone(v, call), mark);
            left.sessions == v.sessions && left.known == v.known && left.oneTime == v.oneTime
  {
  }

  /** A segment that is not the last before the commit leaves both stores and the prekeys alone. */
  lemma NotReadyWaits(core: Core, w: World, call: nat)
    requires call in w.pending && Ready(w.pending[call]).None?
    ensures var left := Resumed(core, w, call).world;
            left.sessions == w.sessions && left.known == w.known && left.oneTime == w.oneTime && MovesOn(w, left, call)
  {
    hide WithAll, MovesOn, Parked, Gone, Marked, Find;
    var p := w.pending[call];
    match p.stage {
      case AwaitsSigned(Some(signed)) =>
        match p.info.oneTimeId {
          case None => ParkedMovesOn(w, w, call, AwaitsPq(signed, [], Find(w.pq, p.info.pqId.value)));
          case Some(id) => ParkedMovesOn(w, w, call, AwaitsOneTime(signed, Find(w.oneTime, id)));
        }
      case AwaitsOneTime(signed, Some(oneTime)) => ParkedMovesOn(w, w, call, AwaitsPq(signed, oneTime, Find(w.pq, p.info.pqId.value)));
      case AwaitsRemoval(_, mark) => GoneMovesOn(w, w, call, mark);
      case _ => GoneMovesOn(w, w, call, None);
    }
  }

  lemma ReadyOpens(core: Core, w: World, call: nat)
    requires call in w.pending && Ready(w.pending[call]).Some?
    ensures Resumed(core, w, call) == WithAll(core, w, call, w.pending[call], Ready(w.pending[call]).value)
  {
    hide WithAll;
  }

  lemma CommitWrites(core: Core, w: World, at: Address, record: Bytes)
    ensures match Commit(core, w, at, record) {
              case Err(_) => true
              case Ok(left) =>
                && left.sessions == w.sessions[KeyOf(at) := record] && left.oneTime == w.oneTime && left.pending == w.pending
            }
  {
    hide KeyOf, InfoRemote;
  }

  /** The one-time prekey a commit lets go of. */
  function Dropped(done: OpenedFirst): Option<U32> {
    if done.used then done.oneTimeId else None
  }

  lemma AllWrites(core: Core, w: World, call: nat, p: Pending, keys: Prekeys)
    requires call in w.pending && w.pending[call] == p
    ensures var left := WithAll(core, w, call, p, keys).world;
            && MovesOn(w, left, call) && (call in left.pending ==> left.pending[call].stage.AwaitsRemoval?)
            && match core.openFirst(p.existing, p.message, keys, p.entropy) {
                 case Err(_) => left.sessions == w.sessions && left.oneTime == w.oneTime
                 case Ok(done) =>
                   if Commit(core, w, p.at, done.record).Ok? then
                     && left.sessions == w.sessions[KeyOf(p.at) := done.record]
                     && left.oneTime == match Dropped(done) { case None => w.oneTime case Some(id) => w.oneTime - {id} }
                   else left.sessions == w.sessions && left.oneTime == w.oneTime
               }
  {
    hide Commit, KeyOf, MovesOn;
    GoneMovesOn(w, w, call, None);
    var outcome := core.openFirst(p.existing, p.message, keys, p.entropy);
    if outcome.Ok? {
      var done := outcome.value;
      CommitWrites(core, w, p.at, done.record);
      if Commit(core, w, p.at, done.record).Ok? {
        var left := Commit(core, w, p.at, done.record).value;
        GoneMovesOn(w, left, call, p.info.pqId);
        if Dropped(done).Some? {
          ParkedMovesOn(w, left.(oneTime := left.oneTime - {done.oneTimeId.value}), call, AwaitsRemoval(done.plain, p.info.pqId));
        }
      }
    }
  }

  lemma ResumeWrites(core: Core, w: World, call: nat, k: string)
    ensures if Committing(core, w, call).Some? && KeyOf(w.pending[call].at) == k then
              RecordAt(Resumed(core, w, call).world, k) == Committing(core, w, call).value.record
            else RecordAt(Resumed(core, w, call).world, k) == RecordAt(w, k)
  {
    hide KeyOf, Commit, WithAll, Ready;
    if call in w.pending {
      var p := w.pending[call];
      if Ready(p).None? {
        NotReadyWaits(core, w, call);
      } else {
        ReadyOpens(core, w, call);
        AllWrites(core, w, call, p, Ready(p).value);
      }
    }
  }

  lemma ResumeTouches(core: Core, w: World, call: nat)
    ensures MovesOn(w, Resumed(core, w, call).world, call)
  {
    hide Commit, WithAll, Ready, KeyOf;
    if call in w.pending {
      if Ready(w.pending[call]).None? {
        NotReadyWaits(core, w, call);
      } else {
        ReadyOpens(core, w, call);
        AllWrites(core, w, call, w.pending[call], Ready(w.pending[call]).value);
      }
    }
  }

  /** A call under way keeps the record it loaded and the address it is for. */
  lemma KeepsLoaded(core: Core, w: World, event: Event, call: nat)
    requires call in w.pending && (event.First? ==> event.call != call)
    requires call in Next(core, w, event).world.pending
    ensures var p, q := w.pending[call], Next(core, w, event).world.pending[call];
            q == p.(stage := q.stage)
  {
    hide KeyOf, Resumed, InfoRemote;
    if event.Resume? {
      ResumeTouches(core, w, event.call);
      if event.call != call {
        assert call in (w.pending - {event.call}) && (w.pending - {event.call})[call] == w.pending[call];
      }
    }
  }

  /**
   * A first message begun on what is stored for its address, and anything else in between: when it comes to
   * open, the record it loaded is the one the last call there left if and only if none of them wrote there.
   * What it then commits is made from the record it loaded all the same, so what they wrote is lost.
   */
  lemma {:induction false} OpensOnLatestIff(core: Core, w: World, events: seq<Event>, call: nat, loaded: Bytes)
    requires UnderWay(core, w, events, call) && w.pending[call].existing == loaded
    requires var k := KeyOf(w.pending[call].at); NeverWrites(core, w, events, k, loaded)
    ensures var k, reached := KeyOf(w.pending[call].at), Play(core, w, events);
            && call in reached.pending && reached.pending[call].existing == loaded && reached.pending[call].at == w.pending[call].at
            && (RecordAt(w, k) == loaded ==> (RecordAt(reached, k) == loaded <==> !WritesIn(core, w, events, k)))
            && (RecordAt(w, k) != loaded ==> RecordAt(reached, k) != loaded)
            && (Committing(core, reached, call).Some? ==>
                  RecordAt(Next(core, reached, Resume(call)).world, k) == Committing(core, reached, call).value.record)
    decreases |events|
  {
    hide KeyOf, Commit, Next, Writes, Committing;
    var k := KeyOf(w.pending[call].at);
    if events == [] {
      ResumeIsNext(core, w, call);
      ResumeWrites(core, w, call, k);
    } else {
      var next := Next(core, w, events[0]).world;
      KeepsLoaded(core, w, events[0], call);
      OnlyWritesChange(core, w, events[0], k);
      OpensOnLatestIff(core, next, events[1..], call, loaded);
    }
  }

  lemma ResumeIsNext(core: Core, w: World, call: nat)
    ensures Next(core, w, Resume(call)) == Resumed(core, w, call)
  {
  }

  /** What a call commits is a function of the record it loaded, not of what is stored by then. */
  lemma CommitsWhatItLoaded(core: Core, w: World, call: nat)
    requires Committing(core, w, call).Some?
    ensures var p := w.pending[call];
            Ok(Committing(core, w, call).value) == core.openFirst(p.existing, p.message, Ready(p).value, p.entropy)
  {
  }

  // The one-time prekey first messages name

  /** Every call under way has read its own message. */
  ghost predicate Parsed(core: Core, w: World) {
    forall call :: call in w.pending ==> core.opener(w.pending[call].message) == Ok(w.pending[call].info)
  }

  /** The call has read the one-time prekey and not used it yet. */
  predicate Holds(p: Pending, id: U32) {
    p.info.oneTimeId == Some(id) && (p.stage.AwaitsPq? || (p.stage.AwaitsOneTime? && p.stage.found.Some?))
  }

  function Holders(w: World, id: U32): set<nat> {
    set call | call in w.pending && Holds(w.pending[call], id)
  }

  /** The one-time prekey that a segment uses. */
  function UsedBy(core: Core, w: World, event: Event): Option<U32> {
    if event.Resume? && Committing(core, w, event.call).Some? then Dropped(Committing(core, w, event.call).value) else None
  }

  function Uses(core: Core, w: World, events: seq<Event>, id: U32): nat
    decreases |events|
  {
    if events == [] then 0
    else (if UsedBy(core, w, events[0]) == Some(id) then 1 else 0) + Uses(core, Next(core, w, events[0]).world, events[1..], id)
  }

  /** Every call that reads the prekey uses it: none fails, is begun anew or is left under way. */
  ghost predicate NoneWasted(core: Core, w: World, events: seq<Event>, id: U32)
    decreases |events|
  {
    if events == [] then Holders(w, id) == {}
    else
      && (UsedBy(core, w, events[0]) != Some(id) ==> Holders(w, id) <= Holders(Next(core, w, events[0]).world, id))
      && NoneWasted(core, Next(core, w, events[0]).world, events[1..], id)
  }

  /** No two calls have read the prekey and not used it yet. */
  predicate NeverTwo(core: Core, w: World, events: seq<Event>, id: U32)
    decreases |events|
  {
    |Holders(w, id)| <= 1 && (events == [] || NeverTwo(core, Next(core, w, events[0]).world, events[1..], id))
  }

  /** What one segment does to the prekey and to those that hold it. */
  ghost predicate Passes(w: World, left: World, id: U32, used: bool, call: Option<nat>) {
    && (id !in w.oneTime ==> id !in left.oneTime)
    && Holders(left, id) <= Holders(w, id) + (if id in w.oneTime && call.Some? then {call.value} else {})
    && (used ==> id !in left.oneTime && call.Some? && call.value in Holders(w, id) && Holders(left, id) == Holders(w, id) - {call.value})
  }

  lemma SegmentPasses(core: Core, w: World, event: Event, id: U32)
    requires ConsumesNamed(core) && Parsed(core, w)
    ensures var left := Next(core, w, event).world;
            && Parsed(core, left)
            && Passes(w, left, id, UsedBy(core, w, event) == Some(id), if event.Resume? then Some(event.call) else None)
  {
    hide KeyOf, Resumed, Next, Parsed, Passes, ConsumesNamed;
    if event.Resume? {
      ResumeIsNext(core, w, event.call);
      ResumePasses(core, w, event.call, id);
    } else {
      QuietSegment(core, w, event);
      BeginsUnread(core, w, Next(core, w, event).world, event, id);
    }
  }

  /** A segment that resumes no call touches no prekey, and at most begins a call. */
  lemma QuietSegment(core: Core, w: World, event: Event)
    requires !event.Resume?
    ensures var left := Next(core, w, event).world;
            && left.oneTime == w.oneTime
            && (left.pending == w.pending ||
                (event.First? && exists p: Pending ::
                   left.pending == w.pending[event.call := p] && p.stage.AwaitsSigned? && core.opener(p.message) == Ok(p.info)))
  {
    hide KeyOf, InfoRemote;
  }

  lemma BeginsUnread(core: Core, w: World, left: World, event: Event, id: U32)
    requires Parsed(core, w) && left.oneTime == w.oneTime
    requires left.pending == w.pending ||
             (event.First? && exists p: Pending ::
                left.pending == w.pending[event.call := p] && p.stage.AwaitsSigned? && core.opener(p.message) == Ok(p.info))
    ensures Parsed(core, left) && Passes(w, left, id, false, None)
  {
    assert Holders(left, id) <= Holders(w, id);
  }

  lemma ResumePasses(core: Core, w: World, call: nat, id: U32)
    requires ConsumesNamed(core) && Parsed(core, w)
    ensures var left := Resumed(core, w, call).world;
            && Parsed(core, left)
            && Passes(w, left, id, UsedBy(core, w, Resume(call)) == Some(id), Some(call))
  {
    hide KeyOf, Commit, WithAll, Ready, Holders, Passes, MovesOn, Resumed;
    ResumeTouches(core, w, call);
    var left := Resumed(core, w, call).world;
    ParsedStays(core, w, left, call);
    OthersHold(w, left, call, id);
    if call in w.pending {
      var p := w.pending[call];
      if Ready(p).None? {
        NotReadyWaits(core, w, call);
        HoldsOnlyWhatItFound(core, w, call, id);
        StillPasses(w, left, id, call);
      } else {
        ReadyOpens(core, w, call);
        AllWrites(core, w, call, p, Ready(p).value);
        ReadyHolds(p, id);
        EndsPasses(w, left, id, call, UsedBy(core, w, Resume(call)) == Some(id));
      }
    } else {
      NoOneResumes(core, w, call);
      StillPasses(w, left, id, call);
    }
  }

  lemma NoOneResumes(core: Core, w: World, call: nat)
    requires call !in w.pending
    ensures Resumed(core, w, call).world == w
  {
  }

  lemma ParsedStays(core: Core, w: World, left: World, call: nat)
    requires Parsed(core, w) && MovesOn(w, left, call)
    ensures Parsed(core, left)
  {
    forall other | other in left.pending ensures core.opener(left.pending[other].message) == Ok(left.pending[other].info) {
      if other != call {
        assert other in left.pending - {call} && (left.pending - {call})[other] == (w.pending - {call})[other];
      }
    }
  }

  /** Other calls hold what they held. */
  lemma OthersHold(w: World, left: World, call: nat, id: U32)
    requires MovesOn(w, left, call)
    ensures Holders(left, id) - {call} == Holders(w, id) - {call}
    ensures call in Holders(left, id) <==> call in left.pending && Holds(left.pending[call], id)
    ensures call in Holders(w, id) <==> call in w.pending && Holds(w.pending[call], id)
  {
    forall other | other != call
      ensures other in Holders(left, id) <==> other in Holders(w, id)
    {
      assert other in left.pending - {call} <==> other in w.pending - {call};
      if other in w.pending {
        assert (w.pending - {call})[other] == w.pending[other] && (left.pending - {call})[other] == left.pending[other];
      }
    }
  }

  lemma HoldsOnlyWhatItFound(core: Core, w: World, call: nat, id: U32)
    requires call in w.pending && Ready(w.pending[call]).None?
    ensures var left := Resumed(core, w, call).world;
            call in left.pending && Holds(left.pending[call], id) ==> Holds(w.pending[call], id) || id in w.oneTime
  {
    hide WithAll;
  }

  lemma ReadyHolds(p: Pending, id: U32)
    ensures Ready(p).Some? && p.info.oneTimeId == Some(id) ==> Holds(p, id)
  {
  }

  lemma StillPasses(w: World, left: World, id: U32, call: nat)
    requires left.oneTime == w.oneTime && Holders(left, id) - {call} == Holders(w, id) - {call}
    requires call in Holders(left, id) ==> call in Holders(w, id) || id in w.oneTime
    ensures Passes(w, left, id, false, Some(call))
  {
    hide Holders;
    ApartFrom(Holders(left, id), Holders(w, id), call);
  }

  lemma ApartFrom(a: set<nat>, b: set<nat>, x: nat)
    requires a - {x} == b - {x}
    ensures forall y :: y != x ==> (y in a <==> y in b)
  {
    forall y | y != x ensures y in a <==> y in b {
      assert y in a - {x} <==> y in b - {x};
    }
  }

  lemma EndsPasses(w: World, left: World, id: U32, call: nat, used: bool)
    requires left.oneTime == w.oneTime || (exists x :: left.oneTime == w.oneTime - {x})
    requires used ==> id !in left.oneTime && call in Holders(w, id)
    requires Holders(left, id) - {call} == Holders(w, id) - {call} && call !in Holders(left, id)
    ensures Passes(w, left, id, used, Some(call))
  {
    hide Holders;
    ApartFrom(Holders(left, id), Holders(w, id), call);
  }

  lemma {:induction false} GoneIsHeldOnly(core: Core, w: World, events: seq<Event>, id: U32)
    requires ConsumesNamed(core) && Parsed(core, w) && id !in w.oneTime
    ensures Uses(core, w, events, id) <= |Holders(w, id)|
    decreases |events|
  {
    hide ConsumesNamed, Parsed, Next, UsedBy, Holders;
    if events != [] {
      SegmentPasses(core, w, events[0], id);
      var left := Next(core, w, events[0]).world;
      GoneIsHeldOnly(core, left, events[1..], id);
      Smaller(Holders(left, id), Holders(w, id));
      if UsedBy(core, w, events[0]) == Some(id) {
        OneLess(Holders(w, id), events[0].call);
      }
    }
  }

  lemma Smaller(a: set<nat>, b: set<nat>)
    ensures a <= b ==> |a| <= |b|
  {
    if a <= b {
      assert b == a + (b - a);
    }
  }

  lemma OneLess(s: set<nat>, x: nat)
    ensures x in s ==> |s - {x}| == |s| - 1
  {
  }

  lemma {:induction false} AloneIsUsedOnce(core: Core, w: World, events: seq<Event>, id: U32)
    requires ConsumesNamed(core) && Parsed(core, w) && NeverTwo(core, w, events, id)
    ensures Uses(core, w, events, id) <= 1
    decreases |events|
  {
    hide ConsumesNamed, Parsed, Next, UsedBy, Holders;
    if events != [] {
      SegmentPasses(core, w, events[0], id);
      var left := Next(core, w, events[0]).world;
      AloneIsUsedOnce(core, left, events[1..], id);
      if UsedBy(core, w, events[0]) == Some(id) {
        OneLess(Holders(w, id), events[0].call);
        GoneIsHeldOnly(core, left, events[1..], id);
      }
    }
  }

  lemma {:induction false} HoldersUse(core: Core, w: World, events: seq<Event>, id: U32)
    requires ConsumesNamed(core) && Parsed(core, w) && NoneWasted(core, w, events, id)
    ensures Uses(core, w, events, id) >= |Holders(w, id)|
    ensures !NeverTwo(core, w, events, id) ==> Uses(core, w, events, id) >= 2
    decreases |events|
  {
    hide ConsumesNamed, Parsed, Next, UsedBy, Holders;
    if events != [] {
      SegmentPasses(core, w, events[0], id);
      var left := Next(core, w, events[0]).world;
      HoldersUse(core, left, events[1..], id);
      Smaller(Holders(w, id), Holders(left, id));
      if UsedBy(core, w, events[0]) == Some(id) {
        OneLess(Holders(w, id), events[0].call);
      }
    }
  }

  /**
   * Over any run of events in which every call that reads a one-time prekey goes on to use it: it is used at
   * most once if and only if no call reads it while another has read it and not used it yet.
   */
  lemma PrekeyUsedOnceIff(core: Core, w: World, events: seq<Event>, id: U32)
    requires ConsumesNamed(core) && Parsed(core, w) && NoneWasted(core, w, events, id)
    ensures Uses(core, w, events, id) <= 1 <==> NeverTwo(core, w, events, id)
  {
    if NeverTwo(core, w, events, id) {
      AloneIsUsedOnce(core, w, events, id);
    } else {
      HoldersUse(core, w, events, id);
    }
  }
}
