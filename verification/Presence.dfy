/**
 * How long a circle keeps a member, from the calls alone: until the chain is announced under another key,
 * or five other chains have been admitted since it was last in front.
 */
module Presence {
  import opened Basics
  import opened Suites
  import opened Chains
  import opened Records
  import opened Posts
  import opened Windows
  import opened Calls
  import opened Runs
  import Cipher

  /** The chains before this one in the list. */
  function Ahead(ms: seq<MemberState>, id: U32): set<U32> {
    if ms == [] || ms[0].chainId == id then {} else {ms[0].chainId} + Ahead(ms[1..], id)
  }

  datatype Offer = Offer(chainId: U32, key: Public)

  /** The chain and signing key a call asks the circle to admit, if it does. */
  function Offered(call: Call): Option<Offer> {
    match call
    case AdmitCall(data) => (
      match AnnounceOf(data)
      case Ok(a) => Some(Offer(a.chainId, a.signing))
      case Err(_) => None)
    case _ => None
  }

  /** The chain keeps its key, and never has five others admitted since it was last in front. */
  predicate Stays(calls: seq<Call>, id: U32, key: Public, ahead: set<U32>)
    decreases |calls|
  {
    && |ahead| < 5
    && (calls == [] ||
        match Offered(calls[0])
        case None => Stays(calls[1..], id, key, ahead)
        case Some(o) =>
          if o.chainId == id then o.key == key && Stays(calls[1..], id, key, {})
          else Stays(calls[1..], id, key, ahead + {o.chainId}))
  }

  // Lists

  lemma {:induction false} AheadAreMembers(ms: seq<MemberState>, id: U32, x: U32)
    requires x in Ahead(ms, id)
    ensures x != id && exists i :: 0 <= i < |ms| && ms[i].chainId == x
  {
    if ms[0].chainId != x {
      AheadAreMembers(ms[1..], id, x);
      var i :| 0 <= i < |ms[1..]| && ms[1..][i].chainId == x;
      assert ms[i + 1].chainId == x;
    }
  }

  lemma {:induction false} AheadCounts(ms: seq<MemberState>, id: U32)
    requires UniqueIds(ms)
    ensures |Ahead(ms, id)| == match IndexOf(ms, id) { case Some(i) => i case None => |ms| }
  {
    if ms != [] && ms[0].chainId != id {
      var rest := ms[1..];
      forall x | x in Ahead(rest, id) ensures x != ms[0].chainId {
        AheadAreMembers(rest, id, x);
        var i :| 0 <= i < |rest| && rest[i].chainId == x;
        assert ms[i + 1].chainId == x;
      }
      AheadCounts(rest, id);
    }
  }

  lemma {:induction false} WithoutFront(ms: seq<MemberState>, x: U32)
    requires ms != []
    ensures Without(ms, x) == (if ms[0].chainId == x then [] else [ms[0]]) + Without(ms[1..], x)
  {
    if |ms| > 1 {
      WithoutFront(ms[..|ms| - 1], x);
      assert ms[..|ms| - 1][1..] == ms[1..][..|ms| - 2];
    }
  }

  lemma FrontIsAhead(m: MemberState, rest: seq<MemberState>, id: U32)
    ensures Ahead([m] + rest, id) == if m.chainId == id then {} else {m.chainId} + Ahead(rest, id)
    ensures IndexOf([m] + rest, id) ==
            if m.chainId == id then Some(0) else match IndexOf(rest, id) { case None => None case Some(i) => Some(i + 1) }
  {
    assert ([m] + rest)[1..] == rest;
  }

  /** The chain's member, if it has one. */
  function Holder(ms: seq<MemberState>, id: U32): Option<MemberState> {
    match IndexOf(ms, id)
    case None => None
    case Some(i) => Some(ms[i])
  }

  lemma AheadFront(ms: seq<MemberState>, id: U32)
    requires ms != []
    ensures Ahead(ms, id) == if ms[0].chainId == id then {} else {ms[0].chainId} + Ahead(ms[1..], id)
    ensures Holder(ms, id) == if ms[0].chainId == id then Some(ms[0]) else Holder(ms[1..], id)
  {
  }

  /** Taking another chain out takes it out of what is ahead, and keeps this chain's member. */
  lemma {:induction false} AheadWithout(ms: seq<MemberState>, x: U32, id: U32)
    requires x != id
    ensures Ahead(Without(ms, x), id) == Ahead(ms, id) - {x}
    ensures Holder(Without(ms, x), id) == Holder(ms, id)
  {
    if ms == [] {
      NothingWithout(x);
    } else {
      hide Without, Ahead, Holder;
      var all, rest := Without(ms, x), Without(ms[1..], x);
      WithoutFront(ms, x);
      AheadWithout(ms[1..], x, id);
      AheadFront(ms, id);
      if ms[0].chainId == x {
        assert all == rest;
      } else {
        assert all[0] == ms[0] && all[1..] == rest;
        AheadFront(all, id);
      }
    }
  }

  lemma NothingWithout(x: U32)
    ensures Without([], x) == []
  {
  }

  /** The first few of a list hold what they hold of the whole. */
  lemma {:induction false} AheadInFront(ms: seq<MemberState>, n: nat, id: U32)
    requires n <= |ms|
    ensures match IndexOf(ms, id) {
              case None => IndexOf(ms[..n], id) == None
              case Some(i) => if i < n then IndexOf(ms[..n], id) == Some(i) && Ahead(ms[..n], id) == Ahead(ms, id)
                              else IndexOf(ms[..n], id) == None
            }
  {
    if n > 0 && ms[0].chainId != id {
      AheadInFront(ms[1..], n - 1, id);
      assert ms[..n][1..] == ms[1..][..n - 1];
    }
  }

  lemma AddRemove(s: set<U32>, x: U32)
    ensures |s + {x}| == |s - {x}| + 1
  {
    assert s + {x} == (s - {x}) + {x};
  }

  lemma AdmittedShape(ms: seq<MemberState>, offered: MemberState) returns (member: MemberState, n: nat)
    ensures member.chainId == offered.chainId && n <= |Without(ms, offered.chainId)|
    ensures n == |Without(ms, offered.chainId)| < MAX_MEMBERS || n == MAX_MEMBERS - 1
    ensures Admitted(ms, offered) == [member] + Without(ms, offered.chainId)[..n]
  {
    hide Without, FirstUnder;
    FirstUnderMatches(ms, offered.chainId, offered.signing);
    var others := Without(ms, offered.chainId);
    member := Admitted(ms, offered)[0];
    n := if |others| < MAX_MEMBERS then |others| else MAX_MEMBERS - 1;
  }

  /** Admitting another chain puts it ahead; with five ahead the member is gone. */
  lemma AdmittedAhead(ms: seq<MemberState>, offered: MemberState, id: U32, key: Public)
    requires UniqueIds(ms) && Present(ms, id, key) && offered.chainId != id
    ensures var now, ahead := Admitted(ms, offered), Ahead(ms, id) + {offered.chainId};
            && (Present(now, id, key) <==> |ahead| < 5)
            && (Present(now, id, key) ==> Ahead(now, id) == ahead)
  {
    hide Without, Ahead, IndexOf, Admitted, UniqueIds;
    var x := offered.chainId;
    var others := Without(ms, x);
    var member, n := AdmittedShape(ms, offered);
    AheadWithout(ms, x, id);
    WithoutIsUnique(ms, x);
    AheadCounts(others, id);
    AddRemove(Ahead(ms, id), x);
    AheadInFront(others, n, id);
    FrontIsAhead(member, others[..n], id);
    assert Ahead(ms, id) + {x} == {x} + (Ahead(ms, id) - {x});
  }

  /** Lists with the same ids and keys have the same members ahead and present. */
  lemma {:induction false} SameAhead(a: seq<MemberState>, b: seq<MemberState>, id: U32)
    requires |a| == |b| && forall i :: 0 <= i < |a| ==> a[i].chainId == b[i].chainId && a[i].signing == b[i].signing
    ensures Ahead(a, id) == Ahead(b, id) && IndexOf(a, id) == IndexOf(b, id)
    ensures IndexOf(a, id).Some? ==> a[IndexOf(a, id).value].signing == b[IndexOf(b, id).value].signing
  {
    if a != [] && a[0].chainId != id {
      SameAhead(a[1..], b[1..], id);
    }
  }

  // Calls

  /** A call that admits nothing keeps every id and key where it was. */
  lemma KeepsOrder(c: Suite, ms: seq<MemberState>, call: Call)
    requires ms != [] && Offered(call).None?
    ensures var now := After(c, ms, call);
            |now| == |ms| && forall i :: 0 <= i < |ms| ==> now[i].chainId == ms[i].chainId && now[i].signing == ms[i].signing
  {
    hide Cipher.YieldFor, AnnounceOf, NoteOf, MadeNote;
    match call {
      case OpenCall(data) =>
        if NoteOf(data).Ok? {
          var note := NoteOf(data).value;
          if IndexOf(ms, note.chainId).Some? {
            YieldForKeepsIdentity(c, ms[IndexOf(ms, note.chainId).value], note.step);
          }
        }
      case _ =>
    }
  }

  /** One call: what it does to a member that is present, from what it offers alone. */
  lemma CallKeepsPresence(c: Suite, ms: seq<MemberState>, call: Call, id: U32, key: Public)
    requires UniqueIds(ms) && Present(ms, id, key)
    ensures var now := After(c, ms, call);
            match Offered(call) {
              case None => Present(now, id, key) && Ahead(now, id) == Ahead(ms, id)
              case Some(o) =>
                if o.chainId == id then (Present(now, id, key) <==> o.key == key) && Ahead(now, id) == {}
                else
                  && (Present(now, id, key) <==> |Ahead(ms, id) + {o.chainId}| < 5)
                  && (Present(now, id, key) ==> Ahead(now, id) == Ahead(ms, id) + {o.chainId})
            }
  {
    hide Ahead, AnnounceOf;
    var now := After(c, ms, call);
    match Offered(call) {
      case None =>
        KeepsOrder(c, ms, call);
        SameAhead(ms, now, id);
      case Some(o) =>
        var offered := Cipher.FromAnnounce(AnnounceOf(call.announce).value);
        if o.chainId == id {
          InFront(ms, offered);
        } else {
          AdmittedAhead(ms, offered, id, key);
        }
    }
  }

  /** An admitted chain is in front, under the key it was offered with. */
  lemma InFront(ms: seq<MemberState>, offered: MemberState)
    ensures var now := Admitted(ms, offered);
            IndexOf(now, offered.chainId) == Some(0) && now[0].signing == offered.signing && Ahead(now, offered.chainId) == {}
  {
    hide Without, FirstUnder;
    FirstUnderMatches(ms, offered.chainId, offered.signing);
  }

  // Runs

  /** A member is present throughout a run exactly when the calls keep it, whatever they answer. */
  lemma {:induction false} PresentIffStays(c: Suite, ms: seq<MemberState>, ws: map<U32, Window>, calls: seq<Call>, id: U32, key: Public)
    requires Held(c, ms, ws) && Present(ms, id, key)
    ensures PresentThroughout(c, ms, calls, id, key) <==> Stays(calls, id, key, Ahead(ms, id))
    decreases |calls|
  {
    hide Tracks, After, NextWindows, Ahead, Present, Offered;
    AheadIsFew(c, ms, ws, id, key);
    if calls != [] {
      var now := After(c, ms, calls[0]);
      CallKeepsHeld(c, ms, ws, calls[0]);
      CallKeepsPresence(c, ms, calls[0], id, key);
      if Present(now, id, key) {
        PresentIffStays(c, now, NextWindows(c, ms, ws, calls[0]), calls[1..], id, key);
      }
    }
  }

  lemma AheadIsFew(c: Suite, ms: seq<MemberState>, ws: map<U32, Window>, id: U32, key: Public)
    requires Held(c, ms, ws) && Present(ms, id, key)
    ensures |Ahead(ms, id)| < 5
  {
    AheadCounts(ms, id);
  }

  /** The other chains that some calls offer. */
  function Offers(calls: seq<Call>): set<U32> {
    if calls == [] then {}
    else (match Offered(calls[0]) case None => {} case Some(o) => {o.chainId}) + Offers(calls[1..])
  }

  /** No call announces the chain under this key. */
  predicate NotOffered(calls: seq<Call>, id: U32, key: Public) {
    forall call :: call in calls ==> Offered(call) != Some(Offer(id, key))
  }

  /** A member that is gone does not come back unless its chain is announced under its own key. */
  lemma AbsentStays(c: Suite, ms: seq<MemberState>, ws: map<U32, Window>, call: Call, id: U32, key: Public)
    requires Held(c, ms, ws) && ms != [] && !Present(ms, id, key) && Offered(call) != Some(Offer(id, key))
    ensures !Present(After(c, ms, call), id, key) && After(c, ms, call) != []
  {
    hide Tracks, Without, FirstUnder, AnnounceOf;
    var now := After(c, ms, call);
    match Offered(call) {
      case None =>
        KeepsOrder(c, ms, call);
        SameAhead(ms, now, id);
      case Some(o) =>
        FirstUnderMatches(ms, o.chainId, o.key);
        PresentIsFirstUnder(ms, id, key);
    }
  }

  lemma {:induction false} AbsentToTheEnd(c: Suite, ms: seq<MemberState>, ws: map<U32, Window>, calls: seq<Call>, id: U32, key: Public)
    requires Held(c, ms, ws) && ms != [] && !Present(ms, id, key) && NotOffered(calls, id, key)
    ensures !Present(Run(c, ms, calls), id, key)
    decreases |calls|
  {
    hide Tracks, After, NextWindows, Present, Offered;
    if calls != [] {
      assert calls[0] in calls;
      CallKeepsHeld(c, ms, ws, calls[0]);
      AbsentStays(c, ms, ws, calls[0], id, key);
      AbsentToTheEnd(c, After(c, ms, calls[0]), NextWindows(c, ms, ws, calls[0]), calls[1..], id, key);
    }
  }

  /**
   * Over any calls that do not announce the chain under its own key, the member is there in the end exactly
   * when it is there all along, which is when the calls keep it.
   */
  lemma {:induction false} PresentAfterIffStays(c: Suite, ms: seq<MemberState>, ws: map<U32, Window>, calls: seq<Call>, id: U32, key: Public)
    requires Held(c, ms, ws) && Present(ms, id, key) && NotOffered(calls, id, key)
    ensures Present(Run(c, ms, calls), id, key) <==> Stays(calls, id, key, Ahead(ms, id))
    decreases |calls|
  {
    hide Tracks, After, NextWindows, Ahead, Present, Offered;
    AheadIsFew(c, ms, ws, id, key);
    if calls != [] {
      var now, ws' := After(c, ms, calls[0]), NextWindows(c, ms, ws, calls[0]);
      assert calls[0] in calls;
      CallKeepsHeld(c, ms, ws, calls[0]);
      CallKeepsPresence(c, ms, calls[0], id, key);
      if Present(now, id, key) {
        PresentAfterIffStays(c, now, ws', calls[1..], id, key);
      } else {
        AdmittedSomeone(c, ms, calls[0], id, key);
        AbsentToTheEnd(c, now, ws', calls[1..], id, key);
      }
    }
  }

  /** Where the chain is not announced at all, keeping it is a matter of counting the others. */
  lemma {:induction false} StaysIffFewOthers(calls: seq<Call>, id: U32, key: Public, ahead: set<U32>)
    requires id !in Offers(calls)
    ensures Stays(calls, id, key, ahead) <==> |ahead + Offers(calls)| < 5
    ensures NotOffered(calls, id, key)
    decreases |calls|
  {
    hide Offered;
    Fewer(ahead, ahead + Offers(calls));
    if calls == [] {
      assert ahead + {} == ahead;
    } else {
      var next := match Offered(calls[0]) case None => ahead case Some(o) => ahead + {o.chainId};
      StaysIffFewOthers(calls[1..], id, key, next);
      assert next + Offers(calls[1..]) == ahead + Offers(calls);
    }
  }

  /**
   * Over any calls that do not announce the chain itself, the member is there in the end, and all along,
   * exactly when fewer than five other chains are ahead of it or admitted.
   */
  lemma PresentIffFewOthers(c: Suite, ms: seq<MemberState>, ws: map<U32, Window>, calls: seq<Call>, id: U32, key: Public)
    requires Held(c, ms, ws) && Present(ms, id, key) && id !in Offers(calls)
    ensures Present(Run(c, ms, calls), id, key) <==> |Ahead(ms, id) + Offers(calls)| < 5
    ensures Present(Run(c, ms, calls), id, key) ==> PresentThroughout(c, ms, calls, id, key)
  {
    hide Tracks, Ahead, Present, Stays, Run, PresentThroughout;
    StaysIffFewOthers(calls, id, key, Ahead(ms, id));
    PresentAfterIffStays(c, ms, ws, calls, id, key);
    PresentIffStays(c, ms, ws, calls, id, key);
  }

  lemma AdmittedSomeone(c: Suite, ms: seq<MemberState>, call: Call, id: U32, key: Public)
    requires UniqueIds(ms) && Present(ms, id, key) && !Present(After(c, ms, call), id, key)
    ensures Offered(call).Some? && After(c, ms, call) != []
  {
    hide Ahead, Present;
    CallKeepsPresence(c, ms, call, id, key);
  }

  lemma Fewer(a: set<U32>, b: set<U32>)
    requires a <= b
    ensures |a| <= |b|
  {
    assert b == a + (b - a);
  }

  /** No step is used twice while the calls in between keep the member. */
  lemma NoStepTwiceWhileKept(c: Suite, ms: seq<MemberState>, ws: map<U32, Window>, first: Call, between: seq<Call>, again: Call,
                             id: U32, key: Public, step: U32)
    requires Held(c, ms, ws) && Present(ms, id, key) && Stays([first] + between, id, key, Ahead(ms, id))
    requires Used(c, ms, first) == Some((id, step))
    ensures Used(c, Run(c, ms, [first] + between), again) != Some((id, step))
  {
    hide Tracks, Apply, Used, Ahead, Stays, Run;
    PresentIffStays(c, ms, ws, [first] + between, id, key);
    NoStepTwice(c, ms, ws, first, between, again, id, key, step);
  }

  /** Delivery from what the receiver is given alone: its calls keep the chain from its first admission on. */
  lemma DeliveredWhileKept(c: Suite, ms: seq<MemberState>, ws: map<U32, Window>, announce: Bytes, origin: Bytes32, calls: seq<Call>,
                           step: U32, plain: Bytes, data: Bytes)
    requires Lawful(c) && Held(c, ms, ws) && AnnounceOf(announce).Ok?
    requires var a := AnnounceOf(announce).value;
             && !Present(ms, a.chainId, a.signing)
             && a.seed == SeedAfter(c, origin, a.step)
             && Stays(calls, a.chainId, a.signing, {})
             && Honest(c, origin, a.chainId, a.signing, step, plain, data)
    ensures var a := AnnounceOf(announce).value;
            var joined := After(c, ms, AdmitCall(announce));
            Verdict(StartWindow(a.step, a.seed), History(c, joined, calls, a.chainId), step, plain,
                    Replies(c, Run(c, joined, calls), OpenCall(data)))
  {
    hide Tracks, SeedAfter, Honest, Verdict, History, AnnounceOf, Stays, Run, PresentThroughout, Replies;
    var a := AnnounceOf(announce).value;
    var joined := FirstAdmission(c, ms, ws, announce);
    InFront(ms, Cipher.FromAnnounce(a));
    PresentIffStays(c, After(c, ms, AdmitCall(announce)), joined, calls, a.chainId, a.signing);
    DeliveredNoteOpens(c, ms, ws, announce, origin, calls, step, plain, data);
  }

  // Forgetting

  function ChainOf(announce: Bytes): Option<U32> {
    match AnnounceOf(announce)
    case Ok(a) => Some(a.chainId)
    case Err(_) => None
  }

  /** Announcements that can be read, of chains that differ from each other and from this one. */
  predicate OtherChains(announces: seq<Bytes>, id: U32) {
    && (forall i :: 0 <= i < |announces| ==> ChainOf(announces[i]).Some? && ChainOf(announces[i]) != Some(id))
    && forall i, j :: 0 <= i < j < |announces| ==> ChainOf(announces[i]) != ChainOf(announces[j])
  }

  function Admissions(announces: seq<Bytes>): seq<Call> {
    if announces == [] then [] else [AdmitCall(announces[0])] + Admissions(announces[1..])
  }

  lemma OffersFront(announces: seq<Bytes>)
    requires announces != [] && ChainOf(announces[0]).Some?
    ensures Offers(Admissions(announces)) == {ChainOf(announces[0]).value} + Offers(Admissions(announces[1..]))
  {
    assert Admissions(announces)[1..] == Admissions(announces[1..]);
  }

  lemma {:induction false} OffersAll(announces: seq<Bytes>, id: U32)
    requires OtherChains(announces, id)
    ensures |Offers(Admissions(announces))| == |announces| && id !in Offers(Admissions(announces))
    ensures forall x :: x in Offers(Admissions(announces)) ==> exists i :: 0 <= i < |announces| && ChainOf(announces[i]) == Some(x)
  {
    hide ChainOf, Offers, Admissions;
    if announces == [] {
      NoOffers();
    } else {
      OffersFront(announces);
      OffersAll(announces[1..], id);
      var others := Offers(Admissions(announces[1..]));
      forall x | x in others ensures exists i :: 0 <= i < |announces| && ChainOf(announces[i]) == Some(x) {
        var i :| 0 <= i < |announces[1..]| && ChainOf(announces[1..][i]) == Some(x);
        assert ChainOf(announces[i + 1]) == Some(x);
      }
    }
  }

  lemma NoOffers()
    ensures Offers(Admissions([])) == {}
  {
  }

  /** Five other chains evict any member. */
  lemma FiveOthersEvict(c: Suite, ms: seq<MemberState>, ws: map<U32, Window>, announces: seq<Bytes>, id: U32, key: Public)
    requires Held(c, ms, ws) && Present(ms, id, key) && |announces| == 5 && OtherChains(announces, id)
    ensures !Present(Run(c, ms, Admissions(announces)), id, key)
  {
    hide Tracks, AnnounceOf, Run;
    OffersAll(announces, id);
    PresentIffFewOthers(c, ms, ws, Admissions(announces), id, key);
    Fewer(Offers(Admissions(announces)), Ahead(ms, id) + Offers(Admissions(announces)));
  }

  /** A used step is still used in the end, if the member is still there. */
  lemma UsedThroughout(c: Suite, ms: seq<MemberState>, ws: map<U32, Window>, first: Call, between: seq<Call>, id: U32, key: Public, step: U32)
    returns (after: map<U32, Window>)
    requires Held(c, ms, ws) && Used(c, ms, first) == Some((id, step))
    requires Present(Run(c, ms, [first] + between), id, key) ==> PresentThroughout(c, ms, [first] + between, id, key)
    ensures Held(c, Run(c, ms, [first] + between), after)
    ensures Present(Run(c, ms, [first] + between), id, key) ==> id in after && step in after[id].used
  {
    hide Tracks, Consume, NextWindows, Apply, Used, Present;
    var calls := [first] + between;
    assert calls[1..] == between;
    if Present(Run(c, ms, calls), id, key) {
      var left := NextWindows(c, ms, ws, first);
      UsedWasFree(c, ms, ws, first);
      CallKeepsHeld(c, ms, ws, first);
      after := RunConsumesHistory(c, After(c, ms, first), left, between, id, key);
      ConsumingKeepsUsed(left[id], History(c, After(c, ms, first), between, id), step);
    } else {
      after := RunKeepsHeld(c, ms, ws, calls);
    }
  }

  /**
   * A note opened once, any calls that do not announce its chain under its own key, then the chain's
   * announcement: the same note opens once more if and only if the calls in between did not keep the
   * member, and the step is in reach of the announcement.
   */
  lemma ReopensIffNotKept(c: Suite, ms: seq<MemberState>, ws: map<U32, Window>, between: seq<Call>, announce: Bytes, origin: Bytes32,
                          step: U32, plain: Bytes, data: Bytes)
    requires Lawful(c) && Held(c, ms, ws) && AnnounceOf(announce).Ok?
    requires var a := AnnounceOf(announce).value;
             && a.seed == SeedAfter(c, origin, a.step)
             && Honest(c, origin, a.chainId, a.signing, step, plain, data)
             && Present(ms, a.chainId, a.signing) && NotOffered(between, a.chainId, a.signing)
             && Used(c, ms, OpenCall(data)) == Some((a.chainId, step))
    ensures var a := AnnounceOf(announce).value;
            var left := Run(c, ms, [OpenCall(data)] + between);
            Used(c, After(c, left, AdmitCall(announce)), OpenCall(data)) == Some((a.chainId, step)) <==>
            !Stays(between, a.chainId, a.signing, Ahead(ms, a.chainId)) && InReach(a.step, step)
  {
    hide Tracks, Consume, SeedAfter, Honest, AnnounceOf, NextWindows, Apply, Ahead, Present, Used;
    var a := AnnounceOf(announce).value;
    var calls := [OpenCall(data)] + between;
    assert calls[1..] == between;
    assert NotOffered(calls, a.chainId, a.signing);
    AheadIsFew(c, ms, ws, a.chainId, a.signing);
    PresentAfterIffStays(c, ms, ws, calls, a.chainId, a.signing);
    PresentIffStays(c, ms, ws, calls, a.chainId, a.signing);
    var left := Run(c, ms, calls);
    var ws' := UsedThroughout(c, ms, ws, OpenCall(data), between, a.chainId, a.signing, step);
    ReopensOnlyWhenForgotten(c, left, ws', announce, origin, step, plain, data);
  }

  /** Where the chain is not announced at all in between: if and only if five others are ahead or admitted. */
  lemma ReopensIffCrowdedOut(c: Suite, ms: seq<MemberState>, ws: map<U32, Window>, between: seq<Call>, announce: Bytes, origin: Bytes32,
                             step: U32, plain: Bytes, data: Bytes)
    requires Lawful(c) && Held(c, ms, ws) && AnnounceOf(announce).Ok?
    requires var a := AnnounceOf(announce).value;
             && a.seed == SeedAfter(c, origin, a.step)
             && Honest(c, origin, a.chainId, a.signing, step, plain, data)
             && Present(ms, a.chainId, a.signing) && a.chainId !in Offers(between)
             && Used(c, ms, OpenCall(data)) == Some((a.chainId, step))
    ensures var a := AnnounceOf(announce).value;
            var left := Run(c, ms, [OpenCall(data)] + between);
            Used(c, After(c, left, AdmitCall(announce)), OpenCall(data)) == Some((a.chainId, step)) <==>
            |Ahead(ms, a.chainId) + Offers(between)| >= 5 && InReach(a.step, step)
  {
    hide Tracks, SeedAfter, Honest, AnnounceOf, After, Ahead, Present, Used, Stays, Run, NotOffered;
    var a := AnnounceOf(announce).value;
    StaysIffFewOthers(between, a.chainId, a.signing, Ahead(ms, a.chainId));
    ReopensIffNotKept(c, ms, ws, between, announce, origin, step, plain, data);
  }

  /** One way to be forgotten: open the note, admit five other chains, admit its chain again. */
  lemma ForgottenStepReopens(c: Suite, ms: seq<MemberState>, ws: map<U32, Window>, others: seq<Bytes>, announce: Bytes, origin: Bytes32,
                             step: U32, plain: Bytes, data: Bytes)
    requires Lawful(c) && Held(c, ms, ws) && AnnounceOf(announce).Ok?
    requires var a := AnnounceOf(announce).value;
             && a.seed == SeedAfter(c, origin, a.step)
             && InReach(a.step, step)
             && Honest(c, origin, a.chainId, a.signing, step, plain, data)
             && Present(ms, a.chainId, a.signing)
             && Used(c, ms, OpenCall(data)) == Some((a.chainId, step))
             && |others| == 5 && OtherChains(others, a.chainId)
    ensures var left := Run(c, ms, [OpenCall(data)] + Admissions(others));
            Used(c, After(c, left, AdmitCall(announce)), OpenCall(data)) == Some((AnnounceOf(announce).value.chainId, step))
  {
    hide Tracks, SeedAfter, Honest, AnnounceOf, Used, Run, After, Ahead, Present, OtherChains;
    var id := AnnounceOf(announce).value.chainId;
    OffersAll(others, id);
    Fewer(Offers(Admissions(others)), Ahead(ms, id) + Offers(Admissions(others)));
    ReopensIffCrowdedOut(c, ms, ws, Admissions(others), announce, origin, step, plain, data);
  }

  /** The other way, with no other chain at all: admit the same chain under another key in between. */
  lemma SwappedKeyReopens(c: Suite, ms: seq<MemberState>, ws: map<U32, Window>, swap: Bytes, announce: Bytes, origin: Bytes32,
                          step: U32, plain: Bytes, data: Bytes)
    requires Lawful(c) && Held(c, ms, ws) && AnnounceOf(announce).Ok? && AnnounceOf(swap).Ok?
    requires var a, other := AnnounceOf(announce).value, AnnounceOf(swap).value;
             && other.chainId == a.chainId && other.signing != a.signing
             && a.seed == SeedAfter(c, origin, a.step)
             && InReach(a.step, step)
             && Honest(c, origin, a.chainId, a.signing, step, plain, data)
             && Present(ms, a.chainId, a.signing)
             && Used(c, ms, OpenCall(data)) == Some((a.chainId, step))
    ensures var left := Run(c, ms, [OpenCall(data)] + [AdmitCall(swap)]);
            Used(c, After(c, left, AdmitCall(announce)), OpenCall(data)) == Some((AnnounceOf(announce).value.chainId, step))
  {
    hide Tracks, SeedAfter, Honest, AnnounceOf, Used, Run, After, Ahead, Present;
    ReopensIffNotKept(c, ms, ws, [AdmitCall(swap)], announce, origin, step, plain, data);
  }
}
