/** Which chains a circle holds after any history of calls: the five most recently admitted. */
module Admission {
  import opened Basics
  import opened Suites
  import opened Records
  import opened Posts
  import opened Calls
  import Cipher

  function Ids(ms: seq<MemberState>): (ids: seq<U32>)
    ensures |ids| == |ms|
    ensures forall i :: 0 <= i < |ms| ==> ids[i] == ms[i].chainId
  {
    seq(|ms|, i requires 0 <= i < |ms| => ms[i].chainId)
  }

  /** The chain id a call admits, if it admits one. */
  function Admits(c: Suite, ms: seq<MemberState>, call: Call): Option<U32> {
    match call
    case AdmitCall(data) => (
      match AnnounceOf(data)
      case Ok(a) => Some(a.chainId)
      case Err(_) => None)
    case AnnounceCall(_, e) => if ms == [] && Apply(c, ms, call).Ok? then Some(e.chainId) else None
    case _ => None
  }

  /** The ids a run admitted, in order, repeats included. */
  function AdmittedIds(c: Suite, ms: seq<MemberState>, calls: seq<Call>): seq<U32>
    decreases |calls|
  {
    if calls == [] then []
    else
      var rest := AdmittedIds(c, After(c, ms, calls[0]), calls[1..]);
      match Admits(c, ms, calls[0])
      case None => rest
      case Some(id) => [id] + rest
  }

  /** When an id was last admitted, or minus one. */
  function LastAt(history: seq<U32>, id: U32): (at: int)
    ensures -1 <= at < |history|
    ensures at >= 0 <==> id in history
    ensures at >= 0 ==> history[at] == id
  {
    if history == [] then -1
    else if history[|history| - 1] == id then |history| - 1
    else
      assert history == history[..|history| - 1] + [history[|history| - 1]];
      LastAt(history[..|history| - 1], id)
  }

  /**
   * The ids held are admitted ones, most recent first, at most five; an admitted id that is not held
   * was last admitted before all of five that are.
   */
  ghost predicate MostRecent(held: seq<U32>, history: seq<U32>) {
    && |held| <= 5
    && (forall id :: id in held ==> id in history)
    && (forall i, j :: 0 <= i < j < |held| ==> LastAt(history, held[i]) > LastAt(history, held[j]))
    && (forall id :: id in history && id !in held ==>
          |held| == 5 && LastAt(history, held[4]) > LastAt(history, id))
  }

  /** What the list does to its ids: out with the id, four of the others stay, the id goes in front. */
  function MovedToFront(held: seq<U32>, id: U32): seq<U32> {
    var others := Except(held, id);
    [id] + if |others| < MAX_MEMBERS then others else others[..MAX_MEMBERS - 1]
  }

  function Except(ids: seq<U32>, id: U32): (r: seq<U32>)
    ensures |r| <= |ids|
    ensures forall x :: x in r <==> x in ids && x != id
  {
    if ids == [] then []
    else
      var front, last := Except(ids[..|ids| - 1], id), ids[|ids| - 1];
      assert ids == ids[..|ids| - 1] + [last];
      if last == id then front else front + [last]
  }

  lemma {:induction false} WithoutIds(ms: seq<MemberState>, id: U32)
    ensures Ids(Without(ms, id)) == Except(Ids(ms), id)
  {
    if ms != [] {
      var n := |ms| - 1;
      WithoutIds(ms[..n], id);
      assert Ids(ms)[..n] == Ids(ms[..n]);
    }
  }

  /** The in-place removal and insertion moves the offered id to the front. */
  lemma AdmittedMovesToFront(ms: seq<MemberState>, offered: MemberState)
    ensures Ids(Admitted(ms, offered)) == MovedToFront(Ids(ms), offered.chainId)
  {
    hide Without, Except, FirstUnder;
    FirstUnderMatches(ms, offered.chainId, offered.signing);
    WithoutIds(ms, offered.chainId);
  }

  /** A call that admits nothing leaves every id where it is. */
  lemma IdsAfter(c: Suite, ms: seq<MemberState>, call: Call)
    ensures Ids(After(c, ms, call)) ==
            match Admits(c, ms, call) { case Some(id) => MovedToFront(Ids(ms), id) case None => Ids(ms) }
  {
    hide MovedToFront, Admitted;
    match call {
      case AdmitCall(data) =>
        if AnnounceOf(data).Ok? {
          AdmittedMovesToFront(ms, Cipher.FromAnnounce(AnnounceOf(data).value));
        }
      case AnnounceCall(_, e) =>
        if ms == [] && c.publicOf(e.secret).Some? {
          AdmittedMovesToFront(ms, Cipher.OwnChain(e, c.publicOf(e.secret).value));
        }
      case _ =>
    }
  }

  /** Filtering keeps the order of what it keeps. */
  lemma {:induction false} ExceptKeepsOrder(ids: seq<U32>, id: U32, history: seq<U32>)
    requires forall i, j :: 0 <= i < j < |ids| ==> LastAt(history, ids[i]) > LastAt(history, ids[j])
    ensures var r := Except(ids, id);
            forall i, j :: 0 <= i < j < |r| ==> LastAt(history, r[i]) > LastAt(history, r[j])
    ensures |Except(ids, id)| >= |ids| - 1
    ensures id !in ids ==> Except(ids, id) == ids
  {
    hide LastAt;
    if ids != [] {
      var n := |ids| - 1;
      ExceptKeepsOrder(ids[..n], id, history);
      var front := Except(ids[..n], id);
      if ids[n] == id {
        forall i | 0 <= i < n ensures ids[i] != id {
        }
      } else {
        forall i | 0 <= i < |front| ensures LastAt(history, front[i]) > LastAt(history, ids[n]) {
          assert front[i] in front;
          var k :| 0 <= k < n && ids[k] == front[i];
        }
      }
    }
  }

  /** With five held, the last of the four kept behind a newcomer is no older than the fifth. */
  lemma LastBehind(held: seq<U32>, history: seq<U32>, id: U32)
    requires MostRecent(held, history) && |held| == MAX_MEMBERS
    ensures var others := Except(held, id);
            && |others| >= MAX_MEMBERS - 1
            && LastAt(history, others[MAX_MEMBERS - 2]) >= LastAt(history, held[MAX_MEMBERS - 1])
  {
    hide LastAt, Except;
    var others := Except(held, id);
    ExceptKeepsOrder(held, id, history);
    var k :| 0 <= k < |held| && held[k] == others[MAX_MEMBERS - 2];
  }

  lemma AllGrow(history: seq<U32>, id: U32)
    ensures forall x :: LastAt(history + [id], x) == if x == id then |history| else LastAt(history, x)
  {
  }

  lemma MovedIsOrdered(held: seq<U32>, history: seq<U32>, id: U32)
    requires MostRecent(held, history)
    ensures var after := MovedToFront(held, id);
            forall i, j :: 0 <= i < j < |after| ==> LastAt(history + [id], after[i]) > LastAt(history + [id], after[j])
  {
    hide LastAt, Except;
    var after := MovedToFront(held, id);
    ExceptKeepsOrder(held, id, history);
    AllGrow(history, id);
    forall i, j | 0 <= i < j < |after|
      ensures LastAt(history + [id], after[i]) > LastAt(history + [id], after[j])
    {
    }
  }

  /** An admitted id left out after a newcomer is older than the last one kept. */
  lemma LeftOutIsOlder(held: seq<U32>, history: seq<U32>, id: U32, x: U32)
    requires MostRecent(held, history) && x in history && x !in MovedToFront(held, id)
    ensures var after := MovedToFront(held, id);
            |after| == MAX_MEMBERS && LastAt(history, after[MAX_MEMBERS - 1]) > LastAt(history, x) && after[MAX_MEMBERS - 1] != id
  {
    hide LastAt, Except;
    var others := Except(held, id);
    ExceptKeepsOrder(held, id, history);
    if x in others {
      var k :| 0 <= k < |others| && others[k] == x;
    } else {
      LastBehind(held, history, id);
    }
  }

  /** One admission keeps the list of the most recent. */
  lemma MovingKeepsRecency(held: seq<U32>, history: seq<U32>, id: U32)
    requires MostRecent(held, history)
    ensures MostRecent(MovedToFront(held, id), history + [id])
  {
    hide LastAt;
    var after := MovedToFront(held, id);
    MovedIsOrdered(held, history, id);
    MovedIsKnown(held, history, id);
    AllGrow(history, id);
    forall x | x in history + [id] && x !in after
      ensures |after| == MAX_MEMBERS && LastAt(history + [id], after[MAX_MEMBERS - 1]) > LastAt(history + [id], x)
    {
      LeftOutIsOlder(held, history, id, x);
    }
  }

  lemma MovedIsKnown(held: seq<U32>, history: seq<U32>, id: U32)
    requires MostRecent(held, history)
    ensures var after := MovedToFront(held, id);
            |after| <= MAX_MEMBERS && forall x :: x in after ==> x in history + [id]
  {
  }

  lemma {:induction false} RunKeepsRecency(c: Suite, ms: seq<MemberState>, calls: seq<Call>, history: seq<U32>)
    requires MostRecent(Ids(ms), history)
    ensures MostRecent(Ids(Run(c, ms, calls)), history + AdmittedIds(c, ms, calls))
    decreases |calls|
  {
    hide MostRecent, Apply, After, Admits, Ids;
    if calls == [] {
      assert history + [] == history;
    } else {
      IdsAfter(c, ms, calls[0]);
      var next := After(c, ms, calls[0]);
      match Admits(c, ms, calls[0]) {
        case None =>
          RunKeepsRecency(c, next, calls[1..], history);
        case Some(id) =>
          MovingKeepsRecency(Ids(ms), history, id);
          RunKeepsRecency(c, next, calls[1..], history + [id]);
          assert history + [id] + AdmittedIds(c, next, calls[1..]) == history + ([id] + AdmittedIds(c, next, calls[1..]));
      }
    }
  }

  /**
   * After any run of calls from an empty circle, the chains held are exactly the five most recently
   * admitted distinct ones, most recent first; opening and sealing never reorder or drop one.
   */
  lemma HeldAreMostRecent(c: Suite, calls: seq<Call>)
    ensures MostRecent(Ids(Run(c, [], calls)), AdmittedIds(c, [], calls))
  {
    RunKeepsRecency(c, [], calls, []);
    assert [] + AdmittedIds(c, [], calls) == AdmittedIds(c, [], calls);
  }
}
