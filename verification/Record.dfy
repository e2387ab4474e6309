/** What a device keeps about one sender: up to five members, newest first, each with its kept keys. */
module Records {
  import opened Basics
  import opened Suites
  import opened Chains

  const MAX_MEMBERS := 5
  const MAX_SKIPPED := 2000
  const MAX_FORWARD_JUMP := 25_000
  const CURRENT_VERSION: U32 := 3

  /** A member's value: what its record holds. */
  datatype MemberState = MemberState(
    version: U32,
    chainId: U32,
    link: Link,
    signing: Public,
    secret: Option<Secret>,
    skipped: seq<Yield>)

  // Kept keys

  /** The last `n` of a list, or all of it. */
  function Newest<T>(n: nat, s: seq<T>): (r: seq<T>)
    ensures |r| == if |s| <= n then |s| else n
  {
    if |s| <= n then s else s[|s| - n..]
  }

  /** Where a step is kept, as the first match of a forward search. */
  function FindStep(ys: seq<Yield>, step: U32): (at: Option<nat>)
    ensures at.Some? ==> at.value < |ys| && ys[at.value].step == step
    ensures at.Some? ==> forall i :: 0 <= i < at.value ==> ys[i].step != step
    ensures at.None? ==> forall y :: y in ys ==> y.step != step
  {
    if ys == [] then None
    else if ys[0].step == step then Some(0)
    else
      match FindStep(ys[1..], step)
      case None => None
      case Some(i) => Some(i + 1)
  }

  function RemoveAt<T>(s: seq<T>, i: nat): seq<T>
    requires i < |s|
  {
    s[..i] + s[i + 1..]
  }

  // Admission

  function Without(ms: seq<MemberState>, chainId: U32): (r: seq<MemberState>)
    ensures |r| <= |ms|
    ensures forall m :: m in r <==> m in ms && m.chainId != chainId
  {
    if ms == [] then []
    else
      var front := Without(ms[..|ms| - 1], chainId);
      var last := ms[|ms| - 1];
      assert ms == ms[..|ms| - 1] + [last];
      if last.chainId == chainId then front else front + [last]
  }

  /** The first member of the chain under this signing key. */
  function FirstUnder(ms: seq<MemberState>, chainId: U32, signing: Public): Option<MemberState> {
    if ms == [] then None
    else
      var front := FirstUnder(ms[..|ms| - 1], chainId, signing);
      var last := ms[|ms| - 1];
      if front.Some? then front
      else if last.chainId == chainId && last.signing == signing then Some(last)
      else None
  }

  /** A known chain keeps its keys; the chain goes to the front and four others stay behind it. */
  function Admitted(ms: seq<MemberState>, offered: MemberState): seq<MemberState> {
    var member := match FirstUnder(ms, offered.chainId, offered.signing) case Some(m) => m case None => offered;
    var others := Without(ms, offered.chainId);
    [member] + if |others| < MAX_MEMBERS then others else others[..MAX_MEMBERS - 1]
  }

  function IndexOf(ms: seq<MemberState>, chainId: U32): (at: Option<nat>)
    ensures at.Some? ==> at.value < |ms| && ms[at.value].chainId == chainId
    ensures at.Some? ==> forall i :: 0 <= i < at.value ==> ms[i].chainId != chainId
    ensures at.None? ==> forall m :: m in ms ==> m.chainId != chainId
  {
    if ms == [] then None
    else if ms[0].chainId == chainId then Some(0)
    else
      match IndexOf(ms[1..], chainId)
      case None => None
      case Some(i) => Some(i + 1)
  }

  // The objects

  class Member {
    const version: U32
    const chainId: U32
    const signing: Public
    const secret: Option<Secret>
    var link: Link
    var skipped: seq<Yield>

    constructor (s: MemberState)
      ensures State() == s
    {
      version, chainId, signing, secret := s.version, s.chainId, s.signing, s.secret;
      link, skipped := s.link, s.skipped;
    }

    function State(): MemberState
      reads this
    {
      MemberState(version, chainId, link, signing, secret, skipped)
    }

    /** Appends a key, then drops the oldest while there are too many. */
    method KeepSkipped(y: Yield)
      modifies this`skipped
      ensures skipped == Newest(MAX_SKIPPED, old(skipped) + [y])
    {
      skipped := skipped + [y];
      ghost var all := skipped;
      while |skipped| > MAX_SKIPPED
        invariant |skipped| <= |all| && skipped == all[|all| - |skipped|..]
        invariant |all| <= MAX_SKIPPED ==> skipped == all
        invariant |all| > MAX_SKIPPED ==> |skipped| >= MAX_SKIPPED
      {
        skipped := skipped[1..];
      }
    }

    method TakeSkipped(step: U32) returns (y: Option<Yield>)
      modifies this`skipped
      ensures match FindStep(old(skipped), step) {
                case None => y == None && skipped == old(skipped)
                case Some(i) => y == Some(old(skipped)[i]) && skipped == RemoveAt(old(skipped), i)
              }
    {
      for i := 0 to |skipped|
        invariant skipped == old(skipped)
        invariant forall k :: 0 <= k < i ==> skipped[k].step != step
      {
        if skipped[i].step == step {
          y := Some(skipped[i]);
          skipped := RemoveAt(skipped, i);
          return;
        }
      }
      return None;
    }
  }

  function StatesOf(ms: seq<Member>): (r: seq<MemberState>)
    reads ms
    ensures |r| == |ms|
    ensures forall i :: 0 <= i < |ms| ==> r[i] == ms[i].State()
  {
    if ms == [] then [] else StatesOf(ms[..|ms| - 1]) + [ms[|ms| - 1].State()]
  }

  ghost predicate Distinct(ms: seq<Member>) {
    forall i, j :: 0 <= i < j < |ms| ==> ms[i] != ms[j]
  }

  /** The objects of the members that are not on this chain, in order. */
  ghost function Others(ms: seq<Member>, chainId: U32): seq<Member> {
    if ms == [] then []
    else
      var front, last := Others(ms[..|ms| - 1], chainId), ms[|ms| - 1];
      if last.chainId == chainId then front else front + [last]
  }

  lemma {:induction false} OthersElsewhere(ms: seq<Member>, chainId: U32)
    ensures forall m :: m in Others(ms, chainId) ==> m in ms && m.chainId != chainId
  {
    if ms != [] {
      OthersElsewhere(ms[..|ms| - 1], chainId);
    }
  }

  lemma {:induction false} OthersStates(ms: seq<Member>, chainId: U32)
    ensures StatesOf(Others(ms, chainId)) == Without(StatesOf(ms), chainId)
  {
    if ms != [] {
      var n := |ms| - 1;
      OthersStates(ms[..n], chainId);
    }
  }

  lemma {:induction false} OthersDistinct(ms: seq<Member>, chainId: U32)
    requires Distinct(ms)
    ensures Distinct(Others(ms, chainId))
  {
    if ms != [] {
      var n := |ms| - 1;
      OthersDistinct(ms[..n], chainId);
      OthersElsewhere(ms[..n], chainId);
    }
  }

  /** Putting the kept or new member before the first others gives the admitted list. */
  lemma AdmitsInFront(all: seq<Member>, offered: MemberState, member: Member, front: seq<Member>)
    requires Distinct(all)
    requires |front| <= |Others(all, offered.chainId)| && front == Others(all, offered.chainId)[..|front|]
    requires |front| == if |Others(all, offered.chainId)| < MAX_MEMBERS then |Others(all, offered.chainId)| else MAX_MEMBERS - 1
    requires member.State() == match FirstUnder(StatesOf(all), offered.chainId, offered.signing) {
                                 case Some(s) => s
                                 case None => offered
                               }
    ensures StatesOf([member] + front) == Admitted(StatesOf(all), offered)
    ensures Distinct([member] + front)
  {
    hide FirstUnder, Others, Without, StatesOf;
    var others := Others(all, offered.chainId);
    OthersDistinct(all, offered.chainId);
    OthersStates(all, offered.chainId);
    FirstUnderMatches(StatesOf(all), offered.chainId, offered.signing);
    StatesOfPrefix(others, |front|);
    StatesOfCons(member, front);
  }

  lemma OthersStep(ms: seq<Member>, j: nat, chainId: U32)
    requires j < |ms|
    ensures Others(ms[..j + 1], chainId) ==
            if ms[j].chainId == chainId then Others(ms[..j], chainId) else Others(ms[..j], chainId) + [ms[j]]
  {
    assert ms[..j + 1][..j] == ms[..j];
  }

  lemma FirstUnderStep(ms: seq<Member>, j: nat, chainId: U32, signing: Public)
    requires j < |ms|
    ensures FirstUnder(StatesOf(ms[..j + 1]), chainId, signing) ==
            var front := FirstUnder(StatesOf(ms[..j]), chainId, signing);
            if front.Some? then front
            else if ms[j].chainId == chainId && ms[j].signing == signing then Some(ms[j].State())
            else None
  {
    assert StatesOf(ms[..j + 1])[..j] == StatesOf(ms[..j]);
  }

  class Circle {
    /** Newest first. */
    var members: seq<Member>

    constructor ()
      ensures Valid() && members == []
    {
      members := [];
    }

    ghost predicate Valid()
      reads this
    {
      Distinct(members)
    }

    function States(): seq<MemberState>
      reads this, members
    {
      StatesOf(members)
    }

    method ByChain(chainId: U32) returns (m: Member?)
      ensures match IndexOf(States(), chainId) {
                case None => m == null
                case Some(i) => m == members[i]
              }
    {
      for i := 0 to |members|
        invariant forall k :: 0 <= k < i ==> members[k].chainId != chainId
      {
        if members[i].chainId == chainId {
          return members[i];
        }
      }
      return null;
    }

    /**
     * Takes the chain's members out in place and returns the first one under the same key.
     */
    method TakeChain(chainId: U32, signing: Public) returns (kept: Member?)
      modifies this
      ensures members == Others(old(members), chainId)
      ensures match FirstUnder(old(States()), chainId, signing) {
                case None => kept == null
                case Some(s) => kept != null && kept in old(members) && kept.State() == s
              }
    {
      hide Others, StatesOf, FirstUnder, Without, RemoveAt;
      ghost var all, j := members, 0;
      OthersNone(all, chainId, signing);
      kept := null;
      var i := 0;
      while i < |members|
        invariant j <= |all| && i == |Others(all[..j], chainId)|
        invariant members == Others(all[..j], chainId) + all[j..]
        invariant match FirstUnder(StatesOf(all[..j]), chainId, signing) {
                    case None => kept == null
                    case Some(s) => kept != null && kept in all && kept.State() == s
                  }
        decreases |members| - i
      {
        var m := members[i];
        ghost var front := Others(all[..j], chainId);
        MovesPast(front, all, j);
        OthersStep(all, j, chainId);
        FirstUnderStep(all, j, chainId, signing);
        FirstUnderMatches(StatesOf(all[..j]), chainId, signing);
        if m.chainId == chainId {
          if kept == null && m.signing == signing {
            kept := m;
          }
          members := RemoveAt(members, i);
        } else {
          i := i + 1;
        }
        j := j + 1;
      }
      assert all[..j] == all;
    }

    /** A chain already known keeps its keys; the list holds the newest five. */
    method Admit(offered: MemberState)
      requires Valid()
      modifies this
      ensures Valid()
      ensures States() == Admitted(old(States()), offered)
      ensures forall m :: m in members ==> m in old(members) || fresh(m)
    {
      hide FirstUnder, Others, StatesOf, Admitted;
      ghost var all := members;
      var kept := TakeChain(offered.chainId, offered.signing);
      ghost var others := members;
      var member: Member;
      if kept == null {
        member := new Member(offered);
      } else {
        member := kept;
      }
      ghost var state := member.State();
      while |members| >= MAX_MEMBERS
        invariant member.State() == state
        invariant |members| <= |others| && members == others[..|members|]
        invariant |others| < MAX_MEMBERS ==> members == others
        invariant |others| >= MAX_MEMBERS ==> |members| >= MAX_MEMBERS - 1
      {
        members := members[..|members| - 1];
      }
      OthersElsewhere(all, offered.chainId);
      assert forall m :: m in members ==> m in others;
      AdmitsInFront(all, offered, member, members);
      members := [member] + members;
    }
  }

  /** Removing or stepping over the element after `front`. */
  lemma MovesPast<T>(front: seq<T>, all: seq<T>, j: nat)
    requires j < |all|
    ensures (front + all[j..])[|front|] == all[j]
    ensures RemoveAt(front + all[j..], |front|) == front + all[j + 1..]
    ensures front + all[j..] == (front + [all[j]]) + all[j + 1..]
  {
  }

  lemma OthersNone(ms: seq<Member>, chainId: U32, signing: Public)
    ensures Others(ms[..0], chainId) == []
    ensures FirstUnder(StatesOf(ms[..0]), chainId, signing) == None
  {
  }

  lemma {:induction false} FirstUnderMatches(ms: seq<MemberState>, chainId: U32, signing: Public)
    ensures match FirstUnder(ms, chainId, signing) {
              case Some(m) => m in ms && m.chainId == chainId && m.signing == signing
              case None => forall m :: m in ms ==> m.chainId != chainId || m.signing != signing
            }
  {
    if ms != [] {
      FirstUnderMatches(ms[..|ms| - 1], chainId, signing);
    }
  }

  lemma StatesOfPrefix(ms: seq<Member>, n: nat)
    requires n <= |ms|
    ensures StatesOf(ms[..n]) == StatesOf(ms)[..n]
  {
  }

  lemma StatesOfCons(m: Member, ms: seq<Member>)
    ensures StatesOf([m] + ms) == [m.State()] + StatesOf(ms)
  {
  }
}
