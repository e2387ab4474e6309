/**
 * A member seen from outside: where its chain was announced, how far it has gone, which steps were
 * opened, and the lowest step it still answers for. The kept keys are then a function of these.
 */
module Windows {
  import opened Basics
  import opened Suites
  import opened Chains
  import opened Records
  import opened Cipher

  datatype Window = Window(base: U32, seed: Bytes32, floor: U32, next: U32, used: set<U32>)

  /** The steps in a range that were not opened, lowest first. */
  function Unopened(lo: U32, hi: U32, used: set<U32>): (r: seq<U32>)
    ensures |r| <= if lo < hi then hi - lo else 0
  {
    if lo >= hi then []
    else if hi - 1 in used then Unopened(lo, hi - 1, used)
    else Unopened(lo, hi - 1, used) + [hi - 1]
  }

  /** Where the window starts once every step before `step` is passed and only the newest are kept. */
  function FloorAfter(w: Window, step: U32): U32 {
    var u := Unopened(w.floor, step, w.used);
    if |u| <= MAX_SKIPPED then w.floor else u[|u| - MAX_SKIPPED]
  }

  /** Why a step cannot be opened, if it cannot. */
  function Refusal(w: Window, step: U32): Option<Fault> {
    if step < w.next then
      if step < w.floor || step in w.used then Some(Replay) else None
    else if step - w.next > MAX_FORWARD_JUMP then Some(BadMessage)
    else if step == LAST_STEP then Some(Trap)
    else None
  }

  /** The window once a step it does not refuse was used; the last step is always refused. */
  function Consume(w: Window, step: U32): Window {
    if step < w.next then w.(used := w.used + {step})
    else if step == LAST_STEP then w
    else w.(floor := FloorAfter(w, step), next := step + 1, used := w.used + {step})
  }

  function StartWindow(step: U32, seed: Bytes32): Window {
    Window(step, seed, step, step, {})
  }

  predicate Sound(w: Window) {
    && w.base <= w.floor <= w.next
    && (forall s :: s in w.used ==> w.base <= s < w.next)
    && |Unopened(w.floor, w.next, w.used)| <= MAX_SKIPPED
  }

  /** The yield of a step: the announced seed stepped that far. */
  function KeyOf(c: Suite, w: Window, step: U32): Yield {
    Yield(step, c.chainSeed(SeedAfter(c, w.seed, if w.base <= step then step - w.base else 0)))
  }

  function KeysOf(c: Suite, w: Window, steps: seq<U32>): (ys: seq<Yield>)
    ensures |ys| == |steps|
    ensures forall i :: 0 <= i < |steps| ==> ys[i] == KeyOf(c, w, steps[i])
  {
    seq(|steps|, i requires 0 <= i < |steps| => KeyOf(c, w, steps[i]))
  }

  /** The member's link and kept keys are exactly what the window says. */
  ghost predicate Tracks(c: Suite, m: MemberState, w: Window) {
    && Sound(w)
    && m.link == Link(w.next, SeedAfter(c, w.seed, w.next - w.base))
    && m.skipped == KeysOf(c, w, Unopened(w.floor, w.next, w.used))
  }

  // Facts about ranges

  lemma {:induction false} UnopenedIs(lo: U32, hi: U32, used: set<U32>, s: U32)
    ensures s in Unopened(lo, hi, used) <==> lo <= s < hi && s !in used
  {
    if lo < hi {
      UnopenedIs(lo, hi - 1, used, s);
    }
  }

  ghost predicate Increasing(u: seq<U32>, lo: U32, hi: U32, used: set<U32>) {
    && (forall i :: 0 <= i < |u| ==> lo <= u[i] < hi && u[i] !in used)
    && (forall i, j :: 0 <= i < j < |u| ==> u[i] < u[j])
  }

  lemma {:induction false} UnopenedIncreases(lo: U32, hi: U32, used: set<U32>)
    ensures Increasing(Unopened(lo, hi, used), lo, hi, used)
  {
    if lo < hi {
      UnopenedIncreases(lo, hi - 1, used);
    }
  }

  lemma {:induction false} UnopenedSplits(lo: U32, mid: U32, hi: U32, used: set<U32>)
    requires lo <= mid <= hi
    ensures Unopened(lo, hi, used) == Unopened(lo, mid, used) + Unopened(mid, hi, used)
    decreases hi
  {
    if mid < hi {
      UnopenedSplits(lo, mid, hi - 1, used);
    }
  }

  /** Opening a step outside the range changes nothing in it. */
  lemma {:induction false} UnopenedIgnores(lo: U32, hi: U32, used: set<U32>, step: U32)
    requires step < lo || step >= hi
    ensures Unopened(lo, hi, used + {step}) == Unopened(lo, hi, used)
  {
    if lo < hi {
      UnopenedIgnores(lo, hi - 1, used, step);
    }
  }

  /** A range nobody opened anything in. */
  lemma {:induction false} UntouchedRange(lo: U32, hi: U32, used: set<U32>)
    requires lo <= hi && forall s :: s in used ==> s < lo
    ensures var u := Unopened(lo, hi, used);
            |u| == hi - lo && forall i :: 0 <= i < hi - lo ==> u[i] == lo + i
    decreases hi - lo
  {
    if lo < hi {
      UntouchedRange(lo, hi - 1, used);
    }
  }

  /** From its k-th unopened step on, a range has just the later ones. */
  lemma UnopenedFrom(lo: U32, hi: U32, used: set<U32>, k: nat)
    requires k < |Unopened(lo, hi, used)|
    ensures var u := Unopened(lo, hi, used);
            && lo <= u[k] < hi && u[k] !in used
            && Unopened(lo, u[k], used) == u[..k]
            && Unopened(u[k], hi, used) == u[k..]
  {
    hide Unopened;
    var u := Unopened(lo, hi, used);
    var at := u[k];
    UnopenedIncreases(lo, hi, used);
    UnopenedSplits(lo, at, hi, used);
    UnopenedSplits(at, at + 1, hi, used);
    JustOne(at, used);
    var below, above := Unopened(lo, at, used), Unopened(at, hi, used);
    assert above[0] == at && u[|below|] == at;
  }

  lemma JustOne(s: U32, used: set<U32>)
    requires s < LAST_STEP
    ensures Unopened(s, s + 1, used) == if s in used then [] else [s]
  {
  }

  /** Opening the k-th unopened step takes it out and leaves the others in place. */
  lemma UnopenedRemoves(lo: U32, hi: U32, used: set<U32>, k: nat)
    requires k < |Unopened(lo, hi, used)|
    ensures var u := Unopened(lo, hi, used);
            Unopened(lo, hi, used + {u[k]}) == RemoveAt(u, k)
  {
    hide Unopened;
    var u := Unopened(lo, hi, used);
    var at := u[k];
    UnopenedFrom(lo, hi, used, k);
    UnopenedSplits(lo, at, hi, used + {at});
    UnopenedSplits(at, at + 1, hi, used + {at});
    UnopenedSplits(at, at + 1, hi, used);
    JustOne(at, used);
    JustOne(at, used + {at});
    UnopenedIgnores(lo, at, used, at);
    UnopenedIgnores(at + 1, hi, used, at);
  }

  // Refinement

  /** The yields of the passed steps are the keys of those steps. */
  lemma PassedKeys(c: Suite, w: Window, step: U32)
    requires Sound(w) && w.next <= step
    ensures var link := Link(w.next, SeedAfter(c, w.seed, w.next - w.base));
            && Yields(c, link, step - w.next) == KeysOf(c, w, Unopened(w.next, step, w.used))
            && YieldAfter(c, link, step - w.next) == KeyOf(c, w, step)
            && SeedAfter(c, link.seed, step + 1 - w.next) == SeedAfter(c, w.seed, step + 1 - w.base)
  {
    hide SeedAfter, Unopened;
    var link := Link(w.next, SeedAfter(c, w.seed, w.next - w.base));
    UntouchedRange(w.next, step, w.used);
    forall i | 0 <= i <= step - w.next
      ensures YieldAfter(c, link, i) == KeyOf(c, w, w.next + i)
    {
      SeedAfterAdds(c, w.seed, w.next - w.base, i);
    }
    SeedAfterAdds(c, w.seed, w.next - w.base, step + 1 - w.next);
  }

  /** The unopened steps from the new floor on: the newest of those from the old floor on. */
  lemma FloorKeepsNewest(w: Window, step: U32)
    requires Sound(w) && w.next <= step
    ensures w.floor <= FloorAfter(w, step) <= step
    ensures Unopened(FloorAfter(w, step), step, w.used) == Newest(MAX_SKIPPED, Unopened(w.floor, step, w.used))
    ensures step == w.next ==> FloorAfter(w, step) == w.floor
  {
    hide Unopened;
    var u := Unopened(w.floor, step, w.used);
    if |u| > MAX_SKIPPED {
      UnopenedFrom(w.floor, step, w.used, |u| - MAX_SKIPPED);
    }
  }

  lemma KeysOfNewest(c: Suite, w: Window, a: seq<U32>, b: seq<U32>)
    ensures Newest(MAX_SKIPPED, KeysOf(c, w, a) + KeysOf(c, w, b)) == KeysOf(c, w, Newest(MAX_SKIPPED, a + b))
  {
  }

  /** After passing steps, what is kept is the keys at and above the new floor. */
  lemma KeptAboveFloor(c: Suite, m: MemberState, w: Window, step: U32)
    requires Tracks(c, m, w) && w.next <= step
    ensures KeptAfter(m.skipped, Yields(c, m.link, step - w.next)) ==
            KeysOf(c, w, Unopened(FloorAfter(w, step), step, w.used))
  {
    hide Unopened, SeedAfter, KeyOf;
    PassedKeys(c, w, step);
    FloorKeepsNewest(w, step);
    UnopenedSplits(w.floor, w.next, step, w.used);
    var kept, passed := Unopened(w.floor, w.next, w.used), Unopened(w.next, step, w.used);
    KeysOfNewest(c, w, kept, passed);
    if step != w.next {
      UntouchedRange(w.next, step, w.used);
    }
  }

  lemma AheadStaysSound(w: Window, step: U32)
    requires Sound(w) && w.next <= step != LAST_STEP
    ensures var v := Consume(w, step);
            Sound(v) && Unopened(v.floor, v.next, v.used) == Unopened(FloorAfter(w, step), step, w.used)
  {
    var v := Consume(w, step);
    FloorKeepsNewest(w, step);
    UnopenedIgnores(v.floor, step, w.used, step);
  }

  /** Opening a step ahead passes the ones between and moves the window past it. */
  lemma OpensAhead(c: Suite, m: MemberState, w: Window, step: U32)
    requires Tracks(c, m, w) && w.next <= step <= w.next + MAX_FORWARD_JUMP && step != LAST_STEP
    ensures var (next, y) := YieldFor(c, m, step);
            Tracks(c, next, Consume(w, step)) && y == Ok(KeyOf(c, w, step))
  {
    hide KeysOf, Unopened, SeedAfter, KeptAfter;
    PassedKeys(c, w, step);
    KeptAboveFloor(c, m, w, step);
    AheadStaysSound(w, step);
  }

  lemma SameKeys(c: Suite, w: Window, v: Window, steps: seq<U32>)
    requires w.base == v.base && w.seed == v.seed
    ensures KeysOf(c, w, steps) == KeysOf(c, v, steps)
  {
  }

  lemma FindsKept(c: Suite, m: MemberState, w: Window, step: U32)
    requires Tracks(c, m, w)
    ensures var u := Unopened(w.floor, w.next, w.used);
            match FindStep(m.skipped, step) {
              case Some(k) => k < |u| && u[k] == step
              case None => step !in u
            }
  {
  }

  /** A step behind the link gives its kept key, exactly when it is unopened and not below the floor. */
  lemma OpensBehind(c: Suite, m: MemberState, w: Window, step: U32)
    requires Tracks(c, m, w) && step < w.next
    ensures var (next, y) := YieldFor(c, m, step);
            match Refusal(w, step) {
              case Some(fault) => y == Err(fault) && next == m
              case None => y == Ok(KeyOf(c, w, step)) && Tracks(c, next, Consume(w, step))
            }
  {
    hide Unopened, KeyOf, SeedAfter;
    var u := Unopened(w.floor, w.next, w.used);
    FindsKept(c, m, w, step);
    UnopenedIs(w.floor, w.next, w.used, step);
    match FindStep(m.skipped, step) {
      case None =>
      case Some(k) =>
        var v := Consume(w, step);
        UnopenedRemoves(w.floor, w.next, w.used, k);
        SameKeys(c, w, v, RemoveAt(u, k));
        assert KeysOf(c, w, RemoveAt(u, k)) == RemoveAt(m.skipped, k);
    }
  }

  /**
   * The member answers every step exactly as its window says: it refuses for the window's reason, or
   * gives the one right key and moves to the window with that step used.
   */
  lemma YieldForTracks(c: Suite, m: MemberState, w: Window, step: U32)
    requires Tracks(c, m, w)
    ensures var (next, y) := YieldFor(c, m, step);
            match Refusal(w, step) {
              case Some(fault) => y == Err(fault)
              case None => step != LAST_STEP && y == Ok(KeyOf(c, w, step)) && Tracks(c, next, Consume(w, step))
            }
  {
    if step < w.next {
      OpensBehind(c, m, w, step);
    } else if step - w.next <= MAX_FORWARD_JUMP && step != LAST_STEP {
      OpensAhead(c, m, w, step);
    }
  }

  /** A freshly announced chain starts an empty window at the announced step. */
  lemma FreshTracks(c: Suite, m: MemberState)
    requires m.skipped == []
    ensures Tracks(c, m, StartWindow(m.link.step, m.link.seed))
  {
  }

  /** What is kept is exactly what was passed, not used and not below the floor, lowest first. */
  lemma KeptExactly(c: Suite, m: MemberState, w: Window, s: U32)
    requires Tracks(c, m, w)
    ensures |m.skipped| <= 2_000
    ensures forall i, j :: 0 <= i < j < |m.skipped| ==> m.skipped[i].step < m.skipped[j].step < m.link.step
    ensures KeyOf(c, w, s) in m.skipped <==> w.floor <= s < w.next && s !in w.used
    ensures forall y :: y in m.skipped ==> y == KeyOf(c, w, y.step) && w.base <= y.step < m.link.step
  {
    hide Unopened, SeedAfter;
    var u := Unopened(w.floor, w.next, w.used);
    UnopenedIncreases(w.floor, w.next, w.used);
    UnopenedIs(w.floor, w.next, w.used, s);
    if s in u {
      var i :| 0 <= i < |u| && u[i] == s;
    }
    if KeyOf(c, w, s) in m.skipped {
      var i :| 0 <= i < |m.skipped| && m.skipped[i] == KeyOf(c, w, s);
    }
  }
}
