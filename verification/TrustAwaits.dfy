/**
 * The other host's calls on one address: each awaits between checking an identity, saving it, and saving the
 * session that names it.
 */
module TrustAwaits {
  import opened Basics

  /**
   * On one address. A call that pins checks the identity it met, later saves it, and later saves its
   * session. A call that sends loads the stored session, later seals on it and checks the identity in it, and
   * later saves the session.
   */
  datatype Event =
    | Check(call: nat, identity: Bytes33)
    | SavePin(call: nat)
    | LoadToSend(call: nat)
    | CheckToSend(call: nat)
    | SaveSession(call: nat)

  /** The pin, the identity the stored session names, and the calls between two of their steps. */
  datatype Pins = Pins(
    pin: Option<Bytes33>,
    session: Option<Bytes33>,
    checked: map<nat, Bytes33>,
    loaded: map<nat, Bytes33>,
    saving: map<nat, Bytes33>)
  {
    predicate Busy(call: nat) {
      call in checked || call in loaded || call in saving
    }
  }

  /** Unknown is trusted, a changed key is not: then the call throws and saves nothing. */
  predicate Trusts(p: Pins, identity: Bytes33) {
    p.pin == None || p.pin == Some(identity)
  }

  function Next(p: Pins, event: Event): Pins {
    match event
    case Check(call, identity) =>
      if Trusts(p, identity) then p.(checked := p.checked[call := identity]) else p
    case SavePin(call) =>
      if call in p.checked then
        p.(pin := Some(p.checked[call]), checked := p.checked - {call}, saving := p.saving[call := p.checked[call]])
      else p
    case LoadToSend(call) =>
      if p.session.Some? then p.(loaded := p.loaded[call := p.session.value]) else p
    case CheckToSend(call) =>
      if call !in p.loaded then p
      else if Trusts(p, p.loaded[call]) then p.(loaded := p.loaded - {call}, saving := p.saving[call := p.loaded[call]])
      else p.(loaded := p.loaded - {call})
    case SaveSession(call) =>
      if call in p.saving then p.(session := Some(p.saving[call]), saving := p.saving - {call}) else p
  }

  function Play(p: Pins, events: seq<Event>): Pins
    decreases |events|
  {
    if events == [] then p else Play(Next(p, events[0]), events[1..])
  }

  /** Calls start under their own number, and every one that passes its check saves in the end. */
  predicate Complete(p: Pins, events: seq<Event>)
    decreases |events|
  {
    if events == [] then Quiet(p)
    else
      && (events[0].Check? || events[0].LoadToSend? ==> !p.Busy(events[0].call))
      && Complete(Next(p, events[0]), events[1..])
  }

  // Three things a schedule may keep

  /** The pin, once set, is the same after every event. */
  predicate NeverChanges(p: Pins, events: seq<Event>)
    decreases |events|
  {
    events == [] ||
    ((p.pin.Some? ==> Next(p, events[0]).pin == p.pin) && NeverChanges(Next(p, events[0]), events[1..]))
  }

  ghost predicate Agree(p: Pins) {
    forall i, j :: i in p.checked && j in p.checked ==> p.checked[i] == p.checked[j]
  }

  /** Calls between their check and their save never hold different identities. */
  ghost predicate AlwaysAgree(p: Pins, events: seq<Event>)
    decreases |events|
  {
    Agree(p) && (events == [] || AlwaysAgree(Next(p, events[0]), events[1..]))
  }

  /** The stored session, if there is one, names the pinned identity. */
  predicate Named(p: Pins) {
    p.session.Some? ==> p.session == p.pin
  }

  predicate AlwaysNamed(p: Pins, events: seq<Event>)
    decreases |events|
  {
    Named(p) && (events == [] || AlwaysNamed(Next(p, events[0]), events[1..]))
  }

  // Agreement keeps the pin

  lemma {:induction false} PinIsFinal(p: Pins, events: seq<Event>)
    requires NeverChanges(p, events) && p.pin.Some?
    ensures Play(p, events).pin == p.pin
    decreases |events|
  {
    if events != [] {
      PinIsFinal(Next(p, events[0]), events[1..]);
    }
  }

  /** When the pin never changes, what a call checked is what stays pinned. */
  lemma {:induction false} CheckedIsFinal(p: Pins, events: seq<Event>, i: nat)
    requires NeverChanges(p, events) && Complete(p, events) && i in p.checked
    ensures Play(p, events).pin == Some(p.checked[i])
    decreases |events|
  {
    var next := Next(p, events[0]);
    if events[0] == SavePin(i) {
      PinIsFinal(next, events[1..]);
    } else {
      CheckedIsFinal(next, events[1..], i);
    }
  }

  lemma {:induction false} StableMeansAgreed(p: Pins, events: seq<Event>)
    requires NeverChanges(p, events) && Complete(p, events)
    ensures AlwaysAgree(p, events)
    decreases |events|
  {
    forall i, j | i in p.checked && j in p.checked ensures p.checked[i] == p.checked[j] {
      CheckedIsFinal(p, events, i);
      CheckedIsFinal(p, events, j);
    }
    if events != [] {
      StableMeansAgreed(Next(p, events[0]), events[1..]);
    }
  }

  /** Whatever is to be pinned agrees with the pin. */
  ghost predicate Settled(p: Pins) {
    p.pin.Some? ==> forall i :: i in p.checked ==> Some(p.checked[i]) == p.pin
  }

  /** Whatever is to be stored names the pin, and so does what is stored. */
  ghost predicate Naming(p: Pins) {
    && Named(p)
    && (forall i :: i in p.loaded ==> Some(p.loaded[i]) == p.pin)
    && (forall i :: i in p.saving ==> Some(p.saving[i]) == p.pin)
  }

  lemma {:induction false} AgreedMeansStable(p: Pins, events: seq<Event>)
    requires AlwaysAgree(p, events) && Settled(p)
    ensures NeverChanges(p, events) && (Naming(p) ==> AlwaysNamed(p, events))
    decreases |events|
  {
    if events != [] {
      AgreedMeansStable(Next(p, events[0]), events[1..]);
    }
  }

  // So does naming

  /** With a session stored under its pin, a changed pin would leave the session behind. */
  lemma {:induction false} NamedMeansStable(p: Pins, events: seq<Event>)
    requires AlwaysNamed(p, events) && p.session.Some?
    ensures NeverChanges(p, events) && Play(p, events).pin == p.pin
    decreases |events|
  {
    if events != [] {
      NamedMeansStable(Next(p, events[0]), events[1..]);
    }
  }

  lemma {:induction false} SavedIsFinal(p: Pins, events: seq<Event>, i: nat)
    requires AlwaysNamed(p, events) && Complete(p, events) && (i in p.checked || i in p.saving)
    requires !(i in p.checked && i in p.saving) && i !in p.loaded
    ensures Play(p, events).pin == Some(if i in p.checked then p.checked[i] else p.saving[i])
    decreases |events|
  {
    var next := Next(p, events[0]);
    if events[0] == SaveSession(i) && i in p.saving {
      NamedMeansStable(next, events[1..]);
    } else {
      SavedIsFinal(next, events[1..], i);
    }
  }

  /** Each call is at one place. */
  ghost predicate Apart(p: Pins) {
    p.checked.Keys !! p.saving.Keys && p.checked.Keys !! p.loaded.Keys && p.loaded.Keys !! p.saving.Keys
  }

  lemma {:induction false} NamedMeansAgreed(p: Pins, events: seq<Event>)
    requires AlwaysNamed(p, events) && Complete(p, events) && Apart(p)
    ensures AlwaysAgree(p, events)
    decreases |events|
  {
    forall i, j | i in p.checked && j in p.checked ensures p.checked[i] == p.checked[j] {
      SavedIsFinal(p, events, i);
      SavedIsFinal(p, events, j);
    }
    if events != [] {
      NamedMeansAgreed(Next(p, events[0]), events[1..]);
    }
  }

  /** Nothing is under way. */
  predicate Quiet(p: Pins) {
    p.checked == map[] && p.loaded == map[] && p.saving == map[]
  }

  /** A pin never changes exactly when calls about to pin at once never hold different identities for the address. */
  lemma PinStaysIffAgreed(p: Pins, events: seq<Event>)
    requires Quiet(p) && Complete(p, events)
    ensures NeverChanges(p, events) <==> AlwaysAgree(p, events)
  {
    if NeverChanges(p, events) {
      StableMeansAgreed(p, events);
    } else if AlwaysAgree(p, events) {
      AgreedMeansStable(p, events);
    }
  }

  /** And exactly then does the stored session name the pinned identity all along, whoever stores it. */
  lemma SessionNamedIffAgreed(p: Pins, events: seq<Event>)
    requires Quiet(p) && Named(p) && Complete(p, events)
    ensures AlwaysNamed(p, events) <==> AlwaysAgree(p, events)
  {
    if AlwaysNamed(p, events) {
      NamedMeansAgreed(p, events);
    } else if AlwaysAgree(p, events) {
      AgreedMeansStable(p, events);
    }
  }

  /** Two first contacts under way at once with different identities break both. */
  lemma FirstContactsCollide(a: Bytes33, b: Bytes33)
    requires a != b
    ensures var p := Pins(None, None, map[], map[], map[]);
            var events := [Check(0, a), Check(1, b), SavePin(0), SavePin(1), SaveSession(0), SaveSession(1)];
            Complete(p, events) && !NeverChanges(p, events) && !AlwaysNamed(p, events)
  {
    var p := Pins(None, None, map[], map[], map[]);
    var two := Pins(None, None, map[0 := a, 1 := b], map[], map[]);
    var rest := [SavePin(0), SavePin(1), SaveSession(0), SaveSession(1)];
    var events := [Check(0, a), Check(1, b), SavePin(0), SavePin(1), SaveSession(0), SaveSession(1)];
    var one := Next(p, events[0]);
    assert events[1..][1..] == rest && Next(one, events[1..][0]) == two;
    CollisionEnds(a, b);
    assert two.checked[0] != two.checked[1];
    assert !AlwaysAgree(one, events[1..]);
    PinStaysIffAgreed(p, events);
    SessionNamedIffAgreed(p, events);
  }

  lemma CollisionEnds(a: Bytes33, b: Bytes33)
    ensures Complete(Pins(None, None, map[0 := a, 1 := b], map[], map[]), [SavePin(0), SavePin(1), SaveSession(0), SaveSession(1)])
  {
    var four := Pins(Some(b), None, map[], map[], map[0 := a, 1 := b]);
    assert Complete(four, [SaveSession(0), SaveSession(1)]);
  }
}
