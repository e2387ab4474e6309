/** The multi-recipient listing: grouping addresses by service id, writing the groups, reading them back. */
module Listing {
  import opened Basics
  import opened Names
  import opened ServiceIds
  import opened Suites

  datatype Device = Device(device: U32, registration: U32)

  datatype Recipient = Recipient(serviceId: ServiceId, devices: seq<Device>, identity: Public)

  // Grouping

  /** One address with what the stores hold for it; a session may have no live state to name a registration. */
  datatype Held = Held(address: Address, session: Option<Option<U32>>, identity: Option<Public>)

  /** An address resolved: whose device it is, and under which identity. */
  datatype Contact = Contact(serviceId: ServiceId, device: Device, identity: Public)

  function ContactOf(h: Held): Result<Contact, Fault> {
    var id :- FromText(h.address.name);
    var identity :- OrFault(h.identity, NoSession);
    var session :- OrFault(h.session, NoSession);
    var registration :- OrFault(session, BadSession);
    Ok(Contact(id, Device(h.address.device, registration), identity))
  }

  function ContactsOf(hs: seq<Held>): Result<seq<Contact>, Fault> {
    if hs == [] then Ok([])
    else
      var front :- ContactsOf(hs[..|hs| - 1]);
      var last :- ContactOf(hs[|hs| - 1]);
      Ok(front + [last])
  }

  /** Where a service id's entry is. */
  function EntryOf(rs: seq<Recipient>, id: ServiceId): (at: Option<nat>)
    ensures at.Some? ==> at.value < |rs| && rs[at.value].serviceId == id
    ensures at.None? ==> forall r :: r in rs ==> r.serviceId != id
  {
    if rs == [] then None
    else if rs[0].serviceId == id then Some(0)
    else match EntryOf(rs[1..], id) { case None => None case Some(i) => Some(i + 1) }
  }

  /** A known service id gains a device, a new one an entry at the end. */
  function Added(rs: seq<Recipient>, x: Contact): seq<Recipient> {
    match EntryOf(rs, x.serviceId)
    case None => rs + [Recipient(x.serviceId, [x.device], x.identity)]
    case Some(i) => rs[i := rs[i].(devices := rs[i].devices + [x.device])]
  }

  function Grouped(xs: seq<Contact>): seq<Recipient> {
    if xs == [] then [] else Added(Grouped(xs[..|xs| - 1]), xs[|xs| - 1])
  }

  // What the groups mean

  /** The service ids of the contacts in the order they first appear. */
  function FirstSeen(xs: seq<Contact>): seq<ServiceId> {
    if xs == [] then []
    else
      var front, id := FirstSeen(xs[..|xs| - 1]), xs[|xs| - 1].serviceId;
      if id in front then front else front + [id]
  }

  /** The devices of one service id, in order. */
  function DevicesOf(xs: seq<Contact>, id: ServiceId): seq<Device> {
    if xs == [] then []
    else
      var front, last := DevicesOf(xs[..|xs| - 1], id), xs[|xs| - 1];
      if last.serviceId == id then front + [last.device] else front
  }

  /** The identity a service id was first met under. */
  function FirstIdentity(xs: seq<Contact>, id: ServiceId): Option<Public> {
    if xs == [] then None
    else
      var front, last := FirstIdentity(xs[..|xs| - 1], id), xs[|xs| - 1];
      if front.Some? then front else if last.serviceId == id then Some(last.identity) else None
  }

  ghost predicate IsGrouping(xs: seq<Contact>, rs: seq<Recipient>) {
    && |rs| == |FirstSeen(xs)|
    && (forall i :: 0 <= i < |rs| ==>
          rs[i].serviceId == FirstSeen(xs)[i] &&
          rs[i].devices == DevicesOf(xs, rs[i].serviceId) &&
          FirstIdentity(xs, rs[i].serviceId) == Some(rs[i].identity))
    && forall i, j :: 0 <= i < j < |rs| ==> rs[i].serviceId != rs[j].serviceId
  }

  lemma {:induction false} SeenHaveContacts(xs: seq<Contact>, id: ServiceId)
    ensures id in FirstSeen(xs) <==> FirstIdentity(xs, id).Some?
    ensures id !in FirstSeen(xs) ==> DevicesOf(xs, id) == []
  {
    if xs != [] {
      SeenHaveContacts(xs[..|xs| - 1], id);
    }
  }

  /**
   * Grouping loses and repeats no device: one entry for each service id in the order of first
   * appearance, with all of its devices in order and the identity it was first met under.
   */
  lemma {:induction false} GroupsByServiceId(xs: seq<Contact>)
    ensures IsGrouping(xs, Grouped(xs))
  {
    if xs != [] {
      GroupsByServiceId(xs[..|xs| - 1]);
      AddingGroups(xs, Grouped(xs[..|xs| - 1]));
    }
  }

  /** What one more contact does to each of the three readings of a list. */
  lemma OneMoreContact(front: seq<Contact>, x: Contact, id: ServiceId)
    ensures FirstSeen(front + [x]) == if x.serviceId in FirstSeen(front) then FirstSeen(front) else FirstSeen(front) + [x.serviceId]
    ensures DevicesOf(front + [x], id) == if id == x.serviceId then DevicesOf(front, id) + [x.device] else DevicesOf(front, id)
    ensures FirstIdentity(front + [x], id) ==
            if FirstIdentity(front, id).Some? then FirstIdentity(front, id)
            else if id == x.serviceId then Some(x.identity) else None
  {
  }

  lemma AddingGroups(xs: seq<Contact>, front: seq<Recipient>)
    requires xs != [] && IsGrouping(xs[..|xs| - 1], front)
    ensures IsGrouping(xs, Added(front, xs[|xs| - 1]))
  {
    hide FirstSeen, DevicesOf, FirstIdentity, EntryOf;
    var before, x := xs[..|xs| - 1], xs[|xs| - 1];
    assert xs == before + [x];
    var rs := Added(front, x);
    SeenHaveContacts(before, x.serviceId);
    OneMoreContact(before, x, x.serviceId);
    match EntryOf(front, x.serviceId) {
      case None =>
        forall i | 0 <= i < |front| ensures FirstSeen(before)[i] != x.serviceId {
        }
      case Some(k) =>
    }
    forall i | 0 <= i < |rs|
      ensures rs[i].serviceId == FirstSeen(xs)[i] && rs[i].devices == DevicesOf(xs, rs[i].serviceId)
      ensures FirstIdentity(xs, rs[i].serviceId) == Some(rs[i].identity)
    {
      OneMoreContact(before, x, rs[i].serviceId);
    }
  }

  /** Every session is looked up first; then the addresses are taken in order, the first fault ending it. */
  function RecipientsOf(hs: seq<Held>): Result<seq<Recipient>, Fault> {
    if exists h :: h in hs && h.session.None? then Err(NoSession)
    else
      var xs :- ContactsOf(hs);
      Ok(Grouped(xs))
  }

  /** The entries of a map in the order their keys were put in. */
  ghost predicate Entries(order: seq<string>, byService: map<string, Recipient>, rs: seq<Recipient>) {
    && |order| == |rs|
    && (forall k :: k in byService <==> k in order)
    && (forall i :: 0 <= i < |rs| ==> order[i] == TextOf(rs[i].serviceId) && byService[order[i]] == rs[i])
    && forall i, j :: 0 <= i < j < |rs| ==> rs[i].serviceId != rs[j].serviceId
  }

  lemma EntryFound(rs: seq<Recipient>, k: nat, id: ServiceId)
    requires k < |rs| && rs[k].serviceId == id
    requires forall i, j :: 0 <= i < j < |rs| ==> rs[i].serviceId != rs[j].serviceId
    ensures EntryOf(rs, id) == Some(k)
  {
  }

  lemma PutsNew(order: seq<string>, byService: map<string, Recipient>, rs: seq<Recipient>, x: Contact)
    requires Entries(order, byService, rs) && TextOf(x.serviceId) !in byService
    ensures Added(rs, x) == rs + [Recipient(x.serviceId, [x.device], x.identity)]
    ensures Entries(order + [TextOf(x.serviceId)], byService[TextOf(x.serviceId) := Added(rs, x)[|rs|]], Added(rs, x))
  {
    hide EntryOf, TextOf;
    forall i | 0 <= i < |rs| ensures rs[i].serviceId != x.serviceId {
    }
  }

  lemma PutsKnown(order: seq<string>, byService: map<string, Recipient>, rs: seq<Recipient>, x: Contact)
    requires Entries(order, byService, rs) && TextOf(x.serviceId) in byService
    ensures var key := TextOf(x.serviceId);
            Entries(order, byService[key := byService[key].(devices := byService[key].devices + [x.device])], Added(rs, x))
  {
    hide EntryOf, TextOf;
    var key := TextOf(x.serviceId);
    var k :| 0 <= k < |order| && order[k] == key;
    TextIsInjective(rs[k].serviceId, x.serviceId);
    forall i | 0 <= i < |rs| && i != k ensures order[i] != key {
      TextIsInjective(rs[i].serviceId, x.serviceId);
    }
    EntryFound(rs, k, x.serviceId);
  }

  method GroupAddresses(hs: seq<Held>) returns (r: Result<seq<Recipient>, Fault>)
    ensures r == RecipientsOf(hs)
  {
    hide TextOf, Entries, Added, ContactOf;
    if exists h :: h in hs && h.session.None? {
      return Err(NoSession);
    }
    var order: seq<string>, byService: map<string, Recipient> := [], map[];
    ghost var xs: seq<Contact> := [];
    NoEntries();
    for i := 0 to |hs|
      invariant ContactsOf(hs[..i]) == Ok(xs) && Entries(order, byService, Grouped(xs))
    {
      ContactsStep(hs, i);
      var x := ContactOf(hs[i]);
      if x.Err? {
        FirstFault(hs, i + 1);
        return Err(x.error);
      }
      var key := TextOf(x.value.serviceId);
      ghost var rs := Grouped(xs);
      GroupedStep(xs, x.value);
      if key in byService {
        PutsKnown(order, byService, rs, x.value);
        var entry := byService[key];
        byService := byService[key := entry.(devices := entry.devices + [x.value.device])];
      } else {
        PutsNew(order, byService, rs, x.value);
        byService := byService[key := Recipient(x.value.serviceId, [x.value.device], x.value.identity)];
        order := order + [key];
      }
      xs := xs + [x.value];
    }
    assert hs[..|hs|] == hs;
    EntriesAre(order, byService, Grouped(xs));
    var values := seq(|order|, i requires 0 <= i < |order| && order[i] in byService => byService[order[i]]);
    assert values == Grouped(xs);
    return Ok(values);
  }

  lemma NoEntries()
    ensures Entries([], map[], Grouped([])) && ContactsOf([]) == Ok([])
  {
  }

  lemma ContactsStep(hs: seq<Held>, i: nat)
    requires i < |hs|
    ensures ContactsOf(hs[..i + 1]) ==
            match ContactsOf(hs[..i]) {
              case Err(e) => Err(e)
              case Ok(front) => match ContactOf(hs[i]) { case Err(e) => Err(e) case Ok(x) => Ok(front + [x]) }
            }
  {
    assert hs[..i + 1][..i] == hs[..i];
  }

  lemma GroupedStep(xs: seq<Contact>, x: Contact)
    ensures Grouped(xs + [x]) == Added(Grouped(xs), x)
  {
  }

  /** A fault stays the fault of every longer list. */
  lemma {:induction false} FirstFault(hs: seq<Held>, i: nat)
    requires i <= |hs| && ContactsOf(hs[..i]).Err?
    ensures ContactsOf(hs) == ContactsOf(hs[..i])
    decreases |hs|
  {
    hide ContactOf;
    if i < |hs| {
      assert hs[..|hs| - 1][..i] == hs[..i];
      FirstFault(hs[..|hs| - 1], i);
    } else {
      assert hs[..i] == hs;
    }
  }

  lemma EntriesAre(order: seq<string>, byService: map<string, Recipient>, rs: seq<Recipient>)
    requires Entries(order, byService, rs)
    ensures |order| == |rs| && forall i :: 0 <= i < |order| ==> order[i] in byService && byService[order[i]] == rs[i]
  {
  }

  // Writing

  /** What fits the envelope, as the writer checks it. */
  predicate DeviceFits(d: Device) {
    d.device <= 255 && d.registration <= 0xffff
  }

  function DeviceItems(ds: seq<Device>): seq<nat> {
    if ds == [] then []
    else DeviceItems(ds[..|ds| - 1]) + var d := ds[|ds| - 1]; [d.device, d.registration / 256, d.registration % 256]
  }

  function RecipientItems(r: Recipient): seq<nat> {
    Fixed(r.serviceId) + [|r.devices|] + DeviceItems(r.devices) + SerializePublic(r.identity)
  }

  function ItemsOf(rs: seq<Recipient>): seq<nat> {
    if rs == [] then [] else ItemsOf(rs[..|rs| - 1]) + RecipientItems(rs[|rs| - 1])
  }

  /** An array of numbers turned into bytes keeps each number's low byte. */
  function LowBytes(items: seq<nat>): (bytes: Bytes)
    ensures |bytes| == |items|
    ensures forall i :: 0 <= i < |items| ==> bytes[i] == items[i] % 256
  {
    seq(|items|, i requires 0 <= i < |items| => items[i] % 256)
  }

  predicate AllFit(rs: seq<Recipient>) {
    forall i, j :: 0 <= i < |rs| && 0 <= j < |rs[i].devices| ==> DeviceFits(rs[i].devices[j])
  }

  /** Nothing is checked but the devices: a count keeps its low byte. */
  function Written(rs: seq<Recipient>): Result<Bytes, Fault> {
    if AllFit(rs) then Ok(LowBytes([|rs|] + ItemsOf(rs))) else Err(BadArgument)
  }

  lemma ItemsStep(rs: seq<Recipient>, i: nat)
    requires i < |rs|
    ensures ItemsOf(rs[..i + 1]) == ItemsOf(rs[..i]) + RecipientItems(rs[i])
  {
    assert rs[..i + 1][..i] == rs[..i];
  }

  lemma DeviceItemsStep(ds: seq<Device>, j: nat)
    requires j < |ds|
    ensures DeviceItems(ds[..j + 1]) == DeviceItems(ds[..j]) + [ds[j].device, ds[j].registration / 256, ds[j].registration % 256]
  {
    assert ds[..j + 1][..j] == ds[..j];
  }

  method WriteListing(rs: seq<Recipient>) returns (r: Result<Bytes, Fault>)
    ensures r == Written(rs)
  {
    hide RecipientItems, DeviceItems, ItemsOf;
    var listing: seq<nat> := [|rs|];
    NoItems();
    for i := 0 to |rs|
      invariant listing == [|rs|] + ItemsOf(rs[..i])
      invariant forall k, j :: 0 <= k < i && 0 <= j < |rs[k].devices| ==> DeviceFits(rs[k].devices[j])
    {
      var fixed := Fixed(rs[i].serviceId);
      var devices := rs[i].devices;
      listing := listing + fixed + [|devices|];
      for j := 0 to |devices|
        invariant listing == [|rs|] + ItemsOf(rs[..i]) + fixed + [|devices|] + DeviceItems(devices[..j])
        invariant forall k :: 0 <= k < j ==> DeviceFits(devices[k])
      {
        if devices[j].device > 255 || devices[j].registration > 0xffff {
          return Err(BadArgument);
        }
        DeviceItemsStep(devices, j);
        listing := listing + [devices[j].device, devices[j].registration / 256, devices[j].registration % 256];
      }
      assert devices[..|devices|] == devices;
      listing := listing + SerializePublic(rs[i].identity);
      RecipientItemsAre(rs[i]);
      ItemsStep(rs, i);
    }
    assert rs[..|rs|] == rs;
    return Ok(LowBytes(listing));
  }

  lemma NoItems()
    ensures ItemsOf([]) == [] && DeviceItems([]) == []
  {
  }

  lemma RecipientItemsAre(r: Recipient)
    ensures RecipientItems(r) == Fixed(r.serviceId) + [|r.devices|] + DeviceItems(r.devices) + SerializePublic(r.identity)
  {
  }

  // Reading

  /** A value cut from the front of some bytes, with what is left, or why it could not be. */
  datatype Cut<+T> = Cut(value: T, rest: Bytes) | Bad(fault: Fault)

  function TakeOf(data: Bytes, n: nat): (cut: Cut<Bytes>)
    ensures cut.Cut? ==> |cut.value| == n && data == cut.value + cut.rest
  {
    if n > |data| then Bad(BadArgument) else Cut(data[..n], data[n..])
  }

  /** A device number, then a registration id, high byte first. */
  function DeviceIn(b: Bytes): Device
    requires |b| == 3
  {
    var (high: nat, low: nat) := (b[1], b[2]);
    var registration: U32 := high * 256 + low;
    Device(b[0], registration)
  }

  function DevicesIn(data: Bytes, n: nat): Cut<seq<Device>>
    decreases n
  {
    if n == 0 then Cut([], data)
    else
      match TakeOf(data, 3)
      case Bad(e) => Bad(e)
      case Cut(b, rest) =>
        match DevicesIn(rest, n - 1)
        case Bad(e) => Bad(e)
        case Cut(ds, left) => Cut([DeviceIn(b)] + ds, left)
  }

  function RecipientIn(data: Bytes): Cut<Recipient> {
    match TakeOf(data, 17)
    case Bad(e) => Bad(e)
    case Cut(id, rest) =>
      match FromFixed(id)
      case Err(e) => Bad(e)
      case Ok(serviceId) =>
        match TakeOf(rest, 1)
        case Bad(e) => Bad(e)
        case Cut(n, rest) =>
          match DevicesIn(rest, n[0])
          case Bad(e) => Bad(e)
          case Cut(ds, rest) =>
            match TakeOf(rest, 33)
            case Bad(e) => Bad(e)
            case Cut(key, left) =>
              match ParsePublic(key)
              case Err(e) => Bad(e)
              case Ok(identity) => Cut(Recipient(serviceId, ds, identity), left)
  }

  function RecipientsIn(data: Bytes, n: nat): Cut<seq<Recipient>>
    decreases n
  {
    if n == 0 then Cut([], data)
    else
      match RecipientIn(data)
      case Bad(e) => Bad(e)
      case Cut(r, rest) =>
        match RecipientsIn(rest, n - 1)
        case Bad(e) => Bad(e)
        case Cut(rs, left) => Cut([r] + rs, left)
  }

  /** What the core reads from a listing, and the bytes it leaves unread. */
  function ReadBack(data: Bytes): Cut<seq<Recipient>> {
    match TakeOf(data, 1)
    case Bad(e) => Bad(e)
    case Cut(n, rest) => RecipientsIn(rest, n[0])
  }

  // What was written reads back

  lemma {:induction false} DeviceItemsFront(ds: seq<Device>)
    requires ds != []
    ensures DeviceItems(ds) == [ds[0].device, ds[0].registration / 256, ds[0].registration % 256] + DeviceItems(ds[1..])
  {
    if |ds| > 1 {
      DeviceItemsFront(ds[..|ds| - 1]);
      assert ds[..|ds| - 1][1..] == ds[1..][..|ds| - 2];
    }
  }

  lemma {:induction false} ItemsFront(rs: seq<Recipient>)
    requires rs != []
    ensures ItemsOf(rs) == RecipientItems(rs[0]) + ItemsOf(rs[1..])
  {
    hide RecipientItems;
    if |rs| > 1 {
      ItemsFront(rs[..|rs| - 1]);
      assert rs[..|rs| - 1][1..] == rs[1..][..|rs| - 2];
    } else {
      assert ItemsOf(rs) == ItemsOf(rs[..0]) + RecipientItems(rs[0]) == RecipientItems(rs[0]);
    }
  }

  lemma LowBytesSplit(a: seq<nat>, b: seq<nat>)
    ensures LowBytes(a + b) == LowBytes(a) + LowBytes(b)
  {
  }

  lemma TakesFront(a: Bytes, b: Bytes)
    ensures TakeOf(a + b, |a|) == Cut(a, b)
  {
  }

  lemma {:induction false} DevicesReadBack(ds: seq<Device>, tail: Bytes)
    requires forall j :: 0 <= j < |ds| ==> DeviceFits(ds[j])
    ensures DevicesIn(LowBytes(DeviceItems(ds)) + tail, |ds|) == Cut(ds, tail)
  {
    if ds == [] {
      assert LowBytes(DeviceItems(ds)) + tail == tail;
    } else {
      var d := ds[0];
      var items: seq<nat> := [d.device, d.registration / 256, d.registration % 256];
      DeviceItemsFront(ds);
      var head, others := LowBytes(items), LowBytes(DeviceItems(ds[1..])) + tail;
      assert LowBytes(DeviceItems(ds)) + tail == head + others;
      TakesFront(head, others);
      assert DeviceIn(head) == d;
      DevicesReadBack(ds[1..], tail);
      assert [d] + ds[1..] == ds;
    }
  }

  lemma RecipientReadsBack(r: Recipient, tail: Bytes)
    requires |r.devices| <= 255 && forall j :: 0 <= j < |r.devices| ==> DeviceFits(r.devices[j])
    ensures RecipientIn(LowBytes(RecipientItems(r)) + tail) == Cut(r, tail)
  {
    hide DevicesIn, DeviceItems, Fixed, FromFixed, ParsePublic, SerializePublic, TakeOf, LowBytes, RecipientItems;
    var id, key := Fixed(r.serviceId), SerializePublic(r.identity);
    var n: Bytes := [|r.devices|];
    var ds := LowBytes(DeviceItems(r.devices));
    EncodingsReadBack(r.serviceId);
    PublicRoundTrip(r.identity, []);
    ItemsInBytes(r);
    Regrouped(id, n, ds, key, tail);
    TakesFront(id, n + (ds + (key + tail)));
    TakesFront(n, ds + (key + tail));
    DevicesReadBack(r.devices, key + tail);
    TakesFront(key, tail);
  }

  lemma Regrouped(a: Bytes, b: Bytes, d: Bytes, e: Bytes, tail: Bytes)
    ensures (a + (b + (d + e))) + tail == a + (b + (d + (e + tail)))
  {
    assert (d + e) + tail == d + (e + tail);
    assert (b + (d + e)) + tail == b + ((d + e) + tail);
  }

  lemma ItemsInBytes(r: Recipient)
    requires |r.devices| <= 255
    ensures LowBytes(RecipientItems(r)) ==
            Fixed(r.serviceId) + ([|r.devices|] + (LowBytes(DeviceItems(r.devices)) + SerializePublic(r.identity)))
  {
  }

  predicate CountsFit(rs: seq<Recipient>) {
    forall i :: 0 <= i < |rs| ==> |rs[i].devices| <= 255
  }

  /** Reading as many recipients as a count says, from the items of at least as many. */
  lemma {:induction false} RecipientsReadBack(rs: seq<Recipient>, n: nat)
    requires AllFit(rs) && CountsFit(rs) && n <= |rs|
    ensures RecipientsIn(LowBytes(ItemsOf(rs)), n) == Cut(rs[..n], LowBytes(ItemsOf(rs[n..])))
    decreases n
  {
    hide RecipientItems, ItemsOf, RecipientIn;
    if n > 0 {
      ItemsFront(rs);
      LowBytesSplit(RecipientItems(rs[0]), ItemsOf(rs[1..]));
      RecipientReadsBack(rs[0], LowBytes(ItemsOf(rs[1..])));
      RecipientsReadBack(rs[1..], n - 1);
      assert [rs[0]] + rs[1..][..n - 1] == rs[..n] && rs[1..][n - 1..] == rs[n..];
    }
  }

  /**
   * What the core reads of a written listing: as many recipients as the count's low byte says, and the
   * others stay unread after the last one.
   */
  lemma ReadsLowByteOfThem(rs: seq<Recipient>)
    requires AllFit(rs) && CountsFit(rs)
    ensures var n := |rs| % 256;
            ReadBack(Written(rs).value) == Cut(rs[..n], LowBytes(ItemsOf(rs[n..])))
  {
    hide ItemsOf;
    LowBytesSplit([|rs|], ItemsOf(rs));
    RecipientsReadBack(rs, |rs| % 256);
  }

  lemma {:induction false} ReadDevicesAreCounted(data: Bytes, n: nat)
    ensures DevicesIn(data, n).Cut? ==> |DevicesIn(data, n).value| == n
    decreases n
  {
    if n > 0 && |data| >= 3 {
      ReadDevicesAreCounted(data[3..], n - 1);
    }
  }

  lemma RecipientCountFits(data: Bytes)
    ensures RecipientIn(data).Cut? ==> |RecipientIn(data).value.devices| <= 255
  {
    hide DevicesIn, FromFixed, ParsePublic;
    if |data| >= 18 {
      ReadDevicesAreCounted(data[17..][1..], data[17]);
    }
  }

  lemma {:induction false} ReadCountsFit(data: Bytes, n: nat)
    ensures RecipientsIn(data, n).Cut? ==> |RecipientsIn(data, n).value| == n && CountsFit(RecipientsIn(data, n).value)
    decreases n
  {
    hide RecipientIn;
    if n > 0 && RecipientIn(data).Cut? {
      RecipientCountFits(data);
      ReadCountsFit(RecipientIn(data).rest, n - 1);
    }
  }

  /**
   * Every listing the writer accepts reads back as exactly the recipients listed, to the last byte, when
   * and only when there are at most 255 of them with at most 255 devices each.
   */
  lemma ListingRoundTrip(rs: seq<Recipient>)
    requires Written(rs).Ok?
    ensures ReadBack(Written(rs).value) == Cut(rs, []) <==> |rs| <= 255 && CountsFit(rs)
  {
    hide ItemsOf, RecipientsIn;
    if |rs| <= 255 && CountsFit(rs) {
      ReadsLowByteOfThem(rs);
      NoItems();
      assert rs[..|rs|] == rs && rs[|rs|..] == [];
    } else if ReadBack(Written(rs).value) == Cut(rs, []) {
      var data := Written(rs).value;
      ReadCountsFit(data[1..], data[0]);
      assert false;
    }
  }

  /** With 256 recipients, every one of them is left unread and no fault is reported. */
  lemma NobodyOf256(rs: seq<Recipient>)
    requires AllFit(rs) && CountsFit(rs) && |rs| == 256
    ensures ReadBack(Written(rs).value) == Cut([], LowBytes(ItemsOf(rs)))
  {
    ReadsLowByteOfThem(rs);
  }

  // The cursor

  class Cursor {
    const data: Bytes
    var at: nat

    constructor (data: Bytes)
      ensures Valid() && this.data == data && Rest() == data
    {
      this.data, at := data, 0;
    }

    predicate Valid()
      reads this
    {
      at <= |data|
    }

    function Rest(): Bytes
      reads this
      requires Valid()
    {
      data[at..]
    }

    /** The next `n` bytes; nothing is taken when there are fewer. */
    method Take(n: nat) returns (r: Result<Bytes, Fault>)
      requires Valid()
      modifies this`at
      ensures Valid()
      ensures match TakeOf(old(Rest()), n) {
                case Bad(e) => r == Err(e) && at == old(at)
                case Cut(b, rest) => r == Ok(b) && Rest() == rest
              }
    {
      if at + n > |data| {
        return Err(BadArgument);
      }
      r := Ok(data[at..][..n]);
      at := at + n;
      assert data[at..] == data[old(at)..][n..];
    }

    method Byte() returns (r: Result<Byte, Fault>)
      requires Valid()
      modifies this`at
      ensures Valid()
      ensures match TakeOf(old(Rest()), 1) {
                case Bad(e) => r == Err(e) && at == old(at)
                case Cut(b, rest) => r == Ok(b[0]) && Rest() == rest
              }
    {
      var b :- Take(1);
      return Ok(b[0]);
    }
  }

  /** What has been read put before what a cut still reads. */
  function Before<T>(front: seq<T>, cut: Cut<seq<T>>): Cut<seq<T>> {
    match cut
    case Bad(e) => Bad(e)
    case Cut(more, rest) => Cut(front + more, rest)
  }

  /** Three bytes at once, or one and then two. */
  lemma DeviceTakes(data: Bytes)
    ensures match TakeOf(data, 1) {
              case Bad(e) => TakeOf(data, 3) == Bad(e)
              case Cut(a, rest) =>
                match TakeOf(rest, 2)
                case Bad(e) => TakeOf(data, 3) == Bad(e)
                case Cut(b, left) => TakeOf(data, 3) == Cut(a + b, left)
            }
  {
    if |data| >= 3 {
      assert data[1..][..2] == data[1..3] && data[..1] + data[1..3] == data[..3] && data[1..][2..] == data[3..];
    }
  }

  lemma DevicesStep(front: seq<Device>, data: Bytes, n: nat)
    requires n > 0
    ensures match TakeOf(data, 3) {
              case Bad(e) => Before(front, DevicesIn(data, n)) == Bad(e)
              case Cut(b, rest) => Before(front, DevicesIn(data, n)) == Before(front + [DeviceIn(b)], DevicesIn(rest, n - 1))
            }
  {
    hide TakeOf;
    match TakeOf(data, 3) {
      case Bad(_) =>
      case Cut(b, rest) =>
        var next := DevicesIn(rest, n - 1);
        if next.Cut? {
          assert front + [DeviceIn(b)] + next.value == front + ([DeviceIn(b)] + next.value);
        }
    }
  }

  method ReadDevices(k: Cursor, n: nat) returns (r: Result<seq<Device>, Fault>)
    requires k.Valid()
    modifies k`at
    ensures k.Valid()
    ensures match DevicesIn(old(k.Rest()), n) {
              case Bad(e) => r == Err(e)
              case Cut(ds, rest) => r == Ok(ds) && k.Rest() == rest
            }
  {
    hide DevicesIn, TakeOf, DeviceIn;
    var devices: seq<Device> := [];
    ghost var all := DevicesIn(k.Rest(), n);
    NothingBefore(all);
    for i := 0 to n
      invariant k.Valid() && Before(devices, DevicesIn(k.Rest(), n - i)) == all
    {
      DevicesStep(devices, k.Rest(), n - i);
      DeviceTakes(k.Rest());
      ghost var first := TakeOf(k.Rest(), 1);
      var device :- k.Byte();
      assert first.value == [device];
      var b :- k.Take(2);
      DeviceIs(device, b);
      devices := devices + [Device(device, BigEndian(b))];
    }
    NoDevicesLeft(k.Rest());
    assert devices + [] == devices;
    return Ok(devices);
  }

  function BigEndian(b: Bytes): U32
    requires |b| == 2
  {
    var (high: nat, low: nat) := (b[0], b[1]);
    high * 256 + low
  }

  lemma DeviceIs(device: Byte, b: Bytes)
    requires |b| == 2
    ensures DeviceIn([device] + b) == Device(device, BigEndian(b))
  {
  }

  lemma NothingBefore<T>(cut: Cut<seq<T>>)
    ensures Before([], cut) == cut
  {
    if cut.Cut? {
      assert [] + cut.value == cut.value;
    }
  }

  lemma NoDevicesLeft(data: Bytes)
    ensures DevicesIn(data, 0) == Cut([], data)
  {
  }

  method ReadRecipient(k: Cursor) returns (r: Result<Recipient, Fault>)
    requires k.Valid()
    modifies k`at
    ensures k.Valid()
    ensures match RecipientIn(old(k.Rest())) {
              case Bad(e) => r == Err(e)
              case Cut(one, rest) => r == Ok(one) && k.Rest() == rest
            }
  {
    hide DevicesIn, FromFixed, ParsePublic;
    var id :- k.Take(17);
    var serviceId :- FromFixed(id);
    var n :- k.Byte();
    var devices :- ReadDevices(k, n);
    var key :- k.Take(33);
    var identity :- ParsePublic(key);
    return Ok(Recipient(serviceId, devices, identity));
  }

  lemma RecipientsStep(front: seq<Recipient>, data: Bytes, n: nat)
    requires n > 0
    ensures match RecipientIn(data) {
              case Bad(e) => Before(front, RecipientsIn(data, n)) == Bad(e)
              case Cut(r, rest) => Before(front, RecipientsIn(data, n)) == Before(front + [r], RecipientsIn(rest, n - 1))
            }
  {
    hide RecipientIn;
    match RecipientIn(data) {
      case Bad(_) =>
      case Cut(r, rest) =>
        var next := RecipientsIn(rest, n - 1);
        if next.Cut? {
          assert front + [r] + next.value == front + ([r] + next.value);
        }
    }
  }

  /** The core's reader, which stops after the last recipient counted. */
  method ReadListing(data: Bytes) returns (r: Result<seq<Recipient>, Fault>)
    ensures match ReadBack(data) {
              case Bad(e) => r == Err(e)
              case Cut(rs, _) => r == Ok(rs)
            }
  {
    hide RecipientsIn, RecipientIn, Before;
    var k := new Cursor(data);
    var n :- k.Byte();
    var recipients: seq<Recipient> := [];
    ghost var all := RecipientsIn(k.Rest(), n);
    NothingBefore(all);
    for i := 0 to n
      invariant k.Valid() && Before(recipients, RecipientsIn(k.Rest(), n - i)) == all
    {
      RecipientsStep(recipients, k.Rest(), n - i);
      var one :- ReadRecipient(k);
      recipients := recipients + [one];
    }
    AllRead(recipients, k.Rest());
    return Ok(recipients);
  }

  lemma AllRead(rs: seq<Recipient>, rest: Bytes)
    ensures Before(rs, RecipientsIn(rest, 0)) == Cut(rs, rest)
  {
    assert rs + [] == rs;
  }

  // The bytes of a listing

  predicate SmallDevices(ds: seq<Device>) {
    forall d :: d in ds ==> d.device <= 255 && d.registration <= 65535
  }

  /** Three bytes a device: its number, then its registration id, high byte first. */
  function DeviceBytes(ds: seq<Device>): Bytes
    requires SmallDevices(ds)
  {
    if ds == [] then []
    else [ds[0].device, ds[0].registration / 256, ds[0].registration % 256] + DeviceBytes(ds[1..])
  }

  /** Kind and id, the low byte of the count of devices, the devices, the identity key. */
  function EntryBytes(r: Recipient): Bytes
    requires SmallDevices(r.devices)
  {
    [if r.serviceId.kind == Pni then 1 else 0] + r.serviceId.uuid + [|r.devices| % 256] + DeviceBytes(r.devices) + ([5] + r.identity.u)
  }

  function EntriesBytes(rs: seq<Recipient>): Bytes
    requires forall r :: r in rs ==> SmallDevices(r.devices)
  {
    if rs == [] then [] else EntryBytes(rs[0]) + EntriesBytes(rs[1..])
  }

  lemma {:induction false} DevicesForm(ds: seq<Device>)
    requires SmallDevices(ds)
    ensures LowBytes(DeviceItems(ds)) == DeviceBytes(ds)
  {
    hide DeviceItems, LowBytes;
    if ds == [] {
      NoItems();
    } else {
      DeviceItemsFront(ds);
      DevicesForm(ds[1..]);
      OneDeviceForm(ds[0]);
      LowBytesSplit([ds[0].device, ds[0].registration / 256, ds[0].registration % 256], DeviceItems(ds[1..]));
    }
  }

  lemma OneDeviceForm(d: Device)
    requires d.device <= 255 && d.registration <= 65535
    ensures LowBytes([d.device, d.registration / 256, d.registration % 256]) == [d.device, d.registration / 256, d.registration % 256]
  {
  }

  lemma EntryForm(r: Recipient)
    requires SmallDevices(r.devices)
    ensures LowBytes(RecipientItems(r)) == EntryBytes(r)
  {
    hide DeviceItems, DeviceBytes;
    DevicesForm(r.devices);
    RecipientItemsAre(r);
  }

  lemma {:induction false} EntriesForm(rs: seq<Recipient>)
    requires forall r :: r in rs ==> SmallDevices(r.devices)
    ensures LowBytes(ItemsOf(rs)) == EntriesBytes(rs)
  {
    hide RecipientItems, EntryBytes;
    if rs != [] {
      ItemsFront(rs);
      EntryForm(rs[0]);
      EntriesForm(rs[1..]);
      LowBytesSplit(RecipientItems(rs[0]), ItemsOf(rs[1..]));
    }
  }

  /** A listing byte by byte, or a bad argument for a device number past 255 or a registration id past 65535. */
  lemma ListingForm(rs: seq<Recipient>)
    ensures if forall r :: r in rs ==> SmallDevices(r.devices) then Written(rs) == Ok([|rs| % 256] + EntriesBytes(rs))
            else Written(rs) == Err(BadArgument)
  {
    hide EntriesBytes, ItemsOf;
    if forall r :: r in rs ==> SmallDevices(r.devices) {
      EntriesForm(rs);
      LowBytesSplit([|rs|], ItemsOf(rs));
      assert LowBytes([|rs|]) == [|rs| % 256];
      forall i, j | 0 <= i < |rs| && 0 <= j < |rs[i].devices| ensures DeviceFits(rs[i].devices[j]) {
        assert rs[i] in rs && rs[i].devices[j] in rs[i].devices;
      }
    } else {
      var r :| r in rs && !SmallDevices(r.devices);
      var i :| 0 <= i < |rs| && rs[i] == r;
      var d :| d in r.devices && !(d.device <= 255 && d.registration <= 65535);
      var j :| 0 <= j < |r.devices| && r.devices[j] == d;
      assert !DeviceFits(rs[i].devices[j]);
    }
  }

  // Which fault a grouping ends with

  /** The store has all there is to know of the address. */
  predicate Known(h: Held) {
    FromText(h.address.name).Ok? && h.identity.Some? && h.session.Some? && h.session.value.Some?
  }

  /** An address that cannot be resolved: a bad name first, then no identity, then a session without a live state. */
  lemma ContactFault(h: Held)
    requires h.session.Some?
    ensures FromText(h.address.name).Err? ==> ContactOf(h) == Err(FromText(h.address.name).error)
    ensures FromText(h.address.name).Ok? && h.identity.None? ==> ContactOf(h) == Err(NoSession)
    ensures FromText(h.address.name).Ok? && h.identity.Some? && h.session.value.None? ==> ContactOf(h) == Err(BadSession)
    ensures Known(h) ==>
              ContactOf(h) == Ok(Contact(FromText(h.address.name).value, Device(h.address.device, h.session.value.value), h.identity.value))
  {
  }

  lemma {:induction false} ContactsFault(hs: seq<Held>) returns (at: nat)
    requires forall h :: h in hs ==> h.session.Some?
    ensures at <= |hs| && forall i :: 0 <= i < at ==> Known(hs[i])
    ensures at == |hs| ==> ContactsOf(hs).Ok?
    ensures at < |hs| ==> !Known(hs[at]) && ContactsOf(hs).Err? && ContactOf(hs[at]).Err? && ContactsOf(hs).error == ContactOf(hs[at]).error
  {
    hide ContactOf, Known;
    if hs == [] {
      at := 0;
    } else {
      var last := hs[|hs| - 1];
      at := ContactsFault(hs[..|hs| - 1]);
      KnownIffContact(last);
      if at == |hs| - 1 && Known(last) {
        at := |hs|;
      }
    }
  }

  lemma KnownIffContact(h: Held)
    requires h.session.Some?
    ensures Known(h) <==> ContactOf(h).Ok?
  {
  }

  /** A missing session anywhere comes first; then the first address that is not known decides. */
  lemma GroupingFails(hs: seq<Held>)
    ensures RecipientsOf(hs).Ok? <==> forall h :: h in hs ==> Known(h)
    ensures (exists h :: h in hs && h.session.None?) ==> RecipientsOf(hs) == Err(NoSession)
    ensures (forall h :: h in hs ==> h.session.Some?) && RecipientsOf(hs).Err? ==>
              exists i :: 0 <= i < |hs| && (forall j :: 0 <= j < i ==> Known(hs[j])) && !Known(hs[i]) &&
                          ContactOf(hs[i]).Err? && RecipientsOf(hs).error == ContactOf(hs[i]).error
  {
    hide ContactOf;
    if forall h :: h in hs ==> h.session.Some? {
      var at := ContactsFault(hs);
      if at < |hs| {
        assert hs[at] in hs;
      }
    }
  }
}
