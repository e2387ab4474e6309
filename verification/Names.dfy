/** The text keys of the host's stores: addresses, distribution ids and their byte form. */
module Names {
  import opened Basics

  // Decimal device numbers

  function Digit(d: nat): char
    requires d < 10
  {
    '0' + d as char
  }

  predicate IsDigit(ch: char) {
    '0' <= ch <= '9'
  }

  function Decimal(n: nat): (s: string)
    ensures |s| > 0 && forall i :: 0 <= i < |s| ==> IsDigit(s[i])
  {
    if n < 10 then [Digit(n)] else Decimal(n / 10) + [Digit(n % 10)]
  }

  /** What digits are worth, the last the units. */
  function Worth(s: string): nat
    requires forall i :: 0 <= i < |s| ==> IsDigit(s[i])
  {
    if s == "" then 0
    else
      assert IsDigit(s[|s| - 1]);
      10 * Worth(s[..|s| - 1]) + (s[|s| - 1] - '0') as nat
  }

  /** A number is written by its value, without leading zeros. */
  lemma {:induction false} DecimalIsWorth(n: nat)
    ensures Worth(Decimal(n)) == n
    ensures n > 0 ==> Decimal(n)[0] != '0'
    ensures n < 10 ==> |Decimal(n)| == 1
  {
    if n >= 10 {
      DecimalIsWorth(n / 10);
      assert Decimal(n)[..|Decimal(n)| - 1] == Decimal(n / 10);
    }
  }

  lemma {:induction false} DecimalIsInjective(a: nat, b: nat)
    requires Decimal(a) == Decimal(b)
    ensures a == b
  {
    var s, t := Decimal(a), Decimal(b);
    if a >= 10 || b >= 10 {
      assert s[..|s| - 1] == Decimal(a / 10) && t[..|t| - 1] == Decimal(b / 10);
      DecimalIsInjective(a / 10, b / 10);
    }
  }

  // Keys

  datatype Address = Address(name: string, device: U32)

  function AddressText(name: string, device: U32): string {
    name + "." + Decimal(device)
  }

  /** A tail without the separator is the part after the last one. */
  lemma LastPartIsUnique(a: string, b: string, s: string, t: string, mark: char)
    requires mark !in s && mark !in t && a + [mark] + s == b + [mark] + t
    ensures a == b && s == t
  {
    LastMark(a, s, mark);
    LastMark(b, t, mark);
    var all := a + [mark] + s;
    assert all[..|a|] == a && (b + [mark] + t)[..|b|] == b;
    assert all[|a| + 1..] == s && (b + [mark] + t)[|b| + 1..] == t;
  }

  lemma LastMark(a: string, s: string, mark: char)
    requires mark !in s
    ensures var all := a + [mark] + s;
            all[|a|] == mark && forall i :: |a| < i < |all| ==> all[i] != mark
  {
  }

  /** The decimal device after the last dot tells names apart whatever dots they hold themselves. */
  lemma AddressIsInjective(a: string, d: U32, b: string, e: U32)
    requires AddressText(a, d) == AddressText(b, e)
    ensures a == b && d == e
  {
    LastPartIsUnique(a, b, Decimal(d), Decimal(e), '.');
    DecimalIsInjective(d, e);
  }

  function LowerChar(ch: char): char {
    if 'A' <= ch <= 'Z' then ch - 'A' + 'a' else ch
  }

  function Lower(s: string): (r: string)
    ensures |r| == |s|
    ensures forall i :: 0 <= i < |s| ==> r[i] == LowerChar(s[i])
  {
    seq(|s|, i requires 0 <= i < |s| => LowerChar(s[i]))
  }

  function KeyText(name: string, device: U32, id: string): string {
    AddressText(name, device) + "|" + Lower(id)
  }

  /**
   * A bar in the first id can be read as the end of a longer address: the second name goes on where the
   * first address ends, and the first id holds the rest of that address before its bar.
   */
  predicate ReadsAs(a: string, d: U32, id: string, b: string, e: U32, other: string) {
    var front := AddressText(a, d) + "|";
    && |b| >= |front| && b[..|front|] == front
    && Lower(id) == AddressText(b[|front|..], e) + "|" + Lower(other)
  }

  /**
   * Two record keys are equal exactly for the same name, device and id up to case, or when a bar in one
   * of the ids lets its key be read as the other's.
   */
  lemma KeyIsInjective(a: string, d: U32, id: string, b: string, e: U32, other: string)
    ensures KeyText(a, d, id) == KeyText(b, e, other) <==>
            (a == b && d == e && Lower(id) == Lower(other)) || ReadsAs(a, d, id, b, e, other) || ReadsAs(b, e, other, a, d, id)
  {
    hide AddressText, Lower;
    if KeyText(a, d, id) == KeyText(b, e, other) {
      if |Lower(id)| == |Lower(other)| {
        SameParts(AddressText(a, d), Lower(id), AddressText(b, e), Lower(other));
        AddressIsInjective(a, d, b, e);
      } else if |Lower(id)| > |Lower(other)| {
        LongerIdReadsAs(a, d, id, b, e, other);
      } else {
        LongerIdReadsAs(b, e, other, a, d, id);
      }
    }
    if ReadsAs(a, d, id, b, e, other) {
      ReadsAsCollides(a, d, id, b, e, other);
    }
    if ReadsAs(b, e, other, a, d, id) {
      ReadsAsCollides(b, e, other, a, d, id);
    }
  }

  lemma SameParts(a: string, s: string, b: string, t: string)
    requires a + "|" + s == b + "|" + t && |s| == |t|
    ensures a == b && s == t
  {
    assert (a + "|" + s)[..|a|] == a && (b + "|" + t)[..|b|] == b;
    assert (a + "|" + s)[|a| + 1..] == s && (b + "|" + t)[|b| + 1..] == t;
  }

  lemma ReadsAsCollides(a: string, d: U32, id: string, b: string, e: U32, other: string)
    requires ReadsAs(a, d, id, b, e, other)
    ensures KeyText(a, d, id) == KeyText(b, e, other)
  {
    hide Lower;
    var front := AddressText(a, d) + "|";
    assert front + AddressText(b[|front|..], e) == AddressText(front + b[|front|..], e);
    assert b == front + b[|front|..];
  }

  lemma NoBarAfterName(b: string, e: U32)
    ensures forall i :: |b| <= i < |AddressText(b, e)| ==> AddressText(b, e)[i] != '|'
  {
    hide Decimal;
    forall i | |b| < i < |AddressText(b, e)| ensures AddressText(b, e)[i] != '|' {
      assert AddressText(b, e)[i] == Decimal(e)[i - |b| - 1];
    }
  }

  /** The longer id reaches past the bar of its own key, into what the other key has as its address. */
  lemma LongerIdReadsAs(a: string, d: U32, id: string, b: string, e: U32, other: string)
    requires KeyText(a, d, id) == KeyText(b, e, other) && |Lower(id)| > |Lower(other)|
    ensures ReadsAs(a, d, id, b, e, other)
  {
    hide Lower, Decimal;
    var all, first, second := KeyText(a, d, id), AddressText(a, d), AddressText(b, e);
    var n := |first|;
    assert n < |second|;
    assert all[n] == '|' && all[n] == second[n];
    NoBarAfterName(b, e);
    assert all[..n + 1] == first + "|" && second[..n + 1] == b[..n + 1] && all[..n + 1] == second[..n + 1];
    assert all[n + 1..] == Lower(id);
    assert all[n + 1..] == second[n + 1..] + "|" + Lower(other);
    assert second[n + 1..] == AddressText(b[n + 1..], e);
  }

  /** An id without a bar is never read that way. */
  lemma ReadingNeedsBar(a: string, d: U32, id: string, b: string, e: U32, other: string)
    ensures ReadsAs(a, d, id, b, e, other) ==> '|' in id
  {
    hide AddressText;
    if ReadsAs(a, d, id, b, e, other) {
      var k := |id| - |other| - 1;
      assert Lower(id)[k] == '|' && Lower(id)[k] == LowerChar(id[k]);
      assert id[k] == '|';
    }
  }

  /** Text that reads as an address: anything, a dot and a decimal device. */
  ghost predicate EndsInDevice(s: string) {
    exists p: string, e: U32 :: s == AddressText(p, e)
  }

  /**
   * An id's record key is the key of a shorter id as well, whoever's, exactly when the id has a bar and
   * the text before it ends in a dot and a decimal device; so never for an id without a bar.
   */
  lemma BarsCollideIff(a: string, d: U32, id: string)
    ensures (exists b: string, e: U32, other: string :: KeyText(b, e, other) == KeyText(a, d, id) && |other| < |id|) <==>
            exists k :: 0 <= k < |id| && id[k] == '|' && EndsInDevice(Lower(id[..k]))
  {
    hide AddressText;
    if b: string, e: U32, other: string :| KeyText(b, e, other) == KeyText(a, d, id) && |other| < |id| {
      KeyIsInjective(a, d, id, b, e, other);
      var front := AddressText(a, d) + "|";
      var k := |id| - |other| - 1;
      assert Lower(id)[k] == '|' && Lower(id)[..k] == AddressText(b[|front|..], e);
      assert Lower(id[..k]) == Lower(id)[..k];
      assert id[k] == '|';
    }
    if k :| 0 <= k < |id| && id[k] == '|' && EndsInDevice(Lower(id[..k])) {
      var p: string, e: U32 :| Lower(id[..k]) == AddressText(p, e);
      var front := AddressText(a, d) + "|";
      assert (front + p)[|front|..] == p;
      assert Lower(id) == Lower(id[..k]) + "|" + Lower(id[k + 1..]);
      ReadsAsCollides(a, d, id, front + p, e, id[k + 1..]);
    }
  }

  /** The shortest such pair. */
  lemma BarsCollide()
    ensures KeyText("a", 1, "x.2|y") == KeyText("a.1|x", 2, "y")
  {
  }

  // Hexadecimal

  function HexValue(ch: char): (v: Option<nat>)
    ensures v.Some? ==> v.value < 16
  {
    if '0' <= ch <= '9' then Some((ch - '0') as nat)
    else if 'a' <= ch <= 'f' then Some((ch - 'a') as nat + 10)
    else if 'A' <= ch <= 'F' then Some((ch - 'A') as nat + 10)
    else None
  }

  function HexDigit(v: nat): (ch: char)
    requires v < 16
  {
    if v < 10 then '0' + v as char else 'a' + (v - 10) as char
  }

  lemma HexDigitReadsBack(v: nat)
    requires v < 16
    ensures HexValue(HexDigit(v)) == Some(v)
  {
  }

  lemma HexValueWritesLower(ch: char)
    requires HexValue(ch).Some?
    ensures HexDigit(HexValue(ch).value) == LowerChar(ch)
  {
  }

  predicate AllHex(s: string) {
    forall i :: 0 <= i < |s| ==> HexValue(s[i]).Some?
  }

  // Ids

  function WithoutHyphens(s: string): (r: string)
    ensures |r| <= |s|
    ensures '-' !in r
  {
    if s == "" then "" else (if s[0] == '-' then "" else [s[0]]) + WithoutHyphens(s[1..])
  }

  function ByteAt(hex: string, i: nat): Byte
    requires AllHex(hex) && 2 * i + 1 < |hex|
  {
    HexValue(hex[2 * i]).value * 16 + HexValue(hex[2 * i + 1]).value
  }

  /** Hyphens count for nothing wherever they are; what is left must be thirty-two hexadecimal digits. */
  function UuidBytes(s: string): Result<Bytes16, Fault> {
    var hex := WithoutHyphens(s);
    if |hex| == 32 && AllHex(hex) then
      var bytes: Bytes16 := seq(16, i requires 0 <= i < 16 => ByteAt(hex, i));
      Ok(bytes)
    else Err(BadArgument)
  }

  /** An id of another number of digits, or with anything but digits and hyphens, is a bad argument. */
  lemma OtherIdsRefused(s: string)
    ensures UuidBytes(s).Err? ==> UuidBytes(s) == Err(BadArgument)
    ensures (exists ch :: ch in s && ch != '-' && HexValue(ch).None?) ==> UuidBytes(s).Err?
    ensures |WithoutHyphens(s)| != 32 ==> UuidBytes(s).Err?
  {
    KeepsAllButHyphens(s);
  }

  lemma {:induction false} KeepsAllButHyphens(s: string)
    ensures forall ch :: ch in WithoutHyphens(s) <==> ch in s && ch != '-'
  {
    if s != "" {
      KeepsAllButHyphens(s[1..]);
    }
  }

  method UuidToBytes(s: string) returns (r: Result<Bytes16, Fault>)
    ensures r == UuidBytes(s)
  {
    var hex := WithoutHyphens(s);
    if |hex| != 32 || !AllHex(hex) {
      return Err(BadArgument);
    }
    var out: array<Byte> := new Byte[16](_ => 0);
    for i := 0 to 16
      invariant forall k :: 0 <= k < i ==> out[k] == ByteAt(hex, k)
    {
      out[i] := HexValue(hex[2 * i]).value * 16 + HexValue(hex[2 * i + 1]).value;
    }
    assert out[..] == UuidBytes(s).value;
    return Ok(out[..]);
  }

  function Hex(bytes: Bytes): (r: string)
    ensures |r| == 2 * |bytes|
    ensures forall i :: 0 <= i < |bytes| ==> r[2 * i] == HexDigit(bytes[i] / 16) && r[2 * i + 1] == HexDigit(bytes[i] % 16)
  {
    seq(2 * |bytes|, i requires 0 <= i < 2 * |bytes| => HexDigit(if i % 2 == 0 then bytes[i / 2] / 16 else bytes[i / 2] % 16))
  }

  /** Thirty-two digits in groups of eight, four, four, four and twelve. */
  function Grouped(hex: string): string
    requires |hex| == 32
  {
    hex[..8] + "-" + hex[8..12] + "-" + hex[12..16] + "-" + hex[16..20] + "-" + hex[20..]
  }

  function UuidText(bytes: Bytes16): string {
    Grouped(Hex(bytes))
  }

  const HEX := "0123456789abcdef"

  /** Where a digit of an id is in its text: past the hyphens before it. */
  function Place(k: nat): nat {
    if k < 8 then k else if k < 12 then k + 1 else if k < 16 then k + 2 else if k < 20 then k + 3 else k + 4
  }

  /** The text of an id, character by character: each byte high digit first, in lower case, between four hyphens. */
  lemma TextIs(bytes: Bytes16, i: nat)
    requires i < 16
    ensures var s := UuidText(bytes);
            && |s| == 36 && s[8] == s[13] == s[18] == s[23] == '-'
            && s[Place(2 * i)] == HEX[bytes[i] / 16] && s[Place(2 * i) + 1] == HEX[bytes[i] % 16]
  {
    hide Hex, HexDigit;
    GroupedAt(Hex(bytes), 2 * i);
    HexDigitIs(bytes[i] / 16);
    HexDigitIs(bytes[i] % 16);
  }

  lemma HexDigitIs(v: nat)
    requires v < 16
    ensures HexDigit(v) == HEX[v]
  {
  }

  lemma GroupedAt(hex: string, k: nat)
    requires |hex| == 32 && k < 31 && k % 2 == 0
    ensures var s := Grouped(hex);
            |s| == 36 && s[8] == s[13] == s[18] == s[23] == '-' && s[Place(k)] == hex[k] && s[Place(k) + 1] == hex[k + 1]
  {
  }

  /** Upper-case letters are lowered, one by one, and nothing else changes. */
  lemma LowersLetters(i: nat, ch: char)
    requires i < 26
    ensures LowerChar("ABCDEFGHIJKLMNOPQRSTUVWXYZ"[i]) == "abcdefghijklmnopqrstuvwxyz"[i]
    ensures ch < 'A' || ch > 'Z' ==> LowerChar(ch) == ch
  {
  }

  /** One key in full: name, dot, device, bar, the id in lower case. */
  lemma OneKey()
    ensures KeyText("alice", 12, "A1B-9F") == "alice.12|a1b-9f"
  {
    assert Decimal(12) == Decimal(1) + "2";
    assert Lower("A1B-9F") == "a1b-9f";
  }

  lemma HyphensFront(s: string)
    requires s != ""
    ensures WithoutHyphens(s) == (if s[0] == '-' then "" else [s[0]]) + WithoutHyphens(s[1..])
  {
  }

  lemma {:induction false} HyphensSplit(a: string, b: string)
    ensures WithoutHyphens(a + b) == WithoutHyphens(a) + WithoutHyphens(b)
  {
    hide WithoutHyphens;
    if a == "" {
      assert a + b == b;
    } else {
      HyphensFront(a);
      HyphensFront(a + b);
      assert (a + b)[1..] == a[1..] + b;
      HyphensSplit(a[1..], b);
    }
  }

  lemma {:induction false} NoHyphens(s: string)
    ensures WithoutHyphens(s) == s <==> '-' !in s
  {
    if s != "" {
      NoHyphens(s[1..]);
    }
  }

  lemma UngroupsGrouped(hex: string)
    requires |hex| == 32 && '-' !in hex
    ensures WithoutHyphens(Grouped(hex)) == hex
  {
    hide WithoutHyphens;
    var a, b, c, d, e := hex[..8], hex[8..12], hex[12..16], hex[16..20], hex[20..];
    NoHyphens(a); NoHyphens(b); NoHyphens(c); NoHyphens(d); NoHyphens(e);
    OneHyphen();
    HyphensSplit(a, "-");
    HyphensSplit(a + "-", b);
    HyphensSplit(a + "-" + b, "-");
    HyphensSplit(a + "-" + b + "-", c);
    HyphensSplit(a + "-" + b + "-" + c, "-");
    HyphensSplit(a + "-" + b + "-" + c + "-", d);
    HyphensSplit(a + "-" + b + "-" + c + "-" + d, "-");
    HyphensSplit(a + "-" + b + "-" + c + "-" + d + "-", e);
  }

  lemma OneHyphen()
    ensures WithoutHyphens("-") == ""
  {
  }

  lemma HexIsHex(bytes: Bytes)
    ensures AllHex(Hex(bytes)) && '-' !in Hex(bytes)
  {
  }

  /** Bytes written as text read back as the same bytes. */
  lemma TextReadsBack(bytes: Bytes16)
    ensures UuidBytes(UuidText(bytes)) == Ok(bytes)
  {
    hide WithoutHyphens, Hex;
    var hex := Hex(bytes);
    HexIsHex(bytes);
    UngroupsGrouped(hex);
    forall i | 0 <= i < 16 ensures ByteAt(hex, i) == bytes[i] {
      HexDigitReadsBack(bytes[i] % 16);
    }
    assert UuidBytes(UuidText(bytes)).value == bytes;
  }

  /** The text form of RFC 9562 section 4, in either case. */
  predicate Hyphenated(s: string) {
    && |s| == 36
    && forall i :: 0 <= i < 36 ==> if i in {8, 13, 18, 23} then s[i] == '-' else HexValue(s[i]).Some?
  }

  /** The digits of hyphenated text. */
  function Ungrouped(s: string): (hex: string)
    requires |s| == 36
    ensures |hex| == 32
  {
    s[..8] + s[9..13] + s[14..18] + s[19..23] + s[24..]
  }

  lemma HyphenatedIsGrouped(s: string)
    requires Hyphenated(s)
    ensures s == Grouped(Ungrouped(s)) && AllHex(Ungrouped(s)) && '-' !in Ungrouped(s)
  {
    var hex := Ungrouped(s);
    assert hex[..8] == s[..8] && hex[8..12] == s[9..13] && hex[12..16] == s[14..18];
    forall i | 0 <= i < 32 ensures HexValue(hex[i]).Some? && hex[i] != '-' {
    }
  }

  lemma WritesLower(hex: string)
    requires |hex| == 32 && AllHex(hex)
    ensures Hex(seq(16, i requires 0 <= i < 16 => ByteAt(hex, i))) == Lower(hex)
  {
    hide Hex;
    var bytes := seq(16, i requires 0 <= i < 16 => ByteAt(hex, i));
    var text := Hex(bytes);
    forall i | 0 <= i < 32 ensures text[i] == Lower(hex)[i] {
      WritesPair(hex, i / 2);
      assert bytes[i / 2] == ByteAt(hex, i / 2);
      assert i == 2 * (i / 2) || i == 2 * (i / 2) + 1;
    }
  }

  lemma WritesPair(hex: string, b: nat)
    requires AllHex(hex) && 2 * b + 1 < |hex|
    ensures HexDigit(ByteAt(hex, b) / 16) == LowerChar(hex[2 * b])
    ensures HexDigit(ByteAt(hex, b) % 16) == LowerChar(hex[2 * b + 1])
  {
    HexValueWritesLower(hex[2 * b]);
  }

  lemma LowerGroups(hex: string)
    requires |hex| == 32
    ensures Grouped(Lower(hex)) == Lower(Grouped(hex))
  {
  }

  /** A hyphenated id in either case is always accepted. */
  lemma HyphenatedIsAccepted(s: string)
    requires Hyphenated(s)
    ensures UuidBytes(s).Ok? && UuidText(UuidBytes(s).value) == Lower(s)
  {
    hide WithoutHyphens, Grouped, Ungrouped, Hex;
    HyphenatedIsGrouped(s);
    var hex := Ungrouped(s);
    UngroupsGrouped(hex);
    WritesLower(hex);
    LowerGroups(hex);
  }

  /** Only hyphenated text is the lower-case text of its bytes. */
  lemma OnlyHyphenatedReadsBack(s: string, bytes: Bytes16)
    requires Lower(s) == UuidText(bytes)
    ensures Hyphenated(s)
  {
    hide Hex, Grouped;
    HexIsHex(bytes);
    GroupedIsHyphenated(Hex(bytes));
    forall i | 0 <= i < 36 ensures if i in {8, 13, 18, 23} then s[i] == '-' else HexValue(s[i]).Some? {
    }
  }

  lemma GroupedIsHyphenated(hex: string)
    requires |hex| == 32 && AllHex(hex)
    ensures Hyphenated(Grouped(hex))
  {
  }

  /**
   * For an id the host accepts, the record key built from its text is the one rebuilt from the bytes in
   * a message exactly when the text is hyphenated, in either case.
   */
  lemma OwnKeyIsMessageKey(name: string, device: U32, id: string)
    requires UuidBytes(id).Ok?
    ensures KeyText(name, device, id) == KeyText(name, device, UuidText(UuidBytes(id).value)) <==> Hyphenated(id)
  {
    hide Hyphenated, UuidBytes, Decimal;
    var bytes := UuidBytes(id).value;
    var text := UuidText(bytes);
    TextIsLower(bytes);
    SameTail(AddressText(name, device) + "|", Lower(id), text);
    if Hyphenated(id) {
      HyphenatedIsAccepted(id);
    } else if Lower(id) == text {
      OnlyHyphenatedReadsBack(id, bytes);
    }
  }

  lemma TextIsLower(bytes: Bytes16)
    ensures Lower(UuidText(bytes)) == UuidText(bytes)
  {
    var hex := Hex(bytes);
    forall i | 0 <= i < 32 ensures LowerChar(hex[i]) == hex[i] {
    }
    assert Lower(hex) == hex;
    LowerGroups(hex);
  }

  lemma SameTail(a: string, s: string, t: string)
    ensures a + s == a + t <==> s == t
  {
    assert (a + s)[|a|..] == s && (a + t)[|a|..] == t;
  }
}
