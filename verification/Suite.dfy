/** The cryptography as uninterpreted functions, the few laws relied on, and an instance that has them. */
module Suites {
  import opened Basics

  datatype CircleKeys = CircleKeys(iv: Bytes16, cipher: Bytes32)

  datatype Public = Public(u: Bytes32)

  /** A secret is held clamped, so its serialised form is canonical. */
  type Secret = s: Bytes | |s| == 32 && s[0] % 8 == 0 && 64 <= s[31] < 128
    witness seq(31, _ => 0) + [64]

  const CURVE_KEY_TAG: Byte := 5
  const SIGNATURE_LENGTH := 64

  datatype Suite = Suite(
    chainNext: Bytes32 -> Bytes32,
    chainSeed: Bytes32 -> Bytes32,
    circleKeys: Bytes32 -> CircleKeys,
    encrypt: (Bytes32, Bytes16) -> Bytes16,
    decrypt: (Bytes32, Bytes16) -> Bytes16,
    publicOf: Secret -> Option<Public>,
    sign: (Secret, Bytes, Bytes64) -> Option<Bytes64>,
    verify: (Public, Bytes, Bytes64) -> bool)

  /** All that the round trips assume: blocks decrypt, and what a key pair signs verifies. */
  ghost predicate Lawful(c: Suite) {
    && (forall key, block :: c.decrypt(key, c.encrypt(key, block)) == block)
    && (forall s, m, n :: c.sign(s, m, n).Some? && c.publicOf(s).Some? ==>
          c.verify(c.publicOf(s).value, m, c.sign(s, m, n).value))
  }

  /** Ideal signatures: besides, a signature verifies under no key but its signer's. */
  ghost predicate Ideal(c: Suite) {
    && Lawful(c)
    && (forall s, p, m, n :: c.sign(s, m, n).Some? ==>
          (c.verify(p, m, c.sign(s, m, n).value) <==> c.publicOf(s) == Some(p)))
  }

  /** The signature is one the holder of the key's secret makes of the message. */
  ghost predicate SignedWith(c: Suite, p: Public, m: Bytes, g: Bytes64) {
    exists s: Secret, n: Bytes64 :: c.publicOf(s) == Some(p) && c.sign(s, m, n) == Some(g)
  }

  /** Nothing else verifies: every signature that does was made, of that very message, with the key's secret. */
  ghost predicate Unforged(c: Suite) {
    && Ideal(c)
    && (forall p, m, g :: c.verify(p, m, g) ==> SignedWith(c, p, m, g))
  }

  function ToySuite(): Suite {
    Suite(
      (seed: Bytes32) => seed[1..] + seed[..1],
      (seed: Bytes32) => seed,
      (seed: Bytes32) => CircleKeys(seed[..16], seed),
      (key: Bytes32, block: Bytes16) => block,
      (key: Bytes32, block: Bytes16) => block,
      (s: Secret) => Some(Public(s)),
      (s: Secret, m: Bytes, n: Bytes64) => Some(s + n[..32]),
      (p: Public, m: Bytes, g: Bytes64) => g[..32] == p.u && p.u == Clamp(p.u))
  }

  /** The assumptions are consistent: they hold of at least one suite. */
  lemma LawsAreConsistent()
    ensures Unforged(ToySuite())
  {
    var c := ToySuite();
    forall p: Public, m: Bytes, g: Bytes64 | c.verify(p, m, g) ensures SignedWith(c, p, m, g) {
      var s: Secret := Clamp(p.u);
      var n: Bytes64 := g[32..] + ZERO32;
      assert s + n[..32] == g;
      assert c.publicOf(s) == Some(p) && c.sign(s, m, n) == Some(g);
    }
  }

  // Keys in bytes

  function SerializePublic(p: Public): Bytes33 {
    [CURVE_KEY_TAG] + p.u
  }

  function ParsePublic(data: Bytes): Result<Public, Fault> {
    if |data| != 33 then Err(BadKey)
    else if data[0] != CURVE_KEY_TAG then Err(UnknownKeyType)
    else Ok(Public(data[1..]))
  }

  /** Clears the low three bits of the first byte and sets bit six, clears bit seven, of the last. */
  function Clamp(s: Bytes32): Secret {
    var last := s[31] % 128;
    [s[0] - s[0] % 8] + s[1..31] + [if last < 64 then last + 64 else last]
  }

  function ParseSecret(data: Bytes): Result<Secret, Fault> {
    if |data| != 32 then Err(BadKey) else Ok(Clamp(data))
  }

  /** Key parsing undoes serialising, and accepts exactly a five and the key's 32 bytes. */
  lemma PublicRoundTrip(p: Public, data: Bytes)
    ensures ParsePublic(SerializePublic(p)) == Ok(p)
    ensures ParsePublic(data) == Ok(p) <==> data == [5] + p.u
    ensures |data| != 33 ==> ParsePublic(data) == Err(BadKey)
    ensures |data| == 33 && data[0] != 5 ==> ParsePublic(data) == Err(UnknownKeyType)
  {
  }

  /** Parsing clamps: clamping twice changes nothing, and a held secret survives its own bytes; but for five bits, so does any. */
  lemma SecretRoundTrip(s: Secret, raw: Bytes32)
    ensures ParseSecret(s) == Ok(s)
    ensures Clamp(Clamp(raw)) == Clamp(raw)
    ensures Clamp(raw)[1..31] == raw[1..31] && Clamp(raw)[0] / 8 == raw[0] / 8 && Clamp(raw)[31] % 64 == raw[31] % 64
  {
    assert Clamp(s) == s;
  }
}
