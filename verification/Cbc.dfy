/** AES-256 in CBC mode with PKCS#7 padding, over the suite's block cipher. */
module Cbc {
  import opened Basics
  import opened Suites

  // Exclusive or of bytes, bit by bit

  function XorBits(a: nat, b: nat, bits: nat): (x: nat)
    ensures x < Two(bits)
  {
    if bits == 0 then 0 else (a + b) % 2 + 2 * XorBits(a / 2, b / 2, bits - 1)
  }

  ghost function Two(bits: nat): nat {
    if bits == 0 then 1 else 2 * Two(bits - 1)
  }

  function Xor(a: Byte, b: Byte): Byte {
    assert Two(4) == 16 && Two(8) == 256;
    XorBits(a, b, 8)
  }

  lemma {:induction false} XorBitsCancel(a: nat, b: nat, bits: nat)
    requires a < Two(bits)
    ensures XorBits(XorBits(a, b, bits), b, bits) == a
  {
    if bits > 0 {
      XorBitsCancel(a / 2, b / 2, bits - 1);
      LowBit(a, b, XorBits(a / 2, b / 2, bits - 1));
    }
  }

  lemma LowBit(a: nat, b: nat, high: nat)
    ensures var x := (a + b) % 2 + 2 * high;
            x / 2 == high && (x + b) % 2 == a % 2
  {
  }

  function XorBlock(a: Bytes16, b: Bytes16): Bytes16 {
    seq(16, i requires 0 <= i < 16 => Xor(a[i], b[i]))
  }

  lemma XorBlockCancel(a: Bytes16, b: Bytes16)
    ensures XorBlock(XorBlock(a, b), b) == a
  {
    assert Two(4) == 16 && Two(8) == 256;
    forall i | 0 <= i < 16 ensures XorBlock(XorBlock(a, b), b)[i] == a[i] {
      XorBitsCancel(a[i], b[i], 8);
    }
  }

  // Specification

  function PadByte(plain: Bytes): Byte {
    16 - |plain| % 16
  }

  function Padded(plain: Bytes): (out: Bytes)
    ensures |out| % 16 == 0 && |out| > 0
  {
    plain + seq(PadByte(plain), _ => PadByte(plain))
  }

  function Unpadded(data: Bytes): Result<Bytes, Fault>
    requires |data| >= 16
  {
    var pad := data[|data| - 1];
    if pad == 0 || pad > 16 then Err(BadPadding)
    else if exists i | |data| - pad <= i < |data| :: data[i] != pad then Err(BadPadding)
    else Ok(data[..|data| - pad])
  }

  /** Each block is the previous sealed block mixed in, then enciphered. */
  function SealBlocks(c: Suite, key: Bytes32, prev: Bytes16, data: Bytes): (out: Bytes)
    requires |data| % 16 == 0
    ensures |out| == |data|
    decreases |data|
  {
    if data == [] then []
    else
      var block: Bytes := c.encrypt(key, XorBlock(data[..16], prev));
      var rest: Bytes := data[16..];
      block + SealBlocks(c, key, block, rest)
  }

  function OpenBlocks(c: Suite, key: Bytes32, prev: Bytes16, sealed: Bytes): (out: Bytes)
    requires |sealed| % 16 == 0
    ensures |out| == |sealed|
    decreases |sealed|
  {
    if sealed == [] then []
    else
      var rest: Bytes := sealed[16..];
      var block: Bytes := XorBlock(c.decrypt(key, sealed[..16]), prev);
      block + OpenBlocks(c, key, sealed[..16], rest)
  }

  function Seal(c: Suite, key: Bytes32, iv: Bytes16, plain: Bytes): Bytes {
    SealBlocks(c, key, iv, Padded(plain))
  }

  function Open(c: Suite, key: Bytes32, iv: Bytes16, sealed: Bytes): Result<Bytes, Fault> {
    if |sealed| == 0 || |sealed| % 16 != 0 then Err(BadMessage)
    else Unpadded(OpenBlocks(c, key, iv, sealed))
  }

  // Properties

  lemma {:induction false} OpensSealedBlocks(c: Suite, key: Bytes32, prev: Bytes16, data: Bytes)
    requires Lawful(c) && |data| % 16 == 0
    ensures OpenBlocks(c, key, prev, SealBlocks(c, key, prev, data)) == data
    decreases |data|
  {
    if data != [] {
      var mixed := XorBlock(data[..16], prev);
      var block: Bytes := c.encrypt(key, mixed);
      XorBlockCancel(data[..16], prev);
      OpensSealedBlocks(c, key, block, data[16..]);
    }
  }

  lemma UnpadsPadded(plain: Bytes)
    ensures Unpadded(Padded(plain)) == Ok(plain)
  {
  }

  /** Opening undoes sealing for a plaintext of any length, the empty one and whole blocks included. */
  lemma RoundTrip(c: Suite, key: Bytes32, iv: Bytes16, plain: Bytes)
    requires Lawful(c)
    ensures Open(c, key, iv, Seal(c, key, iv, plain)) == Ok(plain)
    ensures |Seal(c, key, iv, plain)| == (|plain| / 16 + 1) * 16
  {
    OpensSealedBlocks(c, key, iv, Padded(plain));
    UnpadsPadded(plain);
  }

  // What the bytes are, block by block

  /** What each of a byte's eight bits is worth. */
  const WEIGHTS: seq<nat> := [1, 2, 4, 8, 16, 32, 64, 128]

  function BitAt(x: nat, i: nat): nat {
    if i == 0 then x % 2 else BitAt(x / 2, i - 1)
  }

  lemma XorBitsFront(a: nat, b: nat, bits: nat)
    requires bits > 0
    ensures XorBits(a, b, bits) % 2 == (a % 2 + b % 2) % 2
    ensures XorBits(a, b, bits) / 2 == XorBits(a / 2, b / 2, bits - 1)
  {
    Parity(a, b, XorBits(a / 2, b / 2, bits - 1));
  }

  lemma Parity(a: nat, b: nat, high: nat)
    ensures var x := (a + b) % 2 + 2 * high;
            x / 2 == high && x % 2 == (a % 2 + b % 2) % 2
  {
  }

  lemma {:induction false} XorBitsAt(a: nat, b: nat, bits: nat, i: nat)
    requires i < bits
    ensures BitAt(XorBits(a, b, bits), i) == (BitAt(a, i) + BitAt(b, i)) % 2
    decreases i
  {
    hide XorBits;
    XorBitsFront(a, b, bits);
    if i > 0 {
      XorBitsAt(a / 2, b / 2, bits - 1, i - 1);
    }
  }

  lemma HalvesFirst(x: nat, i: nat)
    requires i < 7
    ensures x / 2 / WEIGHTS[i] == x / WEIGHTS[i + 1]
  {
  }

  lemma {:induction false} BitIsWeighed(x: nat, i: nat)
    requires i < 8
    ensures BitAt(x, i) == x / WEIGHTS[i] % 2
  {
    if i > 0 {
      BitIsWeighed(x / 2, i - 1);
      HalvesFirst(x, i - 1);
    }
  }

  /** Each bit of an exclusive or is set exactly when that bit of one of the two is and of the other is not. */
  lemma XorIsBitwise(a: Byte, b: Byte, i: nat)
    requires i < 8
    ensures Xor(a, b) / WEIGHTS[i] % 2 == 1 <==> (a / WEIGHTS[i] % 2 == 1) != (b / WEIGHTS[i] % 2 == 1)
  {
    hide XorBits, BitAt;
    XorBitsAt(a, b, 8, i);
    BitIsWeighed(a, i);
    BitIsWeighed(b, i);
    BitIsWeighed(Xor(a, b), i);
  }

  lemma {:induction false} XorBitsWithZero(a: nat, bits: nat)
    requires a < Two(bits)
    ensures XorBits(a, 0, bits) == a
  {
    if bits > 0 {
      XorBitsWithZero(a / 2, bits - 1);
    }
  }

  lemma XorBlockWithZeros(a: Bytes16, zeros: Bytes16)
    requires forall i :: 0 <= i < 16 ==> zeros[i] == 0
    ensures XorBlock(a, zeros) == a
  {
    assert Two(4) == 16 && Two(8) == 256;
    forall i | 0 <= i < 16 ensures XorBlock(a, zeros)[i] == a[i] {
      XorBitsWithZero(a[i], 8);
    }
  }

  /** The block at a place, counting blocks of sixteen bytes. */
  function BlockAt(data: Bytes, i: nat): Bytes16
    requires 16 * i + 16 <= |data|
  {
    data[16 * i..16 * i + 16]
  }

  /** A text to be sealed: itself, and as many bytes of one value as fill its last block, at least one. */
  lemma PaddedIs(plain: Bytes)
    ensures var pad, padded := 16 - |plain| % 16, Padded(plain);
            && |padded| == |plain| + pad && padded[..|plain|] == plain
            && forall k :: |plain| <= k < |padded| ==> padded[k] == pad
  {
  }

  /**
   * Every sealed block is the cipher of its plain block mixed with the sealed block before it, the first
   * with the starting vector.
   */
  lemma SealedBlock(c: Suite, key: Bytes32, iv: Bytes16, plain: Bytes, i: nat)
    requires 16 * i < |Padded(plain)|
    ensures var padded, sealed := Padded(plain), Seal(c, key, iv, plain);
            && |sealed| == |padded| && 16 * i + 16 <= |padded|
            && BlockAt(sealed, i) == c.encrypt(key, XorBlock(BlockAt(padded, i), if i == 0 then iv else BlockAt(sealed, i - 1)))
  {
    SealBlocksAt(c, key, iv, Padded(plain), i);
  }

  lemma {:induction false} SealBlocksAt(c: Suite, key: Bytes32, prev: Bytes16, data: Bytes, i: nat)
    requires |data| % 16 == 0 && 16 * i < |data|
    ensures var sealed := SealBlocks(c, key, prev, data);
            BlockAt(sealed, i) == c.encrypt(key, XorBlock(BlockAt(data, i), if i == 0 then prev else BlockAt(sealed, i - 1)))
    decreases i
  {
    hide SealBlocks;
    var block: Bytes16 := c.encrypt(key, XorBlock(data[..16], prev));
    var rest: Bytes := data[16..];
    var tail := SealBlocks(c, key, block, rest);
    var sealed := SealBlocks(c, key, prev, data);
    SealFront(c, key, prev, data);
    LaterBlock(block, tail, i);
    if i > 0 {
      SealBlocksAt(c, key, block, rest, i - 1);
      LaterBlock(block, tail, i - 1);
      LaterBlock(data[..16], rest, i);
      assert data == data[..16] + rest;
    }
  }

  lemma SealFront(c: Suite, key: Bytes32, prev: Bytes16, data: Bytes)
    requires |data| % 16 == 0 && data != []
    ensures var block: Bytes16 := c.encrypt(key, XorBlock(data[..16], prev));
            SealBlocks(c, key, prev, data) == block + SealBlocks(c, key, block, data[16..])
  {
  }

  lemma LaterBlock(first: Bytes16, rest: Bytes, i: nat)
    requires 16 * i <= |rest|
    ensures BlockAt(first + rest, i) == if i == 0 then first else BlockAt(rest, i - 1)
  {
  }

  /** A sealed block deciphered, with the sealed block before it mixed in, or the starting vector. */
  function Deciphered(c: Suite, key: Bytes32, prev: Bytes16, sealed: Bytes, i: nat): Bytes16
    requires 16 * i + 16 <= |sealed|
  {
    XorBlock(c.decrypt(key, BlockAt(sealed, i)), if i == 0 then prev else BlockAt(sealed, i - 1))
  }

  lemma {:induction false} OpenBlocksAt(c: Suite, key: Bytes32, prev: Bytes16, sealed: Bytes, i: nat)
    requires |sealed| % 16 == 0 && 16 * i < |sealed|
    ensures BlockAt(OpenBlocks(c, key, prev, sealed), i) == Deciphered(c, key, prev, sealed, i)
    decreases i
  {
    var rest: Bytes := sealed[16..];
    var block: Bytes := XorBlock(c.decrypt(key, sealed[..16]), prev);
    var tail := OpenBlocks(c, key, sealed[..16], rest);
    assert OpenBlocks(c, key, prev, sealed) == block + tail;
    if i > 0 {
      OpenBlocksAt(c, key, sealed[..16], rest, i - 1);
      assert BlockAt(block + tail, i) == BlockAt(tail, i - 1) && BlockAt(sealed, i) == BlockAt(rest, i - 1);
      assert i > 1 ==> BlockAt(sealed, i - 1) == BlockAt(rest, i - 2);
    }
  }

  /** The blocks decipher to a text and its padding. */
  ghost predicate Deciphers(c: Suite, key: Bytes32, iv: Bytes16, sealed: Bytes, plain: Bytes) {
    var padded := Padded(plain);
    && |sealed| == |padded|
    && forall i :: 0 <= i && 16 * i + 16 <= |padded| ==>
         BlockAt(padded, i) == Deciphered(c, key, iv, sealed, i)
  }

  /**
   * Opening answers a text exactly when the blocks decipher to it and its padding; sealed bytes that are
   * not whole blocks, or none, are a bad message, and any others that open to no text have bad padding.
   */
  lemma OpensIff(c: Suite, key: Bytes32, iv: Bytes16, sealed: Bytes, plain: Bytes)
    ensures Open(c, key, iv, sealed) == Ok(plain) <==> Deciphers(c, key, iv, sealed, plain)
    ensures Open(c, key, iv, sealed) == Err(BadMessage) <==> |sealed| == 0 || |sealed| % 16 != 0
    ensures Open(c, key, iv, sealed).Err? ==> Open(c, key, iv, sealed).error in {BadMessage, BadPadding}
  {
    hide BlockAt, Unpadded, Padded;
    var padded := Padded(plain);
    if |sealed| > 0 && |sealed| % 16 == 0 {
      var all := OpenBlocks(c, key, iv, sealed);
      UnpadsIff(all, plain);
      UnpadFaults(all);
      if Deciphers(c, key, iv, sealed, plain) {
        forall i | 0 <= i && 16 * i + 16 <= |padded| ensures BlockAt(padded, i) == BlockAt(all, i) {
          OpenBlocksAt(c, key, iv, sealed, i);
        }
        SameBlocks(all, padded);
      }
      if all == padded {
        forall i | 0 <= i && 16 * i + 16 <= |padded| ensures BlockAt(padded, i) == Deciphered(c, key, iv, sealed, i) {
          OpenBlocksAt(c, key, iv, sealed, i);
        }
      }
    }
  }

  lemma UnpadFaults(data: Bytes)
    requires |data| >= 16
    ensures Unpadded(data).Err? ==> Unpadded(data).error == BadPadding
  {
  }

  lemma UnpadsIff(data: Bytes, plain: Bytes)
    requires |data| >= 16 && |data| % 16 == 0
    ensures Unpadded(data) == Ok(plain) <==> data == Padded(plain)
  {
    if Unpadded(data) == Ok(plain) {
      var n := data[|data| - 1];
      assert data == data[..|data| - n] + data[|data| - n..];
    }
    if data == Padded(plain) {
      UnpadsPadded(plain);
    }
  }

  lemma SameBlocks(a: Bytes, b: Bytes)
    requires |a| % 16 == 0
    ensures a == b <==> |a| == |b| && forall i :: 0 <= i && 16 * i + 16 <= |a| && 16 * i + 16 <= |b| ==> BlockAt(b, i) == BlockAt(a, i)
  {
    if |a| == |b| && forall i :: 0 <= i && 16 * i + 16 <= |a| && 16 * i + 16 <= |b| ==> BlockAt(b, i) == BlockAt(a, i) {
      forall k | 0 <= k < |a| ensures a[k] == b[k] {
        assert BlockAt(a, k / 16)[k % 16] == a[k] && BlockAt(b, k / 16)[k % 16] == b[k];
      }
    }
  }

  /** A text shorter than a block, under a vector of zeros: one block of it and its padding, enciphered. */
  lemma ShortSeal(c: Suite, key: Bytes32, zeros: Bytes16, plain: Bytes, block: Bytes16)
    requires |plain| < 16 && forall i :: 0 <= i < 16 ==> zeros[i] == 0
    requires block[..|plain|] == plain && forall k :: |plain| <= k < 16 ==> block[k] == 16 - |plain|
    ensures Seal(c, key, zeros, plain) == c.encrypt(key, block)
  {
    PaddedIs(plain);
    SealedBlock(c, key, zeros, plain, 0);
    XorBlockWithZeros(block, zeros);
    var padded, sealed := Padded(plain), Seal(c, key, zeros, plain);
    assert block == block[..|plain|] + block[|plain|..] && padded == padded[..|plain|] + padded[|plain|..];
    assert BlockAt(padded, 0) == padded == block && BlockAt(sealed, 0) == sealed;
  }

  // The loops

  lemma {:induction false} SealBlocksSplit(c: Suite, key: Bytes32, prev: Bytes16, a: Bytes, block: Bytes)
    requires |a| % 16 == 0 && |block| == 16
    ensures SealBlocks(c, key, prev, a + block) ==
            SealBlocks(c, key, prev, a) +
            c.encrypt(key, XorBlock(block, LastBlock(prev, SealBlocks(c, key, prev, a))))
    decreases |a|
  {
    if a == [] {
      assert a + block == block && block[..16] == block && block[16..] == [];
    } else {
      var first: Bytes := c.encrypt(key, XorBlock(a[..16], prev));
      assert (a + block)[..16] == a[..16] && (a + block)[16..] == a[16..] + block;
      SealBlocksSplit(c, key, first, a[16..], block);
      var rest: Bytes := SealBlocks(c, key, first, a[16..]);
      if rest != [] {
        assert (first + rest)[|first + rest| - 16..] == rest[|rest| - 16..];
      } else {
        assert first + rest == first;
      }
    }
  }

  lemma {:induction false} OpenBlocksSplit(c: Suite, key: Bytes32, prev: Bytes16, a: Bytes, block: Bytes)
    requires |a| % 16 == 0 && |block| == 16
    ensures OpenBlocks(c, key, prev, a + block) ==
            OpenBlocks(c, key, prev, a) + XorBlock(c.decrypt(key, block), LastBlock(prev, a))
    decreases |a|
  {
    if a == [] {
      assert a + block == block && block[..16] == block && block[16..] == [];
    } else {
      assert (a + block)[..16] == a[..16] && (a + block)[16..] == a[16..] + block;
      OpenBlocksSplit(c, key, a[..16], a[16..], block);
    }
  }

  /** The last sealed block, or the starting vector before there is one. */
  ghost function LastBlock(prev: Bytes16, sealed: Bytes): Bytes16
    requires |sealed| % 16 == 0
  {
    if sealed == [] then prev else sealed[|sealed| - 16..]
  }

  lemma NothingSealed(c: Suite, key: Bytes32, iv: Bytes16)
    ensures SealBlocks(c, key, iv, []) == [] && OpenBlocks(c, key, iv, []) == []
  {
  }

  /** The inner loop: the next sixteen bytes of the text, or of its padding, each mixed with the block before. */
  method MixBlock(plain: Bytes, pad: Byte, prev: Bytes16, i: nat) returns (block: Bytes16)
    ensures forall j :: 0 <= j < 16 ==> block[j] == Xor(if i + j < |plain| then plain[i + j] else pad, prev[j])
  {
    hide Xor;
    var out := new Byte[16](_ => 0);
    for j := 0 to 16
      invariant forall k :: 0 <= k < j ==> out[k] == Xor(if i + k < |plain| then plain[i + k] else pad, prev[k])
    {
      var p := i + j;
      out[j] := Xor(if p < |plain| then plain[p] else pad, prev[j]);
    }
    return out[..];
  }

  method CbcSeal(c: Suite, key: Bytes32, iv: Bytes16, plain: Bytes) returns (r: Bytes)
    ensures r == Seal(c, key, iv, plain)
  {
    hide SealBlocks, Xor, Padded;
    NothingSealed(c, key, iv);
    PaddedIs(plain);
    var pad: Byte := 16 - |plain| % 16;
    var size := |plain| + pad;
    ghost var padded := Padded(plain);
    var prev: Bytes16 := iv;
    r := [];
    var i := 0;
    while i < size
      invariant 0 <= i <= size && i % 16 == 0 && size % 16 == 0
      invariant r == SealBlocks(c, key, iv, padded[..i])
      invariant prev == LastBlock(iv, r)
    {
      ghost var whole := padded[i..i + 16];
      var block := MixBlock(plain, pad, prev, i);
      assert block == XorBlock(whole, prev);
      SealBlocksSplit(c, key, iv, padded[..i], whole);
      assert padded[..i] + whole == padded[..i + 16];
      prev := c.encrypt(key, block);
      r := r + prev;
      i := i + 16;
    }
    assert padded[..size] == padded;
  }

  method CbcOpen(c: Suite, key: Bytes32, iv: Bytes16, sealed: Bytes) returns (r: Result<Bytes, Fault>)
    ensures r == Open(c, key, iv, sealed)
  {
    hide OpenBlocks, Xor;
    if |sealed| == 0 || |sealed| % 16 != 0 {
      return Err(BadMessage);
    }
    NothingSealed(c, key, iv);
    var out := new Byte[|sealed|](_ => 0);
    var prev: Bytes16 := iv;
    var i := 0;
    while i < |sealed|
      invariant 0 <= i <= |sealed| && i % 16 == 0
      invariant out[..i] == OpenBlocks(c, key, iv, sealed[..i])
      invariant prev == LastBlock(iv, sealed[..i])
    {
      var block: Bytes16 := sealed[i..i + 16];
      var plain := c.decrypt(key, block);
      ghost var before := out[..i];
      for j := 0 to 16
        invariant out[..i] == before
        invariant forall k :: 0 <= k < j ==> out[i + k] == Xor(plain[k], prev[k])
      {
        out[i + j] := Xor(plain[j], prev[j]);
        assert out[..i] == before;
      }
      OpenBlocksSplit(c, key, iv, sealed[..i], block);
      assert sealed[..i] + block == sealed[..i + 16];
      assert out[..i + 16] == before + XorBlock(plain, prev);
      assert sealed[..i + 16][i..] == block;
      prev := block;
      i := i + 16;
    }
    assert sealed[..i] == sealed && out[..i] == out[..];
    var pad := out[out.Length - 1];
    if pad == 0 || pad > 16 {
      return Err(BadPadding);
    }
    for k := out.Length - pad to out.Length
      invariant forall m :: out.Length - pad <= m < k ==> out[m] == pad
    {
      if out[k] != pad {
        return Err(BadPadding);
      }
    }
    return Ok(out[..out.Length - pad]);
  }
}
