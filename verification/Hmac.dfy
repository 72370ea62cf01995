/**
 HMAC-BLAKE2b and the Noise HKDF.  The specification functions follow section 2
 of RFC 2104 and section 4.3 of the Noise specification; the methods work as
 the provider does, on a mutable key block and a streaming hash.
 */
module Hmac {
  import opened Octets
  import opened Primitives

  const IPAD: byte := 0x36
  const OPAD: byte := 0x5c

  /** The key, hashed if longer than a block, then zero-padded to a block. */
  function KeyBlock(s: Suite, key: Bytes): (k: Bytes)
    ensures |k| == BLOCKLEN
  {
    var short := if |key| <= BLOCKLEN then key else s.hash(key);
    short + Zeros(BLOCKLEN - |short|)
  }

  function XorAll(k: Bytes, c: byte): (r: Bytes)
    ensures |r| == |k|
  {
    seq(|k|, i requires 0 <= i < |k| => Xor(k[i], c))
  }

  /** H(K xor opad, H(K xor ipad, text)) */
  function HmacSpec(s: Suite, key: Bytes, text: Bytes): Digest {
    var k := KeyBlock(s, key);
    s.hash(XorAll(k, OPAD) + s.hash(XorAll(k, IPAD) + text))
  }

  // ---- RFC 2104 on plain octets, by its pads ----

  /** The bits of octet `j` of a zero-padded plain key. */
  function PaddedAt(key: Bytes, j: nat): bv8
    requires IsPlain(key)
  {
    if j < |key| then key[j].b as bv8 else 0
  }

  function PadOctet(v: bv8, c: bv8): Octet {
    Byte((v ^ c) as byte)
  }

  /** A plain key of at most a block, zero-padded, every octet XORed with `c`. */
  function PlainPad(key: Bytes, c: bv8): (pad: Bytes)
    requires IsPlain(key) && |key| <= 128
    ensures |pad| == 128
  {
    seq(128, j requires 0 <= j < 128 => PadOctet(PaddedAt(key, j), c))
  }

  lemma PadsOfPlainKey(s: Suite, key: Bytes)
    requires IsPlain(key) && |key| <= 128
    ensures XorAll(KeyBlock(s, key), OPAD) == PlainPad(key, 0x5c)
    ensures XorAll(KeyBlock(s, key), IPAD) == PlainPad(key, 0x36)
  {
    var k := KeyBlock(s, key);
    forall j | 0 <= j < 128
      ensures XorAll(k, OPAD)[j] == PlainPad(key, 0x5c)[j] && XorAll(k, IPAD)[j] == PlainPad(key, 0x36)[j]
    {
      assert k[j] == Byte(if j < |key| then key[j].b else 0);
    }
  }

  /** H(K xor 5c.., H(K xor 36.., text)) on the plain octets of the padded key; a long key goes by its hash. */
  lemma HmacOfPlainKey(s: Suite, key: Bytes, text: Bytes)
    ensures IsPlain(key) && |key| <= 128 ==>
              HmacSpec(s, key, text) == s.hash(PlainPad(key, 0x5c) + s.hash(PlainPad(key, 0x36) + text))
    ensures IsPlain(s.hash(key)) && |key| > 128 ==>
              HmacSpec(s, key, text)
              == s.hash(PlainPad(s.hash(key), 0x5c) + s.hash(PlainPad(s.hash(key), 0x36) + text))
  {
    if IsPlain(key) && |key| <= 128 {
      PadsOfPlainKey(s, key);
    }
    if IsPlain(s.hash(key)) && |key| > 128 {
      PadsOfPlainKey(s, s.hash(key));
      assert KeyBlock(s, key) == KeyBlock(s, s.hash(key));
    }
  }

  /** The i-th HKDF output under `temp`: each one keys off the previous output and its index byte. */
  function HkdfOutput(s: Suite, temp: Digest, i: nat): (o: Bytes)
    ensures i > 0 ==> |o| == HASHLEN
  {
    if i == 0 then [] else HmacSpec(s, temp, HkdfOutput(s, temp, i - 1) + [Byte(i % 256)])
  }

  /** Section 4.3: the i-th output of HKDF(chaining_key, input_key_material). */
  function HkdfSpec(s: Suite, ck: Bytes, ikm: Bytes, i: nat): (o: Digest)
    requires i > 0
  {
    HkdfOutput(s, HmacSpec(s, ck, ikm), i)
  }

  method PrepareKey(s: Suite, key: Bytes) returns (blk: array<Octet>)
    ensures fresh(blk) && blk[..] == KeyBlock(s, key)
  {
    blk := new Octet[BLOCKLEN](i => Byte(0));
    if |key| <= BLOCKLEN {
      forall i | 0 <= i < |key| {
        blk[i] := key[i];
      }
    } else {
      var h := s.hash(key);
      forall i | 0 <= i < HASHLEN {
        blk[i] := h[i];
      }
    }
  }

  method XorConst(blk: array<Octet>, c: byte)
    modifies blk
    ensures blk[..] == XorAll(old(blk[..]), c)
  {
    for i := 0 to blk.Length
      invariant forall j :: 0 <= j < i ==> blk[j] == Xor(old(blk[j]), c)
      invariant forall j :: i <= j < blk.Length ==> blk[j] == old(blk[j])
    {
      blk[i] := Xor(blk[i], c);
    }
  }

  /** The two XORed pads, each from its own copy of the key block. */
  method Pads(s: Suite, key: Bytes) returns (ipad: array<Octet>, opad: array<Octet>)
    ensures fresh(ipad) && fresh(opad)
    ensures ipad[..] == XorAll(KeyBlock(s, key), IPAD)
    ensures opad[..] == XorAll(KeyBlock(s, key), OPAD)
  {
    ipad := PrepareKey(s, key);
    opad := PrepareKey(s, key);
    XorConst(ipad, IPAD);
    XorConst(opad, OPAD);
  }

  method HmacBlake2b(s: Suite, key: Bytes, message: Bytes) returns (mac: Digest)
    ensures mac == HmacSpec(s, key, message)
    ensures IsPlain(key) && |key| <= 128 ==>
              mac == s.hash(PlainPad(key, 0x5c) + s.hash(PlainPad(key, 0x36) + message))
    ensures IsPlain(s.hash(key)) && |key| > 128 ==>
              mac == s.hash(PlainPad(s.hash(key), 0x5c) + s.hash(PlainPad(s.hash(key), 0x36) + message))
  {
    HmacOfPlainKey(s, key, message);
    var ipad, opad := Pads(s, key);
    var inner := s.hash(ipad[..] + message);
    mac := s.hash(opad[..] + inner);
  }

  /** The two-part form: three updates of a streaming hash, no concatenated buffer. */
  method HmacBlake2bParts(s: Suite, key: Bytes, a: Bytes, b: Bytes) returns (mac: Digest)
    ensures mac == HmacSpec(s, key, a + b)
    ensures IsPlain(key) && |key| <= 128 ==>
              mac == s.hash(PlainPad(key, 0x5c) + s.hash(PlainPad(key, 0x36) + (a + b)))
    ensures IsPlain(s.hash(key)) && |key| > 128 ==>
              mac == s.hash(PlainPad(s.hash(key), 0x5c) + s.hash(PlainPad(s.hash(key), 0x36) + (a + b)))
  {
    HmacOfPlainKey(s, key, a + b);
    var ipad, opad := Pads(s, key);
    var stream: Bytes := ipad[..];
    stream := stream + a;
    stream := stream + b;
    assert stream == ipad[..] + (a + b);
    var inner := s.hash(stream);
    mac := s.hash(opad[..] + inner);
  }

  method Hkdf2(s: Suite, ck: Bytes, ikm: Bytes) returns (o1: Digest, o2: Digest)
    ensures o1 == HkdfSpec(s, ck, ikm, 1)
    ensures o2 == HkdfSpec(s, ck, ikm, 2)
    ensures o1 == HmacSpec(s, HmacSpec(s, ck, ikm), [Byte(1)])
    ensures o2 == HmacSpec(s, HmacSpec(s, ck, ikm), o1 + [Byte(2)])
  {
    hide HmacSpec, PlainPad;
    var temp := HmacBlake2b(s, ck, ikm);
    o1 := HmacBlake2b(s, temp, [Byte(1)]);
    assert HkdfOutput(s, temp, 0) + [Byte(1)] == [Byte(1)];
    o2 := HmacBlake2bParts(s, temp, o1, [Byte(2)]);
  }

  method Hkdf3(s: Suite, ck: Bytes, ikm: Bytes) returns (o1: Digest, o2: Digest, o3: Digest)
    ensures o1 == HkdfSpec(s, ck, ikm, 1)
    ensures o2 == HkdfSpec(s, ck, ikm, 2)
    ensures o3 == HkdfSpec(s, ck, ikm, 3)
    ensures o1 == HmacSpec(s, HmacSpec(s, ck, ikm), [Byte(1)])
    ensures o2 == HmacSpec(s, HmacSpec(s, ck, ikm), o1 + [Byte(2)])
    ensures o3 == HmacSpec(s, HmacSpec(s, ck, ikm), o2 + [Byte(3)])
  {
    hide HmacSpec, PlainPad;
    var temp := HmacBlake2b(s, ck, ikm);
    o1 := HmacBlake2b(s, temp, [Byte(1)]);
    assert HkdfOutput(s, temp, 0) + [Byte(1)] == [Byte(1)];
    o2 := HmacBlake2bParts(s, temp, o1, [Byte(2)]);
    o3 := HmacBlake2bParts(s, temp, o2, [Byte(3)]);
  }

  /** A long key is exactly its 64-byte hash; a short key absorbs trailing zero bytes. */
  lemma EquivalentKeys(s: Suite, key: Bytes, text: Bytes, n: nat)
    ensures |key| > BLOCKLEN ==> HmacSpec(s, key, text) == HmacSpec(s, s.hash(key), text)
    ensures |key| + n <= BLOCKLEN ==> HmacSpec(s, key + Zeros(n), text) == HmacSpec(s, key, text)
  {
    if |key| + n <= BLOCKLEN {
      assert KeyBlock(s, key + Zeros(n)) == KeyBlock(s, key);
    }
  }

  // ---- Under the symbolic suite the key schedule separates inputs ----

  lemma SymHashCommits(x: Bytes, y: Bytes)
    requires KeyOf(SymHash(x)) == KeyOf(SymHash(y))
    ensures x == y
  {
    assert KeyOf(SymHash(x))[0] == Hashed(x, 0) && KeyOf(SymHash(y))[0] == Hashed(y, 0);
  }

  lemma SamePrefixSameRest(p: Bytes, x: Bytes, q: Bytes, y: Bytes)
    requires |p| == |q| && p + x == q + y
    ensures p == q && x == y
  {
    assert p == (p + x)[..|p|] && q == (q + y)[..|q|];
    assert x == (p + x)[|p|..] && y == (q + y)[|q|..];
  }

  /** An HMAC value commits to its text, even when truncated to a key. */
  lemma HmacCommitsToText(key: Bytes, x: Bytes, y: Bytes)
    requires Lawful(Symbolic())
    requires KeyOf(HmacSpec(Symbolic(), key, x)) == KeyOf(HmacSpec(Symbolic(), key, y))
    ensures x == y
  {
    var s: Suite := Symbolic();
    var inner, outer := XorAll(KeyBlock(s, key), IPAD), XorAll(KeyBlock(s, key), OPAD);
    SymHashCommits(outer + SymHash(inner + x), outer + SymHash(inner + y));
    SamePrefixSameRest(outer, SymHash(inner + x), outer, SymHash(inner + y));
    SymHashCommits(inner + x, inner + y);
    SamePrefixSameRest(inner, x, inner, y);
  }

  /** And, when the key is itself a hash, to its key. */
  lemma HmacCommitsToKey(a: Bytes, b: Bytes, x: Bytes, y: Bytes)
    requires Lawful(Symbolic())
    requires KeyOf(HmacSpec(Symbolic(), SymHash(a), x)) == KeyOf(HmacSpec(Symbolic(), SymHash(b), y))
    ensures a == b
  {
    var s: Suite := Symbolic();
    var p, q := KeyBlock(s, SymHash(a)), KeyBlock(s, SymHash(b));
    var x', y' := SymHash(XorAll(p, IPAD) + x), SymHash(XorAll(q, IPAD) + y);
    SymHashCommits(XorAll(p, OPAD) + x', XorAll(q, OPAD) + y');
    SamePrefixSameRest(XorAll(p, OPAD), x', XorAll(q, OPAD), y');
    assert p[0] == Hashed(a, 0) && q[0] == Hashed(b, 0);
    assert XorAll(p, OPAD)[0] == Masked(Hashed(a, 0), OPAD) && XorAll(q, OPAD)[0] == Masked(Hashed(b, 0), OPAD);
  }

  /** The digest of the inner hash, as the symbolic MAC shows it. */
  function InnerDigest(mac: Digest): Bytes {
    if mac[0].Hashed? && |mac[0].data| >= 128 then mac[0].data[128..] else []
  }

  lemma PadOctetCommits(u: bv8, v: bv8, c: bv8)
    ensures PadOctet(u, c) == PadOctet(v, c) ==> u == v
  {
    BitsCast(u ^ c);
    BitsCast(v ^ c);
    BitsXor(u, v, c);
  }

  lemma BitsCast(v: bv8)
    ensures (v as byte) as bv8 == v
  {
  }

  lemma BitsXor(u: bv8, v: bv8, c: bv8)
    ensures u ^ c == v ^ c ==> u == v
  {
  }

  lemma PadCommits(key: Bytes, key': Bytes, c: bv8)
    requires IsPlain(key) && |key| <= 128 && IsPlain(key') && |key'| <= 128
    requires PlainPad(key, c) == PlainPad(key', c)
    ensures forall j: nat :: j < 128 ==> PaddedAt(key, j) == PaddedAt(key', j)
  {
    hide PadOctet, PaddedAt, IsPlain;
    forall j: nat | j < 128 ensures PaddedAt(key, j) == PaddedAt(key', j) {
      assert PlainPad(key, c)[j] == PlainPad(key', c)[j];
      PadOctetCommits(PaddedAt(key, j), PaddedAt(key', j), c);
    }
  }

  /** The inner digest alone commits to the whole padded key and to the text. */
  lemma InnerDigestCommits(key: Bytes, x: Bytes, key': Bytes, y: Bytes)
    requires Lawful(Symbolic())
    requires IsPlain(key) && |key| <= 128 && IsPlain(key') && |key'| <= 128
    requires InnerDigest(HmacSpec(Symbolic(), key, x)) == InnerDigest(HmacSpec(Symbolic(), key', y))
    ensures (forall j: nat :: j < 128 ==> PaddedAt(key, j) == PaddedAt(key', j)) && x == y
  {
    var s: Suite := Symbolic();
    var p, q := PlainPad(key, 0x36), PlainPad(key', 0x36);
    InnerDigestIs(key, x);
    InnerDigestIs(key', y);
    hide PlainPad, HmacSpec;
    SymHashCommits(p + x, q + y);
    SamePrefixSameRest(p, x, q, y);
    PadCommits(key, key', 0x36);
  }

  lemma InnerDigestIs(key: Bytes, text: Bytes)
    requires Lawful(Symbolic()) && IsPlain(key) && |key| <= 128
    ensures InnerDigest(HmacSpec(Symbolic(), key, text)) == SymHash(PlainPad(key, 0x36) + text)
  {
    var s: Suite := Symbolic();
    HmacOfPlainKey(s, key, text);
    hide HmacSpec, PlainPad;
    var inner := SymHash(PlainPad(key, 0x36) + text);
    var outer := PlainPad(key, 0x5c) + inner;
    assert SymHash(outer)[0] == Hashed(outer, 0) && outer[128..] == inner;
  }

  /** MixKey on one chaining key: equal cipher keys come from equal secrets. */
  lemma MixedKeysDiffer(ck: Digest, x: Bytes, y: Bytes)
    requires Lawful(Symbolic())
    ensures KeyOf(HkdfSpec(Symbolic(), ck, x, 2)) == KeyOf(HkdfSpec(Symbolic(), ck, y, 2)) <==> x == y
  {
    var s: Suite := Symbolic();
    if KeyOf(HkdfSpec(s, ck, x, 2)) == KeyOf(HkdfSpec(s, ck, y, 2)) {
      var k := KeyBlock(s, ck);
      var a, b := XorAll(k, OPAD) + SymHash(XorAll(k, IPAD) + x), XorAll(k, OPAD) + SymHash(XorAll(k, IPAD) + y);
      assert HmacSpec(s, ck, x) == SymHash(a) && HmacSpec(s, ck, y) == SymHash(b);
      HmacCommitsToKey(a, b, HkdfOutput(s, SymHash(a), 1) + [Byte(2)], HkdfOutput(s, SymHash(b), 1) + [Byte(2)]);
      HmacCommitsToText(ck, x, y);
    }
  }
}
