/**
 CipherState, section 5.1 of the Noise specification: a 32-byte key, a 64-bit
 counter and a has-key flag.  `Cipher` is its value; `CipherState` is the object.
 */
module CipherStates {
  import opened Octets
  import opened Primitives

  const MAX_NONCE: nat := 0xFFFF_FFFF_FFFF_FFFF

  type U64 = n: nat | n <= MAX_NONCE

  // ---- Nonce encoding ----

  function Pow256(i: nat): (p: nat)
    ensures p > 0
  {
    if i == 0 then 1 else 256 * Pow256(i - 1)
  }

  /** Little-endian encoding in `width` bytes. */
  function LittleEndian(n: nat, width: nat): (r: Bytes)
    ensures |r| == width
    ensures forall i :: 0 <= i < width ==> r[i].Byte?
  {
    if width == 0 then [] else [Byte(n % 256)] + LittleEndian(n / 256, width - 1)
  }

  function FromLittleEndian(r: Bytes): nat {
    if r == [] then 0 else (if r[0].Byte? then r[0].b else 0) + 256 * FromLittleEndian(r[1..])
  }

  /** Section 12.3: 32 zero bits, then the counter in little-endian order. */
  function WireNonceOf(n: nat): WireNonce {
    Zeros(4) + LittleEndian(n, 8)
  }

  lemma {:induction false} LittleEndianDecodes(n: nat, width: nat)
    requires n < Pow256(width)
    ensures FromLittleEndian(LittleEndian(n, width)) == n
  {
    if width > 0 {
      LittleEndianDecodes(n / 256, width - 1);
      assert LittleEndian(n, width)[1..] == LittleEndian(n / 256, width - 1);
    }
  }

  /** `n >> 8 * i` */
  function ShiftRight(n: nat, i: nat): nat {
    if i == 0 then n else ShiftRight(n, i - 1) / 256
  }

  lemma {:induction false} ShiftRightOnce(n: nat, i: nat)
    ensures ShiftRight(n / 256, i) == ShiftRight(n, i + 1)
  {
    if i > 0 {
      ShiftRightOnce(n, i - 1);
    }
  }

  lemma {:induction false} LittleEndianAt(n: nat, width: nat, i: nat)
    requires i < width
    ensures LittleEndian(n, width)[i] == Byte(ShiftRight(n, i) % 256)
  {
    if i > 0 {
      LittleEndianAt(n / 256, width - 1, i - 1);
      ShiftRightOnce(n, i - 1);
    }
  }

  lemma Pow256Of8()
    ensures Pow256(8) == MAX_NONCE + 1
  {
    assert Pow256(4) == 0x1_0000_0000;
    assert Pow256(6) == 0x1_0000_0000_0000;
  }

  /** The counter is recovered from the wire nonce, so distinct counters never share one. */
  lemma WireNonceDecodes(n: U64)
    ensures FromLittleEndian(WireNonceOf(n)[4..]) == n
    ensures WireNonceOf(n)[..4] == Zeros(4)
  {
    Pow256Of8();
    LittleEndianDecodes(n, 8);
    assert WireNonceOf(n)[4..] == LittleEndian(n, 8);
  }

  lemma WireNonceInjective(m: U64, n: U64)
    requires WireNonceOf(m) == WireNonceOf(n)
    ensures m == n
  {
    WireNonceDecodes(m);
    WireNonceDecodes(n);
  }

  /** `encode_nonce`: shift and mask, byte by byte, into a 12-byte buffer. */
  method EncodeNonce(counter: U64, out: array<Octet>)
    requires out.Length == NONCE_BYTES
    modifies out
    ensures out[..] == WireNonceOf(counter)
  {
    out[0], out[1], out[2], out[3] := Byte(0), Byte(0), Byte(0), Byte(0);
    for i := 0 to 8
      invariant forall j :: 0 <= j < 4 ==> out[j] == Byte(0)
      invariant forall j :: 0 <= j < i ==> out[4 + j] == LittleEndian(counter, 8)[j]
    {
      out[4 + i] := Byte(ShiftRight(counter, i) % 256);
      LittleEndianAt(counter, 8, i);
    }
  }

  // ---- The cipher value and its operations ----

  datatype Cipher = Cipher(k: Key, n: nat, hasKey: bool)

  const UNKEYED: Cipher := Cipher(ZERO_KEY, 0, false)

  function Keyed(k: Key): Cipher {
    Cipher(k, 0, true)
  }

  function Encrypt(s: Suite, c: Cipher, ad: Bytes, plaintext: Bytes): (r: (Cipher, Bytes))
    ensures |r.1| == |plaintext| + if c.hasKey then TAG_BYTES else 0
  {
    if !c.hasKey then (c, plaintext)
    else (c.(n := c.n + 1), s.seal(c.k, WireNonceOf(c.n), ad, plaintext))
  }

  function Decrypt(s: Suite, c: Cipher, ad: Bytes, ciphertext: Bytes): (r: (Cipher, Option<Bytes>))
    ensures r.1.Some? ==> |ciphertext| == |r.1.value| + if c.hasKey then TAG_BYTES else 0
    ensures r.1.None? ==> r.0 == c
  {
    if !c.hasKey then (c, Some(ciphertext))
    else
      match s.unseal(c.k, WireNonceOf(c.n), ad, ciphertext)
      case None => (c, None)
      case Some(p) => (c.(n := c.n + 1), Some(p))
  }

  /** REKEY: the first 32 bytes of ENCRYPT(k, 2^64-1, empty, zeros). */
  function NextKey(s: Suite, k: Key): Key {
    KeyOf(s.seal(k, WireNonceOf(MAX_NONCE), [], ZERO_KEY))
  }

  function Rekeyed(s: Suite, c: Cipher): Cipher {
    if c.hasKey then c.(k := NextKey(s, c.k)) else c
  }

  /** The key after `epoch` rekeys. */
  function EpochKey(s: Suite, k: Key, epoch: nat): Key {
    if epoch == 0 then k else NextKey(s, EpochKey(s, k, epoch - 1))
  }

  /** The key schedule never comes back to an earlier key. */
  ghost predicate FreshKeySchedule(s: Suite) {
    forall k: Key, i: nat, j: nat :: EpochKey(s, k, i) == EpochKey(s, k, j) ==> i == j
  }

  /** Every octet of the next symbolic key shows the whole key it came from. */
  lemma SymbolicNextKey(k: Key)
    requires Lawful(Symbolic())
    ensures forall i :: 0 <= i < 32 ==> NextKey(Symbolic(), k)[i] == Body(k, WireNonceOf(MAX_NONCE), Byte(0), i)
  {
    var nonce := WireNonceOf(MAX_NONCE);
    hide WireNonceOf;
    forall i | 0 <= i < 32 ensures NextKey(Symbolic(), k)[i] == Body(k, nonce, Byte(0), i) {
      assert SymSeal(k, nonce, [], ZERO_KEY)[i] == Body(k, nonce, ZERO_KEY[i], i);
    }
  }

  /** How deeply keys are nested along octet `at`. */
  function DepthAt(o: Octet, at: nat): nat {
    if o.Body? && |o.key| > at then 1 + DepthAt(o.key[at], at) else 0
  }

  lemma {:induction false} SymbolicDepthAt(k: Key, epoch: nat, at: nat)
    requires Lawful(Symbolic()) && at < 32
    ensures DepthAt(EpochKey(Symbolic(), k, epoch)[at], at) == epoch + DepthAt(k[at], at)
  {
    hide NextKey, WireNonceOf;
    if epoch > 0 {
      SymbolicDepthAt(k, epoch - 1, at);
      SymbolicNextKey(EpochKey(Symbolic(), k, epoch - 1));
    }
  }

  /** No octet of any key of the schedule is ever again in its place. */
  lemma RekeyReplacesEveryOctet(k: Key, epoch: nat, epoch': nat, at: nat)
    requires Lawful(Symbolic()) && at < 32 && epoch != epoch'
    ensures EpochKey(Symbolic(), k, epoch)[at] != EpochKey(Symbolic(), k, epoch')[at]
  {
    SymbolicDepthAt(k, epoch, at);
    SymbolicDepthAt(k, epoch', at);
  }

  /** The nonce REKEY reserves, octet by octet. */
  lemma RekeyNonce()
    ensures WireNonceOf(0xFFFF_FFFF_FFFF_FFFF) == Zeros(4) + seq(8, i => Byte(255))
  {
    var n := 0xFFFF_FFFF_FFFF_FFFF;
    forall i | 0 <= i < 8 ensures LittleEndian(n, 8)[i] == Byte(255) {
      LittleEndianAt(n, 8, i);
      assert ShiftRight(n, 1) == 0xFF_FFFF_FFFF_FFFF && ShiftRight(n, 2) == 0xFFFF_FFFF_FFFF;
      assert ShiftRight(n, 3) == 0xFF_FFFF_FFFF && ShiftRight(n, 4) == 0xFFFF_FFFF;
      assert ShiftRight(n, 5) == 0xFF_FFFF && ShiftRight(n, 6) == 0xFFFF && ShiftRight(n, 7) == 0xFF;
    }
  }

  /** All hypotheses of the project hold together of the symbolic suite. */
  lemma HypothesesAreConsistent()
    ensures Lawful(Symbolic())
    ensures Ideal(Symbolic()) && HonestDhSucceeds(Symbolic()) && FreshKeySchedule(Symbolic())
  {
    SymbolicIsIdeal();
    forall k: Key, i: nat, j: nat | EpochKey(Symbolic(), k, i) == EpochKey(Symbolic(), k, j) ensures i == j {
      SymbolicDepthAt(k, i, 0);
      SymbolicDepthAt(k, j, 0);
    }
  }

  // ---- The object ----

  class CipherState {
    var k: Key
    var n: U64
    var hasKey: bool

    ghost function View(): Cipher
      reads this
    {
      Cipher(k, n, hasKey)
    }

    /** The wrap guard aborts the process when this is false. */
    predicate MayAdvance()
      reads this
    {
      hasKey ==> n < MAX_NONCE
    }

    constructor ()
      ensures View() == UNKEYED
    {
      k, n, hasKey := ZERO_KEY, 0, false;
    }

    method InitializeKey(key: Key)
      modifies this
      ensures View() == Keyed(key)
    {
      k, n, hasKey := key, 0, true;
    }

    method ResetNonceToZero()
      modifies this
      ensures View() == old(View()).(n := 0)
    {
      n := 0;
    }

    method EncryptWithAd(s: Suite, ad: Bytes, plaintext: Bytes) returns (out: Bytes)
      requires MayAdvance()
      modifies this
      ensures (View(), out) == Encrypt(s, old(View()), ad, plaintext)
    {
      if !hasKey {
        return plaintext;
      }
      var nonce := new Octet[NONCE_BYTES];
      EncodeNonce(n, nonce);
      out := s.seal(k, nonce[..], ad, plaintext);
      n := n + 1;
    }

    /** A ciphertext shorter than a tag is refused before the wrap guard. */
    method DecryptWithAd(s: Suite, ad: Bytes, ciphertext: Bytes) returns (out: Option<Bytes>)
      requires MayAdvance() || |ciphertext| < TAG_BYTES
      modifies this
      ensures (View(), out) == Decrypt(s, old(View()), ad, ciphertext)
    {
      if !hasKey {
        return Some(ciphertext);
      }
      if |ciphertext| < TAG_BYTES {
        return None;
      }
      var nonce := new Octet[NONCE_BYTES];
      EncodeNonce(n, nonce);
      out := s.unseal(k, nonce[..], ad, ciphertext);
      if out.Some? {
        n := n + 1;
      }
    }

    method Rekey(s: Suite)
      modifies this
      ensures View() == Rekeyed(s, old(View()))
      ensures hasKey == old(hasKey) && n == old(n)
      ensures k == if hasKey then s.seal(old(k), Zeros(4) + seq(8, i => Byte(255)), [], Zeros(32))[..32] else old(k)
    {
      RekeyNonce();
      if !hasKey {
        return;
      }
      var nonce := new Octet[NONCE_BYTES];
      EncodeNonce(MAX_NONCE, nonce);
      var out := s.seal(k, nonce[..], [], ZERO_KEY);
      k := out[..KEY_BYTES];
    }

    method Zeroize()
      modifies this
      ensures View() == UNKEYED
    {
      k, n, hasKey := ZERO_KEY, 0, false;
    }

    constructor MoveFrom(other: CipherState)
      modifies other
      ensures View() == old(other.View())
      ensures other.View() == UNKEYED
    {
      k, n, hasKey := other.k, other.n, other.hasKey;
      new;
      other.Zeroize();
    }

    method MoveAssign(other: CipherState)
      modifies this, other
      ensures View() == old(other.View())
      ensures other != this ==> other.View() == UNKEYED
    {
      if this != other {
        Zeroize();
        k, n, hasKey := other.k, other.n, other.hasKey;
        other.Zeroize();
      }
    }
  }

  // ---- Rejected ciphertexts leave no trace ----

  /** What one decrypt call is given. */
  datatype Frame = Frame(ad: Bytes, ct: Bytes)

  /** Feed frames to a receiver in order; collect the accepted plaintexts. */
  function Receive(s: Suite, c: Cipher, frames: seq<Frame>): (Cipher, seq<Bytes>)
    decreases |frames|
  {
    if frames == [] then (c, [])
    else
      var (c1, out) := Decrypt(s, c, frames[0].ad, frames[0].ct);
      var (c2, rest) := Receive(s, c1, frames[1..]);
      (c2, (if out.Some? then [out.value] else []) + rest)
  }

  /** The frames of that run that were accepted. */
  function Accepted(s: Suite, c: Cipher, frames: seq<Frame>): seq<Frame>
    decreases |frames|
  {
    if frames == [] then []
    else
      var (c1, out) := Decrypt(s, c, frames[0].ad, frames[0].ct);
      (if out.Some? then [frames[0]] else []) + Accepted(s, c1, frames[1..])
  }

  /** Erasing every rejected frame changes neither the plaintexts nor the final state; the rest is accepted whole. */
  lemma {:induction false} RejectedFramesErase(s: Suite, c: Cipher, frames: seq<Frame>)
    ensures Receive(s, c, Accepted(s, c, frames)) == Receive(s, c, frames)
    ensures |Receive(s, c, frames).1| == |Accepted(s, c, frames)|
    ensures c.hasKey ==> Receive(s, c, frames).0 == c.(n := c.n + |Accepted(s, c, frames)|)
    decreases |frames|
  {
    if frames != [] {
      var (c1, out) := Decrypt(s, c, frames[0].ad, frames[0].ct);
      var kept := Accepted(s, c1, frames[1..]);
      RejectedFramesErase(s, c1, frames[1..]);
      if out.Some? {
        assert ([frames[0]] + kept)[1..] == kept;
      } else {
        assert [] + kept == kept;
        assert [] + Receive(s, c1, frames[1..]).1 == Receive(s, c1, frames[1..]).1;
      }
    }
  }
}
