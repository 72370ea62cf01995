/**
 SymmetricState, section 5.2 of the Noise specification: chaining key, handshake
 hash and the handshake cipher.  `log` is a history variable: the strings mixed
 into the hash since initialisation, in order.
 */
module SymmetricStates {
  import opened Octets
  import opened Primitives
  import opened CipherStates
  import opened Hmac

  datatype Symmetric = Symmetric(ck: Digest, h: Digest, cipher: Cipher, log: seq<Bytes>)

  /** The protocol name, zero-padded to HASHLEN, or hashed when it does not fit. */
  function InitialHash(s: Suite, name: Bytes): Digest {
    if |name| <= HASHLEN then name + Zeros(HASHLEN - |name|) else s.hash(name)
  }

  function Initial(s: Suite, name: Bytes): Symmetric {
    Symmetric(InitialHash(s, name), InitialHash(s, name), UNKEYED, [])
  }

  function WithKey(s: Suite, y: Symmetric, ikm: Bytes): Symmetric {
    y.(ck := HkdfSpec(s, y.ck, ikm, 1), cipher := Keyed(KeyOf(HkdfSpec(s, y.ck, ikm, 2))))
  }

  function WithHash(s: Suite, y: Symmetric, data: Bytes): Symmetric {
    y.(h := s.hash(y.h + data), log := y.log + [data])
  }

  function Hide(s: Suite, y: Symmetric, plaintext: Bytes): (r: (Symmetric, Bytes))
    ensures |r.1| == |plaintext| + if y.cipher.hasKey then TAG_BYTES else 0
  {
    var (c, ct) := Encrypt(s, y.cipher, y.h, plaintext);
    (WithHash(s, y.(cipher := c), ct), ct)
  }

  /** A rejected ciphertext leaves the whole symmetric state as it was. */
  function Unhide(s: Suite, y: Symmetric, ciphertext: Bytes): (r: (Symmetric, Option<Bytes>))
    ensures r.1.Some? ==> |ciphertext| == |r.1.value| + if y.cipher.hasKey then TAG_BYTES else 0
    ensures r.1.None? ==> r.0 == y
  {
    var (c, p) := Decrypt(s, y.cipher, y.h, ciphertext);
    if p.None? then (y, None) else (WithHash(s, y.(cipher := c), ciphertext), p)
  }

  /** Section 5.2 Split: the two transport keys of a chaining key. */
  function SplitKeys(s: Suite, ck: Digest): (Key, Key) {
    (KeyOf(HkdfSpec(s, ck, [], 1)), KeyOf(HkdfSpec(s, ck, [], 2)))
  }

  /** What one side hides the other, in the same state, reveals; and both end in the same state. */
  lemma HiddenIsRevealed(s: Suite, y: Symmetric, plaintext: Bytes)
    ensures Unhide(s, y, Hide(s, y, plaintext).1) == (Hide(s, y, plaintext).0, Some(plaintext))
  {
  }

  /** The handshake hash as a fold of the transcript. */
  function Fold(s: Suite, start: Digest, log: seq<Bytes>): Digest
    decreases |log|
  {
    if log == [] then start else s.hash(Fold(s, start, log[..|log| - 1]) + log[|log| - 1])
  }

  ghost predicate Bound(s: Suite, start: Digest, y: Symmetric) {
    y.h == Fold(s, start, y.log)
  }

  lemma BoundStep(s: Suite, start: Digest, y: Symmetric, data: Bytes)
    requires Bound(s, start, y)
    ensures Bound(s, start, WithHash(s, y, data))
  {
    var log := y.log + [data];
    assert log[..|log| - 1] == y.log;
  }

  /** Under an ideal hash the fold determines the start and the whole transcript. */
  lemma {:induction false} FoldInjective(s: Suite, x: Digest, xs: seq<Bytes>, y: Digest, ys: seq<Bytes>)
    requires Ideal(s)
    requires x[0].Byte? && y[0].Byte?
    requires Fold(s, x, xs) == Fold(s, y, ys)
    ensures x == y && xs == ys
    decreases |xs|
  {
    if xs != [] && ys != [] {
      var fx: Bytes, fy: Bytes := Fold(s, x, xs[..|xs| - 1]), Fold(s, y, ys[..|ys| - 1]);
      var dx: Bytes, dy: Bytes := xs[|xs| - 1], ys[|ys| - 1];
      assert fx + dx == fy + dy;
      assert fx == (fx + dx)[..HASHLEN] == fy;
      assert dx == (fx + dx)[HASHLEN..] == dy;
      FoldInjective(s, x, xs[..|xs| - 1], y, ys[..|ys| - 1]);
      assert xs == xs[..|xs| - 1] + [dx] && ys == ys[..|ys| - 1] + [dy];
    }
  }

  // ---- The key schedule by its two HMAC steps ----

  /** HKDF with two outputs, written out. */
  function TwoOutputs(s: Suite, ck: Digest, ikm: Bytes): (Digest, Digest) {
    var temp := HmacSpec(s, ck, ikm);
    var o1 := HmacSpec(s, temp, [Byte(1)]);
    (o1, HmacSpec(s, temp, o1 + [Byte(2)]))
  }

  lemma TwoOutputsAreHkdf(s: Suite, ck: Digest, ikm: Bytes)
    ensures TwoOutputs(s, ck, ikm) == (HkdfSpec(s, ck, ikm, 1), HkdfSpec(s, ck, ikm, 2))
  {
    hide HmacSpec;
    var temp := HmacSpec(s, ck, ikm);
    assert HkdfOutput(s, temp, 0) + [Byte(1)] == [Byte(1)];
    assert HkdfOutput(s, temp, 2) == HmacSpec(s, temp, HkdfOutput(s, temp, 1) + [Byte(2)]);
  }

  /** MixKey: the chaining key is the first output, the cipher key the first half of the second. */
  lemma MixKeyOutputs(s: Suite, y: Symmetric, ikm: Bytes)
    ensures var (o1, o2) := TwoOutputs(s, y.ck, ikm);
            WithKey(s, y, ikm) == Symmetric(o1, y.h, Cipher(KeyOf(o2), 0, true), y.log)
  {
    TwoOutputsAreHkdf(s, y.ck, ikm);
  }

  /** Split: the first output for the initiator's direction, the second for the other, over empty key material. */
  lemma SplitOutputs(s: Suite, ck: Digest)
    ensures var (o1, o2) := TwoOutputs(s, ck, []); SplitKeys(s, ck) == (KeyOf(o1), KeyOf(o2))
  {
    TwoOutputsAreHkdf(s, ck, []);
  }

  /** The two outputs share no key: neither a chaining key and its cipher key, nor the two keys of a Split. */
  lemma OutputsDiffer(y: Symmetric, ikm: Bytes)
    requires Lawful(Symbolic())
    ensures var (o1, o2) := TwoOutputs(Symbolic(), y.ck, ikm); KeyOf(o1) != KeyOf(o2)
    ensures var z := WithKey(Symbolic(), y, ikm); KeyOf(z.ck) != z.cipher.k
    ensures var (k1, k2) := SplitKeys(Symbolic(), y.ck); k1 != k2
  {
    OutputsAreApart(y.ck, ikm);
    OutputsAreApart(y.ck, []);
    MixKeyOutputs(Symbolic(), y, ikm);
    SplitOutputs(Symbolic(), y.ck);
    hide TwoOutputs, WithKey, SplitKeys;
  }

  lemma OutputsAreApart(ck: Digest, ikm: Bytes)
    requires Lawful(Symbolic())
    ensures var (o1, o2) := TwoOutputs(Symbolic(), ck, ikm); KeyOf(o1) != KeyOf(o2)
  {
    var s: Suite := Symbolic();
    hide HmacSpec;
    var temp := HmacSpec(s, ck, ikm);
    var o1 := HmacSpec(s, temp, [Byte(1)]);
    assert |o1 + [Byte(2)]| != |[Byte(1)]|;
    if KeyOf(o1) == KeyOf(HmacSpec(s, temp, o1 + [Byte(2)])) {
      HmacCommitsToText(temp, [Byte(1)], o1 + [Byte(2)]);
    }
  }

  class SymmetricState {
    var ck: Digest
    var h: Digest
    const cipher: CipherState
    ghost var log: seq<Bytes>

    ghost function View(): Symmetric
      reads this, cipher
    {
      Symmetric(ck, h, cipher.View(), log)
    }

    constructor ()
      ensures fresh(cipher)
      ensures View() == Symmetric(ZERO_DIGEST, ZERO_DIGEST, UNKEYED, [])
    {
      ck, h, log := ZERO_DIGEST, ZERO_DIGEST, [];
      cipher := new CipherState();
    }

    method Initialize(s: Suite, name: Bytes)
      modifies this, cipher
      ensures View() == Initial(s, name)
      ensures |name| <= 64 ==>
                h[..|name|] == name && forall i :: |name| <= i < 64 ==> h[i] == Byte(0)
      ensures |name| > 64 ==> h == s.hash(name)
      ensures ck == h && !cipher.hasKey && log == []
    {
      if |name| <= HASHLEN {
        h := name + Zeros(HASHLEN - |name|);
      } else {
        h := s.hash(name);
      }
      ck := h;
      log := [];
      var blank := new CipherState();
      cipher.MoveAssign(blank);
    }

    method MixKey(s: Suite, ikm: Bytes)
      modifies this, cipher
      ensures View() == WithKey(s, old(View()), ikm)
      ensures var temp := HmacSpec(s, old(ck), ikm);
              && ck == HmacSpec(s, temp, [Byte(1)]) && cipher.k == KeyOf(HmacSpec(s, temp, ck + [Byte(2)]))
              && cipher.n == 0 && cipher.hasKey && h == old(h)
    {
      hide HmacSpec;
      var o1, o2 := Hkdf2(s, ck, ikm);
      ck := o1;
      cipher.InitializeKey(o2[..KEY_BYTES]);
    }

    method MixHash(s: Suite, data: Bytes)
      modifies this
      ensures View() == WithHash(s, old(View()), data)
      ensures h == s.hash(old(h) + data) && ck == old(ck) && log == old(log) + [data]
    {
      h := s.hash(h + data);
      log := log + [data];
    }

    method EncryptAndHash(s: Suite, plaintext: Bytes) returns (out: Bytes)
      requires cipher.MayAdvance()
      modifies this, cipher
      ensures (View(), out) == Hide(s, old(View()), plaintext)
    {
      out := cipher.EncryptWithAd(s, h, plaintext);
      MixHash(s, out);
    }

    method DecryptAndHash(s: Suite, ciphertext: Bytes) returns (out: Option<Bytes>)
      requires cipher.MayAdvance() || |ciphertext| < TAG_BYTES
      modifies this, cipher
      ensures (View(), out) == Unhide(s, old(View()), ciphertext)
    {
      out := cipher.DecryptWithAd(s, h, ciphertext);
      if out.None? {
        return;
      }
      MixHash(s, ciphertext);
    }

    /** Two fresh keyed ciphers; the chaining key is gone, the hash stays for channel binding. */
    method Split(s: Suite) returns (first: CipherState, second: CipherState)
      modifies this
      ensures fresh(first) && fresh(second) && first != second
      ensures first.View() == Keyed(SplitKeys(s, old(ck)).0)
      ensures second.View() == Keyed(SplitKeys(s, old(ck)).1)
      ensures var temp := HmacSpec(s, old(ck), []);
              var o1 := HmacSpec(s, temp, [Byte(1)]);
              first.k == KeyOf(o1) && second.k == KeyOf(HmacSpec(s, temp, o1 + [Byte(2)]))
      ensures View() == old(View()).(ck := ZERO_DIGEST)
    {
      hide HmacSpec;
      var o1, o2 := Hkdf2(s, ck, []);
      first := new CipherState();
      second := new CipherState();
      first.InitializeKey(o1[..KEY_BYTES]);
      second.InitializeKey(o2[..KEY_BYTES]);
      ck := ZERO_DIGEST;
    }

    constructor MoveFrom(other: SymmetricState)
      modifies other, other.cipher
      ensures fresh(cipher)
      ensures View() == old(other.View())
      ensures other.View() == Symmetric(ZERO_DIGEST, ZERO_DIGEST, UNKEYED, [])
    {
      ck, h, log := other.ck, other.h, other.log;
      cipher := new CipherState.MoveFrom(other.cipher);
      new;
      other.ck, other.h, other.log := ZERO_DIGEST, ZERO_DIGEST, [];
    }

    /** Each object owns its cipher, as an embedded member does. */
    method MoveAssign(other: SymmetricState)
      requires other != this ==> other.cipher != cipher
      modifies this, cipher, other, other.cipher
      ensures View() == old(other.View())
      ensures other != this ==> other.View() == Symmetric(ZERO_DIGEST, ZERO_DIGEST, UNKEYED, [])
    {
      if this != other {
        ck, h := ZERO_DIGEST, ZERO_DIGEST;
        ck, h, log := other.ck, other.h, other.log;
        cipher.MoveAssign(other.cipher);
        other.ck, other.h, other.log := ZERO_DIGEST, ZERO_DIGEST, [];
      }
    }
  }
}
