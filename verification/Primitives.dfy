/**
 The primitives the provider takes from libsodium, as parameters.  `Suite` holds
 the laws that X25519, ChaCha20-Poly1305 and BLAKE2b satisfy exactly.  `Ideal`
 adds what they only give up to negligible probability: collision freedom of
 the hash and a ciphertext that commits to its key, nonce and associated data.
 */
module Primitives {
  import opened Octets

  datatype Functions = Functions(
    hash: Bytes -> Digest,
    seal: (Key, WireNonce, Bytes, Bytes) -> Bytes,
    unseal: (Key, WireNonce, Bytes, Bytes) -> Option<Bytes>,
    pub: Key -> Key,
    dh: (Key, Key) -> Option<Key>)

  ghost predicate Lawful(f: Functions) {
    && (forall k: Key, n: WireNonce, ad: Bytes, p: Bytes ::
          |f.seal(k, n, ad, p)| == |p| + TAG_BYTES)
    && (forall k: Key, n: WireNonce, ad: Bytes, p: Bytes ::
          f.unseal(k, n, ad, f.seal(k, n, ad, p)) == Some(p))
    && (forall k: Key, n: WireNonce, ad: Bytes, c: Bytes ::
          f.unseal(k, n, ad, c).Some? ==> |c| == |f.unseal(k, n, ad, c).value| + TAG_BYTES)
    && (forall a: Key, b: Key :: f.dh(a, f.pub(b)) == f.dh(b, f.pub(a)))
  }

  type Suite = f: Functions | Lawful(f) ghost witness (SymbolicIsLawful(); Symbolic())

  /** X25519 on clamped scalars never yields the zero point from an honest public key. */
  ghost predicate HonestDhSucceeds(s: Suite) {
    forall a: Key, b: Key :: s.dh(a, s.pub(b)).Some?
  }

  ghost predicate Ideal(s: Suite) {
    && (forall x: Bytes, y: Bytes :: s.hash(x) == s.hash(y) ==> x == y)
    && (forall x: Bytes :: !s.hash(x)[0].Byte?)
    && (forall k: Key, n: WireNonce, ad: Bytes, c: Bytes ::
          s.unseal(k, n, ad, c).Some? ==> c == s.seal(k, n, ad, s.unseal(k, n, ad, c).value))
    && (forall k: Key, n: WireNonce, ad: Bytes, p: Bytes, k': Key, n': WireNonce, ad': Bytes ::
          s.unseal(k', n', ad', s.seal(k, n, ad, p)).Some? ==> k' == k && n' == n && ad' == ad)
  }

  // ---- The symbolic instance ----

  function SymHash(m: Bytes): Digest {
    seq(HASHLEN, i => Hashed(m, i))
  }

  function SymSeal(k: Key, n: WireNonce, ad: Bytes, p: Bytes): Bytes {
    seq(|p|, i requires 0 <= i < |p| => Body(k, n, p[i], i)) + seq(TAG_BYTES, i => Tag(k, n, ad, p, i))
  }

  function SymUnseal(k: Key, n: WireNonce, ad: Bytes, c: Bytes): Option<Bytes> {
    if |c| >= TAG_BYTES && c[|c| - 1].Tag? && c == SymSeal(k, n, ad, c[|c| - 1].text)
    then Some(c[|c| - 1].text) else None
  }

  function SymPub(sk: Key): Key {
    seq(KEY_BYTES, i => Public(sk, i))
  }

  /** Fails on the zero point only; commutes on public keys. */
  function SymDh(sk: Key, pk: Key): Option<Key> {
    if pk == ZERO_KEY then None
    else if pk[0].Public? && |pk[0].secret| == KEY_BYTES && pk == SymPub(pk[0].secret)
    then Some(seq(KEY_BYTES, i => Shared({sk, pk[0].secret}, i)))
    else Some(seq(KEY_BYTES, i => Hashed(sk + pk, i)))
  }

  function Symbolic(): Functions {
    Functions(SymHash, SymSeal, SymUnseal, SymPub, SymDh)
  }

  lemma SymSealCommits(k: Key, n: WireNonce, ad: Bytes, p: Bytes)
    ensures |SymSeal(k, n, ad, p)| == |p| + TAG_BYTES
    ensures SymSeal(k, n, ad, p)[|p| + 15] == Tag(k, n, ad, p, 15)
    ensures SymUnseal(k, n, ad, SymSeal(k, n, ad, p)) == Some(p)
  {
  }

  lemma SymDhOnPublic(a: Key, b: Key)
    ensures SymDh(a, SymPub(b)) == Some(seq(KEY_BYTES, i => Shared({a, b}, i)))
  {
    assert SymPub(b)[0] == Public(b, 0);
    assert ZERO_KEY[0] == Byte(0);
  }

  lemma SymbolicIsLawful()
    ensures Lawful(Symbolic())
  {
    var f := Symbolic();
    forall k: Key, n: WireNonce, ad: Bytes, p: Bytes
      ensures |f.seal(k, n, ad, p)| == |p| + TAG_BYTES
      ensures f.unseal(k, n, ad, f.seal(k, n, ad, p)) == Some(p)
    {
      SymSealCommits(k, n, ad, p);
    }
    forall a: Key, b: Key ensures f.dh(a, f.pub(b)) == f.dh(b, f.pub(a)) {
      SymDhOnPublic(a, b);
      SymDhOnPublic(b, a);
      assert {a, b} == {b, a};
    }
  }

  lemma SymbolicIsIdeal()
    ensures Lawful(Symbolic())
    ensures Ideal(Symbolic()) && HonestDhSucceeds(Symbolic())
  {
    SymbolicIsLawful();
    var s: Suite := Symbolic();
    forall x: Bytes, y: Bytes | s.hash(x) == s.hash(y) ensures x == y {
      assert SymHash(x)[0] == Hashed(x, 0) && SymHash(y)[0] == Hashed(y, 0);
    }
    forall k: Key, n: WireNonce, ad: Bytes, p: Bytes, k': Key, n': WireNonce, ad': Bytes |
      s.unseal(k', n', ad', s.seal(k, n, ad, p)).Some?
      ensures k' == k && n' == n && ad' == ad
    {
      SymSealCommits(k, n, ad, p);
      SymSealCommits(k', n', ad', p);
    }
    forall a: Key, b: Key ensures s.dh(a, s.pub(b)).Some? {
      SymDhOnPublic(a, b);
    }
  }
}
