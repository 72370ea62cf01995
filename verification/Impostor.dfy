/**
 Who a handshake authenticates, under the symbolic suite.  A party that shows a
 static public key without having its secret is refused at the very message that
 should prove it, in both patterns and both roles.
 */
module Impostor {
  import opened Octets
  import opened Primitives
  import opened CipherStates
  import opened Hmac
  import opened SymmetricStates
  import opened Handshakes
  import opened Agreement
  import opened ClosedForm

  /** The key that seals after a secret is mixed into a chaining key. */
  function SealingKey(s: Suite, ck: Digest, d: Key): Key {
    KeyOf(TwoOutputs(s, ck, d).1)
  }

  /** Sealed after mixing one secret, opened after mixing another: it opens exactly if the secrets are equal. */
  lemma OpensIfSecretsAgree(ck: Digest, d: Key, d': Key, h: Digest, text: Bytes)
    requires Lawful(Symbolic())
    ensures var k, k' := SealingKey(Symbolic(), ck, d), SealingKey(Symbolic(), ck, d');
            Symbolic().unseal(k', NONCE_0, h, Symbolic().seal(k, NONCE_0, h, text)).Some? <==> d == d'
  {
    var s: Suite := Symbolic();
    SymbolicIsIdeal();
    TwoOutputsAreHkdf(s, ck, d);
    TwoOutputsAreHkdf(s, ck, d');
    MixedKeysDiffer(ck, d, d');
    hide TwoOutputs, HkdfSpec, SymSeal, SymUnseal, SymHash;
    assert s.unseal(SealingKey(s, ck, d), NONCE_0, h, s.seal(SealingKey(s, ck, d), NONCE_0, h, text)) == Some(text);
  }

  /** The secrets that two static keys share with one other key differ if the static keys do. */
  lemma SharedTellsKeysApart(x: Key, y: Key, z: Key)
    ensures SymDh(y, SymPub(z)).Some? && SymDh(z, SymPub(x)).Some?
    ensures SymDh(y, SymPub(z)) == SymDh(z, SymPub(x)) <==> y == x
  {
    SymDhOnPublic(y, z);
    SymDhOnPublic(z, x);
    var a, b := SymDh(y, SymPub(z)).value, SymDh(z, SymPub(x)).value;
    assert a[0] == Shared({y, z}, 0) && b[0] == Shared({z, x}, 0);
    assert {y, z} == {z, x} ==> y in {z, x} && x in {y, z};
    if y == x {
      assert {y, z} == {z, x};
      assert a == b;
    }
  }

  // ---- What a form, written with one last secret and read with another, comes to ----

  lemma WithStaticTaken(ck: Digest, h: Digest, e: Key, d1: Key, sPk: Key, d2: Key, payload: Bytes, sk1: Key, sk2: Key)
    requires Lawful(Symbolic())
    requires SymDh(sk1, e) == Some(d1) && SymDh(sk2, sPk).Some?
    ensures var s: Suite := Symbolic();
            TakeWithStatic(s, ck, h, sk1, sk2, FormWithStatic(s, ck, h, e, d1, sPk, d2, payload).message).Some?
            <==> SymDh(sk2, sPk) == Some(d2)
  {
    var s: Suite := Symbolic();
    hide TwoOutputs, SymHash, SymSeal, SymUnseal, SymDh;
    var h1 := s.hash(h + e);
    var k1 := SealingKey(s, ck, d1);
    var c1 := s.seal(k1, NONCE_0, h1, sPk);
    var ck1, h2 := TwoOutputs(s, ck, d1).0, s.hash(h1 + c1);
    var c2 := s.seal(SealingKey(s, ck1, d2), NONCE_0, h2, payload);
    var m := e + c1 + c2;
    assert m[..32] == e && m[32..80] == c1 && m[80..] == c2;
    assert s.unseal(k1, NONCE_0, h1, c1) == Some(sPk);
    OpensIfSecretsAgree(ck1, d2, SymDh(sk2, sPk).value, h2, payload);
  }

  lemma ThirdTaken(ck: Digest, h: Digest, k: Key, nonce: WireNonce, sPk: Key, d: Key, payload: Bytes, sk: Key, e: Key)
    requires Lawful(Symbolic()) && SymDh(sk, sPk).Some?
    ensures var s: Suite := Symbolic();
            TakeThird(s, ck, h, k, nonce, sk, e, FormThird(s, ck, h, k, nonce, sPk, d, payload).message).Some?
            <==> SymDh(sk, sPk) == Some(d)
  {
    var s: Suite := Symbolic();
    hide TwoOutputs, SymHash, SymSeal, SymUnseal, SymDh;
    var c1 := s.seal(k, nonce, h, sPk);
    var h1 := s.hash(h + c1);
    var c2 := s.seal(SealingKey(s, ck, d), NONCE_0, h1, payload);
    assert (c1 + c2)[..48] == c1 && (c1 + c2)[48..] == c2;
    assert s.unseal(k, nonce, h, c1) == Some(sPk);
    OpensIfSecretsAgree(ck, d, SymDh(sk, sPk).value, h1, payload);
  }

  lemma WithoutStaticTaken(ck: Digest, h: Digest, e: Key, d1: Key, d2: Key, payload: Bytes, sk: Key, rs: Key)
    requires Lawful(Symbolic()) && SymDh(sk, e) == Some(d1) && SymDh(sk, rs).Some?
    ensures var s: Suite := Symbolic();
            TakeWithoutStatic(s, ck, h, sk, rs, FormWithoutStatic(s, ck, h, e, d1, d2, payload).message).Some?
            <==> SymDh(sk, rs) == Some(d2)
  {
    var s: Suite := Symbolic();
    hide TwoOutputs, SymHash, SymSeal, SymUnseal, SymDh;
    var h1, ck1 := s.hash(h + e), TwoOutputs(s, ck, d1).0;
    var c := s.seal(SealingKey(s, ck1, d2), NONCE_0, h1, payload);
    assert (e + c)[..32] == e && (e + c)[32..] == c;
    OpensIfSecretsAgree(ck1, d2, SymDh(sk, rs).value, h1, payload);
  }

  // ---- The impostors ----

  /** XX message 2 from a responder that shows `sr`'s public key and computes with `y`. */
  lemma XxResponder(i: Party, r: Party, y: Key, eph: Key, payload: Bytes)
    requires Lawful(Symbolic()) && Honest(Symbolic(), i, r) && i.pattern == XX && i.step == 1
    ensures var m := Write(Symbolic(), r.(sSk := y), eph, payload).1;
            m.Some? && (Read(Symbolic(), i, m.value).1.Some? <==> y == r.sSk)
  {
    var s: Suite := Symbolic();
    assert Linked(s, i, r, Ephemeral);
    assert r.re == SymPub(i.eSk) && r.sPk == SymPub(r.sSk) && r.sym == i.sym;
    SharedTellsKeysApart(r.sSk, y, i.eSk);
    SymDhOnPublic(eph, i.eSk);
    SymDhOnPublic(i.eSk, eph);
    assert {eph, i.eSk} == {i.eSk, eph};
    hide Write, Read, Honest, SymDh, SymPub, FormWithStatic, TakeWithStatic;
    XxSecondMessage(s, r.(sSk := y), eph, payload);
    var ee, es := SymDh(eph, r.re).value, SymDh(y, r.re).value;
    WithStaticTaken(i.sym.ck, i.sym.h, SymPub(eph), ee, r.sPk, es, payload, i.eSk, i.eSk);
    XxSecondRead(s, i, Write(s, r.(sSk := y), eph, payload).1.value);
  }

  /** XX message 3 from such an initiator. */
  lemma XxInitiator(i: Party, r: Party, y: Key, eph: Key, payload: Bytes)
    requires Lawful(Symbolic()) && Honest(Symbolic(), i, r) && i.pattern == XX && i.step == 2
    ensures var m := Write(Symbolic(), i.(sSk := y), eph, payload).1;
            m.Some? && (Read(Symbolic(), r, m.value).1.Some? <==> y == i.sSk)
  {
    var s: Suite := Symbolic();
    assert Linked(s, r, i, Ephemeral);
    assert i.re == SymPub(r.eSk) && i.sPk == SymPub(i.sSk) && r.sym == i.sym && i.sym.cipher.hasKey;
    SharedTellsKeysApart(i.sSk, y, r.eSk);
    hide Write, Read, Honest, SymDh, SymPub, FormThird, TakeThird;
    XxThirdMessage(s, i.(sSk := y), eph, payload);
    var c := i.sym.cipher;
    ThirdTaken(i.sym.ck, i.sym.h, c.k, WireNonceOf(c.n), i.sPk, SymDh(y, i.re).value, payload, r.eSk, r.re);
    XxThirdRead(s, r, Write(s, i.(sSk := y), eph, payload).1.value);
  }

  /** IK message 1 from such an initiator. */
  lemma IkInitiator(i: Party, r: Party, y: Key, eph: Key, payload: Bytes)
    requires Lawful(Symbolic()) && Honest(Symbolic(), i, r) && i.pattern == IK && i.step == 0
    ensures var m := Write(Symbolic(), i.(sSk := y), eph, payload).1;
            m.Some? && (Read(Symbolic(), r, m.value).1.Some? <==> y == i.sSk)
  {
    var s: Suite := Symbolic();
    assert Linked(s, r, i, Static);
    assert i.rs == SymPub(r.sSk) && i.sPk == SymPub(i.sSk) && r.sym == i.sym;
    SharedTellsKeysApart(i.sSk, y, r.sSk);
    SymDhOnPublic(eph, r.sSk);
    SymDhOnPublic(r.sSk, eph);
    assert {eph, r.sSk} == {r.sSk, eph};
    hide Write, Read, Honest, SymDh, SymPub, FormWithStatic, TakeWithStatic;
    IkFirstMessage(s, i.(sSk := y), eph, payload);
    var es, ss := SymDh(eph, i.rs).value, SymDh(y, i.rs).value;
    WithStaticTaken(i.sym.ck, i.sym.h, SymPub(eph), es, i.sPk, ss, payload, r.sSk, r.sSk);
    IkFirstRead(s, r, Write(s, i.(sSk := y), eph, payload).1.value);
  }

  /** IK message 2 from a responder without the secret of the key the initiator was given. */
  lemma IkResponder(i: Party, r: Party, y: Key, eph: Key, payload: Bytes)
    requires Lawful(Symbolic()) && Honest(Symbolic(), i, r) && i.pattern == IK && i.step == 1
    ensures var m := Write(Symbolic(), r.(sSk := y), eph, payload).1;
            m.Some? && (Read(Symbolic(), i, m.value).1.Some? <==> y == r.sSk)
  {
    var s: Suite := Symbolic();
    assert Linked(s, i, r, Ephemeral) && Linked(s, r, i, Static);
    assert r.re == SymPub(i.eSk) && i.rs == SymPub(r.sSk) && r.sym == i.sym;
    SharedTellsKeysApart(r.sSk, y, i.eSk);
    SymDhOnPublic(eph, i.eSk);
    SymDhOnPublic(i.eSk, eph);
    assert {eph, i.eSk} == {i.eSk, eph};
    hide Write, Read, Honest, SymDh, SymPub, FormWithoutStatic, TakeWithoutStatic;
    IkSecondMessage(s, r.(sSk := y), eph, payload);
    var ee, es := SymDh(eph, r.re).value, SymDh(y, r.re).value;
    WithoutStaticTaken(i.sym.ck, i.sym.h, SymPub(eph), ee, es, payload, i.eSk, i.rs);
    IkSecondRead(s, i, Write(s, r.(sSk := y), eph, payload).1.value);
  }
}
