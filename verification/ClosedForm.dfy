/**
 Every message and the outcome of both handshakes written out by hand, as a
 chain of hash, HMAC, seal and DH values, with no script, no table and no
 symmetric state: what an implementer of the other side would have to compute.
 */
module ClosedForm {
  import opened Octets
  import opened Primitives
  import opened CipherStates
  import opened Hmac
  import opened SymmetricStates
  import opened Handshakes
  import opened Agreement

  const NONCE_0: WireNonce := Zeros(12)
  const NONCE_1: WireNonce := Zeros(4) + [Byte(1)] + Zeros(7)

  /** Chaining key, hash and cipher key after a message, and the message. */
  datatype Form = Form(ck: Digest, h: Digest, k: Key, message: Bytes)

  /** Ephemeral, first secret, sealed static key, second secret, sealed payload: XX message 2 and IK message 1. */
  function FormWithStatic(s: Suite, ck: Digest, h: Digest, e: Key, d1: Key, sPk: Key, d2: Key, payload: Bytes): Form {
    var h1 := s.hash(h + e);
    var (ck1, o1) := TwoOutputs(s, ck, d1);
    var c1 := s.seal(KeyOf(o1), NONCE_0, h1, sPk);
    var h2 := s.hash(h1 + c1);
    var (ck2, o2) := TwoOutputs(s, ck1, d2);
    var c2 := s.seal(KeyOf(o2), NONCE_0, h2, payload);
    Form(ck2, s.hash(h2 + c2), KeyOf(o2), e + c1 + c2)
  }

  /** Static key sealed under the last key at its next counter, one secret, sealed payload: XX message 3. */
  function FormThird(s: Suite, ck: Digest, h: Digest, k: Key, nonce: WireNonce, sPk: Key, d: Key, payload: Bytes): Form
  {
    var c1 := s.seal(k, nonce, h, sPk);
    var h1 := s.hash(h + c1);
    var (ck1, o1) := TwoOutputs(s, ck, d);
    var c2 := s.seal(KeyOf(o1), NONCE_0, h1, payload);
    Form(ck1, s.hash(h1 + c2), KeyOf(o1), c1 + c2)
  }

  /** Ephemeral, two secrets, sealed payload: IK message 2. */
  function FormWithoutStatic(s: Suite, ck: Digest, h: Digest, e: Key, d1: Key, d2: Key, payload: Bytes): Form {
    var h1 := s.hash(h + e);
    var (ck1, _) := TwoOutputs(s, ck, d1);
    var (ck2, o2) := TwoOutputs(s, ck1, d2);
    var c := s.seal(KeyOf(o2), NONCE_0, h1, payload);
    Form(ck2, s.hash(h1 + c), KeyOf(o2), e + c)
  }

  /** A call produced exactly this form. */
  ghost predicate Gives(result: (Party, Option<Bytes>), f: Form) {
    && result.1 == Some(f.message) && result.0.sym.ck == f.ck && result.0.sym.h == f.h
    && result.0.sym.cipher == Cipher(f.k, 1, true)
  }

  lemma Nonces()
    ensures WireNonceOf(0) == NONCE_0 && WireNonceOf(1) == NONCE_1
  {
    forall i | 0 <= i < 8 ensures LittleEndian(0, 8)[i] == Byte(0) && LittleEndian(1, 8)[i] == NONCE_1[4 + i] {
      LittleEndianAt(0, 8, i);
      LittleEndianAt(1, 8, i);
      SmallShifts(i);
    }
  }

  lemma {:induction false} SmallShifts(i: nat)
    ensures ShiftRight(0, i) == 0 && ShiftRight(1, i) == if i == 0 then 1 else 0
  {
    if i > 0 {
      SmallShifts(i - 1);
    }
  }

  // ---- One token, written out ----

  lemma WroteE(s: Suite, p: Party, a: bool, eph: Key, out: Bytes)
    ensures var e := s.pub(eph);
            var y := Symmetric(p.sym.ck, s.hash(p.sym.h + e), p.sym.cipher, p.sym.log + [e]);
            WriteToken(s, p, E, a, eph, out) == Progress(p.(eSk := eph, ePk := e, sym := y), out + e, true)
  {
  }

  lemma WroteS(s: Suite, p: Party, a: bool, eph: Key, out: Bytes)
    requires p.sym.cipher.hasKey
    ensures var c := p.sym.cipher;
            var ct := s.seal(c.k, WireNonceOf(c.n), p.sym.h, p.sPk);
            var y := Symmetric(p.sym.ck, s.hash(p.sym.h + ct), c.(n := c.n + 1), p.sym.log + [ct]);
            WriteToken(s, p, S, a, eph, out) == Progress(p.(sym := y), out + ct, true)
  {
  }

  lemma WroteDh(s: Suite, p: Party, t: Token, a: bool, eph: Key, out: Bytes, d: Key)
    requires IsDh(t) && s.dh(Secret(p, OwnKind(t, a)), PeerKey(p, OwnKind(t, !a))) == Some(d)
    ensures var (o1, o2) := TwoOutputs(s, p.sym.ck, d);
            var y := Symmetric(o1, p.sym.h, Cipher(KeyOf(o2), 0, true), p.sym.log);
            WriteToken(s, p, t, a, eph, out) == Progress(p.(sym := y), out, true)
  {
    MixKeyOutputs(s, p.sym, d);
    hide TwoOutputs, WithKey;
  }

  lemma WrotePayload(s: Suite, q: Progress, payload: Bytes)
    requires q.ok && q.party.sym.cipher.hasKey
    ensures var c := q.party.sym.cipher;
            var ct := s.seal(c.k, WireNonceOf(c.n), q.party.sym.h, payload);
            var (p, m) := FinishWrite(s, q, payload);
            && m == Some(q.bytes + ct) && p.sym.ck == q.party.sym.ck
            && p.sym.h == s.hash(q.party.sym.h + ct) && p.sym.cipher == c.(n := c.n + 1)
  {
  }

  lemma OneToken(s: Suite, p: Party, t: Token, rest: Script, a: bool, eph: Key, out: Bytes)
    ensures var w := WriteToken(s, p, t, a, eph, out);
            WriteScript(s, p, Then(t, rest), a, eph, out)
            == if w.ok && rest.Then? then WriteScript(s, w.party, rest, a, eph, w.bytes) else w
  {
  }

  lemma FailedDh(s: Suite, p: Party, t: Token, a: bool, eph: Key, out: Bytes)
    requires IsDh(t) && s.dh(Secret(p, OwnKind(t, a)), PeerKey(p, OwnKind(t, !a))) == None
    ensures !WriteToken(s, p, t, a, eph, out).ok
  {
  }

  // ---- The messages ----

  /** The DH a side computes for a token once its ephemeral is `eph`. */
  function DhOf(s: Suite, p: Party, eph: Key, t: Token, a: bool): Option<Key> {
    s.dh(if OwnKind(t, a).Ephemeral? then eph else p.sSk, PeerKey(p, OwnKind(t, !a)))
  }

  lemma EDhSDh(s: Suite, p: Party, t1: Token, t2: Token, a: bool, eph: Key, payload: Bytes)
    requires IsDh(t1) && IsDh(t2)
    ensures var d1, d2 := DhOf(s, p, eph, t1, a), DhOf(s, p, eph, t2, a);
            var w := WriteScript(s, p, Then(E, Then(t1, Then(S, Then(t2, Done)))), a, eph, []);
            if d1.None? || d2.None? then !w.ok
            else
              && w.party.eSk == eph
              && Gives(FinishWrite(s, w, payload),
                       FormWithStatic(s, p.sym.ck, p.sym.h, s.pub(eph), d1.value, p.sPk, d2.value, payload))
  {
    hide WriteToken, TwoOutputs, WireNonceOf, OwnKind;
    var d1, d2 := DhOf(s, p, eph, t1, a), DhOf(s, p, eph, t2, a);
    Nonces();
    assert [] + s.pub(eph) == s.pub(eph);
    WroteE(s, p, a, eph, []);
    OneToken(s, p, E, Then(t1, Then(S, Then(t2, Done))), a, eph, []);
    var w1 := WriteToken(s, p, E, a, eph, []);
    OneToken(s, w1.party, t1, Then(S, Then(t2, Done)), a, eph, w1.bytes);
    var w2 := WriteToken(s, w1.party, t1, a, eph, w1.bytes);
    if d1.None? {
      FailedDh(s, w1.party, t1, a, eph, w1.bytes);
    } else {
      WroteDh(s, w1.party, t1, a, eph, w1.bytes, d1.value);
      WroteS(s, w2.party, a, eph, w2.bytes);
      OneToken(s, w2.party, S, Then(t2, Done), a, eph, w2.bytes);
      var w3 := WriteToken(s, w2.party, S, a, eph, w2.bytes);
      OneToken(s, w3.party, t2, Done, a, eph, w3.bytes);
      var w4 := WriteToken(s, w3.party, t2, a, eph, w3.bytes);
      if d2.None? {
        FailedDh(s, w3.party, t2, a, eph, w3.bytes);
      } else {
        WroteDh(s, w3.party, t2, a, eph, w3.bytes, d2.value);
        WrotePayload(s, w4, payload);
      }
    }
    hide WriteScript, FinishWrite;
  }

  lemma FailedHead(s: Suite, p: Party, eph: Key, payload: Bytes)
    ensures !Complete(p) && !WriteHead(s, p, eph).ok ==> Write(s, p, eph, payload).1 == None
    ensures !Complete(p) ==> Write(s, p, eph, payload).0.eSk == WriteHead(s, p, eph).party.eSk
  {
    hide WriteHead;
  }

  /** XX message 1: the ephemeral and the payload in clear. */
  lemma XxFirstMessage(s: Suite, p: Party, eph: Key, payload: Bytes)
    requires p.pattern == XX && p.step == 0 && !p.sym.cipher.hasKey
    ensures var (q, m) := Write(s, p, eph, payload);
            && m == Some(s.pub(eph) + payload) && q.eSk == eph
            && q.sym.ck == p.sym.ck && q.sym.h == s.hash(s.hash(p.sym.h + s.pub(eph)) + payload)
  {
    WroteE(s, p, true, eph, []);
    OneToken(s, p, E, Done, true, eph, []);
    hide WriteScript, WriteToken;
    assert [] + s.pub(eph) == s.pub(eph);
  }

  /** XX message 2: `ee` is the ephemerals', `es` the responder's static with the initiator's ephemeral. */
  lemma XxSecondMessage(s: Suite, p: Party, eph: Key, payload: Bytes)
    requires p.pattern == XX && p.step == 1
    ensures var ee, es := s.dh(eph, p.re), s.dh(p.sSk, p.re);
            if ee.None? || es.None? then Write(s, p, eph, payload).1 == None
            else
              && Write(s, p, eph, payload).0.eSk == eph
              && Gives(Write(s, p, eph, payload),
                       FormWithStatic(s, p.sym.ck, p.sym.h, s.pub(eph), ee.value, p.sPk, es.value, payload))
  {
    hide FormWithStatic, WriteScript, FinishWrite, Gives;
    EDhSDh(s, p, EE, ES, false, eph, payload);
    FailedHead(s, p, eph, payload);
  }

  /** XX message 3: `se` is the initiator's static with the responder's ephemeral. */
  lemma XxThirdMessage(s: Suite, p: Party, eph: Key, payload: Bytes)
    requires p.pattern == XX && p.step == 2 && p.sym.cipher.hasKey
    ensures var se, c := s.dh(p.sSk, p.re), p.sym.cipher;
            if se.None? then Write(s, p, eph, payload).1 == None
            else
              Gives(Write(s, p, eph, payload),
                    FormThird(s, p.sym.ck, p.sym.h, c.k, WireNonceOf(c.n), p.sPk, se.value, payload))
  {
    hide WriteToken, TwoOutputs, WireNonceOf;
    Nonces();
    WroteS(s, p, true, eph, []);
    OneToken(s, p, S, Then(SE, Done), true, eph, []);
    var w1 := WriteToken(s, p, S, true, eph, []);
    var c1 := s.seal(p.sym.cipher.k, WireNonceOf(p.sym.cipher.n), p.sym.h, p.sPk);
    assert [] + c1 == c1;
    OneToken(s, w1.party, SE, Done, true, eph, w1.bytes);
    var w2 := WriteToken(s, w1.party, SE, true, eph, w1.bytes);
    if s.dh(p.sSk, p.re).None? {
      FailedDh(s, w1.party, SE, true, eph, w1.bytes);
    } else {
      WroteDh(s, w1.party, SE, true, eph, w1.bytes, s.dh(p.sSk, p.re).value);
      WrotePayload(s, w2, payload);
    }
    hide WriteScript, FinishWrite;
  }

  /** IK message 1: `es` is the initiator's ephemeral, `ss` its static, both with the responder's static. */
  lemma IkFirstMessage(s: Suite, p: Party, eph: Key, payload: Bytes)
    requires p.pattern == IK && p.step == 0
    ensures var es, ss := s.dh(eph, p.rs), s.dh(p.sSk, p.rs);
            if es.None? || ss.None? then Write(s, p, eph, payload).1 == None
            else
              && Write(s, p, eph, payload).0.eSk == eph
              && Gives(Write(s, p, eph, payload),
                       FormWithStatic(s, p.sym.ck, p.sym.h, s.pub(eph), es.value, p.sPk, ss.value, payload))
  {
    hide FormWithStatic, WriteScript, FinishWrite, Gives;
    EDhSDh(s, p, ES, SS, true, eph, payload);
    FailedHead(s, p, eph, payload);
  }

  /** IK message 2: `ee`, and the responder's static with the initiator's ephemeral. */
  lemma IkSecondMessage(s: Suite, p: Party, eph: Key, payload: Bytes)
    requires p.pattern == IK && p.step == 1
    ensures var ee, es := s.dh(eph, p.re), s.dh(p.sSk, p.re);
            if ee.None? || es.None? then Write(s, p, eph, payload).1 == None
            else
              Gives(Write(s, p, eph, payload),
                    FormWithoutStatic(s, p.sym.ck, p.sym.h, s.pub(eph), ee.value, es.value, payload))
  {
    hide WriteToken, TwoOutputs, WireNonceOf;
    Nonces();
    assert [] + s.pub(eph) == s.pub(eph);
    WroteE(s, p, false, eph, []);
    OneToken(s, p, E, Then(EE, Then(ES, Done)), false, eph, []);
    var w1 := WriteToken(s, p, E, false, eph, []);
    OneToken(s, w1.party, EE, Then(ES, Done), false, eph, w1.bytes);
    var w2 := WriteToken(s, w1.party, EE, false, eph, w1.bytes);
    if s.dh(eph, p.re).None? {
      FailedDh(s, w1.party, EE, false, eph, w1.bytes);
    } else {
      WroteDh(s, w1.party, EE, false, eph, w1.bytes, s.dh(eph, p.re).value);
      OneToken(s, w2.party, ES, Done, false, eph, w2.bytes);
      var w3 := WriteToken(s, w2.party, ES, false, eph, w2.bytes);
      if s.dh(p.sSk, p.re).None? {
        FailedDh(s, w2.party, ES, false, eph, w2.bytes);
      } else {
        WroteDh(s, w2.party, ES, false, eph, w2.bytes, s.dh(p.sSk, p.re).value);
        WrotePayload(s, w3, payload);
      }
    }
    hide WriteScript, FinishWrite;
  }

  // ---- The messages, read ----

  /** What an accepted message leaves: the form with the payload in clear, and the peer's keys as received. */
  datatype Taken = Taken(form: Form, e: Key, rs: Key)

  /** XX message 2 and IK message 1, read with `sk1` for the first secret and `sk2` for the second. */
  function TakeWithStatic(s: Suite, ck: Digest, h: Digest, sk1: Key, sk2: Key, m: Bytes): Option<Taken> {
    if |m| < 80 || s.dh(sk1, m[..32]).None? then None
    else
      var h1 := s.hash(h + m[..32]);
      var (ck1, o1) := TwoOutputs(s, ck, s.dh(sk1, m[..32]).value);
      var rs := s.unseal(KeyOf(o1), NONCE_0, h1, m[32..80]);
      if rs.None? || s.dh(sk2, rs.value).None? then None
      else
        var h2 := s.hash(h1 + m[32..80]);
        var (ck2, o2) := TwoOutputs(s, ck1, s.dh(sk2, rs.value).value);
        var plain := s.unseal(KeyOf(o2), NONCE_0, h2, m[80..]);
        if plain.None? then None
        else Some(Taken(Form(ck2, s.hash(h2 + m[80..]), KeyOf(o2), plain.value), m[..32], rs.value))
  }

  /** XX message 3. */
  function TakeThird(s: Suite, ck: Digest, h: Digest, k: Key, nonce: WireNonce, sk: Key, e: Key, m: Bytes)
    : Option<Taken>
  {
    if |m| < 48 then None
    else
      var rs := s.unseal(k, nonce, h, m[..48]);
      if rs.None? || s.dh(sk, rs.value).None? then None
      else
        var h1 := s.hash(h + m[..48]);
        var (ck1, o1) := TwoOutputs(s, ck, s.dh(sk, rs.value).value);
        var plain := s.unseal(KeyOf(o1), NONCE_0, h1, m[48..]);
        if plain.None? then None
        else Some(Taken(Form(ck1, s.hash(h1 + m[48..]), KeyOf(o1), plain.value), e, rs.value))
  }

  /** IK message 2. */
  function TakeWithoutStatic(s: Suite, ck: Digest, h: Digest, sk: Key, rs: Key, m: Bytes): Option<Taken> {
    if |m| < 32 || s.dh(sk, m[..32]).None? || s.dh(sk, rs).None? then None
    else
      var h1 := s.hash(h + m[..32]);
      var (ck1, _) := TwoOutputs(s, ck, s.dh(sk, m[..32]).value);
      var (ck2, o2) := TwoOutputs(s, ck1, s.dh(sk, rs).value);
      var plain := s.unseal(KeyOf(o2), NONCE_0, h1, m[32..]);
      if plain.None? then None
      else Some(Taken(Form(ck2, s.hash(h1 + m[32..]), KeyOf(o2), plain.value), m[..32], rs))
  }

  /** A call took exactly this, or refused. */
  ghost predicate Takes(result: (Party, Option<Bytes>), x: Option<Taken>) {
    match x
    case None => result.1 == None
    case Some(t) =>
      && result.1 == Some(t.form.message) && result.0.re == t.e && result.0.rs == t.rs
      && result.0.sym.ck == t.form.ck && result.0.sym.h == t.form.h
      && result.0.sym.cipher == Cipher(t.form.k, 1, true)
  }

  lemma TookE(s: Suite, p: Party, a: bool, input: Bytes)
    ensures var r := ReadToken(s, p, E, a, input);
            if |input| < 32 then !r.ok
            else
              var e: Key := input[..32];
              var y := Symmetric(p.sym.ck, s.hash(p.sym.h + e), p.sym.cipher, p.sym.log + [e]);
              r == Progress(p.(re := e, sym := y), input[32..], true)
  {
  }

  lemma TookS(s: Suite, p: Party, a: bool, input: Bytes)
    requires p.sym.cipher.hasKey
    ensures var r, c := ReadToken(s, p, S, a, input), p.sym.cipher;
            if |input| < 48 then !r.ok
            else
              match s.unseal(c.k, WireNonceOf(c.n), p.sym.h, input[..48])
              case None => !r.ok
              case Some(rs) =>
                var ct := input[..48];
                var y := Symmetric(p.sym.ck, s.hash(p.sym.h + ct), c.(n := c.n + 1), p.sym.log + [ct]);
                |rs| == 32 && r == Progress(p.(sym := y, rs := rs, rsKnown := true), input[48..], true)
  {
  }

  lemma TookDh(s: Suite, p: Party, t: Token, a: bool, input: Bytes)
    requires IsDh(t)
    ensures var r, d := ReadToken(s, p, t, a, input), s.dh(Secret(p, OwnKind(t, a)), PeerKey(p, OwnKind(t, !a)));
            if d.None? then !r.ok
            else
              var (o1, o2) := TwoOutputs(s, p.sym.ck, d.value);
              var y := Symmetric(o1, p.sym.h, Cipher(KeyOf(o2), 0, true), p.sym.log);
              r == Progress(p.(sym := y), input, true)
  {
    var d := s.dh(Secret(p, OwnKind(t, a)), PeerKey(p, OwnKind(t, !a)));
    if d.Some? {
      MixKeyOutputs(s, p.sym, d.value);
    }
    hide TwoOutputs, WithKey;
  }

  lemma TookPayload(s: Suite, q: Progress)
    ensures var (p, m) := FinishRead(s, q);
            var c := q.party.sym.cipher;
            if !q.ok then m == None
            else if c.hasKey then
              var plain := s.unseal(c.k, WireNonceOf(c.n), q.party.sym.h, q.bytes);
              && m == plain && p.re == q.party.re && p.rs == q.party.rs && p.rsKnown == q.party.rsKnown
              && (plain.Some? ==> p.sym.ck == q.party.sym.ck && p.sym.h == s.hash(q.party.sym.h + q.bytes)
                                  && p.sym.cipher == c.(n := c.n + 1))
            else m == Some(q.bytes)
  {
  }

  lemma OneTokenRead(s: Suite, p: Party, t: Token, rest: Script, a: bool, input: Bytes)
    ensures var r := ReadToken(s, p, t, a, input);
            ReadScript(s, p, Then(t, rest), a, input)
            == if r.ok && rest.Then? then ReadScript(s, r.party, rest, a, r.bytes) else r
  {
  }

  lemma TakeEDhSDh(s: Suite, p: Party, t1: Token, t2: Token, a: bool, m: Bytes)
    requires IsDh(t1) && OwnKind(t1, !a).Ephemeral? && IsDh(t2) && OwnKind(t2, !a).Static?
    ensures var q := ReadScript(s, p, Then(E, Then(t1, Then(S, Then(t2, Done)))), a, m);
            var sk1, sk2 := Secret(p, OwnKind(t1, a)), Secret(p, OwnKind(t2, a));
            && Takes(FinishRead(s, q), TakeWithStatic(s, p.sym.ck, p.sym.h, sk1, sk2, m))
            && (FinishRead(s, q).1.Some? ==> FinishRead(s, q).0.rsKnown)
  {
    hide ReadToken, TwoOutputs, WireNonceOf, OwnKind;
    Nonces();
    TookE(s, p, a, m);
    OneTokenRead(s, p, E, Then(t1, Then(S, Then(t2, Done))), a, m);
    var r1 := ReadToken(s, p, E, a, m);
    TookPayload(s, ReadScript(s, p, Then(E, Then(t1, Then(S, Then(t2, Done)))), a, m));
    if r1.ok {
      TookDh(s, r1.party, t1, a, r1.bytes);
      OneTokenRead(s, r1.party, t1, Then(S, Then(t2, Done)), a, r1.bytes);
      var r2 := ReadToken(s, r1.party, t1, a, r1.bytes);
      if r2.ok {
        TookS(s, r2.party, a, r2.bytes);
        OneTokenRead(s, r2.party, S, Then(t2, Done), a, r2.bytes);
        var r3 := ReadToken(s, r2.party, S, a, r2.bytes);
        if |m| >= 80 {
          assert m[32..][..48] == m[32..80] && m[32..][48..] == m[80..];
        }
        if r3.ok {
          TookDh(s, r3.party, t2, a, r3.bytes);
          OneTokenRead(s, r3.party, t2, Done, a, r3.bytes);
        }
      }
    }
    hide ReadScript, FinishRead;
  }

  /** XX message 1: any 32 bytes and a payload in clear. */
  lemma XxFirstRead(s: Suite, p: Party, m: Bytes)
    requires p.pattern == XX && p.step == 0 && !p.sym.cipher.hasKey
    ensures var (q, plain) := Read(s, p, m);
            if |m| < 32 then plain == None
            else
              && plain == Some(m[32..]) && q.re == m[..32]
              && q.sym.ck == p.sym.ck && q.sym.h == s.hash(s.hash(p.sym.h + m[..32]) + m[32..])
  {
    TookE(s, p, false, m);
    OneTokenRead(s, p, E, Done, false, m);
    hide ReadScript, ReadToken;
  }

  /** XX message 2, on any bytes: `ee` and `es` with the initiator's ephemeral. */
  lemma XxSecondRead(s: Suite, p: Party, m: Bytes)
    requires p.pattern == XX && p.step == 1
    ensures Takes(Read(s, p, m), TakeWithStatic(s, p.sym.ck, p.sym.h, p.eSk, p.eSk, m))
    ensures Read(s, p, m).1.Some? ==> Read(s, p, m).0.rsKnown
  {
    hide ReadScript, FinishRead, TakeWithStatic;
    TakeEDhSDh(s, p, EE, ES, true, m);
  }

  /** IK message 1, on any bytes: `es` and `ss` with the responder's static. */
  lemma IkFirstRead(s: Suite, p: Party, m: Bytes)
    requires p.pattern == IK && p.step == 0
    ensures Takes(Read(s, p, m), TakeWithStatic(s, p.sym.ck, p.sym.h, p.sSk, p.sSk, m))
    ensures Read(s, p, m).1.Some? ==> Read(s, p, m).0.rsKnown
  {
    hide ReadScript, FinishRead, TakeWithStatic;
    TakeEDhSDh(s, p, ES, SS, false, m);
  }

  /** XX message 3, on any bytes: `se` with the responder's ephemeral. */
  lemma XxThirdRead(s: Suite, p: Party, m: Bytes)
    requires p.pattern == XX && p.step == 2 && p.sym.cipher.hasKey
    ensures var c := p.sym.cipher;
            Takes(Read(s, p, m), TakeThird(s, p.sym.ck, p.sym.h, c.k, WireNonceOf(c.n), p.eSk, p.re, m))
    ensures Read(s, p, m).1.Some? ==> Read(s, p, m).0.rsKnown
  {
    hide ReadToken, TwoOutputs, WireNonceOf;
    Nonces();
    TookS(s, p, false, m);
    OneTokenRead(s, p, S, Then(SE, Done), false, m);
    var r1 := ReadToken(s, p, S, false, m);
    TookPayload(s, ReadHead(s, p, m));
    if r1.ok {
      TookDh(s, r1.party, SE, false, r1.bytes);
      OneTokenRead(s, r1.party, SE, Done, false, r1.bytes);
    }
    hide ReadScript, FinishRead;
  }

  /** IK message 2, on any bytes: `ee`, and the initiator's ephemeral with the responder's static. */
  lemma IkSecondRead(s: Suite, p: Party, m: Bytes)
    requires p.pattern == IK && p.step == 1
    ensures Takes(Read(s, p, m), TakeWithoutStatic(s, p.sym.ck, p.sym.h, p.eSk, p.rs, m))
  {
    hide ReadToken, TwoOutputs, WireNonceOf;
    Nonces();
    TookE(s, p, true, m);
    OneTokenRead(s, p, E, Then(EE, Then(ES, Done)), true, m);
    var r1 := ReadToken(s, p, E, true, m);
    TookPayload(s, ReadHead(s, p, m));
    if r1.ok {
      TookDh(s, r1.party, EE, true, r1.bytes);
      OneTokenRead(s, r1.party, EE, Then(ES, Done), true, r1.bytes);
      var r2 := ReadToken(s, r1.party, EE, true, r1.bytes);
      if r2.ok {
        TookDh(s, r2.party, ES, true, r2.bytes);
        OneTokenRead(s, r2.party, ES, Done, true, r2.bytes);
      }
    }
    hide ReadScript, FinishRead;
  }

  // ---- Whole handshakes ----

  const XX_START: Bytes := Ascii("Noise_XX_25519_ChaChaPoly_BLAKE2b") + Zeros(31)
  const IK_START: Bytes := Ascii("Noise_IK_25519_ChaChaPoly_BLAKE2b") + Zeros(31)

  /** Chaining key and hash before any message: the padded name, and the prologue; in IK the responder's key too. */
  lemma NewParty(s: Suite, pattern: Pattern, initiator: bool, sSk: Key, sPk: Key, preKnown: Option<Key>)
    ensures var p := Open(s, pattern, initiator, sSk, sPk, preKnown);
            var given := pattern.IK? && initiator && preKnown.Some?;
            && p.pattern == pattern && p.initiator == initiator && p.step == 0 && p.sSk == sSk && p.sPk == sPk
            && p.eSk == p.ePk == p.re == Zeros(32)
            && p.rsKnown == given && p.rs == if given then preKnown.value else Zeros(32)
    ensures var y := Open(s, pattern, initiator, sSk, sPk, preKnown).sym;
            var start := if pattern.XX? then XX_START else IK_START;
            var h0 := s.hash(start + Ascii("goodnet/v1/noise"));
            && |start| == 64 && y.ck == start && !y.cipher.hasKey
            && (forall i :: 33 <= i < 64 ==> y.ck[i] == Byte(0))
            && y.h == if pattern.XX? || (initiator && preKnown.None?) then h0
                      else s.hash(h0 + if initiator then preKnown.value else sPk)
  {
    assert |ProtocolName(pattern)| == 33;
    assert InitialHash(s, ProtocolName(pattern)) == ProtocolName(pattern) + Zeros(31);
  }

  /** What both sides hold at the end: one chaining key, one hash, and the four ciphers of the Split. */
  ghost predicate Ends(s: Suite, talk: Talk, f: Form) {
    var (o1, o2) := TwoOutputs(s, f.ck, []);
    && talk.i.sym.ck == talk.r.sym.ck == f.ck && talk.i.sym.h == talk.r.sym.h == f.h
    && TransportCiphers(s, talk.i) == (Keyed(KeyOf(o1)), Keyed(KeyOf(o2)))
    && TransportCiphers(s, talk.r) == (Keyed(KeyOf(o2)), Keyed(KeyOf(o1)))
  }

  lemma HonestEnds(s: Suite, talk: Talk, f: Form)
    requires Honest(s, talk.i, talk.r) && talk.i.sym.ck == f.ck && talk.i.sym.h == f.h
    ensures Ends(s, talk, f)
  {
    SplitOutputs(s, f.ck);
    hide TwoOutputs, SplitKeys, Linked, KeyPresence;
  }

  lemma {:induction false} ReadScriptKeepsSecret(s: Suite, p: Party, script: Script, a: bool, input: Bytes)
    ensures ReadScript(s, p, script, a, input).party.eSk == p.eSk
    decreases script
  {
    match script
    case Done =>
    case Then(t, rest) =>
      var r := ReadToken(s, p, t, a, input);
      if r.ok {
        ReadScriptKeepsSecret(s, r.party, rest, a, r.bytes);
      }
  }

  lemma ReadKeepsSecret(s: Suite, p: Party, message: Bytes)
    ensures Read(s, p, message).0.eSk == p.eSk
  {
    ReadScriptKeepsSecret(s, p, ScriptOf(p.pattern, p.step), ActsAsInitiator(p.step, false), message);
    hide ReadScript;
  }

  /** A conversation, message by message. */
  lemma ConverseUnfolds(s: Suite, i: Party, r: Party, turns: seq<Turn>)
    requires turns != []
    ensures var first := OneMessage(s, i, r, turns[0]);
            var rest := Converse(s, first.i, first.r, turns[1..]);
            var talk := Converse(s, i, r, turns);
            && (talk.written <==> first.written && rest.written)
            && (talk.written ==> talk.i == rest.i && talk.r == rest.r)
    ensures |turns| == 1 ==>
              var first := OneMessage(s, i, r, turns[0]);
              var talk := Converse(s, i, r, turns);
              (talk.written <==> first.written) && (talk.written ==> talk.i == first.i && talk.r == first.r)
  {
    hide OneMessage;
  }

  /** A message passed and both sides are in the state of the form; who they are is as before. */
  ghost predicate Passed(s: Suite, talk: Talk, i: Party, r: Party, f: Form) {
    && Honest(s, talk.i, talk.r) && talk.i.step == i.step + 1
    && SameIdentity(i, talk.i) && SameIdentity(r, talk.r)
    && talk.i.sym.ck == f.ck && talk.i.sym.h == f.h && talk.i.sym.cipher == Cipher(f.k, 1, true)
  }

  lemma FirstXxPasses(s: Suite, i: Party, r: Party, turn: Turn)
    requires Honest(s, i, r) && i.pattern == XX && i.step == 0
    ensures var talk := OneMessage(s, i, r, turn);
            && talk.written && Honest(s, talk.i, talk.r) && talk.i.step == 1
            && SameIdentity(i, talk.i) && SameIdentity(r, talk.r)
            && talk.i.eSk == turn.eph && talk.i.sym.ck == i.sym.ck
            && talk.i.sym.h == s.hash(s.hash(i.sym.h + s.pub(turn.eph)) + turn.payload)
  {
    hide Write, Read, Linked;
    XxFirstMessage(s, i, turn.eph, turn.payload);
    MessageAgreement(s, i, r, turn);
  }

  lemma SecondXxPasses(s: Suite, i: Party, r: Party, turn: Turn)
    requires Honest(s, i, r) && i.pattern == XX && i.step == 1
    ensures var talk := OneMessage(s, i, r, turn);
            var ee, es := s.dh(turn.eph, s.pub(i.eSk)), s.dh(r.sSk, s.pub(i.eSk));
            if ee.None? || es.None? then !talk.written
            else
              && talk.written && talk.i.eSk == i.eSk && talk.r.eSk == turn.eph
              && Passed(s, talk, i, r, FormWithStatic(s, i.sym.ck, i.sym.h, s.pub(turn.eph), ee.value,
                                                      s.pub(r.sSk), es.value, turn.payload))
  {
    assert Linked(s, i, r, Ephemeral);
    assert r.re == s.pub(i.eSk) && r.sPk == s.pub(r.sSk) && r.sym == i.sym;
    hide Write, Read, Linked, FormWithStatic, KeyPresence;
    XxSecondMessage(s, r, turn.eph, turn.payload);
    MessageAgreement(s, i, r, turn);
    if OneMessage(s, i, r, turn).written {
      ReadKeepsSecret(s, i, Write(s, r, turn.eph, turn.payload).1.value);
    }
  }

  lemma ThirdXxPasses(s: Suite, i: Party, r: Party, turn: Turn)
    requires Honest(s, i, r) && i.pattern == XX && i.step == 2 && i.sym.cipher == Cipher(i.sym.cipher.k, 1, true)
    ensures var talk := OneMessage(s, i, r, turn);
            var se := s.dh(i.sSk, s.pub(r.eSk));
            if se.None? then !talk.written
            else
              && talk.written
              && Passed(s, talk, i, r, FormThird(s, i.sym.ck, i.sym.h, i.sym.cipher.k, NONCE_1, s.pub(i.sSk), se.value,
                                                 turn.payload))
  {
    assert Linked(s, r, i, Ephemeral);
    assert i.re == s.pub(r.eSk) && i.sPk == s.pub(i.sSk);
    Nonces();
    hide Write, Read, Linked, FormThird, KeyPresence;
    XxThirdMessage(s, i, turn.eph, turn.payload);
    MessageAgreement(s, i, r, turn);
  }

  lemma FirstIkPasses(s: Suite, i: Party, r: Party, turn: Turn)
    requires Honest(s, i, r) && i.pattern == IK && i.step == 0
    ensures var talk := OneMessage(s, i, r, turn);
            var es, ss := s.dh(turn.eph, s.pub(r.sSk)), s.dh(i.sSk, s.pub(r.sSk));
            if es.None? || ss.None? then !talk.written
            else
              && talk.written && talk.i.eSk == turn.eph
              && Passed(s, talk, i, r, FormWithStatic(s, i.sym.ck, i.sym.h, s.pub(turn.eph), es.value,
                                                      s.pub(i.sSk), ss.value, turn.payload))
  {
    assert Linked(s, r, i, Static);
    assert i.rs == s.pub(r.sSk) && i.sPk == s.pub(i.sSk);
    hide Write, Read, Linked, FormWithStatic, KeyPresence;
    IkFirstMessage(s, i, turn.eph, turn.payload);
    MessageAgreement(s, i, r, turn);
  }

  lemma SecondIkPasses(s: Suite, i: Party, r: Party, turn: Turn)
    requires Honest(s, i, r) && i.pattern == IK && i.step == 1
    ensures var talk := OneMessage(s, i, r, turn);
            var ee, es := s.dh(turn.eph, s.pub(i.eSk)), s.dh(r.sSk, s.pub(i.eSk));
            if ee.None? || es.None? then !talk.written
            else
              && talk.written
              && Passed(s, talk, i, r, FormWithoutStatic(s, i.sym.ck, i.sym.h, s.pub(turn.eph), ee.value, es.value,
                                                         turn.payload))
  {
    assert Linked(s, i, r, Ephemeral);
    assert r.re == s.pub(i.eSk) && r.sym == i.sym;
    hide Write, Read, Linked, FormWithoutStatic, KeyPresence;
    IkSecondMessage(s, r, turn.eph, turn.payload);
    MessageAgreement(s, i, r, turn);
  }

  /** Two messages in a row, and a third. */
  lemma TwoTurns(s: Suite, i: Party, r: Party, turns: seq<Turn>)
    requires |turns| == 2
    ensures var t0 := OneMessage(s, i, r, turns[0]);
            var t1 := OneMessage(s, t0.i, t0.r, turns[1]);
            var talk := Converse(s, i, r, turns);
            (talk.written <==> t0.written && t1.written) && (talk.written ==> talk.i == t1.i && talk.r == t1.r)
  {
    hide OneMessage;
    var t0 := OneMessage(s, i, r, turns[0]);
    ConverseUnfolds(s, i, r, turns);
    ConverseUnfolds(s, t0.i, t0.r, turns[1..]);
  }

  lemma ThreeTurns(s: Suite, i: Party, r: Party, turns: seq<Turn>)
    requires |turns| == 3
    ensures var t0 := OneMessage(s, i, r, turns[0]);
            var t1 := OneMessage(s, t0.i, t0.r, turns[1]);
            var t2 := OneMessage(s, t1.i, t1.r, turns[2]);
            var talk := Converse(s, i, r, turns);
            && (talk.written <==> t0.written && t1.written && t2.written)
            && (talk.written ==> talk.i == t2.i && talk.r == t2.r)
  {
    hide OneMessage;
    var t0 := OneMessage(s, i, r, turns[0]);
    ConverseUnfolds(s, i, r, turns);
    TwoTurns(s, t0.i, t0.r, turns[1..]);
  }

  /** XX from keys to ciphers, for all statics, ephemerals and payloads, from a chaining key and a hash. */
  function XxForm(s: Suite, ck: Digest, h: Digest, si: Key, sr: Key, turns: seq<Turn>, ee: Key, es: Key, se: Key): Form
    requires |turns| == 3
  {
    var e0, e1 := s.pub(turns[0].eph), s.pub(turns[1].eph);
    var h1 := s.hash(s.hash(h + e0) + turns[0].payload);
    var two := FormWithStatic(s, ck, h1, e1, ee, s.pub(sr), es, turns[1].payload);
    FormThird(s, two.ck, two.h, two.k, NONCE_1, s.pub(si), se, turns[2].payload)
  }

  function IkForm(s: Suite, ck: Digest, h: Digest, si: Key, turns: seq<Turn>, es: Key, ss: Key, ee: Key, es': Key): Form
    requires |turns| == 2
  {
    var e0, e1 := s.pub(turns[0].eph), s.pub(turns[1].eph);
    var one := FormWithStatic(s, ck, h, e0, es, s.pub(si), ss, turns[0].payload);
    FormWithoutStatic(s, one.ck, one.h, e1, ee, es', turns[1].payload)
  }

  lemma XxFrom(s: Suite, i: Party, r: Party, turns: seq<Turn>)
    requires Honest(s, i, r) && i.pattern == XX && i.step == 0 && |turns| == 3
    ensures var talk := Converse(s, i, r, turns);
            var e0, e1 := turns[0].eph, turns[1].eph;
            var ee, es, se := s.dh(e1, s.pub(e0)), s.dh(r.sSk, s.pub(e0)), s.dh(i.sSk, s.pub(e1));
            if ee.None? || es.None? || se.None? then !talk.written
            else
              && talk.written && Honest(s, talk.i, talk.r)
              && var f := XxForm(s, i.sym.ck, i.sym.h, i.sSk, r.sSk, turns, ee.value, es.value, se.value);
                 talk.i.sym.ck == f.ck && talk.i.sym.h == f.h
  {
    hide OneMessage, Converse, Honest, FormWithStatic, FormThird;
    HonestPattern(s, i, r);
    ThreeTurns(s, i, r, turns);
    var t0 := OneMessage(s, i, r, turns[0]);
    FirstXxPasses(s, i, r, turns[0]);
    var t1 := OneMessage(s, t0.i, t0.r, turns[1]);
    SecondXxPasses(s, t0.i, t0.r, turns[1]);
    if t1.written {
      ThirdXxPasses(s, t1.i, t1.r, turns[2]);
    }
  }

  lemma IkFrom(s: Suite, i: Party, r: Party, turns: seq<Turn>)
    requires Honest(s, i, r) && i.pattern == IK && i.step == 0 && |turns| == 2
    ensures var talk := Converse(s, i, r, turns);
            var e0, e1 := turns[0].eph, turns[1].eph;
            var es, ss := s.dh(e0, s.pub(r.sSk)), s.dh(i.sSk, s.pub(r.sSk));
            var ee, es' := s.dh(e1, s.pub(e0)), s.dh(r.sSk, s.pub(e0));
            if es.None? || ss.None? || ee.None? || es'.None? then !talk.written
            else
              && talk.written && Honest(s, talk.i, talk.r)
              && var f := IkForm(s, i.sym.ck, i.sym.h, i.sSk, turns, es.value, ss.value, ee.value, es'.value);
                 talk.i.sym.ck == f.ck && talk.i.sym.h == f.h
  {
    hide OneMessage, Converse, Honest, FormWithStatic, FormWithoutStatic;
    TwoTurns(s, i, r, turns);
    var t0 := OneMessage(s, i, r, turns[0]);
    FirstIkPasses(s, i, r, turns[0]);
    if t0.written {
      SecondIkPasses(s, t0.i, t0.r, turns[1]);
    }
  }

  lemma HonestPattern(s: Suite, i: Party, r: Party)
    requires Honest(s, i, r)
    ensures i.pattern == r.pattern && i.sym == r.sym
  {
  }

  /**
   XX, for all static and ephemeral keys and all payloads: it completes exactly if
   the three DHs succeed, and the outcome is the one written out above, from the
   padded protocol name and the prologue.
   */
  lemma XxConversation(s: Suite, si: Key, sr: Key, turns: seq<Turn>)
    requires |turns| == 3
    ensures var i, r := Open(s, XX, true, si, s.pub(si), None), Open(s, XX, false, sr, s.pub(sr), None);
            var talk := Converse(s, i, r, turns);
            var e0, e1 := turns[0].eph, turns[1].eph;
            var ee, es, se := s.dh(e1, s.pub(e0)), s.dh(sr, s.pub(e0)), s.dh(si, s.pub(e1));
            var h0 := s.hash(XX_START + Ascii("goodnet/v1/noise"));
            if ee.None? || es.None? || se.None? then !talk.written
            else talk.written && Ends(s, talk, XxForm(s, XX_START, h0, si, sr, turns, ee.value, es.value, se.value))
  {
    var i, r := Open(s, XX, true, si, s.pub(si), None), Open(s, XX, false, sr, s.pub(sr), None);
    OpenIsHonest(s, XX, si, sr);
    NewParty(s, XX, true, si, s.pub(si), None);
    assert i.sSk == si && r.sSk == sr;
    hide Open, Converse, Honest, XxForm, Ends, Ascii;
    XxFrom(s, i, r, turns);
    var talk := Converse(s, i, r, turns);
    if talk.written {
      var e0, e1 := turns[0].eph, turns[1].eph;
      var ee, es, se := s.dh(e1, s.pub(e0)), s.dh(sr, s.pub(e0)), s.dh(si, s.pub(e1));
      HonestEnds(s, talk, XxForm(s, i.sym.ck, i.sym.h, si, sr, turns, ee.value, es.value, se.value));
    }
  }

  /** IK likewise: es, ss, ee, and the es pair once more, over the responder's static key as pre-message. */
  lemma IkConversation(s: Suite, si: Key, sr: Key, turns: seq<Turn>)
    requires |turns| == 2
    ensures var i, r := Open(s, IK, true, si, s.pub(si), Some(s.pub(sr))), Open(s, IK, false, sr, s.pub(sr), None);
            var talk := Converse(s, i, r, turns);
            var e0, e1 := turns[0].eph, turns[1].eph;
            var es, ss := s.dh(e0, s.pub(sr)), s.dh(si, s.pub(sr));
            var ee, es' := s.dh(e1, s.pub(e0)), s.dh(sr, s.pub(e0));
            var h0 := s.hash(s.hash(IK_START + Ascii("goodnet/v1/noise")) + s.pub(sr));
            if es.None? || ss.None? || ee.None? || es'.None? then !talk.written
            else
              && talk.written
              && Ends(s, talk, IkForm(s, IK_START, h0, si, turns, es.value, ss.value, ee.value, es'.value))
  {
    var i, r := Open(s, IK, true, si, s.pub(si), Some(s.pub(sr))), Open(s, IK, false, sr, s.pub(sr), None);
    OpenIsHonest(s, IK, si, sr);
    NewParty(s, IK, true, si, s.pub(si), Some(s.pub(sr)));
    assert i.sSk == si && r.sSk == sr;
    hide Open, Converse, Honest, IkForm, Ends, Ascii;
    IkFrom(s, i, r, turns);
    var talk := Converse(s, i, r, turns);
    if talk.written {
      var e0, e1 := turns[0].eph, turns[1].eph;
      var es, ss := s.dh(e0, s.pub(sr)), s.dh(si, s.pub(sr));
      var ee, es' := s.dh(e1, s.pub(e0)), s.dh(sr, s.pub(e0));
      HonestEnds(s, talk, IkForm(s, i.sym.ck, i.sym.h, si, turns, es.value, ss.value, ee.value, es'.value));
    }
  }
}
