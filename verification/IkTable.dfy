/**
 The specification ends the IK table with `se`; the provider mixes the `es` pair.
 Under the symbolic suite: a peer that follows the specification and this
 provider refuse each other's second IK message, unless two key pairs coincide.
 */
module IkTable {
  import opened Octets
  import opened Primitives
  import opened CipherStates
  import opened SymmetricStates
  import opened Hmac
  import opened Handshakes
  import opened HandshakeRuns
  import opened Agreement

  // ---- A script, cut in two ----

  function Append(script: Script, tail: Script): Script {
    match script
    case Done => tail
    case Then(t, rest) => Then(t, Append(rest, tail))
  }

  lemma {:induction false} WriteAppend(s: Suite, p: Party, script: Script, tail: Script, asInitiator: bool,
                                       eph: Key, out: Bytes)
    ensures var w := WriteScript(s, p, script, asInitiator, eph, out);
            WriteScript(s, p, Append(script, tail), asInitiator, eph, out)
            == if w.ok then WriteScript(s, w.party, tail, asInitiator, eph, w.bytes) else w
    decreases script
  {
    hide WriteToken;
    match script
    case Done =>
    case Then(t, rest) =>
      var w := WriteToken(s, p, t, asInitiator, eph, out);
      WriteAppend(s, w.party, rest, tail, asInitiator, eph, w.bytes);
  }

  lemma {:induction false} ReadAppend(s: Suite, p: Party, script: Script, tail: Script, asInitiator: bool, input: Bytes)
    ensures var r := ReadScript(s, p, script, asInitiator, input);
            ReadScript(s, p, Append(script, tail), asInitiator, input)
            == if r.ok then ReadScript(s, r.party, tail, asInitiator, r.bytes) else r
    decreases script
  {
    hide ReadToken;
    match script
    case Done =>
    case Then(t, rest) =>
      var r := ReadToken(s, p, t, asInitiator, input);
      ReadAppend(s, r.party, rest, tail, asInitiator, r.bytes);
  }

  // ---- The second IK message, with either last token ----

  const OPENING: Script := Then(E, Then(EE, Done))

  /** The second message of an IK table that ends in `last`. */
  function WriteSecond(s: Suite, r: Party, last: Token, eph: Key, payload: Bytes): (Party, Option<Bytes>) {
    FinishWrite(s, WriteScript(s, r, Append(OPENING, Then(last, Done)), false, eph, []), payload)
  }

  function ReadSecond(s: Suite, i: Party, last: Token, message: Bytes): (Party, Option<Bytes>) {
    FinishRead(s, ReadScript(s, i, Append(OPENING, Then(last, Done)), true, message))
  }

  lemma ProviderEndsInEs(s: Suite, p: Party, eph: Key, payload: Bytes, message: Bytes)
    requires p.pattern == IK && p.step == 1
    ensures Write(s, p, eph, payload) == WriteSecond(s, p, ES, eph, payload)
    ensures Read(s, p, message) == ReadSecond(s, p, ES, message)
  {
    hide WriteScript, ReadScript;
    assert Append(OPENING, Then(ES, Done)) == ScriptOf(IK, 1) by {
      assert Append(Then(EE, Done), Then(ES, Done)) == Then(EE, Then(ES, Done));
    }
  }

  /** The two secrets behind the last DH. */
  function LastPair(i: Party, r: Party, last: Token, eph: Key): set<Key> {
    if last.ES? then {r.sSk, i.eSk} else {eph, i.sSk}
  }

  function SharedBy(secrets: set<Key>): Key {
    seq(KEY_BYTES, i => Shared(secrets, i))
  }

  /** Both sides after `e, ee`: same symmetric state, all keys exchanged. */
  ghost predicate Opened(i: Party, r: Party, i2: Party, r2: Party, eph: Key)
    requires Lawful(Symbolic())
  {
    && i2.sym == r2.sym
    && i2.eSk == i.eSk && i2.sSk == i.sSk && i2.rs == SymPub(r.sSk) && i2.re == SymPub(eph)
    && r2.eSk == eph && r2.sSk == r.sSk && r2.rs == SymPub(i.sSk) && r2.re == SymPub(i.eSk)
  }

  lemma LastSecrets(i: Party, r: Party, i2: Party, r2: Party, eph: Key, last: Token)
    requires Lawful(Symbolic()) && Opened(i, r, i2, r2, eph) && (last.ES? || last.SE?)
    ensures var d := SharedBy(LastPair(i, r, last, eph));
            && MixToken(Symbolic(), r2, last, false) == Some(r2.(sym := WithKey(Symbolic(), r2.sym, d)))
            && MixToken(Symbolic(), i2, last, true) == Some(i2.(sym := WithKey(Symbolic(), r2.sym, d)))
  {
    hide WithKey;
    SymDhOnPublic(r.sSk, i.eSk);
    SymDhOnPublic(i.eSk, r.sSk);
    SymDhOnPublic(eph, i.sSk);
    SymDhOnPublic(i.sSk, eph);
    assert {r.sSk, i.eSk} == {i.eSk, r.sSk} && {eph, i.sSk} == {i.sSk, eph};
  }

  lemma OpeningKeys(s: Suite, p: Party, eph: Key, input: Bytes)
    ensures WriteScript(s, p, OPENING, false, eph, []).party.eSk == eph
    ensures ReadScript(s, p, OPENING, true, input).party.eSk == p.eSk
  {
    hide WithKey, WithHash;
    var w := WriteToken(s, p, E, false, eph, []);
    assert WriteScript(s, p, OPENING, false, eph, []) == WriteScript(s, w.party, Then(EE, Done), false, eph, w.bytes);
    var r := ReadToken(s, p, E, true, input);
    assert r.ok ==> ReadScript(s, p, OPENING, true, input) == ReadScript(s, r.party, Then(EE, Done), true, r.bytes);
  }

  /** What both sides hold after `e, ee` of the second message, with `rest` still to be read. */
  lemma AfterOpening(i: Party, r: Party, eph: Key, rest: Bytes)
    requires Lawful(Symbolic()) && HonestDhSucceeds(Symbolic())
    requires Honest(Symbolic(), i, r) && i.pattern == IK && i.step == 1
    ensures var w := WriteScript(Symbolic(), r, OPENING, false, eph, []);
            var q := ReadScript(Symbolic(), i, OPENING, true, w.bytes + rest);
            w.ok && q.ok && q.bytes == rest && Opened(i, r, q.party, w.party, eph)
  {
    var s: Suite := Symbolic();
    var wk, rk := ResponderKeys(IK, 1), InitiatorKeys(IK, 1);
    MirrorIsSymmetric(s, i, r, rk, wk);
    var both := Known(true, true);
    RowStep(EE, Done, false, both, both, both);
    RowStep(E, Then(EE, Done), false, wk, both, both);
    hide WriteScript, ReadScript, Exchanged, KnownAfter;
    ScriptSucceeds(s, r, i, OPENING, false, wk, rk, eph, []);
    ScriptMirror(s, r, i, OPENING, false, wk, rk, eph, rest);
    var w := WriteScript(s, r, OPENING, false, eph, []);
    WriteScriptKeys(s, r, OPENING, false, eph, []);
    ReadScriptKeys(s, i, OPENING, true, w.bytes + rest);
    OpeningKeys(s, r, eph, []);
    OpeningKeys(s, i, eph, w.bytes + rest);
    var q := ReadScript(s, i, OPENING, true, w.bytes + rest);
    assert Linked(s, w.party, q.party, Ephemeral) && Linked(s, w.party, q.party, Static);
    assert Linked(s, q.party, w.party, Ephemeral) && Linked(s, q.party, w.party, Static);
  }

  /** After mixing two secrets into one state, one side opens what the other seals exactly if the secrets are equal. */
  lemma MixedStatesOpen(y: Symmetric, x: Key, x': Key, payload: Bytes)
    requires Lawful(Symbolic()) && Ideal(Symbolic())
    ensures var ct := Hide(Symbolic(), WithKey(Symbolic(), y, x), payload).1;
            Unhide(Symbolic(), WithKey(Symbolic(), y, x'), ct).1.Some? <==> x == x'
  {
    MixedKeysDiffer(y.ck, x, x');
    var s: Suite := Symbolic();
    hide HkdfSpec, SymSeal, SymUnseal, SymHash, WireNonceOf;
    var k, k' := KeyOf(HkdfSpec(s, y.ck, x, 2)), KeyOf(HkdfSpec(s, y.ck, x', 2));
    assert s.unseal(k', WireNonceOf(0), y.h, s.seal(k, WireNonceOf(0), y.h, payload)).Some? <==> k == k';
  }

  lemma SharedByInjective(a: set<Key>, b: set<Key>)
    ensures SharedBy(a) == SharedBy(b) <==> a == b
  {
    assert SharedBy(a)[0] == Shared(a, 0) && SharedBy(b)[0] == Shared(b, 0);
  }

  /** A script of one DH token. */
  lemma LastToken(s: Suite, p: Party, t: Token, eph: Key, bytes: Bytes, y: Symmetric)
    requires IsDh(t)
    ensures MixToken(s, p, t, false) == Some(p.(sym := y)) ==>
              WriteScript(s, p, Then(t, Done), false, eph, bytes) == Progress(p.(sym := y), bytes, true)
    ensures MixToken(s, p, t, true) == Some(p.(sym := y)) ==>
              ReadScript(s, p, Then(t, Done), true, bytes) == Progress(p.(sym := y), bytes, true)
  {
    hide MixToken;
  }

  /** The writer's script runs to its end, on a secret that depends on the last token alone. */
  lemma SecondWritten(i: Party, r: Party, t: Token, eph: Key)
    requires Lawful(Symbolic()) && HonestDhSucceeds(Symbolic()) && (t.ES? || t.SE?)
    requires Honest(Symbolic(), i, r) && i.pattern == IK && i.step == 1
    ensures var opening := WriteScript(Symbolic(), r, OPENING, false, eph, []);
            var w := WriteScript(Symbolic(), r, Append(OPENING, Then(t, Done)), false, eph, []);
            && w.ok && w.bytes == opening.bytes
            && w.party.sym == WithKey(Symbolic(), opening.party.sym, SharedBy(LastPair(i, r, t, eph)))
  {
    var s: Suite := Symbolic();
    hide Honest, HonestDhSucceeds, Opened, WithKey, SharedBy, LastPair, Append, MixToken, WriteScript, ReadScript;
    AfterOpening(i, r, eph, []);
    var w := WriteScript(s, r, OPENING, false, eph, []);
    LastSecrets(i, r, ReadScript(s, i, OPENING, true, w.bytes + []).party, w.party, eph, t);
    WriteAppend(s, r, OPENING, Then(t, Done), false, eph, []);
    LastToken(s, w.party, t, eph, w.bytes, WithKey(s, w.party.sym, SharedBy(LastPair(i, r, t, eph))));
  }

  /** And so does the reader's. */
  lemma SecondRead(i: Party, r: Party, u: Token, eph: Key, rest: Bytes)
    requires Lawful(Symbolic()) && HonestDhSucceeds(Symbolic()) && (u.ES? || u.SE?)
    requires Honest(Symbolic(), i, r) && i.pattern == IK && i.step == 1
    ensures var opening := WriteScript(Symbolic(), r, OPENING, false, eph, []);
            var q := ReadScript(Symbolic(), i, Append(OPENING, Then(u, Done)), true, opening.bytes + rest);
            && q.ok && q.bytes == rest
            && q.party.sym == WithKey(Symbolic(), opening.party.sym, SharedBy(LastPair(i, r, u, eph)))
  {
    var s: Suite := Symbolic();
    hide Honest, HonestDhSucceeds, Opened, WithKey, SharedBy, LastPair, Append, MixToken, WriteScript, ReadScript;
    AfterOpening(i, r, eph, rest);
    var w := WriteScript(s, r, OPENING, false, eph, []);
    var q := ReadScript(s, i, OPENING, true, w.bytes + rest).party;
    LastSecrets(i, r, q, w.party, eph, u);
    ReadAppend(s, i, OPENING, Then(u, Done), true, w.bytes + rest);
    LastToken(s, q, u, eph, rest, WithKey(s, w.party.sym, SharedBy(LastPair(i, r, u, eph))));
  }

  /** Any two last tokens: the message is accepted exactly if both stand for the same pair of secrets. */
  lemma SecondMessageAccepted(i: Party, r: Party, t: Token, u: Token, eph: Key, payload: Bytes)
    requires Lawful(Symbolic()) && Ideal(Symbolic()) && HonestDhSucceeds(Symbolic())
    requires Honest(Symbolic(), i, r) && i.pattern == IK && i.step == 1
    requires (t.ES? || t.SE?) && (u.ES? || u.SE?)
    ensures var m := WriteSecond(Symbolic(), r, t, eph, payload).1;
            && m.Some?
            && (ReadSecond(Symbolic(), i, u, m.value).1.Some? <==> LastPair(i, r, t, eph) == LastPair(i, r, u, eph))
  {
    var s: Suite := Symbolic();
    hide Honest, Ideal, HonestDhSucceeds, WithKey, Hide, Unhide, SharedBy, LastPair, WriteScript, ReadScript, Append;
    var y := WriteScript(s, r, OPENING, false, eph, []).party.sym;
    var x, x' := SharedBy(LastPair(i, r, t, eph)), SharedBy(LastPair(i, r, u, eph));
    SecondWritten(i, r, t, eph);
    SecondRead(i, r, u, eph, Hide(s, WithKey(s, y, x), payload).1);
    MixedStatesOpen(y, x, x', payload);
    SharedByInjective(LastPair(i, r, t, eph), LastPair(i, r, u, eph));
  }

  /**
   A peer that ends IK with `se` and this provider: each reads the other's second
   message if and only if the key pairs of `es` and `se` happen to be the same.
   */
  lemma IkLastTokenIsNotSe(i: Party, r: Party, eph: Key, payload: Bytes)
    requires Lawful(Symbolic()) && Honest(Symbolic(), i, r) && i.pattern == IK && i.step == 1
    ensures var m := Write(Symbolic(), r, eph, payload).1;
            m.Some? && (ReadSecond(Symbolic(), i, SE, m.value).1.Some? <==> {r.sSk, i.eSk} == {eph, i.sSk})
    ensures var m := WriteSecond(Symbolic(), r, SE, eph, payload).1;
            m.Some? && (Read(Symbolic(), i, m.value).1.Some? <==> {r.sSk, i.eSk} == {eph, i.sSk})
  {
    var s: Suite := Symbolic();
    SymbolicIsIdeal();
    SecondMessageAccepted(i, r, ES, SE, eph, payload);
    SecondMessageAccepted(i, r, SE, ES, eph, payload);
    ProviderEndsInEs(s, r, eph, payload, []);
    ProviderEndsInEs(s, i, eph, payload, WriteSecond(s, r, SE, eph, payload).1.value);
    hide WriteSecond, ReadSecond, Write, Read, Ideal, HonestDhSucceeds;
  }
}
