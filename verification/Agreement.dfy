/**
 Handshake agreement.  A reader mirrors the writer on every token list that only
 uses keys already exchanged; the XX and IK tables are such lists.  So two
 honest parties, stepped message by message, always hold the same symmetric
 state, learn each other's static key, and split into paired ciphers.
 */
module Agreement {
  import opened Octets
  import opened Primitives
  import opened CipherStates
  import opened SymmetricStates
  import opened Handshakes
  import opened HandshakeRuns

  /** `to` holds the true public key of `from`. */
  ghost predicate Linked(s: Suite, from: Party, to: Party, k: Kind) {
    PublicOf(from, k) == s.pub(Secret(from, k)) == PeerKey(to, k)
  }

  /** Which of a side's public keys the other side holds. */
  datatype Known = Known(e: bool, s: bool)

  predicate Has(known: Known, k: Kind) {
    if k.Ephemeral? then known.e else known.s
  }

  /** Same symmetric state; the reader knows the writer's keys `wk`, the writer the reader's keys `rk`. */
  ghost predicate Mirror(s: Suite, w: Party, r: Party, wk: Known, rk: Known) {
    && w.sym == r.sym
    && w.sPk == s.pub(w.sSk) && r.sPk == s.pub(r.sSk)
    && (wk.e ==> Linked(s, w, r, Ephemeral)) && (wk.s ==> Linked(s, w, r, Static))
    && (rk.e ==> Linked(s, r, w, Ephemeral)) && (rk.s ==> Linked(s, r, w, Static))
  }

  function KnownBy(t: Token, wk: Known): Known {
    match t case E => wk.(e := true) case S => wk.(s := true) case _ => wk
  }

  predicate Usable(t: Token, asInitiator: bool, wk: Known, rk: Known) {
    IsDh(t) ==> Has(wk, OwnKind(t, asInitiator)) && Has(rk, OwnKind(t, !asInitiator))
  }

  /** Every DH token of the script uses two keys that are known when it is reached. */
  predicate Exchanged(script: Script, asInitiator: bool, wk: Known, rk: Known) {
    match script
    case Done => true
    case Then(t, rest) => Usable(t, asInitiator, wk, rk) && Exchanged(rest, asInitiator, KnownBy(t, wk), rk)
  }

  function KnownAfter(script: Script, wk: Known): Known {
    match script
    case Done => wk
    case Then(t, rest) => KnownAfter(rest, KnownBy(t, wk))
  }

  // ---- One token ----

  /** What a token appends to the wire. */
  function Emitted(s: Suite, p: Party, t: Token, eph: Key): Bytes {
    match t case E => s.pub(eph) case S => Hide(s, p.sym, p.sPk).1 case _ => []
  }

  lemma EmittedIsAppended(s: Suite, p: Party, t: Token, asInitiator: bool, eph: Key, out: Bytes)
    ensures WriteToken(s, p, t, asInitiator, eph, out).bytes == out + Emitted(s, p, t, eph)
    ensures WriteToken(s, p, t, asInitiator, eph, out).(bytes := [])
         == WriteToken(s, p, t, asInitiator, eph, []).(bytes := [])
  {
  }

  /** A token written and then read, with `rest` behind it, is consumed exactly and leaves both sides in one state. */
  ghost predicate Mirrored(s: Suite, w: Party, r: Party, t: Token, asInitiator: bool, wk: Known, rk: Known,
                           eph: Key, rest: Bytes) {
    var read := ReadToken(s, r, t, !asInitiator, Emitted(s, w, t, eph) + rest);
    && read.ok && read.bytes == rest
    && Mirror(s, WriteToken(s, w, t, asInitiator, eph, []).party, read.party, KnownBy(t, wk), rk)
  }

  lemma EphemeralMirror(s: Suite, w: Party, r: Party, asInitiator: bool, wk: Known, rk: Known, eph: Key, rest: Bytes)
    requires Mirror(s, w, r, wk, rk)
    ensures Mirrored(s, w, r, E, asInitiator, wk, rk, eph, rest)
  {
    hide WithHash;
    var sent := s.pub(eph);
    assert (sent + rest)[..KEY_BYTES] == sent && (sent + rest)[KEY_BYTES..] == rest;
  }

  lemma StaticMirror(s: Suite, w: Party, r: Party, asInitiator: bool, wk: Known, rk: Known, eph: Key, rest: Bytes)
    requires Mirror(s, w, r, wk, rk)
    ensures Mirrored(s, w, r, S, asInitiator, wk, rk, eph, rest)
  {
    HiddenIsRevealed(s, w.sym, w.sPk);
    hide Hide, Unhide;
    var (y, sent) := Hide(s, w.sym, w.sPk);
    assert (sent + rest)[..|sent|] == sent && (sent + rest)[|sent|..] == rest;
    assert ReadToken(s, r, S, !asInitiator, sent + rest)
        == Progress(r.(sym := y, rs := w.sPk, rsKnown := true), rest, true);
  }

  lemma DhMirror(s: Suite, w: Party, r: Party, t: Token, asInitiator: bool, wk: Known, rk: Known, eph: Key, rest: Bytes)
    requires Mirror(s, w, r, wk, rk) && Usable(t, asInitiator, wk, rk) && IsDh(t)
    requires WriteToken(s, w, t, asInitiator, eph, []).ok
    ensures Mirrored(s, w, r, t, asInitiator, wk, rk, eph, rest)
  {
    hide WithKey;
    assert [] + rest == rest;
    assert Linked(s, w, r, OwnKind(t, asInitiator)) && Linked(s, r, w, OwnKind(t, !asInitiator));
  }

  lemma TokenMirror(s: Suite, w: Party, r: Party, t: Token, asInitiator: bool, wk: Known, rk: Known,
                    eph: Key, rest: Bytes)
    requires Mirror(s, w, r, wk, rk) && Usable(t, asInitiator, wk, rk)
    requires WriteToken(s, w, t, asInitiator, eph, []).ok
    ensures Mirrored(s, w, r, t, asInitiator, wk, rk, eph, rest)
  {
    hide Mirror, Mirrored, WriteToken, OwnKind;
    match t
    case E => EphemeralMirror(s, w, r, asInitiator, wk, rk, eph, rest);
    case S => StaticMirror(s, w, r, asInitiator, wk, rk, eph, rest);
    case _ => DhMirror(s, w, r, t, asInitiator, wk, rk, eph, rest);
  }

  // ---- One script ----

  /** The output so far is only ever appended to. */
  lemma {:induction false} ScriptOutput(s: Suite, p: Party, script: Script, asInitiator: bool, eph: Key, out: Bytes)
    ensures var w := WriteScript(s, p, script, asInitiator, eph, out);
            var w0 := WriteScript(s, p, script, asInitiator, eph, []);
            w.ok == w0.ok && w.party == w0.party && w.bytes == out + w0.bytes
    decreases script
  {
    hide WriteToken, Emitted;
    if script.Then? {
      var t, sent := script.token, Emitted(s, p, script.token, eph);
      EmittedIsAppended(s, p, t, asInitiator, eph, out);
      EmittedIsAppended(s, p, t, asInitiator, eph, []);
      var w := WriteToken(s, p, t, asInitiator, eph, out);
      if w.ok {
        ScriptOutput(s, w.party, script.rest, asInitiator, eph, out + sent);
        ScriptOutput(s, w.party, script.rest, asInitiator, eph, [] + sent);
      }
    }
  }

  lemma ScriptUnfolds(s: Suite, p: Party, t: Token, rest: Script, asInitiator: bool, eph: Key)
    requires WriteScript(s, p, Then(t, rest), asInitiator, eph, []).ok
    ensures var w := WriteToken(s, p, t, asInitiator, eph, []);
            var tail := WriteScript(s, w.party, rest, asInitiator, eph, []);
            && w.ok && tail.ok
            && WriteScript(s, p, Then(t, rest), asInitiator, eph, [])
               == tail.(bytes := Emitted(s, p, t, eph) + tail.bytes)
  {
    hide WriteToken, Emitted;
    EmittedIsAppended(s, p, t, asInitiator, eph, []);
    var w := WriteToken(s, p, t, asInitiator, eph, []);
    ScriptOutput(s, w.party, rest, asInitiator, eph, w.bytes);
  }

  /** For every exchanged token list: what the writer emits, the reader consumes exactly, into the same state. */
  lemma {:induction false} ScriptMirror(s: Suite, w: Party, r: Party, script: Script, asInitiator: bool,
                                        wk: Known, rk: Known, eph: Key, rest: Bytes)
    requires Mirror(s, w, r, wk, rk) && Exchanged(script, asInitiator, wk, rk)
    requires WriteScript(s, w, script, asInitiator, eph, []).ok
    ensures var written := WriteScript(s, w, script, asInitiator, eph, []);
            var read := ReadScript(s, r, script, !asInitiator, written.bytes + rest);
            read.ok && read.bytes == rest && Mirror(s, written.party, read.party, KnownAfter(script, wk), rk)
    decreases script
  {
    match script
    case Done =>
      assert [] + rest == rest;
    case Then(t, script') =>
      ScriptUnfolds(s, w, t, script', asInitiator, eph);
      var sent, w1 := Emitted(s, w, t, eph), WriteToken(s, w, t, asInitiator, eph, []).party;
      var tail := WriteScript(s, w1, script', asInitiator, eph, []).bytes;
      assert (sent + tail) + rest == sent + (tail + rest);
      TokenMirror(s, w, r, t, asInitiator, wk, rk, eph, tail + rest);
      var r1 := ReadToken(s, r, t, !asInitiator, sent + (tail + rest)).party;
      ScriptMirror(s, w1, r1, script', asInitiator, KnownBy(t, wk), rk, eph, rest);
  }

  /** On honest keys the writer never fails. */
  lemma {:induction false} ScriptSucceeds(s: Suite, w: Party, r: Party, script: Script, asInitiator: bool,
                                          wk: Known, rk: Known, eph: Key, out: Bytes)
    requires HonestDhSucceeds(s)
    requires Mirror(s, w, r, wk, rk) && Exchanged(script, asInitiator, wk, rk)
    ensures WriteScript(s, w, script, asInitiator, eph, out).ok
    decreases script
  {
    if script.Then? {
      var t := script.token;
      TokenSucceeds(s, w, r, t, asInitiator, wk, rk, eph, out);
      EmittedIsAppended(s, w, t, asInitiator, eph, out);
      TokenMirror(s, w, r, t, asInitiator, wk, rk, eph, []);
      var w1 := WriteToken(s, w, t, asInitiator, eph, out);
      var r1 := ReadToken(s, r, t, !asInitiator, Emitted(s, w, t, eph) + []).party;
      ScriptSucceeds(s, w1.party, r1, script.rest, asInitiator, KnownBy(t, wk), rk, eph, w1.bytes);
    }
  }

  lemma TokenSucceeds(s: Suite, w: Party, r: Party, t: Token, asInitiator: bool, wk: Known, rk: Known,
                      eph: Key, out: Bytes)
    requires HonestDhSucceeds(s)
    requires Mirror(s, w, r, wk, rk) && Usable(t, asInitiator, wk, rk)
    ensures WriteToken(s, w, t, asInitiator, eph, out).ok
  {
    if IsDh(t) {
      assert Linked(s, r, w, OwnKind(t, !asInitiator));
    }
  }

  // ---- One message ----

  lemma MessageMirror(s: Suite, w: Party, r: Party, eph: Key, payload: Bytes, wk: Known, rk: Known)
    requires w.pattern == r.pattern && w.step == r.step && !Complete(w)
    requires Mirror(s, w, r, wk, rk)
    requires Exchanged(ScriptOf(w.pattern, w.step), ActsAsInitiator(w.step, true), wk, rk)
    requires Write(s, w, eph, payload).1.Some?
    ensures var (w', m) := Write(s, w, eph, payload);
            var (r', plain) := Read(s, r, m.value);
            && plain == Some(payload) && w'.step == r'.step == w.step + 1
            && Mirror(s, w', r', KnownAfter(ScriptOf(w.pattern, w.step), wk), rk)
  {
    var script, role := ScriptOf(w.pattern, w.step), ActsAsInitiator(w.step, true);
    var head := WriteHead(s, w, eph);
    var ct := Hide(s, head.party.sym, payload).1;
    ScriptMirror(s, w, r, script, role, wk, rk, eph, ct);
    HiddenIsRevealed(s, head.party.sym, payload);
    WriteScriptKeys(s, w, script, role, eph, []);
    ReadScriptKeys(s, r, script, !role, head.bytes + ct);
  }

  lemma MessageSucceeds(s: Suite, w: Party, r: Party, eph: Key, payload: Bytes, wk: Known, rk: Known)
    requires HonestDhSucceeds(s)
    requires !Complete(w) && Mirror(s, w, r, wk, rk)
    requires Exchanged(ScriptOf(w.pattern, w.step), ActsAsInitiator(w.step, true), wk, rk)
    ensures Write(s, w, eph, payload).1.Some?
  {
    ScriptSucceeds(s, w, r, ScriptOf(w.pattern, w.step), ActsAsInitiator(w.step, true), wk, rk, eph, []);
  }

  // ---- The two patterns ----

  /** The initiator keys the responder knows, and the responder keys the initiator knows. */
  function InitiatorKeys(p: Pattern, step: nat): Known {
    if step == 0 then Known(false, false) else if p.XX? && step < 3 then Known(true, false) else Known(true, true)
  }

  function ResponderKeys(p: Pattern, step: nat): Known {
    if step >= 2 then Known(true, true) else if p.IK? then Known(false, true) else Known(false, false)
  }

  ghost predicate Honest(s: Suite, i: Party, r: Party) {
    && i.initiator && !r.initiator && i.pattern == r.pattern && i.step == r.step
    && KeyPresence(i) && KeyPresence(r)
    && Mirror(s, i, r, InitiatorKeys(i.pattern, i.step), ResponderKeys(i.pattern, i.step))
  }

  lemma MirrorIsSymmetric(s: Suite, w: Party, r: Party, wk: Known, rk: Known)
    ensures Mirror(s, w, r, wk, rk) == Mirror(s, r, w, rk, wk)
  {
  }

  ghost predicate Row(script: Script, asInitiator: bool, wk: Known, rk: Known, wk': Known) {
    Exchanged(script, asInitiator, wk, rk) && KnownAfter(script, wk) == wk'
  }

  lemma RowStep(t: Token, rest: Script, asInitiator: bool, wk: Known, rk: Known, wk': Known)
    requires Usable(t, asInitiator, wk, rk) && Row(rest, asInitiator, KnownBy(t, wk), rk, wk')
    ensures Row(Then(t, rest), asInitiator, wk, rk, wk')
  {
  }

  lemma RowsOfXX(none: Known, e: Known, both: Known)
    requires none == Known(false, false) && e == Known(true, false) && both == Known(true, true)
    ensures Row(ScriptOf(XX, 0), true, none, none, e)
    ensures Row(ScriptOf(XX, 1), false, none, e, both)
    ensures Row(ScriptOf(XX, 2), true, e, both, both)
  {
    RowStep(ES, Done, false, both, e, both);
    RowStep(S, Then(ES, Done), false, e, e, both);
    RowStep(EE, Then(S, Then(ES, Done)), false, e, e, both);
    RowStep(SE, Done, true, both, both, both);
  }

  lemma RowsOfIK(none: Known, e: Known, st: Known, both: Known)
    requires none == Known(false, false) && e == Known(true, false)
    requires st == Known(false, true) && both == Known(true, true)
    ensures Row(ScriptOf(IK, 0), true, none, st, both)
    ensures Row(ScriptOf(IK, 1), false, st, both, both)
  {
    RowStep(SS, Done, true, both, st, both);
    RowStep(S, Then(SS, Done), true, e, st, both);
    RowStep(ES, Then(S, Then(SS, Done)), true, e, st, both);
    RowStep(ES, Done, false, both, both, both);
    RowStep(EE, Then(ES, Done), false, both, both, both);
  }

  /** Both tables only use exchanged keys, and each message makes known exactly what the next one needs. */
  lemma TablesAreExchanged(p: Pattern, step: nat)
    requires step < TotalSteps(p)
    ensures step == 0 || step == 2 ==>
              && Row(ScriptOf(p, step), true, InitiatorKeys(p, step), ResponderKeys(p, step),
                     InitiatorKeys(p, step + 1))
              && ResponderKeys(p, step) == ResponderKeys(p, step + 1)
    ensures step == 1 ==>
              && Row(ScriptOf(p, step), false, ResponderKeys(p, step), InitiatorKeys(p, step),
                     ResponderKeys(p, step + 1))
              && InitiatorKeys(p, step) == InitiatorKeys(p, step + 1)
  {
    var none, e := InitiatorKeys(p, 0), InitiatorKeys(XX, 1);
    var st, both := ResponderKeys(IK, 0), ResponderKeys(p, 2);
    RowsOfXX(none, e, both);
    RowsOfIK(none, e, st, both);
  }

  lemma Agree(s: Suite, w: Party, r: Party, eph: Key, payload: Bytes, wk: Known, rk: Known)
    requires w.pattern == r.pattern && w.step == r.step && !Complete(w) && KeyPresence(w) && KeyPresence(r)
    requires Mirror(s, w, r, wk, rk)
    requires Exchanged(ScriptOf(w.pattern, w.step), ActsAsInitiator(w.step, true), wk, rk)
    ensures HonestDhSucceeds(s) ==> Write(s, w, eph, payload).1.Some?
    ensures var (w', m) := Write(s, w, eph, payload);
            m.Some? ==>
              var (r', plain) := Read(s, r, m.value);
              && plain == Some(payload) && w'.step == r'.step == w.step + 1
              && Mirror(s, w', r', KnownAfter(ScriptOf(w.pattern, w.step), wk), rk)
              && KeyPresence(w') && KeyPresence(r') && SameIdentity(w, w') && SameIdentity(r, r')
  {
    if HonestDhSucceeds(s) {
      MessageSucceeds(s, w, r, eph, payload, wk, rk);
    }
    var (w', m) := Write(s, w, eph, payload);
    if m.Some? {
      MessageMirror(s, w, r, eph, payload, wk, rk);
      WriteKeepsKeyPresence(s, w, eph, payload);
      ReadKeepsKeyPresence(s, r, m.value);
    }
  }

  // ---- Whole handshakes ----

  datatype Turn = Turn(eph: Key, payload: Bytes)

  datatype Talk = Talk(i: Party, r: Party, got: seq<Option<Bytes>>, written: bool)

  /** The side whose turn it is writes one message and the other reads it. */
  function OneMessage(s: Suite, i: Party, r: Party, turn: Turn): Talk {
    if i.step % 2 == 0 then
      var (i', m) := Write(s, i, turn.eph, turn.payload);
      if m.None? then Talk(i', r, [], false)
      else var (r', plain) := Read(s, r, m.value); Talk(i', r', [plain], true)
    else
      var (r', m) := Write(s, r, turn.eph, turn.payload);
      if m.None? then Talk(i, r', [], false)
      else var (i', plain) := Read(s, i, m.value); Talk(i', r', [plain], true)
  }

  /** One message per turn, until a write fails. */
  function Converse(s: Suite, i: Party, r: Party, turns: seq<Turn>): Talk
    decreases |turns|
  {
    if turns == [] then Talk(i, r, [], true)
    else
      var first := OneMessage(s, i, r, turns[0]);
      if !first.written then first
      else
        var rest := Converse(s, first.i, first.r, turns[1..]);
        rest.(got := first.got + rest.got)
  }

  /** From any honest pair, the next message, if written, is read back whole and the pair stays honest. */
  lemma MessageAgreement(s: Suite, i: Party, r: Party, turn: Turn)
    requires Honest(s, i, r) && !Complete(i)
    ensures HonestDhSucceeds(s) ==> OneMessage(s, i, r, turn).written
    ensures var talk := OneMessage(s, i, r, turn);
            talk.written ==>
              && talk.got == [Some(turn.payload)] && talk.i.step == i.step + 1
              && Honest(s, talk.i, talk.r) && SameIdentity(i, talk.i) && SameIdentity(r, talk.r)
  {
    hide Linked, KeyPresence, Exchanged, KnownAfter, WriteHead, ReadHead;
    var p, n := i.pattern, i.step;
    var ik, rk := InitiatorKeys(p, n), ResponderKeys(p, n);
    TablesAreExchanged(p, n);
    if n % 2 == 0 {
      Agree(s, i, r, turn.eph, turn.payload, ik, rk);
    } else {
      MirrorIsSymmetric(s, i, r, ik, rk);
      Agree(s, r, i, turn.eph, turn.payload, rk, ik);
      var talk := OneMessage(s, i, r, turn);
      if talk.written {
        MirrorIsSymmetric(s, talk.r, talk.i, ResponderKeys(p, n + 1), InitiatorKeys(p, n + 1));
      }
    }
  }

  lemma {:induction false} ConverseAgrees(s: Suite, i: Party, r: Party, turns: seq<Turn>)
    requires Honest(s, i, r) && i.step + |turns| <= TotalSteps(i.pattern)
    ensures HonestDhSucceeds(s) ==> Converse(s, i, r, turns).written
    ensures var talk := Converse(s, i, r, turns);
            talk.written ==>
              && Honest(s, talk.i, talk.r) && talk.i.step == i.step + |turns|
              && SameIdentity(i, talk.i) && SameIdentity(r, talk.r)
              && |talk.got| == |turns| && (forall n :: 0 <= n < |turns| ==> talk.got[n] == Some(turns[n].payload))
    decreases |turns|
  {
    if turns != [] {
      MessageAgreement(s, i, r, turns[0]);
      var first := OneMessage(s, i, r, turns[0]);
      if first.written {
        ConverseAgrees(s, first.i, first.r, turns[1..]);
      }
    }
  }

  lemma OpenIsHonest(s: Suite, pattern: Pattern, si: Key, sr: Key)
    ensures Honest(s, Open(s, pattern, true, si, s.pub(si), if pattern.IK? then Some(s.pub(sr)) else None),
                      Open(s, pattern, false, sr, s.pub(sr), None))
    ensures var i := Open(s, pattern, true, si, s.pub(si), if pattern.IK? then Some(s.pub(sr)) else None);
            i.step == 0 && i.pattern == pattern && i.sPk == s.pub(si)
    ensures var r := Open(s, pattern, false, sr, s.pub(sr), None); r.step == 0 && r.sPk == s.pub(sr)
  {
  }

  /**
   Any two honest parties, all ephemerals, all payloads: once every message has
   been written, every payload has come back, the symmetric states are equal,
   each side holds the other's static key, the split ciphers are crosswise equal
   at counter zero, and the channel-binding hashes agree.
   */
  lemma HandshakeAgreement(s: Suite, pattern: Pattern, si: Key, sr: Key, turns: seq<Turn>)
    requires |turns| == TotalSteps(pattern)
    ensures var i := Open(s, pattern, true, si, s.pub(si), if pattern.IK? then Some(s.pub(sr)) else None);
            var r := Open(s, pattern, false, sr, s.pub(sr), None);
            var talk := Converse(s, i, r, turns);
            && (HonestDhSucceeds(s) ==> talk.written)
            && (talk.written ==>
                  && talk.got == seq(|turns|, n requires 0 <= n < |turns| => Some(turns[n].payload))
                  && Complete(talk.i) && Complete(talk.r)
                  && talk.i.sym == talk.r.sym
                  && talk.i.rs == s.pub(sr) && talk.r.rs == s.pub(si)
                  && TransportCiphers(s, talk.i).0 == TransportCiphers(s, talk.r).1
                  && TransportCiphers(s, talk.i).1 == TransportCiphers(s, talk.r).0
                  && TransportCiphers(s, talk.i).0.n == TransportCiphers(s, talk.i).1.n == 0
                  && Spent(talk.i).sym.h == Spent(talk.r).sym.h)
  {
    hide Converse, SplitKeys, KeyPresence;
    var i := Open(s, pattern, true, si, s.pub(si), if pattern.IK? then Some(s.pub(sr)) else None);
    var r := Open(s, pattern, false, sr, s.pub(sr), None);
    OpenIsHonest(s, pattern, si, sr);
    ConverseAgrees(s, i, r, turns);
    var talk := Converse(s, i, r, turns);
    if talk.written {
      assert Linked(s, talk.i, talk.r, Static) && Linked(s, talk.r, talk.i, Static);
    }
  }
}
