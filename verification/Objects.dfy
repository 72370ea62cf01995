/**
 The handshake on two live objects: each message written by one HandshakeState
 and read by the other, as the agreement theorems describe on values.
 */
module Objects {
  import opened Octets
  import opened Primitives
  import opened CipherStates
  import opened SymmetricStates
  import opened Handshakes
  import opened HandshakeRuns
  import opened Agreement

  /** Two objects that share nothing. */
  ghost predicate Separate(i: HandshakeState, r: HandshakeState) {
    i != r && i.symmetric != r.symmetric && i.symmetric.cipher != r.symmetric.cipher
  }

  /** An honest pair of objects whose handshake cipher is unkeyed or used at most once. */
  ghost predicate Paired(s: Suite, i: HandshakeState, r: HandshakeState)
    reads i, i.symmetric, i.symmetric.cipher, r, r.symmetric, r.symmetric.cipher
  {
    && i.Valid() && r.Valid() && Honest(s, i.View(), r.View())
    && (i.symmetric.cipher.hasKey ==> i.symmetric.cipher.n <= 1)
  }

  method PassMessage(s: Suite, from: HandshakeState, to: HandshakeState, turn: Turn)
    returns (written: bool, got: seq<Option<Bytes>>)
    requires Separate(from, to) && from.Valid() && to.Valid() && from.NeverWraps() && to.NeverWraps()
    modifies from, from.symmetric, from.symmetric.cipher, to, to.symmetric, to.symmetric.cipher
    ensures from.Valid() && to.Valid()
    ensures var (p, m) := Write(s, old(from.View()), turn.eph, turn.payload);
            && from.View() == p && written == m.Some?
            && if !written then to.View() == old(to.View()) && got == []
               else
                 var (q, plain) := Read(s, old(to.View()), m.value);
                 to.View() == q && got == [plain]
  {
    hide WriteHead, ReadHead, FinishWrite, FinishRead;
    var m := from.WriteMessage(s, turn.eph, turn.payload);
    if m.None? {
      return false, [];
    }
    var plain := to.ReadMessage(s, m.value);
    return true, [plain];
  }

  lemma PairedAfter(s: Suite, i: Party, r: Party, turn: Turn)
    requires Honest(s, i, r) && !Complete(i) && OneMessage(s, i, r, turn).written
    ensures var talk := OneMessage(s, i, r, turn); talk.i.sym.cipher.hasKey ==> talk.i.sym.cipher.n == 1
  {
    hide WriteHead, ReadHead;
    MessageAgreement(s, i, r, turn);
    if i.step % 2 == 0 {
      ReadLeavesFreshKey(s, r, Write(s, i, turn.eph, turn.payload).1.value);
    } else {
      ReadLeavesFreshKey(s, i, Write(s, r, turn.eph, turn.payload).1.value);
    }
  }

  method ExchangeMessage(s: Suite, i: HandshakeState, r: HandshakeState, turn: Turn)
    returns (written: bool, got: seq<Option<Bytes>>)
    requires Separate(i, r) && Paired(s, i, r) && !i.IsComplete()
    modifies i, i.symmetric, i.symmetric.cipher, r, r.symmetric, r.symmetric.cipher
    ensures Talk(i.View(), r.View(), got, written) == OneMessage(s, old(i.View()), old(r.View()), turn)
    ensures written ==> Paired(s, i, r) && i.step == old(i.step) + 1 && i.pattern == old(i.pattern)
  {
    hide WriteHead, ReadHead, Linked;
    MessageAgreement(s, i.View(), r.View(), turn);
    if OneMessage(s, i.View(), r.View(), turn).written {
      PairedAfter(s, i.View(), r.View(), turn);
    }
    if i.step % 2 == 0 {
      written, got := PassMessage(s, i, r, turn);
    } else {
      written, got := PassMessage(s, r, i, turn);
    }
  }

  /** A whole handshake on two objects is the conversation on values, and leaves both in the same symmetric state. */
  method RunHandshake(s: Suite, i: HandshakeState, r: HandshakeState, turns: seq<Turn>)
    returns (written: bool, got: seq<Option<Bytes>>)
    requires Separate(i, r) && Paired(s, i, r) && i.step + |turns| <= i.stepsTotal
    modifies i, i.symmetric, i.symmetric.cipher, r, r.symmetric, r.symmetric.cipher
    ensures Talk(i.View(), r.View(), got, written) == Converse(s, old(i.View()), old(r.View()), turns)
    ensures written ==> Paired(s, i, r) && i.step == old(i.step) + |turns|
    ensures written ==> i.symmetric.View() == r.symmetric.View()
    decreases |turns|
  {
    hide OneMessage, Linked, KeyPresence;
    if turns == [] {
      return true, [];
    }
    written, got := ExchangeMessage(s, i, r, turns[0]);
    if written {
      var rest: seq<Option<Bytes>>;
      written, rest := RunHandshake(s, i, r, turns[1..]);
      got := got + rest;
    }
  }

  /** Two new objects on honest keys, ready to talk. */
  method OpenPair(s: Suite, pattern: Pattern, si: Key, sr: Key) returns (i: HandshakeState, r: HandshakeState)
    ensures fresh(i) && fresh(i.symmetric) && fresh(i.symmetric.cipher)
    ensures fresh(r) && fresh(r.symmetric) && fresh(r.symmetric.cipher)
    ensures Separate(i, r) && Paired(s, i, r) && i.step == 0 && i.stepsTotal == TotalSteps(pattern)
    ensures i.View() == Open(s, pattern, true, si, s.pub(si), if pattern.IK? then Some(s.pub(sr)) else None)
    ensures r.View() == Open(s, pattern, false, sr, s.pub(sr), None)
  {
    OpenIsHonest(s, pattern, si, sr);
    OpenIsUnkeyed(s, pattern, si, if pattern.IK? then Some(s.pub(sr)) else None);
    hide Open, Honest, KeyPresence;
    i := new HandshakeState(s, pattern, true, si, s.pub(si), if pattern.IK? then Some(s.pub(sr)) else None);
    r := new HandshakeState(s, pattern, false, sr, s.pub(sr), None);
  }

  lemma OpenIsUnkeyed(s: Suite, pattern: Pattern, si: Key, preKnown: Option<Key>)
    ensures !Open(s, pattern, true, si, s.pub(si), preKnown).sym.cipher.hasKey
  {
  }

  /** The send and receive ciphers of the initiator, then of the responder. */
  method SplitBoth(s: Suite, i: HandshakeState, r: HandshakeState) returns (ciphers: seq<CipherState>)
    requires Separate(i, r)
    modifies i, i.symmetric, r, r.symmetric
    ensures |ciphers| == 4
    ensures (ciphers[0].View(), ciphers[1].View()) == TransportCiphers(s, old(i.View()))
    ensures (ciphers[2].View(), ciphers[3].View()) == TransportCiphers(s, old(r.View()))
  {
    hide TransportCiphers, Spent;
    var iSend, iRecv := i.Split(s);
    var rSend, rRecv := r.Split(s);
    ciphers := [iSend, iRecv, rSend, rRecv];
  }

  /** What a conversation on honest keys came to. */
  ghost predicate Established(s: Suite, talk: Talk, turns: seq<Turn>) {
    var (send, recv) := TransportCiphers(s, talk.i);
    && |talk.got| == |turns| && (forall n :: 0 <= n < |turns| ==> talk.got[n] == Some(turns[n].payload))
    && TransportCiphers(s, talk.r) == (recv, send)
    && send == Keyed(send.k) && recv == Keyed(recv.k)
  }

  lemma ConversationEstablishes(s: Suite, pattern: Pattern, si: Key, sr: Key, turns: seq<Turn>)
    requires |turns| == TotalSteps(pattern)
    ensures var i := Open(s, pattern, true, si, s.pub(si), if pattern.IK? then Some(s.pub(sr)) else None);
            var talk := Converse(s, i, Open(s, pattern, false, sr, s.pub(sr), None), turns);
            (HonestDhSucceeds(s) ==> talk.written) && (talk.written ==> Established(s, talk, turns))
  {
    HandshakeAgreement(s, pattern, si, sr, turns);
    hide Open, Converse, SplitKeys, HonestDhSucceeds;
  }

  /** The whole conversation of two new objects. */
  method OpenAndTalk(s: Suite, pattern: Pattern, si: Key, sr: Key, turns: seq<Turn>)
    returns (i: HandshakeState, r: HandshakeState, written: bool, got: seq<Option<Bytes>>)
    requires |turns| == TotalSteps(pattern)
    ensures fresh(i) && fresh(i.symmetric) && fresh(r) && fresh(r.symmetric) && Separate(i, r)
    ensures Talk(i.View(), r.View(), got, written)
         == Converse(s, Open(s, pattern, true, si, s.pub(si), if pattern.IK? then Some(s.pub(sr)) else None),
                     Open(s, pattern, false, sr, s.pub(sr), None), turns)
  {
    hide Open, Converse, Paired, TotalSteps;
    i, r := OpenPair(s, pattern, si, sr);
    written, got := RunHandshake(s, i, r, turns);
  }

  /**
   From keys to transport: two objects are made, talk to the end and split.  On
   honest keys nothing fails, and the ciphers pair up crosswise at counter zero.
   */
  method EstablishChannel(s: Suite, pattern: Pattern, si: Key, sr: Key, turns: seq<Turn>)
    returns (written: bool, got: seq<Option<Bytes>>, ciphers: seq<CipherState>)
    requires |turns| == TotalSteps(pattern)
    ensures HonestDhSucceeds(s) ==> written
    ensures written ==>
              && |got| == |turns| && (forall n :: 0 <= n < |turns| ==> got[n] == Some(turns[n].payload))
              && |ciphers| == 4
              && ciphers[0].View() == ciphers[3].View() && ciphers[1].View() == ciphers[2].View()
              && ciphers[0].View() == Keyed(ciphers[0].k) && ciphers[1].View() == Keyed(ciphers[1].k)
  {
    ConversationEstablishes(s, pattern, si, sr, turns);
    hide Open, Converse, TransportCiphers, HonestDhSucceeds, Keyed, TotalSteps, HandshakeState.View;
    var i, r;
    i, r, written, got := OpenAndTalk(s, pattern, si, sr, turns);
    ciphers := [];
    if written {
      ciphers := SplitBoth(s, i, r);
    }
  }
}
