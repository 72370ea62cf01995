/**
 NoiseSession: the per-connection state behind the provider's entry points, and
 its lifecycle.  Each entry point is one atomic step on the session.
 */
module Sessions {
  import opened Octets
  import opened Primitives
  import opened CipherStates
  import opened SymmetricStates
  import opened Handshakes
  import opened HandshakeRuns
  import opened Transports

  datatype Session = Session(
    party: Party, transport: Transport, isInitiator: bool, splitDone: bool, keysExported: bool, peerPk: Key)

  /** `GN_OK` with the emitted buffer, or one of the two error codes the entry points return. */
  datatype Reply = Ok(out: Bytes) | InvalidEnvelope | InvalidState

  const CHANNEL_BINDING_BYTES: nat := 32

  datatype ExportedKeys = ExportedKeys(
    sendKey: Key, recvKey: Key, sendNonce: nat, recvNonce: nat, peerStatic: Key, handshakeHash: Bytes)

  const IDLE_TRANSPORT: Transport := Transport(UNKEYED, UNKEYED)

  function OpenSession(s: Suite, pattern: Pattern, initiator: bool, sSk: Key, sPk: Key, preKnown: Option<Key>): Session
  {
    Session(Open(s, pattern, initiator, sSk, sPk, preKnown), IDLE_TRANSPORT, initiator, false, false, ZERO_KEY)
  }

  predicate WriterTurn(x: Session) {
    (x.party.step % 2 == 0) == x.isInitiator
  }

  /** The second half of a step: write if it is our turn. */
  function TurnToWrite(s: Suite, x: Session, eph: Key): (Session, Reply) {
    if !WriterTurn(x) then (x, Ok([]))
    else
      var (p, m) := Write(s, x.party, eph, []);
      (x.(party := p), if m.None? then InvalidEnvelope else Ok(m.value))
  }

  /** `noise_handshake_step`: incoming bytes, if any, are read first. */
  function Stepped(s: Suite, x: Session, incoming: Bytes, eph: Key): (Session, Reply) {
    if |incoming| > 0 then
      var (p, plain) := Read(s, x.party, incoming);
      if plain.None? then (x.(party := p), InvalidEnvelope)
      else if Complete(p) then (x.(party := p), Ok([]))
      else TurnToWrite(s, x.(party := p), eph)
    else TurnToWrite(s, x, eph)
  }

  function ExportOf(s: Suite, p: Party): ExportedKeys {
    var (send, recv) := TransportCiphers(s, p);
    ExportedKeys(send.k, recv.k, 0, 0, p.rs, p.sym.h[..CHANNEL_BINDING_BYTES])
  }

  /** `noise_export_transport_keys`; None is the invalid-state refusal. */
  function Export(s: Suite, x: Session): (Session, Option<ExportedKeys>) {
    if !Complete(x.party) || x.splitDone then (x, None)
    else
      (x.(party := Spent(x.party), splitDone := true, keysExported := true, peerPk := x.party.rs),
       Some(ExportOf(s, x.party)))
  }

  /** The keys by role, out of the two HMAC outputs over the chaining key; the peer's key; 32 octets of the hash. */
  lemma ExportGives(s: Suite, x: Session)
    requires Complete(x.party) && !x.splitDone
    ensures var keys := Export(s, x).1;
            var (o1, o2) := TwoOutputs(s, x.party.sym.ck, []);
            && keys.Some?
            && keys.value.sendKey == KeyOf(if x.party.initiator then o1 else o2)
            && keys.value.recvKey == KeyOf(if x.party.initiator then o2 else o1)
            && keys.value.sendNonce == keys.value.recvNonce == 0
            && keys.value.peerStatic == x.party.rs
            && |keys.value.handshakeHash| == 32
            && forall j :: 0 <= j < 32 ==> keys.value.handshakeHash[j] == x.party.sym.h[j]
  {
    SplitOutputs(s, x.party.sym.ck);
    hide TwoOutputs, SplitKeys;
  }

  predicate TransportOpen(x: Session) {
    x.splitDone && !x.keysExported
  }

  function EncryptCall(s: Suite, x: Session, plaintext: Bytes): (Session, Reply) {
    if !TransportOpen(x) then (x, InvalidState)
    else var (t, ct) := SealThenRekey(s, x.transport, plaintext); (x.(transport := t), Ok(ct))
  }

  function DecryptCall(s: Suite, x: Session, ciphertext: Bytes): (Session, Reply) {
    if !TransportOpen(x) then (x, InvalidState)
    else
      var (t, p) := OpenThenRekey(s, x.transport, ciphertext);
      (x.(transport := t), if p.None? then InvalidEnvelope else Ok(p.value))
  }

  function RekeyCall(s: Suite, x: Session): (Session, Reply) {
    if !TransportOpen(x) then (x, InvalidState) else (x.(transport := RekeyBoth(s, x.transport)), Ok([]))
  }

  /** A message that is refused is reported, advances no step and is not answered. */
  lemma RefusedIsReported(s: Suite, x: Session, incoming: Bytes, eph: Key)
    requires KeyPresence(x.party) && incoming != [] && Read(s, x.party, incoming).1.None?
    ensures var (y, reply) := Stepped(s, x, incoming, eph);
            && reply == InvalidEnvelope && y.party.step == x.party.step
            && (y.splitDone, y.keysExported, y.transport) == (x.splitDone, x.keysExported, x.transport)
            && (Complete(x.party) ==> y == x)
  {
    CallSteps(s, x.party, ReadCall(incoming));
  }

  /** Were two transports open and paired: what one encrypts the other decrypts, and what is refused changes nothing. */
  lemma OpenTransportsTalk(s: Suite, x: Session, y: Session, text: Bytes, junk: Bytes)
    requires TransportOpen(x) && TransportOpen(y)
    requires BelowInterval(x.transport) && BelowInterval(y.transport) && x.transport.send == y.transport.recv
    ensures var (x', sent) := EncryptCall(s, x, text);
            && sent.Ok? && |sent.out| == |text| + 16 && x'.(transport := x.transport) == x
            && DecryptCall(s, y, sent.out).1 == Ok(text)
    ensures var (y', reply) := DecryptCall(s, y, junk);
            reply == InvalidEnvelope || (reply.Ok? && |junk| == |reply.out| + 16)
    ensures DecryptCall(s, y, junk).1 == InvalidEnvelope ==> DecryptCall(s, y, junk).0 == y
  {
  }

  // ---- Lifecycle ----

  datatype Entry = StepEntry(incoming: Bytes, eph: Key) | ExportEntry | EncryptEntry(plaintext: Bytes)
                 | DecryptEntry(ciphertext: Bytes) | RekeyEntry

  function Enter(s: Suite, x: Session, e: Entry): Session {
    match e
    case StepEntry(incoming, eph) => Stepped(s, x, incoming, eph).0
    case ExportEntry => Export(s, x).0
    case EncryptEntry(p) => EncryptCall(s, x, p).0
    case DecryptEntry(c) => DecryptCall(s, x, c).0
    case RekeyEntry => RekeyCall(s, x).0
  }

  /** The session after a run of entries, and how many exports succeeded. */
  function Run(s: Suite, x: Session, entries: seq<Entry>): (Session, nat)
    decreases |entries|
  {
    if entries == [] then (x, 0)
    else
      var e := entries[0];
      var (y, exports) := Run(s, Enter(s, x, e), entries[1..]);
      (y, exports + if e.ExportEntry? && Export(s, x).1.Some? then 1 else 0)
  }

  /**
   The flags move together, only after completion; the transport never leaves its
   initial state; and a complete handshake has sealed or opened one payload under
   its last key.
   */
  ghost predicate Consistent(x: Session) {
    && KeyPresence(x.party)
    && (Complete(x.party) ==> x.party.sym.cipher.n == 1)
    && x.splitDone == x.keysExported && (x.splitDone ==> Complete(x.party))
    && x.transport == IDLE_TRANSPORT
  }

  /** A call that completes the handshake leaves its cipher used once. */
  lemma CompletionUsesKeyOnce(s: Suite, p: Party, c: Call)
    requires KeyPresence(p) && (Complete(p) ==> p.sym.cipher.n == 1)
    ensures var q := Apply(s, p, c).0;
            && KeyPresence(q) && (Complete(q) ==> q.sym.cipher.n == 1) && (Complete(p) ==> q == p)
            && q.sPk == p.sPk && q.pattern == p.pattern && q.initiator == p.initiator
  {
    CallSteps(s, p, c);
    if Apply(s, p, c).1.Some? && Complete(Apply(s, p, c).0) {
      PayloadIsKeyed(s, p, c);
    }
    hide WriteHead, ReadHead;
  }

  lemma EnterKeepsConsistent(s: Suite, x: Session, e: Entry)
    requires Consistent(x)
    ensures var y := Enter(s, x, e);
            && Consistent(y) && (x.splitDone ==> y == x) && y.party.sPk == x.party.sPk
            && (y.splitDone == (x.splitDone || (e.ExportEntry? && Complete(x.party))))
  {
    if e.StepEntry? {
      var incoming, eph := e.incoming, e.eph;
      CompletionUsesKeyOnce(s, x.party, ReadCall(incoming));
      var p := Read(s, x.party, incoming).0;
      CompletionUsesKeyOnce(s, x.party, WriteCall(eph, []));
      CompletionUsesKeyOnce(s, p, WriteCall(eph, []));
      hide Read, Write, KeyPresence;
    }
  }

  lemma {:induction false} RunKeepsSplit(s: Suite, x: Session, entries: seq<Entry>)
    requires Consistent(x)
    ensures x.splitDone ==> Run(s, x, entries).0 == x
    decreases |entries|
  {
    hide Enter, Consistent;
    if entries != [] {
      EnterKeepsConsistent(s, x, entries[0]);
      RunKeepsSplit(s, Enter(s, x, entries[0]), entries[1..]);
    }
  }

  lemma {:induction false} RunKeepsConsistent(s: Suite, x: Session, entries: seq<Entry>)
    requires Consistent(x)
    ensures var (y, exports) := Run(s, x, entries);
            Consistent(y) && y.party.sPk == x.party.sPk && exports == (if y.splitDone && !x.splitDone then 1 else 0)
    decreases |entries|
  {
    hide Consistent;
    if entries != [] {
      EnterKeepsConsistent(s, x, entries[0]);
      RunKeepsConsistent(s, Enter(s, x, entries[0]), entries[1..]);
      RunKeepsSplit(s, Enter(s, x, entries[0]), entries[1..]);
    }
  }

  lemma OpenSessionIsConsistent(s: Suite, pattern: Pattern, initiator: bool, sSk: Key, sPk: Key, preKnown: Option<Key>)
    ensures var x := OpenSession(s, pattern, initiator, sSk, sPk, preKnown);
            Consistent(x) && !x.splitDone && x.party.sPk == sPk
  {
  }

  /**
   In every run from a new session: the flags agree and imply completion, export
   succeeds exactly if they are up and at most once, and the transport entry
   points always refuse.
   */
  lemma Lifecycle(s: Suite, pattern: Pattern, initiator: bool, sSk: Key, sPk: Key, preKnown: Option<Key>,
                  entries: seq<Entry>)
    ensures var (y, exports) := Run(s, OpenSession(s, pattern, initiator, sSk, sPk, preKnown), entries);
            && Consistent(y) && exports == (if y.splitDone then 1 else 0)
            && (forall p: Bytes :: EncryptCall(s, y, p) == (y, InvalidState))
            && (forall c: Bytes :: DecryptCall(s, y, c) == (y, InvalidState))
            && RekeyCall(s, y) == (y, InvalidState)
  {
    OpenSessionIsConsistent(s, pattern, initiator, sSk, sPk, preKnown);
    hide OpenSession, Run;
    RunKeepsConsistent(s, OpenSession(s, pattern, initiator, sSk, sPk, preKnown), entries);
  }

  /** What an exported session `y` still holds of the complete session `x`, and what is gone. */
  ghost predicate Retains(x: Session, y: Session) {
    // gone: chaining key, static secret, ephemeral pair, peer ephemeral; the transport never held a key
    && y.party.sym.ck == ZERO_DIGEST
    && y.party.sSk == y.party.eSk == y.party.ePk == y.party.re == ZERO_KEY
    && y.transport == IDLE_TRANSPORT
    // kept: handshake hash, both static public keys, and the handshake cipher with its key and counter
    && y.party.sym.h == x.party.sym.h
    && y.party.sPk == x.party.sPk && y.party.rs == x.party.rs == y.peerPk
    && y.party.sym.cipher == x.party.sym.cipher && y.party.sym.cipher.hasKey && y.party.sym.cipher.n == 1
  }

  /**
   After any run of a new session, a successful export, and any entries that
   follow it: the session holds exactly the hash, the static public keys and the
   live handshake cipher; every other key buffer is zero.  So the promise that
   export zeroises every cipher key, nonce and hash buffer fails at every export.
   */
  lemma ExportRetains(s: Suite, pattern: Pattern, initiator: bool, sSk: Key, sPk: Key, preKnown: Option<Key>,
                      before: seq<Entry>, after: seq<Entry>)
    requires Export(s, Run(s, OpenSession(s, pattern, initiator, sSk, sPk, preKnown), before).0).1.Some?
    ensures var x := Run(s, OpenSession(s, pattern, initiator, sSk, sPk, preKnown), before).0;
            var y := Run(s, Export(s, x).0, after).0;
            Retains(x, y) && y.party.sPk == sPk && y.party.sym.cipher != UNKEYED
  {
    var x0 := OpenSession(s, pattern, initiator, sSk, sPk, preKnown);
    OpenSessionIsConsistent(s, pattern, initiator, sSk, sPk, preKnown);
    hide OpenSession, Run, ExportOf;
    RunKeepsConsistent(s, x0, before);
    var x := Run(s, x0, before).0;
    EnterKeepsConsistent(s, x, ExportEntry);
    RunKeepsSplit(s, Export(s, x).0, after);
  }

  // ---- The object ----

  class NoiseSession {
    const handshake: HandshakeState
    const transport: TransportState
    var isInitiator: bool
    var splitDone: bool
    var keysExported: bool
    var peerPk: Key

    ghost function View(): Session
      reads this, handshake, handshake.symmetric, handshake.symmetric.cipher, transport.send, transport.recv
    {
      Session(handshake.View(), transport.View(), isInitiator, splitDone, keysExported, peerPk)
    }

    /** Invariants of the members, which share no cipher. */
    ghost predicate Valid()
      reads this, handshake, handshake.symmetric, handshake.symmetric.cipher, transport.send, transport.recv
    {
      && handshake.Valid() && transport.Valid()
      && handshake.symmetric.cipher != transport.send && handshake.symmetric.cipher != transport.recv
    }

    constructor (s: Suite, pattern: Pattern, initiator: bool, sSk: Key, sPk: Key, preKnown: Option<Key>)
      ensures fresh(handshake) && fresh(handshake.symmetric) && fresh(handshake.symmetric.cipher)
      ensures fresh(transport.send) && fresh(transport.recv)
      ensures Valid() && View() == OpenSession(s, pattern, initiator, sSk, sPk, preKnown)
    {
      hide Open, Keyed;
      handshake := new HandshakeState(s, pattern, initiator, sSk, sPk, preKnown);
      var send := new CipherState();
      var recv := new CipherState();
      transport := new TransportState(send, recv);
      isInitiator, splitDone, keysExported, peerPk := initiator, false, false, ZERO_KEY;
    }

    method WriteIfTurn(s: Suite, eph: Key) returns (reply: Reply)
      requires Valid() && handshake.NeverWraps()
      modifies handshake, handshake.symmetric, handshake.symmetric.cipher
      ensures Valid()
      ensures (View(), reply) == TurnToWrite(s, old(View()), eph)
    {
      var initiatorWritesNext := handshake.step % 2 == 0;
      if initiatorWritesNext != isInitiator {
        return Ok([]);
      }
      var produced := handshake.WriteMessage(s, eph, []);
      if produced.None? {
        return InvalidEnvelope;
      }
      return Ok(produced.value);
    }

    method HandshakeStep(s: Suite, incoming: Bytes, eph: Key) returns (reply: Reply)
      requires Valid() && handshake.NeverWraps()
      modifies handshake, handshake.symmetric, handshake.symmetric.cipher
      ensures Valid()
      ensures (View(), reply) == Stepped(s, old(View()), incoming, eph)
    {
      if |incoming| > 0 {
        ghost var before := handshake.View();
        var plain := handshake.ReadMessage(s, incoming);
        if plain.None? {
          return InvalidEnvelope;
        }
        ReadLeavesFreshKey(s, before, incoming);
        if handshake.IsComplete() {
          return Ok([]);
        }
      }
      reply := WriteIfTurn(s, eph);
    }

    method ExportTransportKeys(s: Suite) returns (keys: Option<ExportedKeys>)
      requires Valid()
      modifies this, handshake, handshake.symmetric
      ensures Valid()
      ensures (View(), keys) == Export(s, old(View()))
      ensures keys.Some? ==> keys.value.handshakeHash == old(handshake.symmetric.h)[..32] == handshake.symmetric.h[..32]
    {
      if !handshake.IsComplete() || splitDone {
        return None;
      }
      var send, recv := handshake.Split(s);
      peerPk := handshake.rs;
      keys := Some(ExportedKeys(send.k, recv.k, 0, 0, peerPk, handshake.symmetric.h[..CHANNEL_BINDING_BYTES]));
      splitDone, keysExported := true, true;
    }

    method Encrypt(s: Suite, plaintext: Bytes) returns (reply: Reply)
      requires Valid()
      modifies transport.send, transport.recv
      ensures Valid()
      ensures (View(), reply) == EncryptCall(s, old(View()), plaintext)
    {
      if !splitDone || keysExported {
        return InvalidState;
      }
      var out := transport.EncryptThenRekey(s, plaintext);
      return Ok(out);
    }

    method Decrypt(s: Suite, ciphertext: Bytes) returns (reply: Reply)
      requires Valid()
      modifies transport.send, transport.recv
      ensures Valid()
      ensures (View(), reply) == DecryptCall(s, old(View()), ciphertext)
    {
      if !splitDone || keysExported {
        return InvalidState;
      }
      var plain := transport.DecryptThenRekey(s, ciphertext);
      if plain.None? {
        return InvalidEnvelope;
      }
      return Ok(plain.value);
    }

    method Rekey(s: Suite) returns (reply: Reply)
      requires Valid()
      modifies transport.send, transport.recv
      ensures Valid()
      ensures (View(), reply) == RekeyCall(s, old(View()))
    {
      if !splitDone || keysExported {
        return InvalidState;
      }
      transport.Rekey(s);
      return Ok([]);
    }
  }
}
