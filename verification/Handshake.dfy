/**
 HandshakeState, section 5.3 of the Noise specification.  The specification is a
 token interpreter driven by a pattern table; the class is the hand-unrolled
 pair of switches, proved to do exactly what the interpreter does.
 */
module Handshakes {
  import opened Octets
  import opened Primitives
  import opened CipherStates
  import opened SymmetricStates

  datatype Pattern = XX | IK

  datatype Token = E | S | EE | ES | SE | SS

  datatype Script = Done | Then(token: Token, rest: Script)

  function TotalSteps(p: Pattern): nat {
    match p case XX => 3 case IK => 2
  }

  function ProtocolName(p: Pattern): Bytes {
    match p
    case XX => Ascii("Noise_XX_25519_ChaChaPoly_BLAKE2b")
    case IK => Ascii("Noise_IK_25519_ChaChaPoly_BLAKE2b")
  }

  const PROLOGUE: Bytes := Ascii("goodnet/v1/noise")

  /**
   The token lists.  XX is section 7.5 of the Noise specification.  IK is the
   table the provider implements: its last token is `es`, where the
   specification has `se`.
   */
  function ScriptOf(p: Pattern, step: nat): Script {
    match p
    case XX =>
      if step == 0 then Then(E, Done)
      else if step == 1 then Then(E, Then(EE, Then(S, Then(ES, Done))))
      else Then(S, Then(SE, Done))
    case IK =>
      if step == 0 then Then(E, Then(ES, Then(S, Then(SS, Done))))
      else Then(E, Then(EE, Then(ES, Done)))
  }

  datatype Party = Party(
    pattern: Pattern, initiator: bool, step: nat, sym: Symmetric,
    sSk: Key, sPk: Key, eSk: Key, ePk: Key, rs: Key, re: Key, rsKnown: bool)

  predicate Complete(p: Party) {
    p.step >= TotalSteps(p.pattern)
  }

  /** A new party: name, prologue, and for IK the responder's static key as pre-message. */
  function Open(s: Suite, pattern: Pattern, initiator: bool, sSk: Key, sPk: Key, preKnown: Option<Key>): Party {
    var y := WithHash(s, Initial(s, ProtocolName(pattern)), PROLOGUE);
    var p := Party(pattern, initiator, 0, y, sSk, sPk, ZERO_KEY, ZERO_KEY, ZERO_KEY, ZERO_KEY, false);
    if pattern.XX? then p else WithPreMessage(s, p, preKnown)
  }

  function WithPreMessage(s: Suite, p: Party, preKnown: Option<Key>): Party {
    if !p.initiator then p.(sym := WithHash(s, p.sym, p.sPk))
    else if preKnown.None? then p
    else p.(sym := WithHash(s, p.sym, preKnown.value), rs := preKnown.value, rsKnown := true)
  }

  // ---- The token interpreter ----

  /** Which of its own key pairs a side uses for a DH token. */
  datatype Kind = Ephemeral | Static

  function OwnKind(t: Token, asInitiator: bool): Kind {
    match t
    case ES => if asInitiator then Ephemeral else Static
    case SE => if asInitiator then Static else Ephemeral
    case SS => Static
    case _ => Ephemeral
  }

  function Secret(p: Party, k: Kind): Key {
    if k.Ephemeral? then p.eSk else p.sSk
  }

  function PublicOf(p: Party, k: Kind): Key {
    if k.Ephemeral? then p.ePk else p.sPk
  }

  function PeerKey(p: Party, k: Kind): Key {
    if k.Ephemeral? then p.re else p.rs
  }

  function MixedDh(s: Suite, p: Party, sk: Key, pk: Key): Option<Party> {
    match s.dh(sk, pk)
    case None => None
    case Some(shared) => Some(p.(sym := WithKey(s, p.sym, shared)))
  }

  function MixToken(s: Suite, p: Party, t: Token, asInitiator: bool): Option<Party> {
    MixedDh(s, p, Secret(p, OwnKind(t, asInitiator)), PeerKey(p, OwnKind(t, !asInitiator)))
  }

  /** A party in the middle of a message: `bytes` is the output so far, or the input left. */
  datatype Progress = Progress(party: Party, bytes: Bytes, ok: bool)

  function WithEphemeral(s: Suite, p: Party, eph: Key): Party {
    p.(eSk := eph, ePk := s.pub(eph), sym := WithHash(s, p.sym, s.pub(eph)))
  }

  function WriteToken(s: Suite, p: Party, t: Token, asInitiator: bool, eph: Key, out: Bytes): Progress {
    match t
    case E => Progress(WithEphemeral(s, p, eph), out + s.pub(eph), true)
    case S =>
      var (y, ct) := Hide(s, p.sym, p.sPk);
      Progress(p.(sym := y), out + ct, true)
    case _ =>
      match MixToken(s, p, t, asInitiator)
      case None => Progress(p, out, false)
      case Some(p') => Progress(p', out, true)
  }

  function ReadToken(s: Suite, p: Party, t: Token, asInitiator: bool, input: Bytes): Progress {
    match t
    case E =>
      if |input| < KEY_BYTES then Progress(p, input, false)
      else
        var e := KeyOf(input);
        Progress(p.(re := e, sym := WithHash(s, p.sym, e)), input[KEY_BYTES..], true)
    case S =>
      var len := KEY_BYTES + if p.sym.cipher.hasKey then TAG_BYTES else 0;
      if |input| < len then Progress(p, input, false)
      else
        var (y, plain) := Unhide(s, p.sym, input[..len]);
        if plain.None? then Progress(p, input, false)
        else Progress(p.(sym := y, rs := plain.value, rsKnown := true), input[len..], true)
    case _ =>
      match MixToken(s, p, t, asInitiator)
      case None => Progress(p, input, false)
      case Some(p') => Progress(p', input, true)
  }

  function WriteScript(s: Suite, p: Party, script: Script, asInitiator: bool, eph: Key, out: Bytes): Progress
    decreases script
  {
    match script
    case Done => Progress(p, out, true)
    case Then(t, rest) =>
      var w := WriteToken(s, p, t, asInitiator, eph, out);
      if w.ok then WriteScript(s, w.party, rest, asInitiator, eph, w.bytes) else w
  }

  function ReadScript(s: Suite, p: Party, script: Script, asInitiator: bool, input: Bytes): Progress
    decreases script
  {
    match script
    case Done => Progress(p, input, true)
    case Then(t, rest) =>
      var r := ReadToken(s, p, t, asInitiator, input);
      if r.ok then ReadScript(s, r.party, rest, asInitiator, r.bytes) else r
  }

  /** The initiator writes at even steps, so writing at an even step acts as the initiator. */
  predicate ActsAsInitiator(step: nat, writing: bool) {
    (step % 2 == 0) == writing
  }

  function FinishWrite(s: Suite, w: Progress, payload: Bytes): (Party, Option<Bytes>) {
    if !w.ok then (w.party, None)
    else
      var (y, ct) := Hide(s, w.party.sym, payload);
      (w.party.(sym := y, step := w.party.step + 1), Some(w.bytes + ct))
  }

  function FinishRead(s: Suite, r: Progress): (Party, Option<Bytes>) {
    if !r.ok then (r.party, None)
    else
      var (y, plain) := Unhide(s, r.party.sym, r.bytes);
      if plain.None? then (r.party, None)
      else (r.party.(sym := y, step := r.party.step + 1), plain)
  }

  /** Everything of the next message but its payload. */
  function WriteHead(s: Suite, p: Party, eph: Key): Progress {
    WriteScript(s, p, ScriptOf(p.pattern, p.step), ActsAsInitiator(p.step, true), eph, [])
  }

  function ReadHead(s: Suite, p: Party, message: Bytes): Progress {
    ReadScript(s, p, ScriptOf(p.pattern, p.step), ActsAsInitiator(p.step, false), message)
  }

  /** A failed call keeps what it had already mixed. */
  function Write(s: Suite, p: Party, eph: Key, payload: Bytes): (Party, Option<Bytes>) {
    if Complete(p) then (p, None) else FinishWrite(s, WriteHead(s, p, eph), payload)
  }

  function Read(s: Suite, p: Party, message: Bytes): (Party, Option<Bytes>) {
    if Complete(p) then (p, None) else FinishRead(s, ReadHead(s, p, message))
  }

  // ---- Split and move ----

  /** The send and receive cipher of a party. */
  function TransportCiphers(s: Suite, p: Party): (Cipher, Cipher) {
    var (k1, k2) := SplitKeys(s, p.sym.ck);
    if p.initiator then (Keyed(k1), Keyed(k2)) else (Keyed(k2), Keyed(k1))
  }

  /**
   A party after Split: the chaining key, the static and ephemeral secrets, the
   ephemeral public key and the peer's ephemeral key are zero.  The handshake hash,
   both static public keys and the handshake cipher, key and counter, remain.
   */
  function Spent(p: Party): Party {
    Party(p.pattern, p.initiator, p.step, Symmetric(ZERO_DIGEST, p.sym.h, p.sym.cipher, p.sym.log),
          ZERO_KEY, p.sPk, ZERO_KEY, ZERO_KEY, p.rs, ZERO_KEY, p.rsKnown)
  }

  /** A moved-from party: every key buffer is zero; only the plain counters and flags remain. */
  function MovedFrom(p: Party): Party {
    Party(p.pattern, p.initiator, p.step, Symmetric(ZERO_DIGEST, ZERO_DIGEST, UNKEYED, []),
          ZERO_KEY, ZERO_KEY, ZERO_KEY, ZERO_KEY, ZERO_KEY, ZERO_KEY, p.rsKnown)
  }

  // ---- Invariants of every reachable party ----

  /** Where a static key is next on the wire the cipher is, or is about to be, keyed. */
  ghost predicate KeyPresence(p: Party) {
    && p.step <= TotalSteps(p.pattern)
    && (p.pattern.XX? && p.step == 0 ==> !p.sym.cipher.hasKey)
    && (p.step >= (if p.pattern.XX? then 2 else 1) ==> p.sym.cipher.hasKey)
  }

  /** What no call ever changes. */
  predicate SameIdentity(p: Party, q: Party) {
    p.pattern == q.pattern && p.initiator == q.initiator && p.sSk == q.sSk && p.sPk == q.sPk
  }

  predicate IsDh(t: Token) {
    !(t.E? || t.S?)
  }

  predicate HasDh(script: Script) {
    script.Then? && (IsDh(script.token) || HasDh(script.rest))
  }

  lemma TokenKeys(s: Suite, p: Party, t: Token, asInitiator: bool, eph: Key, out: Bytes, input: Bytes)
    ensures var w := WriteToken(s, p, t, asInitiator, eph, out); w.party.step == p.step && SameIdentity(p, w.party)
    ensures var r := ReadToken(s, p, t, asInitiator, input); r.party.step == p.step && SameIdentity(p, r.party)
    ensures var w := WriteToken(s, p, t, asInitiator, eph, out);
            && (p.sym.cipher.hasKey || (w.ok && IsDh(t)) ==> w.party.sym.cipher.hasKey)
            && (t.E? ==> w.party.sym.cipher == p.sym.cipher)
    ensures var r := ReadToken(s, p, t, asInitiator, input);
            && (p.sym.cipher.hasKey || (r.ok && IsDh(t)) ==> r.party.sym.cipher.hasKey)
            && (t.E? ==> r.party.sym.cipher == p.sym.cipher)
  {
  }

  /** A script never takes a key away, leaves one once it has mixed a DH, and touches no step. */
  lemma {:induction false} WriteScriptKeys(s: Suite, p: Party, script: Script, asInitiator: bool, eph: Key, out: Bytes)
    ensures var w := WriteScript(s, p, script, asInitiator, eph, out);
            && w.party.step == p.step && SameIdentity(p, w.party)
            && (p.sym.cipher.hasKey ==> w.party.sym.cipher.hasKey)
            && (w.ok && HasDh(script) ==> w.party.sym.cipher.hasKey)
            && (script == Then(E, Done) ==> w.party.sym.cipher == p.sym.cipher)
    decreases script
  {
    hide WriteToken;
    match script
    case Done =>
    case Then(t, rest) =>
      TokenKeys(s, p, t, asInitiator, eph, out, []);
      var w := WriteToken(s, p, t, asInitiator, eph, out);
      if w.ok {
        WriteScriptKeys(s, w.party, rest, asInitiator, eph, w.bytes);
      }
  }

  lemma {:induction false} ReadScriptKeys(s: Suite, p: Party, script: Script, asInitiator: bool, input: Bytes)
    ensures var r := ReadScript(s, p, script, asInitiator, input);
            && r.party.step == p.step && SameIdentity(p, r.party)
            && (p.sym.cipher.hasKey ==> r.party.sym.cipher.hasKey)
            && (r.ok && HasDh(script) ==> r.party.sym.cipher.hasKey)
            && (script == Then(E, Done) ==> r.party.sym.cipher == p.sym.cipher)
    decreases script
  {
    hide ReadToken;
    match script
    case Done =>
    case Then(t, rest) =>
      TokenKeys(s, p, t, asInitiator, ZERO_KEY, [], input);
      var r := ReadToken(s, p, t, asInitiator, input);
      if r.ok {
        ReadScriptKeys(s, r.party, rest, asInitiator, r.bytes);
      }
  }

  lemma DhInTables(pattern: Pattern, step: nat)
    ensures HasDh(ScriptOf(pattern, step)) == !(pattern.XX? && step == 0)
  {
  }

  /** Enough to carry the invariant over the payload at the end of a message. */
  ghost predicate HeadKeys(p: Party, q: Progress) {
    && q.party.step == p.step && SameIdentity(p, q.party)
    && (p.sym.cipher.hasKey ==> q.party.sym.cipher.hasKey)
    && if p.pattern.XX? && p.step == 0 then q.party.sym.cipher == p.sym.cipher
       else q.ok ==> q.party.sym.cipher.hasKey
  }

  lemma FinishKeepsKeyPresence(s: Suite, p: Party, q: Progress, payload: Bytes)
    requires KeyPresence(p) && !Complete(p) && HeadKeys(p, q)
    ensures var p' := FinishWrite(s, q, payload).0; KeyPresence(p') && SameIdentity(p, p')
    ensures var p' := FinishRead(s, q).0; KeyPresence(p') && SameIdentity(p, p')
  {
  }

  lemma WriteKeepsKeyPresence(s: Suite, p: Party, eph: Key, payload: Bytes)
    requires KeyPresence(p)
    ensures var p' := Write(s, p, eph, payload).0; KeyPresence(p') && SameIdentity(p, p')
  {
    if !Complete(p) {
      DhInTables(p.pattern, p.step);
      WriteScriptKeys(s, p, ScriptOf(p.pattern, p.step), ActsAsInitiator(p.step, true), eph, []);
      FinishKeepsKeyPresence(s, p, WriteHead(s, p, eph), payload);
    }
  }

  lemma ReadKeepsKeyPresence(s: Suite, p: Party, message: Bytes)
    requires KeyPresence(p)
    ensures var p' := Read(s, p, message).0; KeyPresence(p') && SameIdentity(p, p')
  {
    if !Complete(p) {
      DhInTables(p.pattern, p.step);
      ReadScriptKeys(s, p, ScriptOf(p.pattern, p.step), ActsAsInitiator(p.step, false), message);
      FinishKeepsKeyPresence(s, p, ReadHead(s, p, message), []);
    }
  }

  /** `prefix` is what `script` has before one of its `s` tokens. */
  predicate BeforeStatic(prefix: Script, script: Script) {
    match script
    case Done => false
    case Then(t, rest) => if prefix.Done? then t.S? else prefix.token == t && BeforeStatic(prefix.rest, rest)
  }

  lemma BeforeStaticInTables(pattern: Pattern, step: nat, prefix: Script)
    requires BeforeStatic(prefix, ScriptOf(pattern, step)) && step < TotalSteps(pattern)
    ensures HasDh(prefix) || (pattern.XX? && step == 2)
  {
  }

  /** In every reachable state, wherever a static key is written or read the cipher is keyed by then. */
  lemma StaticsAreKeyed(s: Suite, p: Party, prefix: Script, eph: Key, message: Bytes)
    requires KeyPresence(p) && !Complete(p) && BeforeStatic(prefix, ScriptOf(p.pattern, p.step))
    ensures var w := WriteScript(s, p, prefix, ActsAsInitiator(p.step, true), eph, []);
            w.ok ==> w.party.sym.cipher.hasKey
    ensures var r := ReadScript(s, p, prefix, ActsAsInitiator(p.step, false), message);
            r.ok ==> r.party.sym.cipher.hasKey
  {
    BeforeStaticInTables(p.pattern, p.step, prefix);
    WriteScriptKeys(s, p, prefix, ActsAsInitiator(p.step, true), eph, []);
    ReadScriptKeys(s, p, prefix, ActsAsInitiator(p.step, false), message);
  }

  // ---- The object ----

  class HandshakeState {
    var pattern: Pattern
    var initiator: bool
    var step: nat
    var stepsTotal: nat
    const symmetric: SymmetricState
    var sSk: Key
    var sPk: Key
    var eSk: Key
    var ePk: Key
    var rs: Key
    var re: Key
    var rsKnown: bool

    ghost function View(): Party
      reads this, symmetric, symmetric.cipher
    {
      Party(pattern, initiator, step, symmetric.View(), sSk, sPk, eSk, ePk, rs, re, rsKnown)
    }

    ghost predicate Valid()
      reads this, symmetric, symmetric.cipher
    {
      stepsTotal == TotalSteps(pattern) && KeyPresence(View())
    }

    constructor (s: Suite, pattern: Pattern, initiator: bool, sSk: Key, sPk: Key, preKnown: Option<Key>)
      ensures fresh(symmetric) && fresh(symmetric.cipher)
      ensures Valid() && View() == Open(s, pattern, initiator, sSk, sPk, preKnown)
    {
      this.pattern, this.initiator, this.sSk, this.sPk := pattern, initiator, sSk, sPk;
      step, stepsTotal := 0, TotalSteps(pattern);
      eSk, ePk, rs, re, rsKnown := ZERO_KEY, ZERO_KEY, ZERO_KEY, ZERO_KEY, false;
      symmetric := new SymmetricState();
      new;
      symmetric.Initialize(s, ProtocolName(pattern));
      symmetric.MixHash(s, PROLOGUE);
      if pattern == IK {
        PreMessage(s, preKnown);
      }
    }

    /** IK: both sides hash the responder's static key before any wire bytes flow. */
    method PreMessage(s: Suite, preKnown: Option<Key>)
      modifies this, symmetric
      ensures View() == WithPreMessage(s, old(View()), preKnown)
      ensures stepsTotal == old(stepsTotal)
    {
      if initiator {
        if preKnown.Some? {
          rs, rsKnown := preKnown.value, true;
          symmetric.MixHash(s, rs);
        }
      } else {
        symmetric.MixHash(s, sPk);
      }
    }

    /** Only the third XX message starts by using the cipher; every other keyed use follows a fresh key. */
    predicate NeverWraps()
      reads this, symmetric.cipher
    {
      step == 2 && pattern == XX ==> symmetric.cipher.MayAdvance()
    }

    predicate IsComplete()
      reads this
    {
      step >= stepsTotal
    }

    method WriteE(s: Suite, eph: Key, out: Bytes) returns (out': Bytes)
      modifies this, symmetric
      ensures Progress(View(), out', true) == WriteToken(s, old(View()), E, true, eph, out)
      ensures stepsTotal == old(stepsTotal)
    {
      ePk := s.pub(eph);
      eSk := eph;
      out' := out + ePk;
      symmetric.MixHash(s, ePk);
    }

    method MixDh(s: Suite, sk: Key, pk: Key) returns (ok: bool)
      modifies symmetric, symmetric.cipher
      ensures ok == MixedDh(s, old(View()), sk, pk).Some?
      ensures View() == if ok then MixedDh(s, old(View()), sk, pk).value else old(View())
      ensures ok ==> symmetric.cipher.hasKey && symmetric.cipher.n == 0
    {
      var shared := s.dh(sk, pk);
      if shared.None? {
        return false;
      }
      symmetric.MixKey(s, shared.value);
      return true;
    }

    /** The static key only ever leaves encrypted. */
    method EncryptStatic(s: Suite, out: Bytes) returns (out': Bytes)
      requires symmetric.cipher.hasKey && symmetric.cipher.MayAdvance()
      modifies symmetric, symmetric.cipher
      ensures |out'| == |out| + KEY_BYTES + TAG_BYTES
      ensures Progress(View(), out', true) == WriteToken(s, old(View()), S, true, ZERO_KEY, out)
    {
      var enc := symmetric.EncryptAndHash(s, sPk);
      out' := out + enc;
    }

    /** The switch of `write_message`: everything but the payload. */
    method WriteTokens(s: Suite, eph: Key) returns (ok: bool, out: Bytes)
      requires Valid() && !IsComplete() && NeverWraps()
      modifies this, symmetric, symmetric.cipher
      ensures Progress(View(), out, ok) == WriteHead(s, old(View()), eph)
      ensures stepsTotal == old(stepsTotal) && (ok ==> symmetric.cipher.MayAdvance())
    {
      if step == 0 {
        ok, out := WriteFirst(s, eph);
      } else if step == 1 {
        ok, out := WriteSecond(s, eph);
      } else {
        ok, out := WriteThird(s, eph);
      }
    }

    method WriteFirst(s: Suite, eph: Key) returns (ok: bool, out: Bytes)
      requires step == 0 && (pattern == XX ==> symmetric.cipher.MayAdvance())
      modifies this, symmetric, symmetric.cipher
      ensures Progress(View(), out, ok) == WriteHead(s, old(View()), eph)
      ensures stepsTotal == old(stepsTotal) && (ok ==> symmetric.cipher.MayAdvance())
    {
      if pattern == IK {
        ok, out := EphemeralThenDh(s, eph, rs, ES, true, Then(S, Then(SS, Done)));
        if !ok { return; }
        ok, out := StaticThenDh(s, rs, out, SS, true, eph);
      } else {
        out := WriteE(s, eph, []);
        ok := true;
      }
    }

    method WriteSecond(s: Suite, eph: Key) returns (ok: bool, out: Bytes)
      requires step == 1
      modifies this, symmetric, symmetric.cipher
      ensures Progress(View(), out, ok) == WriteHead(s, old(View()), eph)
      ensures stepsTotal == old(stepsTotal) && (ok ==> symmetric.cipher.MayAdvance())
    {
      hide WithKey, WithHash, Hide;
      if pattern == IK {
        ok, out := EphemeralThenDh(s, eph, re, EE, false, Then(ES, Done));
        if !ok { return; }
        ok := MixDh(s, sSk, re);
      } else {
        ok, out := EphemeralThenDh(s, eph, re, EE, false, Then(S, Then(ES, Done)));
        if !ok { return; }
        ok, out := StaticThenDh(s, re, out, ES, false, eph);
      }
    }

    method WriteThird(s: Suite, eph: Key) returns (ok: bool, out: Bytes)
      requires step == 2 && pattern == XX && symmetric.cipher.hasKey && symmetric.cipher.MayAdvance()
      modifies symmetric, symmetric.cipher
      ensures Progress(View(), out, ok) == WriteHead(s, old(View()), eph)
      ensures ok ==> symmetric.cipher.MayAdvance()
    {
      ok, out := StaticThenDh(s, re, [], SE, true, eph);
    }

    /** The opening `write_e(); mix_dh(e_sk_, pk)`, common to every message but XX 1 and 3. */
    method EphemeralThenDh(s: Suite, eph: Key, pk: Key, ghost t: Token, ghost asInitiator: bool, ghost tail: Script)
      returns (ok: bool, out: Bytes)
      requires t.EE? || t.ES? || t.SE?
      requires OwnKind(t, asInitiator) == Ephemeral && pk == PeerKey(View(), OwnKind(t, !asInitiator))
      modifies this, symmetric, symmetric.cipher
      ensures WriteScript(s, old(View()), Then(E, Then(t, tail)), asInitiator, eph, [])
           == if ok then WriteScript(s, View(), tail, asInitiator, eph, out) else Progress(View(), out, false)
      ensures stepsTotal == old(stepsTotal) && (ok ==> symmetric.cipher.hasKey && symmetric.cipher.MayAdvance())
      ensures View().(sym := old(View()).sym, eSk := old(eSk), ePk := old(ePk)) == old(View())
    {
      out := WriteE(s, eph, []);
      ok := MixDh(s, eSk, pk);
    }

    /** The tail `encrypt_static(); mix_dh(s_sk_, pk)`, common to IK message 1 and XX messages 2 and 3. */
    method StaticThenDh(s: Suite, pk: Key, out: Bytes, ghost t: Token, ghost asInitiator: bool, ghost eph: Key)
      returns (ok: bool, out': Bytes)
      requires symmetric.cipher.hasKey && symmetric.cipher.MayAdvance()
      requires t.SE? || t.ES? || t.SS?
      requires OwnKind(t, asInitiator) == Static && pk == PeerKey(View(), OwnKind(t, !asInitiator))
      modifies symmetric, symmetric.cipher
      ensures Progress(View(), out', ok)
           == WriteScript(s, old(View()), Then(S, Then(t, Done)), asInitiator, eph, out)
      ensures ok ==> symmetric.cipher.MayAdvance()
    {
      out' := EncryptStatic(s, out);
      ok := MixDh(s, sSk, pk);
    }

    method EncryptPayload(s: Suite, payload: Bytes, head: Bytes) returns (out: Bytes)
      requires symmetric.cipher.MayAdvance()
      modifies this, symmetric, symmetric.cipher
      ensures (View(), Some(out)) == FinishWrite(s, Progress(old(View()), head, true), payload)
      ensures stepsTotal == old(stepsTotal)
    {
      var enc := symmetric.EncryptAndHash(s, payload);
      out := head + enc;
      step := step + 1;
    }

    method WriteMessage(s: Suite, eph: Key, payload: Bytes) returns (out: Option<Bytes>)
      requires Valid() && NeverWraps()
      modifies this, symmetric, symmetric.cipher
      ensures Valid()
      ensures (View(), out) == Write(s, old(View()), eph, payload)
    {
      WriteKeepsKeyPresence(s, View(), eph, payload);
      if IsComplete() {
        return None;
      }
      var ok, head := WriteTokens(s, eph);
      if !ok {
        return None;
      }
      var message := EncryptPayload(s, payload, head);
      return Some(message);
    }

    method ReadE(s: Suite, message: Bytes, offset: nat) returns (ok: bool, offset': nat)
      requires offset <= |message|
      modifies this, symmetric
      ensures offset' <= |message|
      ensures Progress(View(), message[offset'..], ok) == ReadToken(s, old(View()), E, true, message[offset..])
      ensures stepsTotal == old(stepsTotal)
    {
      if |message| < offset + KEY_BYTES {
        return false, offset;
      }
      re := message[offset..][..KEY_BYTES];
      offset' := offset + KEY_BYTES;
      symmetric.MixHash(s, re);
      ok := true;
    }

    /** The static field has the fixed length of an encrypted key. */
    method ReadEncryptedStatic(s: Suite, message: Bytes, offset: nat) returns (ok: bool, offset': nat)
      requires offset <= |message|
      requires symmetric.cipher.hasKey && symmetric.cipher.MayAdvance()
      modifies this, symmetric, symmetric.cipher
      ensures offset' <= |message|
      ensures Progress(View(), message[offset'..], ok) == ReadToken(s, old(View()), S, true, message[offset..])
      ensures stepsTotal == old(stepsTotal)
    {
      var encLen := KEY_BYTES + TAG_BYTES;
      if |message| < offset + encLen {
        return false, offset;
      }
      var field := message[offset..][..encLen];
      var plain := symmetric.DecryptAndHash(s, field);
      if plain.None? || |plain.value| != KEY_BYTES {
        return false, offset;
      }
      rs, rsKnown := plain.value, true;
      offset' := offset + encLen;
      ok := true;
    }

    /** The opening `read_e(); mix_dh(sk, re_)`. */
    method ReadEThenDh(s: Suite, message: Bytes, sk: Key, ghost t: Token, ghost asInitiator: bool, ghost tail: Script)
      returns (ok: bool, offset: nat)
      requires IsDh(t)
      requires OwnKind(t, !asInitiator) == Ephemeral && sk == Secret(View(), OwnKind(t, asInitiator))
      modifies this, symmetric, symmetric.cipher
      ensures offset <= |message|
      ensures ReadScript(s, old(View()), Then(E, Then(t, tail)), asInitiator, message)
           == if ok then ReadScript(s, View(), tail, asInitiator, message[offset..])
              else Progress(View(), message[offset..], false)
      ensures stepsTotal == old(stepsTotal)
      ensures ok ==> symmetric.cipher.hasKey && symmetric.cipher.n == 0
      ensures View().(sym := old(View()).sym, re := old(re)) == old(View())
    {
      assert message[0..] == message;
      ok, offset := ReadE(s, message, 0);
      if !ok { return; }
      ok := MixDh(s, sk, re);
    }

    /** The tail `read_encrypted_static(); mix_dh(sk, rs_)`. */
    method ReadStaticThenDh(s: Suite, message: Bytes, offset: nat, sk: Key, ghost t: Token, ghost asInitiator: bool)
      returns (ok: bool, offset': nat)
      requires offset <= |message| && IsDh(t)
      requires symmetric.cipher.hasKey && symmetric.cipher.MayAdvance()
      requires OwnKind(t, !asInitiator) == Static && sk == Secret(View(), OwnKind(t, asInitiator))
      modifies this, symmetric, symmetric.cipher
      ensures offset' <= |message|
      ensures Progress(View(), message[offset'..], ok)
           == ReadScript(s, old(View()), Then(S, Then(t, Done)), asInitiator, message[offset..])
      ensures stepsTotal == old(stepsTotal) && (ok ==> symmetric.cipher.MayAdvance())
    {
      ok, offset' := ReadEncryptedStatic(s, message, offset);
      if !ok { return; }
      ok := MixDh(s, sk, rs);
    }

    /** The switch of `read_message`. */
    method ReadTokens(s: Suite, message: Bytes) returns (ok: bool, offset: nat)
      requires Valid() && !IsComplete() && NeverWraps()
      modifies this, symmetric, symmetric.cipher
      ensures offset <= |message|
      ensures Progress(View(), message[offset..], ok) == ReadHead(s, old(View()), message)
      ensures stepsTotal == old(stepsTotal) && (ok ==> symmetric.cipher.MayAdvance())
    {
      if step == 0 {
        ok, offset := ReadFirst(s, message);
      } else if step == 1 {
        ok, offset := ReadSecond(s, message);
      } else {
        assert message[0..] == message;
        ok, offset := ReadStaticThenDh(s, message, 0, eSk, SE, false);
      }
    }

    method ReadFirst(s: Suite, message: Bytes) returns (ok: bool, offset: nat)
      requires step == 0 && (pattern == XX ==> symmetric.cipher.MayAdvance())
      modifies this, symmetric, symmetric.cipher
      ensures offset <= |message|
      ensures Progress(View(), message[offset..], ok) == ReadHead(s, old(View()), message)
      ensures stepsTotal == old(stepsTotal) && (ok ==> symmetric.cipher.MayAdvance())
    {
      if pattern == IK {
        ok, offset := ReadEThenDh(s, message, sSk, ES, false, Then(S, Then(SS, Done)));
        if !ok { return; }
        ok, offset := ReadStaticThenDh(s, message, offset, sSk, SS, false);
      } else {
        assert message[0..] == message;
        ok, offset := ReadE(s, message, 0);
      }
    }

    method ReadSecond(s: Suite, message: Bytes) returns (ok: bool, offset: nat)
      requires step == 1
      modifies this, symmetric, symmetric.cipher
      ensures offset <= |message|
      ensures Progress(View(), message[offset..], ok) == ReadHead(s, old(View()), message)
      ensures stepsTotal == old(stepsTotal) && (ok ==> symmetric.cipher.MayAdvance())
    {
      hide WithKey, WithHash, Unhide;
      if pattern == IK {
        ok, offset := ReadEThenDh(s, message, eSk, EE, true, Then(ES, Done));
        if !ok { return; }
        ok := MixDh(s, eSk, rs);
      } else {
        ok, offset := ReadEThenDh(s, message, eSk, EE, true, Then(S, Then(ES, Done)));
        if !ok { return; }
        ok, offset := ReadStaticThenDh(s, message, offset, eSk, ES, true);
      }
    }

    method DecryptPayload(s: Suite, rest: Bytes) returns (plain: Option<Bytes>)
      requires symmetric.cipher.MayAdvance()
      modifies this, symmetric, symmetric.cipher
      ensures (View(), plain) == FinishRead(s, Progress(old(View()), rest, true))
      ensures stepsTotal == old(stepsTotal)
    {
      plain := symmetric.DecryptAndHash(s, rest);
      if plain.None? {
        return;
      }
      step := step + 1;
    }

    method ReadMessage(s: Suite, message: Bytes) returns (plain: Option<Bytes>)
      requires Valid() && NeverWraps()
      modifies this, symmetric, symmetric.cipher
      ensures Valid()
      ensures (View(), plain) == Read(s, old(View()), message)
    {
      ReadKeepsKeyPresence(s, View(), message);
      if IsComplete() {
        return None;
      }
      var ok, offset := ReadTokens(s, message);
      if !ok {
        return None;
      }
      plain := DecryptPayload(s, message[offset..]);
    }

    /** The initiator sends on the first derived key, the responder on the second. */
    method SplitByRole(s: Suite) returns (send: CipherState, recv: CipherState)
      modifies symmetric
      ensures fresh(send) && fresh(recv) && send != recv
      ensures (send.View(), recv.View()) == TransportCiphers(s, old(View()))
      ensures symmetric.View() == old(symmetric.View()).(ck := ZERO_DIGEST)
    {
      var first, second := symmetric.Split(s);
      if initiator {
        send := new CipherState.MoveFrom(first);
        recv := new CipherState.MoveFrom(second);
      } else {
        send := new CipherState.MoveFrom(second);
        recv := new CipherState.MoveFrom(first);
      }
    }

    /** The chaining key and four DH buffers are wiped; `h`, `sPk`, `rs` and the keyed handshake cipher stay. */
    method Split(s: Suite) returns (send: CipherState, recv: CipherState)
      modifies this, symmetric
      ensures fresh(send) && fresh(recv) && send != recv
      ensures (send.View(), recv.View()) == TransportCiphers(s, old(View()))
      ensures View() == Spent(old(View())) && stepsTotal == old(stepsTotal)
    {
      send, recv := SplitByRole(s);
      sSk, eSk, ePk, re := ZERO_KEY, ZERO_KEY, ZERO_KEY, ZERO_KEY;
    }

    method WipeDhArrays()
      modifies `sSk, `sPk, `eSk, `ePk, `rs, `re
      ensures sSk == sPk == eSk == ePk == rs == re == ZERO_KEY
    {
      sSk, sPk, eSk, ePk, rs, re := ZERO_KEY, ZERO_KEY, ZERO_KEY, ZERO_KEY, ZERO_KEY, ZERO_KEY;
    }

    constructor MoveFrom(other: HandshakeState)
      modifies other, other.symmetric, other.symmetric.cipher
      ensures fresh(symmetric) && fresh(symmetric.cipher)
      ensures View() == old(other.View()) && stepsTotal == old(other.stepsTotal)
      ensures other.View() == MovedFrom(old(other.View()))
      ensures other.sSk == other.sPk == other.eSk == other.ePk == other.rs == other.re == Zeros(32)
      ensures other.symmetric.ck == other.symmetric.h == Zeros(64) && other.symmetric.cipher.k == Zeros(32)
    {
      pattern, initiator, step, stepsTotal := other.pattern, other.initiator, other.step, other.stepsTotal;
      sSk, sPk, eSk, ePk := other.sSk, other.sPk, other.eSk, other.ePk;
      rs, re, rsKnown := other.rs, other.re, other.rsKnown;
      symmetric := new SymmetricState.MoveFrom(other.symmetric);
      new;
      other.WipeDhArrays();
    }

    /** Each object owns its symmetric state and cipher, as embedded members do. */
    method MoveAssign(other: HandshakeState)
      requires other != this ==> other.symmetric != symmetric && other.symmetric.cipher != symmetric.cipher
      modifies this, symmetric, symmetric.cipher, other, other.symmetric, other.symmetric.cipher
      ensures View() == old(other.View()) && stepsTotal == old(other.stepsTotal)
      ensures other != this ==> other.View() == MovedFrom(old(other.View()))
      ensures other != this ==>
                && other.sSk == other.sPk == other.eSk == other.ePk == other.rs == other.re == Zeros(32)
                && other.symmetric.ck == other.symmetric.h == Zeros(64) && other.symmetric.cipher.k == Zeros(32)
    {
      if this != other {
        WipeDhArrays();
        TakeFields(other);
        symmetric.MoveAssign(other.symmetric);
        other.WipeDhArrays();
      }
    }

    method TakeFields(other: HandshakeState)
      modifies this
      ensures (pattern, initiator, step, stepsTotal)
           == old((other.pattern, other.initiator, other.step, other.stepsTotal))
      ensures (sSk, sPk, eSk, ePk) == old((other.sSk, other.sPk, other.eSk, other.ePk))
      ensures (rs, re, rsKnown) == old((other.rs, other.re, other.rsKnown))
    {
      pattern, initiator, step, stepsTotal := other.pattern, other.initiator, other.step, other.stepsTotal;
      sSk, sPk, eSk, ePk := other.sSk, other.sPk, other.eSk, other.ePk;
      rs, re, rsKnown := other.rs, other.re, other.rsKnown;
    }
  }
}
