/**
 Transcript binding.  In every reachable party the handshake hash is the fold of
 the mixed strings over the protocol name.  Under an ideal hash and AEAD, a
 keyed party accepts a peer's ciphertext only if both have the same transcript;
 when every call succeeded, that means the same pattern, the same pre-message
 and the same wire messages, byte for byte.
 */
module Binding {
  import opened Octets
  import opened Primitives
  import opened CipherStates
  import opened SymmetricStates
  import opened Handshakes
  import opened HandshakeRuns
  import opened Agreement

  // ---- The hash is a fold of the log ----

  function Start(s: Suite, pattern: Pattern): Digest {
    InitialHash(s, ProtocolName(pattern))
  }

  /** A step of the symmetric state that keeps the fold and only appends to the log. */
  ghost predicate Chains(s: Suite, start: Digest, y: Symmetric, y': Symmetric) {
    Bound(s, start, y) ==> Bound(s, start, y') && y.log <= y'.log
  }

  lemma HashChains(s: Suite, start: Digest, y: Symmetric, data: Bytes)
    ensures Chains(s, start, y, WithHash(s, y, data))
  {
    if Bound(s, start, y) {
      BoundStep(s, start, y, data);
    }
  }

  lemma HideChains(s: Suite, start: Digest, y: Symmetric, text: Bytes)
    ensures Chains(s, start, y, Hide(s, y, text).0)
    ensures Chains(s, start, y, Unhide(s, y, text).0)
  {
    HashChains(s, start, y.(cipher := Encrypt(s, y.cipher, y.h, text).0), Encrypt(s, y.cipher, y.h, text).1);
    HashChains(s, start, y.(cipher := Decrypt(s, y.cipher, y.h, text).0), text);
  }

  lemma WriteTokenChains(s: Suite, start: Digest, p: Party, t: Token, asInitiator: bool, eph: Key, out: Bytes)
    ensures Chains(s, start, p.sym, WriteToken(s, p, t, asInitiator, eph, out).party.sym)
  {
    match t
    case E => HashChains(s, start, p.sym, s.pub(eph));
    case S => HideChains(s, start, p.sym, p.sPk);
    case _ =>
  }

  lemma ReadTokenChains(s: Suite, start: Digest, p: Party, t: Token, asInitiator: bool, input: Bytes)
    ensures Chains(s, start, p.sym, ReadToken(s, p, t, asInitiator, input).party.sym)
  {
    match t
    case E =>
      if |input| >= KEY_BYTES {
        HashChains(s, start, p.sym, KeyOf(input));
      }
    case S =>
      var len := KEY_BYTES + if p.sym.cipher.hasKey then TAG_BYTES else 0;
      if |input| >= len {
        HideChains(s, start, p.sym, input[..len]);
      }
    case _ =>
  }

  lemma {:induction false} WriteScriptChains(s: Suite, start: Digest, p: Party, script: Script, asInitiator: bool,
                                             eph: Key, out: Bytes)
    ensures Chains(s, start, p.sym, WriteScript(s, p, script, asInitiator, eph, out).party.sym)
    decreases script
  {
    match script
    case Done =>
    case Then(t, rest) =>
      WriteTokenChains(s, start, p, t, asInitiator, eph, out);
      var w := WriteToken(s, p, t, asInitiator, eph, out);
      WriteScriptChains(s, start, w.party, rest, asInitiator, eph, w.bytes);
  }

  lemma {:induction false} ReadScriptChains(s: Suite, start: Digest, p: Party, script: Script, asInitiator: bool,
                                            input: Bytes)
    ensures Chains(s, start, p.sym, ReadScript(s, p, script, asInitiator, input).party.sym)
    decreases script
  {
    match script
    case Done =>
    case Then(t, rest) =>
      ReadTokenChains(s, start, p, t, asInitiator, input);
      var r := ReadToken(s, p, t, asInitiator, input);
      ReadScriptChains(s, start, r.party, rest, asInitiator, r.bytes);
  }

  lemma CallChains(s: Suite, start: Digest, p: Party, c: Call)
    ensures Chains(s, start, p.sym, Apply(s, p, c).0.sym)
  {
    if !Complete(p) {
      var script := ScriptOf(p.pattern, p.step);
      match c
      case WriteCall(eph, payload) =>
        WriteScriptChains(s, start, p, script, ActsAsInitiator(p.step, true), eph, []);
        HideChains(s, start, WriteHead(s, p, eph).party.sym, payload);
      case ReadCall(message) =>
        ReadScriptChains(s, start, p, script, ActsAsInitiator(p.step, false), message);
        HideChains(s, start, ReadHead(s, p, message).party.sym, ReadHead(s, p, message).bytes);
    }
  }

  /** Over any run, failed calls included, the hash stays the fold of a transcript that only grows. */
  lemma {:induction false} RunChains(s: Suite, start: Digest, p: Party, calls: seq<Call>)
    ensures Chains(s, start, p.sym, Run(s, p, calls).0.sym)
    decreases |calls|
  {
    if calls != [] {
      CallChains(s, start, p, calls[0]);
      RunChains(s, start, Apply(s, p, calls[0]).0, calls[1..]);
    }
  }

  // ---- Acceptance binds the transcript ----

  lemma NameOctets(p: Pattern)
    ensures 6 < |ProtocolName(p)| <= HASHLEN && ProtocolName(p)[0].Byte?
    ensures ProtocolName(p)[6] == if p.XX? then Byte('X' as int) else Byte('I' as int)
  {
    match p
    case XX =>
      assert "Noise_XX_25519_ChaChaPoly_BLAKE2b"[6] == 'X';
      assert Ascii("Noise_XX_25519_ChaChaPoly_BLAKE2b")[6] == Byte('X' as int);
    case IK =>
      assert "Noise_IK_25519_ChaChaPoly_BLAKE2b"[6] == 'I';
      assert Ascii("Noise_IK_25519_ChaChaPoly_BLAKE2b")[6] == Byte('I' as int);
  }

  lemma StartsArePlainAndDistinct(s: Suite)
    ensures Start(s, XX)[0].Byte? && Start(s, IK)[0].Byte?
    ensures Start(s, XX) != Start(s, IK)
  {
    hide ProtocolName;
    NameOctets(XX);
    NameOctets(IK);
    assert Start(s, XX)[6] == ProtocolName(XX)[6];
    assert Start(s, IK)[6] == ProtocolName(IK)[6];
  }

  /** One side's keyed ciphertext, accepted by the other: same start, transcript, hash, key and counter. */
  lemma AcceptanceBinds(s: Suite, pa: Pattern, a: Symmetric, pb: Pattern, b: Symmetric, plaintext: Bytes)
    requires Ideal(s)
    requires Bound(s, Start(s, pa), a) && Bound(s, Start(s, pb), b)
    requires a.cipher.hasKey && b.cipher.hasKey && a.cipher.n <= MAX_NONCE && b.cipher.n <= MAX_NONCE
    requires Unhide(s, b, Hide(s, a, plaintext).1).1.Some?
    ensures pa == pb && a.log == b.log && a.h == b.h && a.cipher == b.cipher
    ensures Unhide(s, b, Hide(s, a, plaintext).1).1 == Some(plaintext)
  {
    var na, nb := WireNonceOf(a.cipher.n), WireNonceOf(b.cipher.n);
    var ct := s.seal(a.cipher.k, na, a.h, plaintext);
    assert s.unseal(b.cipher.k, nb, b.h, ct).Some?;
    WireNonceInjective(a.cipher.n, b.cipher.n);
    StartsArePlainAndDistinct(s);
    FoldInjective(s, Start(s, pa), a.log, Start(s, pb), b.log);
  }

  // ---- The transcript of successful calls is the wire ----

  function Flatten(pieces: seq<Bytes>): Bytes {
    if pieces == [] then [] else pieces[0] + Flatten(pieces[1..])
  }

  /** Cut a message where the tokens of a script end; the second part is what follows them. */
  function Cut(script: Script, keyed: bool, m: Bytes): (seq<Bytes>, Bytes) {
    match script
    case Done => ([], m)
    case Then(t, rest) =>
      if IsDh(t) then Cut(rest, true, m)
      else if |m| < TokenLength(t, keyed) then ([], m)
      else
        var (pieces, tail) := Cut(rest, keyed, m[TokenLength(t, keyed)..]);
        ([m[..TokenLength(t, keyed)]] + pieces, tail)
  }

  /** The number of tokens that appear on the wire. */
  function Fields(script: Script): nat {
    match script
    case Done => 0
    case Then(t, rest) => (if IsDh(t) then 0 else 1) + Fields(rest)
  }

  lemma {:induction false} CutLosesNothing(script: Script, keyed: bool, m: Bytes)
    ensures Flatten(Cut(script, keyed, m).0) + Cut(script, keyed, m).1 == m
    decreases script
  {
    match script
    case Done =>
    case Then(t, rest) =>
      if IsDh(t) {
        CutLosesNothing(rest, true, m);
      } else if |m| >= TokenLength(t, keyed) {
        CutLosesNothing(rest, keyed, m[TokenLength(t, keyed)..]);
        var (pieces, tail) := Cut(rest, keyed, m[TokenLength(t, keyed)..]);
        assert ([m[..TokenLength(t, keyed)]] + pieces)[1..] == pieces;
      }
  }

  lemma ReadTokenField(s: Suite, p: Party, t: Token, asInitiator: bool, input: Bytes)
    requires ReadToken(s, p, t, asInitiator, input).ok
    ensures var r, n := ReadToken(s, p, t, asInitiator, input), TokenLength(t, p.sym.cipher.hasKey);
            && r.party.sym.cipher.hasKey == (p.sym.cipher.hasKey || IsDh(t))
            && n <= |input| && r.bytes == input[n..]
            && r.party.sym.log == p.sym.log + if IsDh(t) then [] else [input[..n]]
  {
  }

  lemma WriteTokenField(s: Suite, p: Party, t: Token, asInitiator: bool, eph: Key)
    requires WriteToken(s, p, t, asInitiator, eph, []).ok
    ensures var w, sent := WriteToken(s, p, t, asInitiator, eph, []), Emitted(s, p, t, eph);
            && w.party.sym.cipher.hasKey == (p.sym.cipher.hasKey || IsDh(t))
            && |sent| == TokenLength(t, p.sym.cipher.hasKey)
            && w.party.sym.log == p.sym.log + if IsDh(t) then [] else [sent]
  {
  }

  lemma CutField(t: Token, rest: Script, keyed: bool, sent: Bytes, m: Bytes)
    requires |sent| == TokenLength(t, keyed)
    ensures var cut := Cut(rest, keyed || IsDh(t), m);
            Cut(Then(t, rest), keyed, sent + m) == ((if IsDh(t) then [] else [sent]) + cut.0, cut.1)
  {
    assert (sent + m)[..|sent|] == sent && (sent + m)[|sent|..] == m;
    if IsDh(t) {
      assert sent + m == m;
      assert [] + Cut(rest, true, m).0 == Cut(rest, true, m).0;
    }
  }

  /** `q` is `p` after a script whose fields are the first of `m`, with `rest` behind them. */
  ghost predicate Mixed(script: Script, p: Symmetric, q: Symmetric, m: Bytes, rest: Bytes) {
    var cut := Cut(script, p.cipher.hasKey, m);
    && q.log == p.log + cut.0 && rest == cut.1 && |cut.0| == Fields(script)
    && q.cipher.hasKey == (p.cipher.hasKey || HasDh(script))
  }

  /** One token more in front. */
  lemma MixedStep(t: Token, script: Script, p: Symmetric, p1: Symmetric, q: Symmetric,
                  sent: Bytes, m: Bytes, rest: Bytes)
    requires Mixed(script, p1, q, m, rest) && |sent| == TokenLength(t, p.cipher.hasKey)
    requires p1.cipher.hasKey == (p.cipher.hasKey || IsDh(t)) && p1.log == p.log + if IsDh(t) then [] else [sent]
    ensures Mixed(Then(t, script), p, q, sent + m, rest)
  {
    CutField(t, script, p.cipher.hasKey, sent, m);
    var fields := Cut(script, p1.cipher.hasKey, m).0;
    hide Cut, TokenLength;
    assert p1.log + fields == p.log + ((if IsDh(t) then [] else [sent]) + fields);
  }

  lemma MixedNothing(p: Symmetric, m: Bytes)
    ensures Mixed(Done, p, p, m, m)
  {
  }

  lemma {:induction false} ReadScriptFields(s: Suite, p: Party, script: Script, asInitiator: bool, input: Bytes)
    requires ReadScript(s, p, script, asInitiator, input).ok
    ensures var r := ReadScript(s, p, script, asInitiator, input); Mixed(script, p.sym, r.party.sym, input, r.bytes)
    decreases script
  {
    hide ReadToken, TokenLength, Mixed;
    match script
    case Done => MixedNothing(p.sym, input);
    case Then(t, rest) =>
      var r, n := ReadToken(s, p, t, asInitiator, input), TokenLength(t, p.sym.cipher.hasKey);
      ReadTokenField(s, p, t, asInitiator, input);
      ReadScriptFields(s, r.party, rest, asInitiator, r.bytes);
      var q := ReadScript(s, r.party, rest, asInitiator, r.bytes);
      MixedStep(t, rest, p.sym, r.party.sym, q.party.sym, input[..n], input[n..], q.bytes);
      assert input[..n] + input[n..] == input;
  }

  lemma {:induction false} WriteScriptFields(s: Suite, p: Party, script: Script, asInitiator: bool,
                                             eph: Key, rest: Bytes)
    requires WriteScript(s, p, script, asInitiator, eph, []).ok
    ensures var w := WriteScript(s, p, script, asInitiator, eph, []);
            Mixed(script, p.sym, w.party.sym, w.bytes + rest, rest)
    decreases script
  {
    hide WriteToken, Emitted, TokenLength, Mixed;
    match script
    case Done =>
      MixedNothing(p.sym, rest);
      assert [] + rest == rest;
    case Then(t, tail) =>
      ScriptUnfolds(s, p, t, tail, asInitiator, eph);
      WriteTokenField(s, p, t, asInitiator, eph);
      var sent, p1 := Emitted(s, p, t, eph), WriteToken(s, p, t, asInitiator, eph, []).party;
      var w := WriteScript(s, p1, tail, asInitiator, eph, []);
      WriteScriptFields(s, p1, tail, asInitiator, eph, rest);
      MixedStep(t, tail, p.sym, p1.sym, w.party.sym, sent, w.bytes + rest, rest);
      assert (sent + w.bytes) + rest == sent + (w.bytes + rest);
  }

  /** Whether a party that has had no failure holds a key at a step. */
  predicate KeyedAt(pattern: Pattern, step: nat) {
    step >= if pattern.XX? then 2 else 1
  }

  function Pieces(pattern: Pattern, step: nat, m: Bytes): seq<Bytes> {
    var (fields, payload) := Cut(ScriptOf(pattern, step), KeyedAt(pattern, step), m);
    fields + [payload]
  }

  /** A message long enough for all the fields of its step. */
  predicate Whole(pattern: Pattern, step: nat, m: Bytes) {
    |Pieces(pattern, step, m)| == Fields(ScriptOf(pattern, step)) + 1
  }

  lemma FlattenAppend(xs: seq<Bytes>, y: Bytes)
    ensures Flatten(xs + [y]) == Flatten(xs) + y
    decreases |xs|
  {
    if xs == [] {
      assert [y][1..] == [];
    } else {
      FlattenAppend(xs[1..], y);
      assert (xs + [y])[1..] == xs[1..] + [y];
    }
  }

  lemma PiecesLoseNothing(pattern: Pattern, step: nat, m: Bytes)
    ensures Flatten(Pieces(pattern, step, m)) == m
  {
    CutLosesNothing(ScriptOf(pattern, step), KeyedAt(pattern, step), m);
    var (fields, payload) := Cut(ScriptOf(pattern, step), KeyedAt(pattern, step), m);
    FlattenAppend(fields, payload);
  }

  /** The wire message of a successful call: what a write returned, what a read was given. */
  function WireOf(s: Suite, p: Party, c: Call): Bytes
    requires Apply(s, p, c).1.Some?
  {
    match c case WriteCall(_, _) => Apply(s, p, c).1.value case ReadCall(message) => message
  }

  /** A successful call mixes exactly the pieces of its wire message. */
  lemma CallPieces(s: Suite, p: Party, c: Call)
    requires p.sym.cipher.hasKey == KeyedAt(p.pattern, p.step)
    requires Apply(s, p, c).1.Some?
    ensures var p' := Apply(s, p, c).0;
            && p'.sym.log == p.sym.log + Pieces(p.pattern, p.step, WireOf(s, p, c))
            && Whole(p.pattern, p.step, WireOf(s, p, c))
            && p'.sym.cipher.hasKey == KeyedAt(p.pattern, p.step + 1)
  {
    hide WriteScript, ReadScript, Cut, HasDh, Fields;
    var script := ScriptOf(p.pattern, p.step);
    DhInTables(p.pattern, p.step);
    match c
    case WriteCall(eph, payload) =>
      var head := WriteHead(s, p, eph);
      WriteScriptFields(s, p, script, ActsAsInitiator(p.step, true), eph, Hide(s, head.party.sym, payload).1);
    case ReadCall(message) =>
      ReadScriptFields(s, p, script, ActsAsInitiator(p.step, false), message);
  }

  // ---- Runs without failure ----

  ghost predicate Clean(s: Suite, p: Party, calls: seq<Call>) {
    Run(s, p, calls).1 == |calls|
  }

  lemma {:induction false} RunValues(s: Suite, p: Party, calls: seq<Call>)
    ensures Run(s, p, calls).1 <= |calls|
    decreases |calls|
  {
    if calls != [] {
      RunValues(s, Apply(s, p, calls[0]).0, calls[1..]);
    }
  }

  /** The messages of a run, in order. */
  function Wire(s: Suite, p: Party, calls: seq<Call>): seq<Bytes>
    decreases |calls|
  {
    if calls == [] || Apply(s, p, calls[0]).1.None? then []
    else [WireOf(s, p, calls[0])] + Wire(s, Apply(s, p, calls[0]).0, calls[1..])
  }

  function Transcript(pattern: Pattern, step: nat, messages: seq<Bytes>): seq<Bytes>
    decreases |messages|
  {
    if messages == [] then []
    else Pieces(pattern, step, messages[0]) + Transcript(pattern, step + 1, messages[1..])
  }

  predicate AllWhole(pattern: Pattern, step: nat, messages: seq<Bytes>)
    decreases |messages|
  {
    messages != [] ==> Whole(pattern, step, messages[0]) && AllWhole(pattern, step + 1, messages[1..])
  }

  lemma {:induction false} CleanRunLog(s: Suite, p: Party, calls: seq<Call>)
    requires KeyPresence(p) && p.sym.cipher.hasKey == KeyedAt(p.pattern, p.step)
    requires Clean(s, p, calls)
    ensures |Wire(s, p, calls)| == |calls| && AllWhole(p.pattern, p.step, Wire(s, p, calls))
    ensures Run(s, p, calls).0.sym.log == p.sym.log + Transcript(p.pattern, p.step, Wire(s, p, calls))
    ensures var q := Run(s, p, calls).0; q.sym.cipher.hasKey == KeyedAt(q.pattern, q.step)
    decreases |calls|
  {
    hide Apply, Pieces, Whole;
    if calls != [] {
      var p1 := Apply(s, p, calls[0]).0;
      RunValues(s, p1, calls[1..]);
      CallSteps(s, p, calls[0]);
      CallPieces(s, p, calls[0]);
      CleanRunLog(s, p1, calls[1..]);
      var m, rest := WireOf(s, p, calls[0]), Wire(s, p1, calls[1..]);
      assert ([m] + rest)[1..] == rest;
    }
  }

  lemma {:induction false} TranscriptInjective(pattern: Pattern, step: nat, xs: seq<Bytes>, ys: seq<Bytes>)
    requires AllWhole(pattern, step, xs) && AllWhole(pattern, step, ys)
    requires Transcript(pattern, step, xs) == Transcript(pattern, step, ys)
    ensures xs == ys
    decreases |xs|
  {
    if xs != [] && ys != [] {
      var px, py := Pieces(pattern, step, xs[0]), Pieces(pattern, step, ys[0]);
      var tx, ty := Transcript(pattern, step + 1, xs[1..]), Transcript(pattern, step + 1, ys[1..]);
      assert px == (px + tx)[..|px|] == (py + ty)[..|px|] == py;
      assert tx == (px + tx)[|px|..] == (py + ty)[|px|..] == ty;
      PiecesLoseNothing(pattern, step, xs[0]);
      PiecesLoseNothing(pattern, step, ys[0]);
      TranscriptInjective(pattern, step + 1, xs[1..], ys[1..]);
      assert xs == [xs[0]] + xs[1..] && ys == [ys[0]] + ys[1..];
    }
  }

  lemma {:induction false} TranscriptAppend(pattern: Pattern, step: nat, xs: seq<Bytes>, m: Bytes)
    requires AllWhole(pattern, step, xs) && Whole(pattern, step + |xs|, m)
    ensures AllWhole(pattern, step, xs + [m])
    ensures Transcript(pattern, step, xs + [m]) == Transcript(pattern, step, xs) + Pieces(pattern, step + |xs|, m)
    decreases |xs|
  {
    hide Pieces, Whole;
    if xs == [] {
      assert xs + [m] == [m] && [m][1..] == [];
    } else {
      TranscriptAppend(pattern, step + 1, xs[1..], m);
      assert (xs + [m])[1..] == xs[1..] + [m];
    }
  }

  // ---- The theorems ----

  /** A party no call has touched. */
  ghost predicate Untouched(s: Suite, p: Party) {
    && p.step == 0 && !p.sym.cipher.hasKey && p.sym.cipher.n == 0
    && Bound(s, Start(s, p.pattern), p.sym)
  }

  /** Name and prologue are bound from the start, and for IK the responder's static key. */
  lemma OpenIsUntouched(s: Suite, pattern: Pattern, initiator: bool, sSk: Key, sPk: Key, preKnown: Option<Key>)
    ensures var p := Open(s, pattern, initiator, sSk, sPk, preKnown);
            && Untouched(s, p) && KeyPresence(p) && p.pattern == pattern
            && p.sym.log == [PROLOGUE] + (if pattern.XX? then [] else if !initiator then [sPk]
                                          else if preKnown.None? then [] else [preKnown.value])
  {
    var y := Initial(s, ProtocolName(pattern));
    BoundStep(s, Start(s, pattern), y, PROLOGUE);
    var p := WithHash(s, y, PROLOGUE);
    BoundStep(s, Start(s, pattern), p, if initiator && preKnown.Some? then preKnown.value else sPk);
  }

  lemma Reached(s: Suite, p0: Party, calls: seq<Call>)
    requires Untouched(s, p0) && KeyPresence(p0)
    ensures var p := Run(s, p0, calls).0;
            && KeyPresence(p) && SameIdentity(p0, p) && Bound(s, Start(s, p.pattern), p.sym)
            && p0.sym.log <= p.sym.log
  {
    RunSteps(s, p0, calls);
    RunChains(s, Start(s, p0.pattern), p0, calls);
  }

  /** The payload ciphertext a successful call mixed last. */
  function LastPiece(p: Party): Bytes {
    if p.sym.log == [] then [] else p.sym.log[|p.sym.log| - 1]
  }

  lemma HeadIsBound(s: Suite, p: Party, c: Call)
    requires Bound(s, Start(s, p.pattern), p.sym) && !Complete(p)
    ensures var q := HeadOf(s, p, c).party;
            Bound(s, Start(s, p.pattern), q.sym) && p.sym.log <= q.sym.log
  {
    var script, start := ScriptOf(p.pattern, p.step), Start(s, p.pattern);
    match c
    case WriteCall(eph, _) => WriteScriptChains(s, start, p, script, ActsAsInitiator(p.step, true), eph, []);
    case ReadCall(message) => ReadScriptChains(s, start, p, script, ActsAsInitiator(p.step, false), message);
  }

  /** `a` writes and `b` accepts keyed messages with one payload ciphertext, both bound to their transcripts. */
  ghost predicate Qualifies(s: Suite, a: Party, b: Party, eph: Key, payload: Bytes, message: Bytes) {
    && KeyPresence(a) && KeyPresence(b)
    && Bound(s, Start(s, a.pattern), a.sym) && Bound(s, Start(s, b.pattern), b.sym)
    && !(a.pattern.XX? && a.step == 0) && !(b.pattern.XX? && b.step == 0)
    && Write(s, a, eph, payload).1.Some? && Read(s, b, message).1.Some?
    && LastPiece(Write(s, a, eph, payload).0) == LastPiece(Read(s, b, message).0)
  }

  /**
   Two parties after any runs, failures and foreign bytes included.  If one
   accepts a keyed message ending in the payload ciphertext the other produced,
   the patterns, the whole transcripts, hashes, keys and counters coincide.
   */
  lemma AcceptedMessageBinds(s: Suite, a: Party, b: Party, eph: Key, payload: Bytes, message: Bytes)
    requires Ideal(s) && Qualifies(s, a, b, eph, payload, message)
    ensures var (a', m) := Write(s, a, eph, payload);
            var (b', plain) := Read(s, b, message);
            && a.pattern == b.pattern && plain == Some(payload)
            && a'.sym.log == b'.sym.log && a'.sym.h == b'.sym.h && a'.sym.cipher == b'.sym.cipher
  {
    var qa, qb := WriteHead(s, a, eph), ReadHead(s, b, message);
    hide WriteHead, ReadHead, Start;
    PayloadIsKeyed(s, a, WriteCall(eph, payload));
    PayloadIsKeyed(s, b, ReadCall(message));
    HeadIsBound(s, a, WriteCall(eph, payload));
    HeadIsBound(s, b, ReadCall(message));
    assert Hide(s, qa.party.sym, payload).1 == qb.bytes;
    AcceptanceBinds(s, a.pattern, qa.party.sym, b.pattern, qb.party.sym, payload);
  }

  lemma {:induction false} ConverseIsBound(s: Suite, i: Party, r: Party, turns: seq<Turn>)
    requires Honest(s, i, r) && i.step + |turns| <= TotalSteps(i.pattern)
    requires Bound(s, Start(s, i.pattern), i.sym) && Converse(s, i, r, turns).written
    ensures Bound(s, Start(s, i.pattern), Converse(s, i, r, turns).i.sym)
    decreases |turns|
  {
    hide Honest, OneMessage, Bound, Start;
    if turns != [] {
      MessageAgreement(s, i, r, turns[0]);
      MessageIsBound(s, i, r, turns[0]);
      var first := OneMessage(s, i, r, turns[0]);
      ConverseIsBound(s, first.i, first.r, turns[1..]);
    }
  }

  lemma MessageIsBound(s: Suite, i: Party, r: Party, turn: Turn)
    requires Bound(s, Start(s, i.pattern), i.sym) && OneMessage(s, i, r, turn).written
    ensures Bound(s, Start(s, i.pattern), OneMessage(s, i, r, turn).i.sym)
  {
    hide Write, Read, Bound, Start;
    CallChains(s, Start(s, i.pattern), i, WriteCall(turn.eph, turn.payload));
    if i.step % 2 == 1 {
      CallChains(s, Start(s, i.pattern), i, ReadCall(Write(s, r, turn.eph, turn.payload).1.value));
    }
  }

  /** The next message of an honest pair, from whichever side writes it. */
  ghost predicate NextQualifies(s: Suite, i: Party, r: Party, turn: Turn) {
    var (w, r) := if i.step % 2 == 0 then (i, r) else (r, i);
    var m := Write(s, w, turn.eph, turn.payload).1;
    (m.Some? ==> Qualifies(s, w, r, turn.eph, turn.payload, m.value)) && (HonestDhSucceeds(s) ==> m.Some?)
  }

  lemma HonestPairQualifies(s: Suite, i: Party, r: Party, turn: Turn)
    requires Honest(s, i, r) && !Complete(i) && !(i.pattern.XX? && i.step == 0)
    requires Bound(s, Start(s, i.pattern), i.sym)
    ensures NextQualifies(s, i, r, turn)
  {
    hide Bound, Start, Write, Read, Linked, KeyPresence;
    MessageAgreement(s, i, r, turn);
  }

  /** Every message of an honest conversation but the first of XX, which is not keyed, meets the hypotheses. */
  lemma HonestMessagesQualify(s: Suite, pattern: Pattern, si: Key, sr: Key, turns: seq<Turn>, turn: Turn)
    requires |turns| < TotalSteps(pattern) && (pattern.XX? ==> turns != [])
    ensures var i := Open(s, pattern, true, si, s.pub(si), if pattern.IK? then Some(s.pub(sr)) else None);
            var talk := Converse(s, i, Open(s, pattern, false, sr, s.pub(sr), None), turns);
            && (HonestDhSucceeds(s) ==> talk.written)
            && (talk.written ==> talk.i.step == |turns| && NextQualifies(s, talk.i, talk.r, turn))
  {
    var i := Open(s, pattern, true, si, s.pub(si), if pattern.IK? then Some(s.pub(sr)) else None);
    var r := Open(s, pattern, false, sr, s.pub(sr), None);
    OpenIsHonest(s, pattern, si, sr);
    OpenIsUntouched(s, pattern, true, si, s.pub(si), if pattern.IK? then Some(s.pub(sr)) else None);
    hide Open, Converse, Bound, Start, Honest, NextQualifies;
    ConverseAgrees(s, i, r, turns);
    var talk := Converse(s, i, r, turns);
    if talk.written {
      ConverseIsBound(s, i, r, turns);
      HonestPairQualifies(s, talk.i, talk.r, turn);
    }
  }

  /**
   When moreover no call failed on either side and the transcripts began with the
   same number of strings, the two sides saw the same messages: the same number of
   them, each byte for byte, this one included, and the same pre-message.
   */
  lemma EqualStartsBindWire(s: Suite, a0: Party, ca: seq<Call>, b0: Party, cb: seq<Call>,
                            eph: Key, payload: Bytes, message: Bytes)
    requires Ideal(s)
    requires Untouched(s, a0) && KeyPresence(a0) && Untouched(s, b0) && KeyPresence(b0)
    requires |a0.sym.log| == |b0.sym.log|
    requires Clean(s, a0, ca) && Clean(s, b0, cb)
    requires var a, b := Run(s, a0, ca).0, Run(s, b0, cb).0;
             && !(a.pattern.XX? && a.step == 0) && !(b.pattern.XX? && b.step == 0)
             && Write(s, a, eph, payload).1.Some? && Read(s, b, message).1.Some?
             && LastPiece(Write(s, a, eph, payload).0) == LastPiece(Read(s, b, message).0)
    ensures a0.pattern == b0.pattern && a0.sym.log == b0.sym.log
    ensures Run(s, a0, ca).0.step == Run(s, b0, cb).0.step
    ensures Wire(s, a0, ca) == Wire(s, b0, cb)
    ensures Write(s, Run(s, a0, ca).0, eph, payload).1 == Some(message)
  {
    var a, b := Run(s, a0, ca).0, Run(s, b0, cb).0;
    Reached(s, a0, ca);
    Reached(s, b0, cb);
    AcceptedMessageBinds(s, a, b, eph, payload, message);
    var m := Write(s, a, eph, payload).1.value;
    CleanLogAfter(s, a0, ca, WriteCall(eph, payload));
    CleanLogAfter(s, b0, cb, ReadCall(message));
    hide Run, Wire, Write, Read, Transcript, AllWhole, Untouched, KeyPresence, Clean;
    SameLogSameWire(a0.pattern, a0.sym.log, Wire(s, a0, ca), m, b0.sym.log, Wire(s, b0, cb), message);
  }

  lemma SameLogSameWire(pattern: Pattern, la: seq<Bytes>, xs: seq<Bytes>, x: Bytes,
                        lb: seq<Bytes>, ys: seq<Bytes>, y: Bytes)
    requires |la| == |lb| && AllWhole(pattern, 0, xs + [x]) && AllWhole(pattern, 0, ys + [y])
    requires la + Transcript(pattern, 0, xs + [x]) == lb + Transcript(pattern, 0, ys + [y])
    ensures la == lb && xs == ys && x == y
  {
    hide AllWhole, Transcript;
    var tx, ty := Transcript(pattern, 0, xs + [x]), Transcript(pattern, 0, ys + [y]);
    assert la == (la + tx)[..|la|] == (lb + ty)[..|la|] == lb;
    assert tx == (la + tx)[|la|..] == (lb + ty)[|la|..] == ty;
    TranscriptInjective(pattern, 0, xs + [x], ys + [y]);
    assert xs == (xs + [x])[..|xs|] && ys == (ys + [y])[..|ys|] && |xs + [x]| == |ys + [y]|;
    assert x == (xs + [x])[|xs|] && y == (ys + [y])[|ys|];
  }

  /** The transcript after a clean run and one more successful call is the run's wire and that message. */
  lemma CleanLogAfter(s: Suite, p0: Party, calls: seq<Call>, c: Call)
    requires Untouched(s, p0) && KeyPresence(p0) && Clean(s, p0, calls)
    requires Apply(s, Run(s, p0, calls).0, c).1.Some?
    ensures var p, wire := Run(s, p0, calls).0, Wire(s, p0, calls);
            var all := wire + [WireOf(s, p, c)];
            && p.step == |wire| == |calls|
            && AllWhole(p0.pattern, 0, all)
            && Apply(s, p, c).0.sym.log == p0.sym.log + Transcript(p0.pattern, 0, all)
  {
    hide Apply, Run, Wire, Transcript, AllWhole, Pieces, Whole, WireOf, Bound, Start, KeyPresence, TotalSteps;
    var p, wire := Run(s, p0, calls).0, Wire(s, p0, calls);
    RunSteps(s, p0, calls);
    CleanRunLog(s, p0, calls);
    CallPieces(s, p, c);
    TranscriptAppend(p0.pattern, 0, wire, WireOf(s, p, c));
    var before, pieces := Transcript(p0.pattern, 0, wire), Pieces(p0.pattern, p.step, WireOf(s, p, c));
    assert p0.sym.log + before + pieces == p0.sym.log + (before + pieces);
  }

  // ---- Opened parties ----

  /** What a party is opened with. */
  datatype Setup = Setup(pattern: Pattern, initiator: bool, sSk: Key, sPk: Key, preKnown: Option<Key>)

  function OpenAs(s: Suite, x: Setup): Party {
    Open(s, x.pattern, x.initiator, x.sSk, x.sPk, x.preKnown)
  }

  /** What opening hashes after the prologue. */
  function PreMessage(x: Setup): seq<Bytes> {
    if x.pattern.XX? then [] else if !x.initiator then [x.sPk]
    else if x.preKnown.None? then [] else [x.preKnown.value]
  }

  lemma OpenAsIsUntouched(s: Suite, x: Setup)
    ensures var p := OpenAs(s, x);
            && Untouched(s, p) && KeyPresence(p) && p.pattern == x.pattern && p.sym.log == [PROLOGUE] + PreMessage(x)
            && 1 <= |p.sym.log| <= if x.pattern.XX? then 1 else 2
  {
    OpenIsUntouched(s, x.pattern, x.initiator, x.sSk, x.sPk, x.preKnown);
    hide Open, Untouched, KeyPresence;
  }

  lemma PreMessagesAgree(x: Setup, y: Setup)
    requires [PROLOGUE] + PreMessage(x) == [PROLOGUE] + PreMessage(y) && x.pattern == y.pattern == IK
    ensures x.initiator && !y.initiator ==> x.preKnown == Some(y.sPk)
    ensures !x.initiator && y.initiator ==> y.preKnown == Some(x.sPk)
  {
    var px, py := PreMessage(x), PreMessage(y);
    assert px == ([PROLOGUE] + px)[1..] == ([PROLOGUE] + py)[1..] == py;
    assert !x.initiator ==> px == [x.sPk];
    assert !y.initiator ==> py == [y.sPk];
  }

  /** The number of strings `n` messages add to a transcript. */
  function PieceCount(pattern: Pattern, n: nat): nat {
    match pattern
    case XX => if n == 0 then 0 else if n == 1 then 2 else if n == 2 then 5 else 7
    case IK => if n == 0 then 0 else if n == 1 then 3 else 5
  }

  lemma FieldCount(pattern: Pattern, step: nat)
    requires step < TotalSteps(pattern)
    ensures PieceCount(pattern, step + 1) == PieceCount(pattern, step) + Fields(ScriptOf(pattern, step)) + 1
  {
    assert Fields(Then(ES, Done)) == Fields(Then(SE, Done)) == Fields(Then(SS, Done)) == 0;
    assert Fields(Then(S, Then(ES, Done))) == Fields(Then(S, Then(SS, Done))) == 1;
    assert Fields(Then(EE, Then(ES, Done))) == 0;
    assert Fields(Then(EE, Then(S, Then(ES, Done)))) == Fields(Then(ES, Then(S, Then(SS, Done)))) == 1;
  }

  lemma {:induction false} TranscriptLength(pattern: Pattern, step: nat, messages: seq<Bytes>)
    requires step + |messages| <= TotalSteps(pattern) && AllWhole(pattern, step, messages)
    ensures |Transcript(pattern, step, messages)| == PieceCount(pattern, step + |messages|) - PieceCount(pattern, step)
    decreases |messages|
  {
    hide Pieces, PieceCount, Fields, TotalSteps, ScriptOf;
    if messages != [] {
      FieldCount(pattern, step);
      TranscriptLength(pattern, step + 1, messages[1..]);
    }
  }

  /** Transcripts of equal length began equal in length: the counts of the two IK messages are too far apart. */
  lemma StartsAreEqual(pattern: Pattern, n: nat, la: nat, m: nat, lb: nat)
    requires 0 < n <= TotalSteps(pattern) && 0 < m <= TotalSteps(pattern)
    requires 1 <= la <= (if pattern.XX? then 1 else 2) && 1 <= lb <= (if pattern.XX? then 1 else 2)
    requires la + PieceCount(pattern, n) == lb + PieceCount(pattern, m)
    ensures la == lb && n == m
  {
  }

  /**
   Any two opened parties, whatever each was given, and any runs without a failed
   call: if one accepts a keyed message that ends in the other's payload
   ciphertext, both have the same pattern, step and messages byte for byte, this
   one included; and in IK, if they have opposite roles, the initiator was given
   the responder's static key.
   */
  lemma AcceptedMessageBindsWire(s: Suite, x: Setup, ca: seq<Call>, y: Setup, cb: seq<Call>,
                                 eph: Key, payload: Bytes, message: Bytes)
    requires Ideal(s) && Clean(s, OpenAs(s, x), ca) && Clean(s, OpenAs(s, y), cb)
    requires var a, b := Run(s, OpenAs(s, x), ca).0, Run(s, OpenAs(s, y), cb).0;
             && !(a.pattern.XX? && a.step == 0) && !(b.pattern.XX? && b.step == 0)
             && Write(s, a, eph, payload).1.Some? && Read(s, b, message).1.Some?
             && LastPiece(Write(s, a, eph, payload).0) == LastPiece(Read(s, b, message).0)
    ensures x.pattern == y.pattern && OpenAs(s, x).sym.log == OpenAs(s, y).sym.log
    ensures Run(s, OpenAs(s, x), ca).0.step == Run(s, OpenAs(s, y), cb).0.step
    ensures Wire(s, OpenAs(s, x), ca) == Wire(s, OpenAs(s, y), cb)
    ensures Write(s, Run(s, OpenAs(s, x), ca).0, eph, payload).1 == Some(message)
    ensures x.pattern.IK? && x.initiator && !y.initiator ==> x.preKnown == Some(y.sPk)
    ensures x.pattern.IK? && !x.initiator && y.initiator ==> y.preKnown == Some(x.sPk)
  {
    var a0, b0 := OpenAs(s, x), OpenAs(s, y);
    hide OpenAs, Run, Wire, Write, Read, Clean, KeyPresence, Untouched, PreMessage;
    OpenAsIsUntouched(s, x);
    OpenAsIsUntouched(s, y);
    EqualLengths(s, a0, ca, b0, cb, eph, payload, message);
    EqualStartsBindWire(s, a0, ca, b0, cb, eph, payload, message);
    if x.pattern.IK? {
      PreMessagesAgree(x, y);
    }
  }

  lemma EqualLengths(s: Suite, a0: Party, ca: seq<Call>, b0: Party, cb: seq<Call>,
                     eph: Key, payload: Bytes, message: Bytes)
    requires Ideal(s)
    requires Untouched(s, a0) && KeyPresence(a0) && Untouched(s, b0) && KeyPresence(b0)
    requires 1 <= |a0.sym.log| <= (if a0.pattern.XX? then 1 else 2)
    requires 1 <= |b0.sym.log| <= (if b0.pattern.XX? then 1 else 2)
    requires Clean(s, a0, ca) && Clean(s, b0, cb)
    requires var a, b := Run(s, a0, ca).0, Run(s, b0, cb).0;
             && !(a.pattern.XX? && a.step == 0) && !(b.pattern.XX? && b.step == 0)
             && Write(s, a, eph, payload).1.Some? && Read(s, b, message).1.Some?
             && LastPiece(Write(s, a, eph, payload).0) == LastPiece(Read(s, b, message).0)
    ensures |a0.sym.log| == |b0.sym.log|
  {
    var a, b := Run(s, a0, ca).0, Run(s, b0, cb).0;
    Reached(s, a0, ca);
    Reached(s, b0, cb);
    AcceptedMessageBinds(s, a, b, eph, payload, message);
    LogLengthAfter(s, a0, ca, WriteCall(eph, payload));
    LogLengthAfter(s, b0, cb, ReadCall(message));
    hide Run, Clean, Untouched, PieceCount;
    StartsAreEqual(a0.pattern, |ca| + 1, |a0.sym.log|, |cb| + 1, |b0.sym.log|);
  }

  lemma LogLengthAfter(s: Suite, p0: Party, calls: seq<Call>, c: Call)
    requires Untouched(s, p0) && KeyPresence(p0) && Clean(s, p0, calls)
    requires Apply(s, Run(s, p0, calls).0, c).1.Some?
    ensures |calls| < TotalSteps(p0.pattern)
    ensures |Apply(s, Run(s, p0, calls).0, c).0.sym.log| == |p0.sym.log| + PieceCount(p0.pattern, |calls| + 1)
  {
    hide Apply, Run, Wire, Transcript, AllWhole, Pieces, Whole, WireOf, Bound, Start;
    var p := Run(s, p0, calls).0;
    var all := Wire(s, p0, calls) + [WireOf(s, p, c)];
    RunSteps(s, p0, calls);
    CallSteps(s, p, c);
    CleanLogAfter(s, p0, calls, c);
    TranscriptLength(p0.pattern, 0, all);
  }
}
