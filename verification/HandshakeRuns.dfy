/**
 What holds over every sequence of `write_message` and `read_message` calls on
 arbitrary bytes, failed calls included: step counting, freezing on completion,
 exact message lengths, and a bound on the handshake counter.
 */
module HandshakeRuns {
  import opened Octets
  import opened Primitives
  import opened CipherStates
  import opened SymmetricStates
  import opened Handshakes

  datatype Call = WriteCall(eph: Key, payload: Bytes) | ReadCall(message: Bytes)

  function Apply(s: Suite, p: Party, c: Call): (Party, Option<Bytes>) {
    match c
    case WriteCall(eph, payload) => Write(s, p, eph, payload)
    case ReadCall(message) => Read(s, p, message)
  }

  /** A call up to its payload. */
  function HeadOf(s: Suite, p: Party, c: Call): Progress {
    match c
    case WriteCall(eph, _) => WriteHead(s, p, eph)
    case ReadCall(message) => ReadHead(s, p, message)
  }

  /** The final party, and how many calls returned a value. */
  function Run(s: Suite, p: Party, calls: seq<Call>): (Party, nat)
    decreases |calls|
  {
    if calls == [] then (p, 0)
    else
      var (p1, out) := Apply(s, p, calls[0]);
      var (p2, values) := Run(s, p1, calls[1..]);
      (p2, values + if out.Some? then 1 else 0)
  }

  // ---- Lengths ----

  function TokenLength(t: Token, keyed: bool): nat {
    match t
    case E => KEY_BYTES
    case S => KEY_BYTES + if keyed then TAG_BYTES else 0
    case _ => 0
  }

  /** Wire bytes of a script and the tag of the payload that follows it. */
  function ScriptLength(script: Script, keyed: bool): nat {
    match script
    case Done => if keyed then TAG_BYTES else 0
    case Then(t, rest) => TokenLength(t, keyed) + ScriptLength(rest, keyed || IsDh(t))
  }

  function Overhead(pattern: Pattern, step: nat): nat {
    match pattern
    case XX => if step == 0 then 32 else if step == 1 then 96 else 64
    case IK => if step == 0 then 96 else 48
  }

  lemma OverheadOfScripts(pattern: Pattern, step: nat, keyed: bool)
    requires step < TotalSteps(pattern)
    requires pattern.XX? && step == 0 ==> !keyed
    requires pattern.XX? && step == 2 ==> keyed
    ensures ScriptLength(ScriptOf(pattern, step), keyed) == Overhead(pattern, step)
  {
    match pattern
    case XX =>
      if step == 0 {
        assert ScriptLength(Done, false) == 0;
      } else if step == 1 {
        assert ScriptLength(Then(S, Then(ES, Done)), true) == 64;
        assert ScriptLength(Then(EE, Then(S, Then(ES, Done))), keyed) == 64;
      }
    case IK =>
      if step == 0 {
        assert ScriptLength(Then(S, Then(SS, Done)), true) == 64;
        assert ScriptLength(Then(ES, Then(S, Then(SS, Done))), keyed) == 64;
      } else {
        assert ScriptLength(Then(ES, Done), true) == 16;
        assert ScriptLength(Then(EE, Then(ES, Done)), keyed) == 16;
      }
  }

  lemma TokenEffect(s: Suite, p: Party, t: Token, asInitiator: bool, eph: Key, out: Bytes, input: Bytes)
    ensures var w, keyed := WriteToken(s, p, t, asInitiator, eph, out), p.sym.cipher.hasKey;
            w.ok ==> w.party.sym.cipher.hasKey == (keyed || IsDh(t)) && |w.bytes| == |out| + TokenLength(t, keyed)
    ensures var r, keyed := ReadToken(s, p, t, asInitiator, input), p.sym.cipher.hasKey;
            r.ok ==> r.party.sym.cipher.hasKey == (keyed || IsDh(t)) && |input| == |r.bytes| + TokenLength(t, keyed)
  {
  }

  lemma {:induction false} WriteScriptLength(s: Suite, p: Party, script: Script, asInitiator: bool,
                                             eph: Key, out: Bytes)
    ensures var w := WriteScript(s, p, script, asInitiator, eph, out);
            w.ok ==>
              |w.bytes| + (if w.party.sym.cipher.hasKey then TAG_BYTES else 0)
              == |out| + ScriptLength(script, p.sym.cipher.hasKey)
    decreases script
  {
    match script
    case Done =>
    case Then(t, rest) =>
      var w := WriteToken(s, p, t, asInitiator, eph, out);
      TokenEffect(s, p, t, asInitiator, eph, out, []);
      if w.ok {
        WriteScriptLength(s, w.party, rest, asInitiator, eph, w.bytes);
      }
  }

  lemma {:induction false} ReadScriptLength(s: Suite, p: Party, script: Script, asInitiator: bool, input: Bytes)
    ensures var r := ReadScript(s, p, script, asInitiator, input);
            r.ok ==>
              |input| + (if r.party.sym.cipher.hasKey then TAG_BYTES else 0)
              == |r.bytes| + ScriptLength(script, p.sym.cipher.hasKey)
    decreases script
  {
    match script
    case Done =>
    case Then(t, rest) =>
      var r := ReadToken(s, p, t, asInitiator, input);
      TokenEffect(s, p, t, asInitiator, ZERO_KEY, [], input);
      if r.ok {
        ReadScriptLength(s, r.party, rest, asInitiator, r.bytes);
      }
  }

  /** A message written or accepted is exactly its pattern's overhead longer than the payload, and fits the reserve. */
  lemma MessageLength(s: Suite, p: Party, c: Call)
    requires KeyPresence(p)
    ensures var out := Apply(s, p, c).1;
            var length := (payload: Bytes) => Overhead(p.pattern, p.step) + |payload|;
            out.Some? ==>
              match c
              case WriteCall(_, payload) =>
                |out.value| == length(payload) && 0 < |out.value| <= 2 * KEY_BYTES + 3 * TAG_BYTES + |payload|
              case ReadCall(message) => |message| == length(out.value)
  {
    if !Complete(p) {
      OverheadOfScripts(p.pattern, p.step, p.sym.cipher.hasKey);
      match c
      case WriteCall(eph, _) =>
        WriteScriptLength(s, p, ScriptOf(p.pattern, p.step), ActsAsInitiator(p.step, true), eph, []);
      case ReadCall(message) =>
        ReadScriptLength(s, p, ScriptOf(p.pattern, p.step), ActsAsInitiator(p.step, false), message);
    }
  }

  // ---- The handshake counter ----

  predicate EndsInDh(script: Script) {
    script.Then? && if script.rest.Done? then IsDh(script.token) else EndsInDh(script.rest)
  }

  function Statics(script: Script): nat {
    if script.Done? then 0 else (if script.token.S? then 1 else 0) + Statics(script.rest)
  }

  lemma {:induction false} WriteScriptCounter(s: Suite, p: Party, script: Script, asInitiator: bool,
                                              eph: Key, out: Bytes)
    ensures var w := WriteScript(s, p, script, asInitiator, eph, out);
            && w.party.sym.cipher.n <= p.sym.cipher.n + Statics(script)
            && (w.ok && EndsInDh(script) ==> w.party.sym.cipher.n == 0)
    decreases script
  {
    match script
    case Done =>
    case Then(t, rest) =>
      var w := WriteToken(s, p, t, asInitiator, eph, out);
      if w.ok {
        WriteScriptCounter(s, w.party, rest, asInitiator, eph, w.bytes);
      }
  }

  lemma {:induction false} ReadScriptCounter(s: Suite, p: Party, script: Script, asInitiator: bool, input: Bytes)
    ensures var r := ReadScript(s, p, script, asInitiator, input);
            && r.party.sym.cipher.n <= p.sym.cipher.n + Statics(script)
            && (r.ok && EndsInDh(script) ==> r.party.sym.cipher.n == 0)
    decreases script
  {
    match script
    case Done =>
    case Then(t, rest) =>
      var r := ReadToken(s, p, t, asInitiator, input);
      if r.ok {
        ReadScriptCounter(s, r.party, rest, asInitiator, r.bytes);
      }
  }

  lemma ScriptShapes(pattern: Pattern, step: nat)
    ensures var script := ScriptOf(pattern, step);
            Statics(script) == 0 || (Statics(script) == 1 && EndsInDh(script))
  {
    assert Statics(Done) == 0;
    assert Statics(Then(SS, Done)) == Statics(Then(ES, Done)) == Statics(Then(SE, Done)) == 0;
    assert Statics(Then(S, Then(SS, Done))) == Statics(Then(S, Then(ES, Done))) == 1;
    assert EndsInDh(Then(S, Then(SS, Done))) && EndsInDh(Then(S, Then(ES, Done)));
  }

  /** One call advances the counter by at most one, whatever it mixes and however it ends. */
  lemma CallCounter(s: Suite, p: Party, c: Call)
    ensures Apply(s, p, c).0.sym.cipher.n <= p.sym.cipher.n + 1
  {
    ScriptShapes(p.pattern, p.step);
    match c
    case WriteCall(eph, _) =>
      WriteScriptCounter(s, p, ScriptOf(p.pattern, p.step), ActsAsInitiator(p.step, true), eph, []);
    case ReadCall(message) =>
      ReadScriptCounter(s, p, ScriptOf(p.pattern, p.step), ActsAsInitiator(p.step, false), message);
  }

  /** At the payload of any message but the first of XX the cipher has just been keyed. */
  lemma PayloadIsKeyed(s: Suite, p: Party, c: Call)
    requires KeyPresence(p) && !(p.pattern.XX? && p.step == 0)
    requires Apply(s, p, c).1.Some?
    ensures var q := HeadOf(s, p, c).party;
            q.sym.cipher.hasKey && q.sym.cipher.n == 0
  {
    var script := ScriptOf(p.pattern, p.step);
    DhInTables(p.pattern, p.step);
    ScriptShapes(p.pattern, p.step);
    match c
    case WriteCall(eph, _) =>
      WriteScriptKeys(s, p, script, ActsAsInitiator(p.step, true), eph, []);
      WriteScriptCounter(s, p, script, ActsAsInitiator(p.step, true), eph, []);
    case ReadCall(message) =>
      ReadScriptKeys(s, p, script, ActsAsInitiator(p.step, false), message);
      ReadScriptCounter(s, p, script, ActsAsInitiator(p.step, false), message);
  }

  /** After a message has been accepted the handshake cipher is unkeyed or has been used once under its key. */
  lemma ReadLeavesFreshKey(s: Suite, p: Party, message: Bytes)
    requires KeyPresence(p) && Read(s, p, message).1.Some?
    ensures var p' := Read(s, p, message).0; p'.sym.cipher.hasKey ==> p'.sym.cipher.n == 1
  {
    if p.pattern.XX? && p.step == 0 {
      ReadScriptKeys(s, p, ScriptOf(p.pattern, p.step), ActsAsInitiator(p.step, false), message);
    } else {
      PayloadIsKeyed(s, p, ReadCall(message));
    }
  }

  // ---- Whole runs ----

  lemma CallSteps(s: Suite, p: Party, c: Call)
    requires KeyPresence(p)
    ensures var (p', out) := Apply(s, p, c);
            && KeyPresence(p') && SameIdentity(p, p')
            && p'.step == p.step + (if out.Some? then 1 else 0)
            && (Complete(p) ==> p' == p && out == None)
  {
    match c
    case WriteCall(eph, payload) =>
      WriteKeepsKeyPresence(s, p, eph, payload);
      WriteScriptKeys(s, p, ScriptOf(p.pattern, p.step), ActsAsInitiator(p.step, true), eph, []);
    case ReadCall(message) =>
      ReadKeepsKeyPresence(s, p, message);
      ReadScriptKeys(s, p, ScriptOf(p.pattern, p.step), ActsAsInitiator(p.step, false), message);
  }

  /**
   Over any run: the step counts the calls that returned a value and never passes
   the pattern's total; a complete party is frozen; the counter is bounded by the
   number of calls, so the wrap abort needs 2^64-1 of them.
   */
  lemma {:induction false} RunSteps(s: Suite, p: Party, calls: seq<Call>)
    requires KeyPresence(p)
    ensures var (p', values) := Run(s, p, calls);
            && KeyPresence(p') && SameIdentity(p, p')
            && p'.step == p.step + values <= TotalSteps(p.pattern)
            && (Complete(p) ==> p' == p && values == 0)
            && p'.sym.cipher.n <= p.sym.cipher.n + |calls|
    decreases |calls|
  {
    if calls != [] {
      CallSteps(s, p, calls[0]);
      CallCounter(s, p, calls[0]);
      RunSteps(s, Apply(s, p, calls[0]).0, calls[1..]);
    }
  }
}
