/**
 During the handshake both parties encrypt under the same key chain.  Driven by
 `noise_handshake_step`, no two of their encryptions, whoever makes them, share a
 key and a counter, because the turn test lets one side write at a time; two
 handshake objects on their own do not have this.
 */
module HandshakeNonces {
  import opened Octets
  import opened Primitives
  import opened CipherStates
  import opened Hmac
  import opened SymmetricStates
  import opened Handshakes
  import opened HandshakeRuns
  import opened Agreement
  import opened Sessions
  import opened Binding
  import Driver

  /** How many MixKey steps a chain has had, and the counter under the key of the last. */
  datatype Spot = Spot(mixes: nat, n: nat)

  /** One encryption. */
  datatype Seal = Seal(at: Spot, key: Key)

  // ---- The encryptions of a call ----

  function Sealing(y: Symmetric, mixes: nat): seq<Seal> {
    if y.cipher.hasKey then [Seal(Spot(mixes, y.cipher.n), y.cipher.k)] else []
  }

  /** MixKey steps and encryptions of a script that is written, up to a failure. */
  function HeadSeals(s: Suite, p: Party, script: Script, asInitiator: bool, eph: Key, mixes: nat): (nat, seq<Seal>)
    decreases script
  {
    match script
    case Done => (mixes, [])
    case Then(t, rest) =>
      var w := WriteToken(s, p, t, asInitiator, eph, []);
      if !w.ok then (mixes, [])
      else
        var (m, more) := HeadSeals(s, w.party, rest, asInitiator, eph, mixes + if IsDh(t) then 1 else 0);
        (m, (if t.S? then Sealing(p.sym, mixes) else []) + more)
  }

  function WriteSeals(s: Suite, p: Party, eph: Key, mixes: nat): (nat, seq<Seal>) {
    if Complete(p) then (mixes, [])
    else
      var (m, seals) := HeadSeals(s, p, ScriptOf(p.pattern, p.step), ActsAsInitiator(p.step, true), eph, mixes);
      var head := WriteHead(s, p, eph);
      (m, seals + if head.ok then Sealing(head.party.sym, m) else [])
  }

  function ReadMixes(s: Suite, p: Party, script: Script, asInitiator: bool, input: Bytes, mixes: nat): nat
    decreases script
  {
    match script
    case Done => mixes
    case Then(t, rest) =>
      var r := ReadToken(s, p, t, asInitiator, input);
      if !r.ok then mixes
      else ReadMixes(s, r.party, rest, asInitiator, r.bytes, mixes + if IsDh(t) then 1 else 0)
  }

  function MixesAfterRead(s: Suite, p: Party, message: Bytes, mixes: nat): nat {
    if Complete(p) then mixes
    else ReadMixes(s, p, ScriptOf(p.pattern, p.step), ActsAsInitiator(p.step, false), message, mixes)
  }

  function TurnSeals(s: Suite, x: Session, eph: Key, mixes: nat): (nat, seq<Seal>) {
    if !WriterTurn(x) then (mixes, []) else WriteSeals(s, x.party, eph, mixes)
  }

  /** Of one step call. */
  function CallSeals(s: Suite, x: Session, incoming: Bytes, eph: Key, mixes: nat): (nat, seq<Seal>) {
    if |incoming| > 0 then
      var (p, plain) := Read(s, x.party, incoming);
      var m := MixesAfterRead(s, x.party, incoming, mixes);
      if plain.None? || Complete(p) then (m, []) else TurnSeals(s, x.(party := p), eph, m)
    else TurnSeals(s, x, eph, mixes)
  }

  // ---- The encryptions of a run ----

  /** Both sides' MixKey counts, and all encryptions in order. */
  datatype Ledger = Ledger(mixesI: nat, mixesR: nat, seals: seq<Seal>)

  function NoteI(s: Suite, w: Driver.World, l: Ledger, incoming: Bytes, eph: Key): Ledger {
    var (m, seals) := CallSeals(s, w.i.session, incoming, eph, l.mixesI);
    Ledger(m, l.mixesR, l.seals + seals)
  }

  function NoteR(s: Suite, w: Driver.World, l: Ledger, incoming: Bytes, eph: Key): Ledger {
    var (m, seals) := CallSeals(s, w.r.session, incoming, eph, l.mixesR);
    Ledger(l.mixesI, m, l.seals + seals)
  }

  function Note(s: Suite, w: Driver.World, l: Ledger, ev: Driver.Event): Ledger {
    match ev
    case PokeI(eph) => NoteI(s, w, l, [], eph)
    case PokeR(eph) => NoteR(s, w, l, [], eph)
    case DeliverI(eph) => if w.toI == [] then l else NoteI(s, w, l, w.toI[0], eph)
    case DeliverR(eph) => if w.toR == [] then l else NoteR(s, w, l, w.toR[0], eph)
    case _ => l
  }

  function LedgerOf(s: Suite, w: Driver.World, l: Ledger, events: seq<Driver.Event>): Ledger
    decreases |events|
  {
    if events == [] then l else LedgerOf(s, Driver.Step(s, w, events[0]), Note(s, w, l, events[0]), events[1..])
  }

  // ---- Where a script encrypts ----

  datatype Plan = Plan(spots: seq<Spot>, keyed: bool, at: Spot)

  function OneSpot(keyed: bool, at: Spot): seq<Spot> {
    if keyed then [at] else []
  }

  /** A script on the flag and the counters alone. */
  function PlanOf(script: Script, keyed: bool, at: Spot): Plan {
    match script
    case Done => Plan([], keyed, at)
    case Then(t, rest) =>
      match t
      case E => PlanOf(rest, keyed, at)
      case S =>
        var more := PlanOf(rest, keyed, if keyed then at.(n := at.n + 1) else at);
        more.(spots := OneSpot(keyed, at) + more.spots)
      case _ => PlanOf(rest, true, Spot(at.mixes + 1, 0))
  }

  function Spots(seals: seq<Seal>): seq<Spot> {
    seq(|seals|, i requires 0 <= i < |seals| => seals[i].at)
  }

  lemma SpotsAppend(xs: seq<Seal>, ys: seq<Seal>)
    ensures Spots(xs + ys) == Spots(xs) + Spots(ys)
  {
  }

  function At(p: Party, mixes: nat): Spot {
    Spot(mixes, p.sym.cipher.n)
  }

  lemma WriteTokenPlan(s: Suite, p: Party, t: Token, asInitiator: bool, eph: Key, mixes: nat)
    requires WriteToken(s, p, t, asInitiator, eph, []).ok
    ensures var q := WriteToken(s, p, t, asInitiator, eph, []).party;
            var plan := PlanOf(Then(t, Done), p.sym.cipher.hasKey, At(p, mixes));
            && plan.keyed == q.sym.cipher.hasKey && plan.at == At(q, mixes + if IsDh(t) then 1 else 0)
            && plan.spots == Spots(if t.S? then Sealing(p.sym, mixes) else [])
  {
    hide HkdfSpec, WireNonceOf;
  }

  lemma ReadTokenPlan(s: Suite, p: Party, t: Token, asInitiator: bool, input: Bytes, mixes: nat)
    requires ReadToken(s, p, t, asInitiator, input).ok
    ensures var q := ReadToken(s, p, t, asInitiator, input).party;
            var plan := PlanOf(Then(t, Done), p.sym.cipher.hasKey, At(p, mixes));
            plan.keyed == q.sym.cipher.hasKey && plan.at == At(q, mixes + if IsDh(t) then 1 else 0)
  {
    hide HkdfSpec, WireNonceOf;
  }

  lemma PlanUnfolds(t: Token, rest: Script, keyed: bool, at: Spot)
    ensures var first := PlanOf(Then(t, Done), keyed, at);
            var more := PlanOf(rest, first.keyed, first.at);
            PlanOf(Then(t, rest), keyed, at) == more.(spots := first.spots + more.spots)
  {
    var more := PlanOf(rest, keyed, at).spots;
    assert [] + more == more;
    var mixed := PlanOf(rest, true, Spot(at.mixes + 1, 0)).spots;
    assert [] + mixed == mixed;
    assert OneSpot(keyed, at) + [] == OneSpot(keyed, at);
  }

  lemma {:induction false} HeadFollowsPlan(s: Suite, p: Party, script: Script, asInitiator: bool, eph: Key, mixes: nat)
    requires WriteScript(s, p, script, asInitiator, eph, []).ok
    ensures var q := WriteScript(s, p, script, asInitiator, eph, []).party;
            var (m, seals) := HeadSeals(s, p, script, asInitiator, eph, mixes);
            PlanOf(script, p.sym.cipher.hasKey, At(p, mixes)) == Plan(Spots(seals), q.sym.cipher.hasKey, At(q, m))
    decreases script
  {
    hide WriteToken, PlanOf, Sealing, Spots;
    match script
    case Done => EmptyPlan(p.sym.cipher.hasKey, At(p, mixes));
    case Then(t, rest) =>
      ScriptUnfolds(s, p, t, rest, asInitiator, eph);
      WriteTokenPlan(s, p, t, asInitiator, eph, mixes);
      PlanUnfolds(t, rest, p.sym.cipher.hasKey, At(p, mixes));
      var p1, mixes1 := WriteToken(s, p, t, asInitiator, eph, []).party, mixes + if IsDh(t) then 1 else 0;
      HeadFollowsPlan(s, p1, rest, asInitiator, eph, mixes1);
      SpotsAppend(if t.S? then Sealing(p.sym, mixes) else [], HeadSeals(s, p1, rest, asInitiator, eph, mixes1).1);
  }

  lemma EmptyPlan(keyed: bool, at: Spot)
    ensures PlanOf(Done, keyed, at) == Plan(Spots([]), keyed, at)
  {
  }

  lemma {:induction false} ReadFollowsPlan(s: Suite, p: Party, script: Script, asInitiator: bool,
                                           input: Bytes, mixes: nat)
    requires ReadScript(s, p, script, asInitiator, input).ok
    ensures var q := ReadScript(s, p, script, asInitiator, input).party;
            var m := ReadMixes(s, p, script, asInitiator, input, mixes);
            var plan := PlanOf(script, p.sym.cipher.hasKey, At(p, mixes));
            plan.keyed == q.sym.cipher.hasKey && plan.at == At(q, m)
    decreases script
  {
    hide ReadToken, PlanOf, Spots;
    match script
    case Done => EmptyPlan(p.sym.cipher.hasKey, At(p, mixes));
    case Then(t, rest) =>
      var r := ReadToken(s, p, t, asInitiator, input);
      ReadTokenPlan(s, p, t, asInitiator, input, mixes);
      PlanUnfolds(t, rest, p.sym.cipher.hasKey, At(p, mixes));
      ReadFollowsPlan(s, r.party, rest, asInitiator, r.bytes, mixes + if IsDh(t) then 1 else 0);
  }

  // ---- The tables ----

  /** MixKey steps before a message. */
  function MixesAt(pattern: Pattern, step: nat): nat {
    match pattern
    case XX => if step <= 1 then 0 else if step == 2 then 2 else 3
    case IK => if step == 0 then 0 else if step == 1 then 2 else 4
  }

  /** Where a message encrypts: its static key, if any, and its payload. */
  function MessageSpots(pattern: Pattern, step: nat): seq<Spot> {
    match pattern
    case XX =>
      if step == 0 then [] else if step == 1 then [Spot(1, 0), Spot(2, 0)] else [Spot(2, 1), Spot(3, 0)]
    case IK => if step == 0 then [Spot(1, 0), Spot(2, 0)] else [Spot(4, 0)]
  }

  function SpotsBefore(pattern: Pattern, messages: nat): seq<Spot> {
    if messages == 0 then [] else SpotsBefore(pattern, messages - 1) + MessageSpots(pattern, messages - 1)
  }

  lemma PlansOfTables(pattern: Pattern, step: nat)
    requires step < TotalSteps(pattern)
    ensures var keyed := KeyedAt(pattern, step);
            var plan := PlanOf(ScriptOf(pattern, step), keyed, Spot(MixesAt(pattern, step), if keyed then 1 else 0));
            && plan.keyed == KeyedAt(pattern, step + 1)
            && plan.at == Spot(MixesAt(pattern, step + 1), 0)
            && plan.spots + OneSpot(plan.keyed, plan.at) == MessageSpots(pattern, step)
  {
    var keyed := KeyedAt(pattern, step);
    var at := Spot(MixesAt(pattern, step), if keyed then 1 else 0);
    match pattern
    case XX =>
      if step == 0 {
        assert PlanOf(Then(E, Done), keyed, at) == PlanOf(Done, keyed, at);
      } else if step == 1 {
        assert PlanOf(Then(ES, Done), true, Spot(1, 1)) == PlanOf(Done, true, Spot(2, 0));
        assert PlanOf(Then(S, Then(ES, Done)), true, Spot(1, 0)).spots == [Spot(1, 0)] + [];
        assert PlanOf(Then(EE, Then(S, Then(ES, Done))), keyed, at)
            == PlanOf(Then(S, Then(ES, Done)), true, Spot(1, 0));
      } else {
        assert PlanOf(Then(SE, Done), true, Spot(2, 2)) == PlanOf(Done, true, Spot(3, 0));
      }
    case IK =>
      if step == 0 {
        assert PlanOf(Then(SS, Done), true, Spot(1, 1)) == PlanOf(Done, true, Spot(2, 0));
        assert PlanOf(Then(S, Then(SS, Done)), true, Spot(1, 0)).spots == [Spot(1, 0)] + [];
        assert PlanOf(Then(ES, Then(S, Then(SS, Done))), keyed, at)
            == PlanOf(Then(S, Then(SS, Done)), true, Spot(1, 0));
      } else {
        assert PlanOf(Then(ES, Done), true, Spot(3, 0)) == PlanOf(Done, true, Spot(4, 0));
        assert PlanOf(Then(EE, Then(ES, Done)), keyed, at) == PlanOf(Then(ES, Done), true, Spot(3, 0));
      }
  }

  // ---- One call of one side ----

  /** A party that has had no failure: keyed as its step says, its key used once. */
  ghost predicate Settled(p: Party) {
    && KeyPresence(p) && p.sym.cipher.hasKey == KeyedAt(p.pattern, p.step)
    && p.sym.cipher.n == if p.sym.cipher.hasKey then 1 else 0
  }

  lemma WriteSpots(s: Suite, p: Party, eph: Key)
    requires Settled(p) && Write(s, p, eph, []).1.Some?
    ensures var (m, seals) := WriteSeals(s, p, eph, MixesAt(p.pattern, p.step));
            var q := Write(s, p, eph, []).0;
            && Settled(q) && q.step == p.step + 1 && q.pattern == p.pattern
            && m == MixesAt(q.pattern, q.step) && Spots(seals) == MessageSpots(p.pattern, p.step)
  {
    var script, role, mixes := ScriptOf(p.pattern, p.step), ActsAsInitiator(p.step, true), MixesAt(p.pattern, p.step);
    CallSteps(s, p, WriteCall(eph, []));
    HeadFollowsPlan(s, p, script, role, eph, mixes);
    PlansOfTables(p.pattern, p.step);
    hide WriteScript, HeadSeals, PlanOf, MessageSpots, KeyPresence;
    var (m, seals) := HeadSeals(s, p, script, role, eph, mixes);
    SpotsAppend(seals, Sealing(WriteHead(s, p, eph).party.sym, m));
    assert Spots(Sealing(WriteHead(s, p, eph).party.sym, m))
        == OneSpot(KeyedAt(p.pattern, p.step + 1), Spot(MixesAt(p.pattern, p.step + 1), 0));
  }

  lemma ReadSpots(s: Suite, p: Party, message: Bytes)
    requires Settled(p) && Read(s, p, message).1.Some?
    ensures var q := Read(s, p, message).0;
            && Settled(q) && q.step == p.step + 1 && q.pattern == p.pattern
            && MixesAfterRead(s, p, message, MixesAt(p.pattern, p.step)) == MixesAt(q.pattern, q.step)
  {
    var script, role := ScriptOf(p.pattern, p.step), ActsAsInitiator(p.step, false);
    CallSteps(s, p, ReadCall(message));
    ReadFollowsPlan(s, p, script, role, message, MixesAt(p.pattern, p.step));
    PlansOfTables(p.pattern, p.step);
    hide ReadScript, ReadMixes, PlanOf, KeyPresence;
  }

  /** Nothing fails: what comes in is accepted, and a side in turn writes. */
  ghost predicate Smooth(s: Suite, x: Session, incoming: Bytes, eph: Key) {
    && (incoming != [] ==> Read(s, x.party, incoming).1.Some?)
    && var y := if incoming == [] then x else x.(party := Read(s, x.party, incoming).0);
       WriterTurn(y) && !Complete(y.party) ==> Write(s, y.party, eph, []).1.Some?
  }

  /** A call that left `p`: the table's MixKey count, and the table's encryptions of the message sent, if any. */
  ghost predicate Noted(pattern: Pattern, p: Party, reply: Reply, m: nat, seals: seq<Seal>) {
    && Settled(p) && p.pattern == pattern && m == MixesAt(pattern, p.step)
    && if Driver.Emits(reply) == [] then seals == []
       else p.step > 0 && Spots(seals) == MessageSpots(pattern, p.step - 1)
  }

  lemma TurnSpots(s: Suite, x: Session, eph: Key)
    requires Settled(x.party) && (WriterTurn(x) && !Complete(x.party) ==> Write(s, x.party, eph, []).1.Some?)
    ensures var (m, seals) := TurnSeals(s, x, eph, MixesAt(x.party.pattern, x.party.step));
            var (y, reply) := TurnToWrite(s, x, eph);
            Noted(x.party.pattern, y.party, reply, m, seals)
  {
    if Complete(x.party) {
      Driver.CompleteWritesNothing(s, x.party, eph);
    } else if WriterTurn(x) {
      WriteSpots(s, x.party, eph);
      Driver.WrittenIsNonEmpty(s, x.party, eph);
    }
    hide Write, WriteSeals, Settled, MixesAt, MessageSpots;
  }

  lemma CallSpots(s: Suite, x: Session, incoming: Bytes, eph: Key)
    requires Settled(x.party) && Smooth(s, x, incoming, eph)
    ensures var (m, seals) := CallSeals(s, x, incoming, eph, MixesAt(x.party.pattern, x.party.step));
            var (y, reply) := Stepped(s, x, incoming, eph);
            Noted(x.party.pattern, y.party, reply, m, seals)
  {
    var x1 := x;
    if incoming != [] {
      ReadSpots(s, x.party, incoming);
      x1 := x.(party := Read(s, x.party, incoming).0);
    }
    hide Read, Write, WriteSeals, MixesAfterRead, Settled, MixesAt, MessageSpots;
    TurnSpots(s, x1, eph);
  }

  // ---- Both sides, driven ----

  lemma SideSpots(s: Suite, x: Driver.Side, incoming: Bytes, eph: Key)
    requires Driver.Standing(s, x) && Settled(x.live)
    requires if Complete(x.live) then incoming == [] else Smooth(s, x.session, incoming, eph)
    ensures var (m, seals) := CallSeals(s, x.session, incoming, eph, MixesAt(x.live.pattern, x.live.step));
            var (y, reply) := Driver.Called(s, x, incoming, eph);
            Noted(x.live.pattern, y.live, reply, m, seals)
  {
    hide Write, Read, WriteSeals, MixesAfterRead, Settled, MixesAt, MessageSpots, Spots, Smooth, ExportOf;
    if Complete(x.live) {
      Driver.CompleteIsUnmoved(s, x, eph);
      CompleteSealsNothing(s, x.session.party, eph, MixesAt(x.live.pattern, x.live.step));
    } else {
      Driver.IncompleteIsLive(s, x);
      CallSpots(s, x.session, incoming, eph);
    }
  }

  lemma CompleteSealsNothing(s: Suite, p: Party, eph: Key, mixes: nat)
    requires Complete(p)
    ensures WriteSeals(s, p, eph, mixes) == (mixes, [])
  {
  }

  /** What may be handed to a side: nothing, or the message that is in flight towards it. */
  predicate Arrives(incoming: Bytes, channel: seq<Bytes>) {
    incoming == [] || (channel != [] && incoming == channel[0])
  }

  lemma InitiatorIsSmooth(s: Suite, w: Driver.World, incoming: Bytes, eph: Key)
    requires HonestDhSucceeds(s) && Driver.InTurn(s, w) && Arrives(incoming, w.toI)
    ensures if Complete(w.i.live) then incoming == [] else Smooth(s, w.i.session, incoming, eph)
  {
    hide Write, Read, Honest, Driver.FromInitiator, Driver.FromResponder, ExportOf;
    var i, r := w.i.live, w.r.live;
    if w.toR != [] {
      Driver.ResponderReads(s, i, r, w.toR[0]);
    } else if w.toI != [] {
      Driver.InitiatorReads(s, i, r, w.toI[0]);
      var i' := Read(s, i, w.toI[0]).0;
      if incoming != [] && !Complete(i') {
        Driver.InitiatorWrites(s, i', r, eph);
      }
    } else if !Complete(i) && i.step % 2 == 0 {
      Driver.InitiatorWrites(s, i, r, eph);
    }
  }

  lemma ResponderIsSmooth(s: Suite, w: Driver.World, incoming: Bytes, eph: Key)
    requires HonestDhSucceeds(s) && Driver.InTurn(s, w) && Arrives(incoming, w.toR)
    ensures if Complete(w.r.live) then incoming == [] else Smooth(s, w.r.session, incoming, eph)
  {
    hide Write, Read, Honest, Driver.FromInitiator, Driver.FromResponder, ExportOf;
    var i, r := w.i.live, w.r.live;
    if w.toI != [] {
      Driver.InitiatorReads(s, i, r, w.toI[0]);
    } else if w.toR != [] {
      Driver.ResponderReads(s, i, r, w.toR[0]);
      var r' := Read(s, r, w.toR[0]).0;
      Driver.HonestSteps(s, i, r');
      if incoming != [] && !Complete(r') {
        Driver.ResponderWrites(s, i, r', eph);
      }
    } else if !Complete(r) && r.step % 2 == 1 {
      Driver.HonestSteps(s, i, r);
      Driver.ResponderWrites(s, i, r, eph);
    }
  }

  /** The ledger is the tables' up to the messages sent. */
  ghost predicate Kept(s: Suite, w: Driver.World, l: Ledger) {
    var i, r := w.i.live, w.r.live;
    && Driver.InTurn(s, w) && Settled(i) && Settled(r) && i.pattern == r.pattern
    && l.mixesI == MixesAt(i.pattern, i.step) && l.mixesR == MixesAt(r.pattern, r.step)
    && Spots(l.seals) == SpotsBefore(i.pattern, w.sent)
  }

  /** In flight towards a side, the sender is the one ahead. */
  lemma SenderIsAhead(s: Suite, w: Driver.World)
    requires Driver.InTurn(s, w)
    ensures w.toR != [] ==> w.sent == w.i.live.step
    ensures w.toI != [] ==> w.sent == w.r.live.step
  {
    hide Honest, Driver.FromInitiator, Driver.FromResponder, Driver.Standing;
    if w.toR != [] {
      Driver.ResponderReads(s, w.i.live, w.r.live, w.toR[0]);
    } else if w.toI != [] {
      Driver.InitiatorReads(s, w.i.live, w.r.live, w.toI[0]);
    }
  }

  lemma KeptByI(s: Suite, w: Driver.World, l: Ledger, incoming: Bytes, eph: Key, w': Driver.World)
    requires HonestDhSucceeds(s) && Kept(s, w, l) && Arrives(incoming, w.toI) && Driver.InTurn(s, w')
    requires var (x, reply) := Driver.Called(s, w.i, incoming, eph);
             && w'.i == x && w'.r == w.r && w'.toR == w.toR + Driver.Emits(reply)
             && w'.sent == w.sent + |Driver.Emits(reply)|
    ensures Kept(s, w', NoteI(s, w, l, incoming, eph))
  {
    hide Driver.InTurn, Driver.Called, CallSeals, Settled, MixesAt, MessageSpots, Smooth, Driver.Standing;
    assert Driver.Standing(s, w.i) by { StandingOf(s, w); }
    InitiatorIsSmooth(s, w, incoming, eph);
    SideSpots(s, w.i, incoming, eph);
    SenderIsAhead(s, w');
    SpotsAppend(l.seals, CallSeals(s, w.i.session, incoming, eph, l.mixesI).1);
  }

  lemma KeptByR(s: Suite, w: Driver.World, l: Ledger, incoming: Bytes, eph: Key, w': Driver.World)
    requires HonestDhSucceeds(s) && Kept(s, w, l) && Arrives(incoming, w.toR) && Driver.InTurn(s, w')
    requires var (x, reply) := Driver.Called(s, w.r, incoming, eph);
             && w'.r == x && w'.i == w.i && w'.toI == w.toI + Driver.Emits(reply)
             && w'.sent == w.sent + |Driver.Emits(reply)|
    ensures Kept(s, w', NoteR(s, w, l, incoming, eph))
  {
    hide Driver.InTurn, Driver.Called, CallSeals, Settled, MixesAt, MessageSpots, Smooth, Driver.Standing;
    assert Driver.Standing(s, w.r) by { StandingOf(s, w); }
    ResponderIsSmooth(s, w, incoming, eph);
    SideSpots(s, w.r, incoming, eph);
    SenderIsAhead(s, w');
    SpotsAppend(l.seals, CallSeals(s, w.r.session, incoming, eph, l.mixesR).1);
  }

  lemma StandingOf(s: Suite, w: Driver.World)
    requires Driver.InTurn(s, w)
    ensures Driver.Standing(s, w.i) && Driver.Standing(s, w.r)
  {
  }

  lemma StepKeepsLedger(s: Suite, w: Driver.World, l: Ledger, ev: Driver.Event)
    requires HonestDhSucceeds(s) && Kept(s, w, l)
    ensures Kept(s, Driver.Step(s, w, ev), Note(s, w, l, ev))
  {
    hide Driver.InTurn, Driver.Called, Driver.Counted, CallSeals, Settled, MixesAt, Spots, SpotsBefore, NoteI, NoteR;
    Driver.StepKeepsTurn(s, w, ev);
    var w' := Driver.Step(s, w, ev);
    match ev
    case PokeI(eph) => KeptByI(s, w, l, [], eph, w');
    case PokeR(eph) => KeptByR(s, w, l, [], eph, w');
    case DeliverI(eph) =>
      if w.toI != [] {
        CountedKeeps(s, w.(toI := w.toI[1..]), w.i, w.toI[0]);
        KeptByI(s, w, l, w.toI[0], eph, w');
      }
    case DeliverR(eph) =>
      if w.toR != [] {
        CountedKeeps(s, w.(toR := w.toR[1..]), w.r, w.toR[0]);
        KeptByR(s, w, l, w.toR[0], eph, w');
      }
    case _ =>
  }

  lemma CountedKeeps(s: Suite, w: Driver.World, x: Driver.Side, m: Bytes)
    ensures var w' := Driver.Counted(s, w, x, m);
            w'.i == w.i && w'.r == w.r && w'.toI == w.toI && w'.toR == w.toR && w'.sent == w.sent
  {
  }

  lemma {:induction false} RunKeepsLedger(s: Suite, w: Driver.World, l: Ledger, events: seq<Driver.Event>)
    requires HonestDhSucceeds(s) && Kept(s, w, l)
    ensures Kept(s, Driver.Run(s, w, events), LedgerOf(s, w, l, events))
    decreases |events|
  {
    hide Kept, Driver.Step, Note;
    if events != [] {
      StepKeepsLedger(s, w, l, events[0]);
      RunKeepsLedger(s, Driver.Step(s, w, events[0]), Note(s, w, l, events[0]), events[1..]);
    }
  }

  const NO_SEALS: Ledger := Ledger(0, 0, [])

  lemma OpenIsKept(s: Suite, pattern: Pattern, si: Key, sr: Key)
    requires HonestDhSucceeds(s)
    ensures Kept(s, Driver.Opened(s, pattern, si, sr), NO_SEALS)
    ensures Driver.Opened(s, pattern, si, sr).i.session.party.pattern == pattern
  {
    Driver.DriverSafety(s, pattern, si, sr, []);
    OpenIsHonest(s, pattern, si, sr);
    OpenIsUntouched(s, pattern, true, si, s.pub(si), if pattern.IK? then Some(s.pub(sr)) else None);
    OpenIsUntouched(s, pattern, false, sr, s.pub(sr), None);
    hide Open, Honest, Driver.InTurn, Bound, Start;
  }

  lemma {:induction false} SpotsGrow(pattern: Pattern, messages: nat)
    requires messages <= TotalSteps(pattern)
    ensures forall i, j :: 0 <= i < j < |SpotsBefore(pattern, messages)| ==>
              SpotsBefore(pattern, messages)[i] != SpotsBefore(pattern, messages)[j]
  {
    assert SpotsBefore(pattern, 0) == [];
    assert SpotsBefore(pattern, 1) == MessageSpots(pattern, 0);
    assert SpotsBefore(pattern, 2) == MessageSpots(pattern, 0) + MessageSpots(pattern, 1);
    assert SpotsBefore(pattern, 3) == MessageSpots(pattern, 0) + MessageSpots(pattern, 1) + MessageSpots(pattern, 2);
  }

  /**
   Any schedule of two driven sessions: all their handshake encryptions are those
   of the tables, in the order of the messages sent, and no two of them, of either
   side, share a number of MixKeys and a counter.
   */
  lemma NoSpotReuse(s: Suite, pattern: Pattern, si: Key, sr: Key, events: seq<Driver.Event>)
    requires HonestDhSucceeds(s)
    ensures var w := Driver.Opened(s, pattern, si, sr);
            var seals := LedgerOf(s, w, NO_SEALS, events).seals;
            && Spots(seals) == SpotsBefore(pattern, Driver.Run(s, w, events).sent)
            && forall i, j :: 0 <= i < j < |seals| ==> seals[i].at != seals[j].at
  {
    var w := Driver.Opened(s, pattern, si, sr);
    OpenIsKept(s, pattern, si, sr);
    RunKeepsLedger(s, w, NO_SEALS, events);
    Driver.DriverSafety(s, pattern, si, sr, events);
    Driver.RunKeepsFaces(s, w, events);
    var w', seals := Driver.Run(s, w, events), LedgerOf(s, w, NO_SEALS, events).seals;
    Driver.MissingMeans(s, w');
    hide Driver.Opened, Driver.Run, LedgerOf, Driver.InTurn, Settled, SpotsBefore;
    SpotsGrow(pattern, w'.sent);
    assert forall i :: 0 <= i < |seals| ==> seals[i].at == Spots(seals)[i];
  }

  // ---- Key bytes, under the symbolic suite ----

  /** How deeply hashes are nested along the first octet. */
  function HashDepth(o: Octet): nat {
    match o
    case Hashed(data, _) => if data == [] then 1 else 1 + HashDepth(data[0])
    case Masked(p, _) => HashDepth(p)
    case _ => 0
  }

  lemma HmacDepth(key: Digest, text: Bytes)
    requires Lawful(Symbolic())
    ensures HashDepth(HmacSpec(Symbolic(), key, text)[0]) == 1 + HashDepth(key[0])
  {
    var s: Suite := Symbolic();
    var k := KeyBlock(s, key);
    var outer := XorAll(k, OPAD) + SymHash(XorAll(k, IPAD) + text);
    assert HmacSpec(s, key, text) == SymHash(outer);
    assert SymHash(outer)[0] == Hashed(outer, 0);
    assert k[0] == key[0] && outer[0] == Xor(key[0], OPAD);
  }

  /** Every MixKey nests chaining key and cipher key two hashes deeper than the chaining key was. */
  lemma MixDepth(y: Symmetric, ikm: Bytes)
    requires Lawful(Symbolic())
    ensures var y' := WithKey(Symbolic(), y, ikm);
            HashDepth(y'.ck[0]) == HashDepth(y'.cipher.k[0]) == HashDepth(y.ck[0]) + 2
  {
    var s: Suite := Symbolic();
    var temp := HmacSpec(s, y.ck, ikm);
    HmacDepth(y.ck, ikm);
    HmacDepth(temp, HkdfOutput(s, temp, 0) + [Byte(1)]);
    HmacDepth(temp, HkdfOutput(s, temp, 1) + [Byte(2)]);
    hide HmacSpec, HashDepth;
  }

  /** The depth of a party's keys tells its number of MixKeys. */
  ghost predicate Deep(p: Party, mixes: nat) {
    && HashDepth(p.sym.ck[0]) == 2 * mixes
    && (p.sym.cipher.hasKey ==> HashDepth(p.sym.cipher.k[0]) == 2 * mixes)
  }

  ghost predicate AllDeep(seals: seq<Seal>) {
    forall i :: 0 <= i < |seals| ==> HashDepth(seals[i].key[0]) == 2 * seals[i].at.mixes
  }

  lemma AllDeepAppend(xs: seq<Seal>, ys: seq<Seal>)
    requires AllDeep(xs) && AllDeep(ys)
    ensures AllDeep(xs + ys)
  {
  }

  lemma SealingDeep(p: Party, mixes: nat)
    requires Deep(p, mixes)
    ensures AllDeep(Sealing(p.sym, mixes))
  {
  }

  lemma MixTokenDeep(p: Party, t: Token, asInitiator: bool, mixes: nat)
    requires Lawful(Symbolic()) && Deep(p, mixes)
    ensures var q := MixToken(Symbolic(), p, t, asInitiator); q.Some? ==> Deep(q.value, mixes + 1)
  {
    var shared := SymDh(Secret(p, OwnKind(t, asInitiator)), PeerKey(p, OwnKind(t, !asInitiator)));
    if shared.Some? {
      MixDepth(p.sym, shared.value);
    }
    hide SymDh, SymHash, HkdfSpec, HashDepth, OwnKind;
  }

  /** Other tokens touch neither key. */
  lemma PlainTokenDeep(s: Suite, p: Party, t: Token, asInitiator: bool, eph: Key, input: Bytes, mixes: nat)
    requires Deep(p, mixes) && !IsDh(t)
    ensures Deep(WriteToken(s, p, t, asInitiator, eph, []).party, mixes)
    ensures Deep(ReadToken(s, p, t, asInitiator, input).party, mixes)
  {
    hide HashDepth;
  }

  lemma WriteTokenDeep(p: Party, t: Token, asInitiator: bool, eph: Key, mixes: nat)
    requires Lawful(Symbolic()) && Deep(p, mixes)
    ensures var w := WriteToken(Symbolic(), p, t, asInitiator, eph, []);
            Deep(w.party, mixes + if w.ok && IsDh(t) then 1 else 0)
  {
    if IsDh(t) {
      MixTokenDeep(p, t, asInitiator, mixes);
    } else {
      PlainTokenDeep(Symbolic(), p, t, asInitiator, eph, [], mixes);
    }
    hide Deep, MixToken, Hide, WithEphemeral;
  }

  lemma ReadTokenDeep(p: Party, t: Token, asInitiator: bool, input: Bytes, mixes: nat)
    requires Lawful(Symbolic()) && Deep(p, mixes)
    ensures var r := ReadToken(Symbolic(), p, t, asInitiator, input);
            Deep(r.party, mixes + if r.ok && IsDh(t) then 1 else 0)
  {
    if IsDh(t) {
      MixTokenDeep(p, t, asInitiator, mixes);
    } else {
      PlainTokenDeep(Symbolic(), p, t, asInitiator, ZERO_KEY, input, mixes);
    }
    hide Deep, MixToken, Unhide, WithHash;
  }

  lemma {:induction false} HeadDeep(p: Party, script: Script, asInitiator: bool, eph: Key, mixes: nat)
    requires Lawful(Symbolic()) && Deep(p, mixes)
    ensures var (m, seals) := HeadSeals(Symbolic(), p, script, asInitiator, eph, mixes);
            Deep(WriteScript(Symbolic(), p, script, asInitiator, eph, []).party, m) && AllDeep(seals)
    decreases script
  {
    var s: Suite := Symbolic();
    assert AllDeep([]);
    hide WriteToken, Deep, Sealing, Emitted, AllDeep;
    match script
    case Done =>
    case Then(t, rest) =>
      WriteTokenDeep(p, t, asInitiator, eph, mixes);
      SealingDeep(p, mixes);
      var w, mixes1 := WriteToken(s, p, t, asInitiator, eph, []), mixes + if IsDh(t) then 1 else 0;
      if w.ok {
        EmittedIsAppended(s, p, t, asInitiator, eph, []);
        ScriptOutput(s, w.party, rest, asInitiator, eph, w.bytes);
        HeadDeep(w.party, rest, asInitiator, eph, mixes1);
        var here := if t.S? then Sealing(p.sym, mixes) else [];
        AllDeepAppend(here, HeadSeals(s, w.party, rest, asInitiator, eph, mixes1).1);
      }
  }

  lemma {:induction false} ReadDeep(p: Party, script: Script, asInitiator: bool, input: Bytes, mixes: nat)
    requires Lawful(Symbolic()) && Deep(p, mixes)
    ensures var m := ReadMixes(Symbolic(), p, script, asInitiator, input, mixes);
            Deep(ReadScript(Symbolic(), p, script, asInitiator, input).party, m)
    decreases script
  {
    var s: Suite := Symbolic();
    hide ReadToken, Deep;
    match script
    case Done =>
    case Then(t, rest) =>
      ReadTokenDeep(p, t, asInitiator, input, mixes);
      var r := ReadToken(s, p, t, asInitiator, input);
      if r.ok {
        ReadDeep(r.party, rest, asInitiator, r.bytes, mixes + if IsDh(t) then 1 else 0);
      }
  }

  lemma FinishDeep(s: Suite, q: Progress, payload: Bytes, mixes: nat)
    requires Deep(q.party, mixes)
    ensures Deep(FinishWrite(s, q, payload).0, mixes) && Deep(FinishRead(s, q).0, mixes)
  {
    hide HashDepth;
  }

  lemma WriteDeep(p: Party, eph: Key, mixes: nat)
    requires Lawful(Symbolic()) && Deep(p, mixes)
    ensures var (m, seals) := WriteSeals(Symbolic(), p, eph, mixes);
            Deep(Write(Symbolic(), p, eph, []).0, m) && AllDeep(seals)
  {
    var s: Suite := Symbolic();
    if !Complete(p) {
      var script, role := ScriptOf(p.pattern, p.step), ActsAsInitiator(p.step, true);
      HeadDeep(p, script, role, eph, mixes);
      var (m, seals) := HeadSeals(s, p, script, role, eph, mixes);
      FinishDeep(s, WriteHead(s, p, eph), [], m);
      SealingDeep(WriteHead(s, p, eph).party, m);
      AllDeepAppend(seals, Sealing(WriteHead(s, p, eph).party.sym, m));
    }
    hide WriteHead, HeadSeals, WriteScript, Deep, FinishWrite, Sealing;
  }

  lemma ReadCallDeep(p: Party, message: Bytes, mixes: nat)
    requires Lawful(Symbolic()) && Deep(p, mixes)
    ensures Deep(Read(Symbolic(), p, message).0, MixesAfterRead(Symbolic(), p, message, mixes))
  {
    var s: Suite := Symbolic();
    if !Complete(p) {
      var script, role := ScriptOf(p.pattern, p.step), ActsAsInitiator(p.step, false);
      ReadDeep(p, script, role, message, mixes);
      FinishDeep(s, ReadHead(s, p, message), [], ReadMixes(s, p, script, role, message, mixes));
    }
    hide ReadScript, ReadMixes, Deep, FinishRead;
  }

  lemma TurnDeep(x: Session, eph: Key, mixes: nat)
    requires Lawful(Symbolic()) && Deep(x.party, mixes)
    ensures var (m, seals) := TurnSeals(Symbolic(), x, eph, mixes);
            Deep(TurnToWrite(Symbolic(), x, eph).0.party, m) && AllDeep(seals)
  {
    assert AllDeep([]);
    hide Write, WriteSeals, Deep, AllDeep;
    WriteDeep(x.party, eph, mixes);
  }

  lemma CallDeep(x: Session, incoming: Bytes, eph: Key, mixes: nat)
    requires Lawful(Symbolic()) && Deep(x.party, mixes)
    ensures var (m, seals) := CallSeals(Symbolic(), x, incoming, eph, mixes);
            Deep(Stepped(Symbolic(), x, incoming, eph).0.party, m) && AllDeep(seals)
  {
    var s: Suite := Symbolic();
    assert AllDeep([]);
    hide Read, TurnToWrite, TurnSeals, MixesAfterRead, Deep, AllDeep;
    ReadCallDeep(x.party, incoming, mixes);
    TurnDeep(x.(party := Read(s, x.party, incoming).0), eph, MixesAfterRead(s, x.party, incoming, mixes));
    TurnDeep(x, eph, mixes);
  }

  lemma SideDeep(x: Driver.Side, incoming: Bytes, eph: Key, mixes: nat)
    requires Lawful(Symbolic()) && Driver.Standing(Symbolic(), x) && Deep(x.live, mixes)
    ensures var (m, seals) := CallSeals(Symbolic(), x.session, incoming, eph, mixes);
            Deep(Driver.Called(Symbolic(), x, incoming, eph).0.live, m) && AllDeep(seals)
  {
    var s: Suite := Symbolic();
    if x.session.splitDone {
      CompleteSealsNothing(s, x.session.party, eph, mixes);
      CompleteReadsNothing(s, x.session.party, incoming, mixes);
    } else {
      CallDeep(x.session, incoming, eph, mixes);
    }
    hide Read, Write, WriteSeals, MixesAfterRead, Deep, ExportOf;
  }

  lemma CompleteReadsNothing(s: Suite, p: Party, message: Bytes, mixes: nat)
    requires Complete(p)
    ensures Read(s, p, message) == (p, None) && MixesAfterRead(s, p, message, mixes) == mixes
  {
  }

  ghost predicate DeepLedger(w: Driver.World, l: Ledger) {
    Deep(w.i.live, l.mixesI) && Deep(w.r.live, l.mixesR) && AllDeep(l.seals)
  }

  lemma DeepByI(w: Driver.World, l: Ledger, incoming: Bytes, eph: Key, w': Driver.World)
    requires Lawful(Symbolic()) && Driver.Standing(Symbolic(), w.i) && DeepLedger(w, l)
    requires w'.i == Driver.Called(Symbolic(), w.i, incoming, eph).0 && w'.r == w.r
    ensures DeepLedger(w', NoteI(Symbolic(), w, l, incoming, eph))
  {
    hide Driver.Standing, Driver.Called, CallSeals, Deep, AllDeep;
    SideDeep(w.i, incoming, eph, l.mixesI);
    AllDeepAppend(l.seals, CallSeals(Symbolic(), w.i.session, incoming, eph, l.mixesI).1);
  }

  lemma DeepByR(w: Driver.World, l: Ledger, incoming: Bytes, eph: Key, w': Driver.World)
    requires Lawful(Symbolic()) && Driver.Standing(Symbolic(), w.r) && DeepLedger(w, l)
    requires w'.r == Driver.Called(Symbolic(), w.r, incoming, eph).0 && w'.i == w.i
    ensures DeepLedger(w', NoteR(Symbolic(), w, l, incoming, eph))
  {
    hide Driver.Standing, Driver.Called, CallSeals, Deep, AllDeep;
    SideDeep(w.r, incoming, eph, l.mixesR);
    AllDeepAppend(l.seals, CallSeals(Symbolic(), w.r.session, incoming, eph, l.mixesR).1);
  }

  lemma DeepByExport(s: Suite, w: Driver.World, l: Ledger)
    requires Driver.Standing(s, w.i) && Driver.Standing(s, w.r) && DeepLedger(w, l)
    ensures DeepLedger(Driver.Step(s, w, Driver.ExportI), l) && DeepLedger(Driver.Step(s, w, Driver.ExportR), l)
  {
    hide Driver.Standing, Driver.Exported, Deep, AllDeep;
    Driver.ExportKeepsStanding(s, w.i);
    Driver.ExportKeepsStanding(s, w.r);
  }

  lemma PokeDeep(w: Driver.World, l: Ledger, eph: Key)
    requires Lawful(Symbolic()) && Driver.Standing(Symbolic(), w.i) && Driver.Standing(Symbolic(), w.r)
    requires DeepLedger(w, l)
    ensures DeepLedger(Driver.CallI(Symbolic(), w, [], eph), NoteI(Symbolic(), w, l, [], eph))
    ensures DeepLedger(Driver.CallR(Symbolic(), w, [], eph), NoteR(Symbolic(), w, l, [], eph))
  {
    hide Driver.Standing, Driver.Called, DeepLedger, NoteI, NoteR;
    DeepByI(w, l, [], eph, Driver.CallI(Symbolic(), w, [], eph));
    DeepByR(w, l, [], eph, Driver.CallR(Symbolic(), w, [], eph));
  }

  lemma DeliverIDeep(w: Driver.World, l: Ledger, eph: Key)
    requires Lawful(Symbolic()) && Driver.Standing(Symbolic(), w.i) && DeepLedger(w, l) && w.toI != []
    ensures DeepLedger(Driver.Step(Symbolic(), w, Driver.DeliverI(eph)), NoteI(Symbolic(), w, l, w.toI[0], eph))
  {
    hide Driver.Standing, Driver.Called, Driver.Counted, DeepLedger, NoteI;
    CountedKeeps(Symbolic(), w.(toI := w.toI[1..]), w.i, w.toI[0]);
    DeepByI(w, l, w.toI[0], eph, Driver.Step(Symbolic(), w, Driver.DeliverI(eph)));
  }

  lemma DeliverRDeep(w: Driver.World, l: Ledger, eph: Key)
    requires Lawful(Symbolic()) && Driver.Standing(Symbolic(), w.r) && DeepLedger(w, l) && w.toR != []
    ensures DeepLedger(Driver.Step(Symbolic(), w, Driver.DeliverR(eph)), NoteR(Symbolic(), w, l, w.toR[0], eph))
  {
    hide Driver.Standing, Driver.Called, Driver.Counted, DeepLedger, NoteR;
    CountedKeeps(Symbolic(), w.(toR := w.toR[1..]), w.r, w.toR[0]);
    DeepByR(w, l, w.toR[0], eph, Driver.Step(Symbolic(), w, Driver.DeliverR(eph)));
  }

  lemma StepKeepsDeep(w: Driver.World, l: Ledger, ev: Driver.Event)
    requires Lawful(Symbolic()) && Driver.InTurn(Symbolic(), w) && DeepLedger(w, l)
    ensures DeepLedger(Driver.Step(Symbolic(), w, ev), Note(Symbolic(), w, l, ev))
  {
    var s: Suite := Symbolic();
    hide Driver.InTurn, Driver.Standing, DeepLedger, NoteI, NoteR, Driver.CallI, Driver.CallR;
    StandingOf(s, w);
    match ev
    case PokeI(eph) => PokeDeep(w, l, eph);
    case PokeR(eph) => PokeDeep(w, l, eph);
    case DeliverI(eph) => if w.toI != [] { DeliverIDeep(w, l, eph); }
    case DeliverR(eph) => if w.toR != [] { DeliverRDeep(w, l, eph); }
    case _ => DeepByExport(s, w, l);
  }

  lemma {:induction false} RunKeepsDeep(w: Driver.World, l: Ledger, events: seq<Driver.Event>)
    requires Lawful(Symbolic()) && HonestDhSucceeds(Symbolic())
    requires Driver.InTurn(Symbolic(), w) && DeepLedger(w, l)
    ensures AllDeep(LedgerOf(Symbolic(), w, l, events).seals)
    decreases |events|
  {
    var s: Suite := Symbolic();
    if events != [] {
      hide Driver.InTurn, DeepLedger, Driver.Step, Note, AllDeep;
      Driver.StepKeepsTurn(s, w, events[0]);
      StepKeepsDeep(w, l, events[0]);
      RunKeepsDeep(Driver.Step(s, w, events[0]), Note(s, w, l, events[0]), events[1..]);
    }
  }

  lemma OpenIsDeep(s: Suite, pattern: Pattern, initiator: bool, sSk: Key, sPk: Key, preKnown: Option<Key>)
    ensures Deep(Open(s, pattern, initiator, sSk, sPk, preKnown), 0)
  {
    NameOctets(pattern);
    hide ProtocolName;
    var p := Open(s, pattern, initiator, sSk, sPk, preKnown);
    assert p.sym.ck == InitialHash(s, ProtocolName(pattern));
    assert p.sym.ck[0] == ProtocolName(pattern)[0];
  }

  lemma {:induction false} SmallSpots(pattern: Pattern, messages: nat, i: nat)
    requires i < |SpotsBefore(pattern, messages)|
    ensures SpotsBefore(pattern, messages)[i].n <= 1
  {
    if i < |SpotsBefore(pattern, messages - 1)| {
      SmallSpots(pattern, messages - 1, i);
    }
  }

  lemma LedgerIsDeep(pattern: Pattern, si: Key, sr: Key, events: seq<Driver.Event>)
    requires Lawful(Symbolic()) && HonestDhSucceeds(Symbolic())
    ensures AllDeep(LedgerOf(Symbolic(), Driver.Opened(Symbolic(), pattern, si, sr), NO_SEALS, events).seals)
  {
    var s: Suite := Symbolic();
    OpenIsDeep(s, pattern, true, si, s.pub(si), if pattern.IK? then Some(s.pub(sr)) else None);
    OpenIsDeep(s, pattern, false, sr, s.pub(sr), None);
    Driver.DriverSafety(s, pattern, si, sr, []);
    hide Open, LedgerOf, Driver.InTurn, Deep, HonestDhSucceeds;
    RunKeepsDeep(Driver.Opened(s, pattern, si, sr), NO_SEALS, events);
  }

  lemma DeepSealsDiffer(x: Seal, y: Seal)
    requires HashDepth(x.key[0]) == 2 * x.at.mixes && HashDepth(y.key[0]) == 2 * y.at.mixes
    requires x.at != y.at && x.at.n <= 1 && y.at.n <= 1
    ensures x.key != y.key || WireNonceOf(x.at.n) != WireNonceOf(y.at.n)
  {
    if WireNonceOf(x.at.n) == WireNonceOf(y.at.n) {
      WireNonceInjective(x.at.n, y.at.n);
    }
  }

  /** Under the symbolic suite, in any schedule, no two encryptions of either side share key bytes and wire nonce. */
  lemma NoKeyNonceReuse(pattern: Pattern, si: Key, sr: Key, events: seq<Driver.Event>, i: nat, j: nat)
    requires Lawful(Symbolic())
    requires i < j < |LedgerOf(Symbolic(), Driver.Opened(Symbolic(), pattern, si, sr), NO_SEALS, events).seals|
    ensures var seals := LedgerOf(Symbolic(), Driver.Opened(Symbolic(), pattern, si, sr), NO_SEALS, events).seals;
            seals[i].key != seals[j].key || WireNonceOf(seals[i].at.n) != WireNonceOf(seals[j].at.n)
  {
    var s: Suite := Symbolic();
    var w := Driver.Opened(s, pattern, si, sr);
    SymbolicIsIdeal();
    hide LedgerOf, Driver.Opened, WireNonceOf, Ideal, HonestDhSucceeds, SpotsBefore, HashDepth;
    NoSpotReuse(s, pattern, si, sr, events);
    LedgerIsDeep(pattern, si, sr, events);
    var seals, sent := LedgerOf(s, w, NO_SEALS, events).seals, Driver.Run(s, w, events).sent;
    assert seals[i].at == Spots(seals)[i] && seals[j].at == Spots(seals)[j];
    SmallSpots(pattern, sent, i);
    SmallSpots(pattern, sent, j);
    DeepSealsDiffer(seals[i], seals[j]);
  }

  // ---- Without the driver ----

  /** What the third XX message begins with, written by either party. */
  lemma ThirdMessageStart(s: Suite, p: Party, eph: Key, payload: Bytes, mixes: nat)
    requires p.pattern == XX && p.step == 2 && p.sym.cipher.hasKey && Write(s, p, eph, payload).1.Some?
    ensures var m, c := Write(s, p, eph, payload).1.value, p.sym.cipher;
            && |m| >= KEY_BYTES + TAG_BYTES
            && m[..KEY_BYTES + TAG_BYTES] == s.seal(c.k, WireNonceOf(c.n), p.sym.h, p.sPk)
    ensures var seals := WriteSeals(s, p, eph, mixes).1; seals != [] && seals[0] == Sealing(p.sym, mixes)[0]
  {
    var w := WriteToken(s, p, S, true, eph, []);
    assert w.bytes == Hide(s, p.sym, p.sPk).1;
    ScriptOutput(s, w.party, Then(SE, Done), true, eph, w.bytes);
    hide WireNonceOf, WithHash, WithKey;
    assert WriteHead(s, p, eph) == WriteScript(s, w.party, Then(SE, Done), true, eph, w.bytes);
    assert HeadSeals(s, p, ScriptOf(XX, 2), true, eph, mixes).1
        == Sealing(p.sym, mixes) + HeadSeals(s, w.party, Then(SE, Done), true, eph, mixes).1;
  }

  /**
   The handshake object has no turn test.  From any honest XX pair before the third
   message both sides can write it, and then their first encryptions are of two
   plaintexts under one key, one counter and one associated data.
   */
  lemma ObjectsAloneReuse(s: Suite, i: Party, r: Party, ei: Key, er: Key, x: Bytes, y: Bytes)
    requires HonestDhSucceeds(s) && Honest(s, i, r) && i.pattern == XX && i.step == 2
    ensures var m, m', c := Write(s, i, ei, x).1, Write(s, r, er, y).1, i.sym.cipher;
            && m.Some? && m'.Some? && |m.value| >= 48 && |m'.value| >= 48
            && m.value[..48] == s.seal(c.k, WireNonceOf(c.n), i.sym.h, i.sPk)
            && m'.value[..48] == s.seal(c.k, WireNonceOf(c.n), i.sym.h, r.sPk)
    ensures var a, b := WriteSeals(s, i, ei, 2).1, WriteSeals(s, r, er, 2).1; a != [] && b != [] && a[0] == b[0]
  {
    assert i.sym == r.sym && i.sym.cipher.hasKey && r.pattern == XX && r.step == 2;
    assert Linked(s, i, r, Ephemeral) && Linked(s, r, i, Ephemeral);
    ThirdIsWritten(s, i, r.eSk, ei, x);
    ThirdIsWritten(s, r, i.eSk, er, y);
    hide Write, WriteSeals, Honest, HonestDhSucceeds;
    ThirdMessageStart(s, i, ei, x, 2);
    ThirdMessageStart(s, r, er, y, 2);
  }

  lemma ThirdIsWritten(s: Suite, p: Party, e: Key, eph: Key, payload: Bytes)
    requires HonestDhSucceeds(s) && p.pattern == XX && p.step == 2 && p.re == s.pub(e)
    ensures Write(s, p, eph, payload).1.Some?
  {
    var w := WriteToken(s, p, S, true, eph, []);
    assert WriteHead(s, p, eph) == WriteScript(s, w.party, Then(SE, Done), true, eph, w.bytes);
    hide WithKey, WithHash, Hide;
  }
}
