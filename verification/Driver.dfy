/**
 Two sessions driven by `noise_handshake_step` over loss-free FIFO channels, in
 any order, with any number of spurious empty calls, each exporting its keys
 whenever it likes.
 */
module Driver {
  import opened Octets
  import opened Primitives
  import opened CipherStates
  import opened SymmetricStates
  import opened Handshakes
  import opened HandshakeRuns
  import opened Agreement
  import opened Sessions

  /** A session, as history its party as it was until the session exported, and the keys it exported. */
  datatype Side = Side(session: Session, live: Party, keys: Option<ExportedKeys>)

  /** Both sides, what is in flight, and counts of messages sent, delivered and refused. */
  datatype World = World(i: Side, r: Side, toR: seq<Bytes>, toI: seq<Bytes>, sent: nat, delivered: nat, refused: nat)

  /** A poke is an empty call; a delivery hands over the oldest message; an export may come at any time. */
  datatype Event =
    | PokeI(eph: Key) | PokeR(eph: Key) | DeliverI(eph: Key) | DeliverR(eph: Key) | ExportI | ExportR

  function Emits(reply: Reply): seq<Bytes> {
    if reply.Ok? && reply.out != [] then [reply.out] else []
  }

  function Called(s: Suite, x: Side, incoming: Bytes, eph: Key): (Side, Reply) {
    var (session, reply) := Stepped(s, x.session, incoming, eph);
    (Side(session, if session.splitDone then x.live else session.party, x.keys), reply)
  }

  function Exported(s: Suite, x: Side): Side {
    var (session, keys) := Export(s, x.session);
    Side(session, x.live, if keys.Some? then keys else x.keys)
  }

  function CallI(s: Suite, w: World, incoming: Bytes, eph: Key): World {
    var (x, reply) := Called(s, w.i, incoming, eph);
    w.(i := x, toR := w.toR + Emits(reply), sent := w.sent + |Emits(reply)|)
  }

  function CallR(s: Suite, w: World, incoming: Bytes, eph: Key): World {
    var (x, reply) := Called(s, w.r, incoming, eph);
    w.(r := x, toI := w.toI + Emits(reply), sent := w.sent + |Emits(reply)|)
  }

  /** Delivered, or refused when the session does not take the message. */
  function Counted(s: Suite, w: World, x: Side, m: Bytes): World {
    if Read(s, x.session.party, m).1.Some? then w.(delivered := w.delivered + 1) else w.(refused := w.refused + 1)
  }

  function Step(s: Suite, w: World, ev: Event): World {
    match ev
    case PokeI(eph) => CallI(s, w, [], eph)
    case PokeR(eph) => CallR(s, w, [], eph)
    case DeliverI(eph) =>
      if w.toI == [] then w else CallI(s, Counted(s, w.(toI := w.toI[1..]), w.i, w.toI[0]), w.toI[0], eph)
    case DeliverR(eph) =>
      if w.toR == [] then w else CallR(s, Counted(s, w.(toR := w.toR[1..]), w.r, w.toR[0]), w.toR[0], eph)
    case ExportI => w.(i := Exported(s, w.i))
    case ExportR => w.(r := Exported(s, w.r))
  }

  function Run(s: Suite, w: World, events: seq<Event>): World
    decreases |events|
  {
    if events == [] then w else Run(s, Step(s, w, events[0]), events[1..])
  }

  // ---- The invariant ----

  /** `m` is what the initiator, honest with `r`, has just written, and became `i`. */
  ghost predicate FromInitiator(s: Suite, i: Party, r: Party, m: Bytes) {
    exists i0: Party, eph: Key ::
      Honest(s, i0, r) && !Complete(i0) && i0.step % 2 == 0 && Write(s, i0, eph, []) == (i, Some(m))
  }

  ghost predicate FromResponder(s: Suite, i: Party, r: Party, m: Bytes) {
    exists r0: Party, eph: Key ::
      Honest(s, i, r0) && !Complete(r0) && r0.step % 2 == 1 && Write(s, r0, eph, []) == (r, Some(m))
  }

  /** A side that has exported was complete, is spent, and holds what its live party had to give. */
  ghost predicate Standing(s: Suite, x: Side) {
    && x.session.splitDone == x.keys.Some?
    && if x.keys.None? then x.session.party == x.live
       else Complete(x.live) && x.session.party == Spent(x.live) && x.keys.value == ExportOf(s, x.live)
  }

  /** The live parties are honest, or one of them is a message ahead and the message is in flight. */
  ghost predicate InTurn(s: Suite, w: World) {
    var i, r := w.i.live, w.r.live;
    && Standing(s, w.i) && Standing(s, w.r)
    && w.i.session.isInitiator && !w.r.session.isInitiator && w.refused == 0
    && w.sent == (if i.step >= r.step then i.step else r.step)
    && w.delivered == (if i.step >= r.step then r.step else i.step)
    && ( || (w.toI == w.toR == [] && Honest(s, i, r))
         || (w.toI == [] && |w.toR| == 1 && FromInitiator(s, i, r, w.toR[0]))
         || (w.toR == [] && |w.toI| == 1 && FromResponder(s, i, r, w.toI[0])))
  }

  lemma WrittenIsNonEmpty(s: Suite, p: Party, eph: Key)
    requires KeyPresence(p) && Write(s, p, eph, []).1.Some?
    ensures Write(s, p, eph, []).1.value != [] && Write(s, p, eph, []).0.step == p.step + 1
  {
    MessageLength(s, p, WriteCall(eph, []));
    CallSteps(s, p, WriteCall(eph, []));
  }

  // ---- One write, one read ----

  lemma InitiatorWrites(s: Suite, i: Party, r: Party, eph: Key)
    requires HonestDhSucceeds(s) && Honest(s, i, r) && !Complete(i) && i.step % 2 == 0
    ensures var (i', m) := Write(s, i, eph, []);
            m.Some? && m.value != [] && i'.step == i.step + 1 && FromInitiator(s, i', r, m.value)
  {
    MessageAgreement(s, i, r, Turn(eph, []));
    WrittenIsNonEmpty(s, i, eph);
  }

  lemma ResponderWrites(s: Suite, i: Party, r: Party, eph: Key)
    requires HonestDhSucceeds(s) && Honest(s, i, r) && !Complete(r) && r.step % 2 == 1
    ensures var (r', m) := Write(s, r, eph, []);
            m.Some? && m.value != [] && r'.step == r.step + 1 && FromResponder(s, i, r', m.value)
  {
    MessageAgreement(s, i, r, Turn(eph, []));
    WrittenIsNonEmpty(s, r, eph);
  }

  lemma ResponderReads(s: Suite, i: Party, r: Party, m: Bytes)
    requires FromInitiator(s, i, r, m)
    ensures i.step == r.step + 1 && r.step % 2 == 0 && m != [] && r.step < TotalSteps(r.pattern)
    ensures var (r', plain) := Read(s, r, m); plain.Some? && r'.step == r.step + 1 && Honest(s, i, r')
  {
    var i0: Party, eph: Key :|
      Honest(s, i0, r) && !Complete(i0) && i0.step % 2 == 0 && Write(s, i0, eph, []) == (i, Some(m));
    MessageAgreement(s, i0, r, Turn(eph, []));
    WrittenIsNonEmpty(s, i0, eph);
  }

  lemma InitiatorReads(s: Suite, i: Party, r: Party, m: Bytes)
    requires FromResponder(s, i, r, m)
    ensures r.step == i.step + 1 && i.step % 2 == 1 && m != [] && i.step < TotalSteps(i.pattern)
    ensures var (i', plain) := Read(s, i, m); plain.Some? && i'.step == i.step + 1 && Honest(s, i', r)
  {
    var r0: Party, eph: Key :|
      Honest(s, i, r0) && !Complete(r0) && r0.step % 2 == 1 && Write(s, r0, eph, []) == (r, Some(m));
    MessageAgreement(s, i, r0, Turn(eph, []));
    WrittenIsNonEmpty(s, r0, eph);
  }

  lemma CompleteWritesNothing(s: Suite, p: Party, eph: Key)
    requires Complete(p)
    ensures Write(s, p, eph, []) == (p, None)
  {
  }

  lemma HonestSteps(s: Suite, i: Party, r: Party)
    requires Honest(s, i, r)
    ensures i.step == r.step && Complete(i) == Complete(r)
  {
  }

  // ---- What a call is to the live party ----

  /** A complete side, exported or not, is unmoved by an empty call and emits nothing. */
  lemma CompleteIsUnmoved(s: Suite, x: Side, eph: Key)
    requires Standing(s, x) && Complete(x.live)
    ensures var (y, reply) := Called(s, x, [], eph); y == x && Emits(reply) == []
  {
    CompleteWritesNothing(s, x.session.party, eph);
  }

  /** A side that is not complete has not exported, so its session is live. */
  lemma IncompleteIsLive(s: Suite, x: Side)
    requires Standing(s, x) && !Complete(x.live)
    ensures x.session.party == x.live && !x.session.splitDone && x.keys.None?
  {
  }

  lemma ExportKeepsStanding(s: Suite, x: Side)
    requires Standing(s, x)
    ensures Standing(s, Exported(s, x)) && Exported(s, x).live == x.live
    ensures Exported(s, x).session.isInitiator == x.session.isInitiator
    ensures Exported(s, x).keys.Some? <==> Complete(x.live)
    ensures x.keys.Some? ==> Exported(s, x) == x
  {
    hide ExportOf;
  }

  // ---- Every event keeps the turn ----

  /** The writing half of a call on an idle honest pair. */
  lemma IdleCalls(s: Suite, w: World, eph: Key)
    requires HonestDhSucceeds(s)
    requires InTurn(s, w) && w.toI == w.toR == []
    ensures InTurn(s, CallI(s, w, [], eph)) && InTurn(s, CallR(s, w, [], eph))
  {
    hide Write, Read, Honest, FromInitiator, FromResponder, Complete;
    var i, r := w.i.live, w.r.live;
    HonestSteps(s, i, r);
    if Complete(i) {
      CompleteIsUnmoved(s, w.i, eph);
      CompleteIsUnmoved(s, w.r, eph);
    } else {
      if i.step % 2 == 0 {
        InitiatorWrites(s, i, r, eph);
      } else {
        ResponderWrites(s, i, r, eph);
      }
    }
  }

  lemma PokeKeepsTurn(s: Suite, w: World, eph: Key)
    requires HonestDhSucceeds(s) && InTurn(s, w)
    ensures InTurn(s, CallI(s, w, [], eph)) && InTurn(s, CallR(s, w, [], eph))
  {
    hide Write, Read, Honest, FromInitiator, FromResponder;
    var i, r := w.i.live, w.r.live;
    if w.toI == w.toR == [] {
      IdleCalls(s, w, eph);
    } else if w.toI == [] {
      ResponderReads(s, i, r, w.toR[0]);
      IncompleteIsLive(s, w.r);
    } else {
      InitiatorReads(s, i, r, w.toI[0]);
      IncompleteIsLive(s, w.i);
    }
  }

  lemma DeliverKeepsTurn(s: Suite, w: World, eph: Key)
    requires HonestDhSucceeds(s) && InTurn(s, w)
    ensures InTurn(s, Step(s, w, DeliverI(eph))) && InTurn(s, Step(s, w, DeliverR(eph)))
  {
    hide InTurn, CallI, CallR;
    if w.toR != [] {
      DeliverToResponder(s, w, eph);
    }
    if w.toI != [] {
      DeliverToInitiator(s, w, eph);
    }
  }

  lemma DeliverToResponder(s: Suite, w: World, eph: Key)
    requires HonestDhSucceeds(s) && InTurn(s, w) && w.toR != []
    ensures InTurn(s, Step(s, w, DeliverR(eph)))
  {
    hide Write, Read, Honest, FromInitiator, FromResponder, ExportOf;
    var m := w.toR[0];
    ResponderReads(s, w.i.live, w.r.live, m);
    IncompleteIsLive(s, w.r);
    var r' := Read(s, w.r.live, m).0;
    var w' := Counted(s, w.(toR := w.toR[1..]), w.r, m).(r := Side(w.r.session.(party := r'), r', None));
    IdleCalls(s, w', eph);
  }

  lemma DeliverToInitiator(s: Suite, w: World, eph: Key)
    requires HonestDhSucceeds(s) && InTurn(s, w) && w.toI != []
    ensures InTurn(s, Step(s, w, DeliverI(eph)))
  {
    hide Write, Read, Honest, FromInitiator, FromResponder, ExportOf;
    var m := w.toI[0];
    InitiatorReads(s, w.i.live, w.r.live, m);
    IncompleteIsLive(s, w.i);
    var i' := Read(s, w.i.live, m).0;
    var w' := Counted(s, w.(toI := w.toI[1..]), w.i, m).(i := Side(w.i.session.(party := i'), i', None));
    IdleCalls(s, w', eph);
  }

  lemma ExportKeepsTurn(s: Suite, w: World)
    requires InTurn(s, w)
    ensures InTurn(s, Step(s, w, ExportI)) && InTurn(s, Step(s, w, ExportR))
  {
    hide Honest, FromInitiator, FromResponder, Standing, Exported;
    ExportKeepsStanding(s, w.i);
    ExportKeepsStanding(s, w.r);
  }

  lemma StepKeepsTurn(s: Suite, w: World, ev: Event)
    requires HonestDhSucceeds(s) && InTurn(s, w)
    ensures InTurn(s, Step(s, w, ev))
  {
    hide InTurn, CallI, CallR;
    match ev
    case PokeI(eph) => PokeKeepsTurn(s, w, eph);
    case PokeR(eph) => PokeKeepsTurn(s, w, eph);
    case DeliverI(eph) => DeliverKeepsTurn(s, w, eph);
    case DeliverR(eph) => DeliverKeepsTurn(s, w, eph);
    case _ => ExportKeepsTurn(s, w);
  }

  lemma {:induction false} RunKeepsTurn(s: Suite, w: World, events: seq<Event>)
    requires HonestDhSucceeds(s) && InTurn(s, w)
    ensures InTurn(s, Run(s, w, events))
    decreases |events|
  {
    hide InTurn, Step;
    if events != [] {
      StepKeepsTurn(s, w, events[0]);
      RunKeepsTurn(s, Step(s, w, events[0]), events[1..]);
    }
  }

  function OpenSide(s: Suite, pattern: Pattern, initiator: bool, sSk: Key, preKnown: Option<Key>): Side {
    var session := OpenSession(s, pattern, initiator, sSk, s.pub(sSk), preKnown);
    Side(session, session.party, None)
  }

  /** Two freshly opened sessions of one pattern; the IK initiator is given the responder's static key. */
  function Opened(s: Suite, pattern: Pattern, si: Key, sr: Key): World {
    World(OpenSide(s, pattern, true, si, if pattern.IK? then Some(s.pub(sr)) else None),
          OpenSide(s, pattern, false, sr, None), [], [], 0, 0, 0)
  }

  /** What the invariant means to an observer. */
  ghost predicate Orderly(w: World) {
    var i, r := w.i.session.party, w.r.session.party;
    && w.refused == 0 && |w.toI| + |w.toR| <= 1
    && i.pattern == r.pattern && i.step <= r.step + 1 && r.step <= i.step + 1
    && w.sent == w.delivered + |w.toI| + |w.toR| <= TotalSteps(i.pattern)
    && w.sent + w.delivered == i.step + r.step
    && (w.toR != [] ==> r.step % 2 == 0 && !Complete(r)) && (w.toI != [] ==> i.step % 2 == 1 && !Complete(i))
    && ((Complete(i) && Complete(r)) <==> w.delivered == TotalSteps(i.pattern))
    && (w.i.keys.Some? ==> Complete(i)) && (w.r.keys.Some? ==> Complete(r))
  }

  lemma PatternsAgree(s: Suite, i: Party, r: Party, m: Bytes)
    requires FromInitiator(s, i, r, m) || FromResponder(s, i, r, m) || Honest(s, i, r)
    ensures i.pattern == r.pattern && i.step <= TotalSteps(i.pattern) && r.step <= TotalSteps(r.pattern)
  {
    if FromInitiator(s, i, r, m) {
      var i0: Party, eph: Key :|
        Honest(s, i0, r) && !Complete(i0) && i0.step % 2 == 0 && Write(s, i0, eph, []) == (i, Some(m));
      WriteKeepsKeyPresence(s, i0, eph, []);
    } else if FromResponder(s, i, r, m) {
      var r0: Party, eph: Key :|
        Honest(s, i, r0) && !Complete(r0) && r0.step % 2 == 1 && Write(s, r0, eph, []) == (r, Some(m));
      WriteKeepsKeyPresence(s, r0, eph, []);
    }
  }

  lemma TurnIsOrderly(s: Suite, w: World)
    requires InTurn(s, w)
    ensures Orderly(w)
  {
    hide Write, Read, Honest, FromInitiator, FromResponder;
    var i, r := w.i.live, w.r.live;
    if w.toR != [] {
      ResponderReads(s, i, r, w.toR[0]);
      PatternsAgree(s, i, r, w.toR[0]);
    } else if w.toI != [] {
      InitiatorReads(s, i, r, w.toI[0]);
      PatternsAgree(s, i, r, w.toI[0]);
    } else {
      HonestSteps(s, i, r);
      PatternsAgree(s, i, r, []);
    }
  }

  /**
   Any schedule of deliveries, spurious calls and exports, early ones included:
   nothing is refused or read out of turn, at most one message is in flight, the steps differ by at most one,
   and both sides are complete exactly when 3 (XX) or 2 (IK) messages have been
   sent and delivered.
   */
  lemma DriverSafety(s: Suite, pattern: Pattern, si: Key, sr: Key, events: seq<Event>)
    requires HonestDhSucceeds(s)
    ensures InTurn(s, Run(s, Opened(s, pattern, si, sr), events))
    ensures Orderly(Run(s, Opened(s, pattern, si, sr), events))
  {
    var w := Opened(s, pattern, si, sr);
    OpenIsHonest(s, pattern, si, sr);
    hide Open, Honest, FromInitiator, FromResponder, Orderly, Step;
    RunKeepsTurn(s, w, events);
    TurnIsOrderly(s, Run(s, w, events));
  }

  /** What no call and no export ever changes. */
  function Face(p: Party): (Pattern, bool, Key) {
    (p.pattern, p.initiator, p.sPk)
  }

  lemma MessagesKeepFace(s: Suite, p: Party, m: Bytes, eph: Key)
    ensures Face(Read(s, p, m).0) == Face(Write(s, p, eph, []).0) == Face(p)
  {
    ReadScriptKeys(s, p, ScriptOf(p.pattern, p.step), ActsAsInitiator(p.step, false), m);
    WriteScriptKeys(s, p, ScriptOf(p.pattern, p.step), ActsAsInitiator(p.step, true), eph, []);
    hide WriteScript, ReadScript, Hide, Unhide, ScriptOf;
  }

  lemma CallKeepsFace(s: Suite, x: Session, incoming: Bytes, eph: Key)
    ensures Face(Stepped(s, x, incoming, eph).0.party) == Face(x.party)
  {
    MessagesKeepFace(s, x.party, incoming, eph);
    MessagesKeepFace(s, Read(s, x.party, incoming).0, [], eph);
    hide Read, Write, Face;
  }

  lemma StepKeepsFaces(s: Suite, w: World, ev: Event)
    ensures var w' := Step(s, w, ev);
            && Face(w'.i.session.party) == Face(w.i.session.party)
            && Face(w'.r.session.party) == Face(w.r.session.party)
  {
    match ev
    case PokeI(eph) => CallKeepsFace(s, w.i.session, [], eph);
    case PokeR(eph) => CallKeepsFace(s, w.r.session, [], eph);
    case DeliverI(eph) => if w.toI != [] { CallKeepsFace(s, w.i.session, w.toI[0], eph); }
    case DeliverR(eph) => if w.toR != [] { CallKeepsFace(s, w.r.session, w.toR[0], eph); }
    case _ =>
  }

  lemma {:induction false} RunKeepsFaces(s: Suite, w: World, events: seq<Event>)
    ensures var w' := Run(s, w, events);
            && Face(w'.i.session.party) == Face(w.i.session.party)
            && Face(w'.r.session.party) == Face(w.r.session.party)
    decreases |events|
  {
    hide Step, Face;
    if events != [] {
      StepKeepsFaces(s, w, events[0]);
      RunKeepsFaces(s, Step(s, w, events[0]), events[1..]);
    }
  }

  /** The call that moves things on: deliver what is in flight, or let the writer write. */
  function Useful(w: World, eph: Key): Event {
    if w.toR != [] then DeliverR(eph) else if w.toI != [] then DeliverI(eph)
    else if WriterTurn(w.i.session) then PokeI(eph) else PokeR(eph)
  }

  /** Until both sides are complete, one useful call is always there and takes the handshake further. */
  lemma Progress(s: Suite, w: World, eph: Key)
    requires HonestDhSucceeds(s) && InTurn(s, w)
    requires !(Complete(w.i.live) && Complete(w.r.live))
    ensures var w' := Step(s, w, Useful(w, eph)); w'.sent + w'.delivered > w.sent + w.delivered
  {
    hide Write, Read, Honest, FromInitiator, FromResponder;
    var i, r := w.i.live, w.r.live;
    if w.toR != [] {
      ResponderReads(s, i, r, w.toR[0]);
      IncompleteIsLive(s, w.r);
    } else if w.toI != [] {
      InitiatorReads(s, i, r, w.toI[0]);
      IncompleteIsLive(s, w.i);
    } else {
      HonestSteps(s, i, r);
      IncompleteIsLive(s, w.i);
      IncompleteIsLive(s, w.r);
      if i.step % 2 == 0 {
        InitiatorWrites(s, i, r, eph);
      } else {
        ResponderWrites(s, i, r, eph);
      }
    }
  }

  // ---- Liveness ----

  predicate BothComplete(w: World) {
    Complete(w.i.session.party) && Complete(w.r.session.party)
  }

  predicate InFlight(w: World) {
    w.toI != [] || w.toR != []
  }

  /** How many useful calls are missing: one per message to be delivered, and one to write if none is in flight. */
  function Missing(w: World): int {
    var total := TotalSteps(w.i.session.party.pattern);
    if w.delivered == total then 0 else total - w.delivered + if InFlight(w) then 0 else 1
  }

  /** A delivery is followed by the answer in the same call, unless the pattern is over. */
  lemma DeliveryIsAnswered(s: Suite, w: World, eph: Key)
    requires HonestDhSucceeds(s) && InTurn(s, w) && InFlight(w)
    ensures var w' := Step(s, w, Useful(w, eph));
            && w'.delivered == w.delivered + 1 && w'.i.live.pattern == w.i.live.pattern
            && (InFlight(w') || Complete(w'.i.live))
  {
    hide Write, Read, Honest, FromInitiator, FromResponder, ExportOf;
    var i, r := w.i.live, w.r.live;
    if w.toR != [] {
      ResponderReads(s, i, r, w.toR[0]);
      IncompleteIsLive(s, w.r);
      var r' := Read(s, r, w.toR[0]).0;
      HonestSteps(s, i, r');
      if !Complete(r') {
        ResponderWrites(s, i, r', eph);
      }
    } else {
      InitiatorReads(s, i, r, w.toI[0]);
      IncompleteIsLive(s, w.i);
      var i' := Read(s, i, w.toI[0]).0;
      HonestSteps(s, i', r);
      PatternsAgree(s, i', r, []);
      PatternsAgree(s, i, r, w.toI[0]);
      if !Complete(i') {
        InitiatorWrites(s, i', r, eph);
        PatternsAgree(s, Write(s, i', eph, []).0, r, Write(s, i', eph, []).1.value);
      }
    }
  }

  /** With nothing in flight and the pattern not over, the side in turn writes. */
  lemma IdleWrites(s: Suite, w: World, eph: Key)
    requires HonestDhSucceeds(s) && InTurn(s, w) && !InFlight(w) && !Complete(w.i.live)
    ensures var w' := Step(s, w, Useful(w, eph));
            InFlight(w') && w'.delivered == w.delivered && w'.i.live.pattern == w.i.live.pattern
  {
    hide Write, Read, Honest, FromInitiator, FromResponder, ExportOf;
    var i, r := w.i.live, w.r.live;
    HonestSteps(s, i, r);
    IncompleteIsLive(s, w.i);
    IncompleteIsLive(s, w.r);
    PatternsAgree(s, i, r, []);
    if i.step % 2 == 0 {
      InitiatorWrites(s, i, r, eph);
      PatternsAgree(s, Write(s, i, eph, []).0, r, Write(s, i, eph, []).1.value);
    } else {
      ResponderWrites(s, i, r, eph);
    }
  }

  lemma OverIsUnmoved(s: Suite, w: World, eph: Key)
    requires InTurn(s, w) && !InFlight(w) && Complete(w.i.live)
    ensures Step(s, w, Useful(w, eph)) == w
  {
    HonestSteps(s, w.i.live, w.r.live);
    CompleteIsUnmoved(s, w.i, eph);
    CompleteIsUnmoved(s, w.r, eph);
    hide Called, Standing, Honest, FromInitiator, FromResponder;
  }

  /** What the count of missing calls means. */
  lemma MissingMeans(s: Suite, w: World)
    requires InTurn(s, w)
    ensures Orderly(w) && w.i.session.party.pattern == w.i.live.pattern
    ensures BothComplete(w) <==> Missing(w) == 0
    ensures !InFlight(w) ==> (Missing(w) == 0 <==> Complete(w.i.live))
    ensures InFlight(w) ==> Missing(w) > 0
    ensures 0 <= Missing(w) <= TotalSteps(w.i.live.pattern) + 1
  {
    TurnIsOrderly(s, w);
    hide Honest, FromInitiator, FromResponder, ExportOf;
    if !InFlight(w) {
      HonestSteps(s, w.i.live, w.r.live);
    }
  }

  /** Every useful call brings the end one call nearer. */
  lemma UsefulCall(s: Suite, w: World, eph: Key)
    requires HonestDhSucceeds(s) && InTurn(s, w)
    ensures var w' := Step(s, w, Useful(w, eph));
            InTurn(s, w') && Missing(w') == if Missing(w) == 0 then 0 else Missing(w) - 1
  {
    hide InTurn, Step, Complete;
    var w' := Step(s, w, Useful(w, eph));
    StepKeepsTurn(s, w, Useful(w, eph));
    MissingMeans(s, w);
    MissingMeans(s, w');
    if InFlight(w) {
      DeliveryIsAnswered(s, w, eph);
    } else if Complete(w.i.live) {
      OverIsUnmoved(s, w, eph);
    } else {
      IdleWrites(s, w, eph);
    }
  }

  /** Nothing but useful calls. */
  function Drive(s: Suite, w: World, ephs: seq<Key>): World
    decreases |ephs|
  {
    if ephs == [] then w else Drive(s, Step(s, w, Useful(w, ephs[0])), ephs[1..])
  }

  lemma {:induction false} DriveCounts(s: Suite, w: World, ephs: seq<Key>)
    requires HonestDhSucceeds(s) && InTurn(s, w) && Missing(w) >= 0
    ensures var w' := Drive(s, w, ephs);
            InTurn(s, w') && Missing(w') == if Missing(w) <= |ephs| then 0 else Missing(w) - |ephs|
    decreases |ephs|
  {
    hide InTurn, Step, Missing;
    if ephs != [] {
      UsefulCall(s, w, ephs[0]);
      DriveCounts(s, Step(s, w, Useful(w, ephs[0])), ephs[1..]);
    }
  }

  /**
   From the end of any schedule, exports and spurious calls included: both sides
   are complete after exactly `Missing` useful calls, of which there are never more
   than one per message and one; and then both exports succeed, if not made before.
   */
  lemma Liveness(s: Suite, pattern: Pattern, si: Key, sr: Key, events: seq<Event>, ephs: seq<Key>)
    requires HonestDhSucceeds(s)
    ensures var w := Run(s, Opened(s, pattern, si, sr), events);
            var w' := Drive(s, w, ephs);
            var out := Step(s, Step(s, w', ExportI), ExportR);
            && (BothComplete(w') <==> Missing(w) <= |ephs|)
            && Missing(w) <= TotalSteps(pattern) + 1
            && (Missing(w) <= |ephs| ==> out.i.keys.Some? && out.r.keys.Some?)
  {
    var w := Run(s, Opened(s, pattern, si, sr), events);
    DriverSafety(s, pattern, si, sr, events);
    RunKeepsFaces(s, Opened(s, pattern, si, sr), events);
    OpenIsHonest(s, pattern, si, sr);
    assert w.i.session.party.pattern == pattern;
    hide Run, Opened, InTurn, Drive, Missing;
    MissingMeans(s, w);
    DriveCounts(s, w, ephs);
    var w' := Drive(s, w, ephs);
    MissingMeans(s, w');
    if BothComplete(w') {
      BothExport(s, w');
    }
  }

  lemma BothExport(s: Suite, w: World)
    requires InTurn(s, w) && BothComplete(w)
    ensures var out := Step(s, Step(s, w, ExportI), ExportR); out.i.keys.Some? && out.r.keys.Some?
  {
    hide Honest, FromInitiator, FromResponder, ExportOf;
    ExportKeepsStanding(s, w.i);
    ExportKeepsStanding(s, w.r);
  }

  /** A delivery is always taken, and answered with a message unless it was the last one. */
  lemma DeliveryIsOk(s: Suite, w: World, eph: Key)
    requires HonestDhSucceeds(s) && InTurn(s, w)
    ensures w.toI != [] ==>
              var reply := Called(s, w.i, w.toI[0], eph).1;
              reply.Ok? && (reply.out == [] <==> w.i.live.step + 1 == TotalSteps(w.i.live.pattern))
    ensures w.toR != [] ==>
              var reply := Called(s, w.r, w.toR[0], eph).1;
              reply.Ok? && (reply.out == [] <==> w.r.live.step + 1 == TotalSteps(w.r.live.pattern))
  {
    hide Write, Read, Honest, FromInitiator, FromResponder, ExportOf;
    var i, r := w.i.live, w.r.live;
    if w.toR != [] {
      ResponderReads(s, i, r, w.toR[0]);
      MessagesKeepFace(s, r, w.toR[0], eph);
      IncompleteIsLive(s, w.r);
      var r' := Read(s, r, w.toR[0]).0;
      HonestSteps(s, i, r');
      if !Complete(r') {
        ResponderWrites(s, i, r', eph);
      }
    } else if w.toI != [] {
      InitiatorReads(s, i, r, w.toI[0]);
      MessagesKeepFace(s, i, w.toI[0], eph);
      IncompleteIsLive(s, w.i);
      var i' := Read(s, i, w.toI[0]).0;
      HonestSteps(s, i', r);
      if !Complete(i') {
        InitiatorWrites(s, i', r, eph);
      }
    }
  }

  /** How a session answers an empty call. */
  ghost predicate AnswersEmptyCall(s: Suite, x: Session, eph: Key) {
    var (x', reply) := Stepped(s, x, [], eph);
    && (reply == InvalidEnvelope <==> Complete(x.party) && WriterTurn(x))
    && (reply == InvalidEnvelope || !WriterTurn(x) ==> x' == x)
  }

  /** An empty call is refused exactly when the pattern is over and the next turn would be ours, changing nothing. */
  lemma SpuriousCallReply(s: Suite, w: World, eph: Key)
    requires HonestDhSucceeds(s) && InTurn(s, w)
    ensures AnswersEmptyCall(s, w.i.session, eph) && AnswersEmptyCall(s, w.r.session, eph)
  {
    hide Write, Read, Honest, FromInitiator, FromResponder, ExportOf, InTurn;
    InitiatorAnswers(s, w, eph);
    ResponderAnswers(s, w, eph);
  }

  lemma InitiatorAnswers(s: Suite, w: World, eph: Key)
    requires HonestDhSucceeds(s) && InTurn(s, w)
    ensures AnswersEmptyCall(s, w.i.session, eph)
  {
    hide Write, Read, Honest, FromInitiator, FromResponder, ExportOf;
    var i, r := w.i.live, w.r.live;
    if Complete(i) {
      CompleteWritesNothing(s, w.i.session.party, eph);
    } else if w.toR != [] {
      ResponderReads(s, i, r, w.toR[0]);
    } else if w.toI != [] {
      InitiatorReads(s, i, r, w.toI[0]);
    } else if i.step % 2 == 0 {
      InitiatorWrites(s, i, r, eph);
    }
  }

  lemma ResponderAnswers(s: Suite, w: World, eph: Key)
    requires HonestDhSucceeds(s) && InTurn(s, w)
    ensures AnswersEmptyCall(s, w.r.session, eph)
  {
    hide Write, Read, Honest, FromInitiator, FromResponder, ExportOf;
    var i, r := w.i.live, w.r.live;
    if Complete(r) {
      CompleteWritesNothing(s, w.r.session.party, eph);
    } else if w.toR != [] {
      ResponderReads(s, i, r, w.toR[0]);
    } else if w.toI != [] {
      InitiatorReads(s, i, r, w.toI[0]);
    } else if r.step % 2 == 1 {
      ResponderWrites(s, i, r, eph);
    }
  }
}
