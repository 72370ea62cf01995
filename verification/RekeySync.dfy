/**
 Two peers, two reliable FIFO channels, and the automatic rekey.  One rekey call
 of a peer changes both of its directions, so staying in step is a property of
 the pair.  In every run a frame is rejected exactly when its receiver has moved
 to a later epoch, and the peers pair up again whenever nothing is in flight.
 `Safe` is the exact condition, on the state before a call, under which no frame
 is lost.
 */
module RekeySync {
  import opened Octets
  import opened Primitives
  import opened CipherStates
  import opened Transports

  /** A peer's transport, its number of rekeys, what it has sent, and the outcome of every delivery to it. */
  datatype Peer = Peer(t: Transport, epoch: nat, sent: seq<Bytes>, outcomes: seq<Option<Bytes>>)

  /** A ciphertext on its way, and as history where its sender stood and what it sealed. */
  datatype InFlight = InFlight(ct: Bytes, epoch: nat, n: nat, plain: Bytes)

  datatype World = World(a: Peer, b: Peer, toB: seq<InFlight>, toA: seq<InFlight>)

  datatype Event = SendA(plaintext: Bytes) | SendB(plaintext: Bytes) | DeliverA | DeliverB

  function Swap(w: World): World {
    World(w.b, w.a, w.toA, w.toB)
  }

  function Rekeys(t: Transport): nat {
    if NeedsRekey(t) then 1 else 0
  }

  function SendFromA(s: Suite, w: World, p: Bytes): World {
    var (t, ct) := SealThenRekey(s, w.a.t, p);
    var a := w.a.(t := t, epoch := w.a.epoch + Rekeys(Sealed(s, w.a.t, p).0), sent := w.a.sent + [p]);
    w.(a := a, toB := w.toB + [InFlight(ct, w.a.epoch, w.a.t.send.n, p)])
  }

  /** The receiver sees the ciphertext only. */
  function DeliverToA(s: Suite, w: World): World {
    if w.toA == [] then w
    else
      var (t, plain) := OpenThenRekey(s, w.a.t, w.toA[0].ct);
      var rekeys := if plain.None? then 0 else Rekeys(Opened(s, w.a.t, w.toA[0].ct).0);
      w.(a := w.a.(t := t, epoch := w.a.epoch + rekeys, outcomes := w.a.outcomes + [plain]), toA := w.toA[1..])
  }

  function Step(s: Suite, w: World, ev: Event): World {
    match ev
    case SendA(p) => SendFromA(s, w, p)
    case SendB(p) => Swap(SendFromA(s, Swap(w), p))
    case DeliverA => DeliverToA(s, w)
    case DeliverB => Swap(DeliverToA(s, Swap(w)))
  }

  function Run(s: Suite, w: World, events: seq<Event>): World
    decreases |events|
  {
    if events == [] then w else Run(s, Step(s, w, events[0]), events[1..])
  }

  /** Freshly split transports: A sends on k1, B on k2. */
  function Fresh(k1: Key, k2: Key): World {
    World(Peer(Transport(Keyed(k1), Keyed(k2)), 0, [], []), Peer(Transport(Keyed(k2), Keyed(k1)), 0, [], []), [], [])
  }

  // ---- The condition ----

  /** A may send: it is not behind, and if this send crosses the boundary nothing is in flight towards it. */
  predicate MaySend(w: World) {
    w.a.epoch >= w.b.epoch && (w.a.t.send.n + 1 == REKEY_INTERVAL ==> w.toA == [])
  }

  predicate Safe(w: World, ev: Event) {
    match ev
    case SendA(_) => MaySend(w)
    case SendB(_) => MaySend(Swap(w))
    case _ => true
  }

  predicate SafeRun(s: Suite, w: World, events: seq<Event>)
    decreases |events|
  {
    events != [] ==> Safe(w, events[0]) && SafeRun(s, Step(s, w, events[0]), events[1..])
  }

  /** What a caller sees: every delivery so far succeeded. */
  predicate NoneRejected(w: World) {
    None !in w.a.outcomes && None !in w.b.outcomes
  }

  // ---- The invariant of every run ----

  /** Epochs are consecutive blocks of 2^60 counters. */
  function Position(epoch: nat, n: nat): nat {
    epoch * REKEY_INTERVAL + n
  }

  ghost predicate Stamped(s: Suite, k: Key, f: InFlight) {
    f.n < REKEY_INTERVAL && f.ct == s.seal(EpochKey(s, k, f.epoch), WireNonceOf(f.n), [], f.plain)
  }

  ghost predicate OnSchedule(s: Suite, kSend: Key, kRecv: Key, p: Peer) {
    && BelowInterval(p.t)
    && p.t.send.k == EpochKey(s, kSend, p.epoch)
    && p.t.recv.k == EpochKey(s, kRecv, p.epoch)
  }

  /**
   One direction.  The oldest `m` frames are of epochs the receiver has left; the
   others sit at the contiguous positions between the two counters.  A receiver
   ahead of its sender has only such old frames coming, and has received nothing
   in its epoch.
   */
  ghost predicate Queued(tx: Peer, rx: Peer, channel: seq<InFlight>, m: nat) {
    && m <= |channel| && (forall i :: 0 <= i < m ==> channel[i].epoch < rx.epoch)
    && if tx.epoch < rx.epoch then m == |channel| && rx.t.recv.n == 0
       else
         var start := Position(rx.epoch, rx.t.recv.n);
         && start + |channel| - m == Position(tx.epoch, tx.t.send.n)
         && forall i :: m <= i < |channel| ==> Position(channel[i].epoch, channel[i].n) == start + i - m
  }

  /** Every frame sent has an outcome, its own plaintext or a rejection, or is in flight, in order. */
  ghost predicate Recorded(tx: Peer, rx: Peer, channel: seq<InFlight>) {
    && |tx.sent| == |rx.outcomes| + |channel|
    && (forall i :: 0 <= i < |rx.outcomes| ==> rx.outcomes[i].None? || rx.outcomes[i] == Some(tx.sent[i]))
    && (forall i :: 0 <= i < |channel| ==> channel[i].plain == tx.sent[|rx.outcomes| + i])
  }

  ghost predicate Direction(s: Suite, k: Key, tx: Peer, rx: Peer, channel: seq<InFlight>) {
    && (exists m :: Queued(tx, rx, channel, m)) && Recorded(tx, rx, channel)
    && forall i :: 0 <= i < |channel| ==> Stamped(s, k, channel[i])
  }

  ghost predicate Aligned(s: Suite, k1: Key, k2: Key, w: World) {
    && OnSchedule(s, k1, k2, w.a) && OnSchedule(s, k2, k1, w.b)
    && Direction(s, k1, w.a, w.b, w.toB) && Direction(s, k2, w.b, w.a, w.toA)
  }

  /** No frame in flight is of an epoch its receiver has left. */
  predicate NoneStale(rx: Peer, channel: seq<InFlight>) {
    forall i :: 0 <= i < |channel| ==> channel[i].epoch >= rx.epoch
  }

  predicate Lossless(w: World) {
    NoneRejected(w) && NoneStale(w.a, w.toA) && NoneStale(w.b, w.toB)
  }

  // ---- One direction at a time ----

  /** `(epoch', n')` is one position further on in a direction. */
  predicate Next(epoch: nat, n: nat, epoch': nat, n': nat) {
    if n + 1 == REKEY_INTERVAL then epoch' == epoch + 1 && n' == 0 else epoch' == epoch && n' == n + 1
  }

  lemma FrameEnters(tx: Peer, rx: Peer, channel: seq<InFlight>, m: nat, tx': Peer, f: InFlight)
    requires Queued(tx, rx, channel, m)
    requires Next(tx.epoch, tx.t.send.n, tx'.epoch, tx'.t.send.n) && f.epoch == tx.epoch && f.n == tx.t.send.n
    ensures Queued(tx', rx, channel + [f], if tx.epoch < rx.epoch then m + 1 else m)
  {
  }

  /** The receiving end rekeys because of its own send: what it has outrun joins the old frames. */
  lemma ReceiverMovesOn(tx: Peer, rx: Peer, channel: seq<InFlight>, m: nat, rx': Peer) returns (m': nat)
    requires Queued(tx, rx, channel, m) && tx.t.send.n < REKEY_INTERVAL && rx.t.recv.n < REKEY_INTERVAL
    requires rx'.epoch == rx.epoch + 1 && rx'.t.recv.n == 0
    ensures Queued(tx, rx', channel, m')
  {
    m' := if tx.epoch <= rx.epoch then |channel| else m + (REKEY_INTERVAL - rx.t.recv.n);
  }

  lemma OldFrameLeaves(tx: Peer, rx: Peer, channel: seq<InFlight>, m: nat, rx': Peer)
    requires Queued(tx, rx, channel, m) && m > 0
    requires rx'.epoch == rx.epoch && rx'.t.recv.n == rx.t.recv.n
    ensures Queued(tx, rx', channel[1..], m - 1)
  {
  }

  lemma DueFrameLeaves(tx: Peer, rx: Peer, channel: seq<InFlight>, rx': Peer)
    requires Queued(tx, rx, channel, 0) && channel != []
    requires tx.t.send.n < REKEY_INTERVAL && rx.t.recv.n < REKEY_INTERVAL && channel[0].n < REKEY_INTERVAL
    requires Next(rx.epoch, rx.t.recv.n, rx'.epoch, rx'.t.recv.n)
    ensures channel[0].epoch == rx.epoch && channel[0].n == rx.t.recv.n
    ensures tx.epoch >= rx'.epoch && Queued(tx, rx', channel[1..], 0)
  {
    assert Position(channel[0].epoch, channel[0].n) == Position(rx.epoch, rx.t.recv.n);
  }

  // ---- What a call does to its own peer ----

  lemma SendEffect(s: Suite, k1: Key, k2: Key, w: World, p: Bytes)
    requires OnSchedule(s, k1, k2, w.a)
    ensures var a, a' := w.a, SendFromA(s, w, p).a;
            && OnSchedule(s, k1, k2, a') && Next(a.epoch, a.t.send.n, a'.epoch, a'.t.send.n)
            && a'.t.recv.n == (if a'.epoch == a.epoch then a.t.recv.n else 0)
            && a'.sent == a.sent + [p] && a'.outcomes == a.outcomes
    ensures var w' := SendFromA(s, w, p);
            && w'.b == w.b && w'.toA == w.toA && |w'.toB| == |w.toB| + 1 && w'.toB == w.toB + [w'.toB[|w.toB|]]
            && var f := w'.toB[|w.toB|];
               Stamped(s, k1, f) && f.epoch == w.a.epoch && f.n == w.a.t.send.n && f.plain == p
  {
  }

  /** The frame due is opened to its own plaintext. */
  lemma DueFrameEffect(s: Suite, k1: Key, k2: Key, w: World)
    requires OnSchedule(s, k1, k2, w.a) && w.toA != [] && Stamped(s, k2, w.toA[0])
    requires w.toA[0].epoch == w.a.epoch && w.toA[0].n == w.a.t.recv.n
    ensures var a, a' := w.a, DeliverToA(s, w).a;
            && OnSchedule(s, k1, k2, a') && Next(a.epoch, a.t.recv.n, a'.epoch, a'.t.recv.n)
            && a'.t.send.n == (if a'.epoch == a.epoch then a.t.send.n else 0)
            && a'.sent == a.sent && a'.outcomes == a.outcomes + [Some(w.toA[0].plain)]
  {
  }

  /** A frame of another epoch is rejected, and the receiver does not move. */
  lemma OldFrameEffect(s: Suite, k1: Key, k2: Key, w: World)
    requires Ideal(s) && FreshKeySchedule(s)
    requires OnSchedule(s, k1, k2, w.a) && w.toA != [] && Stamped(s, k2, w.toA[0])
    requires w.toA[0].epoch != w.a.epoch
    ensures DeliverToA(s, w).a == w.a.(outcomes := w.a.outcomes + [None])
  {
    var f := w.toA[0];
    assert EpochKey(s, k2, f.epoch) != EpochKey(s, k2, w.a.epoch);
    assert s.unseal(w.a.t.recv.k, WireNonceOf(w.a.t.recv.n), [], f.ct).None?;
  }

  // ---- One direction, whole ----

  lemma SentDirection(s: Suite, k: Key, tx: Peer, rx: Peer, channel: seq<InFlight>, tx': Peer, f: InFlight)
    requires Direction(s, k, tx, rx, channel) && Stamped(s, k, f)
    requires Next(tx.epoch, tx.t.send.n, tx'.epoch, tx'.t.send.n) && f.epoch == tx.epoch && f.n == tx.t.send.n
    requires tx'.sent == tx.sent + [f.plain]
    ensures Direction(s, k, tx', rx, channel + [f])
  {
    hide Queued, Stamped;
    var m :| Queued(tx, rx, channel, m);
    FrameEnters(tx, rx, channel, m, tx', f);
  }

  /** The other direction of a peer that sends: unchanged, or its receiver moves on. */
  lemma ReturnDirection(s: Suite, k: Key, tx: Peer, rx: Peer, channel: seq<InFlight>, rx': Peer)
    requires Direction(s, k, tx, rx, channel) && tx.t.send.n < REKEY_INTERVAL && rx.t.recv.n < REKEY_INTERVAL
    requires rx'.outcomes == rx.outcomes
    requires || (rx'.epoch == rx.epoch && rx'.t.recv.n == rx.t.recv.n)
             || (rx'.epoch == rx.epoch + 1 && rx'.t.recv.n == 0)
    ensures Direction(s, k, tx, rx', channel)
  {
    var m :| Queued(tx, rx, channel, m);
    if rx'.epoch == rx.epoch {
      assert Queued(tx, rx', channel, m);
    } else {
      hide Queued, Stamped;
      var _ := ReceiverMovesOn(tx, rx, channel, m, rx');
    }
  }

  lemma RejectedDirection(s: Suite, k: Key, tx: Peer, rx: Peer, channel: seq<InFlight>, rx': Peer)
    requires Direction(s, k, tx, rx, channel) && channel != [] && channel[0].epoch < rx.epoch
    requires rx' == rx.(outcomes := rx.outcomes + [None])
    ensures Direction(s, k, tx, rx', channel[1..])
  {
    var m :| Queued(tx, rx, channel, m);
    hide Stamped;
    OldFrameLeaves(tx, rx, channel, m, rx');
  }

  lemma AcceptedDirection(s: Suite, k: Key, tx: Peer, rx: Peer, channel: seq<InFlight>, rx': Peer)
    requires Direction(s, k, tx, rx, channel) && channel != [] && channel[0].epoch >= rx.epoch
    requires tx.t.send.n < REKEY_INTERVAL && rx.t.recv.n < REKEY_INTERVAL
    requires Next(rx.epoch, rx.t.recv.n, rx'.epoch, rx'.t.recv.n)
    requires rx'.outcomes == rx.outcomes + [Some(channel[0].plain)]
    ensures tx.epoch >= rx'.epoch && Direction(s, k, tx, rx', channel[1..]) && NoneStale(rx', channel[1..])
  {
    var m :| Queued(tx, rx, channel, m);
    assert m == 0;
    DueFrameLeaves(tx, rx, channel, rx');
    hide Stamped;
  }

  /** The other direction of a peer that receives: unchanged, or its sender, behind, catches up an epoch. */
  lemma CaughtUpDirection(s: Suite, k: Key, tx: Peer, rx: Peer, channel: seq<InFlight>, tx': Peer)
    requires Direction(s, k, tx, rx, channel) && tx'.sent == tx.sent
    requires || (tx'.epoch == tx.epoch && tx'.t.send.n == tx.t.send.n)
             || (tx'.epoch == tx.epoch + 1 <= rx.epoch && tx'.t.send.n == 0)
    ensures Direction(s, k, tx', rx, channel)
  {
    var m :| Queued(tx, rx, channel, m);
    assert Queued(tx', rx, channel, m);
  }

  /** The oldest frame in flight is of an epoch its receiver has left, or is exactly the one due. */
  lemma HeadIsOldOrDue(s: Suite, k: Key, tx: Peer, rx: Peer, channel: seq<InFlight>)
    requires Direction(s, k, tx, rx, channel) && channel != [] && rx.t.recv.n < REKEY_INTERVAL
    ensures channel[0].epoch < rx.epoch || (channel[0].epoch == rx.epoch && channel[0].n == rx.t.recv.n)
    ensures channel[0].epoch < rx.epoch || NoneStale(rx, channel)
    ensures Stamped(s, k, channel[0]) && |rx.outcomes| < |tx.sent| && channel[0].plain == tx.sent[|rx.outcomes|]
  {
    var m :| Queued(tx, rx, channel, m);
    assert channel[0].plain == tx.sent[|rx.outcomes| + 0];
    if m == 0 {
      assert Position(channel[0].epoch, channel[0].n) == Position(rx.epoch, rx.t.recv.n);
    }
  }

  // ---- Every event keeps the invariant ----

  lemma SendKeepsAligned(s: Suite, k1: Key, k2: Key, w: World, p: Bytes)
    requires Aligned(s, k1, k2, w)
    ensures Aligned(s, k1, k2, SendFromA(s, w, p))
  {
    SendEffect(s, k1, k2, w, p);
    hide SendFromA, Stamped, Direction;
    var w' := SendFromA(s, w, p);
    SentDirection(s, k1, w.a, w.b, w.toB, w'.a, w'.toB[|w.toB|]);
    ReturnDirection(s, k2, w.b, w.a, w.toA, w'.a);
  }

  /** A stale frame is rejected, which takes an ideal suite to prove; any other frame opens to its own plaintext. */
  lemma DeliverKeepsAligned(s: Suite, k1: Key, k2: Key, w: World)
    requires Aligned(s, k1, k2, w) && w.toA != []
    requires w.toA[0].epoch < w.a.epoch ==> Ideal(s) && FreshKeySchedule(s)
    ensures Aligned(s, k1, k2, DeliverToA(s, w))
    ensures w.toA[0].epoch >= w.a.epoch ==> NoneStale(DeliverToA(s, w).a, w.toA[1..])
    ensures DeliverToA(s, w).a.outcomes
         == w.a.outcomes + [if w.toA[0].epoch < w.a.epoch then None else Some(w.toA[0].plain)]
  {
    HeadIsOldOrDue(s, k2, w.b, w.a, w.toA);
    var w' := DeliverToA(s, w);
    if w.toA[0].epoch < w.a.epoch {
      OldFrameEffect(s, k1, k2, w);
      hide Stamped, Direction, Ideal;
      RejectedDirection(s, k2, w.b, w.a, w.toA, w'.a);
    } else {
      DueFrameEffect(s, k1, k2, w);
      hide Stamped, Direction;
      AcceptedDirection(s, k2, w.b, w.a, w.toA, w'.a);
    }
    CaughtUpDirection(s, k1, w.a, w.b, w.toB, w'.a);
  }

  lemma StepKeepsAligned(s: Suite, k1: Key, k2: Key, w: World, ev: Event)
    requires Aligned(s, k1, k2, w) && (Lossless(w) || (Ideal(s) && FreshKeySchedule(s)))
    ensures Aligned(s, k1, k2, Step(s, w, ev))
  {
    hide Direction, OnSchedule, SendFromA, Ideal, FreshKeySchedule;
    match ev
    case SendA(p) => SendKeepsAligned(s, k1, k2, w, p);
    case SendB(p) => SendKeepsAligned(s, k2, k1, Swap(w), p);
    case DeliverA => if w.toA != [] { DeliverKeepsAligned(s, k1, k2, w); }
    case DeliverB => if w.toB != [] { DeliverKeepsAligned(s, k2, k1, Swap(w)); }
  }

  lemma {:induction false} RunKeepsAligned(s: Suite, k1: Key, k2: Key, w: World, events: seq<Event>)
    requires Ideal(s) && FreshKeySchedule(s) && Aligned(s, k1, k2, w)
    ensures Aligned(s, k1, k2, Run(s, w, events))
    decreases |events|
  {
    hide Aligned, Step, Ideal, FreshKeySchedule;
    if events != [] {
      StepKeepsAligned(s, k1, k2, w, events[0]);
      RunKeepsAligned(s, k1, k2, Step(s, w, events[0]), events[1..]);
    }
  }

  lemma FreshIsAligned(s: Suite, k1: Key, k2: Key)
    ensures Aligned(s, k1, k2, Fresh(k1, k2)) && Lossless(Fresh(k1, k2))
  {
    var w := Fresh(k1, k2);
    assert Queued(w.a, w.b, w.toB, 0) && Queued(w.b, w.a, w.toA, 0);
  }

  // ---- Every run: fate of a frame, and convergence ----

  /** What a delivery to A gives: a rejection if A has left the frame's epoch, or else the very plaintext B sent. */
  ghost predicate Fated(s: Suite, w: World) {
    w.toA != [] ==>
      && |w.a.outcomes| < |w.b.sent|
      && DeliverToA(s, w).a.outcomes
         == w.a.outcomes + [if w.toA[0].epoch < w.a.epoch then None else Some(w.b.sent[|w.a.outcomes|])]
  }

  /**
   Any run, safe or not: a delivered frame is rejected if and only if it is of an
   epoch its receiver has left, and otherwise decrypts to its own plaintext.
   */
  lemma ExactFate(s: Suite, k1: Key, k2: Key, events: seq<Event>)
    requires Ideal(s) && FreshKeySchedule(s)
    ensures var w := Run(s, Fresh(k1, k2), events);
            && Fated(s, w) && Fated(s, Swap(w))
            && Recorded(w.a, w.b, w.toB) && Recorded(w.b, w.a, w.toA)
  {
    FreshIsAligned(s, k1, k2);
    RunKeepsAligned(s, k1, k2, Fresh(k1, k2), events);
    var w := Run(s, Fresh(k1, k2), events);
    hide Fresh, Run, Ideal, FreshKeySchedule;
    AlignedIsFated(s, k1, k2, w);
    AlignedIsFated(s, k2, k1, Swap(w));
  }

  lemma AlignedIsFated(s: Suite, k1: Key, k2: Key, w: World)
    requires Ideal(s) && FreshKeySchedule(s) && Aligned(s, k1, k2, w)
    ensures Fated(s, w)
  {
    hide Ideal, FreshKeySchedule, DeliverToA;
    if w.toA != [] {
      HeadIsOldOrDue(s, k2, w.b, w.a, w.toA);
      hide Direction, OnSchedule;
      DeliverKeepsAligned(s, k1, k2, w);
    }
  }

  /** Each peer's send cipher is the other's receive cipher. */
  predicate Paired(w: World) {
    w.a.epoch == w.b.epoch && w.a.t.send == w.b.t.recv && w.a.t.recv == w.b.t.send
  }

  /** Any run, safe or not, whatever was lost: once nothing is in flight the two peers agree on both ciphers. */
  lemma Convergence(s: Suite, k1: Key, k2: Key, events: seq<Event>)
    requires Ideal(s) && FreshKeySchedule(s)
    ensures var w := Run(s, Fresh(k1, k2), events); w.toA == w.toB == [] ==> Paired(w)
  {
    FreshIsAligned(s, k1, k2);
    RunKeepsAligned(s, k1, k2, Fresh(k1, k2), events);
    var w := Run(s, Fresh(k1, k2), events);
    hide Fresh, Run, Ideal, FreshKeySchedule, Stamped, Recorded;
    if w.toA == w.toB == [] {
      assert Queued(w.a, w.b, [], 0) && Queued(w.b, w.a, [], 0);
    }
  }

  // ---- Safe runs lose nothing ----

  /** Received is a prefix of sent; what is in flight is the rest, at contiguous (epoch, counter) positions. */
  ghost predicate InOrder(s: Suite, k: Key, tx: Peer, rx: Peer, channel: seq<InFlight>) {
    && |tx.sent| == |rx.outcomes| + |channel|
    && (forall i :: 0 <= i < |rx.outcomes| ==> rx.outcomes[i] == Some(tx.sent[i]))
    && forall i :: 0 <= i < |channel| ==>
         && Stamped(s, k, channel[i]) && channel[i].plain == tx.sent[|rx.outcomes| + i]
         && Position(channel[i].epoch, channel[i].n) == Position(rx.epoch, rx.t.recv.n) + i
  }

  lemma LosslessIsInOrder(s: Suite, k: Key, tx: Peer, rx: Peer, channel: seq<InFlight>)
    requires Direction(s, k, tx, rx, channel) && None !in rx.outcomes && NoneStale(rx, channel)
    ensures InOrder(s, k, tx, rx, channel)
  {
    var m :| Queued(tx, rx, channel, m);
    hide Stamped;
    if channel != [] {
      assert channel[0].epoch >= rx.epoch;
    }
  }

  /** A receiver ahead of its sender: every frame towards it is stale, and it has received nothing in its epoch. */
  predicate Deaf(rx: Peer, channel: seq<InFlight>) {
    rx.t.recv.n == 0 && forall i :: 0 <= i < |channel| ==> channel[i].epoch < rx.epoch
  }

  lemma AheadIsDeaf(s: Suite, k: Key, tx: Peer, rx: Peer, channel: seq<InFlight>)
    requires Direction(s, k, tx, rx, channel) && tx.epoch < rx.epoch
    ensures Deaf(rx, channel)
  {
    var m :| Queued(tx, rx, channel, m);
  }

  /** An unsafe send breaks a direction: its own frame is stale at once, or it has outrun all that was coming. */
  lemma UnsafeSendLosesAFrame(s: Suite, k1: Key, k2: Key, w: World, p: Bytes)
    requires Aligned(s, k1, k2, w) && !MaySend(w)
    ensures var w' := SendFromA(s, w, p);
            if w.a.epoch < w.b.epoch then w'.toB == w.toB + [w'.toB[|w.toB|]] && w'.toB[|w.toB|].epoch < w'.b.epoch
            else w'.toA == w.toA != [] && Deaf(w'.a, w'.toA)
    ensures !Lossless(SendFromA(s, w, p))
  {
    SendEffect(s, k1, k2, w, p);
    SendKeepsAligned(s, k1, k2, w, p);
    var w' := SendFromA(s, w, p);
    hide SendFromA, Stamped, Direction;
    if w.a.epoch >= w.b.epoch {
      AheadIsDeaf(s, k2, w'.b, w'.a, w'.toA);
      assert w'.toA[0].epoch < w'.a.epoch;
    }
  }

  /** A send leaves a lossless world exactly if there was one and the send is safe: loss is permanent. */
  lemma SendIsLossless(s: Suite, k1: Key, k2: Key, w: World, p: Bytes)
    requires Aligned(s, k1, k2, w)
    ensures Lossless(SendFromA(s, w, p)) <==> Lossless(w) && MaySend(w)
  {
    SendEffect(s, k1, k2, w, p);
    var w' := SendFromA(s, w, p);
    if !MaySend(w) {
      UnsafeSendLosesAFrame(s, k1, k2, w, p);
    }
    hide SendFromA, Stamped, Direction, OnSchedule;
    assert forall i :: 0 <= i < |w.toB| ==> w'.toB[i] == w.toB[i];
  }

  lemma DeliverIsLossless(s: Suite, k1: Key, k2: Key, w: World)
    requires Aligned(s, k1, k2, w) && (Lossless(w) || (Ideal(s) && FreshKeySchedule(s)))
    ensures Lossless(DeliverToA(s, w)) <==> Lossless(w)
  {
    hide Ideal, FreshKeySchedule;
    if w.toA != [] {
      HeadIsOldOrDue(s, k2, w.b, w.a, w.toA);
      hide Direction, OnSchedule;
      DeliverKeepsAligned(s, k1, k2, w);
    }
  }

  lemma EventIsLossless(s: Suite, k1: Key, k2: Key, w: World, ev: Event)
    requires Aligned(s, k1, k2, w) && (Lossless(w) || (Ideal(s) && FreshKeySchedule(s)))
    ensures Lossless(Step(s, w, ev)) <==> Lossless(w) && Safe(w, ev)
  {
    hide Aligned, SendFromA, DeliverToA, Ideal, FreshKeySchedule;
    assert Aligned(s, k2, k1, Swap(w)) by { SwapKeepsAligned(s, k1, k2, w); }
    match ev
    case SendA(p) => SendIsLossless(s, k1, k2, w, p);
    case SendB(p) => SendIsLossless(s, k2, k1, Swap(w), p);
    case DeliverA => DeliverIsLossless(s, k1, k2, w);
    case DeliverB => DeliverIsLossless(s, k2, k1, Swap(w));
  }

  lemma SwapKeepsAligned(s: Suite, k1: Key, k2: Key, w: World)
    requires Aligned(s, k1, k2, w)
    ensures Aligned(s, k2, k1, Swap(w))
  {
    hide Direction, OnSchedule;
  }

  lemma {:induction false} SafeRunIsLossless(s: Suite, k1: Key, k2: Key, w: World, events: seq<Event>)
    requires Aligned(s, k1, k2, w) && Lossless(w) && SafeRun(s, w, events)
    ensures Aligned(s, k1, k2, Run(s, w, events)) && Lossless(Run(s, w, events))
    decreases |events|
  {
    hide Aligned, Lossless, Step, Safe;
    if events != [] {
      StepKeepsAligned(s, k1, k2, w, events[0]);
      EventIsLossless(s, k1, k2, w, events[0]);
      SafeRunIsLossless(s, k1, k2, Step(s, w, events[0]), events[1..]);
    }
  }

  /** Any interleaving of safe events, any number of rekeys: no frame is rejected, and both directions stay in order. */
  lemma RekeySynchronisation(s: Suite, k1: Key, k2: Key, events: seq<Event>)
    requires SafeRun(s, Fresh(k1, k2), events)
    ensures var w := Run(s, Fresh(k1, k2), events);
            NoneRejected(w) && InOrder(s, k1, w.a, w.b, w.toB) && InOrder(s, k2, w.b, w.a, w.toA)
  {
    FreshIsAligned(s, k1, k2);
    SafeRunIsLossless(s, k1, k2, Fresh(k1, k2), events);
    hide Fresh, Run, SafeRun, Direction, InOrder, NoneStale;
    var w := Run(s, Fresh(k1, k2), events);
    LosslessIsInOrder(s, k1, w.a, w.b, w.toB);
    LosslessIsInOrder(s, k2, w.b, w.a, w.toA);
  }

  // ---- The condition is exact ----

  lemma {:induction false} RunIsLossless(s: Suite, k1: Key, k2: Key, w: World, events: seq<Event>)
    requires Ideal(s) && FreshKeySchedule(s) && Aligned(s, k1, k2, w)
    ensures Lossless(Run(s, w, events)) <==> Lossless(w) && SafeRun(s, w, events)
    decreases |events|
  {
    hide Aligned, Lossless, Step, Safe, Ideal, FreshKeySchedule;
    if events != [] {
      StepKeepsAligned(s, k1, k2, w, events[0]);
      EventIsLossless(s, k1, k2, w, events[0]);
      RunIsLossless(s, k1, k2, Step(s, w, events[0]), events[1..]);
    }
  }

  function Repeat(ev: Event, n: nat): seq<Event> {
    if n == 0 then [] else [ev] + Repeat(ev, n - 1)
  }

  /** Delivers everything in flight. */
  function Drain(w: World): seq<Event> {
    Repeat(DeliverA, |w.toA|) + Repeat(DeliverB, |w.toB|)
  }

  lemma {:induction false} DeliveriesEmpty(s: Suite, w: World, ev: Event, n: nat)
    requires (ev.DeliverA? && n == |w.toA|) || (ev.DeliverB? && n == |w.toB|)
    ensures var w' := Run(s, w, Repeat(ev, n));
            if ev.DeliverA? then w'.toA == [] && w'.toB == w.toB else w'.toB == [] && w'.toA == w.toA
    ensures SafeRun(s, w, Repeat(ev, n))
    decreases n
  {
    if n > 0 {
      DeliveriesEmpty(s, Step(s, w, ev), ev, n - 1);
      hide Step, Safe;
      assert Repeat(ev, n)[1..] == Repeat(ev, n - 1);
    }
  }

  lemma {:induction false} RunAppend(s: Suite, w: World, xs: seq<Event>, ys: seq<Event>)
    ensures Run(s, w, xs + ys) == Run(s, Run(s, w, xs), ys)
    ensures SafeRun(s, w, xs + ys) <==> SafeRun(s, w, xs) && SafeRun(s, Run(s, w, xs), ys)
    decreases |xs|
  {
    hide Step, Safe;
    if xs == [] {
      assert xs + ys == ys;
    } else {
      assert (xs + ys)[1..] == xs[1..] + ys;
      RunAppend(s, Step(s, w, xs[0]), xs[1..], ys);
    }
  }

  lemma DrainEmpties(s: Suite, w: World)
    ensures Run(s, w, Drain(w)).toA == Run(s, w, Drain(w)).toB == []
    ensures SafeRun(s, w, Drain(w))
  {
    hide Step, Safe;
    DeliveriesEmpty(s, w, DeliverA, |w.toA|);
    DeliveriesEmpty(s, Run(s, w, Repeat(DeliverA, |w.toA|)), DeliverB, |w.toB|);
    hide Run, SafeRun, Repeat;
    RunAppend(s, w, Repeat(DeliverA, |w.toA|), Repeat(DeliverB, |w.toB|));
  }

  /**
   A run is safe if and only if none of its frames is ever rejected, those still
   in flight at its end included; and with these delivered the peers are paired,
   safe or not.
   */
  lemma SafeIsExact(s: Suite, k1: Key, k2: Key, events: seq<Event>)
    requires Ideal(s) && FreshKeySchedule(s)
    ensures var drained := events + Drain(Run(s, Fresh(k1, k2), events));
            var w := Run(s, Fresh(k1, k2), drained);
            && w.toA == w.toB == [] && Paired(w)
            && (SafeRun(s, Fresh(k1, k2), events) <==> NoneRejected(w))
  {
    var start := Fresh(k1, k2);
    var w := Run(s, start, events);
    FreshIsAligned(s, k1, k2);
    hide Fresh, Run, SafeRun, Drain, Aligned, Paired, Ideal, FreshKeySchedule;
    RunKeepsAligned(s, k1, k2, start, events);
    RunIsLossless(s, k1, k2, start, events + Drain(w));
    RunAppend(s, start, events, Drain(w));
    DrainEmpties(s, w);
    Convergence(s, k1, k2, events + Drain(w));
  }

  // ---- Once outrun, an epoch is lost ----

  lemma EpochsGrow(s: Suite, w: World, ev: Event)
    ensures Step(s, w, ev).a.epoch >= w.a.epoch && Step(s, w, ev).b.epoch >= w.b.epoch
  {
  }

  lemma {:induction false} RunEpochsGrow(s: Suite, w: World, events: seq<Event>)
    ensures Run(s, w, events).a.epoch >= w.a.epoch && Run(s, w, events).b.epoch >= w.b.epoch
    decreases |events|
  {
    hide Step;
    if events != [] {
      EpochsGrow(s, w, events[0]);
      RunEpochsGrow(s, Step(s, w, events[0]), events[1..]);
    }
  }

  /** Since `rx` all deliveries were rejected, and those to come will be. */
  predicate HeardNothing(rx: Peer, rx': Peer, channel': seq<InFlight>) {
    && Deaf(rx', channel') && |rx.outcomes| <= |rx'.outcomes| && rx'.outcomes[..|rx.outcomes|] == rx.outcomes
    && forall i :: |rx.outcomes| <= i < |rx'.outcomes| ==> rx'.outcomes[i] == None
  }

  /** One event, while B is behind A. */
  lemma StepHearsNothing(s: Suite, k1: Key, k2: Key, w: World, ev: Event)
    requires Ideal(s) && FreshKeySchedule(s) && Aligned(s, k1, k2, w) && w.b.epoch < w.a.epoch
    ensures var outcomes := Step(s, w, ev).a.outcomes; outcomes == w.a.outcomes || outcomes == w.a.outcomes + [None]
  {
    hide Ideal, FreshKeySchedule;
    AheadIsDeaf(s, k2, w.b, w.a, w.toA);
    if ev.DeliverA? && w.toA != [] {
      hide DeliverToA, Direction, OnSchedule;
      DeliverKeepsAligned(s, k1, k2, w);
    }
  }

  lemma HearNothingFurther(rx: Peer, rx1: Peer, rx2: Peer, channel: seq<InFlight>)
    requires rx1.outcomes == rx.outcomes || rx1.outcomes == rx.outcomes + [None]
    requires HeardNothing(rx1, rx2, channel)
    ensures HeardNothing(rx, rx2, channel)
  {
    hide Deaf;
    var n := |rx.outcomes|;
    assert rx2.outcomes[..n] == rx2.outcomes[..|rx1.outcomes|][..n] == rx.outcomes;
    if |rx1.outcomes| > n {
      assert rx2.outcomes[n] == rx2.outcomes[..|rx1.outcomes|][n] == None;
    }
  }

  /** A stays deaf through any events, sends of B included, until B has reached the epoch A had. */
  lemma {:induction false} BehindIsUnheard(s: Suite, k1: Key, k2: Key, w: World, events: seq<Event>)
    requires Ideal(s) && FreshKeySchedule(s) && Aligned(s, k1, k2, w)
    requires Run(s, w, events).b.epoch < w.a.epoch
    ensures HeardNothing(w.a, Run(s, w, events).a, Run(s, w, events).toA)
    decreases |events|
  {
    if events == [] {
      AheadIsDeaf(s, k2, w.b, w.a, w.toA);
    } else {
      hide Aligned, Step, Ideal, FreshKeySchedule, HeardNothing;
      var w1 := Step(s, w, events[0]);
      StepKeepsAligned(s, k1, k2, w, events[0]);
      EpochsGrow(s, w, events[0]);
      RunEpochsGrow(s, w1, events[1..]);
      StepHearsNothing(s, k1, k2, w, events[0]);
      BehindIsUnheard(s, k1, k2, w1, events[1..]);
      HearNothingFurther(w.a, w1.a, Run(s, w, events).a, Run(s, w, events).toA);
    }
  }

  /**
   A crosses the boundary, not behind B, at the end of any run.  Whatever happens
   next, as long as B has not left its epoch, A rejects everything: what was in
   flight and what B sends meanwhile; and A's receive counter stays at zero.
   */
  lemma StaleFramesAreLost(s: Suite, k1: Key, k2: Key, before: seq<Event>, p: Bytes, after: seq<Event>)
    requires Ideal(s) && FreshKeySchedule(s)
    requires var w := Run(s, Fresh(k1, k2), before);
             && w.a.t.send.n + 1 == REKEY_INTERVAL && w.a.epoch >= w.b.epoch
             && Run(s, Step(s, w, SendA(p)), after).b.epoch <= w.a.epoch
    ensures var w1 := Step(s, Run(s, Fresh(k1, k2), before), SendA(p));
            var w2 := Run(s, w1, after);
            HeardNothing(w1.a, w2.a, w2.toA) && |w2.a.outcomes| + |w2.toA| == |w2.b.sent|
  {
    var w := Run(s, Fresh(k1, k2), before);
    var w1 := Step(s, w, SendA(p));
    var w2 := Run(s, w1, after);
    FreshIsAligned(s, k1, k2);
    hide Fresh, Run, Ideal, FreshKeySchedule;
    RunKeepsAligned(s, k1, k2, Fresh(k1, k2), before);
    SendEffect(s, k1, k2, w, p);
    StepKeepsAligned(s, k1, k2, w, SendA(p));
    hide Step;
    BehindIsUnheard(s, k1, k2, w1, after);
    RunKeepsAligned(s, k1, k2, w1, after);
  }

  // ---- Reachable runs that lose a frame ----

  /** `n` frames from A to B, each delivered before the next; and the same from B to A. */
  function Pings(n: nat, p: Bytes): seq<Event> {
    if n == 0 then [] else Pings(n - 1, p) + [SendA(p), DeliverB]
  }

  function Pongs(n: nat, p: Bytes): seq<Event> {
    if n == 0 then [] else Pongs(n - 1, p) + [SendB(p), DeliverA]
  }

  /** No rekey yet, nothing in flight, `i` frames gone from A to B and `j` from B to A. */
  ghost predicate Level(k1: Key, k2: Key, i: nat, j: nat, w: World) {
    && w.a.t == Transport(Cipher(k1, i, true), Cipher(k2, j, true))
    && w.b.t == Transport(Cipher(k2, j, true), Cipher(k1, i, true))
    && w.a.epoch == w.b.epoch == 0 && w.toA == w.toB == []
  }

  lemma OnePing(s: Suite, k1: Key, k2: Key, i: nat, j: nat, w: World, p: Bytes)
    requires Level(k1, k2, i, j, w) && i + 1 < REKEY_INTERVAL && j < REKEY_INTERVAL
    ensures Level(k1, k2, i + 1, j, Swap(DeliverToA(s, Swap(SendFromA(s, w, p)))))
  {
  }

  lemma RunTwo(s: Suite, w: World, x: Event, y: Event)
    ensures Run(s, w, [x, y]) == Step(s, Step(s, w, x), y)
  {
    hide Step;
    assert [x, y][1..] == [y] && [y][1..] == [];
    assert Run(s, Step(s, w, x), [y]) == Run(s, Step(s, Step(s, w, x), y), []);
  }

  /** Every state of the run has the channel from the peer behind to the peer ahead empty. */
  predicate QuietRun(s: Suite, w: World, events: seq<Event>)
    decreases |events|
  {
    && (w.a.epoch > w.b.epoch ==> w.toA == []) && (w.b.epoch > w.a.epoch ==> w.toB == [])
    && (events != [] ==> QuietRun(s, Step(s, w, events[0]), events[1..]))
  }

  lemma {:induction false} QuietAppend(s: Suite, w: World, xs: seq<Event>, ys: seq<Event>)
    requires QuietRun(s, w, xs) && QuietRun(s, Run(s, w, xs), ys)
    ensures QuietRun(s, w, xs + ys)
    decreases |xs|
  {
    hide Step;
    if xs == [] {
      assert xs + ys == ys;
    } else {
      assert (xs + ys)[1..] == xs[1..] + ys;
      QuietAppend(s, Step(s, w, xs[0]), xs[1..], ys);
    }
  }

  lemma QuietTwo(s: Suite, w: World, x: Event, y: Event)
    requires QuietRun(s, w, []) && QuietRun(s, Step(s, w, x), []) && QuietRun(s, Step(s, Step(s, w, x), y), [])
    ensures QuietRun(s, w, [x, y])
  {
    hide Step;
    assert [x, y][1..] == [y] && [y][1..] == [];
    assert QuietRun(s, Step(s, w, x), [y]);
  }

  lemma {:induction false} ManyPings(s: Suite, k1: Key, k2: Key, j: nat, w: World, n: nat, p: Bytes)
    requires Level(k1, k2, 0, j, w) && n < REKEY_INTERVAL && j < REKEY_INTERVAL
    ensures Level(k1, k2, n, j, Run(s, w, Pings(n, p))) && QuietRun(s, w, Pings(n, p))
    decreases n
  {
    if n > 0 {
      ManyPings(s, k1, k2, j, w, n - 1, p);
      var v := Run(s, w, Pings(n - 1, p));
      OnePing(s, k1, k2, n - 1, j, v, p);
      assert SendFromA(s, v, p).a.epoch == 0;
      hide Level, SendFromA, DeliverToA, Run;
      RunAppend(s, w, Pings(n - 1, p), [SendA(p), DeliverB]);
      RunTwo(s, v, SendA(p), DeliverB);
      QuietTwo(s, v, SendA(p), DeliverB);
      QuietAppend(s, w, Pings(n - 1, p), [SendA(p), DeliverB]);
    }
  }

  lemma {:induction false} ManyPongs(s: Suite, k1: Key, k2: Key, i: nat, w: World, n: nat, p: Bytes)
    requires Level(k1, k2, i, 0, w) && n < REKEY_INTERVAL && i < REKEY_INTERVAL
    ensures Level(k1, k2, i, n, Run(s, w, Pongs(n, p))) && QuietRun(s, w, Pongs(n, p))
    decreases n
  {
    if n > 0 {
      ManyPongs(s, k1, k2, i, w, n - 1, p);
      var v := Run(s, w, Pongs(n - 1, p));
      OnePing(s, k2, k1, n - 1, i, Swap(v), p);
      assert SendFromA(s, Swap(v), p).a.epoch == 0;
      hide Level, SendFromA, DeliverToA, Run;
      RunAppend(s, w, Pongs(n - 1, p), [SendB(p), DeliverA]);
      RunTwo(s, v, SendB(p), DeliverA);
      QuietTwo(s, v, SendB(p), DeliverA);
      QuietAppend(s, w, Pongs(n - 1, p), [SendB(p), DeliverA]);
    }
  }

  /** A crosses the boundary with B's first frame in flight: A rejects it. */
  lemma CrossingLosesAFrame(s: Suite, k1: Key, k2: Key, w: World, p: Bytes)
    requires Ideal(s) && FreshKeySchedule(s)
    requires Level(k1, k2, REKEY_INTERVAL - 1, 0, w)
    ensures None in DeliverToA(s, SendFromA(s, Swap(SendFromA(s, Swap(w), p)), p)).a.outcomes
  {
    var w1 := Swap(SendFromA(s, Swap(w), p));
    SendEffect(s, k2, k1, Swap(w), p);
    SendEffect(s, k1, k2, w1, p);
    var w2 := SendFromA(s, w1, p);
    hide SendFromA;
    OldFrameEffect(s, k1, k2, w2);
  }

  /** B is ahead and A, behind, sends its last frame of the epoch: counts are equal again, and B rejects it. */
  lemma LastFrameBehindIsLost(s: Suite, k1: Key, k2: Key, w: World, p: Bytes)
    requires Ideal(s) && FreshKeySchedule(s)
    requires Level(k1, k2, REKEY_INTERVAL - 1, REKEY_INTERVAL - 1, w)
    ensures var w1 := Swap(SendFromA(s, Swap(w), p));
            var w2 := SendFromA(s, w1, p);
            && w1.a.epoch == 0 && w1.b.epoch == 1 && w1.toB == []
            && w2.a.epoch == w2.b.epoch == 1
            && None in DeliverToA(s, Swap(w2)).a.outcomes
  {
    var w1 := Swap(SendFromA(s, Swap(w), p));
    SendEffect(s, k2, k1, Swap(w), p);
    SendEffect(s, k1, k2, w1, p);
    var w2 := SendFromA(s, w1, p);
    hide SendFromA;
    OldFrameEffect(s, k2, k1, Swap(w2));
  }

  /** A frame can be lost: a run from fresh keys in which A outruns one. */
  lemma AFrameCanBeLost(s: Suite, k1: Key, k2: Key, p: Bytes)
    requires Ideal(s) && FreshKeySchedule(s)
    ensures var w := Run(s, Fresh(k1, k2), Pings(REKEY_INTERVAL - 1, p) + ([SendB(p), SendA(p)] + [DeliverA]));
            None in w.a.outcomes
  {
    var w := Fresh(k1, k2);
    ManyPings(s, k1, k2, 0, w, REKEY_INTERVAL - 1, p);
    var v := Run(s, w, Pings(REKEY_INTERVAL - 1, p));
    CrossingLosesAFrame(s, k1, k2, v, p);
    hide Fresh, Pings, Level, SendFromA, DeliverToA;
    RunAppend(s, w, Pings(REKEY_INTERVAL - 1, p), [SendB(p), SendA(p)] + [DeliverA]);
    RunAppend(s, v, [SendB(p), SendA(p)], [DeliverA]);
    RunTwo(s, v, SendB(p), SendA(p));
  }

  /** An empty channel from behind to ahead in every state is not enough either. */
  lemma QuietStatesAreNotEnough(s: Suite, k1: Key, k2: Key, p: Bytes)
    requires Ideal(s) && FreshKeySchedule(s)
    ensures var before := Pings(REKEY_INTERVAL - 1, p) + Pongs(REKEY_INTERVAL - 1, p);
            && QuietRun(s, Fresh(k1, k2), before + [SendB(p), SendA(p)])
            && None in Step(s, Run(s, Fresh(k1, k2), before + [SendB(p), SendA(p)]), DeliverB).b.outcomes
  {
    var w, n := Fresh(k1, k2), REKEY_INTERVAL - 1;
    ManyPings(s, k1, k2, 0, w, n, p);
    var u := Run(s, w, Pings(n, p));
    ManyPongs(s, k1, k2, n, u, n, p);
    var v := Run(s, u, Pongs(n, p));
    LastFrameBehindIsLost(s, k1, k2, v, p);
    assert v.a.epoch == v.b.epoch;
    hide Fresh, Pings, Pongs, Level, SendFromA, DeliverToA, Run;
    RunAppend(s, w, Pings(n, p), Pongs(n, p));
    QuietAppend(s, w, Pings(n, p), Pongs(n, p));
    RunAppend(s, w, Pings(n, p) + Pongs(n, p), [SendB(p), SendA(p)]);
    RunTwo(s, v, SendB(p), SendA(p));
    QuietTwo(s, v, SendB(p), SendA(p));
    QuietAppend(s, w, Pings(n, p) + Pongs(n, p), [SendB(p), SendA(p)]);
  }
}
