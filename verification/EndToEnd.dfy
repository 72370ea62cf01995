/**
 From first handshake byte to transport frames: what the layers give together.
 */
module EndToEnd {
  import opened Octets
  import opened Primitives
  import opened CipherStates
  import opened SymmetricStates
  import opened Handshakes
  import opened Agreement
  import opened Sessions
  import opened Transports
  import Driver
  import RekeySync

  lemma HonestCiphersPair(s: Suite, i: Party, r: Party)
    requires Honest(s, i, r)
    ensures var (k1, k2) := SplitKeys(s, i.sym.ck);
            TransportCiphers(s, i) == (Keyed(k1), Keyed(k2)) && TransportCiphers(s, r) == (Keyed(k2), Keyed(k1))
  {
    hide SplitKeys, InitiatorKeys, ResponderKeys, Linked;
  }

  /** Send key with receive key both ways, zero counters, equal channel-binding hashes. */
  ghost predicate KeysPair(x: ExportedKeys, y: ExportedKeys) {
    && x.sendKey == y.recvKey && x.recvKey == y.sendKey
    && x.sendNonce == x.recvNonce == y.sendNonce == y.recvNonce == 0
    && x.handshakeHash == y.handshakeHash && |x.handshakeHash| == CHANNEL_BINDING_BYTES
  }

  lemma HonestExportsPair(s: Suite, i: Party, r: Party)
    requires Honest(s, i, r) && Complete(i)
    ensures KeysPair(ExportOf(s, i), ExportOf(s, r))
    ensures ExportOf(s, i).peerStatic == r.sPk && ExportOf(s, r).peerStatic == i.sPk
  {
    HonestCiphersPair(s, i, r);
    hide SplitKeys, TransportCiphers;
  }

  /**
   Any schedule of deliveries, spurious calls and exports, each side exporting
   whenever it likes, even with its last message still in flight: the two exports
   pair up and name each other's static key.
   */
  lemma CompletedSessionsPair(s: Suite, pattern: Pattern, si: Key, sr: Key, events: seq<Driver.Event>)
    requires HonestDhSucceeds(s)
    ensures var w := Driver.Run(s, Driver.Opened(s, pattern, si, sr), events);
            w.i.keys.Some? && w.r.keys.Some? ==>
              && KeysPair(w.i.keys.value, w.r.keys.value)
              && w.i.keys.value.peerStatic == s.pub(sr) && w.r.keys.value.peerStatic == s.pub(si)
  {
    var w := Driver.Run(s, Driver.Opened(s, pattern, si, sr), events);
    Driver.DriverSafety(s, pattern, si, sr, events);
    Driver.RunKeepsFaces(s, Driver.Opened(s, pattern, si, sr), events);
    OpenIsHonest(s, pattern, si, sr);
    hide Open, Honest, Driver.Run, Driver.FromInitiator, Driver.FromResponder, KeysPair, ExportOf;
    if w.i.keys.Some? && w.r.keys.Some? {
      HonestExportsPair(s, w.i.live, w.r.live);
    }
  }

  /**
   Traffic between two transports: if it is safe no frame is ever rejected and both
   directions arrive in order; safe or not, under an ideal suite the peers are
   paired whenever nothing is in flight, and safety is necessary.
   */
  ghost predicate CarriesTraffic(s: Suite, a: Transport, b: Transport, events: seq<RekeySync.Event>) {
    var start := RekeySync.World(RekeySync.Peer(a, 0, [], []), RekeySync.Peer(b, 0, [], []), [], []);
    var w := RekeySync.Run(s, start, events);
    && (RekeySync.SafeRun(s, start, events) ==>
          && RekeySync.NoneRejected(w)
          && RekeySync.InOrder(s, a.send.k, w.a, w.b, w.toB) && RekeySync.InOrder(s, b.send.k, w.b, w.a, w.toA))
    && (Ideal(s) && FreshKeySchedule(s) ==>
          && (w.toA == w.toB == [] ==> RekeySync.Paired(w))
          && (RekeySync.SafeRun(s, start, events) <==>
                RekeySync.NoneRejected(RekeySync.Run(s, start, events + RekeySync.Drain(w)))))
  }

  lemma PairedKeysCarryTraffic(s: Suite, k1: Key, k2: Key, events: seq<RekeySync.Event>)
    ensures CarriesTraffic(s, Transport(Keyed(k1), Keyed(k2)), Transport(Keyed(k2), Keyed(k1)), events)
  {
    hide RekeySync.SafeRun, RekeySync.Run, RekeySync.InOrder, RekeySync.NoneRejected, RekeySync.Paired, RekeySync.Drain;
    hide Ideal, FreshKeySchedule;
    if RekeySync.SafeRun(s, RekeySync.Fresh(k1, k2), events) {
      RekeySync.RekeySynchronisation(s, k1, k2, events);
    }
    if Ideal(s) && FreshKeySchedule(s) {
      RekeySync.Convergence(s, k1, k2, events);
      RekeySync.SafeIsExact(s, k1, k2, events);
    }
  }

  /** A completed honest handshake, its split ciphers, and any traffic over them. */
  lemma HandshakeThenTransport(s: Suite, pattern: Pattern, si: Key, sr: Key, turns: seq<Turn>,
                               events: seq<RekeySync.Event>)
    requires HonestDhSucceeds(s) && |turns| == TotalSteps(pattern)
    ensures var i := Open(s, pattern, true, si, s.pub(si), if pattern.IK? then Some(s.pub(sr)) else None);
            var talk := Converse(s, i, Open(s, pattern, false, sr, s.pub(sr), None), turns);
            var (ai, ar) := TransportCiphers(s, talk.i);
            var (bi, br) := TransportCiphers(s, talk.r);
            CarriesTraffic(s, Transport(ai, ar), Transport(bi, br), events)
  {
    var i := Open(s, pattern, true, si, s.pub(si), if pattern.IK? then Some(s.pub(sr)) else None);
    var r := Open(s, pattern, false, sr, s.pub(sr), None);
    hide Open, Honest, Converse, TransportCiphers, SplitKeys, CarriesTraffic;
    OpenIsHonest(s, pattern, si, sr);
    ConverseAgrees(s, i, r, turns);
    var talk := Converse(s, i, r, turns);
    HonestCiphersPair(s, talk.i, talk.r);
    var (k1, k2) := SplitKeys(s, talk.i.sym.ck);
    PairedKeysCarryTraffic(s, k1, k2, events);
  }

  function Installed(keys: ExportedKeys): Transport {
    Transport(Cipher(keys.sendKey, keys.sendNonce, true), Cipher(keys.recvKey, keys.recvNonce, true))
  }

  /** Two sessions driven and exported in any order, their exported keys installed, and any traffic over them. */
  lemma ExportThenTransport(s: Suite, pattern: Pattern, si: Key, sr: Key, schedule: seq<Driver.Event>,
                            events: seq<RekeySync.Event>)
    requires HonestDhSucceeds(s)
    ensures var w := Driver.Run(s, Driver.Opened(s, pattern, si, sr), schedule);
            w.i.keys.Some? && w.r.keys.Some? ==>
              CarriesTraffic(s, Installed(w.i.keys.value), Installed(w.r.keys.value), events)
  {
    var w := Driver.Run(s, Driver.Opened(s, pattern, si, sr), schedule);
    hide Driver.Run, Driver.Opened, CarriesTraffic;
    CompletedSessionsPair(s, pattern, si, sr, schedule);
    if w.i.keys.Some? && w.r.keys.Some? {
      PairedKeysCarryTraffic(s, w.i.keys.value.sendKey, w.i.keys.value.recvKey, events);
    }
  }
}
