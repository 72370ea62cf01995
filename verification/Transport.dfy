/**
 TransportState and the wrapper the provider puts around it: encrypt or decrypt,
 then rekey both directions once either counter reaches 2^60.
 */
module Transports {
  import opened Octets
  import opened Primitives
  import opened CipherStates

  const REKEY_INTERVAL: nat := 0x1000_0000_0000_0000

  datatype Transport = Transport(send: Cipher, recv: Cipher)

  function RekeyBoth(s: Suite, t: Transport): Transport {
    Transport(Rekeyed(s, t.send).(n := 0), Rekeyed(s, t.recv).(n := 0))
  }

  predicate NeedsRekey(t: Transport) {
    t.send.n >= REKEY_INTERVAL || t.recv.n >= REKEY_INTERVAL
  }

  function AutoRekey(s: Suite, t: Transport): Transport {
    if NeedsRekey(t) then RekeyBoth(s, t) else t
  }

  function Sealed(s: Suite, t: Transport, plaintext: Bytes): (Transport, Bytes) {
    var (c, ct) := Encrypt(s, t.send, [], plaintext);
    (t.(send := c), ct)
  }

  function Opened(s: Suite, t: Transport, ciphertext: Bytes): (Transport, Option<Bytes>) {
    var (c, p) := Decrypt(s, t.recv, [], ciphertext);
    (t.(recv := c), p)
  }

  /** One encrypt call of the provider. */
  function SealThenRekey(s: Suite, t: Transport, plaintext: Bytes): (Transport, Bytes) {
    var (t', ct) := Sealed(s, t, plaintext);
    (AutoRekey(s, t'), ct)
  }

  /** One decrypt call of the provider; a rejected frame returns before the rekey test. */
  function OpenThenRekey(s: Suite, t: Transport, ciphertext: Bytes): (Transport, Option<Bytes>) {
    var (t', p) := Opened(s, t, ciphertext);
    if p.None? then (t', None) else (AutoRekey(s, t'), p)
  }

  // ---- Counters over any run ----

  datatype Use = Send(plaintext: Bytes) | Receive(ciphertext: Bytes) | Rekey

  function ApplyUse(s: Suite, t: Transport, u: Use): Transport {
    match u
    case Send(p) => SealThenRekey(s, t, p).0
    case Receive(c) => OpenThenRekey(s, t, c).0
    case Rekey => RekeyBoth(s, t)
  }

  function ApplyUses(s: Suite, t: Transport, uses: seq<Use>): Transport
    decreases |uses|
  {
    if uses == [] then t else ApplyUses(s, ApplyUse(s, t, uses[0]), uses[1..])
  }

  predicate BelowInterval(t: Transport) {
    t.send.hasKey && t.recv.hasKey && t.send.n < REKEY_INTERVAL && t.recv.n < REKEY_INTERVAL
  }

  /** Between calls both counters stay below the interval, so the 64-bit guard and increment are never at risk. */
  lemma {:induction false} CountersStayBelow(s: Suite, t: Transport, uses: seq<Use>)
    requires BelowInterval(t)
    ensures BelowInterval(ApplyUses(s, t, uses))
    ensures ApplyUses(s, t, uses).send.n < MAX_NONCE && ApplyUses(s, t, uses).recv.n < MAX_NONCE
    decreases |uses|
  {
    if uses != [] {
      CountersStayBelow(s, ApplyUse(s, t, uses[0]), uses[1..]);
    }
  }

  // ---- The interval, as a number ----

  function Sends(plaintexts: seq<Bytes>): seq<Use> {
    seq(|plaintexts|, i requires 0 <= i < |plaintexts| => Send(plaintexts[i]))
  }

  lemma {:induction false} SendsAdvance(s: Suite, k: Key, k': Key, n: nat, plaintexts: seq<Bytes>)
    requires n + |plaintexts| < REKEY_INTERVAL
    ensures ApplyUses(s, Transport(Cipher(k, n, true), Keyed(k')), Sends(plaintexts))
         == Transport(Cipher(k, n + |plaintexts|, true), Keyed(k'))
    decreases |plaintexts|
  {
    if plaintexts != [] {
      assert Sends(plaintexts)[1..] == Sends(plaintexts[1..]);
      SendsAdvance(s, k, k', n + 1, plaintexts[1..]);
    }
  }

  lemma {:induction false} UsesAppend(s: Suite, t: Transport, xs: seq<Use>, u: Use)
    ensures ApplyUses(s, t, xs + [u]) == ApplyUse(s, ApplyUses(s, t, xs), u)
    decreases |xs|
  {
    hide ApplyUse;
    if xs == [] {
      assert [u][1..] == [] && [] + [u] == [u];
    } else {
      assert (xs + [u])[1..] == xs[1..] + [u];
      UsesAppend(s, ApplyUse(s, t, xs[0]), xs[1..], u);
    }
  }

  /** Frames in one direction: no rekey before the 2^60th, and exactly there both directions start anew. */
  lemma RekeyAtTheInterval(s: Suite, k: Key, k': Key, plaintexts: seq<Bytes>)
    requires |plaintexts| <= 0x1000_0000_0000_0000
    ensures ApplyUses(s, Transport(Keyed(k), Keyed(k')), Sends(plaintexts))
         == if |plaintexts| < 0x1000_0000_0000_0000 then Transport(Cipher(k, |plaintexts|, true), Keyed(k'))
            else Transport(Cipher(NextKey(s, k), 0, true), Cipher(NextKey(s, k'), 0, true))
  {
    var t, n := Transport(Keyed(k), Keyed(k')), |plaintexts|;
    if n < 0x1000_0000_0000_0000 {
      SendsAdvance(s, k, k', 0, plaintexts);
    } else {
      SendsAdvance(s, k, k', 0, plaintexts[..n - 1]);
      assert Sends(plaintexts) == Sends(plaintexts[..n - 1]) + [Send(plaintexts[n - 1])];
      UsesAppend(s, t, Sends(plaintexts[..n - 1]), Send(plaintexts[n - 1]));
    }
  }

  // ---- Rejected frames leave no trace ----

  predicate Rejected(s: Suite, t: Transport, u: Use) {
    u.Receive? && OpenThenRekey(s, t, u.ciphertext).1.None?
  }

  /** A run without its rejected frames. */
  function WithoutRejected(s: Suite, t: Transport, uses: seq<Use>): seq<Use>
    decreases |uses|
  {
    if uses == [] then []
    else
      (if Rejected(s, t, uses[0]) then [] else [uses[0]]) + WithoutRejected(s, ApplyUse(s, t, uses[0]), uses[1..])
  }

  /** Every ciphertext and plaintext the calls of a run gave, in order. */
  function Given(s: Suite, t: Transport, uses: seq<Use>): seq<Bytes>
    decreases |uses|
  {
    if uses == [] then []
    else
      var here :=
        match uses[0]
        case Send(p) => [SealThenRekey(s, t, p).1]
        case Receive(c) => var out := OpenThenRekey(s, t, c).1; if out.Some? then [out.value] else []
        case Rekey => [];
      here + Given(s, ApplyUse(s, t, uses[0]), uses[1..])
  }

  /** With sends and rekeys in between: erasing the rejected frames changes no state, no ciphertext and no plaintext. */
  lemma {:induction false} RejectedReceivesErase(s: Suite, t: Transport, uses: seq<Use>)
    ensures ApplyUses(s, t, WithoutRejected(s, t, uses)) == ApplyUses(s, t, uses)
    ensures Given(s, t, WithoutRejected(s, t, uses)) == Given(s, t, uses)
    decreases |uses|
  {
    if uses != [] {
      var t1 := ApplyUse(s, t, uses[0]);
      var rest := WithoutRejected(s, t1, uses[1..]);
      RejectedReceivesErase(s, t1, uses[1..]);
      if Rejected(s, t, uses[0]) {
        assert t1 == t && [] + rest == rest;
        assert [] + Given(s, t1, uses[1..]) == Given(s, t1, uses[1..]);
      } else {
        assert ([uses[0]] + rest)[1..] == rest;
      }
    }
  }

  // ---- The object ----

  class TransportState {
    const send: CipherState
    const recv: CipherState

    ghost function View(): Transport
      reads send, recv
    {
      Transport(send.View(), recv.View())
    }

    /** The two directions are separate objects, below the rekey interval between calls. */
    ghost predicate Valid()
      reads send, recv
    {
      send != recv && send.n < REKEY_INTERVAL && recv.n < REKEY_INTERVAL
    }

    constructor (send: CipherState, recv: CipherState)
      requires send != recv
      modifies send, recv
      ensures fresh(this.send) && fresh(this.recv) && this.send != this.recv
      ensures View() == old(Transport(send.View(), recv.View()))
    {
      var s := new CipherState.MoveFrom(send);
      var r := new CipherState.MoveFrom(recv);
      this.send, this.recv := s, r;
    }

    method Encrypt(s: Suite, plaintext: Bytes) returns (out: Bytes)
      requires send != recv && send.MayAdvance()
      modifies send
      ensures (View(), out) == Sealed(s, old(View()), plaintext)
    {
      out := send.EncryptWithAd(s, [], plaintext);
    }

    method Decrypt(s: Suite, ciphertext: Bytes) returns (out: Option<Bytes>)
      requires send != recv && (recv.MayAdvance() || |ciphertext| < TAG_BYTES)
      modifies recv
      ensures (View(), out) == Opened(s, old(View()), ciphertext)
    {
      out := recv.DecryptWithAd(s, [], ciphertext);
    }

    method Rekey(s: Suite)
      requires send != recv
      modifies send, recv
      ensures View() == RekeyBoth(s, old(View())) && Valid()
    {
      send.Rekey(s);
      recv.Rekey(s);
      send.ResetNonceToZero();
      recv.ResetNonceToZero();
    }

    predicate NeedsRekey()
      reads send, recv
    {
      send.n >= REKEY_INTERVAL || recv.n >= REKEY_INTERVAL
    }

    /** The body of `noise_encrypt` once its gates are passed. */
    method EncryptThenRekey(s: Suite, plaintext: Bytes) returns (out: Bytes)
      requires send != recv && send.MayAdvance()
      modifies send, recv
      ensures (View(), out) == SealThenRekey(s, old(View()), plaintext) && Valid()
    {
      out := Encrypt(s, plaintext);
      if NeedsRekey() {
        Rekey(s);
      }
    }

    /** The body of `noise_decrypt` once its gates are passed. */
    method DecryptThenRekey(s: Suite, ciphertext: Bytes) returns (out: Option<Bytes>)
      requires send != recv && (recv.MayAdvance() || |ciphertext| < TAG_BYTES)
      modifies send, recv
      ensures (View(), out) == OpenThenRekey(s, old(View()), ciphertext)
      ensures out.Some? || old(Valid()) ==> Valid()
    {
      out := Decrypt(s, ciphertext);
      if out.None? {
        return;
      }
      if NeedsRekey() {
        Rekey(s);
      }
    }
  }
}
