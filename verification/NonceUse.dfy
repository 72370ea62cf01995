/**
 Every AEAD encryption a cipher performs, REKEY's own included, uses a key epoch
 and counter no other encryption of the run uses.  For transport ciphers under
 an ideal suite this holds of the key bytes and wire nonces themselves.
 */
module NonceUse {
  import opened Octets
  import opened Primitives
  import opened CipherStates
  import opened SymmetricStates
  import opened Transports

  datatype Op =
    | Init(key: Key)
    | Seal(ad: Bytes, plaintext: Bytes)
    | Unseal(ad: Bytes, ciphertext: Bytes)
    | BareRekey
    | RekeyAndReset
    | Wipe

  /** One encryption: the key epoch, the counter, and the arguments the AEAD was given. */
  datatype Entry = Entry(epoch: nat, n: nat, key: Key, nonce: WireNonce)

  /** A cipher, the number of keys it has had, and its encryptions in order. */
  datatype Tracked = Tracked(c: Cipher, epoch: nat, log: seq<Entry>)

  function Used(t: Tracked, n: nat): seq<Entry> {
    if t.c.hasKey then t.log + [Entry(t.epoch, n, t.c.k, WireNonceOf(n))] else t.log
  }

  /** The wrap guard: no state follows an abort. */
  predicate Aborts(t: Tracked, op: Op) {
    && t.c.hasKey && t.c.n == MAX_NONCE
    && (op.Seal? || (op.Unseal? && |op.ciphertext| >= TAG_BYTES))
  }

  function Apply(s: Suite, t: Tracked, op: Op): Tracked
    requires !Aborts(t, op)
  {
    match op
    case Init(key) => Tracked(Keyed(key), t.epoch + 1, t.log)
    case Seal(ad, p) => t.(c := Encrypt(s, t.c, ad, p).0, log := Used(t, t.c.n))
    case Unseal(ad, c) => t.(c := Decrypt(s, t.c, ad, c).0)
    case BareRekey =>
      Tracked(Rekeyed(s, t.c), t.epoch + (if t.c.hasKey then 1 else 0), Used(t, MAX_NONCE))
    case RekeyAndReset =>
      Tracked(Rekeyed(s, t.c).(n := 0), t.epoch + (if t.c.hasKey then 1 else 0), Used(t, MAX_NONCE))
    case Wipe => t.(c := UNKEYED)
  }

  function Run(s: Suite, t: Tracked, ops: seq<Op>): Tracked
    decreases |ops|
  {
    if ops == [] || Aborts(t, ops[0]) then t else Run(s, Apply(s, t, ops[0]), ops[1..])
  }

  predicate Before(x: Entry, epoch: nat, n: nat) {
    x.epoch < epoch || (x.epoch == epoch && x.n < n)
  }

  /** The log is strictly increasing in (epoch, counter), and the cipher's next use is beyond all of it. */
  ghost predicate Increasing(t: Tracked) {
    && t.c.n <= MAX_NONCE
    && (forall i, j :: 0 <= i < j < |t.log| ==> Before(t.log[i], t.log[j].epoch, t.log[j].n))
    && (forall i :: 0 <= i < |t.log| ==>
          && t.log[i].n <= MAX_NONCE && t.log[i].nonce == WireNonceOf(t.log[i].n)
          && if t.c.hasKey then Before(t.log[i], t.epoch, t.c.n) else t.log[i].epoch <= t.epoch)
  }

  lemma ApplyKeepsIncreasing(s: Suite, t: Tracked, op: Op)
    requires Increasing(t) && !Aborts(t, op)
    ensures Increasing(Apply(s, t, op))
  {
    hide WireNonceOf;
  }

  lemma {:induction false} RunKeepsIncreasing(s: Suite, t: Tracked, ops: seq<Op>)
    requires Increasing(t)
    ensures Increasing(Run(s, t, ops))
    decreases |ops|
  {
    hide Increasing, Apply;
    if ops != [] && !Aborts(t, ops[0]) {
      ApplyKeepsIncreasing(s, t, ops[0]);
      RunKeepsIncreasing(s, Apply(s, t, ops[0]), ops[1..]);
    }
  }

  /** In any run from a new cipher no two encryptions share a key epoch and a wire nonce. */
  lemma NoEpochNonceReuse(s: Suite, ops: seq<Op>, i: nat, j: nat)
    requires var log := Run(s, Tracked(UNKEYED, 0, []), ops).log; i < j < |log|
    ensures var log := Run(s, Tracked(UNKEYED, 0, []), ops).log;
            log[i].epoch != log[j].epoch || log[i].nonce != log[j].nonce
  {
    RunKeepsIncreasing(s, Tracked(UNKEYED, 0, []), ops);
    var log := Run(s, Tracked(UNKEYED, 0, []), ops).log;
    if log[i].nonce == log[j].nonce {
      WireNonceInjective(log[i].n, log[j].n);
    }
  }

  /** A message never uses 2^64-1, the counter REKEY reserves. */
  lemma MessagesAvoidReservedNonce(s: Suite, ops: seq<Op>, ad: Bytes, p: Bytes)
    requires var t := Run(s, Tracked(UNKEYED, 0, []), ops); t.c.hasKey && !Aborts(t, Seal(ad, p))
    ensures var t := Run(s, Tracked(UNKEYED, 0, []), ops);
            var log := Apply(s, t, Seal(ad, p)).log;
            |log| == |t.log| + 1 && log[|t.log|].n < MAX_NONCE && log[|t.log|].nonce != WireNonceOf(MAX_NONCE)
  {
    RunKeepsIncreasing(s, Tracked(UNKEYED, 0, []), ops);
    var t := Run(s, Tracked(UNKEYED, 0, []), ops);
    if WireNonceOf(t.c.n) == WireNonceOf(MAX_NONCE) {
      WireNonceInjective(t.c.n, MAX_NONCE);
    }
  }

  // ---- Transport ciphers ----

  /** What a transport call does to its send cipher, and to its receive cipher. */
  function OnSend(s: Suite, t: Transport, u: Use): seq<Op> {
    match u
    case Send(p) => [Seal([], p)] + if NeedsRekey(Sealed(s, t, p).0) then [RekeyAndReset] else []
    case Receive(c) =>
      var (t', plain) := Opened(s, t, c);
      if plain.Some? && NeedsRekey(t') then [RekeyAndReset] else []
    case Rekey => [RekeyAndReset]
  }

  function OnRecv(s: Suite, t: Transport, u: Use): seq<Op> {
    match u
    case Send(p) => if NeedsRekey(Sealed(s, t, p).0) then [RekeyAndReset] else []
    case Receive(c) =>
      var (t', plain) := Opened(s, t, c);
      [Unseal([], c)] + if plain.Some? && NeedsRekey(t') then [RekeyAndReset] else []
    case Rekey => [RekeyAndReset]
  }

  /** Both ciphers of a transport with their encryptions. */
  datatype Pair = Pair(send: Tracked, recv: Tracked)

  /** The encryptions of a transport run, REKEY's on either cipher included. */
  function Track(s: Suite, t: Transport, uses: seq<Use>, pair: Pair): Pair
    decreases |uses|
  {
    if uses == [] then pair
    else
      Track(s, ApplyUse(s, t, uses[0]), uses[1..],
            Pair(Run(s, pair.send, OnSend(s, t, uses[0])), Run(s, pair.recv, OnRecv(s, t, uses[0]))))
  }

  /** `tr` is the cipher `c`, on the key chain that starts at `k`, with every encryption on its epoch's key. */
  ghost predicate Follows(s: Suite, k: Key, c: Cipher, tr: Tracked) {
    && tr.c == c && c.hasKey && c.k == EpochKey(s, k, tr.epoch)
    && Increasing(tr)
    && forall i :: 0 <= i < |tr.log| ==> tr.log[i].key == EpochKey(s, k, tr.log[i].epoch)
  }

  lemma OpFollows(s: Suite, k: Key, tr: Tracked, op: Op)
    requires Follows(s, k, tr.c, tr) && !Aborts(tr, op) && (op.Seal? || op.Unseal? || op.RekeyAndReset?)
    ensures Follows(s, k, Apply(s, tr, op).c, Apply(s, tr, op))
  {
    ApplyKeepsIncreasing(s, tr, op);
    hide Increasing, WireNonceOf;
  }

  /** One operation, and perhaps the rekey after it. */
  lemma OpsFollow(s: Suite, k: Key, tr: Tracked, ops: seq<Op>)
    requires Follows(s, k, tr.c, tr) && tr.c.n < REKEY_INTERVAL && |ops| <= 2
    requires forall i :: 0 <= i < |ops| ==> ops[i].RekeyAndReset? || (i == 0 && (ops[i].Seal? || ops[i].Unseal?))
    ensures Follows(s, k, Run(s, tr, ops).c, Run(s, tr, ops))
    ensures Run(s, tr, ops).c == if ops == [] then tr.c
                                 else if |ops| == 1 then Apply(s, tr, ops[0]).c
                                 else Rekeyed(s, Apply(s, tr, ops[0]).c).(n := 0)
  {
    hide Follows;
    if ops != [] {
      OpFollows(s, k, tr, ops[0]);
      var tr1 := Apply(s, tr, ops[0]);
      if |ops| == 2 {
        OpFollows(s, k, tr1, RekeyAndReset);
        var tr2 := Apply(s, tr1, RekeyAndReset);
        assert ops[1..] == [RekeyAndReset] && ops[1..][1..] == [];
        assert Run(s, tr1, ops[1..]) == Run(s, tr2, []) == tr2;
      } else {
        assert ops[1..] == [];
      }
    }
  }

  ghost predicate BothFollow(s: Suite, kSend: Key, kRecv: Key, t: Transport, pair: Pair) {
    BelowInterval(t) && Follows(s, kSend, t.send, pair.send) && Follows(s, kRecv, t.recv, pair.recv)
  }

  lemma UseFollows(s: Suite, kSend: Key, kRecv: Key, t: Transport, pair: Pair, u: Use)
    requires BothFollow(s, kSend, kRecv, t, pair)
    ensures BothFollow(s, kSend, kRecv, ApplyUse(s, t, u),
                       Pair(Run(s, pair.send, OnSend(s, t, u)), Run(s, pair.recv, OnRecv(s, t, u))))
  {
    var sends, recvs := OnSend(s, t, u), OnRecv(s, t, u);
    assert pair.send.c == t.send && pair.recv.c == t.recv;
    hide Follows, Run;
    OpsFollow(s, kSend, pair.send, sends);
    OpsFollow(s, kRecv, pair.recv, recvs);
  }

  lemma {:induction false} UsesFollow(s: Suite, kSend: Key, kRecv: Key, t: Transport, uses: seq<Use>, pair: Pair)
    requires BothFollow(s, kSend, kRecv, t, pair)
    ensures BothFollow(s, kSend, kRecv, ApplyUses(s, t, uses), Track(s, t, uses, pair))
    decreases |uses|
  {
    hide BothFollow, ApplyUse, OnSend, OnRecv, Run;
    if uses != [] {
      var next := Pair(Run(s, pair.send, OnSend(s, t, uses[0])), Run(s, pair.recv, OnRecv(s, t, uses[0])));
      UseFollows(s, kSend, kRecv, t, pair, uses[0]);
      UsesFollow(s, kSend, kRecv, ApplyUse(s, t, uses[0]), uses[1..], next);
    }
  }

  /** No key of one chain is ever a key of the other. */
  ghost predicate DisjointChains(s: Suite, k: Key, k': Key) {
    forall i: nat, j: nat :: EpochKey(s, k, i) != EpochKey(s, k', j)
  }

  /** Under the symbolic suite the two keys of any Split start disjoint chains. */
  lemma SplitChainsAreDisjoint(ck: Digest)
    requires Lawful(Symbolic())
    ensures var (k, k') := SplitKeys(Symbolic(), ck); DisjointChains(Symbolic(), k, k')
  {
    var (k, k') := SplitKeys(Symbolic(), ck);
    OutputsAreApart(ck, []);
    SplitOutputs(Symbolic(), ck);
    assert k[0].Hashed? && k'[0].Hashed?;
    SymbolicChainsAreDisjoint(k, k');
  }

  lemma SymbolicChainsAreDisjoint(k: Key, k': Key)
    requires Lawful(Symbolic()) && k != k' && DepthAt(k[0], 0) == DepthAt(k'[0], 0)
    ensures DisjointChains(Symbolic(), k, k')
  {
    forall i: nat, j: nat ensures EpochKey(Symbolic(), k, i) != EpochKey(Symbolic(), k', j) {
      SymbolicDepthAt(k, i, 0);
      SymbolicDepthAt(k', j, 0);
      if i == j {
        SymbolicStepsApart(k, k', i);
      }
    }
  }

  lemma {:induction false} SymbolicStepsApart(k: Key, k': Key, epoch: nat)
    requires Lawful(Symbolic()) && k != k'
    ensures EpochKey(Symbolic(), k, epoch) != EpochKey(Symbolic(), k', epoch)
  {
    hide NextKey, WireNonceOf;
    if epoch > 0 {
      SymbolicStepsApart(k, k', epoch - 1);
      SymbolicNextKey(EpochKey(Symbolic(), k, epoch - 1));
      SymbolicNextKey(EpochKey(Symbolic(), k', epoch - 1));
      assert EpochKey(Symbolic(), k, epoch)[0] != EpochKey(Symbolic(), k', epoch)[0];
    }
  }

  lemma SameChainDiffers(s: Suite, k: Key, tr: Tracked, i: nat, j: nat)
    requires FreshKeySchedule(s) && Follows(s, k, tr.c, tr) && i < j < |tr.log|
    ensures tr.log[i].key != tr.log[j].key || tr.log[i].nonce != tr.log[j].nonce
  {
    if tr.log[i].nonce == tr.log[j].nonce {
      WireNonceInjective(tr.log[i].n, tr.log[j].n);
    }
  }

  /** The encryptions of a transport that started on split keys, on the send cipher and then on the receive cipher. */
  function Encryptions(s: Suite, k: Key, k': Key, uses: seq<Use>): (seq<Entry>, seq<Entry>) {
    var start := Pair(Tracked(Keyed(k), 0, []), Tracked(Keyed(k'), 0, []));
    var pair := Track(s, Transport(Keyed(k), Keyed(k')), uses, start);
    (pair.send.log, pair.recv.log)
  }

  /**
   In any run of a transport from split keys, no two encryptions, REKEY's own
   counted, share key bytes and wire nonce: two of one cipher never, and two of
   different ciphers if the key chains are disjoint.
   */
  lemma NoKeyNonceReuse(s: Suite, k: Key, k': Key, uses: seq<Use>, i: nat, j: nat)
    requires FreshKeySchedule(s)
    requires var (sends, recvs) := Encryptions(s, k, k', uses); i < j < |sends| + |recvs|
    ensures var (sends, recvs) := Encryptions(s, k, k', uses);
            var log := sends + recvs;
            (i < |sends| <= j ==> DisjointChains(s, k, k')) ==>
              log[i].key != log[j].key || log[i].nonce != log[j].nonce
  {
    var t, start := Transport(Keyed(k), Keyed(k')), Pair(Tracked(Keyed(k), 0, []), Tracked(Keyed(k'), 0, []));
    assert BothFollow(s, k, k', t, start);
    hide Track, WireNonceOf, FreshKeySchedule, BothFollow, DisjointChains;
    UsesFollow(s, k, k', t, uses, start);
    if i < |Track(s, t, uses, start).send.log| <= j ==> DisjointChains(s, k, k') {
      FollowedLogsDiffer(s, k, k', ApplyUses(s, t, uses), Track(s, t, uses, start), i, j);
    }
  }

  lemma FollowedLogsDiffer(s: Suite, k: Key, k': Key, t: Transport, pair: Pair, i: nat, j: nat)
    requires FreshKeySchedule(s) && BothFollow(s, k, k', t, pair) && i < j < |pair.send.log| + |pair.recv.log|
    requires i < |pair.send.log| <= j ==> DisjointChains(s, k, k')
    ensures var log := pair.send.log + pair.recv.log; log[i].key != log[j].key || log[i].nonce != log[j].nonce
  {
    hide FreshKeySchedule, Increasing, EpochKey;
    var n := |pair.send.log|;
    if j < n {
      SameChainDiffers(s, k, pair.send, i, j);
    } else if i >= n {
      SameChainDiffers(s, k', pair.recv, i - n, j - n);
    } else {
      var x, y := pair.send.log[i], pair.recv.log[j - n];
      assert x.key == EpochKey(s, k, x.epoch) && y.key == EpochKey(s, k', y.epoch);
    }
  }
}
