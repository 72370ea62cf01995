# Noise security provider: a Dafny model

This project models the GoodNet Noise security provider (revision 34 of the
Noise Protocol Framework, patterns XX and IK over X25519, ChaCha20-Poly1305 and
BLAKE2b) as one stack, and proves what its layers promise together:

| file | layer |
|---|---|
| `Octets.dfy`, `Primitives.dfy` | octet strings; the libsodium primitives as parameters |
| `Hmac.dfy` | HMAC (section 2 of RFC 2104) and HKDF (section 4.3 of the Noise specification) |
| `Cipher.dfy` | CipherState, nonce encoding, REKEY |
| `Symmetric.dfy` | SymmetricState, with its transcript as a history variable |
| `Handshake.dfy` | HandshakeState: the unrolled switches, proved against a token interpreter |
| `HandshakeRuns.dfy` | what any sequence of handshake calls keeps |
| `Agreement.dfy`, `Objects.dfy` | two honest parties agree; the same on two live objects |
| `ClosedForm.dfy` | every message, written and read, and both handshakes as explicit hash, HMAC, seal and DH values |
| `Impostor.dfy` | a static public key without its secret is refused |
| `Binding.dfy`, `ChannelBinding.dfy` | acceptance, and the exported hash, bind the whole transcript |
| `Transport.dfy`, `RekeySync.dfy` | transport, automatic rekey, two peers over FIFO channels |
| `Intrusion.dfy` | the same peers on a network that replays and inserts bytes |
| `IkTable.dfy` | this provider against a peer that follows the IK table of the specification |
| `NonceUse.dfy` | no cipher, and no transport, uses a key and nonce pair twice |
| `Session.dfy`, `Driver.dfy` | the session entry points, their lifecycle, and two sessions driven in any order |
| `HandshakeNonces.dfy` | the two parties of a driven handshake, on one key chain, never use a key and nonce twice |
| `EndToEnd.dfy` | handshake, export at any time, and traffic together |

Each mutable class of the provider is a class here, whose methods are proved
against functions on values (`View()`); the theorems are about those functions.
The functions themselves are held against explicit values: HMAC by its two pads on
plain octets, MixKey and Split by their HMAC steps, REKEY octet by octet, and every
handshake message by `ClosedForm`.

**Primitives.** `Suite` is the type of all primitives that satisfy the laws the
real ones satisfy exactly: DH commutes on public keys and may fail, opening
undoes sealing, a ciphertext is 16 bytes longer than its plaintext. Ephemeral
secrets are arguments. Further hypotheses are named where they are used:
`HonestDhSucceeds` (DH on honest public keys does not fail), `Ideal` (collision-free
hash, committing AEAD) and `FreshKeySchedule` (REKEY never returns to an earlier
key); for the channel binding `TruncationCommits` (32 octets of the hash are still
collision-free); where two ciphers are compared, `DisjointChains` (no key of one chain is a key
of the other). An octet is a plain byte or a symbolic image of a primitive, so lengths are
those of the wire even for the symbolic suite, of which all hypotheses are proved
together (`CipherStates.HypothesesAreConsistent`, `NonceUse.SplitChainsAreDisjoint`,
`ChannelBinding.SymbolicTruncationCommits`).

**Where the code and its documentation differ, the model follows the code.**

- docs/handshake.md:140-144 says both peers reach the rekey threshold together and
  converge unaided. They do converge, in every run and whatever was sent when (given
  `Ideal` and `FreshKeySchedule`): whenever nothing is in flight they agree on both ciphers (`RekeySync.Convergence`).
  But a rekey also changes the direction that did not reach the threshold, so frames
  can be lost on the way (`RekeySync.AFrameCanBeLost`): a frame is rejected exactly
  when its receiver has left its epoch (`RekeySync.ExactFate`), and a peer that
  crosses the boundary rejects everything until the other one follows
  (`RekeySync.StaleFramesAreLost`). `RekeySync.SafeIsExact` gives the exact condition
  for a run to lose nothing, a test on the state before each send: the sender is not
  behind, and if its counter is about to reach 2^60 nothing is in flight towards it.
  Demanding only that the channel from the peer behind to the peer ahead is empty in
  every state is not enough (`RekeySync.QuietStatesAreNotEnough`), because a send and
  its rekey are one step.
- The comment at handshake.cpp:242 calls the last IK token `se`; both sides compute
  the `es` pair. The model's IK table ends in `es`. Two such providers agree; a peer
  whose table ends in `se` and this provider refuse each other's second message,
  except when the key pairs coincide (`IkTable.IkLastTokenIsNotSe`).
- docs/handshake.md:162-163 has export zeroise every cipher key, nonce and hash
  buffer of the session. At every successful export, whatever came before and after,
  the code keeps the handshake cipher with its key and its counter at 1, the handshake
  hash and both static public keys, and zeroes the chaining key, the static and
  ephemeral secrets, the ephemeral public key and the peer's ephemeral key
  (`Sessions.ExportRetains`). This is what docs/handshake.md:167-172 lists for Split.
- A failed `write_message` or `read_message` keeps what it had already mixed; only
  the step is sure to be unchanged. After completion an empty step call on the side
  whose turn would be next is answered with the invalid-envelope code
  (`Driver.SpuriousCallReply`).
- Only the turn test at noise.cpp:231-240 keeps the two parties from encrypting under
  one key and counter (`HandshakeNonces.NoSpotReuse`); `write_message` itself has no
  role check, and two handshake objects used without the driver can
  (`HandshakeNonces.ObjectsAloneReuse`).

## Model

| member | source | states |
|---|---|---|
| `CipherStates.EncodeNonce` | cipher.cpp:16-22 | the shift-and-mask loop fills the buffer with four zero bytes and the little-endian counter (section 12.3 of the Noise specification) |
| `CipherStates.WireNonceDecodes` | cipher.cpp:16-22 | every 64-bit counter is recovered from its 12-byte nonce |
| `CipherStates.WireNonceInjective` | cipher.cpp:16-22 | distinct counters never share a wire nonce |
| `CipherStates.CipherState.constructor` | cipher.hpp:98-100 | a new cipher has a zero key, counter zero and no key flag |
| `CipherStates.CipherState.InitializeKey` | cipher.cpp:46-50 | installs the key and resets the counter |
| `CipherStates.CipherState.ResetNonceToZero` | cipher.hpp:62-62 | changes the counter only |
| `CipherStates.CipherState.EncryptWithAd` | cipher.cpp:52-96 | refines section 5.1 EncryptWithAd: identity without a key, one sealed frame and one counter step with one |
| `CipherStates.CipherState.DecryptWithAd` | cipher.cpp:98-138 | refines section 5.1 DecryptWithAd; any failure leaves the whole state unchanged |
| `CipherStates.CipherState.Rekey` | cipher.cpp:140-158 | the key becomes the first 32 bytes of ENCRYPT(k, 2^64-1, empty, zeros), the nonce given as octets; the counter stays; unkeyed is untouched |
| `CipherStates.SymbolicNextKey` | cipher.cpp:140-158 | symbolic suite: each of the 32 octets of the rekeyed key comes from the seal under the whole old key |
| `CipherStates.RekeyReplacesEveryOctet` | cipher.cpp:140-158 | symbolic suite: no octet of any key of the schedule ever stands in its place again |
| `CipherStates.CipherState.Zeroize` | cipher.cpp:160-164 | back to the unkeyed state |
| `CipherStates.CipherState.MoveFrom` | cipher.cpp:26-29 | the new object has the source's old state, the source is wiped |
| `CipherStates.CipherState.MoveAssign` | cipher.cpp:31-40 | as move construction; self-assignment changes nothing |
| `CipherStates.RejectedFramesErase` | cipher.cpp:98-138 | any run of a receiver, with its own associated data per call, equals the run without its rejected ciphertexts, in plaintexts and final state; a keyed counter counts exactly the accepted ones |
| `Hmac.PrepareKey` | hmac.cpp:15-30 | the block is the key, or its hash if over 128 bytes, zero-padded |
| `Hmac.XorConst` | hmac.cpp:33-35 | the in-place loop XORs every octet of the block |
| `Hmac.HmacBlake2b` | hmac.cpp:39-56 | equals RFC 2104 HMAC for every key length; on plain octets by its literal 5c and 36 pads, a long key through its hash |
| `Hmac.HmacOfPlainKey` | hmac.cpp:39-56 | the specification function itself is that nested hash over the literal pads |
| `Hmac.HmacBlake2bParts` | hmac.cpp:58-83 | the streaming two-part form equals the one-part form on the concatenation, by the literal pads too |
| `Hmac.InnerDigestCommits` | hmac.cpp:42-48 | symbolic suite: the inner digest alone commits to every octet of the padded key and to the text |
| `Hmac.EquivalentKeys` | hmac.cpp:15-30 | long keys act as their hash; short keys absorb trailing zeros |
| `Hmac.Hkdf2` | hkdf.cpp:9-24 | the first two outputs of the section 4.3 HKDF |
| `Hmac.Hkdf3` | hkdf.cpp:26-46 | the first three outputs, so it extends the two-output form |
| `Hmac.MixedKeysDiffer` | hkdf.cpp:9-24 | symbolic suite: on one chaining key the truncated cipher keys are equal if and only if the mixed secrets are |
| `SymmetricStates.SymmetricState.constructor` | symmetric.hpp:69-71 | zero chaining key and hash, unkeyed cipher |
| `SymmetricStates.SymmetricState.Initialize` | symmetric.cpp:41-51 | `h` is the name with zero octets behind it, or its hash beyond 64, `ck` equals it, the cipher is unkeyed |
| `SymmetricStates.SymmetricState.MixKey` | symmetric.cpp:53-67 | with temp the HMAC of `ck` and the secret, `ck` is HMAC(temp, 1) and the cipher key the first half of HMAC(temp, `ck` + 2), at counter zero |
| `SymmetricStates.MixKeyOutputs` | symmetric.cpp:53-67 | the same of the specification function, the rest of the state unchanged |
| `SymmetricStates.OutputsDiffer` | hkdf.cpp:9-24 | symbolic suite: neither MixKey nor Split ever gives one key twice |
| `SymmetricStates.SymmetricState.MixHash` | symmetric.cpp:69-71 | `h` becomes the hash of `h` followed by the data, and the transcript records it |
| `SymmetricStates.SymmetricState.EncryptAndHash` | symmetric.cpp:73-79 | seals under `h` as associated data, then mixes the ciphertext |
| `SymmetricStates.SymmetricState.DecryptAndHash` | symmetric.cpp:81-88 | opens under `h`, mixes the ciphertext only on success |
| `SymmetricStates.Unhide` | symmetric.cpp:81-88 | a rejected ciphertext leaves the whole symmetric state as it was |
| `SymmetricStates.HiddenIsRevealed` | symmetric.cpp:73-88 | two equal states: what one encrypts the other decrypts, and they stay equal |
| `SymmetricStates.FoldInjective` | symmetric.cpp:69-71 | under an ideal hash the handshake hash determines its start and the whole transcript |
| `SymmetricStates.SymmetricState.Split` | symmetric.cpp:90-124 | two fresh ciphers on HMAC(temp, 1) and HMAC(temp, first + 2), temp over empty key material; only `ck` is wiped |
| `SymmetricStates.SplitOutputs` | symmetric.cpp:90-124 | the same of the specification function |
| `SymmetricStates.SymmetricState.MoveFrom` | symmetric.cpp:16-22 | full old state moves, source buffers are zero |
| `SymmetricStates.SymmetricState.MoveAssign` | symmetric.cpp:24-35 | as move construction; self-assignment changes nothing |
| `Handshakes.HandshakeState.constructor` | handshake.cpp:68-107 | name, prologue and, for IK, the responder static key are hashed; the pre-known key is stored only for the IK initiator |
| `Handshakes.HandshakeState.PreMessage` | handshake.cpp:89-106 | the IK pre-message of each role |
| `Handshakes.HandshakeState.WriteE` | handshake.cpp:188-195 | is token `e` of the interpreter, writing |
| `Handshakes.HandshakeState.MixDh` | handshake.cpp:197-204 | mixes the shared secret, or fails and changes nothing |
| `Handshakes.HandshakeState.EncryptStatic` | handshake.cpp:206-210 | is token `s` of the interpreter, writing, and is only reached with a keyed cipher: the field is the 48-byte encrypted form |
| `Handshakes.HandshakeState.ReadE` | handshake.cpp:276-283 | is token `e` of the interpreter, reading at the offset |
| `Handshakes.HandshakeState.ReadEncryptedStatic` | handshake.cpp:285-295 | the fixed 48-byte field is token `s` of the interpreter, reading, whenever the cipher is keyed |
| `Handshakes.HandshakeState.WriteTokens` | handshake.cpp:217-264 | the switch of `write_message` equals the table-driven interpreter, for both patterns, all steps, both roles, failures included |
| `Handshakes.HandshakeState.ReadTokens` | handshake.cpp:306-350 | the switch of `read_message` equals the table-driven interpreter, partial effects of failures included |
| `Handshakes.HandshakeState.WriteMessage` | handshake.cpp:181-268 | the whole call equals section 5.3 WriteMessage over the table and keeps the key-presence invariant |
| `Handshakes.HandshakeState.ReadMessage` | handshake.cpp:270-359 | the whole call equals section 5.3 ReadMessage over the table and keeps the key-presence invariant |
| `Handshakes.WriteKeepsKeyPresence` | handshake.cpp:181-268 | any write, failed or not, keeps the key-presence invariant, role, pattern and static pair |
| `Handshakes.StaticsAreKeyed` | handshake.cpp:206-295 | in every reachable state, wherever a table has a static key on the wire, written or read, the cipher is keyed by then |
| `Handshakes.ReadKeepsKeyPresence` | handshake.cpp:270-359 | any read of arbitrary bytes, failed or not, keeps the same |
| `Handshakes.HandshakeState.Split` | handshake.cpp:361-396 | role-ordered counter-zero ciphers; `ck`, static secret, ephemeral pair and peer ephemeral are zero; `h`, both static public keys and the handshake cipher unchanged |
| `Handshakes.HandshakeState.WipeDhArrays` | handshake.cpp:124-133 | zeroes the six key arrays and nothing else |
| `Handshakes.HandshakeState.MoveFrom` | handshake.cpp:137-153 | full old state moves; every key buffer of the source is zero |
| `Handshakes.HandshakeState.MoveAssign` | handshake.cpp:155-175 | as move construction; self-assignment changes nothing |
| `HandshakeRuns.MessageLength` | handshake.cpp:186-215 | a message written or accepted is exactly 32, 96, 64 (XX) or 96, 48 (IK) bytes longer than its payload, non-empty, and within the reserved capacity |
| `HandshakeRuns.CallCounter` | handshake.cpp:181-359 | one call advances the handshake counter by at most one, however it ends |
| `HandshakeRuns.ReadLeavesFreshKey` | handshake.cpp:352-358 | after an accepted message the cipher is unkeyed or used once |
| `HandshakeRuns.RunSteps` | handshake.cpp:177-359 | over any calls on arbitrary bytes: the step counts the calls that returned a value, never passes the total; a complete party is frozen; the counter is bounded by the number of calls |
| `Agreement.TokenMirror` | handshake.cpp:276-304 | reading a token after writing it keeps both sides' states equal |
| `Agreement.ScriptMirror` | handshake.cpp:306-350 | for every token list that only uses exchanged keys, the reader consumes exactly what the writer emitted and ends in the same state |
| `Agreement.TablesAreExchanged` | handshake.cpp:217-264 | the XX and IK tables are such lists, and each message makes known what the next needs |
| `Agreement.MessageAgreement` | handshake.cpp:181-359 | from any honest pair the next message, if written, comes back whole and the pair stays honest; on honest keys it is always written |
| `Agreement.HandshakeAgreement` | handshake.cpp:181-396 | all static keys, ephemerals and payloads: every payload returns byte for byte, symmetric states are equal, each side learns the other's static key, split ciphers pair crosswise at counter zero, hashes agree |
| `ClosedForm.NewParty` | handshake.cpp:68-107 | the whole state of a new party: padded name as `ck`, octets 33 to 63 zero, and the hash of prologue and pre-message |
| `ClosedForm.XxFirstMessage` | handshake.cpp:228-232 | XX message 1 written: `e` and the clear payload, both hashed |
| `ClosedForm.XxSecondMessage` | handshake.cpp:244-252 | XX message 2 written, octet for octet and with the state it leaves: `e`, `ee`, sealed static, `es`, sealed payload; none exactly if a DH fails |
| `ClosedForm.XxThirdMessage` | handshake.cpp:254-262 | XX message 3 likewise: sealed static, `se`, sealed payload |
| `ClosedForm.IkFirstMessage` | handshake.cpp:218-227 | IK message 1 likewise: `e`, `es`, sealed static, `ss`, sealed payload |
| `ClosedForm.IkSecondMessage` | handshake.cpp:236-243 | IK message 2 likewise: `e`, `ee`, `es` once more, sealed payload |
| `ClosedForm.XxFirstRead` | handshake.cpp:317-320 | XX message 1 read, on any bytes: refused below 32, else key and payload |
| `ClosedForm.XxSecondRead` | handshake.cpp:334-341 | XX message 2 read, on any bytes: accepted exactly if both secrets exist and both seals open, with the state that leaves |
| `ClosedForm.XxThirdRead` | handshake.cpp:343-348 | XX message 3 read likewise |
| `ClosedForm.IkFirstRead` | handshake.cpp:308-316 | IK message 1 read likewise, with the responder's static secret |
| `ClosedForm.IkSecondRead` | handshake.cpp:324-333 | IK message 2 read likewise |
| `ClosedForm.XxConversation` | handshake.cpp:181-396 | all XX handshakes: complete exactly if ee, es and se exist; chaining key, hash and the four ciphers are the explicit chain of these secrets from the padded name |
| `ClosedForm.IkConversation` | handshake.cpp:181-396 | all IK handshakes likewise, from es, ss, ee and es |
| `Impostor.XxResponder` | handshake.cpp:244-252 | symbolic suite: XX message 2 made with a secret `y` beside the true public key is read if and only if `y` is its secret |
| `Impostor.XxInitiator` | handshake.cpp:254-262 | the same of XX message 3 |
| `Impostor.IkInitiator` | handshake.cpp:218-227 | the same of IK message 1 |
| `Impostor.IkResponder` | handshake.cpp:236-243 | the same of IK message 2 |
| `IkTable.IkLastTokenIsNotSe` | handshake.cpp:236-243 | from any honest pair: the provider's second IK message is read by a table ending in `se`, and such a peer's message by the provider, if and only if the key pairs coincide |
| `IkTable.ProviderEndsInEs` | handshake.cpp:236-243 | the provider's second IK message is the one of a table ending in `es` |
| `Objects.PassMessage` | handshake.cpp:181-359 | a message from one object into another is a write and a read on values |
| `Objects.RunHandshake` | tests/test_noise.cpp:355-380 | message by message, two separate mutable objects follow the agreement theorem and end with equal hidden state |
| `Objects.OpenPair` | handshake.cpp:68-107 | builds two such objects, which share nothing, from any honest keys |
| `Objects.EstablishChannel` | tests/test_noise.cpp:355-380 | objects made, handshake run, both split: on honest keys nothing fails, payloads come back and the cipher objects pair up crosswise at counter zero |
| `Binding.RunChains` | symmetric.cpp:69-88 | over any run, failures included, the hash is the fold of a transcript that only grows |
| `Binding.OpenIsUntouched` | handshake.cpp:77-106 | a new party has bound name, prologue and IK pre-message |
| `Binding.AcceptanceBinds` | symmetric.cpp:81-88 | a keyed decryption accepts a peer's ciphertext only with equal pattern, transcript, hash, key and counter |
| `Binding.CallPieces` | handshake.cpp:181-359 | a successful call mixes exactly its wire message, cut at the field boundaries |
| `Binding.CleanRunLog` | handshake.cpp:181-359 | without failures the transcript is the sequence of wire messages |
| `Binding.AcceptedMessageBinds` | handshake.cpp:352-359 | after any two runs, accepting a keyed message with the peer's payload ciphertext forces equal patterns, transcripts, hashes and ciphers |
| `Binding.HonestMessagesQualify` | handshake.cpp:352-359 | every message of an honest conversation but the first of XX, which is not keyed, meets all hypotheses of the binding theorem |
| `Binding.AcceptedMessageBindsWire` | handshake.cpp:352-359 | any two opened parties: if no call failed, both sides have the same pattern and saw the same messages byte for byte, and an IK initiator was given the responder's static key |
| `Binding.TranscriptLength` | handshake.cpp:181-359 | the number of strings a clean run mixes depends on pattern and step alone |
| `ChannelBinding.EqualBindingsEqualTranscripts` | noise.cpp:290-293 | any two opened sessions after any runs: the exported 32-byte hashes are equal if and only if pattern and whole transcript are |
| `Transports.TransportState.constructor` | transport.hpp:24-25 | takes over both ciphers |
| `Transports.TransportState.Encrypt` | transport.hpp:33-36 | advances the send side only |
| `Transports.TransportState.Decrypt` | transport.hpp:39-42 | advances the receive side only, and only on success |
| `Transports.TransportState.Rekey` | transport.hpp:48-53 | both keys move on and both counters are zero |
| `Transports.TransportState.EncryptThenRekey` | noise.cpp:320-330 | encrypt, then rekey both directions if either counter reached 2^60 |
| `Transports.TransportState.DecryptThenRekey` | noise.cpp:344-349 | decrypt, then rekey on success only |
| `Transports.CountersStayBelow` | transport.hpp:59-61 | in any run of sends, receives of arbitrary bytes and rekeys both counters stay below 2^60 between calls, so the wrap guards are unreachable |
| `Transports.RekeyAtTheInterval` | transport.hpp:16-16 | frames in one direction: nothing but the counter changes before the 2^60th, and exactly there both directions start anew on the next keys |
| `Transports.RejectedReceivesErase` | noise.cpp:344-349 | with sends and rekeys in between, dropping the rejected frames changes no state, no ciphertext and no plaintext |
| `RekeySync.SendKeepsAligned` | noise.cpp:320-330 | any send, safe or not, rekeying or not, keeps both directions aligned: old frames first, then contiguous (epoch, counter) positions |
| `RekeySync.DeliverKeepsAligned` | noise.cpp:344-349 | a delivery rejects a frame of a left epoch and opens any other to its own plaintext, and keeps both directions aligned |
| `RekeySync.ExactFate` | noise.cpp:320-349 | every run: a delivered frame is rejected if and only if its receiver has left its epoch, otherwise it gives the plaintext sent; every outcome is a rejection or the right plaintext, in order |
| `RekeySync.Convergence` | docs/handshake.md:140-144 | every run, safe or not: once nothing is in flight epochs are equal and each send cipher is the other's receive cipher |
| `RekeySync.RekeySynchronisation` | noise.cpp:320-349 | any interleaving of safe events, unboundedly many rekeys: nothing rejected, received is a prefix of sent, frames in flight at contiguous (epoch, counter) positions wrapping at 2^60 |
| `RekeySync.EventIsLossless` | noise.cpp:320-349 | an event leaves nothing lost and nothing bound to be lost if and only if that was so before and the event is safe: loss is permanent |
| `RekeySync.UnsafeSendLosesAFrame` | transport.hpp:48-53 | an unsafe send makes its own frame stale at once, or all the frames it outran |
| `RekeySync.SafeIsExact` | noise.cpp:320-349 | a whole run is safe if and only if none of its frames is rejected, those in flight at its end delivered too; after that the peers are paired in any case |
| `RekeySync.BehindIsUnheard` | cipher.cpp:127-134 | through any events, a peer ahead rejects every frame, those sent meanwhile included, with its receive counter at zero, until the other has reached its epoch |
| `RekeySync.StaleFramesAreLost` | cipher.cpp:127-134 | the same from any run from fresh keys that ends in a crossing send |
| `RekeySync.AFrameCanBeLost` | noise.cpp:320-330 | a run from fresh keys in which a frame is lost |
| `RekeySync.QuietStatesAreNotEnough` | noise.cpp:320-330 | a run in which every state is quiet and a frame is still lost |
| `Intrusion.HandIsInert` | cipher.cpp:98-138 | bytes handed to a peer change nothing if and only if they are not sealed under the key and counter it waits for |
| `Intrusion.ForeignBytesErase` | cipher.cpp:98-138 | any run of the two peers with such bytes coming in anywhere equals the run without them |
| `Intrusion.DueIsPosition` | cipher.cpp:98-138 | of all frames ever sealed for a peer exactly the one at its epoch and counter is due |
| `Intrusion.TakenAtMostOnce` | noise.cpp:344-349 | a frame once delivered is never taken again, whatever happens in between |
| `NonceUse.NoEpochNonceReuse` | cipher.cpp:67-94 | in any run of keying, encrypting, decrypting, rekeying and wiping no two encryptions share key epoch and wire nonce |
| `NonceUse.MessagesAvoidReservedNonce` | cipher.cpp:140-144 | no message uses 2^64-1, which REKEY reserves |
| `NonceUse.NoKeyNonceReuse` | transport.hpp:48-53 | in any transport run no two encryptions, REKEY's on either cipher included, share key bytes and wire nonce: on one cipher always, across the two if their key chains are disjoint |
| `NonceUse.SplitChainsAreDisjoint` | symmetric.cpp:90-124 | symbolic suite: the key chains of the two ciphers of any Split are disjoint |
| `HandshakeNonces.NoSpotReuse` | noise.cpp:204-242 | any schedule of two driven sessions: all encryptions of both are those of the tables in message order, and no two share a number of MixKeys and a counter |
| `HandshakeNonces.NoKeyNonceReuse` | noise.cpp:204-242 | symbolic suite: no two encryptions of either session share key bytes and wire nonce |
| `HandshakeNonces.ObjectsAloneReuse` | handshake.cpp:181-264 | without the driver: from any honest XX pair at step 2 both sides can write, sealing two static keys under one key, counter and associated data |
| `Sessions.NoiseSession.constructor` | noise.cpp:74-80 | a new session: open handshake, idle transport, flags down |
| `Sessions.NoiseSession.HandshakeStep` | noise.cpp:204-242 | read if bytes came, stop on completion, then write if it is our turn |
| `Sessions.RefusedIsReported` | noise.cpp:217-221 | a refused message is reported, advances no step, sends nothing and changes no flag |
| `Sessions.NoiseSession.ExportTransportKeys` | noise.cpp:249-303 | refused before completion and after the first success; otherwise keys, zero counters, peer key and the first 32 bytes of the handshake hash, with both flags raised together |
| `Sessions.ExportGives` | noise.cpp:249-303 | the exported keys by role as HMAC values over the chaining key, the peer's key, and octets 0 to 31 of the complete party's hash |
| `Sessions.NoiseSession.Encrypt` | noise.cpp:305-332 | gates, then the wrapper |
| `Sessions.NoiseSession.Decrypt` | noise.cpp:334-351 | gates, then the wrapper |
| `Sessions.NoiseSession.Rekey` | noise.cpp:353-363 | gates, then both directions |
| `Sessions.OpenTransportsTalk` | noise.cpp:305-351 | on open, paired transports what one side encrypts the other decrypts, and a refused frame changes nothing |
| `Sessions.Lifecycle` | noise.cpp:249-363 | in every run from a new session the two flags agree and imply completion, export succeeds exactly once if they are up and else never, and encrypt, decrypt and rekey always refuse |
| `Sessions.ExportRetains` | noise.cpp:249-303 | after any run, a successful export and any later entries: hash, both static public keys and the keyed handshake cipher, counter 1, are kept; every other key buffer is zero |
| `Driver.DriverSafety` | noise.cpp:204-242 | any schedule with spurious empty calls and exports at any time: nothing refused or read out of turn, at most one message in flight, steps differ by at most one, both complete exactly after 3 (XX) or 2 (IK) messages |
| `Driver.ExportKeepsStanding` | noise.cpp:249-303 | an export gives keys if and only if the side is complete, leaves what the peer still needs of it unchanged, and a second one changes nothing |
| `Driver.Progress` | noise.cpp:219-241 | until both are complete some call always takes the handshake further |
| `Driver.Liveness` | noise.cpp:219-241 | from the end of any schedule both sides are complete after exactly the missing number of useful calls, never more than one per message and one; then both exports succeed |
| `Driver.SpuriousCallReply` | noise.cpp:231-240 | an empty call is refused exactly when the pattern is over and the turn would be ours, and then changes nothing |
| `Driver.DeliveryIsOk` | noise.cpp:217-241 | in any schedule a delivery is answered with a message, or with none exactly after the last |
| `EndToEnd.CompletedSessionsPair` | noise.cpp:249-303 | any schedule, each side exporting whenever it likes, even with its last message in flight: the exports pair up: keys crosswise, equal channel binding, zero counters, each other's static key |
| `EndToEnd.HandshakeThenTransport` | tests/test_noise.cpp:536-563 | honest handshake, split, any traffic: lossless and in order exactly when safe, paired whenever nothing is in flight |
| `EndToEnd.ExportThenTransport` | noise.cpp:249-303 | the same of any two driven sessions and the keys they exported |

## Left out

- CipherStates.CipherState.EncryptWithAd: the process abort at counter 2^64-1 is a precondition; `Transports.CountersStayBelow` and `HandshakeRuns.RunSteps` say when it holds.
- CipherStates.CipherState.DecryptWithAd: as above, except that short ciphertexts are refused before the guard.
- Handshakes.HandshakeState.WriteMessage: as above; only the third XX message can meet the guard, and not before 2^64-1 calls.
- Handshakes.HandshakeState.ReadMessage: as above.
- libsodium internals, random bytes and the Ed25519 to X25519 conversion: parameters with laws.
- `hash.cpp`: streaming updates mean concatenation.
- Wiping of local temporaries and destructors: no observer is left to state it to.
- The exception paths of both `split` functions.
- An explicit one-sided `rekey` inside the two-peer protocol: it has no counterpart on the other side, and the session entry point for it always refuses.
- Null arguments, allocation failure and buffer ownership in the entry points, and opening a session from Ed25519 keys.
- Plugin registration, vtable construction and trust mask.
- Interleaving of threads inside one entry point: each call is one atomic step.
- The nonce setters behind `GN_TEST_HOOKS`.
- Secrecy and probability: nothing computational is stated.
