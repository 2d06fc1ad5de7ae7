# RemoteMac: a verified model

RemoteMac joins machines into an encrypted mesh, reaches a screen through a blind relay,
proxies SOCKS streams over one channel and can send a whole machine's traffic through a peer.
This project models the parts of it that carry state or arithmetic, and proves what they are
for: over every run, every interleaving, every input.

| modules | what they model |
|---|---|
| `MeshKeys`, `MeshSession`, `MeshPeer` | key derivation, the AEAD session with its 1024-bit replay window, one peer connection |
| `MeshNet`, `MeshSafety`, `MeshTheorems`, `MeshAgreement` | the mesh data plane as a state machine over the atomic blocks of its threads, its invariant, its promises |
| `Keccak`, `KeccakLanes`, `KeccakConstants`, `Shake256` | SHAKE-256 of FIPS 202 on bits, and the in-place lane code proved equal to it |
| `ScryptSpec`, `Scrypt` | scrypt of RFC 7914 on octets, and the word code proved equal to it |
| `SecureChannel`, `RateLimit`, `SwiftChannel`, `Primitives` | the framed channel in Python and in Swift, its cipher and its limiter |
| `SocksMux`, `SocksOutcomes` | many SOCKS streams over one channel: handler threads and reader threads of both sides; how streams begin and end |
| `Cidr`, `Routing`, `FullTunnel` | CIDR arithmetic, the route table and anti-spoofing check, the full-tunnel routes in a kernel table |
| `Relay` | the rendezvous relay as the interleaving of its handlers between awaits |
| `Allocator`, `Dns` | the overlay address allocator with its state file, the DNS codec |
| `Bits`, `Words`, `Bytes`, `Wrappers` | bit-level arithmetic on unbounded integers, machine words, byte strings, optional values |

Code that updates fields or arrays is modelled by classes and array methods, each proved to
compute a function of the old state; the protocol theorems are lemmas about those functions.
Concurrent code (`MeshNet`, `Relay`, `SocksMux`) is a state machine whose steps are the blocks a
thread runs under a lock or between two awaits, and a run is an arbitrary list of steps.

## Assumptions

- X25519 is an unordered pair of key identifiers, HKDF a free constructor, and AEAD is ideal: a
  packet opens only under the key and counter that sealed it. HMAC and the extendable-output
  function of the channel are parameters; where a MAC must be unforgeable a lemma says so in its
  `requires` (`SecureChannel.Unforged`, which `PremisesMeet` shows can be met).
- The mesh network may drop, repeat and reorder everything, present any ciphertext to any node,
  and, outside `MeshAgreement`, make up handshake messages. Fresh ephemerals are distinct;
  `MeshAgreement` also takes fresh demux indices to be distinct.
- Text that names an IPv4 address is canonical, one text for each address. Public keys in
  `Routing` are opaque and non-empty.
- A route command that fails changes nothing; adding a prefix that the kernel table already
  holds fails.

## Results that are not what one might expect

- Mesh keys can differ after the initiator has discarded its ephemeral: `MismatchAfterDiscard`
  is such a run, and `AgreementExactly` and `AgreementUnlessDiscarded` say exactly when keys
  agree.
- An initiator's worker killed by a raising relay send leaves its link stuck, and nothing that
  node does by itself ends it: `StuckAfterException`. `KilledWorkerExactly` says when a killed
  worker does that, and `StuckUntilRevived` which handshakes from the peer over UDP end it.
- Taking the first 32-bit word for the whole 512-bit integer in scrypt is right exactly when N
  divides 2^32: `WordIndexExact`, with a witness block in `OtherSizesDiffer`.
- A peer whose hostname is somebody's address can be given packets it may not answer:
  `AddressShapedNameFails`, with the exact condition in `RepliesPermittedExactly`.
- An endpoint learnt from traffic and not in the map can match an accepted route:
  `LearnedEndpointCanMatch`. The route guard is a snapshot, as mesh.py:565-570 says itself.
- A SOCKS client that waits too long for its answer says so to its app but not to the gateway,
  which keeps the stream once it connects: `LateStreamStays`, the exception in `EndIsTold`.
- A failed 'R' removes whatever host the id maps to by then, even a live one:
  `StaleFailureDropsLiveHost`, with the exact list of displacing steps in `DisplacedExactly`.
- An address whose save failed can go to another node after a crash: `UnsavedIsReused`. A
  crash leaves a key its address exactly when the file held the key: `RestartKeepsExactly`.
- A DNS name survives the codec exactly when its labels are ASCII of 1 to 63 characters:
  `NameRoundTripExactly`. One label that contains a dot byte comes back as two
  (`DottedLabelSplits`); `QuestionEchoedExactly` says which questions are repeated byte for byte.
- Teardown of the full tunnel brings the first kernel table back exactly when that table held
  none of the prefixes of the session's inputs: `FullTunnel.Session`. A foreign host route on a
  pinned address stays in force while the tunnel is up and is deleted with it.

## Model

| member | source | states |
|---|---|---|
| MeshKeys.CrossMatchExactly | mesh.py:224-254 | two derivations give crossed keys exactly when they name the same two statics and ephemerals in opposite roles |
| MeshKeys.OnlyParticipantsDerive | mesh.py:227-233 | the session keys can be derived exactly by a holder of one side's ephemeral and static keys, or of both ephemerals, so agreeing on keys authenticates both statics |
| MeshSession.JudgeExact | mesh.py:286-299 | a counter is accepted iff it is above the maximum, or unseen and less than 1024 behind it |
| MeshSession.AdvanceRefines | mesh.py:287-299 | the shifted, ORed and masked bitmask still stands for the accepted set: bit i set iff counter max - i was accepted |
| MeshSession.WindowRefinesSet | mesh.py:260-300 | over every sequence of authentic counters the bitmask window refines the plain set of accepted counters |
| MeshSession.AcceptanceExact | mesh.py:281-300 | the k-th counter of any sequence is accepted iff it is above every counter accepted before, or was not accepted and is less than 1024 behind the largest |
| MeshSession.AcceptedAtMostOnce | mesh.py:281-300 | no counter is accepted twice in any sequence |
| MeshSession.Session.constructor | mesh.py:263-269 | a new session has counter 0 and an empty window |
| MeshSession.Session.Encrypt | mesh.py:275-279 | seals under the current counter and advances it; fails once the counter needs more than 8 bytes |
| MeshSession.Session.Decrypt | mesh.py:281-300 | an accepted packet's counter was never accepted before; a rejected packet leaves the accepted set as it was; unauthentic packets do not touch the window |
| MeshPeer.PeerConn.constructor | mesh.py:308-323 | a new connection has no session, an empty queue and an open handshake |
| MeshPeer.PeerConn.BindTransportTo | mesh.py:325-330 | the path is direct to the observed address for UDP, relayed otherwise |
| MeshPeer.PeerConn.Upgrade | mesh.py:772-779 | only a handshake over UDP changes the path, and nothing else changes |
| MeshPeer.PeerConn.Flush | mesh.py:332-334 | the queue is handed out in order and left empty |
| MeshPeer.PeerConn.OnInit | mesh.py:724-750 | the INIT branch computes HandleInit on the fields; the answer is the ephemeral of the session's keys, the new one the first time and the same one every time after; an existing session object is never replaced |
| MeshPeer.PeerConn.OnResp | mesh.py:751-766 | the RESP branch computes HandleResp; without an ephemeral it changes nothing; an existing session object is never replaced |
| MeshPeer.PeerConn.OfferPayload | mesh.py:826-837 | a payload goes ahead iff there is a session; otherwise it joins the queue unless 32 wait |
| MeshPeer.PeerConn.TransmitPayload | mesh.py:815-824 | one payload is sealed once and goes to the endpoint under the peer's index iff the path is direct |
| MeshPeer.PeerConn.RecvData | mesh.py:781-805 | what the application is handed and what is answered automatically, for every packet |
| MeshPeer.SurfaceExactly | mesh.py:781-805 | types 4 and 5 reach no callback, type 3 the tunnel's, all others the application's, with the body as it came |
| MeshPeer.AnswersEnd | mesh.py:781-805 | a ping reaches its sender's application as a pong with the same body, a keepalive's acknowledgement reaches none, and no automatic answer is answered |
| MeshPeer.PeerConn.ClaimConnect | mesh.py:844-854 | a worker is started iff none was claimed, and the claim is then set |
| MeshPeer.PeerConn.WorkerBegins | mesh.py:861-873 | only the smaller key makes an ephemeral, once, and its INIT carries that one |
| MeshPeer.PeerConn.WorkerRearms | mesh.py:900-910 | giving up clears the claim, and the ephemeral only when there is no session |
| MeshPeer.PeerConn.FailsOver | mesh.py:927-936 | a silent direct path becomes relayed, the claim and ephemeral are cleared, the session stays |
| MeshSafety.RunKeepsInv | mesh.py:690-944 | the data-plane invariant (sessions, queues, counters, windows, wire, fate of every payload) holds after every run of any threads on any nodes |
| MeshTheorems.DeliveredAtMostOnce | mesh.py:724-835 | two acceptances of one payload anywhere in the mesh are the same event |
| MeshTheorems.DeliveredAuthentic | mesh.py:781-835 | whatever is accepted as coming from a peer is the content of one send call of that peer towards this node |
| MeshTheorems.CallbackAtMostOnceAndAuthentic | mesh.py:781-805 | each send reaches the peer's callback at most once and with the bytes given to send |
| MeshTheorems.CounterNeverReused | mesh.py:275-279 | no key and counter pair encrypts twice in any run, through handshakes, failovers and upgrades |
| MeshTheorems.SessionNeverReplaced | mesh.py:726-779 | once a link has session keys, every extension of the run keeps them |
| MeshTheorems.FieldsMoveExactly | mesh.py:690-944 | over every run and every step: exactly when the ephemeral is made and discarded, the connect claim set and taken back, and the path becomes direct and stops being so |
| MeshTheorems.ConnectingExactly | mesh.py:308-330 | in every run a path is 'connecting' exactly as long as there is no session |
| MeshTheorems.EndpointIsLastSeen | mesh.py:724-779 | in every run the endpoint is the address the last effective handshake over UDP came from, and a direct path has one |
| MeshTheorems.QueueOnlyBeforeSession | mesh.py:332-334 | a link with a session has an empty queue, and no queue exceeds 32 |
| MeshTheorems.EveryPayloadAccountedFor | mesh.py:815-837 | every payload is in exactly one place: queued, dropped, held by one thread, lost, or encrypted once |
| MeshTheorems.RefusedExactlyWhenFull | mesh.py:826-832 | a payload is turned away exactly when there is no session and 32 are waiting |
| MeshTheorems.QueueFlushedInOrder | mesh.py:332-334 | queued payloads of one link leave in the order they were sent |
| MeshTheorems.LostNeedsException | mesh.py:751-766 | a payload is lost only in a thread that raised, or when the counter is exhausted |
| MeshTheorems.NeverStuck | mesh.py:844-944 | unless a worker was killed by an exception, a path that is not direct has a live worker or the next attempt starts one |
| MeshTheorems.KilledWorkerExactly | mesh.py:844-910 | a worker killed by an exception leaves its link stuck iff it was the only one, the path is not direct and the claim is set |
| MeshTheorems.StuckUntilRevived | mesh.py:690-944 | of all steps of all threads, exactly an INIT over UDP, or a RESP over UDP that finds a session or an ephemeral, ends a stuck link |
| MeshTheorems.StuckAfterException | mesh.py:844-944 | the premise is needed: when the relay send of an initiator's looping worker raises, the link is stuck, and neither a new attempt to connect nor the keepalive loop of this node changes anything |
| MeshAgreement.AgreementExactly | mesh.py:724-766 | when both sides have a session, keys cross-match iff the ephemeral held at RESP is the one of the first INIT taken |
| MeshAgreement.AgreementUnlessDiscarded | mesh.py:839-910 | when both sides have a session, keys match iff the initiator did not discard the ephemeral of the INIT that was taken first; other discards, loss, repetition, reordering and glare do no harm |
| MeshAgreement.GlareHarmless | mesh.py:839-842 | only one role ever sends INIT, and the initiator's session implies the responder's |
| MeshAgreement.InitAnswered | mesh.py:724-750 | in every run, forged handshakes included, each INIT the larger key takes, first or repeated, is answered in that very step with its index and the ephemeral its keys were derived from, and a repeated one changes neither |
| MeshAgreement.AnswersAgree | mesh.py:736-748 | all RESP messages of one responder to one peer are the same message |
| MeshAgreement.RetransmissionCompletes | mesh.py:724-766 | whatever was lost before, one more INIT and the answer to it give an initiator that still waits its session |
| MeshAgreement.IndicesAgree | mesh.py:642-649 | each side's remote index is the other's local index and leads the receiving node back to this very link |
| MeshAgreement.MatchingKeysDeliver | mesh.py:713-719 | with matching keys a datagram is accepted exactly when its counter is new and not 1024 behind, and then only its payload is added |
| MeshAgreement.MismatchAfterDiscard | mesh.py:906-910 | an honest run in which the discarded ephemeral makes the two sides' keys differ |
| Keccak.ShorterIsPrefix | mac-native/Sources/RemoteMacCore/SHAKE256.swift:58-91 | a shorter digest is a prefix of a longer one |
| KeccakConstants.RoundConstantBits | mac-native/Sources/RemoteMacCore/SHAKE256.swift:6-13 | the 24 constants are the ones the LFSR of FIPS 202 section 3.2.5 generates, bit by bit |
| KeccakLanes.RhoOffsets | mac-native/Sources/RemoteMacCore/SHAKE256.swift:15-21 | the 25 offsets are those of the walk of FIPS 202 section 3.2.2 modulo 64 |
| KeccakLanes.DestBijective | mac-native/Sources/RemoteMacCore/SHAKE256.swift:36-39 | every lane of b is written exactly once |
| KeccakLanes.ThetaBits | mac-native/Sources/RemoteMacCore/SHAKE256.swift:30-34 | the lane form of theta is theta of FIPS 202 on bits |
| KeccakLanes.RhoPiBits | mac-native/Sources/RemoteMacCore/SHAKE256.swift:36-39 | the fused rotation and permutation is pi after rho on bits |
| KeccakLanes.ChiBits | mac-native/Sources/RemoteMacCore/SHAKE256.swift:41-43 | the lane form of chi is chi on bits |
| Shake256.KeccakFBits | mac-native/Sources/RemoteMacCore/SHAKE256.swift:27-47 | 24 lane rounds are Keccak-f[1600] on bits |
| Shake256.ThetaInPlace | mac-native/Sources/RemoteMacCore/SHAKE256.swift:30-34 | the two parity arrays and the in-place XOR compute theta of the old state |
| Shake256.RhoPi | mac-native/Sources/RemoteMacCore/SHAKE256.swift:36-39 | the scatter loop computes rho and pi of the state, overwriting nothing |
| Shake256.ChiInto | mac-native/Sources/RemoteMacCore/SHAKE256.swift:41-43 | the loop computes chi of b into a |
| Shake256.KeccakFInPlace | mac-native/Sources/RemoteMacCore/SHAKE256.swift:27-47 | the loops change the array into Keccak-f of its old contents |
| Shake256.AbsorbBlock | mac-native/Sources/RemoteMacCore/SHAKE256.swift:49-56 | the byte loop XORs the block's little-endian lanes into the state and leaves the capacity lanes |
| Shake256.AbsorbBits | mac-native/Sources/RemoteMacCore/SHAKE256.swift:49-56 | absorbing a byte block is the XOR of its bits into the bit state |
| Shake256.PaddingIsStandard | mac-native/Sources/RemoteMacCore/SHAKE256.swift:69-72 | 0x1F and 0x80 are the suffix 1111 and pad10*1, also when both fall on one byte |
| Shake256.PaddedBits | mac-native/Sources/RemoteMacCore/SHAKE256.swift:62-74 | whole blocks and the last block together are the padded message of FIPS 202 |
| Shake256.LastBlock | mac-native/Sources/RemoteMacCore/SHAKE256.swift:69-72 | the append loop builds the padded last block |
| Shake256.EmitBlock | mac-native/Sources/RemoteMacCore/SHAKE256.swift:79-87 | the shift loop appends the next bytes of the state, stopping at the requested length |
| Shake256.AbsorbAll | mac-native/Sources/RemoteMacCore/SHAKE256.swift:60-74 | the absorbing loop leaves the state the sponge has after the padded message |
| Shake256.SqueezeAll | mac-native/Sources/RemoteMacCore/SHAKE256.swift:76-90 | the squeezing loop yields the first n bytes the sponge squeezes |
| Shake256.Digest | mac-native/Sources/RemoteMacCore/SHAKE256.swift:58-91 | for every input and output length the code equals SHAKE256 of FIPS 202 |
| Scrypt.Salsa20_8 | mac-native/Sources/RemoteMacCore/Scrypt.swift:11-34 | the unrolled statements are four double rounds of quarter-rounds plus the input |
| Scrypt.DestIsBijection | mac-native/Sources/RemoteMacCore/Scrypt.swift:44-45 | the destination map hits every block once: even blocks first, then odd |
| Scrypt.BlockMixCode | mac-native/Sources/RemoteMacCore/Scrypt.swift:37-48 | the in-place loop computes scryptBlockMix on words |
| Scrypt.BlockMixRefines | mac-native/Sources/RemoteMacCore/Scrypt.swift:37-48 | BlockMix on words is BlockMix of RFC 7914 section 4 on octets |
| Scrypt.IndexIsIntegerify | mac-native/Sources/RemoteMacCore/Scrypt.swift:55-55 | the first word of the last block mod N is Integerify mod N when N divides 2^32 |
| Scrypt.WordIndexExact | mac-native/Sources/RemoteMacCore/Scrypt.swift:55-55 | it is so for every block of every size exactly when N divides 2^32 |
| Scrypt.OtherSizesDiffer | mac-native/Sources/RemoteMacCore/Scrypt.swift:55-55 | for every other N there is a block on which the code's index differs |
| Scrypt.RoMixCode | mac-native/Sources/RemoteMacCore/Scrypt.swift:50-61 | V[i] is BlockMix iterated i times and the second loop stirs with it: scryptROMix on words |
| Scrypt.StirRefines | mac-native/Sources/RemoteMacCore/Scrypt.swift:54-59 | stirring on words is stirring on octets for every number of steps |
| Scrypt.Pbkdf2C1 | mac-native/Sources/RemoteMacCore/Scrypt.swift:64-72 | the block loop is PBKDF2 with one iteration, for every length the counter allows |
| Scrypt.WordsRoundTrip | mac-native/Sources/RemoteMacCore/Scrypt.swift:74-86 | words written as little-endian bytes read back as the same words |
| Scrypt.BytesRoundTrip | mac-native/Sources/RemoteMacCore/Scrypt.swift:74-86 | bytes read as little-endian words are written back as the same bytes |
| Scrypt.OrShiftedIsWord | mac-native/Sources/RemoteMacCore/Scrypt.swift:77-77 | the OR of four shifted bytes is their little-endian value |
| Scrypt.BytesToWordsLE | mac-native/Sources/RemoteMacCore/Scrypt.swift:74-80 | the loop of ORs and shifts fills the array with the little-endian words |
| Scrypt.WordsToBytesLE | mac-native/Sources/RemoteMacCore/Scrypt.swift:82-86 | the loop of shifts and masks appends the little-endian bytes of every word |
| Scrypt.MixInPlace | mac-native/Sources/RemoteMacCore/Scrypt.swift:91-95 | the p blocks are mixed in place, each independently |
| Scrypt.Derive | mac-native/Sources/RemoteMacCore/Scrypt.swift:88-97 | for every r, p and every N dividing 2^32 the code equals scrypt of RFC 7914 section 6 |
| Bytes.XorBigIsBytewise | remote_desktop.py:99-103 | XOR through one big-endian integer and back is the byte-by-byte XOR, leading zeros included, and always fits |
| SecureChannel.CryptUndoesCrypt | remote_desktop.py:113-118 | at equal counters crypt undoes crypt |
| SecureChannel.AsksExactly | remote_desktop.py:113-118 | the result depends on the XOF at exactly one input: the key and then the counter as eight big-endian bytes |
| SecureChannel.NoTwoTimePad | remote_desktop.py:106-118 | any two non-empty plaintexts of a sender are sealed with independent keystreams: whatever two ciphertexts one names, some XOF gives them |
| SecureChannel.PadsIndependent | remote_desktop.py:106-118 | so are plaintexts under different keys, or under one key at different counters |
| SecureChannel.XofCipher.Crypt | remote_desktop.py:113-118 | XOR with the keystream of the key and the current counter; the counter advances exactly on non-empty data |
| RateLimit.RateLimiter.Check | remote_desktop.py:127-134 | rolls its window after a second, counts the check, and refuses exactly above the maximum |
| RateLimit.OwnWindowBound | remote_desktop.py:121-134 | at most max frames pass in any of the limiter's own windows |
| RateLimit.TwiceMaxPerSecond | remote_desktop.py:121-134 | at most 2 max frames pass in any half-open second, for every non-decreasing times |
| RateLimit.NoneRejectedWhenSlow | remote_desktop.py:121-134 | nothing is rejected when no half-open second holds more than max checks |
| SecureChannel.ReadExactly | remote_desktop.py:206-215 | exactly n bytes of the stream however the socket cuts it, or end of stream with too few left |
| SecureChannel.SendRaw | remote_desktop.py:158-164 | all of the data or a proper prefix is sent |
| SecureChannel.Channel.constructor | remote_desktop.py:145-156 | all four counters start at zero |
| SecureChannel.Channel.Send | remote_desktop.py:169-174 | appends exactly the frame of the plaintext under the next MAC number and cipher counter, or a prefix of it on failure |
| SecureChannel.Channel.Recv | remote_desktop.py:185-196 | returns data only for an authentic frame under the expected number, decrypted in step; and for whatever bytes come next, only the limiter or a timeout can keep their outcome (end of stream, too large, bad MAC, or the plaintext) from happening |
| SecureChannel.NextPlaintext | remote_desktop.py:106-118 | cipher counters in step turn the next sealed frame into the next plaintext although empty frames are skipped |
| SecureChannel.FrameInStream | remote_desktop.py:169-174 | frame n of a stream of frames stands where the first n end |
| SecureChannel.FrameExactly | remote_desktop.py:169-174 | a frame read from the front: big-endian length, MAC of the big-endian sequence number and the ciphertext, ciphertext; and nothing else is a frame |
| SecureChannel.ReceiveNext | remote_desktop.py:185-196 | one recv keeps what was received a prefix of what was sent, whatever arrives; it is limited exactly when the limiter says so |
| SecureChannel.ReceiveRun | remote_desktop.py:158-215 | for any bytes and any chunking the data among the results is a prefix of the plaintexts, and all of them when the stream is intact, the limiter passes every check and no timeout occurs; each call is limited iff the limiter refuses its time, and interrupted once per timeout |
| SecureChannel.GotNext | remote_desktop.py:106-196 | an authentic frame under the expected number is the next one sealed, and its data the next plaintext |
| SecureChannel.PremisesMeet | remote_desktop.py:169-196 | the two premises of the run hold together: for every plaintext of fewer than 32 bytes there is a MAC under which a stream with one authentic frame is both intact and unforged |
| SecureChannel.SendRun | remote_desktop.py:176-183 | frames sent in a row stand on the wire one after the other, nothing between |
| SwiftChannel.SwiftCipher.Crypt | mac-native/Sources/RemoteMacCore/SecureChannel.swift:10-17 | the byte loop over the hand-written SHAKE-256 gives the Python cipher's result at every counter, so its keystreams are as independent |
| SwiftChannel.ShiftedLengthIsBigEndian | mac-native/Sources/RemoteMacCore/SecureChannel.swift:54-55 | the shifts and ORs of the header are the big-endian length |
| SwiftChannel.SwiftDuplex.Send | mac-native/Sources/RemoteMacCore/SecureChannel.swift:43-50 | writes the very frame the Python sender writes for the same plaintexts, or a prefix of it on failure |
| SwiftChannel.SwiftDuplex.Recv | mac-native/Sources/RemoteMacCore/SecureChannel.swift:52-65 | returns data only for an authentic frame under the expected number, decrypted in step; and for whatever bytes come next, only a timeout can keep the Python receiver's outcome from happening, but for the last number, which traps |
| SwiftChannel.SwiftSendRun | mac-native/Sources/RemoteMacCore/SecureChannel.swift:43-50 | a run of Swift sends puts on the wire the very stream of frames that Python puts there |
| SwiftChannel.SwiftReceiveRun | mac-native/Sources/RemoteMacCore/SecureChannel.swift:20-65 | for any bytes and any chunking what comes out is a prefix of the plaintexts, and all of them when the stream is intact and no timeout occurs; the run ends at the first error |
| SwiftChannel.Deliver | mac-native/Sources/RemoteMacCore/SecureChannel.swift:10-65 | either sender to either receiver: fed the sender's wire, the receiver gets a prefix of the plaintexts, and all of them when no timeout occurs, if no second holds more checks than the Python limiter allows |
| SocksMux.SidsRepeatExactly | remote_desktop.py:975-979 | the n-th identifier is 1 + n mod (2^32 - 1), so identifiers repeat with exactly that period |
| SocksMux.RunKeepsInv | remote_desktop.py:887-1176 | identifiers, frames in flight, replies and per-stream byte counts stay consistent in every interleaving with fewer than 2^32 - 1 identifiers |
| SocksOutcomes.AppSeesItsStream | remote_desktop.py:1040-1063 | every app sees (the beginning of) a refusal for lateness; or one with the code the gateway sent for that very stream, which it never registers; or, for a stream the gateway has registered and confirmed, the success reply and then a prefix of what the gateway read for it |
| SocksOutcomes.ReplyTellsOutcome | remote_desktop.py:1040-1063 | two bytes of a reply tell the outcome: 05 00 only for a registered stream, 05 and a code only for one that was late (code 4) or that the gateway refused with that code |
| SocksOutcomes.CodeTellsWhy | remote_desktop.py:1130-1176 | the gateway's code 2 is for a denied address, 5 for a refused connection, 4 for an unknown host, 1 for everything else |
| SocksOutcomes.EndIsTold | remote_desktop.py:911-939 | whoever finishes with a stream has sent CLOSE for it, unless that direction has stopped or the client's answer was late or a refusal |
| SocksOutcomes.EndsClosed | remote_desktop.py:893-939 | a CLOSE that was taken, or a handler that has finished, leaves neither an entry nor an open socket |
| SocksOutcomes.LateStreamStays | remote_desktop.py:1050-1053 | the exception is real: a run in which the client has given up without a CLOSE and the gateway keeps the stream |
| SocksOutcomes.AddsExactly | remote_desktop.py:1040-1049 | a stream is added exactly on a side that has not stopped and has fewer than 256; otherwise the gateway refuses with code 1 |
| SocksOutcomes.StoppedIsSilent | remote_desktop.py:911-925 | a side that has stopped has no streams and sends nothing in the rest of any run |
| SocksMux.RemoteSeesItsStream | remote_desktop.py:1137-1144 | every remote is written a prefix of what its own app sent |
| SocksMux.TablesBounded | remote_desktop.py:1043-1049 | at most 256 live streams on either side |
| Cidr.MaskClearsHostBits | mesh.py:145-164 | masking an address clears exactly its host bits |
| Cidr.InIsRange | mesh.py:185-194 | a network holds exactly the addresses from its base to its broadcast address |
| Cidr.OverlapsExactly | mesh.py:154-154 | the overlap test holds iff the two networks share an address |
| Cidr.OverlayRange | mesh.py:122-122 | the overlay is 100.64.0.0 to 100.127.255.255 |
| Routing.CheckRoute | mesh.py:145-164 | the early-return loop decides exactly the safety of a route |
| Routing.SafeExactly | mesh.py:145-164 | a route is safe exactly when it is IPv4 and none of its addresses is in 100.64.0.0/10 or guarded |
| Routing.BuildRouteTable | mesh.py:167-182 | the loops build the stable sort of the safe routes in map order |
| Routing.StableSortIsStable | mesh.py:181-181 | the table is descending in prefix length and keeps the order of equals |
| Routing.MatchRoute | mesh.py:185-194 | the loop returns the first entry that holds the address |
| Routing.FirstIsLongest | mesh.py:181-194 | first match in the sorted table is the longest match over all safe routes, ties going to map order |
| Routing.AcceptedExactly | mesh.py:167-194 | some entry matches iff some peer advertises a safe route holding the address |
| Routing.TransportNeverMatches | mesh.py:145-164 | no coordinator address, advertised endpoint or overlay address matches any entry |
| Routing.KnownTransportNeverMatches | mesh.py:536-559 | of the addresses that must bypass the tunnel, those the map knows never match |
| Routing.LearnedEndpointCanMatch | mesh.py:536-570 | the endpoint of a direct path that the map does not list must bypass the tunnel and yet matches an accepted route: the guard is a snapshot |
| Routing.RepliesPermittedExactly | mesh.py:588-621 | whoever is chosen to carry packets to an address may answer from it, for every address, iff no address-shaped hostname claims what is not its own |
| Routing.OrdinaryNamesSuffice | mesh.py:588-621 | without address-shaped hostnames replies are never dropped as spoofed |
| Routing.AddressShapedNameFails | mesh.py:580-586 | a peer named like an address is chosen and then not permitted |
| Routing.Router.constructor | mesh.py:340-378 | no peers, no routes, no exit |
| Routing.Router.Resolve | mesh.py:580-586 | the first peer in map order whose hostname or address is the text |
| Routing.Router.RouteFor | mesh.py:588-599 | the first peer that owns or is named by the address; otherwise the peer of the longest accepted route that holds it; the exit only when nobody claims the address |
| Routing.Router.SrcPermitted | mesh.py:601-621 | permitted iff the exit, its own address, or inside one of its accepted routes |
| Routing.BelievedExactly | mesh.py:601-621 | a peer with an ordinary name may use a source address exactly when it is the exit or when this node, knowing that peer only, would send packets for the address to it |
| Routing.Router.OnMap | mesh.py:503-534 | the table is rebuilt from the new map, and there is an exit iff the first peer of that name advertises as one, and it is that peer |
| Routing.Router.TransportIps | mesh.py:536-559 | exactly the coordinator and the advertised and live endpoints of peers with a connection and of the exit |
| Routing.BypassExactly | mesh.py:536-559 | the bypass set, clause by clause: coordinator, endpoints advertised by connected peers and by the exit, far ends of direct paths |
| Routing.DictKeysDistinct | mesh.py:505-510 | the map built from a message has one entry for each key |
| Routing.DictHoldsLast | mesh.py:505-510 | a peer is on the map exactly when it is the last entry of its key |
| Routing.SetPeerPlaces | mesh.py:505-510 | a repeated key keeps its place in the order, a new one goes to the end |
| FullTunnel.FullTunnelRoutes.constructor | netroute.py:80-88 | nothing pinned, nothing installed, the kernel table untouched |
| FullTunnel.Kernel.Add | netroute.py:90-95 | an addition changes the table only where the prefix was free, and every command is recorded: the table is always the replay of the commands |
| FullTunnel.Kernel.Del | netroute.py:97-102 | a deletion removes just that prefix, and is recorded |
| FullTunnel.FullTunnelRoutes.SyncPins | netroute.py:104-113 | exactly the desired set is pinned; the commands are exactly additions for the new addresses and deletions for those that went; what was and stays desired is kept from the tunnel after every command |
| FullTunnel.FullTunnelRoutes.InstallLanRoutes | netroute.py:117-130 | the commands are exactly additions of the routes not yet there, and after each of them the pinned addresses bypass the tunnel |
| FullTunnel.FullTunnelRoutes.InstallSplitDefault | netroute.py:134-141 | exactly the two halves are added, and after each of the two commands the pinned addresses bypass the tunnel |
| FullTunnel.FullTunnelRoutes.Teardown | netroute.py:143-161 | the commands delete exactly what the bookkeeping claims, pinned addresses bypass the tunnel to the end, and the table is the first one less every prefix ever named in a command: restored iff it held none of them |
| FullTunnel.Session | mesh.py:1053-1083 | set-up, any re-pinnings, teardown: the commands of every stage exactly; after every command the addresses that stay wanted bypass the tunnel; the final table is the first one less the prefixes of the inputs, so it is restored iff it held none of those |
| FullTunnel.PinTransport | mesh.py:1070-1083 | after re-pinning from the node's list every transport address leaves by its own host route, the gateway's or one that another program had put there first |
| FullTunnel.RestGoesToTunnel | netroute.py:134-141 | with the split default in place every address no pin, LAN or foreign route covers goes into the tunnel |
| FullTunnel.LanStaysLocal | netroute.py:117-130 | a LAN route wins over the tunnel where nothing is more specific |
| FullTunnel.PinsGoDirect | netroute.py:90-102 | a pinned address whose host route is present takes that route: nothing is longer |
| FullTunnel.EmptyBooks | netroute.py:143-161 | when the bookkeeping is empty the kernel holds the foreign routes no command named, and only those |
| Relay.Tables.Enter | relay.py:168-176 | admitted iff fewer than five run from the address, and then counted |
| Relay.Tables.Leave | relay.py:179-182 | the count goes down and a zero entry is removed |
| Relay.Tables.Register | relay.py:90-117 | full, occupied or registered, and whom the newcomer evicts |
| Relay.Tables.Pop | relay.py:139-139 | the entry is taken out and returned |
| Relay.StepsUseTables | relay.py:63-182 | accepting, finishing, registering and pairing change the two dictionaries as these four methods do, with the same verdict and the same eviction |
| Relay.RunKeepsInv | relay.py:63-182 | the relay's invariant holds after every interleaving of handlers at awaits, with any reads, failures and lost links |
| Relay.AdmittedExactly | relay.py:168-174 | in every run a connection is let in iff fewer than five handlers run for its address, and is closed unread otherwise |
| Relay.AnsweredExactly | relay.py:84-160 | in every run each connection has been written exactly what its header called for when it was taken: 'N' and no more for an unknown id, bridging for a known one, 'D' when a live host of another address has the id, nothing when full, else 'R' and no more until a client meets it |
| Relay.EvictedIsClosed | relay.py:96-117 | whoever takes over an id closes the host that had it |
| Relay.EverythingShut | relay.py:63-163 | in every run an ended direction has closed what it fed, a finished client and its host are closed, and whoever was refused or turned away is closed |
| Relay.LimitsHold | relay.py:80-182 | the table never exceeds its bound; each address's count is its running handlers, at most five, with no zero entries |
| Relay.OneClientPerHost | relay.py:138-160 | a registration is bridged to at most one client, and a paired host is not in the table |
| Relay.BytesGoToThePartnerOnly | relay.py:63-163 | the host is written 'R', 'P' and then exactly what was read from its client so far; the client nothing, or 'P' and then exactly what was read from the host |
| Relay.WaitingHostUntouched | relay.py:116-130 | a waiting host has been written 'R' only, and nothing it sent has been read |
| Relay.DisplacedExactly | relay.py:96-136 | a registration ends exactly by its client, its own handler after a loss, a failed 'R' under its id, or a newcomer when it is closing or shares the address |
| Relay.StaleFailureDropsLiveHost | relay.py:119-125 | another handler's failed 'R' removes a live host |
| Allocator.IPAllocator.constructor | coordinator.py:68-79 | a restart takes over what the file holds |
| Allocator.IPAllocator.Get | coordinator.py:91-104 | a known key keeps its address; a new key gets the least free one; refused iff all 4,161,535 are taken; the answer, the map and the file are those of the specification for every fate of the save |
| Allocator.FullExactly | coordinator.py:95-104 | all addresses are used iff there are 4,161,535 leases |
| Allocator.CapacityIsExact | coordinator.py:96-100 | the loop's candidates number 4,161,535 |
| Allocator.AllocatableExactly | coordinator.py:95-104 | the candidates are the overlay network's addresses that end in neither .0 nor .255, but for its .1 |
| Allocator.Disk.WriteTmp | coordinator.py:81-86 | the temporary file gets the whole map, or when cut short only its beginning; the state file is not touched |
| Allocator.Disk.Rename | coordinator.py:87-87 | the temporary file takes the state file's place, or nothing changes |
| Allocator.IPAllocator.Save | coordinator.py:81-89 | whichever of the two steps fails or dies, the state file holds the old map or the new one, the new one exactly when the rename was done |
| Allocator.Run | coordinator.py:68-104 | over every run of requests, failed or interrupted saves and crashes: one answer for each event, as the specification gives it, and a state file that is whole at the end |
| Allocator.SavedExactly | coordinator.py:81-104 | an address given to a new key is in the file iff its save went through, that of a known key iff it was already |
| Allocator.SavedStays | coordinator.py:74-104 | once an address given out is saved, later answers in the run give it to that key always and to no other |
| Allocator.RestartKeepsExactly | coordinator.py:68-104 | a key keeps its address over a crash, whatever requests come next, iff the file held the key |
| Allocator.UnsavedIsReused | coordinator.py:81-89 | a run in which a save fails, the process crashes and another key is given the same address |
| Dns.ParseQuery | meshdns.py:35-62 | the loop ends in bounds on every byte string and computes the recursive parse |
| Dns.AcceptedExactly | meshdns.py:38-62 | a packet is accepted iff 1-to-63-byte labels, a zero and four bytes follow a header with a question, whatever comes after |
| Dns.CompressionBitsMeanLong | meshdns.py:53-54 | the two compression bits are set iff the length is 64 or more |
| Dns.EncodeName | meshdns.py:65-74 | the loop writes the labels the specification lists, and a zero |
| Dns.LabelCutExactly | meshdns.py:68-71 | a label is written as its ASCII characters in order, cut after the 63rd |
| Dns.NameRoundTripExactly | meshdns.py:35-74 | reading a written name gives it back in lower case, with its type, iff its labels are ASCII of 1 to 63 characters or it is empty |
| Dns.ResponseEchoesExactly | meshdns.py:77-90 | a response carries the query's id, name and type, exactly for such names |
| Dns.QuestionEchoedExactly | meshdns.py:35-90 | a response repeats the question of the query byte for byte iff its labels are ASCII without capitals and dots |
| Dns.DottedLabelSplits | meshdns.py:55-74 | one label that contains a dot byte is written back as two labels |
| Dns.AnswerReadsBack | meshdns.py:85-90 | read as RFC 1035 lays records out, the answer is an A record, class IN, TTL 60, with the question's name and the address |
| Dns.ResponseReads | meshdns.py:77-90 | the rest reads as QR, AA, RD, RA and the response code, one question of class IN, one answer or none, two zero counts, and nothing after |
| Dns.FlagsCarryRcode | meshdns.py:81-81 | the flag word is the fixed bits and the response code |
| Dns.AnsweredExactly | meshdns.py:93-110 | exactly the suffix and the names under it are answered here, the bare suffix with NXDOMAIN; all others are forwarded |
| Dns.HostAnswered | meshdns.py:93-110 | a name under the suffix is answered under its own name with the looked-up address, no data, or NXDOMAIN |

## Left out

- Wall-clock timing of punching, failover and retries: those steps may happen at any time. Only the rate limiter has a clock.
- Automatic replies of the mesh (PONG, keepalive acknowledgement) are ordinary sends of a run; that a run contains them is not required.
- Node shutdown, STUN, the registration proof and coordinator map pushes; dropping handshakes of peers not in the map, which only removes steps.
- Callbacks that raise inside the mesh receive path; a raising control channel is the step `WorkerRaises`.
- The inside of X25519, HKDF, ChaCha20-Poly1305, SHA-256 and HMAC.
- Swift's 64-bit Int bounds on sizes in SHAKE-256 and scrypt; the UInt32 block counter of PBKDF2 is modelled.
- The authentication handshake that derives the channel keys, and `send_multi` as a separate lock block: it is the same loop of sends.
- SocksMux: a state machine over values, so locks and shared stream objects appear only as the atomicity of its steps; UDP associations and keepalives only take identifiers and frames. The address in an OPEN either decodes or not; which address is dialled is not modelled, nor are connections turned away before they have a stream.
- Relay: the handlers are a state machine over values and the class `Tables` holds the two dictionaries; what a closed socket still delivers is not modelled, so `out` is what was written to it.
- IPv6 addresses in full-tunnel pins and host names as pin targets: the route command for them is taken to fail, and the command log does not record it.
- FullTunnel: foreign routes that other programs change while the tunnel is up; the first table is taken to change only by these commands.
- Allocator: a rename is atomic and an untouched file survives a crash; the loss of unsynced data by the file system is not modelled.
- Hand-edited allocator state files; only files the allocator wrote itself, or none.
- Unicode in DNS names beyond dropping it: lower-casing is ASCII, as the parser only ever produces ASCII.
- Choosing and forwarding to the upstream resolver, resolver configuration, and the UDP server loop.
- Coordinator registration limits and map distribution under concurrent pushes, which the code does not promise.
- Screen capture, input, clipboard, NAT and TUN set-up, installers and user interface.
