# Verified models of the peer-to-peer core

Dafny models of the self-contained cores of the application: the byte and text codecs, the signaling server, the
transport state machines, trust aggregation, consensus and contribution bookkeeping, reward allocation, and the
transactions of the in-memory database. Code that updates arrays or fields is an array algorithm or a class whose
methods are proved equal to a step function on values; the theorems are about those step functions, over every
input, every run or every reachable state. `dafny verify dfyconfig.toml` checks everything.

| file | subject |
|---|---|
| `JsNumbers.dfy`, `Prelude.dfy`, `Buckets.dfy`, `OrderedMaps.dfy` | JavaScript's 32-bit operators bit by bit, options, secondary indexes, insertion-ordered maps |
| `Utf8.dfy`, `Sha256.dfy`, `Base58.dfy`, `CanonicalJson.dfy` | the codecs; `Fips180` restates sections 5.1.1, 5.2.1 and 6.2.2 of FIPS 180-4 independently of the code |
| `Fips180Words.dfy`, `Fips180Tables.dfy` | what the functions of sections 3.2 and 4.1.2 of FIPS 180-4 do to bits, and the tables of sections 4.2.2 and 5.3.3 as roots of primes |
| `JsonReader.dfy` | a reader of the grammar of RFC 8259, which gives back what is printed |
| `Frames.dfy`, `FrameStream.dfy`, `Signaling.dfy` | WebSocket frames (sections 5.2 and 5.3 of RFC 6455), the incremental reader, and signal routing |
| `Delivery.dfy`, `Streams.dfy`, `WebRtc.dfy` | deduplicated delivery, the stream rate limiter, the session tables |
| `Trust.dfy`, `TrustIds.dfy` | outlier removal and weighted mean, the report store, and the text of report ids |
| `PeerVerification.dfy`, `Votes.dfy`, `Rounds.dfy`, `Engine.dfy` | who may vote, vote store with two indexes, round state machine, snapshot and restore |
| `Contributions.dfy`, `Rewards.dfy` | contribution ledger and counters, reward pools |
| `TransactionQueue.dfy`, `MemoryTables.dfy` | the order in which transactions and direct writes take effect, and what they copy on the heap |

Several things the code is naturally taken to promise are not true of it. In each case a lemma names an input, or gives
the exact condition under which the promise is kept:

- The SHA-256 padding is that of FIPS 180-4 exactly for messages shorter than 2^29 bytes (`Sha256.PaddingConforms`).
- Base58 text differs from textbook Base58 exactly for all-zero input (`Base58.TextbookAgreement`).
- All ways of cutting a stream into data events handle the same frames exactly when no frame can be read behind the
  first close (`FrameStream.CutsAgreeIff`); four bytes on which they do not are in `AfterCloseCutsMatter`.
- A signal for a registered peer is lost, though acknowledged, exactly when that peer is registered on a socket that
  has been ended or has closed (`Signaling.SignalLost`), and a queue is lost exactly when it is flushed into such a
  socket (`FlushLost`). A close frame ends the socket and leaves the registration until the close event, so this
  happens in ordinary runs (`EndedLoses`, `HelloBehindEndLoses`). A run loses nothing exactly when no event writes to
  such a socket (`NothingLostIff`); no peer is ever registered on one exactly under the conditions of `StaleIff`.
  Registrations outlive the close event exactly when a socket closes that is registered for a peer other than the last
  it named (`LeftBehindIff`, `TwoNamesLose`).
- A message is accepted again exactly when the table has no entry of its id that is unexpired by the expiry it was
  stored with (`Delivery.AcceptedAgain`): after a push-out (`EvictionRepeats`), or when it expires between the two
  clock readings of one receive (`StraddleRepeats`).
- The rate of a stream is kept exactly while every admitted send fits beside what is already in flight
  (`Streams.RunRates`, `OverlapExceedsRate`); sends that do not overlap always fit (`SequentialFits`).
- `retryStream` passes its guards exactly on a stream in error whose retry counter was last written by a success or an
  early failure (`Streams.RetrySucceeds`). Without overlapping sends that never happens (`RetryNeverSucceeds`); with
  them it does (`OverlapLetsRetry`).
- The flow-control window is exceeded by one send exactly when that send alone is larger (`Streams.FlowControlWindow`),
  and by what is sent and in flight together exactly when an admitted send did not fit beside it (`FlowControlRuns`).
- A session id used for two peers and a channel that opens after its session was removed break the tables
  (`WebRtc.SharedIdBreaks`, `LateOpenBreaks`); an answer that names an already connected peer makes it unavailable
  exactly when the answered session is not open itself (`AnswerHidesConnection`); two offers that overlap exceed the
  budget exactly when there was not room for both (`OverlappingOffers`).
- A prune drops the connection of a peer when any session of that peer is too old, also one that is no longer mapped
  (`WebRtc.OldSiblingDrops`); peers with no such session keep theirs (`PruneTakes`, `OfferSpares`, `AcceptSpares`).
- The id of a trust report names its reporter and peer exactly when neither name contains an underscore
  (`TrustIds.AmbiguousIff`); a submission breaks the indexes exactly when its id is that of a report with other names
  (`SubmitBreaksIff`).
- Removing every report about a peer leaves a score behind (`TrustManager.ScoreSurvivesRemoval`), a local score out of
  range becomes the aggregate (`SetLocalKeeps`), and a local score is overwritten by zero (`LocalScoreKept`).
- A decided round can be overwritten after `start` puts it back to voting (`Rounds.ResultOverwritten`,
  `RestartOverwrites`).
- A restart is noticed exactly when a later vote that counts finds its voter verified differently, because fingerprints,
  suspicions and bans are not saved (`Engine.RestartUnobservable`); a registered voter is then refused
  (`RestartRefusesVoter`).
- Resetting a peer does not let its earlier events count again (`Contributions.ResetForgetsForGood`).
- The peers hold no more than the day's allocation exactly when what they still hold from before the last daily reset
  is at most what was accepted since without a name or for peers reset since (`Rewards.WithinDailyIff`); right after a
  daily reset that fails unless they hold nothing (`DailyResetUnbalances`).
- A direct write is safe exactly when, at its call, no transaction runs and none is due to start
  (`TransactionQueue.DirectWriteSurvives`), so always when none runs or waits. Otherwise it is lost when the
  transaction succeeds (`WriteIsLost`, but `ThrowLosesNothing`), also if nothing runs at the call
  (`UnawaitedTransactionLoses`), or finds no table to store into (`StoreAfterEnd`). Everything called gets its turn in
  any case (`EverythingTakesEffect`).

## Model

| member | source | states |
|---|---|---|
| Utf8.EncodeUtf8 | src/utils/hash.ts:1-36 | the loop with JavaScript shifts and masks emits the UTF-8 bytes of the string's code points, an unpaired surrogate as the three bytes of its own value |
| Utf8.DecodeUtf8 | src/utils/hash.ts:38-63 | the index loop, reading missing bytes as zero, equals a recursive decoder on all byte sequences |
| Utf8.RoundTrip | src/utils/hash.ts:1-63 | decoding the encoding of any UTF-16 string gives it back, unpaired surrogates included |
| Utf8.EncodeInjective | src/utils/hash.ts:1-36 | different strings have different bytes |
| Utf8.EncodeValid | src/utils/hash.ts:1-36 | the output is valid in the sense of section 4 of RFC 3629 exactly when the string has no unpaired surrogate |
| Utf8.DecodeValid | src/utils/hash.ts:38-63 | on valid UTF-8 the decoder inverts the encoder and yields a well-formed string |
| Utf8.Utf8ByteLength | src/network/NetworkMessage.ts:184-203 | the fallback counter equals the encoder's output length and that of a standard text encoder |
| Utf8.TextEncoderLength | src/network/NetworkMessage.ts:184-187 | replacing unpaired surrogates by U+FFFD keeps the length, so both branches of the counter agree |
| Sha256.RotateAgrees | src/utils/hash.ts:77-79 | the signed result of `>>>`, `<<` and `\|` has the bits of ROTR |
| Sha256.PadMessage | src/utils/hash.ts:95-102 | the buffer is the message, 0x80, zeros, and the low 32 bits of the bit length |
| Sha256.PaddingConforms | src/utils/hash.ts:95-102 | that buffer is the padding of section 5.1.1 of FIPS 180-4 if and only if the message is shorter than 2^29 bytes |
| Sha256.CodePadInjective | src/utils/hash.ts:95-102 | the buffer determines the message, for every length |
| Sha256.FillSchedule | src/utils/hash.ts:104-116 | the in-place loop fills the array with the message schedule of section 6.2.2 |
| Sha256.Compress | src/utils/hash.ts:118-135 | 64 rounds with signed temporaries and rotating variables equal the rounds of section 6.2.2 |
| Sha256.HashBlock | src/utils/hash.ts:105-145 | one block adds the working variables to the state modulo 2^32 |
| Sha256.HashBuffer | src/utils/hash.ts:104-153 | the block loop is the fold over all blocks, written out big-endian |
| Sha256.Sha256 | src/utils/hash.ts:81-154 | for messages shorter than 2^29 bytes the result is the SHA-256 of the independent restatement |
| JsNumbers.OperatorBits | src/utils/hash.ts:111-129 | bit i of `a & b`, `a \| b` and `a ^ b` is the conjunction, the disjunction and the difference of the bits i of both, for all numbers and i |
| JsNumbers.SameBits | src/utils/hash.ts:111-129 | a number is determined by its bits, so the three operators are |
| Fips180Words.ShiftBits | src/utils/hash.ts:77-79 | a shift and a rotation move bit i + n to bit i, the rotation modulo 32 (section 3.2 of FIPS 180-4) |
| Fips180Words.ChoiceBits | src/utils/hash.ts:121-124 | Ch chooses each bit of y or z by that of x, and Maj takes the majority of the three (section 4.1.2) |
| Fips180Words.SigmaBits | src/utils/hash.ts:107-123 | each bit of the four sigma functions is the parity of the three bits section 4.1.2 names |
| Fips180Tables.FirstPrimesAre | src/utils/hash.ts:82-91 | the list of 64 numbers behind the tables holds exactly the primes up to 311, in order, where a prime is what only 1 and itself divide |
| Fips180Tables.RoundConstantsAreRoots | src/utils/hash.ts:82-91 | the i-th round constant is the first 32 bits of the fraction of the cube root of the i-th prime |
| Fips180Tables.InitialValuesAreRoots | src/utils/hash.ts:92-94 | the i-th initial value is the first 32 bits of the fraction of the square root of the i-th prime |
| Fips180Tables.OneCubeRoot | src/utils/hash.ts:82-91 | no other word has that property for the cube root of the same prime |
| Base58.AddByte | src/crypto/CIDGenerator.ts:125-137 | both carry loops multiply the digits' number by 256 and add the byte |
| Base58.CarryStaysByte | src/crypto/CIDGenerator.ts:126-130 | a carry of at most 255 into a digit leaves one of at most 255, and `<<` and `\| 0` compute it exactly |
| Base58.ToDigits | src/crypto/CIDGenerator.ts:123-137 | the digit array after all bytes is the fold of that step |
| Base58.DigitsDenote | src/crypto/CIDGenerator.ts:123-137 | the digits denote the big-endian value of the bytes, each below 58, top digit non-zero unless the value is zero |
| Base58.Base58Encode | src/crypto/CIDGenerator.ts:121-149 | one `1` per leading zero byte, then the digits, most significant first |
| Base58.RoundTrip | src/crypto/CIDGenerator.ts:121-149 | an explicit decoder recovers every byte sequence, leading zeros included |
| Base58.EncodeInjective | src/crypto/CIDGenerator.ts:121-149 | different byte sequences have different texts |
| Base58.TextbookAgreement | src/crypto/CIDGenerator.ts:121-149 | the text is textbook Base58 if and only if some byte is not zero; otherwise it has exactly one `1` more |
| Base58.IsValidCID | src/crypto/CIDGenerator.ts:154-165 | true exactly for non-empty texts over the alphabet |
| Base58.EncodeIsValid | src/crypto/CIDGenerator.ts:121-165 | every encoding passes the validity test |
| Base58.HexToBytes | src/crypto/CIDGenerator.ts:109-115 | byte i is the value of the i-th pair of hex digits |
| Base58.HexRoundTrip | src/utils/hash.ts:69-75 | hex text of a digest read back is the digest |
| Base58.GenerateCID | src/crypto/CIDGenerator.ts:13-29 | the identifier is valid, and is the Base58 text of the SHA-256 digest below 2^29 bytes |
| CanonicalJson.CanonicalIsPrint | src/crypto/CryptoService.ts:411-422 | sorting keys while printing is printing the value with its records sorted throughout |
| CanonicalJson.SortAscending | src/crypto/CryptoService.ts:416-417 | sorting distinct keys gives strictly ascending UTF-16 order and keeps the set of keys |
| CanonicalJson.PrintPrefix | src/crypto/CryptoService.ts:411-422 | printed values are self-delimiting: equal texts with continuations force equal values and equal continuations |
| CanonicalJson.PrintInjective | src/crypto/CryptoService.ts:411-422 | the printer tells any two ordered values apart, escapes of section 7 of RFC 8259 included |
| CanonicalJson.NormalMeaning | src/crypto/CryptoService.ts:415-419 | sorting the records changes no value |
| CanonicalJson.SameMeaning | src/crypto/CryptoService.ts:415-419 | two sorted values that mean the same are identical |
| CanonicalJson.CanonicalDeterminesValue | src/crypto/CryptoService.ts:411-422 | two texts are equal if and only if the values are, whatever the insertion order of keys |
| JsonReader.CanonicalRead | src/crypto/CryptoService.ts:411-422 | a reader of the grammar of RFC 8259, strict or taking white space, reads the whole canonical text of any value with distinct keys as exactly that value, and meets the keys of every record in strictly ascending order |
| JsonReader.PrintRead | src/crypto/CryptoService.ts:411-422 | before any text that does not continue a number, the reader takes exactly the printed text of a value and leaves that text |
| JsonReader.LessIff | src/crypto/CryptoService.ts:416-417 | keys are compared at the first unit in which they differ, a proper prefix first |
| JsonReader.EscapeShape | src/crypto/CryptoService.ts:418-421 | what is written for a character reads as that character; it is the two-unit escape exactly for the seven characters that have one, the six-unit escape with lower-case digits exactly for the other control characters and unpaired surrogates, and else the character itself |
| Frames.DecodeFrame | scripts/signaling-server.js:382-432 | offsets, both extended lengths and the copying XOR equal the decoder on byte sequences |
| Frames.HeaderParts | scripts/signaling-server.js:383-409 | length and offset by the seven length bits: two big-endian bytes behind 126, two big-endian words behind 127, else the bits themselves |
| Frames.DecodeBehind | scripts/signaling-server.js:410-432 | behind such a header an oversize frame is a close that takes everything; any other takes mask and payload, once they are there |
| Frames.DecodeWire | scripts/signaling-server.js:382-432 | a frame of any length form of section 5.2 of RFC 6455, masked or not, decodes to its opcode and payload with its exact length, whatever follows |
| Frames.ProperPrefixIncomplete | scripts/signaling-server.js:383-416 | no proper prefix of a frame within the limit decodes |
| Frames.DecodeStable | scripts/signaling-server.js:382-432 | later bytes never change a decoded frame; progress is at least one byte; only oversize frames swallow the rest, as a close |
| Frames.AcceptedIsWire | scripts/signaling-server.js:382-432 | whatever is accepted within the limit is a well-formed frame, read exactly |
| Frames.MaskedTwice | scripts/signaling-server.js:418-425 | masking of section 5.3 of RFC 6455 applied twice is the identity |
| Frames.Unmask | scripts/signaling-server.js:420-425 | the in-place loop XORs byte i with mask byte i mod 4 |
| Frames.SendFrame | scripts/signaling-server.js:434-456 | up to 262144 bytes it writes the final unmasked text frame in the shortest form; beyond that nothing |
| Frames.SentIs | scripts/signaling-server.js:434-456 | the frame sent is final with no reserved bits, of opcode 1, unmasked, and no well-formed frame of the same payload is shorter |
| FrameStream.FrameReader.OnData | scripts/signaling-server.js:94-121 | one data event handles the frames of buffer plus chunk up to a close and keeps the rest |
| FrameStream.DrainTakes | scripts/signaling-server.js:94-121 | what one data event takes are the frames that follow one another in the buffer, up to and with the first close or until the next is incomplete; what it leaves is everything behind them |
| FrameStream.DrainAppend | scripts/signaling-server.js:96-121 | draining before more bytes arrive commutes with draining after |
| FrameStream.ChunkingIndependence | scripts/signaling-server.js:89-121 | however the stream is cut, the frames up to the first close are those of the whole stream |
| FrameStream.SameStreamSameFrames | scripts/signaling-server.js:89-121 | two cuts of one stream handle the same frames up to the first close |
| FrameStream.ConversationDelivered | scripts/signaling-server.js:89-121 | frames sent in sequence arrive as themselves through any cutting |
| FrameStream.AfterCloseCutsMatter | scripts/signaling-server.js:102-105 | a four-byte stream on which two cuts handle different frames |
| FrameStream.CutsAgreeIff | scripts/signaling-server.js:89-121 | for every stream: all cuts handle the same frames if and only if there is no close, or the bytes behind an ordinary close decode to no frame, or no suffix behind the header of an oversize frame does |
| FrameStream.CutsAgree | scripts/signaling-server.js:89-121 | the first direction: if nothing can be read behind the close, any cutting handles the frames of the whole stream |
| FrameStream.CutsDiffer | scripts/signaling-server.js:102-105 | the second: cutting before a readable frame behind the close handles that frame too |
| Signaling.StepKeeps | scripts/signaling-server.js:102-186 | every event keeps: no peer both registered and waiting, and each peer's received, waiting and owed signals balance |
| Signaling.RunKeeps | scripts/signaling-server.js:102-186 | that invariant over every event sequence |
| Signaling.DeliveryGuarantee | scripts/signaling-server.js:138-186 | the accepted signals of each peer are written in acceptance order, each at most once; exactly those not written wait, expired, or exceeded the frame limit; and every step writes signals only to the sockets their peers are then registered on |
| Signaling.PrunedOnlyTooOld | scripts/signaling-server.js:351-363 | over every run, in clock readings: an accepted signal given up by a prune at some reading had expired by then or was created more than 120000 ms before |
| Signaling.WaitsIff | scripts/signaling-server.js:335-363 | after any run, a waiting signal still waits after the next event if and only if that is no hello of its peer and no prune at whose clock it is too old; a hello of its peer writes it to that socket if it is not too old and fits |
| Signaling.AcceptedIff | scripts/signaling-server.js:146-186 | after any run a signal is accepted if and only if it has not expired and its sender is the last peer the socket named; then it is acknowledged, and written at once to a registered peer if it fits, else queued last; a wrong sender is told so and an expired signal changes nothing |
| Signaling.RegisteredIff | scripts/signaling-server.js:102-144 | after any run a hello registers its peer on its socket and is acknowledged last; a close unregisters exactly the last peer its socket named, if registered on it; no other event changes a registration |
| Signaling.StaleIff | scripts/signaling-server.js:102-144 | over every run: no peer is ever registered on a socket that has ended or closed if and only if no hello comes on such a socket, no close frame on one with a registration, and each socket that closes is registered for no peer but the last it named |
| Signaling.LeftBehindIff | scripts/signaling-server.js:123-144 | over every run, close frames included: no registration outlives the close event of its socket if and only if each socket that closes is registered for no peer but the last it named |
| Signaling.NothingLostIff | scripts/signaling-server.js:102-186 | over every run: nothing is lost if and only if no event, signal or hello, writes to a socket that has ended or closed |
| Signaling.LostIsWritten | scripts/signaling-server.js:138-186 | what is lost is an accepted signal that counts as written for its peer, so it neither waits nor was given up |
| Signaling.SignalLost | scripts/signaling-server.js:102-186 | after any run a signal for a registered peer is lost, acknowledged and neither kept nor given up, if and only if the peer is registered on a socket that has ended or closed and the frame fits |
| Signaling.FlushLost | scripts/signaling-server.js:342-349 | after any run each signal a hello takes out of the queue is lost, and was not before, if and only if the socket has ended or closed and the frame fits; none waits any longer |
| Signaling.ReachesPeer | scripts/signaling-server.js:102-186 | over every run in which no registration meets an ended or closed socket nothing is lost, and each signal is written to a socket that said hello as that peer |
| Signaling.OneNameIsTidy | scripts/signaling-server.js:123-144 | if each socket names one peer at most, and not the empty one, no registration outlives its socket |
| Signaling.TwoNamesLose | scripts/signaling-server.js:123-144 | a socket that says hello as two peers and closes leaves a registration through which a signal is lost |
| Signaling.EndedLoses | scripts/signaling-server.js:102-128 | a run with one name for each socket: between the close frame of a peer and its close event a signal for it is acknowledged and lost |
| Signaling.HelloBehindEndLoses | scripts/signaling-server.js:102-144 | a run in which a hello behind a close frame flushes a waiting signal into the ended socket |
| Signaling.SignalingServer.PrunePending | scripts/signaling-server.js:351-363 | the loop over the queues drops exactly the stale signals and the emptied queues |
| Signaling.SignalingServer.FlushPending | scripts/signaling-server.js:342-349 | prune, take the queue out, forward it in order |
| Signaling.SignalingServer.SendSignal | scripts/signaling-server.js:434-438 | a signal whose frame exceeds the limit is silently given up |
| Signaling.SignalingServer.HandleHello | scripts/signaling-server.js:138-144 | registration is the step of the model, an empty peer id included |
| Signaling.SignalingServer.HandleSignal | scripts/signaling-server.js:161-186 | expired, mismatched, routed and queued signals are the step of the model |
| Signaling.SignalingServer.OnClose | scripts/signaling-server.js:123-135 | a closed socket unregisters only the peer still mapped to it |
| Signaling.SignalingServer.OnCloseFrame | scripts/signaling-server.js:102-105 | the socket is ended and nothing else changes: its registration stays |
| Delivery.NetworkMessageDeduplicator.Prune | src/network/NetworkMessage.ts:167-173 | the loop deletes from the table it walks; exactly the expired entries go, the rest keep their order |
| Delivery.NetworkMessageDeduplicator.AcceptMessage | src/network/NetworkMessage.ts:147-161 | prune, look up, add, and push out the entry expiring first (of equals the oldest) |
| Delivery.OldestIsFirst | src/network/NetworkMessage.ts:154-159 | the entry pushed out expires no later than any, and before all that were entered earlier |
| Delivery.InMemoryPeerTransport.ReceiveMessage | src/network/PeerTransport.ts:102-126 | validation, sender, duplicate and connection tests in this order; a refused connection still consumes the id |
| Delivery.ValidateIff | src/network/NetworkMessage.ts:85-126 | a message is valid if and only if version, id, sender, lifetime, expiry and size are right, and each refusal names the first that is not |
| Delivery.OutcomeIs | src/network/PeerTransport.ts:102-126 | the outcome of a receive, in the source's order of tests, with a duplicate being a stored entry of the id that has not expired |
| Delivery.DeliversIff | src/network/PeerTransport.ts:102-126 | the handlers get the message exactly when that outcome is delivery; only connecting and disconnecting change connections |
| Delivery.StepKeeps | src/network/NetworkMessage.ts:147-173 | any event keeps: the table has at most its size and distinct ids, and every entry made is still there, or its id was pushed out, or it has expired |
| Delivery.AcceptedAgain | src/network/NetworkMessage.ts:147-161 | in any run, whatever the clock and the expiries: a checked message is entered if and only if no stored entry of its id is unexpired by its own stored expiry; then every earlier entry of the id was pushed out or is past it |
| Delivery.AtMostOnce | src/network/PeerTransport.ts:102-126 | with a clock that never goes back and no id repeated with a later expiry: without push-outs and straddling receives no id is entered or reaches the handlers twice |
| Delivery.RepeatRefused | src/network/NetworkMessage.ts:147-161 | under the same assumptions a repeated id that was not pushed out is refused |
| Delivery.AtMostOnceWithRoom | src/network/PeerTransport.ts:102-126 | under the same assumptions on clock and expiries, at most `maxEntries` unexpired entered ids at any time suffice for that |
| Delivery.EvictionRepeats | src/network/NetworkMessage.ts:154-159 | with a table of one entry, any second message that expires no sooner pushes the first out, and the first is delivered again |
| Delivery.EvictionHappens | src/network/NetworkMessage.ts:154-159 | two valid messages of which this is true |
| Delivery.StraddleRepeats | src/network/PeerTransport.ts:103-112 | validation before and deduplication after the expiry deliver a message again |
| Streams.StepKeeps | src/network/StreamManager.ts:115-417 | every event, overlapping sends included, keeps the stream indexes and the per-peer limit |
| Streams.StepRates | src/network/StreamManager.ts:225-262 | an event keeps all rates, counting what is in flight, if and only if it is not an admitted send too large for the rest of its window |
| Streams.RunRates | src/network/StreamManager.ts:211-262 | over every run: the rates hold throughout if and only if every admitted send fits beside what is in flight |
| Streams.RunRateBound | src/network/StreamManager.ts:211-262 | in such runs, overlapping sends included, bytes sent never exceed the rate times the seconds begun up to the last window reset, nor the window with what is in flight the rate |
| Streams.SequentialFits | src/network/StreamManager.ts:211-262 | runs in which the sends of a stream do not overlap are such runs |
| Streams.FlowControlWindow | src/network/StreamManager.ts:225-235 | an admitted send respects the window if and only if its own size does |
| Streams.FlowControlRuns | src/network/StreamManager.ts:211-262 | over every run, overlapping sends included: what is sent in the window and in flight stays within the flow-control window if and only if every admitted send fits beside what is in flight |
| Streams.RetryNeverSucceeds | src/network/StreamManager.ts:290-306 | the corollary: in no run without overlapping sends does `retryStream` pass its guards |
| Streams.RetrySucceeds | src/network/StreamManager.ts:248-306 | over every run `retryStream` passes its guards if and only if the stream is in error and its retry counter was last written by a success (with retries allowed) or by an attempt a with a + 1 < maxRetries |
| Streams.OverlapLetsRetry | src/network/StreamManager.ts:248-306 | with retries allowed, a run of two overlapping sends, one failing for good before the other succeeds, after which `retryStream` reopens the stream |
| Streams.OverlapExceedsRate | src/network/StreamManager.ts:244-262 | after an admitted send in any state, completing all that is in flight takes the window above the rate if and only if the send did not fit |
| Streams.StreamManager.OpenStream | src/network/StreamManager.ts:115-150 | the per-peer limit, a new id, the record and the index |
| Streams.OpensIff | src/network/StreamManager.ts:115-150 | a stream is opened if and only if its peer has fewer than the limit, under an id never used before, new and active |
| Streams.EndsAre | src/network/StreamManager.ts:187-339 | what closing, cancelling, a failed opening and a retry leave: that stream gone, closing or active again, under their conditions, and all others as they were |
| Streams.StreamManager.CleanupStream | src/network/StreamManager.ts:396-414 | removes the record and its index entry, and an emptied set |
| Streams.StreamManager.StartSend | src/network/StreamManager.ts:211-246 | status, cancellation, window and rate checks with both resets, in any reachable state |
| Streams.SendAdmittedIff | src/network/StreamManager.ts:211-246 | each of the five outcomes of a send exactly by its condition: unknown, not active or cancelled, over the flow-control window before its reset is due, over the rate, or admitted |
| Streams.SendWrites | src/network/StreamManager.ts:211-246 | what each outcome writes: the window restarts when it is due, unless the send stopped before, and an admitted send is in flight at its first attempt |
| Streams.StreamManager.CloseStream | src/network/StreamManager.ts:187-206 | marked closing, then removed with its index entry; an unknown id throws, a closed stream is left alone |
| Streams.StreamManager.CancelStream | src/network/StreamManager.ts:323-339 | the stream and its index entry go; an unknown id throws |
| Streams.StreamManager.ReceiveData | src/network/StreamManager.ts:344-356 | bytes are counted on active streams only |
| Streams.StreamManager.RetryStream | src/network/StreamManager.ts:290-318 | the three guards in order; past them the stream is active again |
| Streams.StreamManager.Attempts | src/network/StreamManager.ts:248-285 | the retry loop is the run of its attempts: the first yes counts the bytes and resets the retry counter, else the error is marked with all attempts counted |
| Streams.BytesCounted | src/network/StreamManager.ts:248-285 | a send that ends counts its size in total and window and clears the retry counter; a failed attempt counts nothing but itself, and the last one allowed puts the stream in error |
| Streams.AttemptsAreSteps | src/network/StreamManager.ts:248-285 | both outcomes of the loop are those of single attempts of the step function, one after the other: all fail, or any number fails and the next succeeds |
| WebRtc.StepKeeps | src/network/WebRtcPeerTransport.ts:129-680 | every operation and browser event keeps the four tables consistent and at most twelve live sessions |
| WebRtc.RunKeeps | src/network/WebRtcPeerTransport.ts:129-680 | over every run in which no session id serves two peers; a connection is handed out only for a live open session of that peer |
| WebRtc.ConnectedMeans | src/network/WebRtcPeerTransport.ts:312-322 | a connection is returned if and only if one is stored and the mapped session's channel is open; that session is the peer's, stored and live |
| WebRtc.SweepAllKeeps | src/network/WebRtcPeerTransport.ts:347-364 | a sweep removes exactly the sessions it is after and leaves all others unchanged |
| WebRtc.PruneTakes | src/network/WebRtcPeerTransport.ts:347-364 | a stored session goes if and only if it is closed or failed, or is created, signaling, connecting or disconnected and older than 45000 ms; a peer none of whose sessions goes keeps its mapping and what asking for its connection gives, any other has no connection |
| WebRtc.OldSiblingDrops | src/network/WebRtcPeerTransport.ts:600-624 | a peer with an open connection loses it to a prune that takes another session of that peer, although the mapped session stays |
| WebRtc.SupersedeSpares | src/network/WebRtcPeerTransport.ts:642-653 | superseding takes exactly the replaceable sessions of that peer under other ids; every other peer keeps mapping and connection |
| WebRtc.OfferSpares | src/network/WebRtcPeerTransport.ts:129-166 | without recovery an offer takes exactly the sessions too old and, unless the peer is connected, its replaceable ones; every other peer none of whose sessions is too old keeps mapping and connection |
| WebRtc.AcceptSpares | src/network/WebRtcPeerTransport.ts:168-212 | likewise for an accepted offer; an offer from a connected peer changes nothing |
| WebRtc.RecoveryTakesAll | src/network/WebRtcPeerTransport.ts:392-421 | recovery leaves at most the new session |
| WebRtc.OpenKeeps | src/network/WebRtcPeerTransport.ts:392-450 | budget, construction failures and recovery by closing everything never exceed twelve sessions |
| WebRtc.RenameKeeps | src/network/WebRtcPeerTransport.ts:226-231 | the rename on an answer moves the mappings without leaving a stale one |
| WebRtc.SharedIdBreaks | src/network/WebRtcPeerTransport.ts:423-450 | filing a used id breaks the tables if and only if another peer is still mapped to or connected through it |
| WebRtc.LateOpenBreaks | src/network/WebRtcPeerTransport.ts:452-493 | a channel opening after removal breaks the tables if and only if it names a remote peer that no longer has the session |
| WebRtc.AnswerHidesConnection | src/network/WebRtcPeerTransport.ts:226-250 | after an answer naming a peer with an open connection, duplicate or not, the peer stays available if and only if the answered session has an id and an open channel; which connection it then has; otherwise the connection is dropped |
| WebRtc.OverlappingOffers | src/network/WebRtcPeerTransport.ts:141-165 | two offers that both passed the budget before either filed its session stay within it if and only if there was room for two |
| WebRtc.WebRtcPeerTransport.RemoveSession | src/network/WebRtcPeerTransport.ts:665-680 | three tables updated in the source's order, an empty id counting as no mapping |
| WebRtc.WebRtcPeerTransport.CloseSession | src/network/WebRtcPeerTransport.ts:600-624 | the marked session leaves the tables together with its peer's connection |
| WebRtc.ClosingTakes | src/network/WebRtcPeerTransport.ts:559-624 | a channel error, a failed or closed connection and a closed negotiation take the session, its peer's connection and the mapping to it, and nothing else |
| WebRtc.DisconnectTakes | src/network/WebRtcPeerTransport.ts:260-421 | disconnecting a peer takes the session it is mapped to, and shutting down takes all |
| WebRtc.WebRtcPeerTransport.CloseSwept | src/network/WebRtcPeerTransport.ts:642-653 | the loop over a copy of the table closes each session the sweep is after |
| WebRtc.WebRtcPeerTransport.GetOpenConnection | src/network/WebRtcPeerTransport.ts:312-322 | a connection without open channel is dropped when asked for |
| WebRtc.WebRtcPeerTransport.MakeOffer | src/network/WebRtcPeerTransport.ts:129-166 | prune, refuse if connected, close superseded, check the budget, create; it succeeds if and only if the peer is not connected, there is room after the sweeps and construction works |
| WebRtc.OfferFiles | src/network/WebRtcPeerTransport.ts:129-166 | without recovery an offer to another peer files a session if and only if the peer is not connected and fewer than twelve sessions are left by pruning and superseding; which session, and that the peer is mapped to it |
| WebRtc.WebRtcPeerTransport.TakeOffer | src/network/WebRtcPeerTransport.ts:168-212 | refuse if connected, close superseded, prune, check the budget, create; it succeeds under the same conditions, in its own order |
| WebRtc.AcceptFiles | src/network/WebRtcPeerTransport.ts:168-212 | likewise for an offer that is taken: which session is filed, and exactly when |
| WebRtc.WebRtcPeerTransport.TakeAnswer | src/network/WebRtcPeerTransport.ts:214-250 | rename first, then ignore duplicates, then connect |
| WebRtc.AnswerTakes | src/network/WebRtcPeerTransport.ts:214-250 | an answer gives the session to the peer it names, mapped to it and the former peer unmapped, and the first one that is applied sets it connecting; an unknown session changes nothing |
| WebRtc.WebRtcPeerTransport.HandleChannelOpen | src/network/WebRtcPeerTransport.ts:453-468 | the opened session gets the connection and the mapping |
| WebRtc.OpeningConnects | src/network/WebRtcPeerTransport.ts:453-468 | an opened channel makes its session connected, and its peer, unless it is the own one, connected and mapped through it; nothing else changes |
| WebRtc.WebRtcPeerTransport.HandleConnectionState | src/network/WebRtcPeerTransport.ts:559-598 | the four connection states, with recovery only over an open channel |
| WebRtc.RevivingKeeps | src/network/WebRtcPeerTransport.ts:559-575 | a connection that comes back over an open channel restores a disconnected session as authenticated or connected, and touches nothing else |
| WebRtc.WebRtcPeerTransport.HandleDataChannelClosed | src/network/WebRtcPeerTransport.ts:626-640 | the connection goes and the session waits out the grace period |
| WebRtc.LosingDisconnects | src/network/WebRtcPeerTransport.ts:626-640 | with a grace period a lost channel leaves the session stored as disconnected and mapped, and takes only the connection |
| WebRtc.GraceEnds | src/network/WebRtcPeerTransport.ts:781-798 | at the end of the grace period the session goes if and only if it is still disconnected |
| WebRtc.WebRtcPeerTransport.SendHeartbeat | src/network/WebRtcPeerTransport.ts:735-758 | a silent peer fails the session; a heartbeat is sent if and only if the channel is open and the session alive and not silent |
| WebRtc.SilenceCloses | src/network/WebRtcPeerTransport.ts:735-758 | a heartbeat takes its session if and only if its open channel has been silent for longer than the grace period and three heartbeat intervals; else it changes no table |
| TrustMath.FewDropped | src/consensus/DistributedTrustManager.ts:93-103 | strictly fewer than a quarter of the reports lie more than two standard deviations out |
| TrustMath.NearBySquareRoot | src/consensus/DistributedTrustManager.ts:99-103 | the squared comparison is the comparison with any exact square root |
| TrustMath.KeptWeight | src/consensus/DistributedTrustManager.ts:101-119 | something is kept and its total weight is positive, so the division is safe |
| TrustMath.AggregateBounds | src/consensus/DistributedTrustManager.ts:105-119 | the aggregate lies between the smallest and the largest kept report |
| TrustMath.AveragesAre | src/consensus/DistributedTrustManager.ts:86-119 | the mean times the count is the sum, the variance times the count the sum of the squared distances, and the aggregate times the weight of the kept reports their weighted sum |
| TrustMath.SumsAdd | src/consensus/DistributedTrustManager.ts:86-119 | the sums, and what is kept, of two lists together are those of each added |
| TrustMath.SumsOfOne | src/consensus/DistributedTrustManager.ts:86-119 | and those of a single report are its score, its weight, their product and its squared distance; it is kept if and only if that is at most four variances |
| TrustMath.WeightIs | src/consensus/DistributedTrustManager.ts:107-116 | the weight is 1 at age 0, falls by a week's share with age, never rises, and is one half from three and a half days on |
| TrustMath.RoundIs | src/consensus/DistributedTrustManager.ts:121-130 | rounding is to the nearest integer, halves upwards |
| TrustMath.AggregateInScale | src/consensus/DistributedTrustManager.ts:33-36 | with reports in 0..1000 the rounded aggregate is in 0..1000 |
| TrustManager.SubmitKeeps | src/consensus/DistributedTrustManager.ts:27-65 | a submission keeps both indexes exact and all scores in scale, the id being taken as its three parts |
| TrustManager.SubmitScores | src/consensus/DistributedTrustManager.ts:27-131 | after an accepted submission the report is stored under its id with this score and time, and with n reports about the peer in store its scores are as before for n < 5, and else rounded mean and rounded weighted mean of the reports within two standard deviations, counted and dated now; no other peer's scores change |
| TrustIds.SameIdIff | src/consensus/DistributedTrustManager.ts:38 | two reports have the same id text if and only if their times are equal and reporter and peer join to the same text |
| TrustIds.AmbiguousIff | src/consensus/DistributedTrustManager.ts:38 | some other pair of peers has the same id text if and only if one of the two names contains an underscore |
| TrustIds.SubmitBreaksIff | src/consensus/DistributedTrustManager.ts:38-59 | with reports filed under their id texts, a submission breaks the indexes if and only if its id is already that of a report with other names |
| TrustIds.BreakableIff | src/consensus/DistributedTrustManager.ts:38-59 | some submission breaks the indexes of a store with one report if and only if a name in that report contains an underscore |
| TrustManager.RemoveKeeps | src/consensus/DistributedTrustManager.ts:230-252 | a removal takes out that report only and keeps indexes and scale |
| TrustManager.RemoveForPeerKeeps | src/consensus/DistributedTrustManager.ts:257-272 | all reports about the peer go and no others |
| TrustManager.SetLocalKeeps | src/consensus/DistributedTrustManager.ts:190-207 | indexes kept; the scale is kept if and only if the peer has a score or the local score is in range |
| TrustManager.LocalScoreKept | src/consensus/DistributedTrustManager.ts:190-195 | the local score set is kept if and only if the peer had no score, or fewer than five reports, or it is zero |
| TrustManager.ScoreSurvivesRemoval | src/consensus/DistributedTrustManager.ts:257-272 | after removing all reports the score is that of the last five of them, or unchanged with five or fewer |
| TrustManager.DistributedTrustManager.RecalculateAggregatedScore | src/consensus/DistributedTrustManager.ts:70-131 | fewer than five reports change nothing; otherwise the stored score is the aggregate, with the local score zeroed |
| TrustManager.DistributedTrustManager.SubmitTrustReport | src/consensus/DistributedTrustManager.ts:27-65 | accepted exactly in 0..1000; the four maps become those of the step |
| TrustManager.DistributedTrustManager.RemoveTrustReport | src/consensus/DistributedTrustManager.ts:230-252 | recalculates before the report itself is deleted |
| TrustManager.DistributedTrustManager.RemoveTrustReportsForPeer | src/consensus/DistributedTrustManager.ts:257-272 | deleting from the set being walked visits every report once |
| Votes.RemoveForContributionKeeps | src/consensus/VoteManager.ts:233-248 | exactly the votes on the contribution go; both indexes stay exact |
| Votes.RemoveForVoterKeeps | src/consensus/VoteManager.ts:253-268 | exactly the voter's votes go; both indexes stay exact |
| Votes.CountIsScan | src/consensus/VoteManager.ts:147-161 | counting through the index equals a full scan, and the kinds add up to the total |
| Votes.CountsAre | src/consensus/VoteManager.ts:147-161 | each count is the number of stored votes of that kind on the contribution, and the total their sum |
| Votes.OneVoteEach | src/consensus/VoteManager.ts:45-90 | one vote per voter and contribution, and the list names each voter exactly once |
| Votes.RestoredStore | src/consensus/VoteManager.ts:273-302 | restoring all votes rebuilds map, order and indexes up to empty buckets |
| Votes.VoteManager.TryCastVote | src/consensus/VoteManager.ts:45-90 | new, duplicate and conflicting ballots, with both indexes extended |
| Votes.TryCastIff | src/consensus/VoteManager.ts:45-90 | a first vote is stored, the same again is accepted without effect, and one of another kind or reason is refused with the stored one |
| Votes.VoteManager.Delete | src/consensus/VoteManager.ts:209-228 | removes the vote from the map and from both buckets |
| Votes.VoteManager.RemoveVotesForContribution | src/consensus/VoteManager.ts:233-248 | the loop walks the bucket it deletes from and removes and counts every vote once |
| Votes.VoteManager.RemoveVotesByVoter | src/consensus/VoteManager.ts:253-268 | likewise for a voter's bucket |
| Votes.VoteManager.GetVotesForContribution | src/consensus/VoteManager.ts:100-115 | the votes of the bucket, in its order |
| Votes.VoteManager.HasVoted | src/consensus/VoteManager.ts:178-181 | true exactly when the voter's vote on the contribution is stored |
| Votes.VoteManager.RestoreVotes | src/consensus/VoteManager.ts:277-302 | later contradicting votes are skipped, later equal ones replace |
| Votes.RestoreOneIff | src/consensus/VoteManager.ts:277-302 | a restored vote is added last, replaces an equal one in its place, and is skipped against a contradicting one |
| Quorum.ReachedIff | src/consensus/QuorumManager.ts:43-79 | the percentages amount to: enough voters, enough approval, more approvals than rejections |
| Rounds.LocalDecisionApproves | src/consensus/ConsensusRound.ts:222-250 | a decision from local votes is always an approval, with a quorum behind it |
| Rounds.VoteDecides | src/consensus/ConsensusRound.ts:161-260 | a new vote is stored and listed, the percentage is that of the approvals among the stored votes, and the round is decided, as approved and at the time of the vote, if and only if it was not and these counts agree; then the history says so |
| Rounds.CastIs | src/consensus/ConsensusRound.ts:132-187 | a cast vote of an unverified voter or of one that has voted changes nothing; any other is the new vote above |
| Rounds.ClockEnds | src/consensus/ConsensusRound.ts:71-83 | at the timeout a voting round expires at that time, and `start` expires instead of opening the vote; before it a tick changes nothing |
| Rounds.ResultWrites | src/consensus/ConsensusRound.ts:189-220 | an external result decides a pending or voting round with its result, percentage and time, and changes no other; failing and cancelling write status and time only |
| Rounds.StepKeeps | src/consensus/ConsensusRound.ts:71-308 | decided exactly with a result, announced exactly once, unless a decided round is started again |
| Rounds.WriteOnce | src/consensus/ConsensusRound.ts:71-308 | over every such run a decision, its result and its single announcement never change |
| Rounds.WriteOnceFromNew | src/consensus/ConsensusRound.ts:36-308 | so for every such run of a round as constructed: a decision taken at any time is the one at the end, and it is announced once if there is one, else not at all |
| Rounds.ResultOverwritten | src/consensus/ConsensusRound.ts:189-220 | the next event changes a result if and only if it is a different external result for a voting or pending round |
| Rounds.RestartOverwrites | src/consensus/ConsensusRound.ts:71-83 | start and then an external result replace an approval and announce again |
| Rounds.ConsensusRound.CheckQuorumNow | src/consensus/ConsensusRound.ts:222-260 | the decision, the recorded quorum and the result of the counted votes |
| Rounds.ConsensusRound.CastVoteBy | src/consensus/ConsensusRound.ts:132-159 | the verdict of the verification tables decides: accepted exactly for verified peers that have not voted |
| Rounds.ConsensusRound.RecordVerifiedVote | src/consensus/ConsensusRound.ts:161-187 | a duplicate is accepted without effect, a conflict refused |
| Rounds.ConsensusRound.RecordExternalResult | src/consensus/ConsensusRound.ts:189-220 | agreement with a reached round, refusal by a failed or expired one, else the decision |
| Rounds.ConsensusRound.ExpireNow | src/consensus/ConsensusRound.ts:265-281 | a voting round expires exactly at its timeout |
| Quorum.QuorumManager.RestoreSnapshotEntries | src/consensus/QuorumManager.ts:192-201 | the history is that of the entries, later ones winning |
| OrderedMaps.SetAllOfEntries | src/consensus/QuorumManager.ts:188-201 | re-inserting the entries of a map in order rebuilds it, order included |
| Engine.StepKeeps | src/consensus/ConsensusEngine.ts:63-230 | rounds filed under their own ids, exact vote indexes, and only genuine quorums in the history |
| Engine.SnapshotRoundTrip | src/consensus/ConsensusEngine.ts:410-443 | restoring a snapshot rebuilds rounds, votes, history, orders and indexes up to empty buckets; the verification tables are those of the restoring engine |
| Engine.RestartUnobservable | src/consensus/ConsensusEngine.ts:410-443 | saving, restarting and restoring at any point of any run changes nothing that happens later if and only if each later vote that counts finds its voter verified with the old tables exactly when it is with what was registered and marked since |
| Engine.RestartRefusesVoter | src/consensus/ConsensusEngine.ts:410-443 | a peer registered before the restart: its vote is stored without the restart and refused with it |
| Engine.CastTellsApart | src/consensus/ConsensusRound.ts:132-159 | two engines that are equal but verify the voter of a vote differently differ after it |
| Peers.PeerVerification.VerifyPeer | src/consensus/PeerVerification.ts:44-102 | true exactly for peers with a fingerprint that are neither banned nor suspicious |
| Peers.VerdictAfter | src/consensus/PeerVerification.ts:37-201 | which single event makes a peer verified or unverified, from its three marks before |
| Peers.PeerVerification.RegisterFingerprint | src/consensus/PeerVerification.ts:37-39 | the peer has a fingerprint; no mark changes |
| Peers.PeerVerification.Report | src/consensus/PeerVerification.ts:189-201 | a Sybil report bans and marks the peer, a manipulation report marks it, others do neither |
| Peers.PeerVerification.ClearAll | src/consensus/ConsensusEngine.ts:387-390 | no fingerprint, suspicion or ban is left |
| Engine.SameStep | src/consensus/ConsensusEngine.ts:63-230 | engines equal up to empty buckets stay so under every operation that does not cast a counting vote verified in one and not in the other |
| Engine.ConsensusEngine.StartContributionRound | src/consensus/ConsensusEngine.ts:63-101 | an existing id returns its round; a new one files a fresh round object |
| Engine.RoundsComeAndGo | src/consensus/ConsensusEngine.ts:63-101 | a new round is filed last, pending and empty, and an existing id changes nothing; a removal takes that round only; a reset leaves nothing |
| Engine.RemovalsAre | src/consensus/VoteManager.ts:233-268 | removing votes takes those on the contribution, or of the voter, and changes nothing else of the engine |
| Engine.ConsensusEngine.RecordVerifiedVote | src/consensus/ConsensusEngine.ts:103-130 | the round by id, else the first on the contribution, takes the vote; all other rounds keep their state; true exactly when there is such a round and the store takes the vote or has it already |
| Engine.FindIs | src/consensus/ConsensusEngine.ts:112-113 | the round of the id, else the first in order on the contribution, and none if and only if there is neither |
| Engine.RemoteVoteCounts | src/consensus/ConsensusEngine.ts:103-130 | the first vote of a voter is stored and listed last in the round found, and no other round changes |
| Engine.RoundCalls | src/consensus/ConsensusRound.ts:71-83 | starting, expiring, failing and cancelling a round of the engine writes status and end time of that round, exactly at its timeout where it expires, and nothing else |
| Engine.RemoteResultDecides | src/consensus/ConsensusEngine.ts:132-160 | a result decides the round found if that is open, and nothing else changes |
| Engine.ConsensusEngine.RecordExternalResult | src/consensus/ConsensusEngine.ts:132-160 | likewise for an external result; true exactly when the round then stands decided with that result and percentage, so never for a pending one |
| Engine.ConsensusEngine.RemoveRoundById | src/consensus/ConsensusEngine.ts:212-221 | the round is cancelled and forgotten |
| Engine.ConsensusEngine.ResetEngine | src/consensus/ConsensusEngine.ts:381-393 | rounds cancelled and forgotten, votes, history and verification tables emptied |
| Engine.ConsensusEngine.TakeSnapshot | src/consensus/ConsensusEngine.ts:410-418 | rounds, votes and history entries in insertion order |
| Engine.ConsensusEngine.Load | src/consensus/ConsensusEngine.ts:420-443 | managers refilled in place, every round a new object; verification tables as they were |
| Contributions.MetricsAreFold | src/contribution/ContributionEngine.ts:52-115 | in every run each peer's ten counters are the fold of its ledger entries, and a stored score is the score of those counters |
| Contributions.TallyIs | src/contribution/ContributionEngine.ts:80-115 | each of the ten counters of that fold is the sum of the values, or the number, of the peer's entries of the types it counts |
| Contributions.ScoreParts | src/contribution/ContributionCalculator.ts:51-112 | the five parts of a score: linear up to one GiB, ten GiB and one day and 100 from there; capped per-item points for replication; the rate of success for reliability, zero without requests |
| Contributions.TotalIs | src/contribution/ContributionCalculator.ts:21-49 | the total is 30, 25, 20, 15 and 10 hundredths of storage, bandwidth, replication, uptime and reliability |
| Contributions.EmitEffect | src/contribution/ContributionEvents.ts:24-70 | an event counts once if its content is new and not at all otherwise; the ledger never refuses it |
| Contributions.OrderIndependent | src/contribution/ContributionEngine.ts:52-115 | counters, scores and ledger keys after emits depend only on the set of distinct events |
| Contributions.ResetForgetsForGood | src/contribution/ContributionEngine.ts:306-311 | after a reset, repeating earlier events in any order leaves the counters at zero |
| Contributions.TotalsAgree | src/contribution/ContributionMetrics.ts:145-154 | totals over all peers equal the totals by type of the ledger in every run |
| Contributions.ContributionLedger.AppendEntry | src/contribution/ContributionLedger.ts:37-66 | inserted, duplicate and conflict, by the explicit event id or the content |
| Contributions.AppendIff | src/contribution/ContributionLedger.ts:37-66 | an entry is inserted, last, if and only if its id is new; else nothing changes, and it is a duplicate if and only if all its fields agree with the stored one |
| Contributions.CallsLeave | src/contribution/ContributionEngine.ts:167-323 | what reading counters or a score, a reset of one peer and clearing leave of events, ledger, counters and scores |
| Contributions.ContributionLedger.DeleteEntriesForPeer | src/contribution/ContributionLedger.ts:257-266 | deletion while walking the map removes and counts exactly the peer's entries |
| Contributions.ContributionMetricsManager.UpdateFromEvent | src/contribution/ContributionEngine.ts:80-115 | the one counter of the event's type goes up, by its value or by one |
| Contributions.ContributionEvents.Emit | src/contribution/ContributionEvents.ts:24-70 | an event of the same content is returned instead of a new one |
| Contributions.ContributionEngine.EmitEvent | src/contribution/ContributionEngine.ts:52-75 | ledger, counters and score change together or not at all |
| Contributions.ContributionEngine.CurrentScore | src/contribution/ContributionEngine.ts:167-172 | the cached or new score is the score of the peer's ledger entries |
| Contributions.ContributionEngine.ResetPeerData | src/contribution/ContributionEngine.ts:306-311 | counters zeroed, entries and score gone, events kept |
| Rewards.AllocationsAreSums | src/economy/RewardPool.ts:173-247 | over every run with resets, an allocation is the sum of the amounts accepted since its own reset |
| Rewards.RunLimits | src/economy/RewardPool.ts:173-200 | daily and per-peer limits hold in every run, whatever the amounts |
| Rewards.Conservation | src/economy/RewardPool.ts:173-200 | without resets a category's allocation is the sum over its peers plus what named no peer |
| Rewards.PeersWithinDaily | src/economy/RewardPool.ts:173-200 | with non-negative amounts the peers never hold more than the day's allocation and its limit |
| Rewards.WithinDailyIff | src/economy/RewardPool.ts:173-247 | over every run with resets: the peers together are within the day's allocation if and only if what they hold from before the last daily reset is at most what was accepted since without a name, or for peers that have been reset since |
| Rewards.DailyResetUnbalances | src/economy/RewardPool.ts:232-236 | in any run, right after a daily reset the peers are within the day's allocation if and only if they hold nothing |
| Rewards.NormalizeMeans | src/economy/RewardPool.ts:277-290 | normalised weights sum to one if and only if they did not sum to zero, and keep their ratios |
| Rewards.RewardsExhaust | src/economy/RewardPool.ts:252-290 | with all pools enabled the normalised rewards add up to the whole pool |
| Rewards.RewardPool.AllocateReward | src/economy/RewardPool.ts:173-200 | accepted exactly within both limits of an enabled pool |
| Rewards.AllocateIff | src/economy/RewardPool.ts:173-200 | an amount is accepted if and only if the pool is enabled and it fits the rest of the day's limit and, for a named peer, of the peer's; it then adds to these two allocations and no other, and otherwise changes nothing |
| Rewards.SwitchesAndResets | src/economy/RewardPool.ts:108-247 | what switching a pool and the two resets leave: one flag changed, the day's allocations of all configured pools zero, one peer or all peers gone |
| Rewards.RewardPool.ResetDailyAllocations | src/economy/RewardPool.ts:232-236 | the loop zeroes every configured category and no other |
| Rewards.RewardPool.NormalizeWeights | src/economy/RewardPool.ts:277-290 | the in-place loop divides every weight by the total taken before it |
| TransactionQueue.TransactionsAreSerial | src/database/sqliteAdapter.web.ts:174-220 | in every run works and direct writes take effect in the order of their calls; if no direct write is called while a transaction runs or is due, the tables are the stored writes and ended works one after the other, each in one go, but for empty tables of writes still to store, and a work runs on exactly those tables |
| TransactionQueue.CallsInOrder | src/database/sqliteAdapter.web.ts:174-220 | if none is called while a transaction runs or waits, works and writes together take effect in the order of the calls, and once nothing is left the tables are all of them in that order |
| TransactionQueue.EverythingTakesEffect | src/database/sqliteAdapter.web.ts:174-220 | the queue never gets stuck: after any run and at most three turns of job, end and settling for each event, nothing waits, runs or is to be stored, all works and all writes have had their turn in the order of their calls, and, if no direct write was called while a transaction ran or waited, the tables are all that was asked for |
| TransactionQueue.FailuresLeaveNoTrace | src/database/sqliteAdapter.web.ts:207-220 | leaving the works that throw when their turn comes out of that sequence gives the same tables |
| TransactionQueue.DirectWriteSurvives | src/database/sqliteAdapter.web.ts:174-220 | a direct write that changes something, called at any point of such a run, keeps its place whatever the next work does and however jobs interleave, if and only if at its call no transaction runs and none is due to start; none is due when none waits |
| TransactionQueue.WholeRows | src/database/sqliteAdapter.web.ts:174-185 | a write in one go changes the rows of its own table by its change, makes that table, and leaves every other table alone |
| TransactionQueue.WriteIsLost | src/database/sqliteAdapter.web.ts:174-220 | a direct write called while a work runs that then succeeds leaves the tables at its end as they are without the write, whatever happens in between and although the write is stored |
| TransactionQueue.ThrowLosesNothing | src/database/sqliteAdapter.web.ts:174-220 | a work that throws takes no write with it: at its end the tables are those before it and the writes stored since, in the order of their calls, with the writes still to store to come |
| TransactionQueue.StoreAfterEnd | src/database/sqliteAdapter.web.ts:174-220 | called while a work runs and stored after its end, a write has its effect if and only if the work left its table |
| TransactionQueue.UnawaitedTransactionLoses | src/database/sqliteAdapter.web.ts:174-220 | a transaction called and not awaited, then a direct write: nothing runs at the call and the write is lost |
| MemoryTables.CloneTables | src/database/sqliteAdapter.web.ts:1671-1690 | same contents and order, every row object and byte array new |
| MemoryTables.CopyRow | src/database/sqliteAdapter.web.ts:1680-1686 | byte arrays copied, other fields taken over |
| MemoryTables.MemoryTableBackend.Put | src/database/sqliteAdapter.web.ts:175-179 | a put that nothing comes between: the table is made on first use and the row object itself stored under its id |
| MemoryTables.WritesAre | src/database/sqliteAdapter.web.ts:174-185 | a put leaves its row under its id and a deletion no row there; all other rows and tables stay |
| MemoryTables.MemoryTableBackend.EnsureTableExists | src/database/sqliteAdapter.web.ts:167-172 | the first half of a write: a missing table is made |
| MemoryTables.MemoryTableBackend.StorePut | src/database/sqliteAdapter.web.ts:177 | the second half of a put: the row object itself is stored if the table is there, else nothing |
| MemoryTables.MemoryTableBackend.StoreDelete | src/database/sqliteAdapter.web.ts:183 | the second half of a deletion: the row goes if the table is there, else nothing |
| MemoryTables.MemoryTableBackend.Remove | src/database/sqliteAdapter.web.ts:181-185 | the row goes, the table stays |
| MemoryTables.MemoryTableBackend.WithTransaction | src/database/sqliteAdapter.web.ts:207-220 | a work that throws changes nothing; else its effect is committed in objects shared with nothing the work holds |
| MemoryTables.OperationIs | src/database/sqliteAdapter.web.ts:174-185 | the same of each operation of a work on the heap: the row put is read as its contents, the row deleted is gone, a throw changes nothing |
| MemoryTables.OverwriteAfterCommit | src/database/sqliteAdapter.web.ts:210-212 | overwriting bytes a work put in changes nothing stored |
| MemoryTables.OverwriteAfterPut | src/database/sqliteAdapter.web.ts:175-179 | without a transaction the stored row does change |

## Left out

- Numbers: scores, weights, percentages and reward amounts are exact reals without NaN (the source's range test lets NaN
  through); contribution values and clock readings are integers; array and string length limits are ignored.
- Truncated hash ids (votes, events, ledger entries, message ids) and generated ids (rounds, sessions, streams) are
  taken as the data they are made from or as given: collision resistance is an assumption, not a result.
- TrustManager.SubmitKeeps: the id text is taken as the reporter, peer and time it is joined from, which is exact for
  names without underscores (`TrustIds.AmbiguousIff`). What two reports under one text do to the indexes is
  `TrustIds.SubmitBreaksIff`; what they do to the scores is not modelled.
- One clock reading stands for each operation, except in receiving a message and in handling a signal, where two matter.
- Listeners, event buses, loggers and persistence queues are not called; a listener that calls back is not modelled.
- JSON import functions on the managers, which accept arbitrary state, and all statistics and ranking queries.
- Field-type tests on parsed messages: messages, signals, votes and rows are typed; validation keeps the value tests.
- Sha256.Sha256: agreement with FIPS 180-4 is claimed below 2^29 bytes only, the exact range by
  `Sha256.PaddingConforms`.
- Base58.HexToBytes: needs hex text of even length, which is what its only caller passes.
- CanonicalJson.CanonicalDeterminesValue: values are null, booleans, integers, strings, arrays and records with distinct
  keys; `undefined`, functions and non-integer numbers are not modelled.
- JsonReader.CanonicalRead: the reader takes integers only, without fraction or exponent, because no other numbers are
  printed here.
- WebRtc.OfferSpares: without recovery, which closes all sessions (`WebRtc.RecoveryTakesAll`); so too
  `WebRtc.AcceptSpares`.
- FrameStream.ChunkingIndependence: stops at the first close, because the handler stays attached after it; what happens
  behind it is `FrameStream.CutsAgreeIff`.
- Frames.DecodeFrame: an extended length above 2^53 is exact here and rounded in the source; both exceed the limit.
- Signaling.RunKeeps: network membership and presence messages are not events; they touch neither registrations
  nor queues.
- The HTTP upgrade, ping and pong, fragmentation, and the reconnecting signaling client.
- Delivery.InMemoryPeerTransport.ReceiveMessage: pairing two transports is reduced to the receiving side's connections.
- Streams.StepKeeps: keep-alive and idle timers, and the underlying stream that is opened, written to and closed.
- WebRtc.RunKeeps: operations run to completion, channels open only for stored sessions, and no session id serves two
  peers; `WebRtc.SharedIdBreaks` and `WebRtc.LateOpenBreaks` are exact on the last two. Of overlapping operations only
  two offers between budget test and filing are modelled (`WebRtc.OverlappingOffers`).
- WebRtc.StepKeeps: timers of a session object replaced under its own id act on the stored one; received messages and
  the timers' scheduling are not modelled.
- Rounds.WriteOnce: for runs in which `start` is not called on a decided round; the exact escape is
  `Rounds.ResultOverwritten`.
- Engine.RestartUnobservable: witnesses and evidence are not part of the rounds here, and calls on a round object the
  engine has already forgotten are not events. Quorum requirements are fixed over a run: an update of them is not an
  event, and is lost at a restart too. JSON exports of the verification tables are left out.
- Peers.PeerVerification.VerifyPeer: reasons and confidences are left out, and so is Sybil detection, which marks
  no peer.
- Delivery.AtMostOnce: assumes a monotone clock and that no id comes again with a later expiry; `receive` checks
  neither. `Delivery.AcceptedAgain` holds without both.
- Signaling.LeftBehindIff: sockets say nothing after they have closed. The close event and the error event, which a
  write to an ended socket raises too, are one event here.
- Signaling.ReachesPeer: a write to a socket that has neither ended nor closed is taken as received.
- TransactionQueue.DirectWriteSurvives: `reset` and `close` of the database are not events; the write must change the
  rows of its table as they are once the pending writes are stored, for a write that changes nothing is not missed.
- Contributions.OrderIndependent: for runs of emits; the fraud validator and `lastUpdated` are left out.
- Rewards.RunLimits: with limits fixed over the run; changing them is not an event.
- MemoryTables.MemoryTableBackend.WithTransaction: a work is a sequence of stores and deletions that may throw;
  `deleteWhere`, nested transactions and SQL string matching are left out.
- libp2p, WebRTC, IndexedDB, Supabase and cryptographic libraries, the interface, and the repositories.
