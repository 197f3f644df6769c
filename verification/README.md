# Tomato Sentinel: verified model

A Dafny model of the deterministic core of Tomato Sentinel, with proofs about whole streams, whole
deliveries and whole runs. `dafny verify dfyconfig.toml` checks it.

- **Pairing frames** (`Crc32`, `PairingFrame`, `FrameDecoder`, `CppFrame`, `KnownAnswers`): the
  20-byte-header wire format with its CRC-32 (section 8 of RFC 1952), as the Python reference and the
  firmware implement it, one-shot and incrementally.
- **Simulated signal channel** (`SpectraBits`, `Hamming84`, `Symbols`, `Noise`, `SpectraChannel`,
  `SpectraReport`): framing, extended Hamming code, modulation, deterministic noise, and the way back.
- **Relay and control lane** (`Relay`, `RelayInvariants`, `RelayService`, `RelayQueues`,
  `RelayHistory`, `RelayGuarantees`, `RelayReceipts`, `RelayDelivery`, `RelayWitness`): bounded store and
  forward with receipts, expiry and sequences. Both lanes are one step system with different limits.
- **Signed device messages** (`KeyStore`, `DeviceProtocol`, `DeviceHistory`, `DeviceAcceptance`) and
  **link sessions** (`LinkSessions`, `LinkHistory`, `LinkAcceptance`, `LinkWitness`): key rotation and
  revocation, replay protection, leases.
- **Pairing ceremony** (`Pairing`, `PairingOutcomes`): the display-confirmed exchange between two
  participants.
- **Policy and experiments** (`Policy`, `PolicyDecisions`, `Experiments`, `ExperimentFates`): tool
  registry, evaluator, experiment engine.
- **Monitoring and discovery jobs** (`Jobs`, `Audit`, `Detection`, `Monitoring`, `MonitoringInvariants`,
  `MonitoringHistory`, `MonitoringEvents`, `MonitoringAdmission`, `MonitoringService`, `Discovery`,
  `DiscoveryCommands`, `DiscoveryAdmission`, `DiscoveryService`): jobs started by commands under policy,
  with an exact audit trail.

Each operation is a function on values that follows the code branch by branch, in the code's order.
Objects that the code updates in place are classes whose methods are proved to compute that
function, so that what is proved of the functions over all runs holds of the objects. What an
operation does is then said a second time without its function: over whole runs from their history
(which frames a pull lists, when a message or lease is accepted, how an experiment ends), or as the
exact condition for each of its answers.

Times are integers, in microseconds where the code computes with durations. Hashes, HMAC, HKDF
(sections 2.2 and 2.3 of RFC 5869) and X25519 are function parameters. What is assumed of them is
written in the lemmas that need it: symmetric key exchange (`ExchangeSymmetric`), fingerprints that
tell transcripts apart (`FingerprintsDistinguish`), an HKDF that separates its inputs
(`HkdfSeparates`), and, for monitoring and discovery, that identifiers derived from different material
differ (`IdsDistinct`).

Some results say where the code differs from what one might expect:

- The firmware checks the reserved field after the payload length, the reference before it, so they
  name different reasons for a header that is wrong in both (`CppFrame.DecodersAgree`). They accept
  the same strings.
- A frame id can be accepted again once a whole receipt table of other frames has been accepted
  (`RelayReceipts.AcceptedExactlyWhen`, `RelayReceipts.ForgottenIdRecurs`; `RelayWitness.IdDoesRecur`
  is a run in which it happens); only sequences keep a frame from being enqueued twice
  (`RelayGuarantees.NoFrameEnqueuedTwice`). Acknowledging an older frame then rewrites the receipt of a
  newer one under its id (`RelayReceipts.OwnReceiptExactlyWhen`).
- A session authority refuses a lease it issued itself until it has forgotten it, that is until 1024
  other leases were remembered, and accepts it afterwards (`LinkSessions.OwnLeaseAcceptedIff`,
  `LinkHistory.OwnLeaseAcceptedOnceForgotten`, `LinkWitness.OwnLeaseIsForgotten`).
- A sink of the root secret runs while the ceremony is still established. One that calls
  `consume_root_secret` again takes the secret twice, and one that cancels and then succeeds leaves the
  ceremony consumed (`Pairing.SinkCanConsumeTwice`, `Pairing.SinkEndsCeremony`); the secret is taken
  exactly once if sinks do not call back to consume (`Pairing.ConsumedOnce`, `Pairing.TimesConsumed`).
- A cancellation that is refused for its time has already stopped the job's worker, so the job later
  completes as exhausted with frames or candidates left (`MonitoringHistory.RefusedCancelEndsFrames`,
  `Discovery.RefusedCancelEndsListing`).
- Both job drivers depend on the caller's clock: started before the job's last transition, monitoring
  ends in a refused transition, and discovery does if its last advance is still too early
  (`MonitoringHistory.RunToCompletionEnds`, `Discovery.RunToCompletionEnds` say exactly when).

`Options` and `Sequences` hold what the components share.

## Model

| member | source | states |
|---|---|---|
| `Crc32.UpdateCrc32` | firmware/cardputer/app/TomatoSentinel/TomatoLinkLocalFrame.cpp:34-44 | The byte and bit loops over a buffer slice leave the register that folding the slice's bytes gives. |
| `Crc32.ChainedChecksum` | packages/device-protocol/src/tomato_sentinel_device_protocol/local_pairing_frame.py:50 | Continuing `zlib.crc32` over the payload is the checksum of header and payload joined; the firmware's one register does the same. |
| `Crc32.UpdateAppend` | firmware/cardputer/app/TomatoSentinel/TomatoLinkLocalFrame.cpp:180-189 | Feeding two buffers one after the other equals feeding their concatenation. |
| `Crc32.BitStepInvertible` | firmware/cardputer/app/TomatoSentinel/TomatoLinkLocalFrame.cpp:38-41 | Every turn of the inner loop can be undone. |
| `Crc32.BitUnstepInvertible` | firmware/cardputer/app/TomatoSentinel/TomatoLinkLocalFrame.cpp:38-41 | Every register value is reached by one turn, so a turn is a bijection. |
| `Crc32.BitStepLinear` | firmware/cardputer/app/TomatoSentinel/TomatoLinkLocalFrame.cpp:38-41 | A turn distributes over xor. |
| `Crc32.BitStepsInjective` | firmware/cardputer/app/TomatoSentinel/TomatoLinkLocalFrame.cpp:38-41 | Any number of turns keeps different registers different. |
| `Crc32.UpdateIsSerial` | firmware/cardputer/app/TomatoSentinel/TomatoLinkLocalFrame.cpp:34-44 | The byte loop is the bit-serial register fed least significant bit first. |
| `Crc32.WindowIsXor` | firmware/cardputer/app/TomatoSentinel/TomatoLinkLocalFrame.cpp:34-44 | Feeding up to 32 bits is one xor of the packed bits and as many plain turns. |
| `Crc32.WindowChangesRegister` | firmware/cardputer/app/TomatoSentinel/TomatoLinkLocalFrame.cpp:34-44 | Two different windows of at most 32 bits lead to different registers whatever surrounds them. |
| `Crc32.ChecksumDetectsBurst` | firmware/cardputer/app/TomatoSentinel/TomatoLinkLocalFrame.cpp:34-44 | Messages of one length that differ only inside 32 consecutive bits, at any bit offset, have different checksums. |
| `Crc32.ChecksumDetectsFourBytes` | firmware/cardputer/app/TomatoSentinel/TomatoLinkLocalFrame.cpp:34-44 | In particular for any change confined to four consecutive bytes. |
| `KnownAnswers.CheckValue` | firmware/cardputer/app/TomatoSentinel/TomatoLinkLocalFrame.cpp:34-44 | The check value of this CRC: 0xCBF43926 for the digits 1 to 9. |
| `PairingFrame.DecodeEncode` | packages/device-protocol/src/tomato_sentinel_device_protocol/local_pairing_frame.py:39-76 | Decoding inverts encoding on every valid frame. |
| `PairingFrame.EncodeDecode` | packages/device-protocol/src/tomato_sentinel_device_protocol/local_pairing_frame.py:54-123 | Every accepted byte string is the encoding of the frame it decodes to. |
| `PairingFrame.FormatIsBijection` | packages/device-protocol/src/tomato_sentinel_device_protocol/local_pairing_frame.py:39-144 | A string decodes to a frame if and only if the frame encodes to the string. |
| `PairingFrame.EncodedLayout` | packages/device-protocol/src/tomato_sentinel_device_protocol/local_pairing_frame.py:39-51 | Where magic, version, type, flags, sequence, length, reserved, checksum and payload lie in an encoded frame. |
| `PairingFrame.AcceptedLayout` | packages/device-protocol/src/tomato_sentinel_device_protocol/local_pairing_frame.py:87-123 | What acceptance says about each header field and the total length. |
| `PairingFrame.DamagedFrameRejected` | packages/device-protocol/src/tomato_sentinel_device_protocol/local_pairing_frame.py:54-76 | An encoded frame damaged, at unchanged length, by a burst of up to 32 of the bits the checksum covers, or anywhere inside the checksum, is rejected. |
| `PairingFrame.AlteredByteRejected` | packages/device-protocol/src/tomato_sentinel_device_protocol/local_pairing_frame.py:54-76 | Changing any one byte of an encoded frame makes decoding reject it. |
| `PairingFrame.AlteredPayloadRunRejected` | packages/device-protocol/src/tomato_sentinel_device_protocol/local_pairing_frame.py:54-76 | Changing any of four consecutive payload bytes makes decoding reject the frame. |
| `KnownAnswers.PublishedFrame` | packages/device-protocol/tests/test_local_pairing_frame.py:25-30 | The published hello frame is byte for byte the encoding of its payload with sequence 1, and decodes to it. |
| `KnownAnswers.ValidExactlyWhen` | packages/device-protocol/src/tomato_sentinel_device_protocol/local_pairing_frame.py:126-146 | Which frames there are: sequences of 32 bits from 1, at most 1024 payload bytes, none exactly for a cancellation. |
| `KnownAnswers.RejectionsTell` | packages/device-protocol/src/tomato_sentinel_device_protocol/local_pairing_frame.py:54-123 | Each reason for rejecting a string says which of its bytes are wrong. |
| `FrameDecoder.LocalPairingFrameDecoder.FeedChunk` | packages/device-protocol/src/tomato_sentinel_device_protocol/local_pairing_frame.py:159-189 | One fed chunk updates buffer, completion and latch as the specification of a feed says, and gives its answer. |
| `FrameDecoder.LocalPairingFrameDecoder.CancelDelivery` | packages/device-protocol/src/tomato_sentinel_device_protocol/local_pairing_frame.py:191-194 | Cancelling clears the buffer and latches the refusal. |
| `FrameDecoder.LocalPairingFrameDecoder.Reject` | packages/device-protocol/src/tomato_sentinel_device_protocol/local_pairing_frame.py:196-199 | A rejection clears the buffer and latches its reason. |
| `FrameDecoder.AnswerIsVerdict` | packages/device-protocol/src/tomato_sentinel_device_protocol/local_pairing_frame.py:159-189 | How a delivery is cut into chunks does not matter: while more was asked for, the next answer depends on the bytes received so far alone. |
| `FrameDecoder.FragmentsYieldFrame` | packages/device-protocol/src/tomato_sentinel_device_protocol/local_pairing_frame.py:159-189 | A valid frame cut anywhere, with a non-empty last chunk: every earlier feed asks for more, the last yields exactly the frame. |
| `FrameDecoder.YieldedFrameDecodes` | packages/device-protocol/src/tomato_sentinel_device_protocol/local_pairing_frame.py:159-189 | A feed that yields a frame, at any point of a life of feeds and cancellations, means that the life so far was byte chunks only and together they are that frame's encoding. |
| `FrameDecoder.AnswersLatch` | packages/device-protocol/src/tomato_sentinel_device_protocol/local_pairing_frame.py:159-199 | A call leaves the decoder unlatched exactly when it is a feed that asks for more. |
| `FrameDecoder.LatchedForever` | packages/device-protocol/src/tomato_sentinel_device_protocol/local_pairing_frame.py:159-199 | Once latched, by a yield, a refusal or a cancellation, every later feed gets one and the same refusal, whatever is called in between, non-byte arguments and cancellations included. |
| `FrameDecoder.AtMostOneYield` | packages/device-protocol/src/tomato_sentinel_device_protocol/local_pairing_frame.py:147-203 | One decoder yields at most one frame in its life, whatever is called; every feed after it is refused as already complete. |
| `FrameDecoder.BufferBounded` | packages/device-protocol/src/tomato_sentinel_device_protocol/local_pairing_frame.py:159-189 | The buffer never holds more than 1044 bytes, over any sequence of feeds and cancellations. |
| `FrameDecoder.HeaderIsPrefix` | packages/device-protocol/src/tomato_sentinel_device_protocol/local_pairing_frame.py:87-123 | A header is judged by its own 20 bytes. |
| `CppFrame.WriteBigEndian16` | firmware/cardputer/app/TomatoSentinel/TomatoLinkLocalFrame.cpp:22-25 | Two bytes, high first, and nothing else in the output changes. |
| `CppFrame.WriteBigEndian32` | firmware/cardputer/app/TomatoSentinel/TomatoLinkLocalFrame.cpp:27-32 | Four bytes, high first, and nothing else in the output changes. |
| `CppFrame.ChecksumOf` | firmware/cardputer/app/TomatoSentinel/TomatoLinkLocalFrame.cpp:180-189 | The firmware's checksum over header and payload arrays is the CRC-32 of their concatenation. |
| `CppFrame.EncodeInto` | firmware/cardputer/app/TomatoSentinel/TomatoLinkLocalFrame.cpp:72-105 | For a known type the answer is the reference's: its encoding at the start of the output, or its reason; null pointers, unknown types and too little capacity are refused as such; on failure, and beyond the encoding, the output is untouched. |
| `CppFrame.InspectHeaderOf` | firmware/cardputer/app/TomatoSentinel/TomatoLinkLocalFrame.cpp:107-145 | Null pointers are an invalid argument; otherwise the checks on the array give the header, or the first reason, of its bytes. |
| `CppFrame.DecodeOf` | firmware/cardputer/app/TomatoSentinel/TomatoLinkLocalFrame.cpp:147-178 | Null pointers are an invalid argument; otherwise decoding the array gives the frame, or the first reason, of its bytes. |
| `CppFrame.HeaderChecksAgree` | firmware/cardputer/app/TomatoSentinel/TomatoLinkLocalFrame.cpp:107-145 | The two header checks differ in their reason exactly when both of the last two fields are wrong. |
| `CppFrame.DecodersAgree` | firmware/cardputer/app/TomatoSentinel/TomatoLinkLocalFrame.cpp:107-178 | Firmware and reference accept the same strings as the same frames, and differ in the reason for exactly those headers. |
| `CppFrame.Decoder.Feed` | firmware/cardputer/app/TomatoSentinel/TomatoLinkLocalFrame.cpp:199-243 | A feed appends to the fixed 1044-byte array and asks for more, yields the frame and is complete, or latches its refusal; a null chunk with a length and a missing view are invalid arguments. |
| `CppFrame.Decoder.Cancel` | firmware/cardputer/app/TomatoSentinel/TomatoLinkLocalFrame.cpp:245-250 | Cancelling clears the buffer and latches the refusal. |
| `CppFrame.Decoder.Reject` | firmware/cardputer/app/TomatoSentinel/TomatoLinkLocalFrame.cpp:256-261 | A rejection clears the buffer and latches its status. |
| `CppFrame.Decoder.ClearBuffer` | firmware/cardputer/app/TomatoSentinel/TomatoLinkLocalFrame.cpp:263-266 | The whole buffer is zero and empty. |
| `CppFrame.StepsCorrespond` | firmware/cardputer/app/TomatoSentinel/TomatoLinkLocalFrame.cpp:199-266 | From corresponding states a feed of any kind is answered alike, and it and a cancellation lead to corresponding states. |
| `CppFrame.DecodersStayInStep` | firmware/cardputer/app/TomatoSentinel/TomatoLinkLocalFrame.cpp:199-266 | Hence the firmware and the reference answer every feed alike over any life of feeds, invalid arguments and cancellations. |
| `CppFrame.CppLatchedForever` | firmware/cardputer/app/TomatoSentinel/TomatoLinkLocalFrame.cpp:199-261 | Once the firmware's decoder has yielded, refused or been cancelled, every later feed gets one and the same refusal. |
| `SpectraBits.Triangle` | packages/experiment-engine/src/tomato_sentinel_experiments/spectra.py:310-312 | The bit error count obeys the triangle inequality. |
| `SpectraBits.NoErrorsIsEqual` | packages/experiment-engine/src/tomato_sentinel_experiments/spectra.py:310-312 | No bit errors means equal strings, also for different lengths. |
| `SpectraBits.BitErrorsAppend` | packages/experiment-engine/src/tomato_sentinel_experiments/spectra.py:310-312 | Errors of a concatenation add up. |
| `SpectraBits.BitErrorsAtMostLength` | packages/experiment-engine/src/tomato_sentinel_experiments/spectra.py:310-312 | Strings of one length have at most that many errors. |
| `SpectraBits.BitsToInt` | packages/experiment-engine/src/tomato_sentinel_experiments/spectra.py:187-191 | The loop computes the big-endian value of the bits. |
| `SpectraBits.ValueOfIntToBits` | packages/experiment-engine/src/tomato_sentinel_experiments/spectra.py:183-191 | Writing a number in enough bits and reading it back gives the number. |
| `SpectraBits.IntToBitsOfValue` | packages/experiment-engine/src/tomato_sentinel_experiments/spectra.py:183-191 | Reading bits as a number and writing it in as many bits gives the bits. |
| `Hamming84.EncodeNibble` | packages/experiment-engine/src/tomato_sentinel_experiments/spectra.py:200-212 | One turn of the encoding loop yields the code block of four data bits. |
| `Hamming84.CodeWord` | packages/experiment-engine/src/tomato_sentinel_experiments/spectra.py:200-212 | The code word has the data at positions 3, 5, 6 and 7, and even parity in each of the three position groups and over the block. |
| `Hamming84.RepairBlock` | packages/experiment-engine/src/tomato_sentinel_experiments/spectra.py:226-247 | One turn of the decoding loop yields the repaired block and what it adds to each counter. |
| `Hamming84.ApplyErrorCorrection` | packages/experiment-engine/src/tomato_sentinel_experiments/spectra.py:194-213 | The loop encodes the zero-padded string block by block and reports the padding. |
| `Hamming84.RemoveErrorCorrection` | packages/experiment-engine/src/tomato_sentinel_experiments/spectra.py:216-249 | The loop decodes block by block with both counters, removes the padding, and refuses a length that is not whole blocks. |
| `Hamming84.BlockOutcome` | packages/experiment-engine/src/tomato_sentinel_experiments/spectra.py:216-249 | A correct block is passed, one flip anywhere is repaired and counted, two flips are reported and never corrected. |
| `Hamming84.BlockErrorBound` | packages/experiment-engine/src/tomato_sentinel_experiments/spectra.py:216-249 | For any damage, a block's data errors are at most its channel errors, plus one if it counts a correction. |
| `Hamming84.CountersAreExact` | packages/experiment-engine/src/tomato_sentinel_experiments/spectra.py:216-249 | With up to two flips per block, the counters are the numbers of blocks hit once and hit twice. |
| `Hamming84.BlocksAreIndependent` | packages/experiment-engine/src/tomato_sentinel_experiments/spectra.py:216-249 | Whatever happens elsewhere in the stream, a block hit at most once is recovered. |
| `Hamming84.SingleErrorsAreRepaired` | packages/experiment-engine/src/tomato_sentinel_experiments/spectra.py:216-249 | At most one flip per block: the stream is recovered, with one correction per hit block and nothing uncorrectable. |
| `Hamming84.UnprotectRepairs` | packages/experiment-engine/src/tomato_sentinel_experiments/spectra.py:194-249 | The same for any bit string, through padding and its removal. |
| `Hamming84.CleanStream` | packages/experiment-engine/src/tomato_sentinel_experiments/spectra.py:194-249 | An undamaged stream decodes to itself with both counters zero. |
| `Hamming84.DecodedErrorBound` | packages/experiment-engine/src/tomato_sentinel_experiments/spectra.py:216-249 | For any damage, data errors are at most channel errors plus corrections. |
| `Symbols.SymbolDistances` | packages/experiment-engine/src/tomato_sentinel_experiments/spectra.py:252-257 | The symbols for zero and one are 1, 2, 2 and 2 samples apart. |
| `Symbols.SymbolTable` | packages/experiment-engine/src/tomato_sentinel_experiments/spectra.py:20-25 | The two symbols of every encoding, sample by sample. |
| `Symbols.DecisionCriterion` | packages/experiment-engine/src/tomato_sentinel_experiments/spectra.py:260-271 | With symbols d apart and f flips on differing positions, a sent zero is recovered if and only if 2f <= d, a sent one if and only if 2f < d. |
| `Symbols.Modulate` | packages/experiment-engine/src/tomato_sentinel_experiments/spectra.py:252-257 | The loop concatenates the symbols of the bits. |
| `Symbols.Demodulate` | packages/experiment-engine/src/tomato_sentinel_experiments/spectra.py:260-271 | The loop decides symbol by symbol for the nearest, and refuses a length that is not whole symbols. |
| `Symbols.WrongBitNeedsFlip` | packages/experiment-engine/src/tomato_sentinel_experiments/spectra.py:260-271 | A demodulated bit is wrong only if a sample of its symbol was flipped. |
| `Symbols.ChannelErrorBound` | packages/experiment-engine/src/tomato_sentinel_experiments/spectra.py:252-271 | Over a stream, wrong bits are at most the flipped samples. |
| `Symbols.DemodulateModulate` | packages/experiment-engine/src/tomato_sentinel_experiments/spectra.py:252-271 | Demodulation inverts modulation for every bit string and encoding. |
| `Noise.Bezout` | packages/experiment-engine/src/tomato_sentinel_experiments/spectra.py:300-307 | Greatest common divisors are integer combinations, with the coefficients. |
| `Noise.EuclidsLemma` | packages/experiment-engine/src/tomato_sentinel_experiments/spectra.py:300-307 | A multiple of n and of a stride coprime to n comes from a multiple of n. |
| `Noise.NextCoprime` | packages/experiment-engine/src/tomato_sentinel_experiments/spectra.py:300-307 | The search loop ends, with a value in [1, n - 1] (1 for n = 1) that is coprime to n. |
| `Noise.StrideExactly` | packages/experiment-engine/src/tomato_sentinel_experiments/spectra.py:284-307 | The optical stride is the least number coprime to the length from the second word on, the acoustic one the least from three times the optical one. |
| `Noise.PositionsDistinct` | packages/experiment-engine/src/tomato_sentinel_experiments/spectra.py:282-293 | Before the stride has gone all the way round no position repeats. |
| `Noise.PositionsCount` | packages/experiment-engine/src/tomato_sentinel_experiments/spectra.py:282-293 | The set of positions has exactly the configured number of members. |
| `Noise.PositionSet` | packages/experiment-engine/src/tomato_sentinel_experiments/spectra.py:285-293 | The set comprehension over the indices yields those positions. |
| `Noise.FlipEach` | packages/experiment-engine/src/tomato_sentinel_experiments/spectra.py:294-297 | Flipping in any traversal order flips exactly the given positions. |
| `Noise.InjectNoise` | packages/experiment-engine/src/tomato_sentinel_experiments/spectra.py:274-297 | The method returns the samples flipped at the positions of its channel, and how many. |
| `Noise.FlipErrors` | packages/experiment-engine/src/tomato_sentinel_experiments/spectra.py:294-297 | Flipping at a set of positions makes exactly that many errors. |
| `Noise.NoiseFlipsExactly` | packages/experiment-engine/src/tomato_sentinel_experiments/spectra.py:274-297 | On both channels exactly `len * percent // 100` samples are flipped, and that number is reported. |
| `SpectraChannel.FixtureBits` | packages/experiment-engine/src/tomato_sentinel_experiments/spectra.py:160-168 | The digest loop returns the first requested bits of the digest stream. |
| `SpectraChannel.EnoughDigests` | packages/experiment-engine/src/tomato_sentinel_experiments/spectra.py:160-168 | However many digests are drawn, the payload is the same. |
| `SpectraReport.FixtureBit` | packages/experiment-engine/src/tomato_sentinel_experiments/spectra.py:160-168 | Every payload bit is the bit at its place in the digests, counted from the highest of each byte. |
| `SpectraReport.MaskTable` | packages/experiment-engine/src/tomato_sentinel_experiments/spectra.py:166-166 | The masks of the eight bits of a byte, first to last. |
| `SpectraReport.PackedWord` | packages/experiment-engine/src/tomato_sentinel_experiments/spectra.py:176-180 | Packing puts the first bit of a byte highest. |
| `SpectraChannel.PackBits` | packages/experiment-engine/src/tomato_sentinel_experiments/spectra.py:176-180 | The or-ing loop yields the packed bytes, most significant bit first. |
| `SpectraChannel.PackedDiffers` | packages/experiment-engine/src/tomato_sentinel_experiments/spectra.py:176-180 | A bit affects its own packed byte only, and packing is injective on strings of one length. |
| `SpectraChannel.SimulateSpectraChannel` | packages/experiment-engine/src/tomato_sentinel_experiments/spectra.py:51-126 | Refuses an input for the first rule it breaks, unsupported names included; otherwise returns the result of fixture, framing, coding, modulation, noise and the way back, with every counter. |
| `SpectraReport.SimulatedExactlyWhen` | packages/experiment-engine/src/tomato_sentinel_experiments/spectra.py:129-157 | Which inputs are simulated, and which settings the names stand for. |
| `SpectraReport.FrameLayout` | packages/experiment-engine/src/tomato_sentinel_experiments/spectra.py:60-68 | The frame is the word 0xDDAA, the payload length, the payload and its checksum. |
| `SpectraReport.ReportCounts` | packages/experiment-engine/src/tomato_sentinel_experiments/spectra.py:85-125 | Every error counter is the number of positions that differ: flipped samples, wrong channel bits, and wrong payload bits in the recovered payload. |
| `SpectraReport.ReportFlags` | packages/experiment-engine/src/tomato_sentinel_experiments/spectra.py:91-108 | The sync flag says that the first 48 frame bits came through; the checksum flag, that the recovered frame is the frame of the recovered payload. |
| `SpectraReport.UncodedBitWrong` | packages/experiment-engine/src/tomato_sentinel_experiments/spectra.py:260-297 | Without the code a bit arrives wrong exactly when enough samples that tell its symbol from the other were flipped: half of them for a one, more for a zero. |
| `SpectraReport.AskReport` | packages/experiment-engine/src/tomato_sentinel_experiments/spectra.py:51-126 | With one sample per bit and no code: channel errors are the noise positions, bit errors those in the payload, and sync is lost exactly by one among the first 48. |
| `SpectraReport.EveryPayloadBitWrong` | packages/experiment-engine/src/tomato_sentinel_experiments/spectra.py:274-312 | For example eight payload bits at half noise from position 48 on: eight bit errors, 44 channel errors, no sync. |
| `SpectraChannel.ZeroNoiseRoundTrip` | packages/experiment-engine/src/tomato_sentinel_experiments/spectra.py:51-126 | Without noise, for every encoding and both correction modes, the payload returns with all counters zero, in sync and with a matching checksum. |
| `SpectraChannel.SingleErrorsRecovered` | packages/experiment-engine/src/tomato_sentinel_experiments/spectra.py:51-126 | With the code and at most one wrong bit per block after demodulation, the payload, sync and checksum are recovered and the corrections are the damaged blocks. |
| `SpectraChannel.CountersMatchDamage` | packages/experiment-engine/src/tomato_sentinel_experiments/spectra.py:85-125 | With up to two wrong bits per block, both counters are exact. |
| `SpectraChannel.CountersAreOrdered` | packages/experiment-engine/src/tomato_sentinel_experiments/spectra.py:85-125 | For every noise level: flipped samples are the configured share; channel errors are at most those; payload errors are at most channel errors plus corrections, and at most the payload length. |
| `SpectraChannel.RecoveredErrors` | packages/experiment-engine/src/tomato_sentinel_experiments/spectra.py:85-125 | Frame errors after decoding are at most channel errors plus corrections. |
| `SpectraChannel.ShortErrorsChangeCrc` | packages/experiment-engine/src/tomato_sentinel_experiments/spectra.py:171-180 | Payloads that differ only inside four consecutive bytes have different payload checksums. |
| `SpectraChannel.ShortErrorsFlagged` | packages/experiment-engine/src/tomato_sentinel_experiments/spectra.py:51-126 | Surviving payload errors within four consecutive bytes are flagged when the checksum field came through. |
| `RelayInvariants.PublishKeeps` | services/link-relay/src/tomato_sentinel_link_relay/core.py:146-210 | Publishing keeps byte counters, both limits, and the receipt table in step with its eviction order. |
| `RelayInvariants.PullKeeps` | services/link-relay/src/tomato_sentinel_link_relay/core.py:212-225 | Pulling keeps them too. |
| `RelayInvariants.AcknowledgeKeeps` | services/link-relay/src/tomato_sentinel_link_relay/core.py:227-253 | Acknowledging keeps them too. |
| `RelayInvariants.RejectionKeeps` | services/link-relay/src/tomato_sentinel_link_relay/core.py:146-210 | A publication that enqueues nothing leaves every queue, counter, receipt and sequence alone. |
| `RelayInvariants.DiscardKeeps` | services/link-relay/src/tomato_sentinel_link_relay/core.py:268-279 | After discarding, a queue is exactly its unexpired frames and its counter their bytes. |
| `RelayService.TomatoLinkRelay.PublishFrame` | services/link-relay/src/tomato_sentinel_link_relay/core.py:146-210 | A remembered identical frame gets its receipt again and a different one under its id is refused; otherwise an old sequence, a full queue or full byte budget refuses, and else the frame joins its destination's queue, with counter, sequence and receipt. |
| `RelayService.TomatoLinkRelay.PullFrames` | services/link-relay/src/tomato_sentinel_link_relay/core.py:212-225 | Expired frames are dropped and the oldest live ones returned, up to the limit, without removing them. |
| `RelayService.TomatoLinkRelay.AcknowledgeFrame` | services/link-relay/src/tomato_sentinel_link_relay/core.py:227-253 | The first live frame with the id leaves the peer's own queue and counter, and its remembered receipt becomes acknowledged; without such a frame the call is refused. |
| `RelayService.TomatoLinkRelay.DiscardExpiredFrames` | services/link-relay/src/tomato_sentinel_link_relay/core.py:268-279 | The discarding loop leaves the specified queue and counter. |
| `RelayService.TomatoLinkRelay.RememberReceipt` | services/link-relay/src/tomato_sentinel_link_relay/core.py:281-291 | Remembering evicts the oldest receipt when the table is full. |
| `RelayGuarantees.NoFrameEnqueuedTwice` | services/link-relay/src/tomato_sentinel_link_relay/core.py:174-210 | Over any run accepted frames are pairwise different and their sequences strictly increase per source and session, evicted receipts or not. |
| `RelayGuarantees.ReplayNeverAccepted` | services/link-relay/src/tomato_sentinel_link_relay/core.py:174-210 | An accepted frame offered again at any later point, in whatever text, or any frame of its source and session not above it in sequence, enqueues nothing. |
| `RelayGuarantees.FramesAreConserved` | services/link-relay/src/tomato_sentinel_link_relay/core.py:187-279 | Per destination the accepted frames are the disjoint union of queued, acknowledged and expired ones, and the queue is its share in acceptance order. |
| `RelayGuarantees.QueuesAreFifo` | services/link-relay/src/tomato_sentinel_link_relay/core.py:187-225 | What is ahead in a queue was accepted earlier. |
| `RelayDelivery.PullAnsweredExactlyWhen` | services/link-relay/src/tomato_sentinel_link_relay/core.py:212-224 | A pull is answered exactly for an enabled endpoint under its own organization and role, on the control lane an edge, with a limit in range. |
| `RelayDelivery.PullListsOldest` | services/link-relay/src/tomato_sentinel_link_relay/core.py:212-225 | Over any run a pull lists as many as the limit allows of the frames that wait for the peer, in order of acceptance and without leaving out one accepted earlier. |
| `RelayDelivery.PullOneGetsEarliest` | services/link-relay/src/tomato_sentinel_link_relay/core.py:212-225 | So a peer that pulls one frame gets the earliest accepted one that waits for it. |
| `RelayDelivery.AcknowledgedExactlyWhen` | services/link-relay/src/tomato_sentinel_link_relay/core.py:227-253 | Over any run an acknowledgement succeeds exactly when a frame with the id waits for a peer that may receive; it settles the earliest such frame and no other. |
| `RelayDelivery.AdmittedExactlyWhen` | services/link-relay/src/tomato_sentinel_link_relay/core.py:146-173 | What is admitted: a schema-valid frame within the lane's sizes and times, with the right digest, from the peer itself to an enabled endpoint of its organization in the other role. |
| `RelayDelivery.PublishAnswers` | services/link-relay/src/tomato_sentinel_link_relay/core.py:187-210 | Under a forgotten id an admitted frame is answered, from the history: sequence replayed, queue full, byte budget full, or its receipt. |
| `RelayDelivery.LaneLimits` | services/link-relay/src/tomato_sentinel_link_relay/control_lane.py:18-25 | The queue, byte and receipt limits of the two lanes. |
| `RelayGuarantees.LimitsAlwaysHold` | services/link-relay/src/tomato_sentinel_link_relay/core.py:187-279 | Byte counters equal their queues and both limits hold in every reachable state, on both lanes. |
| `RelayGuarantees.ReceiptsCoverRecentFrames` | services/link-relay/src/tomato_sentinel_link_relay/core.py:281-291 | The receipt table is duplicate-free, has the keys of its eviction order, and covers exactly the most recent 1024 (control lane: 512) accepted frames. |
| `RelayGuarantees.EqualIdsAreFarApart` | services/link-relay/src/tomato_sentinel_link_relay/core.py:281-291 | Accepted frames with equal ids are more than a whole receipt table apart. |
| `RelayReceipts.AcceptedExactlyWhen` | services/link-relay/src/tomato_sentinel_link_relay/core.py:174-210 | Over any run a publication is accepted if and only if it is admitted, its id is not among the latest 1024 (control lane: 512) accepted ones, its sequence is above the latest accepted one of its source and session, and its destination has room. |
| `RelayReceipts.ForgottenIdRecurs` | services/link-relay/src/tomato_sentinel_link_relay/core.py:281-291 | So an id recurs: once that many other frames were accepted, another frame under it is enqueued beside the earlier one. |
| `RelayWitness.RoundsRun` | services/link-relay/src/tomato_sentinel_link_relay/core.py:146-253 | After one frame and any number of further ones that are published and acknowledged in turn, all of them were accepted in order and only the first is still queued. |
| `RelayWitness.IdDoesRecur` | services/link-relay/src/tomato_sentinel_link_relay/core.py:174-291 | For any admitted frame there is a run, a whole receipt table of such rounds, after which two different frames under one id are queued for the same destination. |
| `RelayReceipts.ReceiptNamesLastTouched` | services/link-relay/src/tomato_sentinel_link_relay/core.py:239-252 | A remembered receipt names the destination and state of the frame last accepted or acknowledged under its id. |
| `RelayReceipts.OwnReceiptExactlyWhen` | services/link-relay/src/tomato_sentinel_link_relay/core.py:239-252 | The receipt of a recent frame names that frame's destination and state if and only if the frame last touched under its id is that frame or agrees with it in both; in any other case the one last touched is acknowledged. |
| `RelayGuarantees.RememberedFrames` | services/link-relay/src/tomato_sentinel_link_relay/core.py:174-186 | While its receipt is remembered, a frame in a text of the same digest gets exactly that receipt, any other text under its id is refused as a reused id, and nothing changes either way. |
| `RelayGuarantees.PulledFramesBelongToPeer` | services/link-relay/src/tomato_sentinel_link_relay/core.py:212-225 | A peer only pulls live accepted frames addressed to it, from an endpoint of its own organization in the other role. |
| `RelayGuarantees.RunKeepsAll` | services/link-relay/src/tomato_sentinel_link_relay/control_lane.py:122-274 | The same step system with the control lane's limits and its device-to-edge rule: all run invariants hold for both lanes. |
| `KeyStore.ChangeAccounts` | packages/device-protocol/src/tomato_sentinel_device_protocol/protocol.py:96-172 | Provisioning, rotating and revoking keep: revision = 1 + retired + revoked, the current key is not retired, and used fingerprints number the keys ever issued. |
| `KeyStore.ChangeEvolves` | services/link-relay/src/tomato_sentinel_link_relay/session_governance.py:138-213 | Every change moves an entry forward: it is unchanged or its revision grew, its old key is retired or it is revoked. |
| `KeyStore.EvolvesTransitive` | services/link-relay/src/tomato_sentinel_link_relay/session_governance.py:138-213 | The same over any number of changes. |
| `KeyStore.TotalKeysSplits` | packages/device-protocol/src/tomato_sentinel_device_protocol/protocol.py:96-156 | The number of keys issued is the sum over the entries. |
| `DeviceProtocol.DeviceRegistry.ProvisionDevice` | packages/device-protocol/src/tomato_sentinel_device_protocol/protocol.py:96-113 | A new device enters at revision 1 with its key, unless the device is known or marked revoked, its key id is invalid, or its secret is too short or was used before. |
| `DeviceProtocol.DeviceRegistry.RotateDeviceKey` | packages/device-protocol/src/tomato_sentinel_device_protocol/protocol.py:119-156 | The replaced key is retired, the revision grows and the new secret counts as used; repeating a done rotation answers the status, and every other request is refused for the first rule it breaks. |
| `DeviceProtocol.DeviceRegistry.RevokeDevice` | packages/device-protocol/src/tomato_sentinel_device_protocol/protocol.py:158-172 | The device is revoked for good and its revision grows once; repeating it changes nothing, a wrong expected key is refused. |
| `DeviceAcceptance.ProvisionedExactlyWhen` | packages/device-protocol/src/tomato_sentinel_device_protocol/protocol.py:96-113 | When a device is provisioned, and that it then has exactly the given key, secret and profile. |
| `DeviceAcceptance.RotatedExactlyWhen` | packages/device-protocol/src/tomato_sentinel_device_protocol/protocol.py:119-156 | When a rotation is answered, and that the new secret is then the current one and the old key retired. |
| `DeviceAcceptance.RevokedExactlyWhen` | packages/device-protocol/src/tomato_sentinel_device_protocol/protocol.py:158-172 | When a revocation is answered, and what it changes. |
| `DeviceProtocol.DeviceMessageVerifier.VerifyMessage` | packages/device-protocol/src/tomato_sentinel_device_protocol/protocol.py:199-270 | Only a genuine, timely message under the current key whose id is not in the window and whose sequence is above the last one is accepted and remembered; a refusal accepts nothing and leaves every window and sequence. |
| `DeviceProtocol.DeviceMessageVerifier.RememberMessage` | packages/device-protocol/src/tomato_sentinel_device_protocol/protocol.py:257-270 | Remembering an id evicts the oldest beyond 1024. |
| `DeviceProtocol.VerifyKeepsWindows` | packages/device-protocol/src/tomato_sentinel_device_protocol/protocol.py:241-270 | The id set and its order stay the same ids, without duplicates, at most 1024. |
| `DeviceAcceptance.AcceptedExactlyWhen` | packages/device-protocol/src/tomato_sentinel_device_protocol/protocol.py:199-270 | Over any run a message is accepted if and only if it is genuine (size, version, schema, live device, current key, tag, time window, payload rules) and new: its id not among the latest 1024 accepted under the key, its sequence above every one accepted under it. |
| `DeviceAcceptance.RefusalsTell` | packages/device-protocol/src/tomato_sentinel_device_protocol/protocol.py:199-256 | Each refusal says what was wrong with the message. |
| `DeviceHistory.NoMessageAcceptedTwice` | packages/device-protocol/src/tomato_sentinel_device_protocol/protocol.py:199-270 | Under any interleaving of provision, rotate, revoke and verify the accepted envelopes are pairwise different and sequences strictly increase per key. |
| `DeviceHistory.RetiredKeysNeverReturn` | packages/device-protocol/src/tomato_sentinel_device_protocol/protocol.py:119-270 | From the moment a key is retired, no run accepts a message of its device under it. |
| `DeviceHistory.RotationRetires` | packages/device-protocol/src/tomato_sentinel_device_protocol/protocol.py:119-156 | A rotation that succeeds retires the key it replaces, so this holds from that call on. |
| `DeviceHistory.RevokedDeviceSilenced` | packages/device-protocol/src/tomato_sentinel_device_protocol/protocol.py:158-172 | After revocation no run accepts anything from that device. |
| `DeviceHistory.WindowIsLatestIds` | packages/device-protocol/src/tomato_sentinel_device_protocol/protocol.py:257-270 | The window is exactly the latest 1024 accepted ids under a key, in order, without duplicates. |
| `DeviceHistory.RegistryAccounts` | packages/device-protocol/src/tomato_sentinel_device_protocol/protocol.py:96-172 | Registry accounting holds over every run. |
| `LinkSessions.LinkCredentialVault.ProvisionCredential` | services/link-relay/src/tomato_sentinel_link_relay/session_governance.py:138-156 | A new route gets a credential at revision 1, unless the route is known or invalid, or the secret is too short or was used before. |
| `LinkSessions.LinkCredentialVault.RotateCredential` | services/link-relay/src/tomato_sentinel_link_relay/session_governance.py:162-198 | The replaced key is retired and the revision grows; repeating a done rotation answers the status; retired key ids, reused or unchanged secrets and a 65th rotation are refused. |
| `LinkSessions.LinkCredentialVault.RevokeCredential` | services/link-relay/src/tomato_sentinel_link_relay/session_governance.py:200-213 | The credential is revoked for good and its revision grows once; repeating it changes nothing. |
| `LinkAcceptance.ProvisionedExactlyWhen` | services/link-relay/src/tomato_sentinel_link_relay/session_governance.py:138-156 | When a credential is provisioned, and that it then has exactly the given key and secret. |
| `LinkAcceptance.RotatedExactlyWhen` | services/link-relay/src/tomato_sentinel_link_relay/session_governance.py:162-198 | When a rotation is answered, and that the new secret is then the current one and the old key retired. |
| `LinkAcceptance.RevokedExactlyWhen` | services/link-relay/src/tomato_sentinel_link_relay/session_governance.py:200-213 | When a revocation is answered, and what it changes. |
| `LinkSessions.LinkSessionAuthority.IssueLease` | services/link-relay/src/tomato_sentinel_link_relay/session_governance.py:317-378 | An equal earlier request gets its session again while that is active; a different one under its id is refused; otherwise a lease with a fresh salt is signed with the current secret and remembered. |
| `LinkSessions.LinkSessionAuthority.AcceptLease` | services/link-relay/src/tomato_sentinel_link_relay/session_governance.py:380-402 | A contract that is in time and carries the right tag yields its session key and is remembered; an equal contract gets the same session again while it is active. |
| `LinkSessions.LinkSessionAuthority.RememberSession` | services/link-relay/src/tomato_sentinel_link_relay/session_governance.py:428-438 | Remembering evicts the oldest record beyond 1024. |
| `LinkAcceptance.IssuedExactlyWhen` | services/link-relay/src/tomato_sentinel_link_relay/session_governance.py:317-378 | A request is served if and only if it asks for 10 to 120 seconds on a live credential and repeats a remembered one whose session runs, or comes under a new id; the lease is then the requested one. |
| `LinkAcceptance.AcceptedExactlyWhen` | services/link-relay/src/tomato_sentinel_link_relay/session_governance.py:380-402 | A contract is accepted if and only if it is well formed, in time, tagged under the current credential, and repeats a remembered one whose session runs, or comes under a new id. |
| `LinkAcceptance.SessionKeyIs` | services/link-relay/src/tomato_sentinel_link_relay/session_governance.py:215-249 | Every session handed out in any run holds the HKDF value of its route's current secret under the lease's salt and identity, with that key id, route and session id, and a contract with the right tag. |
| `LinkAcceptance.EqualKeysExactlyWhen` | services/link-relay/src/tomato_sentinel_link_relay/session_governance.py:224-241 | If HKDF separates its inputs, two sessions of any runs hold equal keys exactly when they agree in salt, lease, session, route, key id, revision and secret; issue and expiry times do not enter. |
| `LinkAcceptance.ChangedCredentialChangesKeys` | services/link-relay/src/tomato_sentinel_link_relay/session_governance.py:162-241 | Then a session from after a successful rotation or revocation never holds the key of one from before. |
| `LinkAcceptance.KeyYieldedExactlyWhen` | services/link-relay/src/tomato_sentinel_link_relay/session_governance.py:281-290 | A session yields its key exactly while it runs and its credential is current. |
| `LinkAcceptance.RecordsAreLatest` | services/link-relay/src/tomato_sentinel_link_relay/session_governance.py:428-438 | Over any run the authority remembers exactly the latest 1024 sessions newly handed out, in order, with their digests. |
| `LinkAcceptance.IssueRefusalsTell` | services/link-relay/src/tomato_sentinel_link_relay/session_governance.py:317-378 | Each refused request says what was wrong. |
| `LinkAcceptance.AcceptRefusalsTell` | services/link-relay/src/tomato_sentinel_link_relay/session_governance.py:380-402 | Each refused contract says what was wrong. |
| `LinkSessions.IssuedLeaseIsAccepted` | services/link-relay/src/tomato_sentinel_link_relay/session_governance.py:317-402 | A peer with the same current credential accepts an issued lease, with the same key, if and only if it arrives within the allowed skew and before its expiry. |
| `LinkSessions.AcceptedLeaseIsAuthentic` | services/link-relay/src/tomato_sentinel_link_relay/session_governance.py:251-271 | Whatever is accepted carries the right tag under the current, unrevoked secret of its route at its current revision. |
| `LinkSessions.OwnLeaseAcceptedIff` | services/link-relay/src/tomato_sentinel_link_relay/session_governance.py:326-402 | In time and with an unchanged credential, an authority accepts a lease it issued itself if and only if nothing is remembered under its id, or an equal contract that is still active. |
| `LinkHistory.OwnLeaseAcceptedOnceForgotten` | services/link-relay/src/tomato_sentinel_link_relay/session_governance.py:326-438 | Over any run that does not reuse the id, such a lease is refused as reused until 1024 others have been remembered since, and accepted with its own session from then on. |
| `LinkWitness.MoreAreIssued` | services/link-relay/src/tomato_sentinel_link_relay/session_governance.py:317-378 | Any number of further requests like a servable one, each under its own id, are all issued and remembered in order. |
| `LinkWitness.OwnLeaseIsForgotten` | services/link-relay/src/tomato_sentinel_link_relay/session_governance.py:326-438 | A run that gets there: an authority refuses its own lease after 1023 such requests and accepts it, with its own session, after 1024. |
| `LinkHistory.KeyYieldedIffUnchanged` | services/link-relay/src/tomato_sentinel_link_relay/session_governance.py:215-249 | A lease that yields a key yields one after any run if and only if its route's credential is exactly what it was, and then the same key. |
| `LinkHistory.ChangedCredentialKillsSessions` | services/link-relay/src/tomato_sentinel_link_relay/session_governance.py:162-290 | After a successful rotate or revoke no earlier session of that route ever yields a key again. |
| `LinkHistory.HandedOutSessions` | services/link-relay/src/tomato_sentinel_link_relay/session_governance.py:317-402 | Every session handed out holds the current key of its route and a revision that is not ahead, so the previous row covers it. |
| `LinkHistory.VaultAccounts` | services/link-relay/src/tomato_sentinel_link_relay/session_governance.py:131-213 | Credential accounting and bounded records over every run. |
| `Pairing.EphemeralPairingParticipant.ReceivePeerHello` | packages/device-protocol/src/tomato_sentinel_device_protocol/ephemeral_pairing.py:154-184 | The first valid hello of the opposite role on the same route fixes peer, transcript and fingerprint; the same hello again gets the same fingerprint, any other is refused. |
| `Pairing.EphemeralPairingParticipant.ConfirmFingerprint` | packages/device-protocol/src/tomato_sentinel_device_protocol/ephemeral_pairing.py:186-217 | Within the window, the fingerprint shown, confirmed at the display, derives the root secret; a mismatch or another source is refused and the ceremony goes on waiting. |
| `Pairing.EphemeralPairingParticipant.ConsumeRootSecret` | packages/device-protocol/src/tomato_sentinel_device_protocol/ephemeral_pairing.py:219-234 | An established ceremony in its window hands key id and root to the sink, which may call the participant back to any depth; a sink that succeeds leaves it consumed without secrets, a failing one leaves what its calls made of it. |
| `Pairing.EphemeralPairingParticipant.CancelCeremony` | packages/device-protocol/src/tomato_sentinel_device_protocol/ephemeral_pairing.py:236-248 | A ceremony that is not over ends as cancelled with the reason and without secrets; one that is over stays as it is. |
| `Pairing.EphemeralPairingParticipant.ExpireNow` | packages/device-protocol/src/tomato_sentinel_device_protocol/ephemeral_pairing.py:250-262 | From the end of the window on, a ceremony that is not over ends as expired without secrets; before that the call is refused. |
| `Pairing.RunsAreReachable` | packages/device-protocol/src/tomato_sentinel_device_protocol/ephemeral_pairing.py:131-262 | In every reachable state, calls from inside sinks included, a root exists exactly when established and the private key exactly while not over; the peer fixes transcript and fingerprint. |
| `Pairing.TimesConsumed` | packages/device-protocol/src/tomato_sentinel_device_protocol/ephemeral_pairing.py:219-234 | Over any run, sinks complete exactly as often as: once if the ceremony ended as consumed, plus once for every consumption that completes although its own sink had completed one. |
| `Pairing.ConsumedOnce` | packages/device-protocol/src/tomato_sentinel_device_protocol/ephemeral_pairing.py:219-234 | So a root secret is taken exactly once if consumed, and never otherwise, in any ceremony whose sinks do not call back to consume. |
| `Pairing.SinkCanConsumeTwice` | packages/device-protocol/src/tomato_sentinel_device_protocol/ephemeral_pairing.py:219-234 | In any established ceremony in its window, a sink that consumes again completes twice. |
| `Pairing.RefusalsChangeNothing` | packages/device-protocol/src/tomato_sentinel_device_protocol/ephemeral_pairing.py:154-262 | A refused call leaves the ceremony as it was, unless it came after the window, which ends it, or its sink failed, which leaves what the sink's own calls made. |
| `Pairing.ConfirmedExactlyWhen` | packages/device-protocol/src/tomato_sentinel_device_protocol/ephemeral_pairing.py:186-217 | A confirmation succeeds if and only if it comes in time from the display with the fingerprint shown, and the keys give a shared secret. |
| `PairingOutcomes.HelloAcceptedExactlyWhen` | packages/device-protocol/src/tomato_sentinel_device_protocol/ephemeral_pairing.py:154-184 | A hello is accepted if and only if it is in time, well formed, of the opposite role in the same ceremony and route, in a window of 30 to 120 seconds, with a valid key not reflected, and no other was accepted before; the answer is the fingerprint of both hellos. |
| `PairingOutcomes.ConfirmationYields` | packages/device-protocol/src/tomato_sentinel_device_protocol/ephemeral_pairing.py:186-217 | A confirmation derives the root from the transcript of both hellos and the shared secret. |
| `PairingOutcomes.ConsumedExactlyWhen` | packages/device-protocol/src/tomato_sentinel_device_protocol/ephemeral_pairing.py:219-234 | A consumption succeeds if and only if the ceremony is established, in its window, and the sink succeeds; the sink gets the key id of the transcript and the root, and no secret is left. |
| `PairingOutcomes.CancelledExactlyWhen` | packages/device-protocol/src/tomato_sentinel_device_protocol/ephemeral_pairing.py:236-248 | When a cancellation is answered, and what it changes. |
| `PairingOutcomes.ExpiredExactlyWhen` | packages/device-protocol/src/tomato_sentinel_device_protocol/ephemeral_pairing.py:250-262 | When an expiry is answered, and what it changes. |
| `PairingOutcomes.HelloRefusalsTell` | packages/device-protocol/src/tomato_sentinel_device_protocol/ephemeral_pairing.py:154-184 | Each refused hello says what was wrong. |
| `PairingOutcomes.ConfirmRefusalsTell` | packages/device-protocol/src/tomato_sentinel_device_protocol/ephemeral_pairing.py:186-217 | Each refused confirmation says what was wrong. |
| `Pairing.TerminalAbsorbs` | packages/device-protocol/src/tomato_sentinel_device_protocol/ephemeral_pairing.py:302-323 | From any state, once a terminal state is reached between calls no later call changes anything. |
| `Pairing.SinkEndsCeremony` | packages/device-protocol/src/tomato_sentinel_device_protocol/ephemeral_pairing.py:219-234 | If a sink ends the ceremony itself, the end it made stays exactly when the sink then fails or that end was a consumption; a sink that succeeds always leaves it consumed. |
| `Pairing.PeersAgree` | packages/device-protocol/src/tomato_sentinel_device_protocol/ephemeral_pairing.py:154-217 | Peers holding each other's hello compute the same transcript hash and fingerprint and, once both confirmed, the same root (given symmetric key exchange, section 6.1 of RFC 7748). |
| `Pairing.ConsumedSecretsAgree` | packages/device-protocol/src/tomato_sentinel_device_protocol/ephemeral_pairing.py:219-234 | Both sinks receive the same key id and root, whatever they call back. |
| `Pairing.EqualFingerprintsMeanSamePeers` | packages/device-protocol/src/tomato_sentinel_device_protocol/ephemeral_pairing.py:326-345 | If fingerprints tell transcripts apart, equal fingerprints mean each side really holds the other's hello. |
| `Pairing.OwnWindowIsValid` | packages/device-protocol/src/tomato_sentinel_device_protocol/ephemeral_pairing.py:105-152 | A participant's own hello has a window its peer finds valid, although it is cut to whole seconds. |
| `Pairing.HonestHellosAccepted` | packages/device-protocol/src/tomato_sentinel_device_protocol/ephemeral_pairing.py:154-184 | While both windows are open, fresh participants of opposite roles on one route accept each other and show the same fingerprint. |
| `Policy.ToolRegistry.RegisterTool` | packages/policy-engine/src/tomato_sentinel_policy/registry.py:16-50 | A manifest is added unless it breaks a rule for its risk class or its id and version are taken; a refusal changes nothing. |
| `Policy.ReachableToolsWellFormed` | packages/policy-engine/src/tomato_sentinel_policy/registry.py:16-50 | Every reachable registry holds only well-formed, non-R3 tools under their own id and version, and a registered tool is never replaced. |
| `Policy.AllowIff` | packages/policy-engine/src/tomato_sentinel_policy/evaluator.py:20-93 | ALLOW is given exactly to a registered tool's entitled and, where required, confirmed request. |
| `Policy.AllowedByRisk` | packages/policy-engine/src/tomato_sentinel_policy/evaluator.py:20-181 | With a reachable registry ALLOW implies: not R3; a duration in range for R1 and R2; for R2 also a live covering scope, a live matching confirmation and held roles. |
| `Policy.AllowIsMonotone` | packages/policy-engine/src/tomato_sentinel_policy/evaluator.py:20-181 | ALLOW survives an earlier time and a non-empty selection of the same targets. |
| `Policy.FulfilledObligationAllows` | packages/policy-engine/src/tomato_sentinel_policy/evaluator.py:143-181 | Confirmation is asked for only when nothing else is missing: supplying it turns the decision into ALLOW. |
| `Policy.PhysicalConfirmationSuffices` | packages/policy-engine/src/tomato_sentinel_policy/evaluator.py:143-181 | A demand for physical confirmation means that only the method was wrong. |
| `PolicyDecisions.RegisteredExactlyWhen` | packages/policy-engine/src/tomato_sentinel_policy/registry.py:16-50 | A manifest is registered if and only if it is well formed for its risk class and its id and version are free. |
| `PolicyDecisions.RegistrationRefusalsTell` | packages/policy-engine/src/tomato_sentinel_policy/registry.py:16-50 | Each refused manifest says which rule it breaks. |
| `PolicyDecisions.ProfileChangeExactlyWhen` | packages/policy-engine/src/tomato_sentinel_policy/evaluator.py:20-60 | A profile change is asked for exactly when tool, organizations and device are in order and the profile is not. |
| `PolicyDecisions.ScopeExactlyWhen` | packages/policy-engine/src/tomato_sentinel_policy/evaluator.py:96-140 | A scope is asked for exactly by a qualified request without one to a tool that needs one. |
| `PolicyDecisions.ConfirmationExactlyWhen` | packages/policy-engine/src/tomato_sentinel_policy/evaluator.py:143-181 | Confirmation is asked for exactly by an entitled request without one, of exactly its plan; physical confirmation exactly when only the method was wrong. |
| `PolicyDecisions.AllowCarries` | packages/policy-engine/src/tomato_sentinel_policy/evaluator.py:20-93 | ALLOW carries exactly the tool's limits. |
| `PolicyDecisions.DenialsTell` | packages/policy-engine/src/tomato_sentinel_policy/evaluator.py:20-181 | Each denial says what was wrong. |
| `Experiments.ExperimentEngine.StartExperiment` | packages/experiment-engine/src/tomato_sentinel_experiments/engine.py:172-233 | A known experiment is returned, or refused if its plan differs; a new one is recorded as validated and then denied, failed without executor, or running, with one audit record per state entered. |
| `Experiments.ExperimentEngine.AdvanceExperiment` | packages/experiment-engine/src/tomato_sentinel_experiments/engine.py:235-269 | A step stores progress and completes with a valid result; a step out of bounds, a missing or invalid result, or a failing executor ends the experiment as failed, with the progress if that was already stored; an unexpected exception is let through, after the progress if that was stored. |
| `Experiments.ExperimentEngine.CancelExperiment` | packages/experiment-engine/src/tomato_sentinel_experiments/engine.py:271-287 | An experiment that is not over ends as cancelled without session and is recorded; one that is over is returned as it is; if its session raises while cancelling, nothing changes. |
| `Experiments.RunSound` | packages/experiment-engine/src/tomato_sentinel_experiments/engine.py:153-362 | Over every run each job has a legal trail, and a session exactly while running. |
| `Experiments.RunningOnlyIfAllowed` | packages/experiment-engine/src/tomato_sentinel_experiments/engine.py:172-233 | An experiment is RUNNING or COMPLETED only through an ALLOW at its start under a scope outliving its duration. |
| `Experiments.StartedR2WasConfirmed` | packages/experiment-engine/src/tomato_sentinel_experiments/engine.py:295-332 | A running or completed R2 experiment had a live covering scope and a live confirmation of exactly its plan. |
| `Experiments.AuditIsComplete` | packages/experiment-engine/src/tomato_sentinel_experiments/engine.py:334-362 | The audit is numbered without gaps and leaves every experiment one of eight legal trails, ending in its state. |
| `ExperimentFates.StartedExactlyWhen` | packages/experiment-engine/src/tomato_sentinel_experiments/engine.py:172-233 | A new experiment leaves nothing if its context does not fit its plan, and otherwise is denied unless allowed, fails without executor, stays authorized without session, or runs. |
| `ExperimentFates.AllowedExactlyWhen` | packages/experiment-engine/src/tomato_sentinel_experiments/engine.py:188-207 | What policy asks of an experiment: its module with profile, roles, at most 16 targets and duration, a trusted device in one organization, the grant or scope it needs, and its confirmation of this plan. |
| `ExperimentFates.StartRefusalsTell` | packages/experiment-engine/src/tomato_sentinel_experiments/engine.py:295-332 | Each refused start says what was wrong. |
| `ExperimentFates.EndsExactlyWhen` | packages/experiment-engine/src/tomato_sentinel_experiments/engine.py:235-287 | Over any run, an experiment that was run is completed if and only if its last step was complete, in bounds and with a valid result; failed if and only if its last step was out of bounds, raised, or complete without one; cancelled if and only if it was cancelled; and otherwise runs, with the progress stored last. |
| `ExperimentFates.RunFate` | packages/experiment-engine/src/tomato_sentinel_experiments/engine.py:172-287 | The same for every experiment, failures without executor included. |
| `ExperimentFates.Answers` | packages/experiment-engine/src/tomato_sentinel_experiments/engine.py:235-287 | What advancing and cancelling answer. |
| `ExperimentFates.AuditTells` | packages/experiment-engine/src/tomato_sentinel_experiments/engine.py:334-362 | A call only appends audit records of its own time, experiment and plan. |
| `Jobs.MonitoringJob.MoveTo` | services/orchestrator/src/tomato_sentinel_orchestrator/state_machine.py:77-103 | A transition is refused for exactly the illegal moves and backward times, otherwise appended. |
| `Jobs.MonitoringJob.RecordFrame` | services/orchestrator/src/tomato_sentinel_orchestrator/state_machine.py:105-110 | Frames are counted only while running; the 301st is counted and refused. |
| `Jobs.MonitoringJob.AddEvent` | services/orchestrator/src/tomato_sentinel_orchestrator/state_machine.py:112-118 | A job takes one event and no more. |
| `Jobs.MoveIsLegal` | services/orchestrator/src/tomato_sentinel_orchestrator/state_machine.py:77-103 | A transition that is not refused keeps the log a legal chain. |
| `Jobs.RefusedExactlyWhen` | services/orchestrator/src/tomato_sentinel_orchestrator/state_machine.py:8-103 | The allowed moves of both kinds of jobs, and which refusal any other move or backward time gets. |
| `Jobs.StartedLogTells` | services/orchestrator/src/tomato_sentinel_orchestrator/monitoring_service.py:205-236 | The four entries of the log of a started job. |
| `Jobs.LegalLogOrdered` | services/orchestrator/src/tomato_sentinel_orchestrator/state_machine.py:77-103 | A legal log has at most five entries and never goes back in time, over any distance. |
| `Jobs.TerminalRefusesAll` | services/orchestrator/src/tomato_sentinel_orchestrator/state_machine.py:8-21 | No transition leaves a terminal state. |
| `Detection.TemporalPersonConfirmer.ObserveFrame` | services/orchestrator/src/tomato_sentinel_orchestrator/detection.py:27-70 | Observing updates run and emission memory, and answers, as specified. |
| `Detection.EventExactlyAtFirstConfirmation` | services/orchestrator/src/tomato_sentinel_orchestrator/detection.py:27-70 | Whatever jobs are interleaved, an event is given exactly when the job's own frames end their first run of `minimum_frames` at or above the threshold, and it describes that run. |
| `Detection.AtMostOneEvent` | services/orchestrator/src/tomato_sentinel_orchestrator/detection.py:31-32 | A job is reported at most once. |
| `Detection.LowestIsMinimum` | services/orchestrator/src/tomato_sentinel_orchestrator/detection.py:58-62 | The reported confidence is one of the run's and none is lower. |
| `Detection.EventTells` | services/orchestrator/src/tomato_sentinel_orchestrator/detection.py:27-70 | An event is given exactly at the first position where the last `minimum_frames` frames all reach the threshold; it names and times the first and last of them and reports their number and lowest confidence. |
| `MonitoringService.InMemoryFrameSource.TakeFrame` | services/orchestrator/src/tomato_sentinel_orchestrator/monitoring_adapters.py:76-83 | The next frame and the moved cursor, or nothing once cancelled or exhausted. |
| `MonitoringService.InMemoryFrameSource.StartWorker` | services/orchestrator/src/tomato_sentinel_orchestrator/monitoring_adapters.py:67-74 | A frame limit outside 1 to 300 and a second worker for a job are refused; otherwise the worker gets the camera's frames up to the limit. |
| `MonitoringService.InMemoryEventSink.Append` | services/orchestrator/src/tomato_sentinel_orchestrator/monitoring_adapters.py:98-105 | Stored once; a different event under the same id is an error. |
| `MonitoringService.InMemoryNotificationSink.DeliverTo` | services/orchestrator/src/tomato_sentinel_orchestrator/monitoring_adapters.py:117-142 | Delivered once per event, recipient and channel; the answer tells the first delivery from an identical repeat. |
| `Audit.InMemoryAuditSink.Append` | services/orchestrator/src/tomato_sentinel_orchestrator/adapters.py:56-63 | Stored once; a repeat is told apart, a different record under the same id is an error. |
| `MonitoringService.InMemoryCameraRepository.ResolveOwnedCameras` | services/orchestrator/src/tomato_sentinel_orchestrator/adapters.py:27-45 | All the cameras named, or nothing unless every one exists and belongs to the organization. |
| `MonitoringService.Service.StartJob` | services/orchestrator/src/tomato_sentinel_orchestrator/monitoring_service.py:101-240 | A command seen before gets its job's state or its denial again; a new one is denied for the first check it fails, with an audit record, or gets a frame worker and a running job. |
| `MonitoringService.Service.AdvanceJob` | services/orchestrator/src/tomato_sentinel_orchestrator/monitoring_service.py:242-271 | A running job completes at its deadline or without frames; otherwise the next frame is counted and observed, and a first confirmed run is announced and sent to all sinks. |
| `MonitoringService.Service.RunJobToCompletion` | services/orchestrator/src/tomato_sentinel_orchestrator/monitoring_service.py:273-284 | The bounded loop computes the specified driver. |
| `MonitoringService.Service.CancelJob` | services/orchestrator/src/tomato_sentinel_orchestrator/monitoring_service.py:286-316 | A job that is not over has its frames stopped and ends as cancelled, with an audit record; one that is over is answered as it is. |
| `MonitoringService.Service.PublishEvent` | services/orchestrator/src/tomato_sentinel_orchestrator/monitoring_service.py:318-338 | From outside, publishing changes nothing: an unbound event or wrong recipient is refused, and a published one is answered as already there. |
| `MonitoringInvariants.StartKeeps` | services/orchestrator/src/tomato_sentinel_orchestrator/monitoring_service.py:101-240 | Starting keeps the service invariant; neither a second frame worker nor an audit collision can occur. |
| `MonitoringInvariants.FinishKeeps` | services/orchestrator/src/tomato_sentinel_orchestrator/monitoring_service.py:369-412 | Ending a running job succeeds, with its audit record, unless time moved backwards, and then changes nothing. |
| `MonitoringInvariants.PublishNew` | services/orchestrator/src/tomato_sentinel_orchestrator/monitoring_service.py:318-338 | A newly confirmed event reaches the event sink and both notification sinks. |
| `MonitoringInvariants.PublishAgain` | services/orchestrator/src/tomato_sentinel_orchestrator/monitoring_service.py:318-338 | Publishing again is refused as unbound or answered as already there, and changes nothing. |
| `MonitoringHistory.ProcessFrameSucceeds` | services/orchestrator/src/tomato_sentinel_orchestrator/monitoring_service.py:262-271 | Processing a frame never raises: no frame limit, no unbound event, no identifier collision. |
| `MonitoringHistory.CancelKeeps` | services/orchestrator/src/tomato_sentinel_orchestrator/monitoring_service.py:286-316 | Cancelling a running job in time ends it; an ended job keeps its state; only backward time is refused, and then only the frame worker has been stopped. |
| `MonitoringHistory.RefusedCancelEndsFrames` | services/orchestrator/src/tomato_sentinel_orchestrator/monitoring_service.py:242-316 | After such a refused cancellation the next advance in time completes the job as exhausted, or elapsed from the deadline on, however many frames were left. |
| `MonitoringHistory.RunToCompletionEnds` | services/orchestrator/src/tomato_sentinel_orchestrator/monitoring_service.py:273-284 | Within 301 advances every accessible job is over, refused if and only if it was running and time moved backwards; the driver's guard and the frame limit are unreachable. |
| `MonitoringEvents.EventIffConfirmed` | services/orchestrator/src/tomato_sentinel_orchestrator/monitoring_service.py:242-271 | Over any run a job has announced an event exactly when its processed frames contain a confirmed run, and the event describes the first one. |
| `MonitoringEvents.DeliveriesAreExact` | services/orchestrator/src/tomato_sentinel_orchestrator/monitoring_service.py:318-338 | Over any run: equally many events, push and inbox deliveries, and one of each per event to its job's actor. |
| `MonitoringEvents.AuditIsExact` | services/orchestrator/src/tomato_sentinel_orchestrator/monitoring_service.py:369-448 | Over any run a command has an audit record, with its key and how it ended, if and only if it was denied or its job is over, and there are no other records. |
| `MonitoringEvents.CompletedRunReports` | services/orchestrator/src/tomato_sentinel_orchestrator/monitoring_service.py:273-284 | A driven job announces an event exactly when its frames up to the deadline contain a confirmed run, all of them counted. |
| `MonitoringEvents.EveryJobWasAllowed` | services/orchestrator/src/tomato_sentinel_orchestrator/monitoring_service.py:101-240 | Every job of every run was started by a timely call, in its own context, for an online camera, with every target owned by its organization, that policy allowed; it keeps that call's actor, device and deadline. |
| `MonitoringAdmission.StartedExactlyWhen` | services/orchestrator/src/tomato_sentinel_orchestrator/monitoring_service.py:101-240 | Over any run a supported command seen before is recalled, or refused for another hash; a new one gets exactly one running job for its first camera if it is timely, in its own context, for owned cameras, the first online, and allowed; otherwise a denial and no job. |
| `MonitoringAdmission.AllowedExactlyWhen` | services/orchestrator/src/tomato_sentinel_orchestrator/monitoring_service.py:172-200 | What policy asks of a monitoring command: the tool with profile, roles, capabilities, targets and duration, a trusted device of the actor's organization, and for a tool by grant a live grant of every target. |
| `MonitoringAdmission.CommandsSeen` | services/orchestrator/src/tomato_sentinel_orchestrator/monitoring_service.py:112-130 | The service remembers exactly the supported commands it has seen, with the hash that came first. |
| `MonitoringAdmission.DenialsTell` | services/orchestrator/src/tomato_sentinel_orchestrator/monitoring_service.py:131-200 | Each denial says what was wrong. |
| `MonitoringAdmission.AdvanceExactly` | services/orchestrator/src/tomato_sentinel_orchestrator/monitoring_service.py:242-271 | A timely advance ends a running job as elapsed from the deadline on, as exhausted without frames, as elapsed at a frame from after the deadline, and otherwise counts the next frame. |
| `MonitoringAdmission.CancellationRecorded` | services/orchestrator/src/tomato_sentinel_orchestrator/monitoring_service.py:286-316 | A timely cancellation leaves exactly one record, under the job's key and of that moment. |
| `MonitoringAdmission.CompletionRecorded` | services/orchestrator/src/tomato_sentinel_orchestrator/monitoring_service.py:369-412 | So does a completion, for whatever reason. |
| `MonitoringAdmission.DenialRecorded` | services/orchestrator/src/tomato_sentinel_orchestrator/monitoring_service.py:414-448 | And a denial, with its decision and reason. |
| `Discovery.ScanFixture` | services/orchestrator/src/tomato_sentinel_orchestrator/discovery.py:122-173 | The scan admits exactly the fixtures of a well-formed scope with at most 128 distinct valid candidates of it. |
| `Discovery.StartSound` | services/orchestrator/src/tomato_sentinel_orchestrator/discovery.py:370-517 | A started job was allowed by policy within a scope that outlives it, and reads the first fixture candidates of its own organization, network and interface. |
| `Discovery.AdvanceKeeps` | services/orchestrator/src/tomato_sentinel_orchestrator/discovery.py:519-538 | An advance lists the next candidate, which is never a duplicate, of another organization or beyond the limit; otherwise it completes the job. |
| `Discovery.CancelKeeps` | services/orchestrator/src/tomato_sentinel_orchestrator/discovery.py:562-586 | Cancelling in time ends a running job; an ended one keeps its state; a refused cancellation has only stopped the worker. |
| `Discovery.RefusedCancelEndsListing` | services/orchestrator/src/tomato_sentinel_orchestrator/discovery.py:519-586 | After such a refused cancellation the next advance in time completes the job without listing another candidate. |
| `Discovery.RunToCompletionEnds` | services/orchestrator/src/tomato_sentinel_orchestrator/discovery.py:540-560 | CANDIDATE_LIMIT_GUARD is unreachable: a running job completes if and only if its last advance is not before its last transition. |
| `Discovery.FreshRunListsFixture` | services/orchestrator/src/tomato_sentinel_orchestrator/discovery.py:370-560 | A job started and driven at one time completes with exactly its fixture candidates, in order, up to its limit. |
| `Discovery.RunsStayBounded` | services/orchestrator/src/tomato_sentinel_orchestrator/discovery.py:214-328 | Over any run the log is a legal chain of at most five ordered transitions and the listed candidates are distinct, the organization's own, and within the limit. |
| `DiscoveryAdmission.StartsExactlyWhen` | services/orchestrator/src/tomato_sentinel_orchestrator/discovery.py:370-517 | A job starts if and only if its command is timely, in its own context, allowed, within a scope that outlives it, and for 1 to 128 candidates of a fixture; it then runs over the first of them. |
| `DiscoveryAdmission.AllowedExactlyWhen` | services/orchestrator/src/tomato_sentinel_orchestrator/discovery.py:419-446 | What policy asks of a discovery command, scope included. |
| `DiscoveryAdmission.RefusalsTell` | services/orchestrator/src/tomato_sentinel_orchestrator/discovery.py:370-480 | Each refusal to start says what was wrong. |
| `DiscoveryAdmission.StartedExactlyWhen` | services/orchestrator/src/tomato_sentinel_orchestrator/discovery.py:370-517 | Over any run a command decided before is recalled, or refused for another hash; a new one gets exactly one running job if it is admissible, and otherwise none. |
| `DiscoveryAdmission.CommandsSeen` | services/orchestrator/src/tomato_sentinel_orchestrator/discovery.py:383-394 | The service remembers exactly the commands it has decided, with the hash that came first. |
| `DiscoveryAdmission.EndRecorded` | services/orchestrator/src/tomato_sentinel_orchestrator/discovery.py:660-680 | A call that ends a job leaves one record of that moment under its key, with the reason of the end; any other leaves none. |
| `DiscoveryAdmission.ResultTable` | services/orchestrator/src/tomato_sentinel_orchestrator/discovery.py:606-636 | Which result is recorded for which end. |
| `DiscoveryAdmission.DenialRecorded` | services/orchestrator/src/tomato_sentinel_orchestrator/discovery.py:682-716 | A denial is recorded with its decision and reason. |
| `DiscoveryService.DiscoveryWorker.TakeCandidate` | services/orchestrator/src/tomato_sentinel_orchestrator/discovery.py:200-207 | The next candidate and the moved cursor, or nothing once cancelled or exhausted. |
| `DiscoveryService.DiscoveryJob.Add` | services/orchestrator/src/tomato_sentinel_orchestrator/discovery.py:265-273 | A job that is not running refuses; otherwise a candidate is listed unless it is known or the limit is reached. |
| `DiscoveryService.DiscoveryJob.MoveTo` | services/orchestrator/src/tomato_sentinel_orchestrator/discovery.py:275-302 | A transition is refused for exactly the illegal moves and backward times, otherwise appended. |
| `DiscoveryService.PassiveDiscoveryService.StartJob` | services/orchestrator/src/tomato_sentinel_orchestrator/discovery.py:370-517 | A command seen before gets its job's state or its denial again; a new one is denied for the first check it fails, with an audit record, or gets a worker and a running job, or raises without changing anything. |
| `DiscoveryService.PassiveDiscoveryService.AdvanceDiscovery` | services/orchestrator/src/tomato_sentinel_orchestrator/discovery.py:519-538 | A running job completes at its deadline or when the fixture is exhausted, fails on a candidate of another organization, and else lists the next candidate; an end is recorded in the audit trail. |
| `DiscoveryService.PassiveDiscoveryService.RunDiscovery` | services/orchestrator/src/tomato_sentinel_orchestrator/discovery.py:540-560 | The bounded loop, one millisecond apart, computes the specified driver and its guard, audit records included. |
| `DiscoveryService.PassiveDiscoveryService.CancelDiscovery` | services/orchestrator/src/tomato_sentinel_orchestrator/discovery.py:562-586 | A job that is not over has its worker stopped and ends as cancelled, with an audit record; one that is over is answered as it is. |
| `DiscoveryCommands.StartKeeps` | services/orchestrator/src/tomato_sentinel_orchestrator/discovery.py:370-517 | Starting keeps the invariant of the service; neither a second worker nor an audit collision can occur. |
| `DiscoveryCommands.ConcludeKeeps` | services/orchestrator/src/tomato_sentinel_orchestrator/discovery.py:606-680 | Whatever a call makes of a job, its end is recorded once and without collision, the answer is the job's, and no other job changes. |
| `DiscoveryCommands.RunJobKeeps` | services/orchestrator/src/tomato_sentinel_orchestrator/discovery.py:540-560 | Driving a job keeps the invariant and answers what driving the job alone answers: no audit collision, and the guard stays unreachable. |
| `DiscoveryCommands.DiscoveryAuditIsExact` | services/orchestrator/src/tomato_sentinel_orchestrator/discovery.py:660-716 | Over any run of all jobs a command has an audit record, telling how it ended, if and only if it was denied or its job is over, failed jobs included, and there are no other records. |
| `DiscoveryCommands.EveryJobIsGood` | services/orchestrator/src/tomato_sentinel_orchestrator/discovery.py:345-716 | Over any run every job, whatever the others do, keeps a legal log and distinct, own candidates within its limit, under its own id and command. |

## Left out

- SHA-256, HMAC, HKDF, AES-GCM and X25519 internals, including the firmware's Mbed TLS wrapper: function parameters with stated assumptions.
- JSON encoding and schemas, base64, identifier syntax, timestamp texts: messages arrive as validated records with the outcome of those checks as fields; commands of monitoring and discovery arrive after schema validation.
- The float ratios of the channel result: the integer counters they divide are proved instead.
- Frame views aliasing the decoder's buffer in the firmware: a decoded payload is a value.
- Erasure of secrets as memory hygiene, constant-time comparison, redacted representations: not functional behaviour.
- Executors and their sessions in the experiment engine: what a call to one returned or raised is an input.
- Jobs inside the monitoring and discovery services are values in their maps; the job objects themselves are `Jobs.MonitoringJob` and `DiscoveryService.DiscoveryJob`, proved against the same functions.
- The parts of an audit record, notification or outcome that are copied without being looked at again (versions, titles, hashes of parameters, the reason codes of experiments).
- `link_client.py`, `audio.py`, `lab_dashboard.py`, `asset_inventory.py`, `command_composer.py`, `service.py`, the gateways and `SafeBootGuard.h`: connection states, field checks and views that no property proved here depends on.
- WebSocket and TLS adapters, consoles, display, keyboard and flash access: input and output.
