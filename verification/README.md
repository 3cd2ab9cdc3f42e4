# Verified models of the SC6F0 media tools

Dafny models of the parts of the repository that hold state machines, parsers and
arithmetic of their own, with proofs about every input and every run. Libraries the
program calls (qcap, DRM, ALSA, zstreamer, DAU) appear only as arbitrary answers: a
device script, a flag, an identifier handed out by the kernel.

| module | what it models |
|---|---|
| `PcmQueue` | the bounded PCM queue between audio callbacks and a non-blocking device |
| `SdiResync` | the debounced, rate-limited watchdog that resets the SDI output |
| `AnnexB` | scanning H.264 byte streams for NAL units, and the avcC record |
| `DecodeFixture` | splitting a file into access units and pushing them through a decoder |
| `TxParameterSets` | the transmitter's SPS/PPS cache and keyframe prepending |
| `DecoderAdmission` | packets, initialization threads and format observers around one decoder |
| `Modeset` | the transactional display modeset and its ledger of kernel resources |
| `Arbitration` | the choice between the Dante overlay and the VCU decoder on one display |
| `Letterbox` | the aspect-preserving destination rectangle |
| `TickScheduler` | the drift-bounded tick scheduler, in both its implementations |
| `TickStats` | one-pass statistics of wrapping tick counters and their sampling loop |
| `Numerals` | overflow-checked numeral parsing |

The style is the same throughout. A transition function says what one operation does
and `Run` what a sequence of events does; lemmas state what holds after every run.
Where the program updates state in place there is a class or a loop, and its methods
are proved to make exactly those transitions. A lemma carries `{:induction false}` where
its proof is its own recursion or where Dafny would otherwise start an induction by itself.
`dafny verify dfyconfig.toml` checks everything.

Findings about the program, each stated exactly:

- The hexadecimal parser shifts its limit by five bits instead of four, so it refuses
  every value from half the range less sixteen on (`Numerals.WhichValuesParse`,
  `Numerals.HexRefusesFittingValue`).
- The transmitter starts its search for the end of a NAL unit one byte late, so it does not
  see a three-byte start code directly behind another one that it did see. Parameter sets
  hidden like this are not cached, and the next keyframe is sent without them
  (`TxParameterSets.SeesExactlyFound`, `TxParameterSets.HiddenSetIsNotCached`).
- That search also stops three bytes early, so a parameter set at the end of an access unit
  is cached without its last bytes (`TxParameterSets.CachedUnitExact`,
  `TxParameterSets.CacheIsExact`, `TxParameterSets.LastSetIsTruncated`); and an access unit
  ending in a bare four-byte start code that is not hidden makes the transmitter read behind
  the buffer (`TxParameterSets.ReadsStayInside`).
- The keyframe that opens a new decoder's gate may be lost in the packet pool, after which
  the first packet the decoder takes is a delta frame (`DecoderAdmission.DeltaFirstExactly`,
  `DecoderAdmission.FirstPacketCanBeDelta`).
- On SDI a modeset can report failure although it was committed, and one that is refused over
  a running picture leaves that picture without its audio. The loop gets there by a report of
  a format outside its contract, and then accepts reports of the right format without
  bringing the audio back (`Modeset.FailureIsTransactional`,
  `Modeset.FailureCanFollowCommit`, `Modeset.RefusedCommitSilences`,
  `Arbitration.AudioAfterReport`, `Arbitration.SilencedPictureStaysSilent`).
- The modeset meant to darken the overlay when the connector is unplugged is refused as long
  as the connector stays unplugged, and darkens it exactly when it commits
  (`Arbitration.UnplugDarkensExactly`).
- While VCU is selected, a report of a format outside the SDI contract still replaces the
  Dante frame on the display that the decoder is using, exactly when its modeset commits
  (`Arbitration.ReportDuringVcu`).
- A clock reading behind the tick scheduler's anchor leaves the anchor ahead of the clock unless
  it is behind by a whole number of ticks, and makes the delay longer than a tick unless,
  besides, a tick is a whole number of microseconds (`TickScheduler.AnchorBoundExact`,
  `TickScheduler.DelayBoundExact`).

## Model

| member | source | states |
|---|---|---|
| `PcmQueue.EveryFrameHasOneFate` | src/tests/sc6f0-dante-rx.cpp:934-983 | Over any run of callbacks, openings and closings with any device: every queued frame is exactly one of pending, taken, dropped on overflow or discarded by closing; the device's bytes are the taken frames in queue order, each once; the counters are the sizes of those groups; at most 7680 frames stay queued |
| `PcmQueue.RunKeepsInv` | src/tests/sc6f0-dante-rx.cpp:900-983 | The invariant behind it holds after every run |
| `PcmQueue.NoLossWithoutOverflow` | src/tests/sc6f0-pcm-write-queue.h:15-28 | After any run, a callback that leaves at most 7680 frames queued drops none |
| `PcmQueue.CountersAreTotals` | src/tests/sc6f0-dante-rx.cpp:962-983 | After any run the public counters are the sums of what the calls counted, an error without recovery counting twice among the playback errors and an overflow once |
| `PcmQueue.UnsupportedAreCounted` | src/tests/sc6f0-dante-rx.cpp:934-960 | Unsupported callbacks of a started sink are counted |
| `PcmQueue.SupportedExactly` | src/tests/sc6f0-dante-rx.cpp:934-960 | Which buffers are played: nonempty, whole frames, at most a second, and 48 kHz stereo S32LE by their metadata if they have any |
| `PcmQueue.StartedExactly` | src/tests/sc6f0-dante-rx.cpp:900-940 | The sink is started exactly from a successful opening to the next closing, and exactly then a supported buffer is queued |
| `PcmQueue.DrainPartitions` | src/tests/sc6f0-pcm-write-queue.h:18-54 | One drain call with any device splits the queue into dropped oldest, delivered and pending frames, whole-frame aligned, at most 7680 left; again plus errors is at most 1 and recovery errors are at most xruns plus suspended, which are at most errors |
| `PcmQueue.RefusalEndsCall` | src/tests/sc6f0-pcm-write-queue.h:41-51 | A write the device refuses or over-reports leaves data and tail flag untouched and is the last of the call |
| `PcmQueue.FullDeviceDrainsChunks` | src/tests/sc6f0-pcm-write-queue.h:29-40 | Against a device that takes every write in full, at most 8 writes leave the frame count modulo 960, or nothing of a lone short tail, so the 16-attempt cap never bites |
| `PcmQueue.DrainExactly` | src/tests/sc6f0-pcm-write-queue.h:18-54 | One call on any whole-frame queue with any device, by its replies and frame counts alone: exactly w writes are asked for and taken; then the queue is empty, or under 960 frames with no short write to follow up, or 16 writes were made, or the next one is refused and counted by its errno; the tail flag is up exactly if the last write taken was short, or none was and it was up before without an overflow; short writes and accepted frames are those of the w replies |
| `PcmQueue.ShortWritesAreFollowedUp` | src/tests/sc6f0-pcm-write-queue.h:29-40 | A device that takes something of every write it is asked for leaves less than a chunk, or the cap of 16 writes was reached |
| `PcmQueue.AttemptsMoveFrames` | src/tests/sc6f0-pcm-write-queue.h:29-52 | The attempts move whole frames from the front of the queue to the device, in order and counted, and touch nothing else |
| `PcmQueue.AttemptsCount` | src/tests/sc6f0-pcm-write-queue.h:41-51 | The attempts add at most one refusal and at most 16 writes, whatever the device answers |
| `PcmQueue.DrainQueue` | src/tests/sc6f0-pcm-write-queue.h:18-54 | The drain loop computes the drain about which the properties above are proved |
| `PcmQueue.TrimQueue` | src/tests/sc6f0-pcm-write-queue.h:23-28 | The overflow trim |
| `PcmQueue.TrimDropsOldest` | src/tests/sc6f0-pcm-write-queue.h:23-28 | The trim drops exactly the oldest frames beyond 7680 and counts them |
| `PcmQueue.WriteOnce` | src/tests/sc6f0-pcm-write-queue.h:30-51 | One turn of the loop, which goes on exactly when there was something to write and the device took it |
| `PcmQueue.RecordRefusal` | src/tests/sc6f0-pcm-write-queue.h:41-51 | The classification of a refused write and its one recovery attempt |
| `PcmQueue.ConvertedSample` | src/tests/sc6f0-dante-rx.cpp:934-983 | Each stored slot's low 24 bits, sign-extended, are the 32-bit input sample divided by 256 and rounded down |
| `PcmQueue.SlotKeepsHighBits` | src/tests/sc6f0-dante-rx.cpp:934-983 | The same for one sample, and its fourth byte is zero |
| `PcmQueue.AppendConverted` | src/tests/sc6f0-dante-rx.cpp:934-983 | The conversion loop appends the converted samples behind the queue |
| `PcmQueue.AudioOutput.constructor` | src/tests/sc6f0-dante-rx.cpp:900-932 | A closed sink |
| `PcmQueue.AudioOutput.Playback` | src/tests/sc6f0-dante-rx.cpp:934-983 | One callback makes exactly the modelled transition and sends exactly the delivered bytes to the device |
| `PcmQueue.AudioOutput.OpenSink` | src/tests/sc6f0-dante-rx.cpp:900-923 | Opening the sink makes exactly the modelled transition |
| `PcmQueue.AudioOutput.CloseSink` | src/tests/sc6f0-dante-rx.cpp:925-932 | Closing it discards what is pending and nothing else |
| `SdiResync.FiresExactlyWhenJustified` | src/tests/sc6f0-sdi-resync-policy.h:36-57 | After any run, a processed sample requests a reset if and only if it ends a run of at least 5 eligible suspect samples, none less than 5000 ms after a reset, neighbours 500 to 1500 ms apart, spanning at least 2000 ms, and the third-last reset is at least 60000 ms old or absent |
| `SdiResync.ProcessedExactly` | src/tests/sc6f0-dante-rx.cpp:2866-2878 | After any run a poll is ignored exactly if the watchdog is latched or the last processed sample is under 500 ms old; a processed one is recorded with its time and whether the output was eligible and the register showed lost alignment at lag 12 |
| `SdiResync.SuspectExactly` | src/tests/sc6f0-sdi-resync-policy.h:24-28 | Suspect means bit 11 set and an upper half of exactly 12 |
| `SdiResync.CoolExactly` | src/tests/sc6f0-sdi-resync-policy.h:42-45 | Over any run a processed sample is in cooldown exactly if some earlier reset lies less than 5000 ms before it |
| `SdiResync.ResetsAreSpread` | src/tests/sc6f0-sdi-resync-policy.h:36-57 | Over any run with any clock, successive resets are at least 7000 ms apart and every third at least 60000 ms |
| `SdiResync.AtMostThreePerWindow` | src/tests/sc6f0-sdi-resync-policy.h:36-57 | At most three resets in any 60000 ms window, wherever it starts |
| `SdiResync.RunKeepsInv` | src/tests/sc6f0-sdi-resync-policy.h:36-57 | Processed samples are at least 500 ms apart and ring slot k mod 3 holds attempt k of the last three, after every run |
| `SdiResync.RecentCountsHistory` | src/tests/sc6f0-sdi-resync-policy.h:48-51 | The ring's count of recent attempts is below three exactly when the third-last reset of the whole history has left the window |
| `SdiResync.CounterCoversRun` | src/tests/sc6f0-sdi-resync-policy.h:39-46 | The sample counter is at least the length of every unbroken run of good samples that ends the log |
| `SdiResync.FailureLatches` | src/tests/sc6f0-dante-rx.cpp:2856-2878 | Once a reset has failed, no continuation of the run changes anything |
| `SdiResync.LatchSetByFailedReset` | src/tests/sc6f0-dante-rx.cpp:2856-2864 | The latch is set by exactly the polls whose reset is requested and fails |
| `SdiResync.Watchdog.constructor` | src/tests/sc6f0-sdi-resync-policy.h:30-34 | The initial policy |
| `SdiResync.Watchdog.Observe` | src/tests/sc6f0-sdi-resync-policy.h:36-57 | The object's update is exactly the transition the run properties are about |
| `SdiResync.Watchdog.PollOnce` | src/tests/sc6f0-dante-rx.cpp:2866-2878 | One poll: ignored while latched or early, otherwise observed, and the reset's outcome recorded |
| `AnnexB.ScanIsExact` | src/tests/sc6f0-allegro2-decode-fixture.cpp:44-66 | For every byte string the scanner's payload offsets are, in increasing order, exactly the positions behind a 00 00 01 that lie inside the data, with the type byte found there |
| `AnnexB.KindIsTypeField` | src/tests/sc6f0-allegro2-decode-fixture.cpp:58-62 | The type is the low five bits of the header byte |
| `AnnexB.ScanFindsOffsets` | src/tests/sc6f0-allegro2-decode-fixture.cpp:44-58 | The skipping scan from any position finds the same offsets as the search that tries every position |
| `AnnexB.OffsetsAreExact` | src/tests/sc6f0-allegro2-decode-fixture.cpp:44-58 | That search lists an offset if and only if 00 00 01 precedes it |
| `AnnexB.NalsTile` | src/tests/sc6f0-allegro2-decode-fixture.cpp:44-66 | Units are ordered and tile the data from the first start code to the end |
| `AnnexB.ScanOfPrint` | src/tests/sc6f0-allegro2-decode-fixture.cpp:44-66 | Round trip: printing any list of well-formed units with any mix of start codes and scanning returns the same list |
| `AnnexB.ScanAnnexB` | src/tests/sc6f0-allegro2-decode-fixture.cpp:44-66 | The scanning loop with the pass that fills in ends and types |
| `AnnexB.MarkStartCodes` | src/tests/sc6f0-allegro2-decode-fixture.cpp:44-58 | Its first loop |
| `AnnexB.HasIdr` | src/tests/sc6f0-dante-rx.cpp:1798-1808 | The receiver's own loop reports an IDR exactly when the scanned units contain one of type 5 |
| `AnnexB.HasKindOnBytes` | src/tests/sc6f0-dante-rx.cpp:1798-1808 | The scan contains a unit of a type exactly when some 00 00 01 is followed by a byte of that type |
| `AnnexB.AvccRoundTrip` | src/tests/sc6f0-allegro2-decode-fixture.cpp:68-100 | A record that is made has version 1, the profile bytes of the SPS and four-byte NAL lengths, and parses back to exactly the first SPS and the first PPS; none is made exactly when one is missing, the SPS is under 4 or the PPS under 1 byte, or either is over 65535 |
| `AnnexB.ParseOfAvcc` | src/tests/sc6f0-allegro2-decode-fixture.cpp:80-99 | Writing and parsing a record are inverse, with the fixed bytes of the record |
| `AnnexB.FirstOfIsFirst` | src/tests/sc6f0-allegro2-decode-fixture.cpp:71-76 | The selected unit is the first of its type, and none is selected only if there is none |
| `AnnexB.MakeAvcc` | src/tests/sc6f0-allegro2-decode-fixture.cpp:68-100 | The whole operation, refusals included |
| `AnnexB.WriteAvcc` | src/tests/sc6f0-allegro2-decode-fixture.cpp:81-99 | The byte-by-byte writer produces the record |
| `DecodeFixture.AusPartitionFile` | src/tests/sc6f0-allegro2-decode-fixture.cpp:182-194 | The access units are nonempty and their concatenation is the file |
| `DecodeFixture.StartsAreDelimiters` | src/tests/sc6f0-allegro2-decode-fixture.cpp:182-189 | A position is the start of an access unit if and only if it is the start of the file or of a scanned unit of type 9 |
| `DecodeFixture.DelimitersOnlyFirst` | src/tests/sc6f0-allegro2-decode-fixture.cpp:182-194 | No access unit contains a delimiter except at its beginning |
| `DecodeFixture.SplitAus` | src/tests/sc6f0-allegro2-decode-fixture.cpp:182-194 | The splitting loops yield the starts and sizes of those units |
| `DecodeFixture.AcceptedIsPrefix` | src/tests/sc6f0-allegro2-decode-fixture.cpp:335-463 | Over any run of ticks and decoder events the decoder accepted a prefix of the units, in order, once each; end-of-stream at most once and only behind all of them; done without failure means all were pushed and at least as many frames popped |
| `DecodeFixture.OutcomeExactly` | src/tests/sc6f0-allegro2-decode-fixture.cpp:335-463 | Over any run: failed exactly if at some tick a unit was refused other than by a time out, end-of-stream was refused, or the drain took five seconds; done exactly if failed or everything was sent and enough frames had come back; one unit pushed for every tick at which everything accepted one; every frame counted |
| `DecodeFixture.StepExactly` | src/tests/sc6f0-allegro2-decode-fixture.cpp:335-430 | One event by what the outside world answered |
| `DecodeFixture.DeadlineFromFlush` | src/tests/sc6f0-allegro2-decode-fixture.cpp:404-413 | The deadline is five seconds after end-of-stream was accepted |
| `DecodeFixture.DecoderSawFile` | src/tests/sc6f0-allegro2-decode-fixture.cpp:335-541 | The accepted bytes are always a prefix of the file, and the verdict on a run that is done passes exactly if nothing failed, the accepted bytes are the whole file, and one frame per unit came back |
| `DecodeFixture.RunKeepsInv` | src/tests/sc6f0-allegro2-decode-fixture.cpp:335-463 | The machine's invariant after every run |
| `DecodeFixture.Fixture.constructor` | src/tests/sc6f0-allegro2-decode-fixture.cpp:182-194 | The machine starts with nothing pushed |
| `DecodeFixture.Fixture.OnTimer` | src/tests/sc6f0-allegro2-decode-fixture.cpp:335-430 | One tick makes exactly the modelled transition, retries and failures included |
| `DecodeFixture.Fixture.Finish` | src/tests/sc6f0-allegro2-decode-fixture.cpp:404-428 | The flush and completion part of a tick |
| `DecodeFixture.Fixture.OnVdecEvent` | src/tests/sc6f0-allegro2-decode-fixture.cpp:435-463 | The pop loop counts the frames popped before the first refusal |
| `TxParameterSets.KeyframesAreDecodable` | src/tests/sc6f0-dante-tx.cpp:1129-1170 | Over any run that stays inside its buffers: what is sent ends in the access unit, and differs from it exactly if it is a keyframe that lacks a set and both sets were announced; what is sent holds both sets under the exhaustive scan if and only if the access unit does, or it is a keyframe and both were announced. Keyframe and announced are stated on the bytes, counting found start codes |
| `TxParameterSets.KeyframesAfterSets` | src/tests/sc6f0-dante-tx.cpp:1129-1170 | By the exhaustive scan alone: if some earlier access unit held both sets and neither it nor the keyframe has a start code directly behind another, the keyframe is sent with both |
| `TxParameterSets.HiddenSetIsNotCached` | src/tests/sc6f0-dante-tx.cpp:1141-1146 | An access unit that holds both sets under the exhaustive scan, after which a keyframe is sent without them |
| `TxParameterSets.SeesExactlyFound` | src/tests/sc6f0-dante-tx.cpp:1134-1157 | For every byte string the transmitter sees a NAL type if and only if a found start code is followed by it |
| `TxParameterSets.FoundAgainstScan` | src/tests/sc6f0-dante-tx.cpp:1134-1157 | What it sees the exhaustive scan finds too, and where no start code stands directly behind another the two agree |
| `TxParameterSets.ScanFindsFound` | src/tests/sc6f0-dante-tx.cpp:1134-1157 | The units of the scan are, in order, exactly those behind found start codes |
| `TxParameterSets.FoundFromIncreases` | src/tests/sc6f0-dante-tx.cpp:1134-1157 | Their positions increase |
| `TxParameterSets.AllFound` | src/tests/sc6f0-dante-tx.cpp:1141-1146 | All start codes with a byte behind them are found if and only if none stands directly behind another |
| `TxParameterSets.CacheHoldsBoth` | src/tests/sc6f0-dante-tx.cpp:1158-1159 | The cache contains both sets once one access unit carried both behind found start codes, and is empty before |
| `TxParameterSets.CachedUnitExact` | src/tests/sc6f0-dante-tx.cpp:1134-1157 | In a unit without empty NAL units the transmitter finds exactly the scanned units, and its copy of one is byte-exact if and only if another follows or it is one byte long |
| `TxParameterSets.CacheIsExact` | src/tests/sc6f0-dante-tx.cpp:1134-1159 | After an access unit that carried both sets and has no empty NAL unit, the cache is exactly its parameter sets if and only if its last unit is not one or is a single byte |
| `TxParameterSets.TxMatchesScan` | src/tests/sc6f0-dante-tx.cpp:1134-1157 | Where no start code with a byte behind it directly follows another and a bare one at the end is hidden, this scanner and the fixture's find the same units from every position |
| `TxParameterSets.LastSetIsTruncated` | src/tests/sc6f0-dante-tx.cpp:1143-1146 | A concrete PPS at the end of a unit that is cut to its first byte |
| `TxParameterSets.ReadsStayInside` | src/tests/sc6f0-dante-tx.cpp:1134-1147 | For every byte string the header reads are the bytes behind found start codes, in order, and the byte behind the buffer exactly if a bare four-byte start code at the end is not hidden; they stay inside if and only if there is none |
| `TxParameterSets.BareStartCodeOverruns` | src/tests/sc6f0-dante-tx.cpp:1134-1147 | The four bytes 00 00 00 01 make it read byte 4 |
| `TxParameterSets.TxScanSound` | src/tests/sc6f0-dante-tx.cpp:1134-1157 | Everything found is nonempty, inside the data, behind a start code and of the type there |
| `TxParameterSets.ScanAccessUnit` | src/tests/sc6f0-dante-tx.cpp:1130-1157 | On every access unit whose reads stay inside, the nested loops gather those units' parameter sets and flags |
| `TxParameterSets.RestIsFolded` | src/tests/sc6f0-dante-tx.cpp:1134-1157 | From every position, what the loop still gathers is what the units scanned from there add, one after the other |
| `TxParameterSets.SearchEnd` | src/tests/sc6f0-dante-tx.cpp:1142-1146 | The inner loop finds the modelled end |
| `TxParameterSets.Transmitter.constructor` | src/tests/sc6f0-dante-tx.cpp:1158-1159 | The cache starts as that of the empty run |
| `TxParameterSets.Transmitter.OnVenc` | src/tests/sc6f0-dante-tx.cpp:1129-1170 | One access unit updates the cache and is sent exactly as modelled |
| `DecoderAdmission.RunKeepsInv` | src/tests/sc6f0-dante-rx.cpp:1120-1267 | The invariant over threads, holder, decoder, configuration and counters, after every interleaving |
| `DecoderAdmission.OneInitialization` | src/tests/sc6f0-dante-rx.cpp:1212-1243 | At most one initialization thread has not exited, the flag is up until its last store, and a joinable thread object is never overwritten |
| `DecoderAdmission.JoinNeverWaits` | src/tests/sc6f0-dante-rx.cpp:1212-1220 | At the join under the mutex every thread is past its last store; the joined one can leave without anybody's help, and then the joining feeder goes on |
| `DecoderAdmission.KeyframeOfferedFirst` | src/tests/sc6f0-dante-rx.cpp:1747-1840 | No decoder instance is offered a packet before it was offered a keyframe |
| `DecoderAdmission.KeyframeTakenFirst` | src/tests/sc6f0-dante-rx.cpp:1120-1164 | If a decoder took the keyframe it was offered first, the first packet it took is a keyframe |
| `DecoderAdmission.DeltaFirstExactly` | src/tests/sc6f0-dante-rx.cpp:1811-1822 | In every reachable idle state with a decoder that has taken nothing, a delta frame pushed next becomes the first packet it takes if and only if the gate is open, which there is exactly when it was offered something |
| `DecoderAdmission.LostKeyframeStartsOnDelta` | src/tests/sc6f0-dante-rx.cpp:1120-1164 | If any instance loses its first keyframe, in whatever way, a following delta frame is the first packet it takes |
| `DecoderAdmission.FirstPacketCanBeDelta` | src/tests/sc6f0-dante-rx.cpp:1747-1840 | For every complete format there is a run from the start that does so |
| `DecoderAdmission.ConfigFrozen` | src/tests/sc6f0-dante-rx.cpp:672-713 | While an initialization is under way or a decoder runs, no step of anybody changes avcC, width or height, and they are those it was scheduled with |
| `DecoderAdmission.PacketsConserved` | src/tests/sc6f0-dante-rx.cpp:1747-1840 | Every packet that entered is counted exactly once as pushed, dropped, waiting or trigger, or is still under way |
| `DecoderAdmission.CountersFromFates` | src/tests/sc6f0-dante-rx.cpp:1120-1164 | Which counter a packet goes to, after any run: pushed are the offers taken; drops are packets turned away with the flag up, for their mark or at a closed gate, and offers not taken, pool drops and push failures by outcome; waiting those that found no decoder and could not start one; triggers those that did |
| `DecoderAdmission.PushedAreTaken` | src/tests/sc6f0-dante-rx.cpp:1157-1164 | Pushed packets are the offers the decoders took over all instances, and there is one initialization thread for every trigger |
| `DecoderAdmission.WaitingSinceScheduled` | src/tests/sc6f0-dante-rx.cpp:1827-1836 | The program's waiting counter counts the packets that found no decoder since an initialization was last scheduled |
| `DecoderAdmission.FormatWasReported` | src/tests/sc6f0-dante-rx.cpp:672-713 | Once there is an avcC, it, width and height are together one report of the parser, and a decoder is never configured from anything else |
| `DecoderAdmission.LatestFormatIsUsed` | src/tests/sc6f0-dante-rx.cpp:1637-1648 | A complete format reported while idle replaces the old one; a session's format only fills in what is not known |
| `DecoderAdmission.FailedInitReopens` | src/tests/sc6f0-dante-rx.cpp:1221-1243 | A failed initialization takes down both flags and leaves no decoder and the format |
| `DecoderAdmission.StopEnds` | src/tests/sc6f0-dante-rx.cpp:1245-1267 | A stop with no packet and no thread under way ends the decoder |
| `Modeset.RunKeepsInv` | src/tests/sc6f0-dante-rx.cpp:2950-3149 | After any sequence of modesets, resets and cleanups with any foreign failures, the live framebuffers, buffers and blobs are exactly the recorded ones, the planes show recorded framebuffers, and the flags agree |
| `Modeset.CleanupLeavesNothing` | src/tests/sc6f0-dante-rx.cpp:3182-3196 | After any run and the cleanup nothing is live, recorded or shown |
| `Modeset.FailureIsTransactional` | src/tests/sc6f0-dante-rx.cpp:3127-3165 | A reported failure leaves everything as it was if and only if the embedder did not refuse after a commit, and the commit was not refused after the embedder's switch had moved; always on outputs without an embedder |
| `Modeset.FailureKeepsPicture` | src/tests/sc6f0-dante-rx.cpp:3127-3165 | Resources, flags and picture are untouched by a failure if and only if it is not the embedder's after a commit; without overlay, or with audio disabled or optional, every failure is without a commit |
| `Modeset.RefusedCommitSilences` | src/tests/sc6f0-dante-rx.cpp:3127-3136 | A concrete SDI picture with embedded audio whose repeated request is refused: the same picture, without audio |
| `Modeset.FailureCanFollowCommit` | src/tests/sc6f0-dante-rx.cpp:3151-3160 | A concrete SDI request that is committed and reported as failed |
| `Modeset.AppliedKeepsLedger` | src/tests/sc6f0-dante-rx.cpp:3013-3149 | One modeset keeps the ledger exact, whatever fails |
| `Modeset.AppliedKeepsFlags` | src/tests/sc6f0-dante-rx.cpp:3141-3150 | One modeset keeps flags, mode, source property and framebuffers in agreement |
| `Modeset.BestIsGreatest` | src/tests/sc6f0-dante-rx.cpp:2973-2993 | The fallback search finds a compatible mode exactly when there is one, and none is greater in area, then refresh rate |
| `Modeset.CommitShowsRightMode` | src/tests/sc6f0-dante-rx.cpp:2950-3150 | Whenever a modeset exchanges the resources, the request was of a possible size, the recorded mode is the exact match if there is one within 594 MHz and 60.5 Hz (and an SDI timing on SDI), otherwise the first of the listed usable modes that none exceeds in area, then refresh; the display is lit and a shown overlay is centred in that mode with the proportions of the request |
| `Modeset.ExchangesExactly` | src/tests/sc6f0-dante-rx.cpp:2950-3136 | When a modeset exchanges the resources, as an if and only if over its request and every foreign answer |
| `Modeset.OverlayAndAudioExactly` | src/tests/sc6f0-dante-rx.cpp:3025-3041 | After an exchange the overlay is on exactly if asked for and granted, and with an obeying switch the embedder is on exactly on SDI with the overlay on and audio not disabled |
| `Modeset.ResetExactly` | src/tests/sc6f0-dante-rx.cpp:2809-2851 | When a reset succeeds, and when it leaves the display dark |
| `Modeset.ResetChecksPass` | src/tests/sc6f0-dante-rx.cpp:2809-2824 | With an active overlay the reset's framebuffer and source checks always pass; only foreign answers can refuse it |
| `Modeset.SearchBest` | src/tests/sc6f0-dante-rx.cpp:2973-2993 | The loop over the modes |
| `Modeset.MakePlan` | src/tests/sc6f0-dante-rx.cpp:2950-3011 | The guards, the choice of mode and the rectangle, with every refusal |
| `Modeset.FitOverlay` | src/tests/sc6f0-dante-rx.cpp:3003-3011 | The second copy of the rectangle code computes the same rectangle as the first |
| `Modeset.Display.constructor` | src/tests/sc6f0-dante-rx.cpp:2691-2706 | An opened device with nothing acquired |
| `Modeset.Display.CreateDumb` | src/tests/sc6f0-dante-rx.cpp:2628-2652 | Buffer and framebuffer, or the ledger unchanged |
| `Modeset.Display.DestroyDumb` | src/tests/sc6f0-dante-rx.cpp:2654-2667 | Exactly the two identifiers leave the ledger, and the plane that showed them goes dark |
| `Modeset.Display.Acquire` | src/tests/sc6f0-dante-rx.cpp:3013-3041 | Blob, primary and overlay are acquired, or nothing is |
| `Modeset.Display.Rollback` | src/tests/sc6f0-dante-rx.cpp:3130-3136 | The releases of the failure paths restore ledger and display |
| `Modeset.Display.SetPassthrough` | src/tests/sc6f0-dante-rx.cpp:811-834 | The embedder's switch is moved, or left where the failure leaves it; other outputs have none |
| `Modeset.Display.Commit` | src/tests/sc6f0-dante-rx.cpp:3127-3165 | The embedder is turned off, then the commit, the rollback or exchange, then the embedder is turned on where audio is wanted |
| `Modeset.Display.Reroute` | src/tests/sc6f0-dante-rx.cpp:836-862 | Selecting an audio route turns the embedder off first |
| `Modeset.Display.Swap` | src/tests/sc6f0-dante-rx.cpp:3138-3150 | The old frame is given back after the commit without touching the new one |
| `Modeset.Display.Apply` | src/tests/sc6f0-dante-rx.cpp:2950-3180 | The stepwise code is the transaction: old exchanged for new, or no resource changed, with the embedder off on every path that reached the commit |
| `Modeset.Display.Close` | src/tests/sc6f0-dante-rx.cpp:3182-3196 | The cleanup is the modelled one |
| `Modeset.Display.Reinitialize` | src/tests/sc6f0-dante-rx.cpp:2809-2851 | The reset gives its blob back on every path and changes at most whether the display is lit |
| `Arbitration.RunKeepsInv` | src/tests/sc6f0-dante-rx.cpp:3272-3367 | Over every run of loop turns, format reports, hot-unplugs and resets: VCU selected implies the Dante overlay inactive, a blocked arbiter neither waits nor shows VCU, and the modeset ledger is exact |
| `Arbitration.ReturnShowsDante` | src/tests/sc6f0-dante-rx.cpp:3666-3692 | After any run, the turn without flow that leaves VCU shows the Dante picture whenever its modeset commits: the last locked format of the run inside the contract, or the configured one under a fixed mode or before any such report, in the right mode, with the overlay exactly if it was granted |
| `Arbitration.AttemptOutcome` | src/tests/sc6f0-dante-rx.cpp:3637-3665 | An attempt selects VCU exactly if the dummy modeset succeeds, the output starts, the flow is still there and the sink starts; otherwise the Dante picture is shown again as above |
| `Arbitration.AttemptsExactly` | src/tests/sc6f0-dante-rx.cpp:3626-3640 | In every flow episode there is at most one attempt, at exactly the first turn with no initialization under way and more frames decoded than at the episode's first turn |
| `Arbitration.VcuIsLeftExactly` | src/tests/sc6f0-dante-rx.cpp:3666-3687 | VCU is left at the first turn without flow and not before |
| `Arbitration.ReportExactly` | src/tests/sc6f0-dante-rx.cpp:3272-3353 | After any run, what a format report does to the display: DUMMY outside the contract; nothing with VCU selected, unlocked under a forced source, or with its picture already shown; otherwise its own modeset, and after the failure of a locked one DUMMY in the current size |
| `Arbitration.EligibleExactly` | src/tests/sc6f0-dante-rx.cpp:2875-2877 | After any run the watchdog is eligible exactly while the Dante overlay is on |
| `Arbitration.SwitchNeedsDecodedFrame` | src/tests/sc6f0-dante-rx.cpp:3626-3665 | Every switch to VCU is preceded by a turn that noticed the flow, with a flow at every turn since and a frame counter greater than it was then |
| `Arbitration.PendingSince` | src/tests/sc6f0-dante-rx.cpp:3628-3636 | While the arbiter waits, some earlier turn noticed the flow with the remembered count and every turn since saw a flow |
| `Arbitration.RetryNeedsFlowLoss` | src/tests/sc6f0-dante-rx.cpp:3626-3665 | Between a failed attempt and any later attempt some turn saw no flow |
| `Arbitration.AudioAfterReport` | src/tests/sc6f0-dante-rx.cpp:3322-3353 | On SDI with required audio, once a locked format is accepted and shown, the embedder is on if and only if it was on before or the fast path was not taken |
| `Arbitration.ReportDuringVcu` | src/tests/sc6f0-dante-rx.cpp:3289-3309 | While VCU is selected a report replaces the Dante frame if and only if the format is rejected and the DUMMY modeset commits; any other report leaves the display alone |
| `Arbitration.SilencedPictureStaysSilent` | src/tests/sc6f0-dante-rx.cpp:3290-3334 | A run: a picture with embedded audio, a report outside the contract whose DUMMY commit is refused, and a report of the right format. After the second the picture is the same without audio, and the third is accepted and changes nothing on the display, whatever is answered |
| `Arbitration.ShutdownLeavesNothing` | src/tests/sc6f0-dante-rx.cpp:3806-3825 | After any run, the last modeset and the cleanup leave no live resource |
| `Arbitration.DummyDarkens` | src/tests/sc6f0-dante-rx.cpp:3149-3149 | A modeset without overlay never turns it on, and has turned it off when it reports success |
| `Arbitration.Arbiter.constructor` | src/tests/sc6f0-dante-rx.cpp:3607-3609 | Dante selected, nothing pending |
| `Arbitration.Arbiter.Arbitrate` | src/tests/sc6f0-dante-rx.cpp:3626-3693 | The loop's arbitration is exactly the modelled turn |
| `Arbitration.Arbiter.Attempt` | src/tests/sc6f0-dante-rx.cpp:3640-3664 | The switch, with its way back, is the modelled one |
| `Arbitration.Arbiter.TakeOver` | src/tests/sc6f0-dante-rx.cpp:3640-3645 | The DUMMY modeset and what the second output's start does to the embedder |
| `Arbitration.Arbiter.Withdraw` | src/tests/sc6f0-dante-rx.cpp:3666-3692 | The return to Dante |
| `Arbitration.Arbiter.RestoreUltra` | src/tests/sc6f0-dante-rx.cpp:3355-3367 | The audio route and then the modeset of the last Ultra format |
| `Arbitration.Arbiter.OnFormat` | src/tests/sc6f0-dante-rx.cpp:3272-3353 | A format report is exactly the modelled transition, with its rejections and fast path |
| `Arbitration.Arbiter.OnDisconnected` | src/tests/sc6f0-dante-rx.cpp:3749-3752 | A hot-unplug asks for the overlay to be darkened and leaves VCU alone |
| `Arbitration.UnplugDarkensExactly` | src/tests/sc6f0-dante-rx.cpp:3749-3752 | A hot-unplug turns a shown Dante overlay off if and only if the modeset it asks for commits, which it never does while the connector is gone; then, and without a shown overlay or with VCU selected, nothing changes |
| `Arbitration.Arbiter.OnResync` | src/tests/sc6f0-dante-rx.cpp:2856-2878 | A watchdog reset, reached only while the Dante overlay is shown |
| `Letterbox.RectFits` | src/tests/sc6f0-dante-rx.cpp:1538-1559 | For all 32-bit sizes where it exists, without any check that says so: even sides inside the output, margins that do not wrap and differ by at most one, one side full up to evenness, the other less than two below the exact length and never above |
| `Letterbox.RectExists` | src/tests/sc6f0-dante-rx.cpp:1540-1557 | It exists exactly when all sizes are positive and both resulting sides reach two |
| `Letterbox.ScaledFits` | src/tests/sc6f0-dante-rx.cpp:1545-1549 | The scaled side never exceeds the output, so storing the 64-bit quotient in 32 bits loses nothing |
| `TickScheduler.DriftBound` | src/zzlab/testkit.h:156-166 | For monotone clocks, after n calls and T ticks the anchor lies in (start + T·D/num − n, start + T·D/num], is never after the clock and trails it by less than a tick and a microsecond |
| `TickScheduler.DelaysBounded` | src/zzlab/testkit.h:156-166 | Every delay of such a run is between zero and floor(D/num) |
| `TickScheduler.DelayIsNextTick` | src/zzlab/testkit.h:156-166 | Ticks are the whole ticks since the anchor, and the delay ends at the next one, rounded down to a microsecond |
| `TickScheduler.AnchorBoundExact` | src/zzlab/testkit.h:156-166 | For every clock reading the anchor ends at or before it if and only if it was not after it, or the clock went back by a whole number of ticks |
| `TickScheduler.DelayBoundExact` | src/zzlab/testkit.h:156-166 | The delay is never negative, and at most one tick if and only if the anchor was not after the clock, or the clock went back by whole ticks and a tick is whole microseconds |
| `TickScheduler.BackwardClocks` | src/zzlab/testkit.h:156-166 | Witnesses with one tick a second: a clock behind the anchor by a microsecond breaks both bounds, by a second neither |
| `TickScheduler.TickControl.Start` | src/zzlab/testkit.h:151-154 | Starts the modelled run |
| `TickScheduler.TickControl.Advance` | src/zzlab/testkit.h:156-166 | Extends the run by one reading and returns its delay |
| `TickScheduler.FpsControl.Start` | src/zzlab/ZzUtils.h:269-273 | Starts the same run, with the numerator frozen |
| `TickScheduler.FpsControl.Advance` | src/zzlab/ZzUtils.h:275-284 | Extends it by one reading and returns its delay |
| `TickScheduler.SameRun` | src/zzlab/ZzUtils.h:262-290 | Both schedulers, started alike, return the same delays on every clock, monotone or not, even where divisions truncate toward zero |
| `TickStats.RunDescribes` | src/utils/zdev-ticks-stat.cpp:36-58 | After any run each counter's deviation sum about its mean, squared deviations, minimum and maximum are by definition those of its rates |
| `TickStats.MeanIsAverage` | src/utils/zdev-ticks-stat.cpp:49-58 | The mean times the number of samples is the sum of the rates |
| `TickStats.RunCounts` | src/utils/zdev-ticks-stat.cpp:264-301 | Samples are counted, elapsed times add up to the run, and the squared deviations are never negative |
| `TickStats.MomentsStep` | src/utils/zdev-ticks-stat.cpp:49-55 | One update turns the mean and squared deviations of a list into those of the list with one more value |
| `TickStats.AddedDescribes` | src/utils/zdev-ticks-stat.cpp:49-58 | The same with minimum and maximum |
| `TickStats.Rate` | src/utils/zdev-ticks-stat.cpp:50-50 | The rate times the elapsed nanoseconds is the ticks times 10^9 |
| `TickStats.TotalsAreExact` | src/utils/zdev-ticks-stat.cpp:269-295 | With fewer than 2^32 ticks between readings, the total is the true advance less what passed in skipped intervals, modulo 2^64, despite wrap-around |
| `TickStats.HonouredSleepsLoseNothing` | src/utils/zdev-ticks-stat.cpp:264-301 | If every reading is at or after its deadline, no interval is skipped and the total is the whole true advance |
| `TickStats.CadenceHolds` | src/utils/zdev-ticks-stat.cpp:297-301 | Then also the next wait is positive and at most one interval, and n samples take at least n intervals |
| `TickStats.OnTimeKeepsGrid` | src/utils/zdev-ticks-stat.cpp:297-301 | Readings less than an interval late keep the deadlines on the grid of the first reading |
| `TickStats.DeadlineAhead` | src/utils/zdev-ticks-stat.cpp:264-301 | On any monotone clock the deadline lies after the last reading |
| `TickStats.Add` | src/utils/zdev-ticks-stat.cpp:49-58 | The update of one entry, field by field |
| `TickStats.AddAll` | src/utils/zdev-ticks-stat.cpp:286-292 | The loop over the counters |
| `TickStats.Sampler.constructor` | src/utils/zdev-ticks-stat.cpp:251-267 | The state before the loop |
| `TickStats.Sampler.Turn` | src/utils/zdev-ticks-stat.cpp:269-301 | One turn of the loop is exactly the modelled step |
| `Numerals.ParseDecimal` | src/zzlab/ZzUtils_string.cpp:15-44 | Succeeds exactly on digit strings whose value fits the width and returns the value; otherwise returns that of the longest fitting prefix |
| `Numerals.RoomIsExact` | src/zzlab/ZzUtils_string.cpp:17-28 | The guard holds exactly when the next value fits, and then the wrapping update yields it |
| `Numerals.DecimalParseExact` | src/zzlab/ZzUtils_string.cpp:15-44 | Taking the longest fitting prefix succeeds exactly on fitting numerals |
| `Numerals.ParseHex` | src/zzlab/ZzUtils_string.cpp:49-82 | Sound: what it returns is the value. Succeeds exactly on hexadecimal strings that are empty or denote less than 16 times the limit |
| `Numerals.HexParseExact` | src/zzlab/ZzUtils_string.cpp:49-82 | The same as a statement about every parse |
| `Numerals.WhichValuesParse` | src/zzlab/ZzUtils_string.cpp:15-82 | The decimal numeral of a value parses exactly when the value fits; the hexadecimal one exactly when it is below 16 times the limit |
| `Numerals.NumeralRoundTrip` | src/zzlab/ZzUtils_string.cpp:15-82 | Every value has a numeral in every base up to 16, and it denotes the value |
| `Numerals.DigitsExactly` | src/zzlab/ZzUtils_string.cpp:46-66 | Which characters are digits, lower and upper case, and their values |
| `Numerals.HexRefusesFittingValue` | src/zzlab/ZzUtils_string.cpp:51-51 | 0x80000000 fits 32 bits and is refused |
| `Numerals.ParseNumber` | src/zzlab/ZzUtils_string.cpp:84-119 | With 0x or 0X hexadecimal, else decimal; a bare prefix fails |

## Left out

- Foreign libraries (qcap, DRM, ALSA, zstreamer, DAU): only their answers appear, and those are arbitrary; destroying a kernel object is taken to succeed.
- Presentation times of audio and video, and logging and statistics printing.
- PcmQueue.DrainQueue: the queue is a value that is passed and returned, not a vector shared under a mutex; the device is a list of answers.
- SdiResync.Watchdog.Observe: times and the attempt count are unbounded naturals, so neither 64-bit time overflow nor 2^32 attempts are modelled; differences of times are exact, which the run invariant shows to be the unsigned ones in every reachable state.
- TxParameterSets.Transmitter.OnVenc: access units on which the program reads behind its buffer are excluded; ReadsStayInside says exactly which.
- TxParameterSets.ScanAccessUnit: the same exclusion.
- TxParameterSets.CacheIsExact: for access units without empty NAL units.
- DecoderAdmission.RunKeepsInv: the protocol is modelled on values, as interleaved atomic steps; memory ordering weaker than sequential consistency is not modelled.
- DecoderAdmission.PacketsConserved: for packets of at least four bytes with decoding enabled; a decoder is stopped with no packet under way, as its callers do.
- DecoderAdmission.KeyframeOfferedFirst: deadlock freedom of the HDMI failure path, which stops event handlers under the mutex, depends on a library and is not modelled.
- Modeset.Display.Apply: the search for a mode that matches exactly (find_matching_mode) is an arbitrary answer; the content of the overlay buffer, the test pattern generator and the mixer are not modelled.
- Arbitration.Arbiter.Attempt: the second output's own DRM resources (start_drm_output) and its sink appear only as success or failure and as an answer of the audio embedder; what this context last committed is not updated when that output takes over the display.
- Arbitration.Arbiter.OnDisconnected: only the processed change to disconnected is an event; the debouncing of uevents is not modelled.
- TickScheduler.TickControl.Advance: integers are unbounded, so products beyond 64 bits are not modelled; division truncates toward zero as in the program.
- TickStats.RunDescribes: floating point is exact real arithmetic; the standard deviation's square root is not modelled.
- TickStats.Sampler.Turn: timestamps do not decrease, as CLOCK_MONOTONIC promises, and do not overflow.
- Numerals.ParseNumber: a string is its characters before the terminating NUL.
- DecodeFixture.SplitAus: the empty file is excluded; the program refuses it before splitting.
- AnnexB.MakeAvcc: takes the list the scanner returned for the same data, as its caller does.
- EDID and SDI capability tables, environment and argument parsing, signal handling, sysfs access, the demos and test programs, the Python and MMIO scripts, colour conversion and the button driver would add only easy members or input and output.
