# Verified models of the uplink, its codecs and four arithmetic and release cores

These Dafny modules model parts of a driving-assistance repository and prove what they are for. A method of a class
computes what the source method computes on fields of its own; its contract ties it to a function on values, and the
lemmas are about whole runs of those functions.

Check everything with `dafny verify dfyconfig.toml`.

## What is modelled

**The uplink (`openpilot/selfdrive/bigmodeld`).** Frames of two cameras are paired by their start times
(`PairMatcher`), numbered in 50 ms slots (`FrameIndexer`), scheduled against two encoders that make a key frame when
asked or 20 frames after the last one (`FrameScheduler`), and tracked through the encoders in a queue of contexts
(`MetaCache`). `Pipeline` is the daemon's glue as a state machine over arrivals, encoder outputs and reports, and
`PipelineLoop` the object that refines it. `Uplink` is the sender: one frame in flight, one queued, a gate that stays
closed until a pair of announced key frames, epochs, stall and reconnect; `UplinkRuns` proves its run properties and
`UplinkSender` is the object over a socket that takes any number of bytes. `HandOver` puts glue and sender together.
`FrameCodec`, `ReplyCodec`, `ReplyPacking` and `MsgFramer` are the BGM1 wire format and its framing. `Wire` holds their
integer fields. `MapTargets` and `NavLinkSession` decide which curve targets
reach the speed controller, and when; `UrgentSearch` says exactly when the search for urgent changes meets its contract.
`DropWindow` is the ring of recent drops that sender and scheduler share.

**The QR encoder (`openpilot/common/qrcode.py`).** `Bits`, `Gf256` and `ReedSolomon` are the arithmetic, `QrData` and
`QrBlocks` the codewords, `QrGeometry` the function patterns, `QrWalk` the zigzag and `QrSymbol` the finished symbol.
The reader in `QrReader` is an independent definition: from the grid of modules alone it takes the version (from the
size and the version areas), level and mask (from the format areas), checks the finder patterns, walks the data modules,
unmasks, de-interleaves and decodes, following ISO/IEC 18004:2015, sections 6.3, 7.4 to 7.10 and Annexes A to D.

**Arithmetic.** `FftGoodSize` is the pruned five-loop search, `Rotation` the quaternion, matrix and Euler conversions
over the reals, `RotationMatrices` the proof that they cover every rotation matrix, `RunningStat` Welford's recurrence
over the reals. Square root, sine and cosine are parameters, known only by the laws stated in `Rotation`. `Options` is
the option type that the modules share.

**Local releases (`tools/release/local_release.py`).** In `LocalRelease` every command, parameter write and save of the
state file may raise or kill the process, before or after it takes effect, as a script of outcomes says;
`LocalReleaseTool` is the program over that device. Nothing is assumed about the script, so each claim covers every
place where a run can stop.

## Findings

- The uplink's comments give the FRAME header as 160 or 168 bytes in places (`openpilot/selfdrive/bigmodeld/uplink_sender.h`,
  `openpilot/selfdrive/bigmodeld/README.md`); the code uses 152, and so does the model.
- The write-timing contract of the curve targets (`openpilot/selfdrive/bigmodeld/nav_outputs.h`, lines 160-164) says
  that only a deleted point or a lower speed is written at once. The greedy search can also treat a harmless shift of
  close points as a deletion: `UrgentSearch.HarmlessShiftIsWritten` gives two updates 100 ms apart. Call two points
  close when a place other than (0, 0) is within 50 units of both in both coordinates, which can be read off the new
  points alone (`UrgentSearch.CloseWhenShared`). The contract holds of an update after every history of updates if and
  only if its usable points that are close to each other agree in position and speed
  (`UrgentSearch.ContractHoldsIffTwins`; for the search by itself, over every list that can have been written,
  `UrgentSearch.SearchIsExactIffTwins`).
- An update that writes nothing keeps a partner for every written point (`MapTargets.DeclinedMeansKept`), but a slow
  point that newly appears beside a written one may wait: `UrgentSearch.SlowNewcomerMayWait` gives the updates. After
  every history of updates none can wait if and only if usable points that are close to each other have the same speed
  (`UrgentSearch.NoSlowPointWaitsIffSameSpeeds`). Half a second after the last write every decision brings the reader
  exactly what is wanted, in any case (`NavLinkSession.HalfASecondBringsWanted`).
- A rollback whose recovery commands work, and that raises, can still end as failed although nothing was damaged:
  `LocalRelease.ReleasedDeviceMayFail` gives the device and the failure. Every such raise ends recovered if and only if
  HEAD is at the recorded commit with a clean tree as the rollback starts (`LocalRelease.RollbackRecoversIffAtOriginal`).
  A consume whose recovery commands work always recovers.
- `fft_next_good_size` returns n itself for every n up to 6. For 0 and negative numbers that is no 11-smooth size; the
  least one not below them would be 1. The claim about the least size is for n >= 1.

## Model

| member | source | states |
|---|---|---|
| Gf256.MulLinearLeft | openpilot/common/qrcode.py:75-82 | multiplication distributes over XOR in its first argument, for all numbers |
| Gf256.MulLinearRight | openpilot/common/qrcode.py:75-82 | multiplication distributes over XOR in its second argument, for all numbers |
| Gf256.MulComm | openpilot/common/qrcode.py:75-82 | multiplication of bytes is commutative, derived from linearity and the doubling step alone |
| Gf256.MulAssoc | openpilot/common/qrcode.py:75-82 | multiplication is associative |
| Gf256.MulIsReducedProduct | openpilot/common/qrcode.py:75-82 | the product differs from the carry-less product by a carry-less multiple of the modulus 0x11D |
| Gf256.Multiply | openpilot/common/qrcode.py:75-82 | the loop that takes the bits of y from the top computes that product, and stays below 256 |
| ReedSolomon.GeneratorIsProduct | openpilot/common/qrcode.py:85-94 | with its leading term restored the divisor is the product of the linear factors of the roots 2^0 .. 2^(degree-1) |
| ReedSolomon.RemainderVanishes | openpilot/common/qrcode.py:97-104 | at any root of a divisor, shifted data and the register of the remainder loop have the same value |
| ReedSolomon.BlockIsCodeword | openpilot/common/qrcode.py:85-104 | for any data and any degree, data followed by its error-correction bytes evaluates to zero at each of 2^0 .. 2^(degree-1) |
| ReedSolomon.Divisor | openpilot/common/qrcode.py:85-94 | the two nested loops compute the generator whose roots are proved |
| ReedSolomon.Remainder | openpilot/common/qrcode.py:97-104 | the register loop computes the remainder that completes a codeword |
| QrData.DataRoundTrip | openpilot/common/qrcode.py:32-46 | reading the data codewords in byte mode gives the payload back, whatever terminator and padding were added |
| QrData.CapacityIsCountable | openpilot/common/qrcode.py:16-25 | whatever fits a version can be counted in its 8 or 16 bit length field |
| QrData.EncodeData | openpilot/common/qrcode.py:32-46 | the bit list, its terminator, alignment and alternating pad bytes are the codewords that DataRoundTrip reads |
| QrData.ChooseVersion | openpilot/common/qrcode.py:197-206 | the least version from 1 to 20 that holds the payload is chosen, and none exactly where the source raises ValueError |
| QrBlocks.DeinterleaveRoundTrip | openpilot/common/qrcode.py:49-72 | taking the interleaved codewords apart again, short and long blocks alike, gives the data codewords in order |
| QrBlocks.ReceivedBlocksAreCodewords | openpilot/common/qrcode.py:49-72 | every block as a reader collects it from the interleaved stream is a Reed-Solomon codeword |
| QrBlocks.CodewordCount | openpilot/common/qrcode.py:49-72 | exactly as many codewords come out as the symbol has room for |
| QrBlocks.InterleaveBlocks | openpilot/common/qrcode.py:49-72 | the block and interleave loops compute the codewords those lemmas are about |
| QrGeometry.PositionsSpaced | openpilot/common/qrcode.py:107-112 | alignment centres start at 6, end 7 before the edge and lie at least 12 apart, for every version |
| QrGeometry.FormatWordIsCodeword | openpilot/common/qrcode.py:12-13 | the format constant, unmasked, is a codeword of the (15, 5) BCH code for level L and mask 0 |
| QrGeometry.VersionWordIsCodeword | openpilot/common/qrcode.py:160-164 | the version bits carry the version and are a multiple of 0x1F25, for every version |
| QrGeometry.DataCellCount | openpilot/common/qrcode.py:16-21 | counting the modules that no function pattern covers gives the closed capacity formula, for every version |
| QrWalk.DataOrderIsComplete | openpilot/common/qrcode.py:181-194 | the zigzag walk passes every data module exactly once and nothing else |
| QrReader.SymbolRoundTrip | openpilot/common/qrcode.py:115-127 | whoever is given only the modules of a symbol that shows its function patterns and carries a payload's codewords, and takes version, level and mask from the symbol itself, gets the payload |
| QrReader.PayloadRoundTrip | openpilot/common/qrcode.py:181-194 | under any mask the data modules give back the payload whose codewords they carry |
| QrReader.FormatShown | openpilot/common/qrcode.py:172-179 | both format areas of a finished symbol read back as 0x77C4 |
| QrReader.VersionShown | openpilot/common/qrcode.py:158-170 | from version 7 on both version areas read back as the version word |
| QrReader.FindersShown | openpilot/common/qrcode.py:134-151 | the three finder patterns are intact, whatever is drawn after them |
| QrSymbol.MaskedBits | openpilot/common/qrcode.py:123-126 | the mask loop turns the plain bits into what an unmasking reader expects and touches no function module |
| QrSymbol.FormatKeepsData | openpilot/common/qrcode.py:172-179 | drawing the format information again changes no data module |
| QrSymbol.Qr.constructor | openpilot/common/qrcode.py:115-127 | for every version and payload that fits, the finished symbol shows its function patterns, reserves exactly them, and reads as the payload to a reader who is given the modules only |
| QrSymbol.Qr.DrawFunctions | openpilot/common/qrcode.py:145-170 | the drawn and reserved modules are exactly the function patterns, later patterns over earlier ones |
| QrSymbol.Qr.DrawData | openpilot/common/qrcode.py:181-194 | the k-th data module in zigzag order holds the k-th bit, zero after the last one, and nothing else changes |
| QrSymbol.ComputeVersionWord | openpilot/common/qrcode.py:160-164 | the twelve shift steps compute the version word proved to be a codeword |
| FrameCodec.FrameRoundTrip | openpilot/selfdrive/bigmodeld/frame_codec.cpp:81-177 | parsing a packed frame gives its normal form when both segments respect the limit, and the length error otherwise |
| FrameCodec.NormalHeaderIdempotent | openpilot/selfdrive/bigmodeld/frame_codec.cpp:90-97 | the normal form (invalid speed and yaw canonical, reserved bits clear) is idempotent and packs to the same bytes |
| FrameCodec.ParsedFrameIsNormal | openpilot/selfdrive/bigmodeld/frame_codec.cpp:108-177 | whatever bytes are accepted, the frame read from them is in normal form and survives packing and parsing |
| FrameCodec.AcceptedFramesArePrefixFree | openpilot/selfdrive/bigmodeld/frame_codec.cpp:152-177 | no accepted frame is a proper prefix or an extension of another accepted one |
| FrameCodec.PackFrame | openpilot/selfdrive/bigmodeld/frame_codec.cpp:140-150 | packing writes exactly the frame bytes into the caller's buffer and leaves the rest; a buffer too small is untouched |
| FrameCodec.PackFrameHeader | openpilot/selfdrive/bigmodeld/frame_codec.cpp:81-99 | the field-by-field writes produce the header bytes that FrameRoundTrip reads |
| ReplyCodec.ReplyRoundTrip | openpilot/selfdrive/bigmodeld/frame_codec.cpp:187-346 | parsing a packed reply gives its normal form: reserved bits clear, absent blocks empty, curve points clamped to eight |
| ReplyCodec.NormalReplyIdempotent | openpilot/selfdrive/bigmodeld/frame_codec.cpp:187-244 | that normal form is idempotent |
| ReplyCodec.ParsedReplyIsSafe | openpilot/selfdrive/bigmodeld/frame_codec.cpp:249-308 | a reply parsed from any bytes has at most eight curve points, and a block not marked present is empty |
| ReplyCodec.ErrRoundTrip | openpilot/selfdrive/bigmodeld/frame_codec.cpp:348-373 | ERR messages round-trip exactly |
| ReplyCodec.HelloRoundTrip | openpilot/selfdrive/bigmodeld/frame_codec.cpp:375-399 | HELLO messages round-trip exactly |
| ReplyPacking.PackReply | openpilot/selfdrive/bigmodeld/frame_codec.cpp:312-323 | packing writes exactly the reply bytes into the caller's buffer, block by block, or leaves a buffer that is too small alone |
| ReplyPacking.AddNavExt | openpilot/selfdrive/bigmodeld/frame_codec.cpp:187-244 | present blocks are written and absent ones stay zero, which are the bytes of the normal form |
| ReplyPacking.PackErr | openpilot/selfdrive/bigmodeld/frame_codec.cpp:348-356 | packing ERR writes exactly its bytes |
| ReplyPacking.PackHello | openpilot/selfdrive/bigmodeld/frame_codec.cpp:375-383 | packing HELLO writes exactly its bytes |
| MsgFramer.ChunkingIsIrrelevant | openpilot/selfdrive/bigmodeld/msg_framer.h:26-56 | for any byte stream and any way of cutting it, the same messages and the same first error come out |
| MsgFramer.PackedMessagesComeBack | openpilot/selfdrive/bigmodeld/msg_framer.h:26-56 | any sequence of packed HELLO, REPLY and ERR messages comes back exactly, in order, however it is cut |
| MsgFramer.Framer.Receive | openpilot/selfdrive/bigmodeld/msg_framer.h:26-56 | append, next and consume on the stored buffer compute that draining of old bytes plus new ones |
| MsgFramer.Framer.Next | openpilot/selfdrive/bigmodeld/msg_framer.h:28-48 | the verdict on the head of the buffer, with the checks in the source's order |
| UplinkRuns.ApplyKeepsInv | openpilot/selfdrive/bigmodeld/uplink_sender.cpp:25-274 | every submission, thread iteration, disconnect and gap keeps the invariant over slots, gate, epoch and wire |
| UplinkRuns.WireIntegrity | openpilot/selfdrive/bigmodeld/uplink_sender.cpp:76-236 | in every run the bytes on a connection are whole packed frames of pairs submitted for that connection, then at most one proper prefix of one such frame |
| UplinkRuns.HeadGate | openpilot/selfdrive/bigmodeld/uplink_sender.cpp:25-74 | in every run the first frame to begin after a connect, a queue overwrite or a gap is a complete pair with both actual and both predicted key-frame flags |
| UplinkRuns.FramesBeginInOrder | openpilot/selfdrive/bigmodeld/uplink_sender.cpp:25-45 | when the road segments of a connection come in increasing order, frames begin on the wire in strictly increasing order |
| UplinkRuns.QualifiedPairStarts | openpilot/selfdrive/bigmodeld/uplink_sender.cpp:60-74 | an idle connection starts a qualified pair whichever segment comes first |
| UplinkRuns.UnqualifiedPairIsBarred | openpilot/selfdrive/bigmodeld/uplink_sender.cpp:60-74 | a pair that lacks any of the four flags leaves a closed gate closed, is dropped whole and reported, whichever segment comes first |
| UplinkRuns.OnlySilenceIsAStall | openpilot/selfdrive/bigmodeld/uplink_sender.cpp:214-236 | a frame that moved or only began is never stalled; one silent for the stall time is given up with its connection after one more offer to the socket, which may still complete it |
| UplinkRuns.LinkLostOnce | openpilot/selfdrive/bigmodeld/uplink_sender.cpp:239-260 | an outage is reported lost exactly once, at the configured number of failures in a row, whatever submissions, gaps and disconnects come between the attempts |
| Uplink.WriteOutOk | openpilot/selfdrive/bigmodeld/uplink_sender.cpp:171-191 | whatever the socket takes, the bytes added are exactly those returned, and done means complete |
| Uplink.CompleteIsPacked | openpilot/selfdrive/bigmodeld/uplink_sender.cpp:90-99 | a complete frame's two chunks are the packed frame of its pair |
| Uplink.IncompleteIsPrefix | openpilot/selfdrive/bigmodeld/uplink_sender.cpp:171-191 | an incomplete frame's bytes are a proper prefix of a packed frame of its road segment |
| UplinkSender.Sender.FindSlot | openpilot/selfdrive/bigmodeld/uplink_sender.cpp:25-45 | late, dropped and older packets find no slot; a newer one takes the queue, is reported and closes the gate |
| UplinkSender.Sender.Resolve | openpilot/selfdrive/bigmodeld/uplink_sender.cpp:60-74 | the gate's judgement on a complete queued pair |
| UplinkSender.Sender.SubmitRoadSegment | openpilot/selfdrive/bigmodeld/uplink_sender.cpp:76-107 | the new state after a road segment |
| UplinkSender.Sender.SubmitWideSegment | openpilot/selfdrive/bigmodeld/uplink_sender.cpp:109-127 | the new state after a wide segment |
| UplinkSender.Sender.WriteFrame | openpilot/selfdrive/bigmodeld/uplink_sender.cpp:171-191 | the write loop over a socket that answers as it likes computes the specified write-out, byte for byte |
| UplinkSender.Sender.RunStep | openpilot/selfdrive/bigmodeld/uplink_sender.cpp:193-260 | one thread iteration (start, write, stall, reconnect) is one step of the state machine on what the socket answered, and keeps what the next call demands |
| DropWindow.ContainsRecent | openpilot/selfdrive/bigmodeld/uplink_sender.cpp:47-58 | membership in the ring is membership in the last 32 notes since it was cleared |
| DropWindow.NoteExtendsHistory | openpilot/selfdrive/bigmodeld/uplink_sender.cpp:47-51 | a note extends the history that the ring stands for |
| FrameIndexer.IndexIsRunningMaximum | openpilot/selfdrive/bigmodeld/frame_scheduler.cpp:9-26 | the k-th number is the maximum over j <= k of the rounded slot of frame j plus k - j |
| FrameIndexer.IndicesIncrease | openpilot/selfdrive/bigmodeld/frame_scheduler.cpp:9-26 | the numbers strictly increase for any times, also equal or decreasing ones |
| FrameIndexer.SpacedFramesKeepTheirSlot | openpilot/selfdrive/bigmodeld/frame_scheduler.cpp:17-23 | frames at least 50 ms apart all keep their own rounded slot |
| FrameIndexer.RoundedIsNearest | openpilot/selfdrive/bigmodeld/frame_scheduler.cpp:17-20 | the overflow-free rounding is the nearest slot and equals adding half a period first |
| FrameIndexer.Indexer.Index | openpilot/selfdrive/bigmodeld/frame_scheduler.cpp:9-26 | the object's step is the numbering those lemmas are about |
| FrameScheduler.PredictionsComeTrue | openpilot/selfdrive/bigmodeld/frame_scheduler.cpp:28-99 | over any mix of connects, drops, gaps and pairs, predicted and actual key frames agree; road exactly at p % 20 == 0, wide exactly at p == 0 or p % 20 == 10 |
| FrameScheduler.DoubleKeyFrameHeadsSequence | openpilot/selfdrive/bigmodeld/main.cc:679-702 | a pair is a double key frame exactly at the head of a sequence, and both encoders are asked at once exactly there after a restart |
| FrameScheduler.RestartBringsDoubleKeyFrame | openpilot/selfdrive/bigmodeld/frame_scheduler.cpp:28-39 | the first pair after any restart is a double key frame, predicted and real |
| FrameScheduler.DropActsOnce | openpilot/selfdrive/bigmodeld/frame_scheduler.cpp:77-93 | a drop among the last 32 acted on since the connection changes nothing; any other restarts |
| FrameScheduler.Scheduler.OnFrameSubmit | openpilot/selfdrive/bigmodeld/frame_scheduler.cpp:49-74 | prediction and phase of one pair |
| FrameScheduler.Scheduler.OnFrameDropped | openpilot/selfdrive/bigmodeld/frame_scheduler.cpp:77-93 | look-up loop, note and restart |
| FrameScheduler.Scheduler.OnConnect | openpilot/selfdrive/bigmodeld/frame_scheduler.cpp:41-47 | restart with an emptied window |
| PairMatcher.FramesAreConserved | openpilot/selfdrive/bigmodeld/pair_matcher.h:56-86 | for any arrivals, every frame is exactly one of paired once, killed once or in a slot |
| PairMatcher.EmittedPairIsUnique | openpilot/selfdrive/bigmodeld/pair_matcher.h:56-86 | with each camera's times more than twice the tolerance apart, an emitted pair is the arriving frame and its only partner in tolerance |
| PairMatcher.PartnersPairUnlessDisturbed | openpilot/selfdrive/bigmodeld/pair_matcher.h:56-86 | two partners are paired when the later one arrives exactly if no same-side successor of the earlier came first, and such a successor kills it |
| PairMatcher.Matcher.PushFrame | openpilot/selfdrive/bigmodeld/pair_matcher.h:56-86 | the object's step over its two slots |
| MetaCache.LookupsAreClassified | openpilot/selfdrive/bigmodeld/meta_cache.h:58-80 | with increasing numbers, after any run and for any number: a hit exactly when queued; a gap exactly when never pushed, something was pushed since the clear, and it is newer than the oldest that could come |
| MetaCache.GoneEntriesAreStale | openpilot/selfdrive/bigmodeld/meta_cache.h:58-80 | a number pushed once and no longer queued is always a stale miss, and a miss changes nothing |
| MetaCache.EntriesAreConserved | openpilot/selfdrive/bigmodeld/meta_cache.h:51-88 | the entries hit, skipped or cleared, in the order they left, followed by those queued, are exactly the entries pushed |
| MetaCache.HitSplitsQueue | openpilot/selfdrive/bigmodeld/meta_cache.h:61-68 | a hit takes out the entry and all older ones and leaves all newer ones |
| MetaCache.Cache.Take | openpilot/selfdrive/bigmodeld/meta_cache.h:58-80 | the search, copy and erase loops compute that look-up |
| Pipeline.ComponentsFollowTheirCalls | openpilot/selfdrive/bigmodeld/main.cc:653-1036 | in every run of arrivals, outputs and reports the scheduler with its encoders and both caches are where their own calls put them |
| Pipeline.PairsArePredicted | openpilot/selfdrive/bigmodeld/main.cc:679-728 | every pair of every run is predicted right, and both contexts announce exactly its key frames |
| Pipeline.ReportsBringDoubleKeyFrame | openpilot/selfdrive/bigmodeld/main.cc:933-964 | after a reported connection or gap the next pair is a double key frame, whatever else was reported before or after |
| Pipeline.ContextsAreCurrent | openpilot/selfdrive/bigmodeld/main.cc:933-964 | everything queued in the encoders carries the current epoch, in strictly increasing slot numbers |
| Pipeline.ContextsAreCounted | openpilot/selfdrive/bigmodeld/main.cc:679-728 | while the cameras count upwards, contexts are pushed in increasing order of each camera's own numbers |
| Pipeline.GapsAreReal | openpilot/selfdrive/bigmodeld/main.cc:967-1026 | a late output of a known frame reports nothing and reaches no one; a gap is reported only for a frame never pushed |
| Pipeline.OutputsAreCurrent | openpilot/selfdrive/bigmodeld/main.cc:967-1036 | what goes on to the sender carries the current epoch, and a reported lost frame precedes it |
| HandOver.EpochsRise | openpilot/selfdrive/bigmodeld/uplink_sender.cpp:239-260 | in every run the sender announces its connections with strictly rising epochs |
| HandOver.RoadsAreHandedInOrder | openpilot/selfdrive/bigmodeld/main.cc:653-1036 | over every run of the glue that hears of connections with rising epochs, road contexts go to the sender in order of connections and, on each connection, in strictly increasing slot numbers |
| HandOver.NumberedFramesBeginInOrder | openpilot/selfdrive/bigmodeld/uplink_sender.cpp:25-45 | glue and sender together: when the sender gets the road contexts the glue hands on, frames begin on the wire in strictly increasing order |
| PipelineLoop.Daemon.DrainEvents | openpilot/selfdrive/bigmodeld/main.cc:933-964 | the event loop is the fold of the single-event steps |
| PipelineLoop.Daemon.Encode | openpilot/selfdrive/bigmodeld/main.cc:679-728 | number, schedule, flush requests, push both contexts, encode, in this order |
| PipelineLoop.Daemon.PlaceFrame | openpilot/selfdrive/bigmodeld/main.cc:653-677 | drain, match, account for a dead road frame, encode a pair |
| PipelineLoop.Daemon.OnEncoded | openpilot/selfdrive/bigmodeld/main.cc:967-1036 | look-up, reports and hand-over of one encoder output |
| MapTargets.DeclinedMeansKept | openpilot/selfdrive/bigmodeld/nav_outputs.cpp:158-243 | whenever an update writes nothing, the written points have distinct partners among the usable ones, each within 50 units per coordinate and no slower |
| MapTargets.WritesExactlyWhen | openpilot/selfdrive/bigmodeld/nav_outputs.cpp:234-243 | an update writes exactly at first, after a second, when urgent, or for changed points after half a second |
| MapTargets.EnvelopeIsSound | openpilot/selfdrive/bigmodeld/nav_outputs.cpp:214-275 | a non-empty envelope has 1 to 8 usable points at non-decreasing distances up to 600 m, holds now and at most 2 s past the frame's time |
| UrgentSearch.SearchIsExactIffTwins | openpilot/selfdrive/bigmodeld/nav_outputs.cpp:158-194 | the greedy search is urgent exactly when no injection keeps the written points, for every list that an update can have written, if and only if usable points close to each other agree in position and speed |
| UrgentSearch.CloseWhenShared | openpilot/selfdrive/bigmodeld/nav_outputs.cpp:174-184 | two points are close exactly when some place that can be written is in tolerance of both |
| UrgentSearch.ContractHoldsIffTwins | openpilot/selfdrive/bigmodeld/nav_outputs.h:160-168 | the urgent part of the write-timing contract (urgent exactly when the written points cannot be given distinct partners in tolerance that are no slower) holds of an update after every history of updates if and only if its usable points meet that condition |
| UrgentSearch.AfterIsWritable | openpilot/selfdrive/bigmodeld/nav_outputs.cpp:214-275 | after every history of updates the remembered points are 1 to 8 usable ones at non-decreasing distances, or none |
| UrgentSearch.WritableIsWritten | openpilot/selfdrive/bigmodeld/nav_outputs.cpp:214-275 | and every such list is what a first update remembers that comes at the time of any input with usable points |
| UrgentSearch.NoSlowPointWaitsIffSameSpeeds | openpilot/selfdrive/bigmodeld/nav_outputs.cpp:158-243 | while an update writes nothing no usable point in tolerance of a written one is slower than it, after every history of updates, if and only if usable points close to each other have the same speed |
| UrgentSearch.SlowNewcomerMayWait | openpilot/selfdrive/bigmodeld/nav_outputs.cpp:158-243 | otherwise a slow point that newly appears near a written one may wait: two concrete updates 100 ms apart |
| UrgentSearch.HarmlessShiftIsWritten | openpilot/selfdrive/bigmodeld/nav_outputs.cpp:158-243 | two updates 100 ms apart where every written point can be kept and the second is written all the same |
| UrgentSearch.SearchMayCallUrgent | openpilot/selfdrive/bigmodeld/nav_outputs.cpp:158-194 | for points close to each other the search may be urgent although every written point could be kept: a concrete input |
| MapTargets.BestIsNearest | openpilot/selfdrive/bigmodeld/nav_outputs.cpp:170-187 | the inner loop finds the nearest free point in tolerance, the first of equals |
| MapTargets.MapTargetWriter.UrgentChange | openpilot/selfdrive/bigmodeld/nav_outputs.cpp:158-194 | the two matching loops compute that search |
| MapTargets.MapTargetWriter.UsablePointCount | openpilot/selfdrive/bigmodeld/nav_outputs.cpp:146-156 | the count of usable points, none when distances ever decrease |
| MapTargets.MapTargetWriter.SamePoints | openpilot/selfdrive/bigmodeld/nav_outputs.cpp:196-212 | equality with the points written last, in order |
| MapTargets.MapTargetWriter.Update | openpilot/selfdrive/bigmodeld/nav_outputs.cpp:214-275 | decision, envelope and remembered points of one update |
| NavLinkSession.NewestIsWhatTheWriterKeeps | openpilot/selfdrive/bigmodeld/nav_outputs.h:206-239 | in every run the newest value (pending, else last taken) has exactly the content the writer compares against |
| NavLinkSession.WrittenTargetsStayBacked | openpilot/selfdrive/bigmodeld/nav_outputs.cpp:277-312 | in every run, after every decision the targets a reader ends up with are all still usable, each with a partner of its own and no lower speed |
| NavLinkSession.HalfASecondBringsWanted | openpilot/selfdrive/bigmodeld/nav_outputs.h:160-168 | in every run, a decision made half a second or more after the last write leaves a reader with exactly the targets wanted then |
| NavLinkSession.DisconnectClearsUntilReply | openpilot/selfdrive/bigmodeld/nav_outputs.cpp:293-312 | from a disconnect, an idle tick without link or a new epoch on, until a reply arrives, a reader ends up with an empty list |
| NavLinkSession.WritesAreSpacedAndSound | openpilot/selfdrive/bigmodeld/nav_outputs.h:160-168 | in every run and for any clock, unchanged content is written at least 1 s apart, changed content at least 0.5 s apart unless urgent, and every envelope is sound |
| NavLinkSession.LinkSession.OnEpoch | openpilot/selfdrive/bigmodeld/nav_outputs.h:210-215 | a changed epoch resets and reports, an unchanged one does nothing |
| NavLinkSession.LinkSession.OnDisconnect | openpilot/selfdrive/bigmodeld/nav_outputs.cpp:293-298 | flags and summary go, and the writer decides without link |
| NavLinkSession.LinkSession.OnReply | openpilot/selfdrive/bigmodeld/nav_outputs.cpp:300-304 | the summary is replaced and the writer decides with link |
| NavLinkSession.LinkSession.OnIdle | openpilot/selfdrive/bigmodeld/nav_outputs.cpp:306-312 | no link is a disconnect; otherwise the writer decides again |
| FftGoodSize.FftNextGoodSize | openpilot/selfdrive/locationd/helpers.py:11-34 | terminates and, for n >= 1, returns the least number not below n whose prime factors are all in {2, 3, 5, 7, 11}; n itself up to 6 |
| FftGoodSize.ReachIffSmall | openpilot/selfdrive/locationd/helpers.py:19-33 | the numbers the five loops can reach are exactly those with no other prime factor |
| Rotation.QuatRoundTrip | openpilot/common/transformations/transformations.py:88-138 | every unit quaternion comes back from its matrix as itself or its negative with w >= 0, itself if w > 0, and no branch divides by zero |
| RotationMatrices.RotationRoundTrip | openpilot/common/transformations/transformations.py:88-138 | for every orthogonal matrix of determinant 1 no branch divides by zero, and the quaternion found is a unit quaternion with w >= 0 whose matrix is the given one |
| RotationMatrices.RotationsAreUnitQuats | openpilot/common/transformations/transformations.py:88-104 | the orthogonal matrices of determinant 1 are exactly the matrices of unit quaternions |
| Rotation.EulerAgrees | openpilot/common/transformations/transformations.py:54-72 | for all angles the Euler quaternion is a unit quaternion with w >= 0 whose matrix is the product of the three axis rotations |
| Rotation.EulerMatrixToQuat | openpilot/common/transformations/transformations.py:141-156 | reading the Euler matrix gives the Euler quaternion, up to the sign that w == 0 leaves open |
| Rotation.EulerProduct | openpilot/common/transformations/transformations.py:61-68 | the closed half-angle formula is the quaternion product of the three axis turns |
| RunningStat.WelfordIsCorrect | openpilot/common/stat_live.py:25-46 | without a cap, after any n >= 1 data, n M is their sum, S the sum of squared deviations from M, and the variance the non-negative unbiased one |
| RunningStat.DataAreSummarized | openpilot/common/stat_live.py:5-37 | starting from the summary of earlier data, and below the cap, the state summarizes earlier and new data together |
| RunningStat.MeanIsBestCentre | openpilot/common/stat_live.py:25-40 | no other centre has a smaller deviation sum |
| RunningStat.VarianceNotNegative | openpilot/common/stat_live.py:25-46 | for every cap and all data the variance is not negative |
| RunningStat.CappedMeanFades | openpilot/common/stat_live.py:26-35 | at the cap the mean moves 1/cap of the way to each new datum |
| RunningStat.Running.PushData | openpilot/common/stat_live.py:25-37 | the update of the five fields, with the cap and the branch for a count of 0 |
| LocalRelease.OriginalsSurviveSwitch | tools/release/local_release.py:127-188 | whatever fails or dies at whatever point of a switch, the recorded originals survive and their commit stays pinned |
| LocalRelease.RollbackRestores | tools/release/local_release.py:127-169 | from any sound state an uninterrupted rollback returns, on the recorded branch and commit and with the recorded update flag |
| LocalRelease.SwitchThatReturnsFinished | tools/release/local_release.py:144-169 | a switch that returns has done all of it: a consume is on the fetched release of the prepared source, a rollback is on the recorded commit |
| LocalRelease.ConsumeRecovers | tools/release/local_release.py:170-188 | a consume that raises inside the protected part, with working recovery commands, ends recovered with branch, commit, flag and service restored |
| LocalRelease.RaiseIsRecoveredWhen | tools/release/local_release.py:138-188 | a raise before the protected part changes nothing; one inside it ends recovered exactly if the service had been stopped or the live tree was still the recorded one |
| LocalRelease.RollbackRecoversIffAtOriginal | tools/release/local_release.py:138-188 | every raise of an admitted rollback with working recovery commands ends recovered if and only if HEAD is at the recorded commit with a clean tree before the call |
| LocalRelease.ReleasedDeviceMayFail | tools/release/local_release.py:138-188 | a device on a release where a rollback that cannot write the update flag ends failed: a concrete input |
| LocalRelease.AnythingCanBeRolledBack | tools/release/local_release.py:70-188 | after a preparation and any switches with any failures, deaths and boots, and any preparations that leave the record in place, one uninterrupted rollback brings back the branch, commit and flag the preparation found |
| LocalRelease.HistoriesStaySound | tools/release/local_release.py:70-188 | every history of preparations, switches and boots keeps the recorded commit pinned |
| LocalRelease.UnfinishedIsKept | tools/release/local_release.py:81-109 | a preparation never touches the record of a deployment that is neither live nor rolled back |
| LocalRelease.UnfinishedIsNotReplaced | tools/release/local_release.py:81-109 | while the deployment is neither live nor rolled back, no preparation at all takes the record's place |
| LocalRelease.FlagIsNotLost | tools/release/local_release.py:110-119 | a new preparation that stops anywhere has left the update flag alone or recorded what it was |
| LocalRelease.PrepareSteps | tools/release/local_release.py:70-119 | a preparation does nothing, disables updates again for the same preparation, or begins a new one, the last only when the recorded deployment is over |
| LocalReleaseTool.Device.RunSwitch | tools/release/local_release.py:127-188 | the try, the handler and its nested finally blocks, step by step, compute that switch; the originals survive, a return means finished, and an uninterrupted rollback returns |
| LocalReleaseTool.Device.TrySwitch | tools/release/local_release.py:143-169 | the protected part with the record in memory and the flag that says whether the service was stopped |
| LocalReleaseTool.Device.Handle | tools/release/local_release.py:170-188 | recovery, recording, restart and re-raise |
| LocalReleaseTool.Device.RunPrepare | tools/release/local_release.py:70-119 | all branches of a preparation; wherever it stops, the recorded commit stays pinned and the update flag of before is in place or recorded |

## Left out

- FrameScheduler.PredictionsComeTrue: the encoder is modelled as the scheduler counts on it, and its very first frame is taken to be a key frame; the V4L encoder itself is not part of this model.
- FrameIndexer.IndicesIncrease: slot numbers, epochs and nanosecond clocks are unbounded naturals; the 32-bit truncation of a slot number after years of one connection is not modelled. The stall timer of the sender does subtract modulo 2^64.
- UplinkRuns.FramesBeginInOrder: the increasing order of road segments is a hypothesis; HandOver.NumberedFramesBeginInOrder discharges it for segments that reach the sender in the order in which the glue hands them on.
- Rotation.EulerAgrees: sine, cosine and square root are any functions that obey the stated laws; floating-point rounding is not modelled.
- RunningStat.WelfordIsCorrect: over the reals, without rounding; `std` and `RunningStatFilter` are left out because they only add a square root and a comparison.
- Locks, condition variables, `wait_for_work` and thread priorities: each locked method is one atomic step.
- Real sockets, VisionIPC, msgq, Params files and the encoder's bitrate control: plumbing, represented by arbitrary inputs of a step.
- The call of `notify_stream_gap` that accompanies every gap and drop report of an encoder output: on the sender's side it is the input StreamGap of UplinkRuns.
- The bytes of an encoder output and of the codec configuration put before a key frame: a submission's segment is any byte sequence.
- FrameHeader metadata inside a queued context: it is passed through unchanged.
- The JSON text of curve targets: an envelope is a datatype, so the rounding of coordinates and speeds in the text is not modelled.
- NavStateSnapshot and LinkStateTracker: field copies and a small state label with no property of their own.
- Float fields of the wire format are 32-bit patterns; the source copies bits as well.
- Parsing functions read a byte sequence and return a value; that the source fills a struct of the caller is not modelled.
- `make_texture` beyond the choice of a version: scaling, inversion and the upload to the screen.
- Error-correction decoding of a damaged QR symbol: the reader reads an intact one.
- ECEF and geodetic conversions, `quat2euler_single` and `rot2euler_single`: they need inverse trigonometric functions with branch cuts.
- git, systemctl, tar and pip: HEAD, refs, a clean tree, the fetched commit, the service and the source lines of commit messages are what is left of them; a checkout is taken to leave a clean tree or nothing.
- `UpdateFlag`'s own read-back check: a write that does not verify is a write that raises.
- A switch whose record lacks a field: a missing `source_branch` or boot is modelled, other malformed JSON is not.
