# Waveform upload, playback and analysis: a verified model

This project models the software that loads waveforms into an eight-channel DAC board and checks
what the board then does, and proves properties of the model with Dafny 4.11.

**The upload protocol** (`Bytes`, `WaveProtocol`, `WaveWire`, `Board`, `BoardRuns`, `BoardControl`, `Transport`, `Upload`, `Exchange`,
`UploadSuccess`, `UploadLimits`, `Interleave`, `Driver`, `RecordUpload`). A driver weaves one wave per
channel into a single image of 64-byte DDR beats, cuts the image into numbered DATA packets between a
BEGIN and a COMMIT, and sends each packet over UDP until a reply with its sequence number and opcode
arrives. The board is a state machine that collects the packets in order, refuses everything else, and
prefetches and plays a committed image. `WaveWire` gives every field of a request and a reply its byte
offset, and `BoardControl` says for every reachable board state which calls are accepted and where
they lead, in terms of the upload the board holds. The network between them is adversarial: on every step it may
serve any request it has seen to the board, hand any reply of the board to the host, bring the board a
request of another driver object, or stay silent, so packets and replies can be lost, repeated and reordered.

The main results are about every schedule of such steps.

- *What an upload commits* (`Exchange.UploadCommitsChain`, and the postconditions of
  `Driver.Dr47Device.UploadInterleavedChunks` and `UploadWaveforms`). An upload that returns normally
  means that during the call the board acknowledged the session's COMMIT, under the returned descriptor, while its
  buffer was a complete chain: a BEGIN of the session and DATA 0, 1, 2, ... at contiguous offsets up to its total,
  each a request of this upload or a stale one that could still arrive. The invariant behind it is that
  the buffer bound to a session is always such a chain, even if a late BEGIN empties it half-way.
- *And nothing less* (`UploadLimits.UploadOutcomes`). Every such chain whose requests
  last until COMMIT is sent is really committed in some run in which all requests of the upload are
  acknowledged. So an acknowledged upload can be trusted exactly when the
  only complete chain is its own image (`UploadLimits.CertainIffNoOtherChain`); one stale DATA of the
  right length, or one stale BEGIN of the same size, is enough to change what is committed.
- *When sessions are safe* (`Upload.AutomaticIsFresh`). For a device object that takes every session from its own run
  id, no request of its own can be stale: by the time a run id comes back the sequence number has also gone
  round. Its session is therefore fresh exactly when no request of another driver object can write to
  it. That is a real condition, since every object starts at run id 1: a second object
  on the same board can have its upload acknowledged in full while the board commits the first
  object's image (`UploadLimits.SecondDriverCommitsFirstImage`).
- *When uploads succeed* (`UploadSuccess.UploadSucceeds`). If each request reaches the board and its first reply comes
  back before the retries run out, however often requests are repeated meanwhile, the upload returns
  normally and the board holds exactly the image, hence every sample at its lane address.

**The max-length record** (`MaxLength`, `BulkStream`). A generator emits runs of equal beats; each
run is shrunk until its last beat is in the region of its first one. It is proved equal to the
per-beat definition exactly when the chunk size cannot jump from the first body over the whole
middle marker into the second body. The default chunk size (8192 beats) with the default marker
(4096 bytes) does jump, and loses the middle marker of a full-memory record; the UDP batches of at
most four beats never do. Bulk datagrams, the cache file, and the upload of the same chunks are proved
to carry the same bytes.

**Calibration** (`Tdc`), **firmware** (`SyncFirmware`, `Bandwidth`), **capture analysis** (`IlaReport`)
and **I/Q formats** (`Ezq`) are smaller models with their own theorems, listed below. Two of them
correct a natural reading of the code. A status word without FAILED looks like the success of the epoch it
acknowledges; over every run this holds if and only if no failed SYNC attempt is followed by another one
(`SyncFirmware.AckIsTruthfulIff`), and for words that also show NCO_SYNC_READY if and only if no failed attempt is
followed by a successful one. A two-sample I/Q matrix given as columns is read as rows.

`Arithmetic` and `Bytes` hold facts about division and little-endian records that the others use.

Assumptions of the protocol model: the network forgets a request, and the replies to it, once
2^32 - 1 later uses of the sequence counter have happened; datagrams are not altered; replies to the requests of
other driver objects go to those objects' own sockets; datagrams from other hosts do not carry the
board's address, and the board's control-plane replies do not parse as waveform replies; the board echoes the
sequence number and the opcode of the request it answers; the CRC is any function of the payload. Results about
what is committed assume that the log of the socket holds no request that can still be answered and carries one of
the next sequence numbers, which a new socket guarantees and every use of the counter keeps. A run
is a finite schedule, and a receive that the schedule does not answer times out. Values that the source takes
from the clock, the file system, device registers or the vendor RFDC driver are parameters.

## Model

| member | source | states |
|---|---|---|
| Driver.Dr47Device.UploadInterleavedChunks | software/dr47/device.py:790-874 | For every network schedule: result, network and log are those of exchanging BEGIN, one DATA per fragment and COMMIT in order. Success means a complete chain of stale and own requests was committed under the returned descriptor, and the chunks' own bytes in a safe session. If every request is answered in time it does succeed and the board holds the bytes. A range error has one of the documented causes; automatic sessions stay automatic; an explicit session leaves the run id alone. |
| Driver.Dr47Device.UploadWaveforms | software/dr47/device.py:746-788 | The same for one wave per channel, sent as the interleaved image of the masked waves in ceil(length/1024) packets under the device's run id; on success in time, every sample is at its lane address on the board. |
| Driver.Dr47Device.RunUpload | software/dr47/device.py:830-864 | BEGIN, DATA and COMMIT of one session are exactly the upload's exchanges, up to the first failure; even a failed upload logs requests of that session only. |
| Driver.Dr47Device.StreamChunks | software/dr47/device.py:835-863 | Returns normally only for contiguous, non-empty, 32-byte-aligned chunks that end at the total; for such chunks the exchanges are the DATA of all fragments, numbered from zero at contiguous offsets. |
| Driver.Dr47Device.SendChunk | software/dr47/device.py:846-850 | One producer chunk becomes exactly its fragments, numbered on from the previous chunk; none of them is ever refused by the packer. |
| Driver.Dr47Device.SubmitRequest | software/dr47/device.py:449-467 | A connected call uses one sequence number and leaves the next ones distinct; an unpackable request is a range error, an unconnected call sends nothing, and otherwise the result is that of the request's exchange. |
| Driver.Dr47Device.SubmitChecked | software/dr47/device.py:436-442 | Returns only replies with status OK. |
| Driver.Dr47Device.TakeRunId | software/dr47/device.py:766-767 | The n-th run id is the n-th value of a counter from 1 to 2^32 - 1 that skips zero. |
| Driver.UploadArguments | software/dr47/device.py:813-824 | The arguments an upload accepts, as ranges. |
| Driver.FragmentsInRange | software/dr47/device.py:846-850 | Every fragment of contiguous chunks meets all DATA limits, including the 32-bit packet number, and the fragments concatenate to the chunks. |
| Driver.PieceInRange | software/dr47/protocol.py:274-287 | Every piece the driver cuts meets all DATA limits. |
| RecordUpload.SendRecord | software/send_waveform_udp.py:576-601 | Success in a safe session means the board committed the record's content, from the cache or the generator; generated content is the defined record exactly if the chunk size is safe. |
| Exchange.SendServes | software/dr47/transport.py:186-207 | A reply that is returned was produced by the board for this very request, after it was sent. |
| Exchange.UploadKeepsInv | software/dr47/simulator.py:229-306 | After BEGIN and any further answered requests, the buffer of the session is a chain of requests that could arrive. |
| Exchange.UploadCommitsChain | software/dr47/device.py:771-781 | For every schedule: if all requests of an upload are answered with OK, its COMMIT committed a complete chain of stale and own requests under the answered descriptor. |
| Exchange.FreshUploadCommitsImage | software/dr47/device.py:771-781 | If nothing stale can write to the session, the committed chain is the upload's own image. |
| Upload.SequenceClosedForm | software/dr47/device.py:183-186 | The k-th sequence number in closed form; it is never zero. |
| Upload.SequenceCollision | software/dr47/device.py:183-186 | Two uses share a number exactly when they are a multiple of 2^32 - 1 apart. |
| Upload.DistinctStep | software/dr47/device.py:183-186 | Using the next number keeps the following ones different from those of every request that can still be answered. |
| Upload.AnswerIsOwn | software/dr47/transport.py:186-192 | An accepted reply answers the newest request, never an older one that could still be answered. |
| Upload.OlderAnswerWouldMatch | software/dr47/transport.py:186-192 | The age bound is tight: a reply one full cycle old would be accepted. |
| Upload.ReceiveKeepsCoherent | software/dr47/simulator.py:229-293 | Any request of the pool, and any request that cannot write to the session, keeps the session's buffer a chain of the pool. |
| Upload.NetRunKeepsCoherent | software/dr47/simulator.py:229-306 | The same over every run of the network, and for the state before every event. |
| Upload.ServedBeginMakesCoherent | software/dr47/simulator.py:229-252 | Once a BEGIN of the pool is served for the session, the invariant holds whatever the board held before. |
| Upload.CommitSeesChain | software/dr47/simulator.py:295-306 | An acknowledged COMMIT under the invariant commits a complete chain with a nonzero descriptor. |
| Upload.OwnChainIsImage | software/dr47/device.py:771-781 | A complete chain of an upload's own requests is its image, under its own BEGIN. |
| Upload.AutomaticIsFresh | software/dr47/device.py:766-767 | The next run id of an automatic device is a fresh session exactly when no request of another driver object can write to it. |
| Upload.AutomaticGrows | software/dr47/device.py:766-774 | An upload that takes a run id and uses at least one sequence number keeps every request of the object owned by its own upload. |
| Upload.FragmentsConcat | software/dr47/device.py:846-850 | The pieces of a chunk concatenate to it and number ceil(length/packet size). |
| Upload.AllFragmentsConcat | software/dr47/device.py:837-859 | All packets put together are the producer's bytes. |
| Upload.PacketCount | software/dr47/device.py:826-859 | At least ceil(total/packet size) packets are sent, and exactly that many if every chunk but the last is whole packets. |
| UploadSuccess.InOrderDataIsAccepted | software/dr47/simulator.py:254-293 | From any board state in the invariant, BEGIN and the first k DATA in order are acknowledged and fill the buffer with the first k pieces; repeating one changes nothing. |
| UploadSuccess.LossFreeUploadCommits | software/dr47/simulator.py:229-306 | Then COMMIT starts the prefetch of exactly the image. |
| UploadSuccess.DeliverAnswers | software/dr47/transport.py:194-207 | A schedule that serves the request at least once and returns its first reply, with no more timeouts than retries, makes the call return that reply. |
| UploadSuccess.UploadSucceeds | software/dr47/device.py:771-781 | If every request is answered in that way, the upload returns normally and the board holds the image under the returned descriptor. |
| UploadLimits.ChainCanBeCommitted | software/dr47/simulator.py:229-306 | For every complete chain that is available when COMMIT is sent, some schedule answers every request with OK and commits the chain. |
| UploadLimits.CommitsOnlyChains | software/dr47/simulator.py:229-306 | Whatever is committed from the COMMIT on, in any run, is a complete chain. |
| UploadLimits.UploadOutcomes | software/dr47/simulator.py:229-306 | A description and image can be committed by an acknowledged upload if and only if some complete chain has them, when no stale request of the session reaches its age limit during the upload. |
| UploadLimits.CertainIffNoOtherChain | software/dr47/simulator.py:229-306 | The image is certain exactly when every complete chain is the upload's own. |
| UploadLimits.StalePieceIsCommitted | software/dr47/simulator.py:254-293 | For every upload: one stale DATA of the right number, offset and length can replace its piece in an acknowledged upload. |
| UploadLimits.StaleBeginIsCommitted | software/dr47/simulator.py:229-252 | For every upload: one stale BEGIN of the same size can replace its mask and loop count. |
| UploadLimits.SecondDriverCommitsFirstImage | software/dr47/device.py:149-150 | For any two uploads under one session: while the first object's requests can still arrive, the second object's upload can be acknowledged with the first image committed. |
| Transport.UdpTransport.ReceiveWaveResponse | software/dr47/transport.py:174-192 | The loop returns exactly what the schedule makes a receive return, and leaves the network there; a returned reply is one the board produced, with the awaited number and opcode. |
| Transport.ReceivesMoves | software/dr47/transport.py:174-192 | A receive only moves the network along its schedule, and returns a reply only if the board's address is one the socket takes. |
| Transport.UdpTransport.RequestWave | software/dr47/transport.py:194-207 | One packet is sent before each receive, all identical to the given one: at least one, at most retries + 1, and exactly that many before a timeout is reported; the result is that of receiving again after each timeout. |
| Transport.UdpTransport.Advance | software/dr47/simulator.py:229-306 | Serving a network action on the board object is exactly one step of the network relation. |
| Transport.NetRunKeepsWorldOk | software/dr47/simulator.py:229-369 | In every network run each logged event is what the board does for that request in a state satisfying the board invariant. |
| Transport.DatagramParses | software/dr47/protocol.py:321-388 | Every reply the board can produce survives the wire, with the sequence number and opcode of its request. |
| Board.SimulatedBoard.Begin | software/dr47/simulator.py:229-252 | The field updates refine the BEGIN step of the run model, for any arguments: a refused BEGIN changes nothing, an accepted one discards the previous upload and descriptor. |
| Board.SimulatedBoard.Data | software/dr47/simulator.py:254-293 | The field updates refine the DATA step, for any arguments, in the order of checks that decides between the offset, range, CRC, session, replay and sequence answers. |
| Board.SimulatedBoard.Commit | software/dr47/simulator.py:295-306 | The field updates refine the COMMIT step: repeating an acknowledged COMMIT changes nothing, an incomplete buffer is refused, and a new descriptor is the successor of the old generation, 1 after 2^32 - 1. |
| Board.SimulatedBoard.CompletePrefetch | software/dr47/simulator.py:308-313 | Refines the prefetch step: PLAYING if a PLAY was pending, else WAIT_TRIGGER, and nothing outside PREFETCH. |
| Board.SimulatedBoard.StartPlay | software/dr47/simulator.py:315-326 | Refines the PLAY step: accepted for session 0 or its own in every state but IDLE, UPLOAD, PLAYING, DRAINING and ERROR; PLAYING is only entered from WAIT_TRIGGER. |
| Board.SimulatedBoard.PausePlay | software/dr47/simulator.py:328-337 | Refines the PAUSE step: accepted for session 0 or its own in every state but IDLE, UPLOAD, DRAINING and ERROR; back to READY with the prefetch forgotten. |
| Board.SimulatedBoard.StopPlay | software/dr47/simulator.py:339-347 | Refines the STOP step: accepted for session 0 or its own in every state but IDLE, DRAINING and ERROR; an upload is aborted, anything else is paused. |
| Board.SimulatedBoard.AbortAll | software/dr47/simulator.py:349-363 | Refines the ABORT step: everything of the upload is cleared, unless another session is named. |
| Board.SimulatedBoard.Trigger | software/dr47/simulator.py:365-369 | Refines the trigger step: only WAIT_TRIGGER starts playing. |
| BoardControl.BeginAccepted | software/dr47/simulator.py:229-252 | In every reachable state BEGIN is accepted exactly for packable arguments, and keeps only the generation and the recorded error offset of what was there before. |
| BoardControl.CommitAccepted | software/dr47/simulator.py:295-306 | In every reachable state COMMIT is accepted exactly when it names the bound session and the buffer has the announced length; it says INCOMPLETE exactly when only the length is missing; only the first one changes anything, and binds the next generation. |
| BoardControl.PlayAccepted | software/dr47/simulator.py:315-326 | In every reachable state PLAY of session 0 or the own session is accepted exactly when a waveform is committed and not playing; a prefetched one plays, any other starts a prefetch with the play pending. |
| BoardControl.PauseAccepted | software/dr47/simulator.py:328-337 | In every reachable state PAUSE of session 0 or the own session is accepted exactly when a waveform is committed, and leaves READY with everything but the prefetch and the pending play kept. |
| BoardControl.StopAccepted | software/dr47/simulator.py:339-347 | In every reachable state STOP of session 0 or the own session is accepted exactly when an upload is bound; it pauses a committed waveform and drops any other upload. |
| BoardControl.AbortAndStatusAccepted | software/dr47/simulator.py:349-363 | In every reachable state ABORT of session 0 or the own session returns the board to its power-on state but for the generation and the last description; STATUS changes nothing. |
| BoardControl.DataStatus | software/dr47/simulator.py:254-293 | In every reachable state, and for any arguments: exactly when DATA is answered with OK, OFFSET, CRC and SEQUENCE, and with BAD_REQUEST otherwise. |
| BoardControl.DataReport | software/dr47/simulator.py:254-293 | What a DATA reply reports: the acknowledged packet, the next packet and byte, and the first error offset; and when the recorded error offset changes. |
| BoardControl.ReplyReportsBoard | software/dr47/simulator.py:219-227 | Every reply reports session, state and descriptor as they are after the call. |
| BoardControl.PlaybackCycle | software/dr47/simulator.py:308-337 | From every reachable committed state, PAUSE and PLAY and a completed prefetch lead to PLAYING with the buffer kept; a prefetch without a pending PLAY leads to WAIT_TRIGGER, from which a trigger or a PLAY plays. |
| BoardControl.GenerationCountsCommits | software/dr47/simulator.py:302-303 | In every run the generation is a closed form of the number of new commits so far, and a descriptor is the generation of its commit. |
| BoardControl.DescriptorsRepeatIff | software/dr47/simulator.py:302-303 | Two committed states of a run show the same descriptor exactly when the new commits between them are a multiple of 2^32 - 1. |
| BoardRuns.DataOutcome | software/dr47/simulator.py:254-293 | DATA is acknowledged exactly if it is the next in-order fragment or a replay of a recorded one; only the former changes more than the recorded error offset, and a replay changes nothing. |
| BoardRuns.StepKeepsInv | software/dr47/simulator.py:229-369 | Every call with any arguments keeps the board invariant. |
| BoardRuns.ReachableInv | software/dr47/simulator.py:229-369 | After any call sequence: fragments are indexed 0..next-1, are 32-byte multiples, telescope over the buffer and carry its CRCs; received bytes never exceed the total; descriptor, prefetch and pending flags agree with the state. |
| BoardRuns.CommittedBufferIsFrozen | software/dr47/simulator.py:295-369 | From a committed state, any calls without BEGIN or ABORT leave buffer, fragments, session and descriptor unchanged, and the buffer complete. |
| BoardRuns.PrefetchCompletes | software/dr47/simulator.py:308-313 | If the prefetch flag turned on during a run, a prefetch completion in PREFETCH did it, and it has stayed on since. |
| BoardRuns.PlayingNeedsPrefetch | software/dr47/simulator.py:308-369 | A run that is PLAYING after having been in PREFETCH completed a prefetch in between, and was waiting or playing ever since. |
| BoardRuns.RepliesAreInRange | software/dr47/simulator.py:219-306 | Every reply to a packable request can be put on the wire and carries that request's opcode. |
| WaveProtocol.ParseInvertsEncode | software/dr47/protocol.py:321-388 | Every in-range reply round-trips through the wire format. |
| WaveProtocol.EncodeInvertsParse | software/dr47/protocol.py:321-388 | Every accepted datagram re-encodes to the same bytes, padding and duplicated status included. |
| WaveProtocol.AcceptedIffEncoded | software/dr47/protocol.py:321-388 | A datagram is accepted exactly when some reply encodes to it. |
| WaveProtocol.PackRequestInjective | software/dr47/protocol.py:237-294 | A request packet's bytes determine the request and its sequence number, for any CRC function; which byte holds which field is WaveWire.RequestLayout. |
| WaveWire.RequestLayout | software/dr47/protocol.py:237-294 | A request is packed exactly for arguments in the listed ranges, and then each field is found at its byte offset, least significant byte first: for BEGIN the total at 28, the beats at 40 and the loop count at 44; for DATA the packet number at 28, the offset at 32, the CRC at 44 and the payload from 48 on. |
| WaveWire.ReplyLayout | software/dr47/protocol.py:321-388 | A datagram is accepted exactly if length, magic, version, opcode, size, padding, state and repeated status are right; then each field of the reply is read at its byte offset; the version error is raised exactly for a wrong version behind the right magic. |
| Transport.DatagramCarries | software/dr47/simulator.py:219-293 | Every datagram the board sends carries status, session, state, descriptor and the DATA counters at their offsets, with the number and opcode of its request. |
| Interleave.PackInterleaved | software/dr47/waveforms.py:279-301 | The bytearray loops build exactly the image defined byte by byte, and report its sample count; the image holds every sample of every padded channel at its lane address, low byte first. |
| Interleave.ImageIsWholeFrames | software/dr47/waveforms.py:290-296 | The image is a whole number of 256-byte frames, so the size equation of BEGIN holds. |
| Interleave.SampleCountIsLeast | software/dr47/waveforms.py:284-290 | Every channel has the least number of samples that is a multiple of 16 and leaves no wave out. |
| Interleave.LaneAddress | software/dr47/waveforms.py:265-272 | An address exists exactly for channels 1..8, whole lanes and aligned bases, and is base + 8 (offset + channel - 1). |
| Interleave.AddressesTile | software/dr47/waveforms.py:265-272 | Every image byte is one lane byte of one channel at one offset, and of no other. |
| Interleave.DefaultMaskSelects | software/dr47/device.py:757-758 | The default mask fits eight bits and selects exactly the channels that have a wave. |
| Interleave.MaskBits | software/dr47/device.py:757-759 | Channel c is selected exactly if bit c - 1 of the mask is set, and the default mask is the sum of the bits of the given channels. |
| Interleave.MaskingKeepsLength | software/dr47/device.py:759-761 | Masked channels are silent but keep their length, so the image has 16 bytes for every sample of the unmasked waves. |
| Interleave.ImageHoldsSamples | software/dr47/device.py:757-761 | The image of the masked waves holds every sample of every channel at its lane address, as UploadedSample says. |
| Interleave.UploadedSample | software/dr47/device.py:757-761 | The two bytes at the lane address of sample i, low + 256 high, are the low sixteen bits of the caller's sample if its channel is in the mask and i is in range, and zero otherwise. |
| MaxLength.Layout.CorrectIffChunkSafe | software/host.py:1269-1300 | The run-length generator draws every beat from its own region if and only if the chunk size is safe. |
| MaxLength.GeneratorRefinesDefinition | software/host.py:1200-1300 | The concatenated chunk bytes equal the per-beat record if and only if the chunk size is safe. |
| MaxLength.RegionOfBeat | software/host.py:1184-1197 | The byte-level region of a beat is its region counted in beats. |
| MaxLength.RegionsOfRecord | software/host.py:1184-1197 | The region of a beat by its distance from the middle of the record: markers of equal length at the start, around the middle and at the end, the earlier one where they overlap. |
| MaxLength.RecordIsSymmetric | software/host.py:1184-1197 | A record with room for its three markers reads the same from both ends. |
| MaxLength.BeatSamples | software/host.py:1169-1219 | All 32 samples of a beat: in each lane both I samples are the region's base plus 0x80 times the channel, and both Q samples are zero. |
| MaxLength.BeatsDiffer | software/host.py:1169-1219 | The four regions have four different beats. |
| MaxLength.ShrinkRun | software/host.py:1278-1286 | The shrinking loop finds the longest run of at most the limit whose last beat lies in the region of the first. |
| MaxLength.PayloadChunks | software/host.py:1245-1300 | The generator succeeds exactly on valid arguments and yields the specified chunks. |
| MaxLength.ShortChunksAreSafe | software/host.py:1269-1300 | A chunk of at most one marker plus one beat is safe. |
| MaxLength.DefaultChunkLosesMarker | software/host.py:1347-1356 | The default chunk and marker sizes generate a wrong full-memory record. |
| BulkStream.DecodeInvertsPack | software/host.py:1514-1524 | A packed bulk datagram decodes to its address and payload. |
| BulkStream.DatagramLayout | software/host.py:1439-1444 | A chunk is packed exactly if its address fits 64 bits; the magic is at 0, the address at 8, the number of 64-bit words at 16 and the chunk from 24 on. |
| BulkStream.DecodesExactly | software/host.py:1514-1524 | The decoder accepts exactly the datagrams with the magic, an aligned address and a word count that is a positive multiple of four and matches the length. |
| BulkStream.TilesFillMemory | software/host.py:1514-1524 | A stream that decodes to consecutive pieces fills exactly [base, base + length) with the image and touches nothing else. |
| BulkStream.UdpBatches | software/host.py:1409-1444 | The direct stream decodes to consecutive pieces of the defined record, each byte once, in datagrams of one to beatsPerDatagram beats; it succeeds whenever arguments are valid and the record fits 64-bit addresses. |
| BulkStream.DirectStreamIsTheRecord | software/host.py:159-175 | Batches of at most four beats always generate the defined record. |
| BulkStream.EnsureCache | software/host.py:1347-1406 | A cache of the right size is reused unless forced; otherwise it becomes the concatenation of the generated chunks; its size is always right. |
| BulkStream.ReadCache | software/host.py:1447-1480 | Chunk k starts at beat k times the chunk size and has that many beats or all that are left; the chunks concatenate to the file. |
| BulkStream.UdpBatchesFromCache | software/host.py:1483-1500 | The cached stream decodes to consecutive pieces of the file; datagram k carries min(beatsPerDatagram, rest) beats; it succeeds whenever arguments are valid and the file fits 64-bit addresses. |
| BulkStream.StreamsAgreeIff | software/host.py:1347-1500 | Direct and freshly cached streams leave the same memory if and only if the generation chunk size is safe. |
| BulkStream.RecordChunksUpload | software/host.py:1447-1480 | Such chunks, with byte offsets, are a stream the upload accepts, with the same bytes. |
| Tdc.CalibrationAccepts | software/dr47/tdc.py:49-63 | Calibration succeeds exactly on 2048 non-negative counts with enough samples, at least 64 occupied bins and no bin above 1/50 of the samples; its table is never refused, spans at least 490 units, and each entry is the nearest integer to its bin's centre, the even one at a tie. |
| Tdc.TableProperties | software/dr47/tdc.py:62-63 | Entries lie in 0..500, never decrease, start within 5 of 0 and end within 5 of 500, and are the nearest integers to the bin centres, even at ties. |
| Tdc.EntryNearCentre | software/dr47/tdc.py:62-63 | Each entry is within 5 ps of its bin's centre. |
| Tdc.RintMonotone | software/dr47/tdc.py:63 | Rounding to the nearest integer is monotone; that ties go to the even neighbour is Tdc.RintTiesToEven. |
| Tdc.RintTiesToEven | software/dr47/tdc.py:63 | A value half-way between two integers is rounded to the even one. |
| Tdc.ValidTables | software/dr47/tdc.py:36-46 | A table is valid exactly if it has 2048 entries in 0..600, never decreases between any two of them, and spans at least 400 units. |
| SyncFirmware.PollRunIsSafe | firmware/src/main.c:938-949 | In every run: no word has READY and FAILED, NCO_SYNC_READY implies READY, every word requires MTS of all four tiles, the ACK at the loop head is the last consumed epoch, and each attempt acknowledges as specified. |
| SyncFirmware.RealignIsSafe | firmware/src/main.c:736-781 | One attempt: earlier words keep the old ACK; the last carries the new epoch, ready if everything succeeded and failed with the error code otherwise. |
| SyncFirmware.OutcomeReported | firmware/src/main.c:736-781 | The last word of an attempt shows READY and NCO_SYNC_READY exactly if the reinitialization, both MTS passes and the NCO alignment succeeded, and otherwise FAILED with the code of the first step that failed. |
| SyncFirmware.UnfailedAckIsEarned | firmware/src/main.c:736-781 | Within an attempt, an unfailed word with the new epoch is its last word, and everything succeeded. |
| SyncFirmware.AckIsTruthfulIff | firmware/src/main.c:938-949 | Over every run: each word without FAILED names an epoch whose latest attempt succeeded, or one never attempted, if and only if no failed attempt is followed by another attempt. |
| SyncFirmware.NcoAckIsTruthfulIff | firmware/src/main.c:938-949 | The same for words with NCO_SYNC_READY: if and only if no failed attempt is ever followed by a successful one. |
| SyncFirmware.FailedAckReappears | firmware/src/main.c:736-781 | Two attempts in a row: after a failed epoch, the next attempt shows that epoch's ACK without FAILED, and with NCO_SYNC_READY exactly if it succeeds. |
| SyncFirmware.StartupIsSafe | firmware/src/main.c:808-929 | From the word the GPIO setup publishes on, a boot enters the loop exactly if RFDC setup, MTS and NCO alignment succeed, and only then shows NCO_SYNC_READY; the ACK starts at zero. |
| SyncFirmware.AckRoundTrip | firmware/src/main.c:178-189 | A six-bit epoch survives the ACK field and touches no other bit. |
| SyncFirmware.FlagLayout | firmware/src/main.c:191-204 | The flag bits of a status word, with the four tiles in bits 4..7, and bits 24 and 31 clear. |
| SyncFirmware.FieldLayout | firmware/src/main.c:178-189 | The error code is bits 8..23 of a word and the epoch bits 25..30. |
| SyncFirmware.Firmware.RealignDacForSyncEpoch | firmware/src/main.c:736-781 | The register writes of an attempt are exactly those specified; from a safe state all words stay safe and the last one acknowledges the epoch with the outcome. |
| SyncFirmware.Firmware.ConfigureDacMts | firmware/src/main.c:584-625 | Publishes READY exactly if both MTS passes succeed, never with NCO_SYNC_READY. |
| SyncFirmware.Firmware.Run | firmware/src/main.c:808-949 | GPIO setup, boot and poll loop refine the run specification, so every published word is safe. |
| Bandwidth.CounterPort.ReadU64 | firmware/src/bandwidth_main.c:118-132 | For a counter that never falls, the value read lies between the first and last instant, and is one held at a low read if it grew by at most 2^32 meanwhile. |
| Bandwidth.TornRead | firmware/src/bandwidth_main.c:118-132 | With equal high words the value is the one at the first low read, without any growth bound; otherwise it is the one at the second low read exactly if no further carry came before it. |
| Bandwidth.TornReadBoundIsTight | firmware/src/bandwidth_main.c:118-132 | One more count and the value read may be one the counter held at no read instant. |
| Bandwidth.CountedIsTrueIncrease | firmware/src/bandwidth_main.c:139-142 | The summed 32-bit differences equal the true increase exactly when no sample advanced the counter by 2^32 or more. |
| Bandwidth.SampleLoop | firmware/src/bandwidth_main.c:185-245 | Each printed window holds the increase over its own 30 samples, and windows plus the open one hold all of it; the 64-bit accumulator never wraps. |
| Bandwidth.BurstsSinceStart | firmware/src/bandwidth_main.c:185-245 | Windows plus the open one equal the true increase since the first reading exactly when every sample advanced by less than 2^32. |
| IlaReport.ValidWindows | software/ila_capture_report.py:639-651 | The windows are maximal active runs, in order, separated, and cover exactly the active samples. |
| IlaReport.WindowsAreTheMaximalRuns | software/ila_capture_report.py:639-651 | An interval is listed exactly if it is a maximal active run. |
| IlaReport.LengthsAreActiveCycles | software/ila_capture_report.py:855-860 | The window lengths add up to the number of active samples, counted as a set. |
| IlaReport.ComparisonIsExact | software/ila_capture_report.py:779-791 | The matches are the number of positions with equal samples, matches plus mismatches make up the longer length, zero mismatches means equality, and the reported mismatch is the least one. |
| IlaReport.TiledIffLoops | software/ila_capture_report.py:797-800 | Equality with the rolled and resized record is equality with the record looped from that offset. |
| IlaReport.CompareLoopSamples | software/ila_capture_report.py:794-802 | For a nonempty record, zero mismatches exactly when the capture is some rotation of the looped record; otherwise the matches are the positions that equal the record looped from its start, and the reported mismatch is the first of the others. |
| Ezq.RoutesAgree | software/dr47/waveforms.py:192-244 | For every format, packing directly or through interleaved lanes gives the same words, and interleaving directly or through words the same lanes; both fail together. |
| Ezq.MatrixLanes | software/dr47/waveforms.py:200-214 | A matrix is accepted exactly with two rows or two columns; lane 2k is then I[k] and lane 2k + 1 is Q[k], each with its low sixteen bits. |
| Ezq.FlatLanes | software/dr47/waveforms.py:215-222 | Interleaved values go to their own lanes and must be even in number; a packed value goes to two lanes, low half first. |
| Ezq.RealLanes | software/dr47/waveforms.py:223-227 | Real value k goes to lane 2k, with zero in lane 2k + 1. |
| Ezq.FlatIsRowMajor | software/dr47/waveforms.py:215-227 | A matrix that is used flat is read row by row. |
| Ezq.PackedRoundTrip | software/dr47/waveforms.py:192-244 | Packed to interleaved to packed is the identity on all int32 sequences. |
| Ezq.InterleavedRoundTrip | software/dr47/waveforms.py:192-244 | Interleaved to packed to interleaved is the identity exactly on even-length int16 sequences; odd lengths are refused. |
| Ezq.WordIsItsLanes | software/dr47/waveforms.py:215-217 | In memory a packed word is its I lane followed by its Q lane. |
| Ezq.OrientationIsInferred | software/dr47/waveforms.py:200-214 | Rows and columns convert alike unless there are two samples, and then exactly if the second I equals the first Q. |
| Ezq.RealWaveHasZeroQ | software/dr47/waveforms.py:223-227 | A real wave becomes words with its samples low and zero high. |

## Left out

- Sockets, interface binding, timeouts, back-off sleeps, packet pauses and progress callbacks.
- CRC-32 and SHA-256 themselves, the cache key and the cache's metadata file.
- Datagrams altered on the way; the request decoder of the real board, since the simulated board has none.
- The counters and FIFO levels in a STATUS reply, which the model sends as zero; STATUS and diagnostics decoding.
- DRAINING, DONE and ERROR, which the simulated board never enters; repeated PLAY is not retry-safe and no claim is made for it.
- upload_and_commit, which does not check the replies.
- `_infer_wave_format`: waves reach `UploadWaveforms` as interleaved int16 samples; `Ezq` covers the conversions.
- Floating-point wave synthesis and the low-frequency sine pattern of the max-length record.
- Float inputs to the I/Q conversions; integer arrays are taken to be cast by keeping their low bits.
- Rounding in float64 during calibration: `Tdc` works over exact rationals. Writing a table to the board and reading it back.
- The tiled DDR address map, a fixed permutation of tiles.
- The byte, stall and underflow windows of the bandwidth firmware, which add register values without wrap handling.
- RFDC setup, reinitialization, MTS and NCO alignment inside the RFDC driver, which are arbitrary outcomes here.
- The web service, run coordinator, discovery, provisioning, command lines and Vivado scripts.
- Driver.Dr47Device.UploadWaveforms: a device that was not connected loses the automatic-session guarantee, because the run id is taken before the connection is checked.
- UploadLimits.UploadOutcomes: the converse direction is for stale requests that last until COMMIT is sent; that nothing but chains is committed needs no such condition.
- RecordUpload.SendRecord: without a cache, invalid record arguments are reported before BEGIN rather than by the generator after it.
