# Verified model of WsprryPico's encoders, framing, installer and job checks

WsprryPico turns a Pico 2 W into a WSPR, QRSS, FSKCW and DFCW beacon. This project models
the parts of it where a wrong bit, a lost byte or a crash at the wrong moment matters, and
proves what they are for, for all inputs and all runs:

- **WSPR** (`WsprMessage`, `WsprChannel`, `WsprHash`, `WsprPlan`, `WsprOracle`): packing into
  50 bits, convolutional coding and interleaving, the 15-bit hash, and the exact description
  of which extended calls share a payload. Every frame has a decoder that inverts it, and
  the reference implementation's answers follow from the model.
- **WTP byte streams** (`Crc32c`, `WtpFrame`, `WtpMonitor`, `WtpStrict`, `GattFrames`): the
  CRC-32C of section 12.1 of RFC 3720, the resynchronising decoder as a stream function,
  the two strict receivers it refines, and the numbered Bluetooth fragments.
- **Morse** (`MorseCode`, `Morse`, `MorseReading`, `MorseReceiver`): measuring with 64-bit
  overflow checks, unrolling to events, and a receiver that reads the text back from them
  (letters of ITU-R M.1677-1, Annex 1, Part I, section 1.1).
- **Firmware** (`Uf2`, `Uf2Writer`, `FirmwarePayload`, `Installer`): what an acceptable image
  is, that every image has a file, that it is the linked program, and the installer as a
  machine that may stop anywhere and can still be brought to its end.
- **CI command runner** (`CiExecution`): every interleaving of signals with the spawn,
  wait, clean-up, persist and restore steps.
- **Allocation and timing** (`Pins`, `Filters`, `JobTiming`): pin claims, the filter bank,
  job boundaries and the semantic check of a LOAD request.

Decoders, receivers, event lists, pin validation and the loops are classes and methods
that update their state in place, each specified by a function; what the program promises
is then proved about those functions. The installer and the command runner are state
machines over their durable and volatile state. `Options`, `Collections`, `Callsign`, `Words`,
`Octets` and `Bytes` hold what several modules share. `dfyconfig.toml` names all the modules.

## Where the code does less than its comments say

- **The recovery flag.** The installer's completing update clears `recovery_required` in
  memory before it is saved (scripts/usb_installer.py:1924-1926). If that save fails and
  the first run's handler then saves successfully (lines 1836-1841), the durable record is
  `failed`, authorised, written, never completed, and no longer asks for recovery, so later
  pruning takes it for a refusal before any change (lines 1560-1563). `FlagDropsExactly`
  shows that this is the only way the flag is lost; `FlagCanDrop` is such a run. Unless it is
  pruned first, its recovery is still admitted (`RecoveryAdmittedExactly`).
- **Handlers of the command runner.** A signal that raises between installing a handler
  and recording it (scripts/ci/execution.py:243), or as the `finally` begins (line 249),
  leaves a handler in place, as a restoration that fails does. `HandlersPutBack` shows
  that a handler outlives a run exactly when its interleaving has such a step, and
  `HandlerCanStay` is such an interleaving.
- **A passed receipt of a cancelled run.** A cancellation after the recheck raises, as
  promised, but the saved receipt keeps saying passed. `CancelledReceipt` gives the exact
  condition and `LatePassedReceiptStays` an interleaving.

## Model

| member | source | states |
|---|---|---|
| WsprPlan.Type2Collisions | src/encoding/wspr_plan.cpp:41-73 | Two extended calls have the same Type 2 payload exactly when the powers agree and the calls are equal or one BASE/Q..Z, BASE/00..09 pair |
| WsprPlan.ExtensionDecides | src/encoding/wspr_plan.cpp:45-71 | Base call and extension number are shared exactly by equal calls and such pairs: prefixes and suffixes never meet |
| WsprPlan.SuffixCodesCollide | src/encoding/wspr_plan.cpp:52-55 | Two suffixes have one code exactly when they are equal or Q..Z against 00..09 |
| WsprPlan.PrefixCodesDiffer | src/encoding/wspr_plan.cpp:66-70 | Prefixes of any lengths from one to three characters have different base-37 codes |
| WsprPlan.AmbiguityIsExact | src/encoding/wspr_plan.cpp:155-175 | For a plan whose first frame is Type 2, the only ones that can be ambiguous, the flag is set exactly when some other accepted call, with any locator and power, sends the same first payload |
| WsprPlan.AlternateIsMutual | src/encoding/wspr_plan.cpp:160-175 | The alternate call is another call, is planned for the same station with the same Type 2 frame, and names the first call back |
| WsprPlan.PlanStation | src/encoding/wspr_plan.cpp:135-179 | The plan is empty, one or two frames by the station's grammar; the alternate fits its token; frames, flag and alternate are those of the planning specification |
| WsprPlan.FindAlternate | src/encoding/wspr_plan.cpp:160-175 | Flag and alternate call are those of the suffix overlap, and the alternate fits its array |
| WsprPlan.PlanDecodes | src/encoding/wspr_plan.cpp:135-158 | Every planned frame decodes: Type 1 to call, square and power, Type 2 to a base call, a number and the power, from which a receiver expands exactly the call, or the call and its alternate, Type 3 to six-character locator, hash and power |
| WsprPlan.ExtensionExpands | src/encoding/wspr_plan.cpp:45-71 | A receiver that knows only the three number ranges gets from base call and extension number exactly the call, or the call and its alternate |
| WsprPlan.PlanShape | src/encoding/wspr_plan.cpp:135-158 | Which stations have a plan, and the types of its frames: one, or Type 2 and Type 3 for an extended call with six characters of locator |
| WsprPlan.FrameReadsBack | src/encoding/wspr_plan.cpp:37-40 | The symbols of a planned frame give its payload back, listening to either coded stream |
| WsprPlan.MakeFrame | src/encoding/wspr_plan.cpp:37-40 | The payload is the bitwise or of n shifted by 22 and the low 22 bits of the field, which have no bit in common, so it is their sum |
| WsprPlan.MakeCompound | src/encoding/wspr_plan.cpp:41-73 | A frame results exactly for the extended calls, with the Type 2 payload; no unsigned step wraps |
| WsprPlan.MakeHashed | src/encoding/wspr_plan.cpp:74-80 | The Type 3 frame packs the rotated locator and the hash; no unsigned step wraps |
| WsprPlan.PackBase | src/encoding/wspr_plan.cpp:29-36 | A base call packs exactly when it is an ordinary call |
| WsprPlan.WsprType1 | src/encoding/wspr.cpp:67-98 | Symbols result exactly for an ordinary call, a square and a listed power, and are those of the Type 1 payload |
| WsprPlan.WsprType1FromStation | src/encoding/wspr.cpp:60-65 | A station with an ordinary call uses the first four locator characters |
| WsprMessage.ValidStationCallsign | src/encoding/wspr.cpp:38-54 | The accepted station calls: letters and digits, one of each, in nonempty slash-separated segments, optionally in brackets, never the placeholder |
| WsprMessage.PackSix | src/encoding/wspr_plan.cpp:21-28 | For packable characters the loop's 32-bit steps never wrap and give the mixed-radix number |
| WsprMessage.UnpackInverts | src/encoding/wspr_plan.cpp:21-28 | The mixed-radix number of six packable characters gives them back, so packing is injective |
| WsprMessage.UnpadInverts | src/encoding/wspr.cpp:72-76 | The padded call gives the call back |
| WsprMessage.Type1Decodes | src/encoding/wspr.cpp:87-97 | A Type 1 payload fits 50 bits, is told apart by its low seven bits and decodes to call, square and power |
| WsprMessage.Type2FieldReads | src/encoding/wspr_plan.cpp:58-60 | The power and type field carries the sixteenth extension bit and never reads as Type 1 |
| WsprMessage.Type2Decodes | src/encoding/wspr_plan.cpp:58-73 | A Type 2 payload fits 50 bits and decodes to base call, extension and power |
| WsprMessage.Type3Decodes | src/encoding/wspr_plan.cpp:74-80 | A Type 3 payload fits 50 bits and decodes to locator, hash and power |
| WsprMessage.LowSevenBitsDecide | src/encoding/wspr_plan.cpp:37-40 | Payloads with the same low seven bits have the same type |
| WsprMessage.PowersAre | src/encoding/wspr.cpp:26-27 | The listed powers are exactly those up to 60 dBm that end in 0, 3 or 7 |
| WsprMessage.EverySquareIsUsed | src/encoding/wspr.cpp:92-95 | Every index below 180 * 180 is that of an accepted square |
| WsprMessage.OrIsPayload | src/encoding/wspr.cpp:96 | Shifting n by 22 and or-ing in a field below 2^22 adds them |
| WsprChannel.ChannelSymbols | src/encoding/wspr.cpp:99-116 | For every 64-bit payload the register loop and the in-place interleaving loop give the closed form sync + 2 * coded[rank]; the source index ends at 162 |
| WsprChannel.Convolve | src/encoding/wspr.cpp:100-106 | The register loop fills the array with the coded bits of any 64-bit payload |
| WsprChannel.Reversed | src/encoding/wspr.cpp:109-111 | Eight turns reverse the bits of an index |
| WsprChannel.ChannelReadsBack | src/encoding/wspr.cpp:99-116 | Every 50-bit payload is recovered from its 162 symbols, from either of the two coded streams alone |
| WsprChannel.SymbolsCarrySync | src/encoding/wspr.cpp:107-114 | Each symbol is 0..3 with the sync vector in its low bit and the coded bit of its rank above |
| WsprChannel.OrderIsPermutation | src/encoding/wspr.cpp:108-114 | The 256 turns of the loop fill each of the 162 positions exactly once |
| WsprChannel.ReverseTwice | src/encoding/wspr.cpp:109-111 | Reversing eight bits twice gives the index back |
| WsprChannel.CodedIsConvolution | src/encoding/wspr.cpp:101-106 | Each coded bit is the parity of the source bits that its tap word selects, stated without a register |
| WsprChannel.CodedIsSum | src/encoding/wspr.cpp:101-105 | Each coded bit is the sum, modulo 2, of the source bits a fixed list of steps back: the two parity equations, without register or tap word |
| WsprChannel.DecodeInverts | src/encoding/wspr.cpp:101-106 | A sequential decoder of either stream inverts the encoder for every bit string and register |
| WsprHash.WsprHash | src/encoding/wspr_plan.cpp:102-134 | The hash of any byte string, computed in 32-bit wrapping words in place, is below 2^15 and is the 15-bit cut of the digest |
| WsprHash.Mix | src/encoding/wspr_plan.cpp:81-100 | The eighteen in-place statements are the six turns of the block mix |
| WsprHash.Finish | src/encoding/wspr_plan.cpp:118-131 | The fourteen in-place statements are the seven steps of the closing sequence |
| WsprHash.Add | src/encoding/wspr_plan.cpp:105-110 | Adding up to twelve bytes one at a time adds three little-endian words |
| WsprHash.MixIsBijection | src/encoding/wspr_plan.cpp:81-100 | The block mix has an inverse on all three words |
| WsprHash.CloseIsBijection | src/encoding/wspr_plan.cpp:118-131 | The closing sequence has an inverse on all three words |
| WsprHash.AddedInjective | src/encoding/wspr_plan.cpp:105-110 | Different blocks of one length are added to different words |
| WsprHash.DigestInjectiveInState | src/encoding/wspr_plan.cpp:111-131 | The same string takes different states to different states, for any length |
| WsprHash.OneBlockNeverCollides | src/encoding/wspr_plan.cpp:102-134 | Strings of one length that differ inside one twelve-byte block, so any two different strings of equal length up to 12, reach different words before the cut |
| WsprOracle.SuffixPayloads | tests/wspr_oracle_vectors.hpp:34-53 | The payloads of AA0NT/P and AA0NT/99 are the reference's |
| WsprOracle.PrefixPayloads | tests/wspr_oracle_vectors.hpp:14-21 | So are those of PJ4/AA0NT and W0/AA0NT |
| WsprOracle.HashedPayload | tests/wspr_oracle_vectors.hpp:66-69 | So is that of <AA0NT>, from the characters of the call to the packed hash |
| WsprOracle.KnownHash | tests/wspr_oracle_vectors.hpp:113 | The hash of thirteen characters, which takes a block mix and a closing sequence, is the reference's |
| WsprOracle.SyncIsKnown | tests/wspr_oracle_vectors.hpp:34-37 | Whatever is sent, the low bits of the 162 symbols are those of the reference's symbols |
| Crc32c.Compute | scripts/validate_wtp_contract.py:92-98 | The nested loops give the checksum |
| Crc32c.BurstDetected | scripts/validate_wtp_contract.py:92-98 | Equal-length data that differ only inside one window of at most four consecutive bytes have different checksums |
| Crc32c.ResidueExactly | scripts/validate_wtp_contract.py:92-98 | Four bytes behind any data leave the residue of CRC-32C exactly when they are the data's checksum, low byte first |
| Crc32c.CheckValue | scripts/validate_wtp_contract.py:276-277 | The checksum of the figures 1 to 9 is the standard check value |
| Crc32c.AbsorbWindow | scripts/validate_wtp_contract.py:94-97 | Absorbing up to four bytes is that many shifts of the register with the window folded in at once |
| Crc32c.AbsorbInjective | scripts/wsprrypico_ble.py:308-314 | The same bytes take different registers to different registers |
| Crc32c.StepsLinear | scripts/validate_wtp_contract.py:96-97 | Any number of register shifts is linear over exclusive or |
| Crc32c.StepsInjective | scripts/validate_wtp_contract.py:96-97 | Any number of register shifts is injective |
| WtpFrame.HeaderReadsBack | scripts/validate_wtp_contract.py:101-102 | The header of a length in range reads back its fields, whatever follows |
| WtpFrame.HeaderCanonical | scripts/wtp_monitor.py:60-66 | Sixteen bytes that read as valid fields are the header made of them |
| WtpFrame.KnownHeader | engineering/protocol/test-vectors/wtp-1.json:128-135 | The header of the framing vector |
| WtpFrame.WordReadsBack | scripts/validate_wtp_contract.py:101-102 | The checksum field reads back |
| WtpMonitor.FrameDecoder.Feed | scripts/wtp_monitor.py:48-76 | One call delivers and keeps what the whole stream function says of the kept and new bytes; at most 65551 bytes are kept, so the bound exception is never raised |
| WtpMonitor.ChunkingInvariant | scripts/wtp_monitor.py:48-76 | Any division of a stream into chunks delivers the same payloads and keeps the same bytes as one call with all of it |
| WtpMonitor.ScanInPieces | scripts/wtp_monitor.py:48-76 | Bytes already judged do not change what later bytes mean, including magic, header and payload split across calls |
| WtpMonitor.RoundTrip | scripts/wtp_monitor.py:48-76 | Frames of any payloads of 1..65536 bytes after any bytes without the magic decode to exactly those payloads with nothing kept |
| WtpMonitor.Resynchronises | scripts/wtp_monitor.py:48-76 | With bytes that hold no magic before each of any number of frames and anything after, exactly the frames' payloads are delivered and the rest is judged as if it stood alone |
| WtpMonitor.OnlyHeadersMatter | scripts/wtp_monitor.py:52-64 | Bytes are passed over exactly as if they had not been sent as long as no valid or incomplete header begins among them: a false magic costs one byte, never the start of a frame behind it |
| WtpMonitor.FrameIsFound | scripts/wtp_monitor.py:52-73 | A frame is delivered behind any such bytes, false magics included, and the rest is judged as if it stood alone |
| WtpMonitor.ScanFrames | scripts/wtp_monitor.py:48-76 | Leading frames are delivered and the rest is judged as if it stood alone |
| WtpMonitor.MagicHasNoBorder | scripts/wtp_monitor.py:52-57 | Bytes without the magic cannot complete one with the start of a frame |
| WtpMonitor.DamagedFrameDiscarded | scripts/wtp_monitor.py:65-73 | A frame damaged only within four consecutive payload bytes vanishes and its neighbours are delivered |
| WtpMonitor.Skipped | scripts/wtp_monitor.py:69-72 | A frame whose checksum does not match its payload is passed over whole |
| WtpMonitor.DeliveredWasFramed | scripts/wtp_monitor.py:60-73 | On any stream each delivered payload stood in it inside its whole frame |
| WtpStrict.WtpReceiver.Receive | scripts/wsprrypico_ble.py:336-369 | Messages and kept bytes of the strict reading of the whole buffer; every failure empties the buffer |
| WtpStrict.Decoder.Feed | scripts/wtp_capacity.py:55-70 | The same reading with this decoder's byte bound; after a bad header, checksum or JSON text the bytes from the failing frame on stay, after an excess all of them |
| WtpStrict.UnreadAfterFrames | scripts/wtp_capacity.py:59-70 | The bytes that stay come after whole accepted frames, and the strict reading of them alone ends the same way with nothing delivered before |
| WtpStrict.StrictAgreesWithMonitor | scripts/wsprrypico_ble.py:336-369 | On every stream and chunking where a strict receiver never fails, the resynchronising decoder delivers the same payloads, however it was fed |
| WtpStrict.StrictStream | scripts/wtp_capacity.py:55-70 | A receiver that has not failed read the whole stream; with chunks of at most 64 bytes its size bound is never the reason for failing |
| WtpStrict.StrictMatchesScan | scripts/wtp_monitor.py:48-76 | A buffer read strictly without failure scans to the same payloads |
| WtpStrict.StrictInPieces | scripts/wsprrypico_ble.py:342-369 | The strict reading does not depend on where the stream is cut |
| WtpStrict.StrictAcceptsFrames | scripts/wsprrypico_ble.py:342-369 | Frames of acceptable payloads and the start of another are accepted and delivered |
| WtpStrict.StrictAcceptsOnlyFrames | scripts/wsprrypico_ble.py:342-369 | Only such streams are accepted |
| WtpStrict.KeptIsPartial | scripts/wtp_capacity.py:59-65 | Less than one frame is ever kept |
| GattFrames.Cut | scripts/wsprrypico_ble.py:246-258 | A payload is cut exactly when it is nonempty and fits the frames, into its numbered fragments |
| GattFrames.FragmentSizes | scripts/wsprrypico_ble.py:246-258 | Exactly payloads of 1 to 960 bytes are cut, into frames of 64 bytes but for a shorter last one |
| GattFrames.FrameReceiver.Receive | scripts/wsprrypico_ble.py:273-305 | The outcome is the judgement of the frame after those held; a rejected or final frame leaves the receiver empty |
| GattFrames.FrameReceiver.Reset | scripts/wsprrypico_ble.py:266-271 | The receiver is empty |
| GattFrames.JudgeIsExact | scripts/wsprrypico_ble.py:273-305 | Exactly the frames that continue a consecutive run within the maximum are kept, and exactly those that end one deliver it |
| GattFrames.MessageIsLatestRun | scripts/wsprrypico_ble.py:273-305 | Whatever frames arrive, a frame delivers a message exactly when the frames the receiver has held since it was last empty, with this one, are numbered 0..k-1 with only the first marked first and only the last marked last, within the maximum; these are the latest frames received, and the message is their bodies |
| GattFrames.HeldIsLatest | scripts/wsprrypico_ble.py:273-302 | The frames held are the latest ones received, in order |
| GattFrames.CutsGiveBack | scripts/wsprrypico_ble.py:246-305 | A fresh receiver with room gives a cut payload back at its last frame and not before |
| GattFrames.CutsGiveBackExactly | scripts/wsprrypico_ble.py:246-305 | Whatever frames came before, a payload's frames deliver it exactly at the last of them, and exactly when the receiver held nothing before the first and has room; otherwise they deliver nothing |
| GattFrames.TooBigIsNeverDelivered | scripts/wsprrypico_ble.py:295-298 | A receiver without room never delivers anything for it |
| GattFrames.FragmentsJoin | scripts/wsprrypico_ble.py:252-257 | The bodies of the first n fragments are the first bytes of the payload |
| MorseCode.TableReadsBack | src/encoding/morse.hpp:15-30 | Every code of the alphabet gives its character back |
| MorseCode.CodesDiffer | src/encoding/morse.hpp:15-30 | No two characters have one code, up to case |
| Morse.Measure | src/encoding/morse.hpp:56-135 | The 64-bit computation gives the verdict of unbounded arithmetic: overflow is reported exactly when the total exceeds 2^64-1, each refusal in its order |
| Morse.MeasurePattern | src/encoding/morse.hpp:92-118 | The walk tallies exactly the elements of the text until their sum leaves 64 bits |
| Morse.TotalBounds | src/encoding/morse.hpp:121-128 | Each 64-bit test decides exactly whether the unbounded total leaves 64 bits |
| Morse.CheckInput | src/encoding/morse.hpp:63-87 | The first fault of the input, in the order of the checks |
| Morse.RefusesPlaceholder | src/encoding/morse.hpp:66-73 | The placeholder call is refused exactly when it stands as a word of its own |
| Morse.Compile | src/encoding/morse.hpp:137-200 | Whatever is measured compiles, given memory, to exactly the elements of all repetitions placed from 0, with the measured count and duration, and no later storing can fail |
| Morse.UnrollPattern | src/encoding/morse.hpp:168-189 | One repetition appends exactly its elements; the offset never wraps |
| Morse.UnrollCode | src/encoding/morse.hpp:172-181 | One character appends its marks with gaps between them |
| Morse.EmitEvent | src/encoding/morse.hpp:163-167 | An emitted event is stored at the running offset without asking for memory again |
| Morse.WholeMeasures | src/encoding/morse.hpp:124-129 | The unrolled list is as long as was measured, in events and in time |
| Morse.EventList.Reserve | src/wtp/job_service.hpp:152-167 | Pages are allocated in order as far as the allocator can give, at most for 512 events; a failure keeps the pages it got and records its reason; reserved pages never ask for memory again |
| Morse.EventList.PushBack | src/wtp/job_service.hpp:168-177 | A value is appended exactly when there is room and memory; a failure changes no event and records a reason, keeping an earlier one when the list is full |
| MorseReading.JobTimeline | src/encoding/morse.hpp:161-199 | An accepted job has 1..512 events, contiguous from 0, marks and gaps in turn, ending in a gap at the total duration |
| MorseReceiver.KeyedAs | src/encoding/morse.hpp:98-110 | In each mode, what a dot, a dash and a gap last and at which frequency they sound, under any settings |
| MorseReceiver.TextIsReceived | src/encoding/morse.hpp:168-189 | Under distinguishable settings a receiver that compares durations and frequencies with the settings gets the normal form of any text of known characters |
| MorseReceiver.EveryRepetitionIsReceived | src/encoding/morse.hpp:161-199 | From the events of an accepted message each repetition is received as the normal text, followed by the silent repeat gap or, after the last, by 1000 ns of silence |
| MorseReading.ReadableExactly | src/encoding/morse.hpp:168-195 | All texts of known characters can be told apart by their elements, up to normalisation, exactly when the three gaps are pairwise distinct and the marks differ: dot from dash in duration, or in dfcw mark from space in frequency |
| MorseReading.EventsReadBack | src/encoding/morse.hpp:168-195 | Under such settings two accepted texts compile to the same events exactly when they agree after upper-casing, trimming and collapsing whitespace |
| MorseReading.PatternsReadBack | src/encoding/morse.hpp:168-189 | Under such settings equal elements mean equal normal texts |
| MorseReading.NormalKeepsPattern | src/encoding/morse.hpp:168-189 | The normal text is keyed to the same elements under any settings |
| MorseReading.SameNormalSamePattern | src/encoding/morse.hpp:168-189 | Texts with one normal form are keyed alike under any settings |
| Uf2.Uf2Blocks | scripts/usb_installer.py:358-396 | A file is accepted exactly when it is one workaround block and pages, in whatever address order, that fill the flash from its base and whose erase sectors end in time; the image holds each page at its address |
| Uf2.GatherBlocks | scripts/usb_installer.py:369-388 | The pages by address, exactly when every block is one of the known kinds and no address repeats |
| Uf2.ValidateUf2 | scripts/check_standalone_image.py:10-28 | The independent boundary check |
| Uf2.AcceptedIsValid | scripts/check_standalone_image.py:10-28 | Whatever the installer accepts, the boundary check accepts with the same end |
| Uf2.ErasesBelowEnd | scripts/usb_installer.py:393-395 | The 4 KiB erase sectors of an accepted image end by the application end |
| Uf2.PageOf | scripts/usb_installer.py:388-396 | Every image byte is a byte of the page at its address |
| Uf2Writer.FileGivesBack | scripts/usb_installer.py:358-396 | The file written from any image of whole pages whose erase sectors end in time is accepted, and that image is the only one it gives |
| FirmwarePayload.VerifyPayload | scripts/firmware_payload.py:8-44 | The loops accept exactly when every load byte stands in its page and every other page byte is padding |
| FirmwarePayload.ImageIsProgram | scripts/firmware_payload.py:30-44 | If both checks accept, every load byte equals the image byte at its address and all other image bytes are 0 or 255 |
| FirmwarePayload.PagesAreTheBlocks | scripts/firmware_payload.py:15-28 | The pages compared are those of the installer's image |
| Installer.RunIsSafe | scripts/usb_installer.py:1792-1873 | In every state of every interrupted run: once a write has begun the durable backup is the recorded one and the preserved region equals it; until completion the record stays authorised and asks for recovery, unless the first run's handler dropped the flag; a record past the comparison stands on flash that holds the image |
| Installer.RecoveryAdmittedExactly | scripts/usb_installer.py:2003-2017 | However a run was interrupted, a recovery is admitted exactly when the record was authorised or waits for the operator's reset |
| Installer.InterruptedCompletesExactly | scripts/usb_installer.py:1968-2034 | An interrupted, uncompleted transaction can still be completed exactly when it is so admitted and the image is guarded or newly installed; then with the image in flash and the preserved region unchanged |
| Installer.CompletesWithoutWriting | scripts/usb_installer.py:2024-2028 | An authorised record that got past programming can be completed without another write to flash |
| Installer.FreshCompletes | scripts/usb_installer.py:1700-1835 | Every new installation, and every upgrade to a guarded image from a guarded or legacy application, has a run to completion |
| Installer.ReachedIsTold | scripts/usb_installer.py:1560-1563 | A declined upgrade asks for nothing and is never authorised; an authorised record names only stages that a recovery knows |
| Installer.RunKeepsInv | scripts/usb_installer.py:1678-1928 | The invariant holds in every state of every run of install, upgrade, migration and recovery, with crashes and failures anywhere |
| Installer.NextKeepsInv | scripts/usb_installer.py:1968-2098 | Every step, crash, failure, recovery and pruning keeps the invariant |
| Installer.InitInv | scripts/usb_installer.py:1707-1714 | It holds of a new transaction |
| Installer.AcceptedSetup | scripts/usb_installer.py:633-640 | Every accepted file gives a setup whose erase sectors end by the preserved region, which starts at the application end |
| Installer.WritesAreAnnounced | scripts/usb_installer.py:1856-1859 | Flash changes only while the durable record says programming, is authorised and asks for recovery, and never in the preserved region |
| Installer.BackupNeverChanges | scripts/usb_installer.py:2011-2034 | From the first write on no step changes the backup or the preserved region |
| Installer.FlagDropsExactly | scripts/usb_installer.py:1836-1845 | The recovery flag leaves a written, uncompleted transaction exactly by its completion or by the first run's handler after the completing update in memory |
| Installer.FlagCanDrop | scripts/usb_installer.py:1924-1926 | A concrete run in which the latter happens |
| CiExecution.CancelledNeverReturns | scripts/ci/execution.py:229-264 | For every interleaving: once a handler took a cancellation, execute never returns normally |
| CiExecution.ReturnedMeansPassed | scripts/ci/execution.py:246-264 | A normal return means no cancellation, exit status 0, qualified evidence, a receipt saved as passed and both handlers put back |
| CiExecution.ReturnsExactly | scripts/ci/execution.py:229-383 | An ended run returned normally exactly when none of its handlers took a signal and none of its operations failed, among them the child's exit, its descendants and a recorded restoration |
| CiExecution.PassedExactly | scripts/ci/execution.py:297-374 | The receipt of an ended run says passed exactly when nothing disturbed the run before it was written, it was written, and it was not rewritten |
| CiExecution.PassedMeansPerformed | scripts/ci/execution.py:285-345 | Behind a passed receipt or a normal return every essential operation was performed and succeeded, none was passed over |
| CiExecution.CancelledReceipt | scripts/ci/execution.py:361-383 | The receipt of a cancelled run says passed exactly when rewriting it failed, or the cancellation came after the recheck of an otherwise successful run |
| CiExecution.RewrittenAsFailed | scripts/ci/execution.py:368-374 | A cancellation noted by the recheck leaves the receipt failed, unless the second write fails |
| CiExecution.HandlersPutBack | scripts/ci/execution.py:248-264 | A handler of ours outlives an ended run exactly when some step of the interleaving was a restoration that failed, or a signal that raised between a handler's installation and its record or as execute's finally began; the run then raises, and has saved no receipt unless a restoration failed |
| CiExecution.HandlerCanStay | scripts/ci/execution.py:241-243 | A concrete interleaving in which one does |
| CiExecution.LatePassedReceiptStays | scripts/ci/execution.py:371-374 | A concrete interleaving that raises and leaves a passed receipt |
| CiExecution.AlwaysEnds | scripts/ci/execution.py:229-383 | No number of signals keeps the program from ending after 27 steps of its own |
| CiExecution.RunKeepsInv | scripts/ci/execution.py:229-383 | The invariant holds after every interleaving of program steps, their failures and signals |
| CiExecution.AfterKeepsInv | scripts/ci/execution.py:267-383 | Every single step keeps it, never goes back and never forgets a cancellation |
| Pins.Validate | src/hardware/pins.cpp:8-67 | The verdict is that of the first failing check in order; an accepted plan's owner table names the owner of every pin |
| Pins.Validation.Claim | src/hardware/pins.cpp:21-34 | A claim fails exactly for an ineligible or owned pin, naming pin, role and owner, and otherwise enters the owner |
| Pins.ValidExactly | src/hardware/pins.cpp:8-67 | A plan is valid exactly when engine, pair, selector count and indicator are allowed and all its pins are eligible and pairwise distinct |
| Pins.ConflictIsReal | src/hardware/pins.cpp:27-32 | A reported conflict names two roles of the plan that claim one pin, the owner first, with everything before in order |
| Pins.OwnedExactly | src/hardware/pins.cpp:22-33 | A pin has an owner exactly when an earlier check claimed it |
| Filters.ValidateFilters | src/hardware/filter_settings.cpp:28-62 | A bank is accepted exactly when limits, selectors, pins and ranges are sound; each refusal is true and comes only once what is checked before it is in order; an ambiguous range means some frequency lies in ranges of two selectors |
| Filters.FrequencyHasOneOutput | src/hardware/filter_settings.cpp:45-59 | In an accepted bank all ranges that hold a frequency name one selector, and exactly one output has it |
| Filters.OutputPinIsItsOwn | src/hardware/filter_settings.cpp:32-44 | The pin of an accepted output is eligible and no other role or output has it |
| Filters.OverlapExactly | src/hardware/filter_settings.cpp:57 | The comparison of ends decides exactly whether two ranges share a frequency |
| Filters.NameValid | src/hardware/filter_settings.cpp:11-19 | The accepted names |
| JobTiming.ValidateMessageSemantics | scripts/validate_wtp_contract.py:224-252 | No error is reported exactly for sound messages |
| JobTiming.CheckLoad | scripts/validate_wtp_contract.py:235-252 | Exactly the misplaced events up to the first 64-bit overflow, the overflow, a wrong end and an excessive total are reported |
| JobTiming.MakeJob | scripts/rf_wtp.py:29-46 | A job results exactly for 162 digits 0..3 and an allowed frequency, with each event from boundary to boundary |
| JobTiming.RoundedIsNearest | scripts/rf_wtp.py:25-26 | The rounded ratio is the nearest integer, the larger at a tie |
| JobTiming.BoundaryError | scripts/rf_wtp.py:34-36 | Every boundary is within a third of a nanosecond of k * 8192/12000 s and exact at every third: nothing accumulates |
| JobTiming.SymbolJobSound | scripts/validate_wtp_contract.py:235-252 | The check accepts every job the client makes |
| JobTiming.SymbolJobSays | scripts/rf_wtp.py:29-46 | Every event is on; symbol 0 sounds exactly the given frequency and each step adds 12000/8192 Hz, so the events give the symbols back; the job lasts 110.592 s |
| JobTiming.AlignedJobSays | scripts/wtp_capacity.py:18-26 | The aligned job is on throughout at 135.5 kHz and as long as the other |
| JobTiming.SymbolStart | scripts/rf_wtp.py:34-39 | The first k durations sum exactly to boundary k |
| JobTiming.AlignedBoundaryError | scripts/wtp_capacity.py:20-22 | Every aligned boundary is a multiple of 500 ns, a whole number of 69-sample groups, less than 500 ns early |
| JobTiming.AlignedJobSound | scripts/validate_wtp_contract.py:235-252 | The check accepts the sample-aligned job |
| JobTiming.BoundariesAgree | scripts/wtp_capacity.py:20-22 | The two clients' boundaries differ by at most 500 ns and the aligned one is never later |
| JobTiming.TonesAreDistinct | scripts/rf_wtp.py:37 | Different symbols sound different tones, one step is one cycle per symbol, and all stay below half the 138 MHz clock |

## Left out

- WtpStrict: the JSON reader is a parameter, the set of payloads it takes; nothing is said
  about JSON itself, including the depth and integer limits of the strict loader.
- The monitor's messages on standard error, and wiping of buffers with zeros before release.
- GattFrames: mixing of two messages under losses that happen to line up is possible and
  not excluded; only the consecutive-run property is claimed.
- Installer: identity, provenance, network, space and board checks appear only as steps
  that may fail; deadlines are not modelled; flashing may write any part of the image's
  erase sectors and may stop anywhere, and between transactions nobody else writes flash.
- Installer: one transaction is followed at a time; the erase operation, whose record is
  handled differently, and the claim of `recovery_required` after the first completion are
  not covered. The digest is an uninterpreted function.
- Installer: a save either replaces the record atomically or not at all; the temporary file
  and the directory flush behind that are not modelled.
- CiExecution: what is left of child processes and the wording of exception groups; a signal
  that arrives when none of the handlers is in place goes to handlers outside the model.
- Morse: the allocator is the number of pages it can still give; the job's presentation
  fields and identifier are copied unchanged by the program and are not modelled.
- JobTiming: job identifiers are digests and are not modelled; decimal strings are numbers;
  the type test on the frequency is a matter of Dafny's types.
- Pins, Filters: the JSON parsers, serialisers and descriptions; polarity flags have no
  part in validation. Error texts are constructors.
- WsprPlan: the plan's fixed arrays are sequences; the model shows that the alternate call
  fits its array.
- GPS, configuration update, frequency policy, TLS, HTTP, serial and Bluetooth transport,
  RF analysis, documentation and packaging scripts: outside what is modelled here.
