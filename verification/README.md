# Smart-card reader stack: model and proofs

A Dafny model of a smart-card reader: the firmware's CCID message handler (USB CCID Rev 1.1), its T=1
endpoint and serial serve loop, and the host programs that speak the same wire protocol. Code that updates
fields or buffers is modelled by classes, methods and loops, each proved against a specification function or an
outright property; what the stack promises is proved about those specifications, over every input, every run and
every environment. Sockets, cards, clocks and drivers are nondeterministic: their answers are parameters or
arbitrary choices.

| file | what it models |
|---|---|
| `Bytes.dfy` | bytes, the XOR checksum, little-endian words, lists |
| `GemPc.dfy` | GemPC Twin frames: the builder and the firmware's byte-fed parser |
| `Broker.dfy`, `BrokerHost.dfy` | the broker's frame splitter and power-off shim; what the host behind it reads |
| `IfdCodec.dfy`, `IfdDriver.dfy` | the IFD handler: codec, retry, eject and time-extension loop against an arbitrary socket and board |
| `CdcBurst.dfy` | the burst serve loop and its arrival-time bound |
| `ReaderBoard.dfy`, `SerialBoard.dfy` | what the loop writes, as the board behind the driver's socket; the serial reader as such a board |
| `Atr.dfy`, `WaitingTime.dfy` | the ATR parser and the T=1 waiting times |
| `SecurePin.dfy` | PIN structures, the digit stack and the reader-built APDUs |
| `CcidCore.dfy`, `CcidHandler.dfy` | the handler core: specification and object |
| `CcidMessages.dfy` | what each message does and is answered, byte by byte |
| `CcidRuns.dfy`, `CcidHost.dfy`, `CcidCard.dfy` | invariants of its runs, what a host may rely on, when the card is reached |
| `T1.dfy`, `T1Blocks.dfy`, `T1Laws.dfy`, `T1Reader.dfy` | the T=1 endpoint: specification, its answer to each block in bytes, laws, object |
| `CcidService.dfy`, `ServiceMessages.dfy`, `ServiceRuns.dfy`, `ServiceHandler.dfy` | the serial reader's wrapper that arms and feeds the endpoint |
| `HceFraming.dfy`, `HcePolicy.dfy`, `HceSession.dfy` | the HCE relay: framing, card policies, session |
| `CaptureDiff.dfy` | the capture diff and its masks |

Each object method returns exactly what its specification function says of the old state; the lemmas beside it say
what that function means. Those in `CcidMessages.dfy`, `T1Blocks.dfy`, `ServiceMessages.dfy` and `BrokerHost.dfy`, and
the profiles in `HcePolicy.dfy`, are written with the numbers of the wire and none of the model's own functions. Lists of what was sent or asked are kept newest first where the code only ever appends.

Where the code and what is written about it differ, the code is modelled:

- The burst loop re-anchors the response deadline at the arrival floor after the byte was fed, so a deadline
  extension granted while the command ran is forgotten: the loop agrees with one that honours it exactly unless the
  response falls between the two deadlines (`CdcBurst.ExtensionIsLost`). Any XfrBlock with one interim frame that
  does is dropped (`CdcBurst.DroppedInsideGrantedWindow`); `CdcBurst.DroppedAtShippedRate` is one at 100 ticks a
  second, the CONFIG_FREERTOS_HZ of the shipped configurations.
- Where the deadline is used as it stands (crates/ccid-service/src/spp_server.rs:436), its anchor lies in the future
  and a response given before the extension has passed is dropped (`CdcBurst.PromptAnswersExpire`,
  `CdcBurst.PromptAnswerIsDropped`). The mains that register a writer for interim frames
  (firmware/esp32-ccid/src/pn7160_ccid.rs:170, wifi_ccid.rs:133) re-anchor it, so this needs a writer on such a
  transport.
- A short or idle read is taken for proof that the ring is empty at the tick sampled afterwards; a byte that slips in
  between is overstated by its age then, and after a failed read by its whole age (`CdcBurst.RaiseIsExact`,
  `CdcBurst.ShortRaiseIsExact`, `CdcBurst.RaiseCanOverstate`).
- An echo is written twice when a command stalls a positive multiple of 256 times, the count of interim frames being
  one byte (`CdcBurst.EchoedInBytes`). The NFC driver of this repository never stalls that often: its 12 rounds of
  200 ms per exchange admit one call of the hook (crates/pn7160-nci/src/lib.rs:879, 2028-2046), so it takes another
  source of stalls.
- The response buffer of 271 bytes swallows an answer of more than 261, although the card has executed the command
  (`CcidCard.SilenceIsExact`, `CcidCard.LongAnswerIsSwallowed`).
- An empty answer held back for a waiting-time request is never delivered (`T1Laws.GrantReleases`); a slow card that
  answers more than 261 bytes brings that about (`ServiceRuns.SlowLongAnswerIsLost`).
- The Lc of a PIN change, twice the maximum length in one byte, is that of a release build, which wraps; a build with
  overflow checks faults instead when the maximum is above 127 (Cargo.toml:50-55). Nothing reads it
  (`SecurePin.ModifyFaults`).
- A PIN that fails its length rule is answered with error 0xFF, not with the 0xEB the comment names
  (crates/ccid-core/src/handler.rs:411-416, 426-435).
- The link-layer request test looks at bit 0x10, but responses are marked by 0x20, so responses pass as requests
  (`ServiceRuns.ResponsesPassAsRequests`). They are still answered without the card (`ServiceRuns.SBlocksAreLocal`).
- A host may announce a receive size of zero, after which an answer never drains (`T1Laws.ZeroSizeIsAccepted`,
  `T1Laws.ZeroSizeNeverDrains`); `T1Laws.ChainsDrain` holds for every other size.
- The JCOP ledger serial is read at bytes 15 to 18 of the body with its tag; the class comment gives offsets 11 to 14
  (host-tools/hce_relay.py:305-319, 344-348).
- The C receiver drops the byte after a stray SYNC, so junk before a frame is survived exactly when it leaves the
  scan aligned (`IfdCodec.RecvRoundTrip`); SYNC-free junk always does.
- The driver reads past at most 64 time extensions; the 65th is returned as the answer (`IfdDriver.VerdictExact`, `IfdDriver.SixtyFiveInterims`).

## Model

| member | source | states |
|---|---|---|
| Bytes.LrcCancels | host-tools/ifd-nucula/ifd-nucula.c:274-281 | a frame closed by its own XOR checksum XORs to zero |
| Bytes.LrcAppend | host-tools/ifd-nucula/ifd-nucula.c:274-281 | the checksum of a whole is the XOR of those of its parts |
| Bytes.LrcDetects | host-tools/ifd-nucula/ifd-nucula.c:274-281 | one changed byte changes the checksum |
| GemPc.BuildParses | crates/ccid-transport-serial/src/lib.rs:131-220 | a built frame found by an idle parser is exactly its one command, nothing before its last byte, and the kept frame is the frame byte for byte |
| GemPc.SilentStretch | crates/ccid-transport-serial/src/lib.rs:131-220 | any strict piece of a frame raises no event and leaves the parser at that position of that frame |
| GemPc.FeedAllAppend | crates/ccid-transport-serial/src/lib.rs:131-220 | feeding a stream in two parts is feeding it in one |
| GemPc.NeverOverruns | crates/ccid-transport-serial/src/lib.rs:131-284 | no byte stream makes the parser hold more than a frame of 274 bytes |
| GemPc.ParserSound | crates/ccid-transport-serial/src/lib.rs:131-220 | every message the parser hands over stands in the stream as a whole frame: marks, length, payload, checksum |
| GemPc.WrongChecksumIsRefused | crates/ccid-transport-serial/src/lib.rs:131-220 | a frame with any other last byte is one checksum error and leaves the parser idle |
| GemPc.LongHeaderIsRefused | crates/ccid-transport-serial/src/lib.rs:131-220 | a header announcing more than 261 bytes is one overflow error as soon as it is complete |
| GemPc.JunkIsSkipped | crates/ccid-transport-serial/src/lib.rs:131-220 | bytes other than a SYNC between frames are passed over |
| GemPc.MarksRecover | crates/ccid-transport-serial/src/lib.rs:131-220 | a second SYNC starts over; anything but an ACK after a SYNC is one error, a NAK told apart |
| Broker.ScanMeaning | host-tools/nucula-ccid-broker.py:208-238 | what each way for the scan to come to rest means: a whole frame there, a plausible partial one, or too few bytes left to judge |
| Broker.OnlyGarbageIsSkipped | host-tools/nucula-ccid-broker.py:221-238 | the scan passes a byte only where no plausible anchor starts; a length field over 261 never holds it |
| Broker.CutConserves | host-tools/nucula-ccid-broker.py:208-238 | cutting a stream loses and invents nothing, delimits whole frames only, and keeps a tail without a complete frame |
| Broker.ScanMonotone | host-tools/nucula-ccid-broker.py:208-238 | bytes that come later never change a frame already found |
| Broker.CutAppend | host-tools/nucula-ccid-broker.py:208-238 | cutting a stream in two steps is cutting it in one |
| Broker.BoundedWait | host-tools/nucula-ccid-broker.py:221-238 | when the scan waits on a plausible anchor fewer than 274 bytes lie from it on, and the bytes still announced, at most 274, release that very frame |
| Broker.SplitFrames | host-tools/nucula-ccid-broker.py:208-238 | the index loop finds exactly the frames of one scan |
| Broker.FirstRdrFrame | host-tools/nucula-ccid-broker.py:60-75 | the first checksummed reader frame in a buffer, or none only if there is none anywhere |
| Broker.PowerOffShim.Process | host-tools/nucula-ccid-broker.py:266-316 | one call forwards, answers and retains what the cut of everything pending says, with the idle flush and the overflow pass-through |
| Broker.EmitFrames | host-tools/nucula-ccid-broker.py:297-316 | the forwarding loop drops exactly the power-off frames and answers each with its echo and a synthesised SlotStatus, in order |
| Broker.ChunkingInvariance | host-tools/nucula-ccid-broker.py:266-316 | however a stream is divided over calls, the run forwards the stream minus exactly its power-off frames, answers those in order, and retains the rest |
| Broker.Relay | host-tools/nucula-ccid-broker.py:241-316 | the same of a whole run of calls on the shim object |
| BrokerHost.PowerOffAnswerReads | host-tools/nucula-ccid-broker.py:193-205 | to any receiver the answer to a power-off frame is that frame, then one sealed SlotStatus: its own number, inactive card, no error, no data |
| BrokerHost.AnswersRead | host-tools/nucula-ccid-broker.py:297-316 | the synthesised stream reads back as echo and SlotStatus of each power-off frame, in order, and nothing else |
| BrokerHost.ShimServesHost | host-tools/nucula-ccid-broker.py:266-316 | any commands a host frames, divided over calls anywhere: all but the power-offs are forwarded byte for byte in order, and the host reads echo and SlotStatus of each power-off in order |
| BrokerHost.ShimIsAWire | host-tools/nucula-ccid-broker.py:266-316 | without a power-off frame every byte, garbage included, is forwarded or still held, in order, and nothing is answered |
| BrokerHost.AnchorsHold | host-tools/nucula-ccid-broker.py:221-238 | the scan stops at once exactly at a SYNC whose header announces at most 261 bytes |
| BrokerHost.BuiltAnswerIsFound | host-tools/nucula-ccid-broker.py:60-75 | a built message is taken for the reader's answer if and only if its type has the top bit |
| IfdCodec.RecvSound | host-tools/ifd-nucula/ifd-nucula.c:307-347 | only frames that occur in the stream and end in the XOR of the rest are accepted, of at most 274 bytes |
| IfdCodec.RecvRoundTrip | host-tools/ifd-nucula/ifd-nucula.c:307-347 | junk, then a built frame: exactly that frame is returned if and only if the junk leaves the scan aligned |
| IfdCodec.SyncFreeIsAligned | host-tools/ifd-nucula/ifd-nucula.c:307-330 | SYNC-free junk leaves it aligned |
| IfdCodec.NakIsSeen | host-tools/ifd-nucula/ifd-nucula.c:307-330 | a NAK behind such junk is seen as one |
| IfdCodec.InterimIsRecognised | host-tools/ifd-nucula/ifd-nucula.c:474-483 | every interim frame the firmware can send is taken for a time extension of its command |
| IfdCodec.RequestAsks | host-tools/ifd-nucula/ifd-nucula.c:371-394 | the frame of a request, field by field: marks, type, length, slot 0, number, the specific byte, zeros, payload, checksum |
| IfdCodec.ExtensionsAre | host-tools/ifd-nucula/ifd-nucula.c:474-483 | exactly which answers are read past: the command's own number, not failed, and a SlotStatus or an empty DataBlock asking for time |
| IfdDriver.BuildRequest | host-tools/ifd-nucula/ifd-nucula.c:371-394 | the array holds the request field by field, payload and checksum included |
| IfdDriver.LrcOf | host-tools/ifd-nucula/ifd-nucula.c:274-281 | the checksum loop is the XOR of the bytes |
| IfdDriver.Driver.ReadAll | host-tools/ifd-nucula/ifd-nucula.c:283-303 | success reads exactly the bytes asked for, whatever pieces they come in |
| IfdDriver.Driver.Resync | host-tools/ifd-nucula/ifd-nucula.c:307-330 | success leaves the stream just behind a SYNC and ACK where the specification's scan stops |
| IfdDriver.Driver.RecvFrame | host-tools/ifd-nucula/ifd-nucula.c:307-347 | a received frame is sealed, fits 274 bytes, and with a FIFO board is the one the scan of the stream yields |
| IfdDriver.Driver.SendFrame | host-tools/ifd-nucula/ifd-nucula.c:349-366 | success delivers the request exactly once; failure delivers it not at all |
| IfdDriver.Driver.Transact | host-tools/ifd-nucula/ifd-nucula.c:422-456 | "not sent" means zero deliveries and any other result exactly one; every failure leaves the driver disconnected |
| IfdDriver.Driver.Command | host-tools/ifd-nucula/ifd-nucula.c:485-531 | at most one delivery per command, success carries the command's own number, failure disconnects, and the payload limit is an error before anything is sent |
| IfdDriver.VerdictExact | host-tools/ifd-nucula/ifd-nucula.c:509-520 | a successful XfrBlock, IccPowerOn or Escape returns the board's final answer if and only if the board sent at most 64 interims; any other command the first frame after the echo |
| IfdDriver.SixtyFiveInterims | host-tools/ifd-nucula/ifd-nucula.c:509-520 | a board that stalls 65 times has its last interim taken for the answer, which is left unread |
| IfdDriver.RunCommands | host-tools/ifd-nucula/ifd-nucula.c:422-531 | for every socket behaviour and every command sequence, the board's log grows by at most one delivery per command in order, each a frame that asks for that command's type, number, specific byte and payload, and with a polite FIFO board every success is the answer to it |
| IfdDriver.AtMostOnce | host-tools/ifd-nucula/ifd-nucula.c:422-456 | a run never delivers more requests than it has commands |
| CdcBurst.CdcBurstServe.ServeOnce | crates/ccid-service/src/cdc_burst.rs:156-250 | one iteration serves every byte of the burst in order, what the stall hook wrote before what the loop writes, counts each verdict, and raises the floor on an idle or short read only |
| CdcBurst.ServeAll | crates/ccid-service/src/cdc_burst.rs:156-250 | the object, read after read up to a snapshot, ends and writes as the specification of several reads says |
| CdcBurst.WriteExchange | crates/ccid-service/src/cdc_burst.rs:201-236 | echo, notify and response reach the wire in order up to the first failed write |
| CdcBurst.BurstsRefineBytes | crates/ccid-service/src/cdc_burst.rs:156-236 | for any division of a stream into bursts without expiry, failure or snapshot, the wire carries what the byte-at-a-time loop writes, in the same order |
| CdcBurst.BurstsServeCommands | crates/ccid-service/src/cdc_burst.rs:156-236 | end to end, commands sent back to back and cut anywhere, on an idle parser or after a pause that drops a fragment, are answered one by one in order, each with its interim frames, echo, notify and response together |
| CdcBurst.PauseForgets | crates/ccid-service/src/ccid_serial_server.rs:534-547 | a pause of more than ten ticks drops a partial frame, a shorter one does not |
| CdcBurst.DamageIsRefused | crates/ccid-service/src/ccid_serial_server.rs:541-560 | only a completed command reaches the handler; a damaged frame gets a NAK exactly when the server is set to send one, and changes nothing |
| CdcBurst.VerdictMeans | crates/ccid-service/src/cdc_burst.rs:189-236 | answer or silence: of a late response only what the stall hook wrote is on the wire, and it is counted and dropped; a sent one is there as a whole, a failed one up to the failure; a NAK is three bytes |
| CdcBurst.TallyCounts | crates/ccid-service/src/cdc_burst.rs:186-240 | the counters of an iteration count the verdicts |
| CdcBurst.CommandOpensWindow | crates/ccid-service/src/ccid_serial_server.rs:562-646 | a completed command opens the window of its type, XfrBlock, IccPowerOn or any other, later by one window for each interim frame |
| CdcBurst.IdleForgets | crates/ccid-service/src/ccid_serial_server.rs:666-685 | an idle read polls and drops a fragment that has waited more than ten ticks |
| CdcBurst.WindowsAreWhole | crates/ccid-service/src/ccid_serial_server.rs:317-380 | at every tick rate up to 72184, where the product fits 32 bits, the windows are the whole ticks in 2.5, 7.5 and 59.5 seconds, and never none |
| CdcBurst.InterimTold | crates/ccid-service/src/ccid_serial_server.rs:611-626 | an interim frame byte by byte: a DataBlock with the number of its command, the card status, the time extension and the factor 2 |
| CdcBurst.ElapsedWraps | crates/ccid-service/src/ccid_serial_server.rs:746-748 | elapsed ticks are exact within one round of the 32-bit counter |
| CdcBurst.EchoedInBytes | crates/ccid-service/src/ccid_serial_server.rs:617-646 | in bytes each command is echoed once, before its interim frames, notify and response, and again after the interim frames exactly if their number is a positive multiple of 256, which the NFC driver of this repository cannot reach |
| CdcBurst.ExtensionIsLost | crates/ccid-service/src/cdc_burst.rs:189-202 | the verdict ignores a granted extension, and agrees with one that honours it if and only if there is none or the response does not fall between the two deadlines |
| CdcBurst.DroppedInsideGrantedWindow | crates/ccid-service/src/cdc_burst.rs:189-202 | for any windows and timing, an XfrBlock that stalled once and is judged after the window of its floor but within the one window more that its interim frame granted is dropped |
| CdcBurst.DroppedAtShippedRate | crates/ccid-service/src/ccid_serial_server.rs:328-383 | one such loss at 100 ticks a second: floor 100, fed at 670, granted 750, answered at 900, within 1600 |
| CdcBurst.PromptAnswersExpire | crates/ccid-service/src/ccid_serial_server.rs:617-646 | of the server as feed_byte leaves it: the response counts as expired if and only if it comes before the granted extension has passed, or after extension and window |
| CdcBurst.PromptAnswerIsDropped | crates/ccid-service/src/ccid_serial_server.rs:746-748 | at 100 ticks a second, an answer 230 ticks after its command, in a window of 750, counts as expired |
| CdcBurst.FloorSafety | crates/ccid-service/src/cdc_burst.rs:22-45 | with the read and the look at the clock apart and bytes arriving between any two events, no step makes the floor exceed the arrival of a byte still to be answered by more than the gap |
| CdcBurst.RaiseIsExact | crates/ccid-service/src/cdc_burst.rs:165-183 | after an idle or failed read the raised floor is safe within a gap if and only if no byte queued when the clock is read, left over or come since, is older than that |
| CdcBurst.ShortRaiseIsExact | crates/ccid-service/src/cdc_burst.rs:185-246 | the same of a short read, whatever arrives while its burst is served: the floor becomes the tick sampled before, and only bytes that came before that tick decide whether it is safe |
| CdcBurst.RaiseCanOverstate | crates/ccid-service/src/cdc_burst.rs:165-183 | a byte that slips in one tick before costs one tick, and a failed read that leaves an old byte queued costs its age |
| CdcBurst.ResponsesInTime | crates/ccid-service/src/cdc_burst.rs:186-246 | over every run of arrivals, reads, failures and clock samples, every response the loop lets out was judged within one window of its own command, and the gap, of the true arrival of the byte that completed it, unless the tick counter wrapped since the floor was set |
| CdcBurst.EveryResponseInTime | crates/ccid-service/src/cdc_burst.rs:124-246 | the same from start-up, the floor seeded by the clock |
| CdcBurst.BoundIsAttained | crates/ccid-service/src/cdc_burst.rs:193-202 | a response at the very end of gap and window is let out, so the bound cannot be improved |
| ReaderBoard.ExchangeInBytes | crates/ccid-service/src/ccid_serial_server.rs:541-655 | without a notification, with a framed answer and a countable number of stalls, the bytes of one exchange are those the driver's board is taken to write: echo, interim frames, answer |
| ReaderBoard.BurstsAreABoard | crates/ccid-service/src/cdc_burst.rs:156-236 | however commands sent back to back are cut into bursts, the bytes written are those of such exchanges, one after another |
| SerialBoard.ProcessedIsFinal | crates/ccid-core/src/handler.rs:626-700 | whatever the serial profile answers is one whole message, and never one the driver takes for a time extension of IccPowerOn, XfrBlock or Escape |
| SerialBoard.ServedSpeaks | crates/ccid-service/src/ccid_handler.rs:269-602 | the same of the serial reader with its T=1 endpoint and local escapes, in the firmware's 271 bytes; and it always answers, unless card, UID, ATR, probe or identity string exceed 261 bytes |
| SerialBoard.AfterIsSteady | crates/ccid-service/src/ccid_handler.rs:225-480 | every operation leaves no event latched, and nothing but whole blocks for the endpoint to repeat |
| SerialBoard.ReaderIsABoard | crates/ccid-service/src/ccid_serial_server.rs:541-655 | end to end, the reader of the silent CDC profile answers any commands, cut into bursts anywhere, with the bytes of a board in answer order for exactly those commands, each exchange plausible to the driver, and within its patience if the card stalls at most 64 times: the board `IfdDriver.RunCommands` trusts |
| SerialBoard.StatusIsFresh | crates/ccid-service/src/ccid_serial_server.rs:585-605 | GetSlotStatus with a poll due tells what that poll found, without one what was known, and refreshes the uptime |
| SerialBoard.PreparedTells | crates/ccid-service/src/ccid_serial_server.rs:585-609 | before any command the uptime is that of the command, and only GetSlotStatus with a poll due polls |
| Atr.ParseAtr | crates/ccid-protocol/src/atr.rs:64-139 | the loop terminates and computes the interpretation of the interface bytes in order |
| Atr.TruncationKeeps | crates/ccid-protocol/src/atr.rs:64-139 | a truncated ATR is read as the interface bytes that are left, so fields already read are kept |
| Atr.ParsePrinted | crates/ccid-protocol/src/atr.rs:64-139 | interpreting a printed chain of any length, with any trailing bytes, yields its meaning: group 1 gives Fi, Di and guard time, TD1 the protocol, the last T=1 group with the byte gives IFSC, BWI and CWI, EDC; groups past 255 do not count |
| Atr.ParsePrintedAtr | crates/ccid-protocol/src/atr.rs:64-139 | the same of the parsing loop |
| Atr.FiTable | crates/ccid-protocol/src/atr.rs:45-50 | Fi by code: halves of 372 and of 512 clocks, nothing for reserved codes |
| Atr.DiTable | crates/ccid-protocol/src/atr.rs:56-62 | Di by code: doubling from 1 to 64, then 12 and 20, else 1 |
| WaitingTime.BwtLeast | crates/ccid-protocol/src/atr.rs:174-200 | BWT is the least whole number of milliseconds covering its etu count, unless saturated at 32 bits, which happens exactly when none below covers it |
| WaitingTime.CwtLeast | crates/ccid-protocol/src/atr.rs:220-235 | the same for CWT |
| WaitingTime.BwtMonotone | crates/ccid-protocol/src/atr.rs:174-200 | BWT grows with BWI and falls with the baud rate, and saturation carries over to every higher BWI |
| WaitingTime.CwtMonotone | crates/ccid-protocol/src/atr.rs:220-235 | the same for CWT |
| WaitingTime.ReaderPatience | crates/ccid-protocol/src/atr.rs:209-246 | the reader waits exactly as long as the card advertises between 500 (50 between bytes) and 5000 ms, and the bound itself outside; so it falls short exactly above 5000 ms |
| WaitingTime.PatienceCrossover | crates/ccid-protocol/src/atr.rs:209-219 | at the two default rates the reader is less patient than the card from BWI 6 on |
| WaitingTime.EtuDoubles | crates/ccid-protocol/src/atr.rs:174-235 | the etu counts: 11 and 960, 11 and 1, the second part doubling with each nibble |
| WaitingTime.UnknownRate | crates/ccid-protocol/src/atr.rs:174-246 | at an unknown rate the windows are 5000 and 50 ms |
| SecurePin.VerifyRoundTrip | crates/ccid-core/src/secure.rs:150-200 | parsing the verify structure a host lays out recovers every field and the APDU head; too short an APDU is rejected |
| SecurePin.ParsePinModify | crates/ccid-core/src/secure.rs:309-378 | the index-advancing parser reads the variable layout, with the outcomes of a release build |
| SecurePin.ModifyFaults | crates/ccid-core/src/secure.rs:309-378 | the parser faults exactly on 11 to 13 bytes, rejects exactly what is too short before or after, and stores the true Lc exactly up to a maximum of 127 |
| SecurePin.ModifyRoundTrip | crates/ccid-core/src/secure.rs:213-246 | for every field value and every message count, parsing the libccid layout, which leaves out bMsgIndex2 at 0 and bMsgIndex3 below 3, recovers offsets, limits, indices and APDU head |
| SecurePin.ModifySound | crates/ccid-core/src/secure.rs:309-378 | whatever is accepted is the layout of the fields it is read as |
| SecurePin.PinBuffer.constructor | crates/ccid-core/src/secure.rs:401-407 | an empty stack of at most 16 digits |
| SecurePin.PinBuffer.Push | crates/ccid-core/src/secure.rs:410-420 | a digit is stacked if and only if there is room and it is a digit |
| SecurePin.PinBuffer.Pop | crates/ccid-core/src/secure.rs:423-429 | the last digit is taken back, if there is one |
| SecurePin.PinBuffer.Clear | crates/ccid-core/src/secure.rs:432-448 | the stack is empty and every cell zero |
| SecurePin.PinBuffer.ToAscii | crates/ccid-core/src/secure.rs:466-472 | the ASCII of the stack, padded with zeros |
| SecurePin.EnteredIsDigits | crates/ccid-core/src/secure.rs:410-448 | every key history leaves only digits, within the capacity |
| SecurePin.TypedArrives | crates/ccid-core/src/secure.rs:410-420 | digits typed within the capacity are on the stack in order |
| SecurePin.SlipsLeaveNoTrace | crates/ccid-core/src/secure.rs:423-448 | a digit taken back, and everything before a clear, leave no trace |
| SecurePin.BuildVerifyApdu | crates/ccid-core/src/secure.rs:572-614 | the 13-byte buffer or the refusal, in the order the checks are made |
| SecurePin.BuildModifyApdu | crates/ccid-core/src/secure.rs:679-713 | the 21-byte buffer or the refusal |
| SecurePin.BuildVerifyExact | crates/ccid-core/src/secure.rs:572-614 | a buffer of digits is refused exactly for its length, overruns exactly with more than eight digits under a reference number without a length rule, and what is sent of the result is exactly header, Lc and digits |
| SecurePin.BuildModifyExact | crates/ccid-core/src/secure.rs:679-713 | the same for old then new digits, more than sixteen together overrunning |
| SecurePin.NineDigitsOverrun | crates/ccid-core/src/secure.rs:572-614 | nine digits under 0x82 overrun |
| SecurePin.LengthRuleTold | crates/ccid-core/src/secure.rs:572-614 | six to eight digits for 0x81, eight for 0x83, at least one for any other |
| SecurePin.CommandBytes | crates/ccid-core/src/secure.rs:572-713 | VERIFY and CHANGE REFERENCE DATA byte by byte: header, number of digits, each digit in ASCII, old before new |
| SecurePin.OnlyDigitsAreBuilt | crates/ccid-core/src/secure.rs:586-650 | of any bytes of a lawful length, those with anything but 0 to 9 are refused as such; the others stand in the VERIFY buffer with zeros behind them |
| SecurePin.OnlyDigitsAreChanged | crates/ccid-core/src/secure.rs:686-722 | the same of the old and the new PIN together |
| CcidCore.ReplyIs | crates/ccid-core/src/lib.rs:97-129 | a response that fits the buffer is a message whose length field counts its payload, with slot, sequence number, status and error in place |
| CcidMessages.SlotStatusTold | crates/ccid-core/src/handler.rs:940-950 | GetSlotStatus changes nothing and tells the card status |
| CcidMessages.PowerOffTold | crates/ccid-core/src/handler.rs:910-935 | IccPowerOff powers the card down, leaves the slot inactive whatever it was, a contact reader at T=0 and all else unchanged, and says so |
| CcidMessages.PowerOffHolds | crates/ccid-core/src/handler.rs:910-971 | from a power-off until an IccPowerOn succeeds or a poll finds a session, over every run, the slot stays inactive and no message brings an APDU to the card |
| CcidMessages.TruncatedTold | crates/ccid-core/src/handler.rs:626-655 | a message shorter than it announces is refused and counted |
| CcidMessages.UnknownTold | crates/ccid-core/src/handler.rs:656-690 | an unknown type is refused and counted, except an abort on a contact reader |
| CcidMessages.SerialPowerOnTold | crates/ccid-core/src/handler.rs:766-822 | every outcome of IccPowerOn on a contactless reader |
| CcidMessages.ContactPowerOnTold | crates/ccid-core/src/handler.rs:831-906 | every outcome of IccPowerOn on a contact reader, the checks in order |
| CcidMessages.SerialXfrTold | crates/ccid-core/src/handler.rs:953-971 | every outcome of XfrBlock on a contactless reader: refused, answered by the reader, by the card, or failed with the error of its kind |
| CcidMessages.ContactXfrTold | crates/ccid-core/src/handler.rs:977-1063 | the same on a contact reader |
| CcidMessages.GetParametersTold | crates/ccid-core/src/handler.rs:1470-1539 | the block in force, field by field, for either profile |
| CcidMessages.SerialSetTold | crates/ccid-core/src/handler.rs:1107-1144 | every outcome of SetParameters on a contactless reader |
| CcidMessages.ContactSetTold | crates/ccid-core/src/handler.rs:1152-1230 | the same on a contact reader, with what makes a block legal |
| CcidMessages.ResetParametersTold | crates/ccid-core/src/handler.rs:1232-1247 | the defaults of either profile are back and reported |
| CcidMessages.AnswerToResetIsReported | crates/ccid-core/src/handler.rs:831-906 | after a power-on a contact reader reports the protocol and the block that the interface bytes of the answer to reset mean, whatever chain of groups it has |
| CcidMessages.StartTold | crates/ccid-core/src/handler.rs:246-272 | the state at start-up and the parameters it reports |
| CcidMessages.EscapeTold | crates/ccid-core/src/handler.rs:1345-1467 | every escape of either profile; the diagnostics are seven little-endian counters |
| CcidMessages.SecureTold | crates/ccid-core/src/handler.rs:1554-1628 | when a PIN structure arms a session and how every other Secure is refused |
| CcidMessages.UnenteredPinIsNotSent | crates/ccid-core/src/handler.rs:436-533 | a PIN entry that was cancelled, timed out or had the wrong length never reaches the card: nothing sent or counted, the session over, error 0xEF, 0xF0 or 0xFF, for verify and modify and whatever was typed |
| CcidMessages.PinAnswerTold | crates/ccid-core/src/handler.rs:396-424 | a successful entry is answered with the data given |
| CcidMessages.PinReplyTold | crates/ccid-core/src/handler.rs:436-533 | what the host is told after the exchange over the digits |
| CcidMessages.PollTold | crates/ccid-core/src/handler.rs:702-761 | what a poll changes and exactly which change it reports |
| CcidHandler.CcidHandlerCore.constructor | crates/ccid-core/src/handler.rs:246-272 | the initial state of either profile |
| CcidHandler.CcidHandlerCore.TakeSecureParams | crates/ccid-core/src/handler.rs:364-372 | an armed verify session is handed over; any session is dropped |
| CcidHandler.CcidHandlerCore.TakeSecureModifyParams | crates/ccid-core/src/handler.rs:376-384 | an armed modify session is handed over; any session is dropped |
| CcidHandler.CcidHandlerCore.RecordProtocolError | crates/ccid-core/src/handler.rs:566-568 | one more error, saturating |
| CcidHandler.CcidHandlerCore.TransmitCounted | crates/ccid-core/src/handler.rs:577-602 | the APDU reaches the card, counted as sent, and as answered only if it was |
| CcidHandler.CcidHandlerCore.CheckCardChange | crates/ccid-core/src/handler.rs:702-761 | the new slot state and the change reported |
| CcidHandler.CcidHandlerCore.HandlePowerOn | crates/ccid-core/src/handler.rs:766-822 | power-on of the serial profile: refusal, activation or failure |
| CcidHandler.CcidHandlerCore.HandlePowerOnContact | crates/ccid-core/src/handler.rs:831-906 | power-on of the contact profile: guards in order, parameters from the ATR, host parameters dropped |
| CcidHandler.CcidHandlerCore.HandlePowerOff | crates/ccid-core/src/handler.rs:910-935 | always present but inactive; the contact profile returns to T=0 |
| CcidHandler.CcidHandlerCore.HandleXfrBlock | crates/ccid-core/src/handler.rs:953-971 | an inactive slot is refused, an active one goes through the pipeline |
| CcidHandler.CcidHandlerCore.HandleXfrBlockContact | crates/ccid-core/src/handler.rs:977-1063 | the contact profile's refusals, PPS echo and exchange |
| CcidHandler.CcidHandlerCore.ApduPipeline | crates/ccid-core/src/handler.rs:1254-1339 | PPS echo, pseudo-APDU answer, or the card; a failed exchange deactivates the slot |
| CcidHandler.CcidHandlerCore.HandleSetParameters | crates/ccid-core/src/handler.rs:1107-1144 | the serial profile looks at the protocol number and stores full T=1 blocks |
| CcidHandler.CcidHandlerCore.HandleSetParametersContact | crates/ccid-core/src/handler.rs:1152-1230 | length, protocol and field rules; block and decoded copy stored together |
| CcidHandler.CcidHandlerCore.HandleResetParameters | crates/ccid-core/src/handler.rs:1232-1247 | the contact profile forgets everything, the serial profile only returns to T=1 |
| CcidHandler.CcidHandlerCore.WriteParameters | crates/ccid-core/src/handler.rs:1470-1539 | the stored block if it is of the protocol in force, else the default or the ATR's |
| CcidHandler.CcidHandlerCore.HandleEscape | crates/ccid-core/src/handler.rs:1345-1467 | diagnostics, snapshot, identity and notification escapes by profile; the rest refused |
| CcidHandler.CcidHandlerCore.HandleSecure | crates/ccid-core/src/handler.rs:1554-1628 | a valid PIN structure arms a session and defers the answer; everything else is refused |
| CcidHandler.CcidHandlerCore.CompletePinEntry | crates/ccid-core/src/handler.rs:396-424 | the response for each outcome; the session is over |
| CcidHandler.CcidHandlerCore.CompletePinVerifyExchange | crates/ccid-core/src/handler.rs:436-480 | the exchange over the digits on the buffer |
| CcidHandler.CcidHandlerCore.CompletePinModifyExchange | crates/ccid-core/src/handler.rs:486-533 | the exchange over both buffers, old first |
| CcidHandler.CcidHandlerCore.ProcessCommand | crates/ccid-core/src/handler.rs:626-700 | one host message, dispatched and accounted for |
| CcidHandler.CcidHandlerCore.PerformAll | crates/ccid-core/src/handler.rs:289-761 | any list of operations done on the object is a run of the specification, and keeps the invariant |
| CcidHandler.Boot | crates/ccid-core/src/handler.rs:246-272 | an object from start-up through any list of operations is in the state of that run, so the invariant of every run is its own |
| CcidRuns.StepSound | crates/ccid-core/src/handler.rs:626-761 | no operation on any input with any driver breaks the invariant |
| CcidRuns.EveryRun | crates/ccid-core/src/handler.rs:333-341 | in every reachable state an active slot has a recorded card and the counters count the card traffic; on a contact reader stored parameters obey the field rules and agree with the decoded copy and with the accepted timing, and no PIN session waits on an empty slot |
| CcidRuns.AppliedDecodes | crates/ccid-core/src/handler.rs:1211-1228 | a legal block and its decoded copy agree on TA1, Fi, Di, guard time and, for T=1, BWI, CWI, IFSC and EDC |
| CcidHost.ParametersPersist | crates/ccid-core/src/handler.rs:1163-1229 | on a contact reader every GetParameters after an accepted SetParameters returns those bytes and that protocol, through any run without a successful power-on, a power-off, a reset, accepted parameters or a chosen protocol |
| CcidHost.RefusedSetIsInert | crates/ccid-core/src/handler.rs:1163-1205 | a SetParameters that is not accepted is answered failed and changes the error counter alone |
| CcidHost.ReportedIsTakenBack | crates/ccid-core/src/handler.rs:1494-1539 | the reader would accept its own reported block exactly unless it comes from an ATR that asks for a CRC, an IFSC below 16 or a protocol other than T=0 and T=1 |
| CcidHost.CrcBlockIsRefused | crates/ccid-core/src/handler.rs:1494-1539 | the block reported after an ATR that asks for a CRC is one the reader would refuse |
| CcidHost.PollIsIdempotent | crates/ccid-core/src/handler.rs:702-761 | a second poll with the same driver answer reports nothing and changes nothing, in both profiles |
| CcidHost.PollsSettle | crates/ccid-core/src/handler.rs:702-761 | however often the driver says the same, a change is reported once and the state is that of one poll |
| CcidHost.RepliesFit | crates/ccid-core/src/handler.rs:626-700 | every message with a header is answered by a whole message of a fitting kind for its own slot and sequence number, showing the true card status (IccPowerOn excepted), or not at all |
| CcidCard.CardReached | crates/ccid-core/src/handler.rs:590-602 | the card is asked for exactly what the message says and nothing else: an APDU only through an active slot, when the reader has no answer of its own, counted once |
| CcidCard.CardAnswers | crates/ccid-core/src/handler.rs:1254-1339 | the host gets what the card answered, and a failed exchange deactivates the slot in the serial profile only |
| CcidCard.SilenceIsExact | crates/ccid-core/src/handler.rs:626-700 | for every response buffer, a message goes unanswered if and only if it has no header, has armed a PIN session, or is due more than the buffer holds |
| CcidCard.SwallowedByTheBuffer | crates/ccid-service/src/ccid_serial_server.rs:36-38 | in the firmware's 271 bytes only an answer to reset, a card or UID answer, or an identity string of more than 261 bytes is lost |
| CcidCard.LongAnswerIsSwallowed | crates/ccid-core/src/lib.rs:106-109 | a card answer of 262 bytes is counted and the host hears nothing |
| CcidCard.VerifyReachesCard | crates/ccid-core/src/handler.rs:436-480 | for every key history and every P2, a PIN reported as entered reaches the card if and only if the length rule holds and the digits fit, as template header, Lc and the ASCII digits, counted once; digits that do not fit end the run |
| CcidCard.ModifyReachesCard | crates/ccid-core/src/handler.rs:486-533 | the same for a change of PIN, old digits then new |
| T1.PcbRoundTrip | crates/ccid-service/src/t1.rs:80-152 | a control byte decodes to what it encodes |
| T1Blocks.IBlockTold | crates/ccid-service/src/t1.rs:241-315 | every I-block, whatever its node address: taken, acknowledged, completed, out of order, too long, or repeated |
| T1Blocks.RBlockTold | crates/ccid-service/src/t1.rs:263-281 | every R-block: the next piece of an answer, or the last frame again |
| T1Blocks.SRequestTold | crates/ccid-service/src/t1.rs:321-358 | the four link-layer requests: what each resets and the response in kind |
| T1Blocks.SResponseTold | crates/ccid-service/src/t1.rs:360-383 | a grant releases the first piece, any other response has the last frame repeated |
| T1Blocks.AnswerTold | crates/ccid-service/src/t1.rs:389-425 | an answer in time starts to go out, after a slow one time is asked for; what goes out is the frame to repeat |
| T1Laws.FeedCloses | crates/ccid-service/src/t1.rs:241-387 | whatever the host sends, the endpoint stays in bounds and every frame it answers with closes on its own checksum |
| T1Laws.OnlyBlocksCount | crates/ccid-service/src/t1.rs:241-253 | bytes pass the checks if and only if they are the framing of some address, control byte and information field; anything else changes nothing and is met with a demand to resend |
| T1Laws.AnswerCloses | crates/ccid-service/src/t1.rs:389-417 | the same of the first frame of a card's answer |
| T1Laws.ChainsReassemble | crates/ccid-service/src/t1.rs:282-315 | however the host cuts an APDU, each piece is acknowledged and exactly the APDU is handed over, once, with the last |
| T1Laws.CutConserves | crates/ccid-service/src/t1.rs:437-455 | the pieces of an answer join to the answer |
| T1Laws.ChainsDrain | crates/ccid-service/src/t1.rs:263-281 | a host that acknowledges piece after piece is sent exactly the rest of the answer, the last piece marked last, and the send number moves on |
| T1Laws.AnswerStartsChain | crates/ccid-service/src/t1.rs:389-417 | an answer in time starts its chain: the first frame and what is left to drain are together the chain of the answer |
| T1Laws.ZeroSizeIsAccepted | crates/ccid-service/src/t1.rs:336-343 | a receive size of zero is taken from the host |
| T1Laws.ZeroSizeNeverDrains | crates/ccid-service/src/t1.rs:437-455 | after it no number of acknowledgments drains an answer |
| T1Laws.RetransmissionIsIdempotent | crates/ccid-service/src/t1.rs:282-302 | repeats of the block that completed an APDU, however many, are each answered with the same first frame and change nothing |
| T1Laws.ExtensionCovers | crates/ccid-service/src/t1.rs:396-407 | the extension asked for covers the exchange and the turnaround up to the cap of 59, and above 2 is the least that does |
| T1Laws.GrantReleases | crates/ccid-service/src/t1.rs:360-374 | a granted extension releases the held-back first piece, and makes it the frame to repeat, if and only if the answer is not empty; an empty one is met with a demand to resend |
| T1Reader.T1Endpoint.Feed | crates/ccid-service/src/t1.rs:241-318 | one host block, decided and answered |
| T1Reader.T1Endpoint.OnSRequest | crates/ccid-service/src/t1.rs:321-358 | resynchronisation, receive size, abort and waiting time, each answered in kind |
| T1Reader.T1Endpoint.OnSResponse | crates/ccid-service/src/t1.rs:360-383 | a grant releases the held-back piece, anything else repeats |
| T1Reader.T1Endpoint.CardResponse | crates/ccid-service/src/t1.rs:389-425 | the first frame of an answer, staged and cached |
| T1Reader.T1Endpoint.TakeNextChainBlock | crates/ccid-service/src/t1.rs:428-455 | the next piece, the send number flipped with the last |
| T1Reader.T1Endpoint.SetHostTiming | crates/ccid-service/src/t1.rs:223-226 | BWI stored and the accepted size clamped to 16 to 254 |
| T1Reader.T1Endpoint.Reset | crates/ccid-service/src/t1.rs:228-230 | a new endpoint |
| T1Reader.T1Endpoint.FeedAll | crates/ccid-service/src/t1.rs:241-318 | blocks fed to the object one after another are a run of the specification |
| T1Reader.T1Endpoint.Exchange | crates/ccid-service/src/t1.rs:282-318 | on the object, a completed APDU is answered once and its repeats get that same first frame and change nothing |
| ServiceRuns.CommandArms | crates/ccid-service/src/ccid_handler.rs:269-480 | one command feeds the endpoint one block and at most one answer, and only while it is armed for T=1; otherwise the endpoint is left alone but for the two triggers |
| ServiceRuns.OperationArms | crates/ccid-service/src/ccid_handler.rs:442-477 | accepted parameters arm the endpoint and leave it fresh with the negotiated timing, a card reset disarms it and leaves it fresh, and no event stays latched |
| ServiceRuns.EveryServiceRun | crates/ccid-service/src/ccid_handler.rs:225-241 | at every moment of every run the endpoint is armed exactly if parameters were accepted since the last card reset (a successful power-on, or a session lost without removal), it is fed only then and only for T=1, and no event is latched |
| ServiceRuns.NewSessionStartsClean | crates/ccid-service/src/ccid_handler.rs:442-602 | after accepted T=1 parameters with an active card, XfrBlocks carrying the host's first chain, numbered from zero and cut at the size it negotiated, are each acknowledged but the last, and the card is asked once, for exactly the joined APDU, unless the reader answers it itself |
| ServiceRuns.NegotiatedSize | crates/ccid-service/src/t1.rs:223-226 | that size is the negotiated IFSC |
| ServiceRuns.FinalIsSettled | crates/ccid-service/src/ccid_handler.rs:225-241 | after every run no event waits and the endpoint is armed exactly if parameters were accepted since the last card reset |
| ServiceRuns.SlowLongAnswerIsLost | crates/ccid-service/src/ccid_handler.rs:558-590 | a slow answer of more than 261 bytes is never delivered: the granted extension brings a demand to resend |
| ServiceRuns.ProbeAfterReset | crates/ccid-service/src/ccid_handler.rs:464-477 | the PPS probe right after a card reset is echoed, not fed to the endpoint |
| ServiceMessages.TimingIsNegotiated | crates/ccid-service/src/ccid_handler.rs:442-463 | an accepted T=1 block makes a new endpoint with the BWI and the size of that block |
| ServiceMessages.TimingIsKept | crates/ccid-service/src/ccid_handler.rs:442-463 | ResetParameters makes one of the block accepted before, or of the standard's values |
| ServiceMessages.BaudTold | crates/ccid-service/src/ccid_handler.rs:379-439 | a known rate is acknowledged with its code and value and latched, any other refused |
| ServiceMessages.ProbeTold | crates/ccid-service/src/ccid_handler.rs:287-378 | the probes answer as they come out and change nothing |
| ServiceMessages.NoPinIsTaken | crates/ccid-core/src/handler.rs:1554-1582 | the serial reader refuses every Secure message, and nothing but the error counter moves |
| ServiceMessages.RoutedXfrTold | crates/ccid-service/src/ccid_handler.rs:482-602 | every outcome of an XfrBlock while the endpoint is armed: refused, answered by the endpoint, or relayed and framed |
| ServiceMessages.RoutedTruncatedTold | crates/ccid-service/src/ccid_handler.rs:482-500 | one cut short is refused and counted |
| ServiceRuns.RelayExact | crates/ccid-service/src/ccid_handler.rs:562-590 | what is framed as the card's answer: the answer, 64 00 for a failed exchange, nothing for an answer past the scratch buffer |
| ServiceRuns.SBlocksAreLocal | crates/ccid-service/src/ccid_handler.rs:502-522 | what passes for a link-layer request is answered by the endpoint without the card |
| ServiceRuns.ResponsesPassAsRequests | crates/ccid-service/src/t1.rs:499-507 | link-layer responses pass for requests too |
| ServiceHandler.Handler.CheckCardChange | crates/ccid-service/src/ccid_handler.rs:225-241 | the poll, with the route closed at event time |
| ServiceHandler.Handler.ProcessCommand | crates/ccid-service/src/ccid_handler.rs:269-480 | routing, local escapes, delegation, then both events taken |
| ServiceHandler.Handler.XfrViaT1 | crates/ccid-service/src/ccid_handler.rs:482-602 | truncation guard, link-layer requests, inactive slot, endpoint |
| ServiceHandler.Handler.RelayToCard | crates/ccid-service/src/ccid_handler.rs:545-602 | the assembled APDU through the pipeline, its answer reframed |
| ServiceHandler.Handler.AnswerBaud | crates/ccid-service/src/ccid_handler.rs:379-439 | a known code of the right length is acknowledged and latched, anything else refused |
| ServiceHandler.Handler.TakeBaudChange | crates/ccid-service/src/ccid_handler.rs:141-143 | the latched rate is returned once |
| ServiceHandler.Handler.PerformAll | crates/ccid-service/src/ccid_handler.rs:225-480 | any list of operations on the object is a run: armed and settled at its end as the messages and the driver say, and proper at every moment |
| HceFraming.FrameRoundTrip | host-tools/hce_relay.py:67-86 | reading what was written for a payload yields the payload and what follows it |
| HceFraming.WireFormat | host-tools/hce_relay.py:67-86 | two bytes of length, high one first, then the payload, up to 65535 bytes |
| HceFraming.PrefixIsNoFrame | host-tools/hce_relay.py:67-86 | no strict prefix of a frame is taken for one |
| HceFraming.StreamRoundTrip | host-tools/hce_relay.py:67-86 | any sequence of payloads is read back in order |
| HceFraming.Socket.RecvExact | host-tools/hce_relay.py:67-74 | exactly n bytes, however they arrive, or the end too soon |
| HceFraming.Socket.RecvFrame | host-tools/hce_relay.py:67-79 | the frame the stream starts with, however its bytes arrive |
| HcePolicy.CheckIsExact | host-tools/hce_relay.py:243-281 | a command passes the NTAG424 policy if and only if the history of the card permits it, and crashes exactly when it is a SELECT too short to index |
| HcePolicy.ShortSelectCrashes | host-tools/hce_relay.py:284-288 | the four bytes 00 A4 04 00 crash a fresh policy |
| HcePolicy.ObserveRemembers | host-tools/hce_relay.py:291-302 | after every exchange the flags say of the history what they stand for |
| HcePolicy.Ntag424ReadOnlyPolicy.Check | host-tools/hce_relay.py:243-288 | the gate's decision and its effect on the chain flag |
| HcePolicy.Ntag424ReadOnlyPolicy.Observe | host-tools/hce_relay.py:291-302 | chain, identity and mismatch |
| HcePolicy.JcopCheckIsExact | host-tools/hce_relay.py:323-336 | the JCOP policy passes a command if and only if it is the ledger query, or the ledger identity was seen and it is in the profile |
| HcePolicy.JcopObserveRemembers | host-tools/hce_relay.py:338-352 | verified means the ledger identity was seen |
| HcePolicy.NtagProfile | host-tools/hce_relay.py:220-288 | the whole NTAG424 profile in bytes: the version chain, the NDEF SELECT, and once the identity was seen the two file SELECTs, READ BINARY and two exact reads; so no write, no authentication, no setting |
| HcePolicy.JcopProfile | host-tools/hce_relay.py:305-336 | the whole JCOP profile in bytes |
| HcePolicy.VersionAnswerIsJudged | host-tools/hce_relay.py:291-302 | more to come keeps the chain open, a last part is judged by its first seven bytes |
| HcePolicy.ShortAnswerIsNotJudged | host-tools/hce_relay.py:290-351 | an answer without a status word is no mismatch in either policy and shows no identity |
| HcePolicy.LedgerAnswerIsJudged | host-tools/hce_relay.py:338-352 | a ledger answer is judged by its tag, status word and bytes 15 to 18 |
| HcePolicy.JcopReadOnlyPolicy.Check | host-tools/hce_relay.py:323-336 | the decision |
| HcePolicy.JcopReadOnlyPolicy.Observe | host-tools/hce_relay.py:338-352 | the ledger answer judged |
| HceSession.PcscBackend.Exchange | host-tools/hce_relay.py:423-433 | checked immediately before the card is asked, observed after; a denied command never reaches the card |
| HceSession.RelaySession.Serve | host-tools/hce_relay.py:661-680 | one command: connect if need be, exchange, send the reply, or end the session |
| HceSession.RelaySession.Run | host-tools/hce_relay.py:648-689 | the loop over the socket, frames read as they arrive and replies written back, does what the specification of a session says of the frames in the stream, down to exit code, order and bytes written |
| HceSession.PhoneReadsAnswers | host-tools/hce_relay.py:648-689 | over the byte streams, what the phone reads back are the replies, the i-th the card's answer to its i-th command frame |
| HceSession.RepliesPair | host-tools/hce_relay.py:648-689 | the i-th reply is the card's answer to the i-th command frame, control frames produce none, a failure is not answered and nothing follows it |
| HceSession.AnsweredExactly | host-tools/hce_relay.py:661-680 | a command is answered, with what the card said, if and only if a card is connected, the policy admits command and answer, the answer has 2 to 65535 bytes and the link delivers it; an index error ends the session if and only if the policy makes one |
| HceSession.NothingIsHeldBack | host-tools/hce_relay.py:648-689 | without a limit a session ends well if and only if the link held and every command was answerable, and then the replies are exactly what the card said, all of it |
| HceSession.LimitHolds | host-tools/hce_relay.py:652-653 | with once = N at most N replies are sent, and a session that is done sent exactly N |
| HceSession.EndsWellOrShort | host-tools/hce_relay.py:681-689 | a session the phone closed has answered every command; one that broke has not |
| HceSession.SessionsAreLawful | host-tools/hce_relay.py:423-433 | in every session with any card, each command that reaches an NTAG424 is one its history permits |
| HceSession.LawfulMeans | host-tools/hce_relay.py:220-302 | each transmitted 90 AF continues an unbroken chain answered 91AF throughout, only that chain and the NDEF SELECT come before the expected UID was seen, and nothing after a mismatch |
| HceSession.JcopSessionsAreLawful | host-tools/hce_relay.py:305-354 | the same of a JCOP card and its policy |
| HceSession.EveryNtagSession | host-tools/hce_relay.py:220-302 | in every session of a new NTAG424 policy, whatever the phone sends and the card answers: no command reaches the card after a mismatch, 90 AF only in an unbroken chain, and before the expected UID was seen only that chain and the NDEF SELECT |
| HceSession.EveryJcopSession | host-tools/hce_relay.py:305-354 | in every session of a new JCOP policy, only the ledger query reaches the card before the ledger identity was seen, and after it only the profile |
| HceSession.ServeNtag | host-tools/hce_relay.py:714-820 | policy, backend and session built and run over a socket: every command in the card's log was permitted by those before it, and the log, exit code and bytes written are those of that session |
| HceSession.ServeJcop | host-tools/hce_relay.py:714-820 | the same for a JCOP card |
| CaptureDiff.Merge | host-tools/ccid_capture_diff.py:113-122 | merged spans are in order, separated, and cover exactly what the spans cover |
| CaptureDiff.MergedIsCanonical | host-tools/ccid_capture_diff.py:113-122 | two merged lists that mask the same bytes are the same list |
| CaptureDiff.MaskSpans | host-tools/ccid_capture_diff.py:88-122 | masks exist if and only if every declaration lies inside its bytes, and mask exactly the declared bytes of each side |
| CaptureDiff.UnionMasked | host-tools/ccid_capture_diff.py:149-163 | a byte is masked if either capture masks it, and none is when strict |
| CaptureDiff.IsCovered | host-tools/ccid_capture_diff.py:166-167 | whether some span covers the index |
| CaptureDiff.DiffSide | host-tools/ccid_capture_diff.py:184-192 | exactly the unmasked indices that differ, in order |
| CaptureDiff.CountSide | host-tools/ccid_capture_diff.py:183-207 | one for a wrong length and one for any unmasked wrong byte |
| CaptureDiff.DiffCaptures | host-tools/ccid_capture_diff.py:170-210 | the count is zero if and only if names, lengths and unmasked bytes agree |
| CaptureDiff.StrictIsEquality | host-tools/ccid_capture_diff.py:149-152 | strict agreement is equality of names and bytes |
| CaptureDiff.AgreementIsFair | host-tools/ccid_capture_diff.py:149-210 | agreement is symmetric and reflexive, and masks only ever excuse |

## Left out

- GPIO, I2C, USB, PTY, adb and PC/SC calls, the broker's main loop and the connect functions: foreign calls and timing; their answers are the nondeterministic environments above.
- crates/boards, product and build tooling, boltwipe.py and authdelay.py: constant data, plumbing, or properties of ciphers that are not part of this model.
- Byte-level details of the firmware identity string, the Escape 0xD2, 0xD3 and 0xD4 payloads, the presence sink and log lines: data and side effects that no modelled state depends on.
- The diagnostics overlay that a wrapper may install on Escape 0xD0 (crates/ccid-core/src/handler.rs:275-283): the default, none, is modelled.
- Zeroising of dropped buffers by volatile writes: `PinBuffer.Clear` shows every cell zero, but that the store survives compilation cannot be said here.
- Direct mutable access to the driver and the counters (`driver_mut`, `diagnostics_mut`): a caller that rewrites them is outside the runs considered.
- A dwLength so large that 10 + dwLength wraps a 32-bit address: message lengths are unbounded integers here.
- A PIN structure whose parse faults, and an APDU that overruns its buffer, end the firmware's run; in `CcidCore` they leave the state as it is and answer nothing, so every invariant covers the run up to that point. `SecurePin` says exactly when they happen.
- The 32-bit overflow of the card's time plus the turnaround margin when sizing a waiting-time request, and the capacity checks of fixed-size vectors that the bounds of `T1Laws.FeedCloses` make unreachable.
- The quiet-wire callbacks and the serve evidence for firmware updates. The handler behind `CdcBurst` is any deterministic state machine.
- SerialBoard.ReaderIsABoard: the UART profile, which writes NAKs and slot change notifications between echo and answer, is not covered; nor are runs with expiry, failed writes, idle reads or a snapshot.
- The null-payload argument of the request builder and the C walk over interface bytes that caches an ATR (host-tools/ifd-nucula/ifd-nucula.c:558-640): the driver's own use of the ATR is not part of this model.
- IfdDriver.Driver.Command: interruptions and junk that never end are cut off by a budget, so that every run is finite.
- IfdDriver.Driver.SendFrame: bytes a socket accepts are taken to reach the board, and a board to start a new connection between frames.
- Broker.ChunkingInvariance: runs with an idle flush or an overflow pass-through are excluded; `Broker.PowerOffShim.Process` states what one such call does.
- CdcBurst.ResponsesInTime: frames written by the stall hook are taken to reach the wire, since the hook ignores the outcome of its writes.
- WaitingTime.BwtLeast: the exchange wire time estimate (crates/ccid-protocol/src/atr.rs:272-300) floors to microseconds before its ceiling and is not modelled, nor are the check byte and the T=0 waiting time.
- HceSession.RelaySession.Run: the journal, the artificial delay and the scripted, Android and fake backends; an uncaught index error is an exit of its own, `Thrown`.
- CaptureDiff.DiffCaptures: reading the JSON files, hex parsing and the text of the report; exchanges are visited in any order.
- T1Laws.ChainsDrain: every R-block is taken for an acknowledgment, as the code does, so a host that asks for a repeat in the middle of a chain is sent the next piece.
