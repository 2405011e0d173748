# FlexDiag verification model

FlexDiag carries UDS diagnostics (ISO 14229-1) over a one-line-per-message text protocol, `proto=1`.
A client (the Dart app or the terminal) prints a command; the bridge parses it and hands it to a
backend: either `FakeVectorCom` with the mock ECU, or `VectorCom`, which talks to a CAPL node through
ten System Variables. What the ECU answers comes back as an event and leaves as a response line. The
project models every link of that chain and proves that one request and one answer travel through it
intact, and says exactly where the code does not keep that promise.

| module | models |
|---|---|
| `Base`, `Text` | bytes, options, tokenising, numerals |
| `Wire` | the Python codec and the id allocator |
| `DartCodec` | the Dart codec |
| `Dtc` | decoding of ReadDTCInformation payloads |
| `MockEcu` (`Ecu.dfy`) | the mock UDS server |
| `Bridge` | `FakeVectorCom` and the event encoder |
| `Front` | the line dispatcher of the bridge |
| `Agreement` | both codecs and the bridge together |
| `EndToEnd` | a request line, the mock, the answer line |
| `Capl` | the CAPL node: transport and diagnostic core |
| `CaplRuns` | all runs of that core against an arbitrary ECU |
| `Refinement` | `FakeVectorCom` against the CAPL node on the same ECU |
| `Handshake` | bridge and node interleaved access by access |
| `PollLoop` | the poll loop of `VectorCom` with its timeouts |
| `Pipeline` | client lines, bridge, System Variables, node and ECU together |
| `Correlation` | pending requests of the Dart client |
| `ClientPath` | a request of the Dart client from printing to completion |
| `AppState` | connect, disconnect, drop and reconnect of the Dart client |
| `Backoff` | the reconnect policy and loop of the terminal |

Imperative code is a class with the source's fields (`Ecu`, `FakeVectorCom`, `Connection`, `DiagVars`,
`CaplNode`, `VectorCom`, `SeqAllocator`, `DiagService`, `App`, `Repl`) or a loop over an array or a
sequence. Each such method is proved equal to a function on plain values, and the theorems are about
those functions and their runs. A `hide` in a proof only spares the solver definitions that the step does
not need.

Findings about the code, each with a theorem saying exactly when it happens and, where that helps, a lemma
with the input:

- `FakeVectorCom` gives the same lines and ECU state as the CAPL node except in exactly three families:
  a suppressed RAW `3E 8x`, `SECURITY FF`, and an injected NRC of 78 (`LinesAgreeIffNotDiverging`).
- A response-pending answer (78) notifies the bridge while the node is still at work. The event the bridge
  reads can mix it with the final answer (`PendingTearsAnEvent`), or the 78 is lost and the final answer is
  delivered twice (`PendingDoublesTheAnswer`), for every command that reaches the ECU and every pair of
  frames the core publishes for it. Without 78 nothing is ever torn, lost or repeated (`UntornHandshake`).
- The comment at vector/capl/flexdiag_core.can:243-245 promises exactly one terminal answer. Once a command
  has been served, a further ECU frame keeps that promise for good exactly when the timer is armed as it
  arrives (`OneTerminalIffNotLate`). Most late frames are published at once as a second terminal
  (`LateAnswerPublishesTwice` is a run); a late seed that is turned into a key request arms the timer again,
  whose firing is the second terminal (`LateSeedTimesOut` is a run).
- The comment at flutter_app/lib/services/diag_service.dart:130 says a request resolves with its terminal
  response. It is completed by the first line with its id (`CompletedByFirstLine`, `ClientGetsItsAnswer`),
  which is a response-pending exactly when one is injected ahead of the answer or in its place, into a
  request other than TP that is not dropped (`PendingComesFirstIff`).
- The event pump of a connection ends for good at the first event that does not encode: what is delivered
  is the longest encodable prefix (`DeliveredIsLongestPrefix`, `DeliveredStops`). A DTC report too long for
  a line cuts off every later event (`OverlongReportEndsThePump`; 341 records do, `LongTableEndsThePump`).
- The comment at flutter_app/lib/state/app_state.dart:250-252 says that disconnecting cancels a reconnect.
  With later connects allowed, a task suspended before the disconnect can still install a transport exactly
  when it is a connect, a loop in its delay or a loop in its connection attempt (`SurvivesDisconnectIff`);
  such a loop installs a transport to the old peer beside the new one (`StaleLoopHijacks`). Without later
  connects only a connect in flight can (`DisconnectIsFinalIffNoConnect`). The end of a discarded
  attempt clears the reconnect mark even if another loop is running by then (`DiscardedAttempt`), and one
  more drop then starts a second loop beside it (`TwoLoopsAtOnce` is a run).
- The docstring of `parse_response` promises `ProtocolError`. It raises a plain `ValueError` exactly on a
  READY line whose `proto` is there but no integer (`PlainValueErrorIff`; `PlainValueErrorWitness` is a line).
- The docstring of `decode_dtc` speaks of four hexadecimal digits. A code has six characters exactly when
  the low six bits of its first byte are zero, and else seven or eight (`CodeWidth`; `CodeWidthWitness` is a
  code). The variable width loses nothing (`DecodeDtcIsInjective`).
- The dispatcher raises, and sends nothing, exactly when its one reply would be longer than a line
  (`EveryLineReacts`). A line within the limit can do that (`SomeLineRaises`): a PING with an id of 4090
  digits.

## Model

| member | source | states |
|---|---|---|
| Wire.DecodeHexTokens | protocol/wire.py:92-98 | the loop decodes a token list exactly when every token is two hex digits, and then byte by byte |
| Wire.HexRoundTrip | protocol/wire.py:80-98 | decoding the printed bytes gives the bytes back |
| Wire.DecodeIff | protocol/wire.py:80-98 | tokens decode to given bytes exactly when, in upper case, they are what those bytes are printed as |
| Text.DigitsAreUpper | protocol/wire.py:80-82 | numerals are printed in upper case |
| Text.IntegersAccepted | protocol/wire.py:219-225 | an integer is a numeral with at most one sign before it, read with that sign; nothing else is |
| Text.Separators | protocol/wire.py:202-216 | blanks, tabs and line ends separate tokens, in any number |
| Wire.FillReadyFields | protocol/wire.py:280-285 | the READY loop builds the map in which later tokens override earlier ones, or fails if some token has no `=` |
| Wire.NoReadyFields | protocol/wire.py:281-283 | one token without `=` rejects the line, whatever follows it |
| Wire.ResponseRoundTrip | protocol/wire.py:162-357 | every well-formed response of every server verb that fits is read back unchanged, with or without its newline; the only newline is the last character |
| Wire.CommandRoundTrip | protocol/wire.py:116-256 | every well-formed command that fits is read back unchanged, from one line |
| Wire.ParsedCommandIsWellFormed | protocol/wire.py:230-256 | an accepted command has a non-negative id, a client verb, space-free arguments, and decoded data exactly for RAW |
| Wire.CommandNormalisation | protocol/wire.py:116-256 | printing an accepted command and parsing it again changes nothing whenever it fits |
| Wire.ParsedResponseIsWellFormed | protocol/wire.py:259-357 | an accepted response is well formed and, apart from READY, no token of its line is ignored |
| Wire.ResponseNormalisation | protocol/wire.py:162-357 | printing an accepted response and parsing it again changes nothing whenever it fits |
| Wire.ResponseCaseIsIgnored | protocol/wire.py:269-355 | RSP, NRC, OK and PONG lines are read alike in either letter case |
| Wire.ServerWords | protocol/wire.py:68-77 | the seven words that start a server line |
| Wire.ByteFieldsHaveTwoDigits | protocol/wire.py:175-181 | NRC and OK SEC print bytes with two digits |
| Wire.SpacingIsIgnored | protocol/wire.py:202-227 | two lines within the limit with the same tokens are read alike by both parsers, errors included |
| Wire.PlainValueErrorIff | protocol/wire.py:259-291 | `parse_response` raises a plain `ValueError` exactly on a READY whose `proto` is present and no decimal integer, whatever else is missing; `parse_command` never does |
| Wire.PlainValueErrorWitness | protocol/wire.py:286-291 | `1 READY proto=x` is such a line |
| Wire.DirectionsAreDisjoint | protocol/wire.py:246-276 | no line is accepted both as a command and as a response |
| Wire.SeqAllocator.Next | protocol/wire.py:407-420 | ids are consecutive from 1 and never 0 |
| DartCodec.RegexSplitIsSplit | flutter_app/lib/protocol/codec.dart:196-204 | on trimmed plain text the regular expression cuts where Python's `split` does |
| DartCodec.TrimmedSplit | flutter_app/lib/protocol/codec.dart:79-90 | trimming and cutting gives exactly Python's tokens, and a blank text none |
| DartCodec.CodecsAgree | flutter_app/lib/protocol/codec.dart:192-329 | on every plain line Dart accepts exactly what Python accepts and 64 bits can hold, with the same fields |
| DartCodec.PlainTextIff | flutter_app/lib/protocol/codec.dart:196-197 | plain lines are those without the six characters on which the codecs' notions of white space differ |
| DartCodec.Int64Range | flutter_app/lib/protocol/codec.dart:206-209 | the range of a Dart integer |
| Agreement.BothReadResponse | flutter_app/lib/protocol/codec.dart:218-329 | a printed response, newline stripped, is read as itself by both codecs |
| Agreement.EventLinesAgree | bridge/flexdiag_bridge.py:399-433 | every line that encodes an event is read alike by both codecs, with the event's id |
| Agreement.BannerAgrees | bridge/flexdiag_bridge.py:451 | so is the READY banner, with id 0 |
| Agreement.ReplyLinesAgree | bridge/flexdiag_bridge.py:498-616 | so is every immediate reply to any client text, with the id the text carried |
| Agreement.DispatchTokens | bridge/flexdiag_bridge.py:505-536 | any line with the tokens of a well-formed command is executed as that command |
| Agreement.DartCommandsAreQueued | flutter_app/lib/protocol/codec.dart:101-126 | every byte-valued request the Dart client prints within the limit is queued with exactly the intended id, kind, argument and data |
| Agreement.EmptyRawIsRefused | flutter_app/lib/protocol/codec.dart:123-126 | a RAW request without bytes is printed without trailing blank and refused as `bad_args` |
| Dtc.DecodeDtcIsInjective | protocol/dtc.py:31-51 | two DTCs that print alike are the same three bytes |
| Dtc.CodeReads | protocol/dtc.py:36-51 | a code's letter is P, C, B or U by the top two bits, its digit the next two, and the rest the low 22 bits in hexadecimal |
| Dtc.CodeWidth | protocol/dtc.py:39-51 | a code has six characters exactly when `b2 % 64` is 0, seven when it is below 16, else eight |
| Dtc.CodeWidthWitness | protocol/dtc.py:39-51 | `10 00 00` takes eight |
| Dtc.ParseRecords | protocol/dtc.py:71-74 | the stride-4 loop yields the records of the body, in order |
| Dtc.ParseReadDtcPayload | protocol/dtc.py:54-76 | the parser accepts exactly the `59 02` payloads of whole records |
| Dtc.ParseIsBijective | protocol/dtc.py:54-76 | a payload parses to a mask and a record list exactly when it is their serialisation, and only consistent lists come out |
| Dtc.PrintedListDeterminesPayload | protocol/dtc.py:54-76 | mask, codes and statuses as shown to a user determine the payload |
| MockEcu.Ecu.HandleRequest | mock_ecu/uds.py:128-191 | one request changes all fields of the ECU, and answers, as the function `Handle` says |
| MockEcu.Ecu.ReportByMask | mock_ecu/uds.py:163-168 | the table loop reports exactly the selected entries, in order |
| MockEcu.SelectIsSelection | mock_ecu/uds.py:165-166 | the selected entries are those whose status shares a set bit with the mask, each once and in table order |
| MockEcu.SelectedIff | mock_ecu/uds.py:166 | a status is selected exactly when some bit is set in both it and the mask, bits taken arithmetically |
| MockEcu.KeyFlipsBits | mock_ecu/uds.py:60-69 | a key byte is its seed byte with bits 1, 3, 4 and 6 flipped |
| MockEcu.RefusalsTellWhy | mock_ecu/uds.py:140-191 | each negative response code is given exactly for the fault it names |
| MockEcu.AcceptedAnswers | mock_ecu/uds.py:149-171 | what every request that is neither refused nor a SecurityAccess is answered, and that only a session request changes the ECU; silence exactly for a TesterPresent with bit 7 |
| MockEcu.EmptyRequestRaises | mock_ecu/uds.py:140-141 | an empty request raises and leaves the ECU alone |
| MockEcu.SessionIsLastServed | mock_ecu/uds.py:149-153 | after any history the session is the one served last, or 01 |
| MockEcu.Ecu.Unlock | mock_ecu/uds.py:173-189 | SecurityAccess: seed for an odd level, key check against the stored seed for an even one |
| MockEcu.Ecu.Inject | mock_ecu/uds.py:71-99 | arming an injection replaces all three flags and nothing else |
| MockEcu.Ecu.ConsumePendingBefore | mock_ecu/uds.py:111-115 | reads and clears its flag, nothing else |
| MockEcu.Ecu.ConsumeDrop | mock_ecu/uds.py:117-121 | reads and clears its flag, nothing else |
| MockEcu.Ecu.ConsumeNrc | mock_ecu/uds.py:123-126 | reads and clears its flag, nothing else |
| MockEcu.UnlockCharacterisation | mock_ecu/uds.py:128-191 | over every history of requests and injections a fresh ECU is unlocked exactly when a served odd-level request was later followed by a served even-level one with key `SEED xor 5A`; the pending level is none or odd |
| MockEcu.AnswersFitTheirRequest | mock_ecu/uds.py:128-191 | every answer is a three-byte negative naming the request's service, or starts with that service plus 40 |
| MockEcu.SeedThenKey | mock_ecu/uds.py:173-188 | from any state, seed request then matching key unlocks and leaves everything else as it was |
| MockEcu.EvenLevelIsRefused | mock_ecu/uds.py:180-189 | an even level without key is refused with 24 or 35 according to the pending seed, without effect |
| Bridge.FakeVectorCom.Respond | bridge/flexdiag_bridge.py:327-349 | queues exactly the events of `RespondUds` and moves the ECU as it says |
| Bridge.FakeVectorCom.Security | bridge/flexdiag_bridge.py:351-376 | the seed half of the security dance, events and ECU |
| Bridge.FakeVectorCom.Key | bridge/flexdiag_bridge.py:378-391 | the key half; level FF overflows and queues nothing |
| Bridge.FakeVectorCom.Dispatch | bridge/flexdiag_bridge.py:295-321 | one command, by kind |
| Bridge.FakeVectorCom.Drain | bridge/flexdiag_bridge.py:285-293 | the worker takes the whole queue in FIFO order |
| Bridge.AnsweredOnce | bridge/flexdiag_bridge.py:295-391 | a queued command yields at most one 78 event and then exactly one terminal event with its id and kind; none exactly for an un-injected, un-dropped suppressed RAW `3E 8x` or SECURITY FF |
| Bridge.Injected78IsNeverTerminal | mock_ecu/uds.py:145-147 | an injected NRC of 78 yields one event more than the preamble, and none of them is terminal |
| Bridge.AnsweredIffNo78 | bridge/flexdiag_bridge.py:295-391 | a command gets the answer it is owed exactly when no 78 is injected into it |
| Bridge.InjectionIsServedOnce | mock_ecu/uds.py:71-126 | an injection shows in the next request other than TP: a drop times out and leaves the rest armed, a 78 comes first, an NRC in place of the service; then nothing is armed |
| Bridge.StoppingSilencesDrops | bridge/flexdiag_bridge.py:333-339 | a backend being stopped differs only in a dropped request, which stays unanswered |
| Bridge.UnknownStatusRaises | bridge/flexdiag_bridge.py:399-433 | rendering raises `ValueError` exactly on an unknown status |
| Bridge.NegativeIsRendered | bridge/flexdiag_bridge.py:415-418 | a negative event of any length is rendered with service and code, zero where a byte is missing |
| Bridge.DeliveredIsLongestPrefix | bridge/flexdiag_bridge.py:483-495 | the lines delivered are the longest encodable prefix of the events, all of them exactly when every event encodes |
| Bridge.DeliveredStops | bridge/flexdiag_bridge.py:483-495 | one event that does not encode cuts off everything behind it |
| Front.Connection.DispatchLine | bridge/flexdiag_bridge.py:498-536 | any text: what is sent, what is queued, whether the connection closes, whether encoding raised |
| Front.Connection.Perform | bridge/flexdiag_bridge.py:536-616 | the same for each accepted verb and its arguments |
| Front.QueuedIsWellFormed | bridge/flexdiag_bridge.py:549-612 | whatever the line, what is queued has kind 0..6, argument 0..255, non-empty data exactly for RAW, and the line's id |
| Front.EveryLineReacts | bridge/flexdiag_bridge.py:498-616 | every line, of any length, is blank, closes, gets exactly the one reply it should (text and id, 0 if it has none), or queues exactly the request it should; it raises exactly when that reply, whose length is given per case, exceeds a line |
| Front.SomeLineRaises | bridge/flexdiag_bridge.py:542-544 | some line within the limit makes the dispatcher raise, whatever the tool's name |
| Front.Connection.PumpEvents | bridge/flexdiag_bridge.py:483-495 | the pump sends exactly the delivered lines, ends at the first event that does not encode, and leaves those behind it queued |
| Front.OtherVerbsQueue | bridge/flexdiag_bridge.py:549-612 | a verb that is not answered at once queues exactly its request when its arguments are good, and is refused as `bad_args` otherwise |
| Front.CaseIsIgnored | bridge/flexdiag_bridge.py:519-604 | a line does what its upper-case version does: verbs, START and STOP, hexadecimal arguments and payloads |
| Front.LowerCaseSession | bridge/flexdiag_bridge.py:549-561 | `1 session 0a` queues session 10 |
| Front.BareReadDtc | bridge/flexdiag_bridge.py:567-575 | a READDTC without argument asks for mask FF |
| Front.ReplyIdIsShort | bridge/flexdiag_bridge.py:509-517 | the echoed id never prints longer than the token it was read from |
| EndToEnd.ReadDtcEndToEnd | mock_ecu/uds.py:160-168 | from printed request to decoded records: exactly the entries whose status shares a bit with the mask, once each and in order; the line can be sent exactly when digits(id) + 12k + 14 <= 4095 |
| EndToEnd.RspFits | protocol/wire.py:171-199 | an RSP line of n > 0 bytes fits exactly when digits(id) + 3n + 5 <= 4095 |
| EndToEnd.OverlongReportEndsThePump | bridge/flexdiag_bridge.py:483-495 | a report is delivered and later events go on exactly when it fits; otherwise neither it nor any later event is delivered |
| EndToEnd.LongTableEndsThePump | bridge/flexdiag_bridge.py:483-495 | 341 records and a one-digit id are enough |
| EndToEnd.SecurityEndToEnd | bridge/flexdiag_bridge.py:351-424 | below FF an odd level ends as `OK SEC` with that level and unlocks, an even one as NRC 24 or 35 and changes nothing; the reply to a request that fits always fits |
| EndToEnd.SecurityFFIsSilent | bridge/flexdiag_bridge.py:378-381 | level FF leaves the ECU waiting for a key and sends no line |
| EndToEnd.SessionEndToEnd | mock_ecu/uds.py:149-153 | SESSION sets exactly the session asked for and is answered `50 <session> 00 32 01 F4` |
| EndToEnd.ClearDtcEndToEnd | mock_ecu/uds.py:170-171 | CLEARDTC is answered `54` and changes nothing |
| EndToEnd.TimeoutReadsBack | bridge/flexdiag_bridge.py:430-431 | a timeout event is read back as ERR 504 ecu_timeout, for every kind and data |
| EndToEnd.KeygenFailureReadsBack | bridge/flexdiag_bridge.py:427-428 | a key generation failure is read back as ERR 500 keygen_fail |
| EndToEnd.KeygenFailureAtNode | vector/capl/flexdiag_core.can:163-170 | seed arrives, key generation fails: the node ends the command and the client reads 500 |
| EndToEnd.TimeoutAtNode | vector/capl/flexdiag_core.can:246-255 | the ECU stays silent: the node ends the command and the client reads 504 |
| EndToEnd.BackendsAnswerAlike | bridge/flexdiag_bridge.py:245-391 | whatever command line a client sends, mock and CAPL node give the same lines exactly outside the three families, and then the same ECU |
| Capl.CaplNode.PublishRsp | vector/capl/flexdiag_sysvar.can:76-83 | the response variables hold the publish and the trigger counts it |
| Capl.CaplNode.OnSysvarReqTrigger | vector/capl/flexdiag_sysvar.can:20-70 | dispatch of the request variables on the kind: globals, frames, publishes |
| Capl.CaplNode.SendRawFrame | vector/capl/flexdiag_core.can:68-77 | remembers the id, transmits at most 4095 bytes, arms the watchdog |
| Capl.CaplNode.OnResponse | vector/capl/flexdiag_core.can:177-209 | an ECU frame: 78 re-arms, a negative ends security, a positive goes on |
| Capl.CaplNode.PositiveAnswer | vector/capl/flexdiag_core.can:211-237 | the security continuation or a plain positive publish |
| Capl.CaplNode.ReadPrimitive | vector/capl/flexdiag_core.can:184-187 | the buffer holds the first 4095 bytes of the frame |
| Capl.CaplNode.CopySeed | vector/capl/flexdiag_core.can:220-224 | the loop copies the seed, at most 256 bytes |
| Capl.CaplNode.SendKeyFor | vector/capl/flexdiag_core.can:157-172 | a failed key generation publishes status 3, otherwise the key request is sent |
| Capl.CaplNode.KeyRequest | vector/capl/flexdiag_core.can:131-141 | the loop builds `27 <level+1> <key>` with byte wrap |
| Capl.CaplNode.OnTimer | vector/capl/flexdiag_core.can:246-255 | the watchdog ends security and publishes status 4 |
| CaplRuns.EveryRunKeepsInv | vector/capl/flexdiag_core.can:68-255 | the invariant of all legal runs against an ECU that may send any bytes |
| CaplRuns.ArmedIffAwaiting | vector/capl/flexdiag_core.can:182-255 | the watchdog is armed exactly while a non-TP command awaits its terminal publish |
| CaplRuns.PublishDiscipline | vector/capl/flexdiag_core.can:177-255 | every publish belongs to a command and carries its kind; per id there are 78s and then at most one terminal |
| CaplRuns.SecurityContinuation | vector/capl/flexdiag_core.can:211-234 | no publish of a SECURITY command shows a seed of its level, and every OK is rendered as exactly the level requested, byte wrap included |
| CaplRuns.StatusTellsItsStep | vector/capl/flexdiag_core.can:157-255 | over every run each publish was made by one step and its status tells which: 1 a negative frame, 2 a TP command or the awaited unlock, 3 the awaited seed without a key, 4 the watchdog, 0 any other frame |
| CaplRuns.StepTransmits | vector/capl/flexdiag_core.can:68-172 | the frame each command sends, the seed handed to the DLL and the key request, with their byte limits |
| CaplRuns.SecurityStateAfter | vector/capl/flexdiag_core.can:182-255 | when timer and security state survive a frame or the watchdog |
| CaplRuns.OneTerminalIffNotLate | vector/capl/flexdiag_core.can:177-255 | after any legal run that has served a command, and for any further frame: no legal continuation ever publishes a second terminal for an id exactly when the timer is armed as the frame arrives; otherwise one of at most one step does |
| CaplRuns.LateFramePublishes | vector/capl/flexdiag_core.can:177-237 | the frame itself is published as a second terminal, or after one, exactly when the timer is disarmed and it is no seed that is turned into a key request |
| CaplRuns.FirstAnswerIffUnused | vector/capl/flexdiag_core.can:177-237 | before any served command, the frame itself is published after a terminal exactly when id 0 has one |
| CaplRuns.LateAnswerPublishesTwice | vector/capl/flexdiag_core.can:177-255 | a run in which a late frame is a second terminal |
| CaplRuns.LateSeedTimesOut | vector/capl/flexdiag_core.can:213-255 | a run in which a late seed arms the timer of an answered command, and the timeout is a second terminal |
| Refinement.CommandAgrees | bridge/flexdiag_bridge.py:295-391 | outside the three families double and node give the same lines and ECU, and the node is idle again |
| Refinement.LinesAgreeIffNotDiverging | bridge/flexdiag_bridge.py:295-391 | the lines agree exactly outside the three families |
| Refinement.FakeRefinesNode | vector/capl/flexdiag_core.can:68-255 | over whole histories of commands and injections, from any idle node and any ECU state: same lines, same final ECU |
| Refinement.OddLevelSettles | vector/capl/flexdiag_core.can:117-234 | seed, key function, key, OK through the node, for every odd level including FF |
| Refinement.Injected78Parts | vector/capl/flexdiag_core.can:192-201 | on an injected 78 the node publishes one event more than the double |
| Refinement.SuppressedParts | vector/capl/flexdiag_core.can:246-255 | on a suppressed TesterPresent the node publishes one event more |
| Refinement.LevelFFParts | vector/capl/flexdiag_core.can:215-233 | on SECURITY FF the node publishes one event more |
| Handshake.UntornHandshake | bridge/flexdiag_bridge.py:199-240 | in every interleaving of single reads and writes: commands are taken in order and read whole, answers are delivered whole and in order, none lost or repeated; the trigger is ahead by at most one and then a command is outstanding |
| Handshake.EveryRunKeepsInv | vector/capl/flexdiag_sysvar.can:20-83 | the phase invariant of bridge and node behind it |
| Handshake.PendingTearsAnEvent | vector/capl/flexdiag_core.can:196-236 | why 78 is excluded: for every non-TP command, core state, 78 frame and positive frame the core publishes next, those two publishes can be interleaved so that an event nobody published is delivered |
| Handshake.PendingDoublesTheAnswer | bridge/flexdiag_bridge.py:220-232 | and for every second frame the core publishes, negative ones included, so that the 78 is lost and the final answer delivered twice |
| Pipeline.ServedInStep | vector/capl/flexdiag_core.can:68-255 | a queue of routine commands through the node leaves it idle, with one terminal publish each and the mock's lines and ECU |
| Pipeline.EveryRunKeepsInv | bridge/flexdiag_bridge.py:199-240 | in every interleaving the core is exactly as far as the published answers say |
| Pipeline.VectorComAnswersLikeTheMock | bridge/flexdiag_bridge.py:175-240 | for any client lines and any interleaving of clients, bridge accesses, node accesses and core events, the events delivered are rendered as exactly the mock's lines for the first as many queued commands; at rest for all of them, with the mock's ECU state |
| PollLoop.VectorCom.PushCommand | bridge/flexdiag_bridge.py:207-218 | a command is written whole, only when none is outstanding |
| PollLoop.VectorCom.PollOnce | bridge/flexdiag_bridge.py:201-238 | one iteration: write, then pick up a change or time out |
| PollLoop.VectorCom.Loop | bridge/flexdiag_bridge.py:201-240 | the loop over any sequence of observations |
| PollLoop.Conservation | bridge/flexdiag_bridge.py:199-240 | bumps equal commands written in FIFO order, an event lies between any two bumps, and the events are the observed changes plus synthesized timeouts of written commands |
| PollLoop.Wait | bridge/flexdiag_bridge.py:220-238 | an outstanding command gets its event within what is left of its budget |
| PollLoop.OneCommandDrains | bridge/flexdiag_bridge.py:207-238 | from rest one command is written and answered within timeout/e + 2 iterations |
| PollLoop.DrainBound | bridge/flexdiag_bridge.py:201-240 | k queued commands are written in order, each followed by an event, within k * (timeout/e + 2) iterations |
| PollLoop.DrainFromAny | bridge/flexdiag_bridge.py:201-240 | with a command outstanding, within one such budget more |
| PollLoop.TimeoutIff | bridge/flexdiag_bridge.py:207-238 | in every run from rest an iteration makes up a timeout exactly when an earlier one wrote a command, no trigger change was seen since, and only now more than the timeout has passed; the event is that command's |
| PollLoop.NoEarlyTimeout | bridge/flexdiag_bridge.py:233-238 | within the timeout of the earliest send no timeout is made up |
| PollLoop.EventsAreAppended | bridge/flexdiag_bridge.py:222-238 | each iteration appends its one event, if it has one |
| Correlation.DiagService.IssueRequest | flutter_app/lib/services/diag_service.dart:134-137 | registers the next id as pending |
| Correlation.DiagService.SendReturned | flutter_app/lib/services/diag_service.dart:138-145 | the request starts waiting, or wakes up with what already completed it |
| Correlation.DiagService.SendThrew | flutter_app/lib/services/diag_service.dart:140-143 | the request fails and is no longer pending |
| Correlation.DiagService.TimeoutFired | flutter_app/lib/services/diag_service.dart:144-149 | the request times out and is no longer pending |
| Correlation.DiagService.LineReceived | flutter_app/lib/services/diag_service.dart:92-109 | a parsed line with a pending id completes exactly that request |
| Correlation.DiagService.FailAllPending | flutter_app/lib/services/diag_service.dart:121-128 | the loop errors exactly the open pending completers and empties the map |
| Correlation.DiagService.StreamDropped | flutter_app/lib/services/diag_service.dart:111-119 | an error or the end of the stream fails all pending requests |
| Correlation.DiagService.DisposeStart | flutter_app/lib/services/diag_service.dart:271-272 | no line is received any more; requests stay pending |
| Correlation.DiagService.DisposeResume | flutter_app/lib/services/diag_service.dart:274-275 | fails all pending requests |
| Correlation.IssuedIdsArePartitioned | flutter_app/lib/services/diag_service.dart:92-150 | in every interleaving the issued ids are the disjoint union of pending, answered, send-failed, timed-out and dropped |
| Correlation.CompletedByFirstLine | flutter_app/lib/services/diag_service.dart:92-150 | a request completes with a response exactly when the first event that ended it was a line with its id; errors exactly on a drop or disposal |
| Correlation.EndOfIsFirst | flutter_app/lib/services/diag_service.dart:92-150 | the recursive reading of "first ending event" is the first one in the trace |
| Correlation.OutcomeIsFinal | flutter_app/lib/services/diag_service.dart:134-150 | once resolved, a request never changes |
| Correlation.LineMattersIff | flutter_app/lib/services/diag_service.dart:92-109 | after any history a line changes the service exactly when it parses and carries a pending id, which 0 never is |
| Correlation.ListensUntilEnded | flutter_app/lib/services/diag_service.dart:88-119 | lines are received until the stream ends or dispose is called; an error alone does not stop it |
| Correlation.DropFailsThePending | flutter_app/lib/services/diag_service.dart:121-128 | a drop or disposal empties the map, failing exactly what was in it |
| ClientPath.ClientGetsItsAnswer | flutter_app/lib/services/diag_service.dart:134-150 | after any client history and for any ECU state and injections, a printed request is completed by the first line that comes back, with the response of the first event; no other request is touched |
| ClientPath.QuietEcuAnswersOnce | bridge/flexdiag_bridge.py:295-391 | with nothing injected that first event is the only one and is the request's own terminal answer |
| ClientPath.PendingComesFirstIff | flutter_app/lib/services/diag_service.dart:130-145 | for every sendable request and ECU state the first event is a response-pending exactly when one is injected, ahead of the answer or as its NRC, and the request is neither TP nor dropped |
| ClientPath.DropIsReported | bridge/flexdiag_bridge.py:333-339 | text to text: a dropped request of the Dart client is answered by one line, read back as ERR 504 ecu_timeout |
| ClientPath.TpIsReported | bridge/flexdiag_bridge.py:317-319 | text to text: TP START and STOP are answered by OK TP, which always fits, without the ECU |
| AppState.App.InstallConnection | flutter_app/lib/state/app_state.dart:235-246 | sets transport, service and drop subscription, nothing else |
| AppState.App.ConnectStart | flutter_app/lib/state/app_state.dart:205-207 | connect up to its await |
| AppState.App.ConnectResume | flutter_app/lib/state/app_state.dart:210-222 | connect after its await, success or failure |
| AppState.App.Disconnect | flutter_app/lib/state/app_state.dart:253-267 | resets every connection field |
| AppState.App.OnDrop | flutter_app/lib/state/app_state.dart:286-318 | ignores, fails, or starts a loop to the remembered peer |
| AppState.App.LoopWake | flutter_app/lib/state/app_state.dart:327-333 | the loop after its delay |
| AppState.App.LoopResume | flutter_app/lib/state/app_state.dart:336-375 | the loop after a connection attempt |
| AppState.ConnectedMeansUsable | flutter_app/lib/state/app_state.dart:205-376 | in every run status connected implies service, transport, host and port |
| AppState.NoStatusIsLeftBehind | flutter_app/lib/state/app_state.dart:205-376 | in every run `connecting` means a connect is in flight, `reconnecting` that a loop is suspended, the peer remembered and the lost connection gone |
| AppState.RefusedConnect | flutter_app/lib/state/app_state.dart:210-216 | a refused connect ends in error and leaves peer, connection and loops as they were |
| AppState.ConnectKeepsConnection | flutter_app/lib/state/app_state.dart:205-216 | a connect leaves an existing connection alone until it succeeds; refused, it changes the status only |
| AppState.AcceptedConnect | flutter_app/lib/state/app_state.dart:218-222 | a successful connect installs its transport and peer and does not end a reconnect under way |
| AppState.AttemptsAreBounded | flutter_app/lib/state/app_state.dart:323-359 | in every run a drop causes at most maxAttempts connection attempts |
| AppState.DisconnectIsFinalIffNoConnect | flutter_app/lib/state/app_state.dart:253-277 | after disconnect nothing is installed and the status stays, wherever loops are suspended, unless a connect is in flight; and then its success installs |
| AppState.SurvivesDisconnectIff | flutter_app/lib/state/app_state.dart:253-376 | once later connects are allowed, a task suspended before the disconnect can still install a transport exactly when it is a connect, a loop in its delay or a loop in its connection attempt |
| AppState.StaleLoopHijacks | flutter_app/lib/state/app_state.dart:327-357 | such a loop, in either place, installs a transport to the old peer after a connect to another one |
| AppState.DiscardedAttempt | flutter_app/lib/state/app_state.dart:347-375 | an attempt that succeeds after a disconnect installs nothing; its end clears the reconnect mark, whatever runs by then |
| AppState.TwoLoopsAtOnce | flutter_app/lib/state/app_state.dart:286-376 | a run from the start in which that lets a drop start a second reconnect loop beside the first |
| AppState.LoopIsReachable | flutter_app/lib/state/app_state.dart:205-327 | such loops occur: connect, then a drop |
| AppState.LoopOutcome | flutter_app/lib/state/app_state.dart:323-376 | a loop stops at its first success with a new connection to the same peer, or in error after the last attempt with the peer forgotten |
| AppState.DropEndsConnectedOrFailed | flutter_app/lib/state/app_state.dart:286-376 | without user calls a drop ends connected or in error, after exactly the attempts up to the first success |
| AppState.UnattendedRuns | flutter_app/lib/state/app_state.dart:286-376 | without user calls at most one loop is suspended, and `reconnecting` is shown exactly while it is |
| AppState.AttemptIsShown | flutter_app/lib/state/app_state.dart:313-371 | without user calls the number of the attempt is always shown right, and is 0 when none runs |
| Backoff.DelaysAreMonotone | terminal/repl.py:74-76 | delays never decrease, never exceed the cap, and stay at the cap once there |
| Backoff.DelaysDouble | terminal/repl.py:74-76 | delays start at the base and double until they reach the cap |
| Backoff.UncappedTotal | terminal/repl.py:179-180 | until then exactly base * (2^n - 1) is slept |
| Backoff.TotalIsGeometric | terminal/repl.py:179-180 | n delays together are at most base * (2^n - 1) |
| Backoff.TotalIsLinear | terminal/repl.py:179-180 | and at most n * cap |
| Backoff.Repl.TryReconnect | terminal/repl.py:158-206 | how the loop ends, what it installs, and exactly how long it has slept |
| Backoff.SleepIsBounded | terminal/repl.py:179-200 | however it ends, it slept at most min(base * (2^n - 1), n * cap) |

## Left out

- Extras of Python's `int()` and Dart's `int.tryParse`: underscores, `0x` prefixes, Unicode digits, and the interpreter's limit of 4300 digits, beyond which an id counts as unparsable. Numerals are ASCII digits with an optional sign, so on such tokens the two codecs may differ.
- `upper()` outside ASCII, and UTF-16 lengths: strings are sequences of characters, and a line's length counts characters.
- WebSocket, asyncio, COM and thread plumbing, `serve`, `BridgeServer`, `_connect`, `_ensure_measurement_running`: queues are sequences and clocks are integers.
- Several clients sharing one event queue.
- The 32-bit ranges of System Variables, `dword` ids and trigger counters: they are unbounded integers.
- The Vector diagnostic layer and the seed-key DLL: `diagIsNegativeResponse` is "first byte 7F", frames arrive when the run says so, and key generation may give any key or fail, differently every time (in `Refinement` and `Pipeline` it is the mock's own algorithm).
- `GetHexString`, logging, log capture, `notifyListeners`, `_readyInfo`, screens and argument parsing.
- Floating point: delays are exact reals and bridge clocks integers.
- Handshake.UntornHandshake: excludes response-pendings (`PendingTearsAnEvent` and `PendingDoublesTheAnswer` show what they break) and the bridge timeout, which `PollLoop` covers.
- Pipeline.VectorComAnswersLikeTheMock: for increasing ids, no response-pending injected, no suppressed TesterPresent and no level FF. The bridge timeout, as long as the node's own, does not fire, and an ECU answer on its way always comes before the node's watchdog: the order of the core's own events has no choice in it, only their interleaving with bridge and clients.
- CaplRuns.ArmedIffAwaiting: assumes that ECU frames arrive only while the timer is armed; `OneTerminalIffNotLate` says what other frames do.
- Refinement.FakeRefinesNode: requests and answer frames of at most 4095 bytes and, for SECURITY, seeds of 1 to 256, beyond which the node truncates.
- AppState: `disconnect` disposes the old service and transport after its awaits; that disposal is not modelled, and a drop may be reported by any transport at any time.
- The NRC name tables, `dtc.dart`, `seq.dart`, `reconnect_policy.dart`, the HELLO, PING and BYE encoders of Dart, `Repl.connectb`, `Repl.disconnect`, `Repl._read_loop` and the `.flex` runner.
