# Verification model of the Naviq MTS160 driver

The driver reads a magnetic guide sensor over CAN: a reader thread decodes
process data and publishes it, diagnostics report on it, and an SDO client
writes a handful of objects in the sensor. This project models that behaviour
in Dafny and proves what can be relied on, over all inputs and all runs.

* `SdoCodec`, `SdoServer`, `SdoProtocol` - expedited SDO frames (section 7.2.4.3
  of CiA 301), the object-dictionary server, and `_transact` as a protocol of
  client, reader thread, lossy and delaying FIFO channels, server and clock. A
  run is any sequence of steps; a step that is not enabled changes nothing.
* `SdoPolling` - the frames a run polls, and how the first deciding one ends a call.
* `SdoSoundness`, `SdoHazards`, `SdoErrors`, `SdoLeftovers`, `SdoPerObject` - what a
  call that returns proves about the server, exactly when it does not, exactly when
  errors belong to another call, and where these exceptions come from.
* `SdoAccounting`, `SdoWrites` - the counters, frames and time of a call, how often its
  write is executed, and what a read after a write yields.
* `SdoClient` - the client with its loops and fields; each call is shown to be a
  run of the protocol, so the results about runs are postconditions of calls.
* `BusOwnership`, `CanBus` - the bus connection: every interleaving of the threads
  at the granularity of `_bus_lock`, and the methods one at a time.
* `Decoder`, `DecodeLog`, `Pipeline`, `Driver`, `Diagnostics` - codecs, the
  offline decoder, the frame handlers tied to the history of frames they have
  seen, the writes the driver makes, and the periodic reports.
* `Candump` - the log printer and parser.
* `Bytes` - bytes, little-endian fields and result types.

`dafny verify dfyconfig.toml` checks the whole project.

Two findings differ from the documentation, and the model follows the code.
The client's documentation says that stale responses are discarded; matching is
on index and sub-index only, so a leftover reply for the same object is
accepted. `DownloadExact`, `UploadExact`, `DownloadMisansweredExact`,
`UploadMisansweredExact` and `AbortExact` say exactly when that can happen,
`TrustworthyPerObject` that it needs a timed-out attempt for that object, and the runs in
`SdoLeftovers` that it does happen then. The manual says that TPDO periods are
written once at startup; `OnBusState` writes them at every connect notification.

Assumptions. Times are integers. `queue.get` gives up no earlier than its
timeout, the clock advances at least one tick per polled frame, and only
finitely many frames arrive while the queue is drained. A `bus.send` that raises
has put nothing on the bus. Frames that reach the client's queue without coming
from the channel are malformed or for another object. `start` is called once.

## Model

| member | source | states |
|---|---|---|
| `SdoHazards.DownloadExact` | naviq_mts160/naviq_mts160/sdo.py:217-261 | a `download` that returns has had exactly its write executed by the server during the call, in every run, if and only if no acknowledge for the object and no other accepted write to it was left in flight when the call began (or no time is allowed at all) |
| `SdoHazards.UploadExact` | naviq_mts160/naviq_mts160/sdo.py:217-256 | an `upload` can return a value the server held at no moment of the call if and only if a response for the object that no longer tells the truth was left in flight when the call began, given a positive timeout |
| `SdoHazards.UploadMisansweredExact` | naviq_mts160/naviq_mts160/sdo.py:252-256 | `upload` can end in SdoProtocolError if and only if a write of the same object, or its acknowledge, was left in flight, given a positive timeout |
| `SdoErrors.DownloadMisansweredExact` | naviq_mts160/naviq_mts160/sdo.py:258-261 | `download` can end in SdoProtocolError if and only if an upload response for the object, or a read of it that the server will answer with a value (at once, or after an earlier write in flight), was left in flight, given a positive timeout |
| `SdoErrors.AbortExact` | naviq_mts160/naviq_mts160/sdo.py:244-246 | a call can raise an SdoAbort that the server never gave to its request if and only if such an abort for the object, or another request so refused, was left in flight, given a positive timeout |
| `SdoHazards.DownloadSound` | naviq_mts160/naviq_mts160/sdo.py:217-261 | the safety half for `download`: from a fooled run to the leftover that made it possible, whatever was lost, delayed, retried or received in between |
| `SdoHazards.UploadSound` | naviq_mts160/naviq_mts160/sdo.py:217-256 | the safety half for `upload` |
| `SdoHazards.UploadGrounded` | naviq_mts160/naviq_mts160/sdo.py:252-256 | with no outdated response in flight, the returned value was the server's at some step of the run |
| `SdoErrors.RunMute` | naviq_mts160/naviq_mts160/sdo.py:217-261 | what every step keeps while nothing in flight can tell the object's value: no upload response for it ever reaches the client |
| `SdoErrors.AbortSoundly` | naviq_mts160/naviq_mts160/sdo.py:244-246 | every abort of every run is either the server's answer to this call's request or a leftover |
| `SdoHazards.AnyReplyCanAnswer` | naviq_mts160/naviq_mts160/sdo.py:242-247 | matching is on index and sub-index only: any decisive reply already in flight can be the one that decides the call |
| `SdoHazards.AnyRequestCanAnswer` | naviq_mts160/naviq_mts160/sdo.py:242-247 | the same for the reply to any request already in flight |
| `SdoSoundness.ResponseOrigin` | naviq_mts160/naviq_mts160/sdo.py:206-247 | the response or abort that decides a call was in flight when the call began, or was produced during the call by serving a leftover request or the call's own; its write, if any, is in the server's log |
| `SdoSoundness.RunTraced` | naviq_mts160/naviq_mts160/sdo.py:206-247 | what every step of client, reader, channel and server keeps: every frame that could decide the call is accounted for once the first drain has emptied the queue |
| `SdoLeftovers.TrustworthyWithoutTimeouts` | naviq_mts160/naviq_mts160/sdo.py:217-261 | whole runs of any number of calls: as long as no attempt has timed out, the next download or upload that returns tells the truth, none raises SdoProtocolError, and an abort is the server's answer to that very call |
| `SdoPerObject.TrustworthyPerObject` | naviq_mts160/naviq_mts160/sdo.py:217-261 | the same object by object: as long as no attempt of a call for this object has timed out, its next call can be trusted, however many attempts for other objects did |
| `SdoPerObject.ClientCallsProper` | naviq_mts160/naviq_mts160/sdo.py:98-109 | every upload and download of the client is such a call |
| `SdoPerObject.RunTidyFor` | naviq_mts160/naviq_mts160/sdo.py:220-247 | what every step keeps until an attempt for the object times out: at most one request or frame about it that could decide its call, and none outside its calls |
| `SdoPerObject.TimesOutCounted` | naviq_mts160/naviq_mts160/sdo.py:225-232 | the steps so counted are those that raise the client's timeout counter |
| `SdoLeftovers.TidyWithoutTimeouts` | naviq_mts160/naviq_mts160/sdo.py:220-247 | what every step keeps until an attempt times out: at most one request or frame that could decide the call exists, and between calls nothing is in flight |
| `SdoLeftovers.TimeoutCanFool` | naviq_mts160/naviq_mts160/sdo.py:225-232 | one timed-out attempt is enough and no send need fail: a concrete run, given up on without retries and answered in time with retries, after which writing another value to the same object can return unexecuted |
| `SdoLeftovers.TimeoutsCanFoolUpload` | naviq_mts160/naviq_mts160/sdo.py:225-256 | two timed-out attempts (with retries, the next send failing after each) fool a read: a concrete run after which the next upload can return the value from before a write that was already executed |
| `SdoLeftovers.TimeoutCanMisanswerUpload` | naviq_mts160/naviq_mts160/sdo.py:225-256 | a run of one timed-out write after which reading the object can raise SdoProtocolError |
| `SdoLeftovers.TimeoutCanMisanswerDownload` | naviq_mts160/naviq_mts160/sdo.py:225-261 | a run of one timed-out read after which writing the object can raise SdoProtocolError |
| `SdoLeftovers.TimeoutCanAbort` | naviq_mts160/naviq_mts160/sdo.py:225-246 | a run of one timed-out read of a write-only object after which writing it can raise an abort it was never given |
| `SdoLeftovers.RetryRepeatsWrite` | naviq_mts160/naviq_mts160/sdo.py:220-232 | a concrete run in which one write, whose call returns, is executed twice: its retry is served after the first request's acknowledge has ended the call |
| `SdoAccounting.CountersBalance` | naviq_mts160/naviq_mts160/sdo.py:222-246 | over any run of any number of calls, transactions = timeouts + aborts + returned responses + failed sends, plus one while an attempt is open |
| `SdoAccounting.CallCounted` | naviq_mts160/naviq_mts160/sdo.py:222-246 | one call raises exactly the counter of its end |
| `SdoAccounting.CallOnSchedule` | naviq_mts160/naviq_mts160/sdo.py:217-249 | in every run of one call only its own request is sent, at most retries + 1 times; SdoTimeout comes only after retries + 1 attempts and retries + 1 full timeouts on the clock |
| `SdoAccounting.DeadlineBinds` | naviq_mts160/naviq_mts160/sdo.py:224-232 | once the deadline has passed, two more statements of the client end the attempt, however many frames keep arriving |
| `SdoWrites.WritesBounded` | naviq_mts160/naviq_mts160/sdo.py:220-224 | over any run of any calls, the server executes at most one write per request that was in flight and frame sent since, less those still in flight |
| `SdoWrites.DownloadExecutions` | naviq_mts160/naviq_mts160/sdo.py:217-261 | from empty channels, all a download makes the server execute is its own write: at most retries + 1 times, and at least once if it returns |
| `SdoWrites.ReadYourWrites` | naviq_mts160/naviq_mts160/sdo.py:252-261 | a download that returns, then any calls that do not write another value to the object, then an upload that returns, yields what was written, through any timeouts, losses and retries |
| `SdoWrites.TypedReadYourWrites` | naviq_mts160/naviq_mts160/sdo.py:264-282 | write_uN then read_uN over every such run gives the value mod 2^N |
| `SdoWrites.RunSettled` | naviq_mts160/naviq_mts160/sdo.py:217-261 | what every step keeps once the object holds the value: nothing in flight changes it or tells another |
| `SdoPolling.OutcomeDecided` | naviq_mts160/naviq_mts160/sdo.py:217-249 | in every run of a call, its outcome is what a pure function of the frames polled per attempt decides; a call that has not ended, or whose send failed, has polled no deciding frame |
| `SdoPolling.FirstFrameAnswers` | naviq_mts160/naviq_mts160/sdo.py:225-247 | at every point of every run, a call has been answered exactly if one of the frames polled so far parses and matches, and then by the first that does |
| `SdoPolling.AttemptsInOrder` | naviq_mts160/naviq_mts160/sdo.py:220-232 | the attempts poll one after the other: their lists, joined, are the frames polled in order |
| `SdoPolling.EachAttemptDrains` | naviq_mts160/naviq_mts160/sdo.py:210-223 | every attempt of every run sends only after it has found its queue empty |
| `SdoPolling.IrrelevantFramesNeverMatter` | naviq_mts160/naviq_mts160/sdo.py:237-243 | two runs of calls for the same object that poll the same parsing and matching frames end alike, whatever malformed and foreign frames each polls in between |
| `SdoClient.SdoClient.Transact` | naviq_mts160/naviq_mts160/sdo.py:217-249 | the nested loops are a run of the protocol, and the call ends as the frames that run polls, attempt by attempt, decide; `last_exc` is set and is the timeout when it is raised |
| `SdoClient.SdoClient.Await` | naviq_mts160/naviq_mts160/sdo.py:225-247 | the inner loop ends (the distance to the deadline shrinks with every turn) and its verdict is that of the first frame polled in its run that parses and matches |
| `SdoClient.SdoClient.Drain` | naviq_mts160/naviq_mts160/sdo.py:210-215 | ends with an empty queue, with arrivals interleaved |
| `SdoClient.SdoClient.Judge` | naviq_mts160/naviq_mts160/sdo.py:237-247 | malformed and foreign frames leave the attempt waiting, an abort raises its code, anything else is returned |
| `SdoClient.SdoClient.OnFrame` | naviq_mts160/naviq_mts160/sdo.py:206-208 | frames are queued on the identifier alone |
| `SdoClient.SdoClient.Download` | naviq_mts160/naviq_mts160/sdo.py:258-261 | it returns exactly if the first deciding frame its run polled is an acknowledge, and each error has its own end; unless a leftover was in flight, a return means its write is in the server's log, an abort is the server's answer to this request, and SdoProtocolError does not happen; the run ends where the client now is, with counters, frames and time as scheduled |
| `SdoClient.SdoClient.Upload` | naviq_mts160/naviq_mts160/sdo.py:252-256 | it returns d exactly if the first deciding frame its run polled is an upload response carrying d; d has 1..4 bytes and was the server's at a moment of this very run unless an outdated response was in flight; errors as for a download |
| `SdoClient.SdoClient.ReadU8` | naviq_mts160/naviq_mts160/sdo.py:264-265 | the first byte of what the upload returned, which always exists; errors are the upload's |
| `SdoClient.SdoClient.ReadU16` | naviq_mts160/naviq_mts160/sdo.py:267-269 | the first two bytes of what the upload returned, least significant first, a missing one counting as zero; errors are the upload's |
| `SdoClient.SdoClient.StartZero` | naviq_mts160/naviq_mts160/sdo.py:285-287 | a download of the single byte 1 to 0x2000:0, with all a download promises, and nothing else is sent |
| `SdoClient.SdoClient.SetTpdoPeriod` | naviq_mts160/naviq_mts160/sdo.py:289-295 | ValueError exactly outside TPDO 1..3 and 0..65535, with nothing sent; otherwise a download of the little-endian period to the event timer of that TPDO |
| `SdoClient.SdoClient.GetTpdoPeriod` | naviq_mts160/naviq_mts160/sdo.py:297-300 | ValueError exactly outside TPDO 1..3, with nothing sent; otherwise an upload of the event timer, read as 16 bits |
| `SdoClient.NewClient` | naviq_mts160/naviq_mts160/sdo.py:182-197 | a client exists exactly for node ids 1..127, with request identifier 0x600 plus the node id |
| `SdoPolling.IrrelevantFramesIgnored` | naviq_mts160/naviq_mts160/sdo.py:237-243 | taking a malformed or foreign frame out of any attempt's frames never changes the decision |
| `SdoPolling.FirstVerdictConcat` | naviq_mts160/naviq_mts160/sdo.py:225-247 | the earliest deciding frame of an attempt wins |
| `SdoPolling.DecideConcat` | naviq_mts160/naviq_mts160/sdo.py:220-232 | an attempt with no match passes the decision to the next one |
| `SdoProtocol.VerdictOfReplies` | naviq_mts160/naviq_mts160/sdo.py:237-247 | the server's acknowledge, response and abort each decide as they should for their own object and decide nothing for any other; a frame of the wrong length decides nothing |
| `SdoServer.ReplyMeaning` | naviq_mts160/test/test_sdo.py:94-123 | an acknowledge means exactly one write of the request's payload, an upload response carries the dictionary's value, an abort changes nothing |
| `SdoServer.ServeExactly` | naviq_mts160/test/test_sdo.py:94-123 | all the server does: which requests are refused with which code, what is stored and logged, what is answered, and when it cannot answer |
| `SdoServer.WriteThenRead` | naviq_mts160/test/test_sdo.py:99-117 | a value written to a stored, readable and writable object is what the next upload yields |
| `SdoServer.TypedWriteThenRead` | naviq_mts160/naviq_mts160/sdo.py:264-282 | write_uN then read_uN through the server gives the value mod 2^N |
| `SdoServer.ServeKeepsObjects` | naviq_mts160/test/test_sdo.py:99-117 | the set of objects and their access never change; the write log only grows |
| `SdoServer.FakeBus.Send` | naviq_mts160/test/test_sdo.py:94-123 | the simulator logs the frame, serves it as specified and delivers the reply; it raises exactly on a request it cannot parse or a stored value that fits no response, and is silent when told not to answer |
| `SdoCodec.ParseRequestInverts` | naviq_mts160/naviq_mts160/sdo.py:98-109 | `parse_request` undoes `build_download` (1..4 bytes, else ValueError) and `build_upload` for all 16-bit indexes and 8-bit sub-indexes |
| `SdoCodec.ParseResponseInverts` | naviq_mts160/naviq_mts160/sdo.py:112-126 | `parse_response` undoes the server's builders, for every 32-bit abort code |
| `SdoCodec.AbortParses` | naviq_mts160/naviq_mts160/sdo.py:112-113 | both parsers give an abort's object and code back |
| `SdoCodec.ParseResponseBytes` | naviq_mts160/naviq_mts160/sdo.py:151-171 | every 8-byte response by its bytes: what the first one makes of it, where index, sub-index, payload and code stand, and what is an error |
| `SdoCodec.ParseRequestBytes` | naviq_mts160/naviq_mts160/sdo.py:129-148 | the same for requests |
| `SdoCodec.OtherLengthsFail` | naviq_mts160/naviq_mts160/sdo.py:129-154 | frames of any other length are errors |
| `SdoCodec.BuiltBytes` | naviq_mts160/naviq_mts160/sdo.py:98-126 | the very bytes that go on the wire for reads, writes of 1..4 bytes and their replies |
| `SdoCodec.BuiltAbortBytes` | naviq_mts160/naviq_mts160/sdo.py:112-113 | and for aborts |
| `SdoCodec.ParsedResponseShape` | naviq_mts160/naviq_mts160/sdo.py:151-171 | whatever bytes arrive, a parsed upload response carries 1..4 bytes and a parsed object is in range |
| `SdoCodec.ParsedRequestShape` | naviq_mts160/naviq_mts160/sdo.py:129-148 | the same for requests |
| `SdoCodec.TypedValuesRoundTrip` | naviq_mts160/naviq_mts160/sdo.py:264-282 | packing and unpacking agree modulo the width, also when a shorter payload is read as a wider value |
| `BusOwnership.EveryBusInOnePlace` | naviq_mts160/naviq_mts160/canbus.py:224-252 | under every interleaving at lock granularity each opened bus is in exactly one place (an opener's local, `_bus`, one closer's local, or shut down once), and a bus about to be stored finds `_bus` empty |
| `BusOwnership.StepPlaced` | naviq_mts160/naviq_mts160/canbus.py:224-302 | what each step of any thread keeps of that |
| `BusOwnership.StepExclusive` | naviq_mts160/naviq_mts160/canbus.py:254-302 | what each step keeps: never two openers, never an opener while `_bus` is set, and nothing reopens after the reader has exited |
| `BusOwnership.NoDoubleShutdown` | naviq_mts160/naviq_mts160/canbus.py:242-249 | no bus object is shut down twice |
| `BusOwnership.FailedReceiveCloses` | naviq_mts160/naviq_mts160/canbus.py:296-302 | under every interleaving, once the reader is past the closing that follows a failed receive, the bus it received from is out of `_bus` for good, and shut down once no closer holds it |
| `BusOwnership.FailedSendCloses` | naviq_mts160/naviq_mts160/canbus.py:277-282 | the same for a failed send and its thread |
| `BusOwnership.OnlyFailuresClose` | naviq_mts160/naviq_mts160/canbus.py:242-302 | and nothing else closes a bus: it stays in `_bus` while no receive fails, no send fails and nobody calls `stop` |
| `BusOwnership.FailedReceiveRun` | naviq_mts160/naviq_mts160/canbus.py:285-302 | a concrete run: bus 0 is opened, its receive fails, and it ends shut down with the reader back at the top of its loop |
| `BusOwnership.FailedSendRun` | naviq_mts160/naviq_mts160/canbus.py:270-283 | the same with a failed send |
| `BusOwnership.FailedOpenRun` | naviq_mts160/naviq_mts160/canbus.py:290-294 | after a failed open the reader is back at the top of its loop |
| `BusOwnership.StopReleasesEverything` | naviq_mts160/naviq_mts160/canbus.py:242-302 | in every run in which no `join` gave up in the middle of `_open` (so also when `stop` found no thread to join), once the reader has exited and every `stop` and closing `send` has returned, every bus ever opened is shut down |
| `BusOwnership.LeakExact` | naviq_mts160/naviq_mts160/canbus.py:242-302 | right after `stop` has emptied `_bus`, some continuation leaves a bus open for good if and only if the reader was past its test of the stop flag with `_open` under way; otherwise none does, whatever any thread does |
| `BusOwnership.RunWinding` | naviq_mts160/naviq_mts160/canbus.py:254-302 | what every step of a stopping run keeps: somebody still waits for the reader, or no bus is on its way into `_bus` and `_bus` is empty or about to be emptied |
| `BusOwnership.EmptyForGood` | naviq_mts160/naviq_mts160/canbus.py:254-302 | from an emptied `_bus` with no `_open` under way, `_bus` stays empty through every continuation in which `start` does not intervene |
| `BusOwnership.ExitedForGood` | naviq_mts160/naviq_mts160/canbus.py:285-302 | after the reader's exit no thread opens a bus any more |
| `BusOwnership.ClearedReleasesEverything` | naviq_mts160/naviq_mts160/canbus.py:262-267 | a `stop` whose join saw the reader exited makes up for any earlier one: once it has emptied `_bus` and no closer is in progress, every bus ever opened is shut down |
| `BusOwnership.ClearedForGood` | naviq_mts160/naviq_mts160/canbus.py:262-267 | from then on no further bus is ever opened, whatever the threads do |
| `BusOwnership.TimedOutJoinLeaks` | naviq_mts160/naviq_mts160/canbus.py:264-267 | the case is reachable: a concrete run in which `join` gives up while the reader opens, `stop` returns, the reader exits and an open bus stays behind |
| `CanBus.CanBus.Open` | naviq_mts160/naviq_mts160/canbus.py:224-240 | connected and notified exactly when the open succeeds |
| `CanBus.CanBus.Close` | naviq_mts160/naviq_mts160/canbus.py:242-252 | disconnected and notified exactly when there was a bus |
| `CanBus.CanBus.Start` | naviq_mts160/naviq_mts160/canbus.py:254-260 | the result tells whether the bus is open |
| `CanBus.CanBus.Stop` | naviq_mts160/naviq_mts160/canbus.py:262-267 | the flag is set and the bus closed when it returns; disconnected is announced if there was a bus |
| `CanBus.CanBus.Send` | naviq_mts160/naviq_mts160/canbus.py:270-283 | frames go out unchanged with 11-bit identifiers; a failure closes the bus and is reported |
| `CanBus.CanBus.TakeTurn` | naviq_mts160/naviq_mts160/canbus.py:285-326 | one turn of the reader, none once the stop flag is seen: opening, reconnecting, and at most one message received |
| `CanBus.CanBus.Deliver` | naviq_mts160/naviq_mts160/canbus.py:321-326 | every registered listener is called once, in order; an exception is caught inside the loop and ends nothing |
| `CanBus.CanBus.Run` | naviq_mts160/naviq_mts160/canbus.py:254-326 | over any sequence of reader turns, sends and stops: the frames received while open and not stopping, the frames sent, and a notification exactly where the connection changes |
| `CanBus.CanBus.RemoveListener` | naviq_mts160/naviq_mts160/canbus.py:197-198 | removal is by identity: all registrations of that object and no other |
| `CanBus.TransitionsAlternate` | naviq_mts160/naviq_mts160/canbus.py:224-302 | over any sequence of opens, open failures, receive failures, send failures and stops, notifications strictly alternate, starting with connected, and the last one tells whether the bus is open |
| `CanBus.EventEffects` | naviq_mts160/naviq_mts160/canbus.py:262-326 | what each turn, send and stop does, in full: when the bus opens and closes, what is announced, what is sent and what is received |
| `CanBus.StoppedForGood` | naviq_mts160/naviq_mts160/canbus.py:262-267 | after `stop`, no later turn or call opens the bus, receives, sends or announces anything |
| `CanBus.CanBus.Sort` | naviq_mts160/naviq_mts160/canbus.py:303-320 | message conservation: each received message is an error or remote frame, a dropped echo, or a frame handed on |
| `CanBus.EveryFrameHeardOnce` | naviq_mts160/naviq_mts160/canbus.py:321-326 | a listener registered once hears every received frame exactly once and in order |
| `CanBus.HeardPerRegistration` | naviq_mts160/naviq_mts160/canbus.py:321-326 | a listener is called once per registration |
| `CanBus.CallsInOrder` | naviq_mts160/naviq_mts160/canbus.py:321-326 | one call for each registration, in the order of registration, with the frame |
| `Driver.WholeRunWriteSafety` | naviq_mts160/naviq_mts160/driver.py:165-174 | in every run in which only the driver's calls are made, every frame sent has id 0x600 + node and parses as a write of (0x2000:0, byte 1) or of a TPDO event timer with its configured period in 1..65535 |
| `Driver.Mts160Driver.OnFrame` | naviq_mts160/naviq_mts160/driver.py:187-232 | the frame joins the history unless the node is closing; published messages and statistics stay those of the history |
| `Driver.Mts160Driver.Dispatch` | naviq_mts160/naviq_mts160/driver.py:191-232 | exactly one counter goes up, and the outputs change as the decoded sample says |
| `Driver.Mts160Driver.HandleTrack` | naviq_mts160/naviq_mts160/driver.py:243-267 | one message with the inversions applied, and the interval window |
| `Driver.Mts160Driver.HandleMarkers` | naviq_mts160/naviq_mts160/driver.py:269-283 | lateral axis inverted, detected flags from the latest track |
| `Driver.Mts160Driver.HandleNavicode` | naviq_mts160/naviq_mts160/driver.py:285-295 | is_new against the previous counter |
| `Driver.Mts160Driver.HandleZero` | naviq_mts160/naviq_mts160/driver.py:298-307 | one call writing byte 1 to 0x2000:0, and ok exactly if it was answered with an acknowledge; unless a leftover was in flight the write was then executed; failures are counted |
| `Driver.Mts160Driver.ApplyTpdoPeriods` | naviq_mts160/naviq_mts160/driver.py:165-174 | three calls in a row, TPDO by TPDO, none for a period of 0, each failed exactly if it was not acknowledged; the frames sent fall into three consecutive shares of copies of the timer writes |
| `Driver.Mts160Driver.ApplyPeriod` | naviq_mts160/naviq_mts160/driver.py:170-174 | one call writing the TPDO's period, least significant byte first, to its event timer; its failure counted |
| `Driver.Mts160Driver.OnBusState` | naviq_mts160/naviq_mts160/driver.py:154-163 | every connect notification applies the periods again if any is configured; a disconnect, and the node's own shutdown, write nothing |
| `Driver.PublishedMeaning` | naviq_mts160/naviq_mts160/driver.py:187-295 | what a node has published and counted, read off its history: messages, frame conservation, window, latest heartbeat, is_new count, and `decode_log` on standard traffic |
| `Driver.DriverCallSafe` | naviq_mts160/naviq_mts160/sdo.py:285-295 | the request of every call the driver can make parses as an allowed write |
| `Diagnostics.Stats.RecordTrack` | naviq_mts160/naviq_mts160/driver.py:260-267 | the deque takes the difference to the previous TPDO1 and keeps the latest 2000 |
| `Pipeline.HandledIsOutputs` | naviq_mts160/naviq_mts160/driver.py:187-295 | handling frame by frame yields exactly the outputs defined on the decoded stream |
| `Pipeline.PublishedTracksAreDecodeLog` | naviq_mts160/test/fixture_utils.py:73-85 | for any standard 11-bit stream and fixed settings, the k-th published track tells of the k-th track of `decode_log`, and there are no others: positions negated exactly by one setting, angles by the other, tape detected and single track as defined, all else as it was |
| `Pipeline.PublishedMarkersAreDecodeLog` | naviq_mts160/naviq_mts160/driver.py:269-283 | likewise the k-th markers message: the marker's coordinates, the lateral axis negated by its setting, and the flags of the latest earlier track, false if there is none |
| `Pipeline.PublishedNavicodesAreDecodeLog` | naviq_mts160/naviq_mts160/driver.py:285-295 | likewise the k-th navicode message: code and counter, new exactly if the latest earlier navicode has another counter |
| `Pipeline.TracksTold` | naviq_mts160/naviq_mts160/driver.py:243-267 | for any settings, changing or not: the k-th track message tells of the k-th track received under the settings it met, and the k-th reception time is its own |
| `Pipeline.PositionsComplete` | naviq_mts160/test/fixture_utils.py:73-85 | no value of a class is passed over |
| `Pipeline.LastBeatMeaning` | naviq_mts160/naviq_mts160/driver.py:229-232 | the remembered heartbeat is the latest one's time and state |
| `Pipeline.SamplesAreDecodeLog` | naviq_mts160/test/fixture_utils.py:73-85 | the driver acts on exactly the samples of `decode_log`, in order |
| `Pipeline.LastTrackMeaning` | naviq_mts160/naviq_mts160/driver.py:269-277 | the remembered track is the one with no later track behind it, and none only if there was none |
| `Pipeline.NewMessagesAreChanges` | naviq_mts160/test/fixture_utils.py:113-120 | as many messages are marked new as the fixture loop counts changes, wraps at 255 and the first frame included |
| `Pipeline.FramesConserved` | naviq_mts160/naviq_mts160/driver.py:187-232 | the eight counters add up to the number of frames seen |
| `Pipeline.CountersAreOccurrences` | naviq_mts160/naviq_mts160/driver.py:187-232 | each counter is the number of frames of its class |
| `Pipeline.ClassifyMeaning` | naviq_mts160/naviq_mts160/driver.py:191-232 | which frames are of which class, by identifier and length alone: foreign, SDO reply, wrong length, unknown, the three TPDOs, heartbeat |
| `Pipeline.CountersMeaning` | naviq_mts160/naviq_mts160/driver.py:187-232 | so each counter is the number of frames seen with such an identifier and length |
| `Pipeline.SampleMeaning` | naviq_mts160/naviq_mts160/driver.py:204-232 | a frame becomes a sample exactly if it is process data or a heartbeat of the right length, and then carries what its bytes say |
| `Driver.StatsMeaning` | naviq_mts160/naviq_mts160/driver.py:187-232 | field by field, the statistics are these numbers, and the latest heartbeat's time and state |
| `Pipeline.WindowTelescopes` | naviq_mts160/naviq_mts160/driver.py:260-267 | the window holds the last min(2000, count - 1) intervals and sums to the time since its start |
| `Pipeline.WindowEntries` | naviq_mts160/naviq_mts160/driver.py:260-267 | entry by entry, the differences of consecutive reception times, oldest first |
| `Pipeline.WindowPush` | naviq_mts160/naviq_mts160/diagnostics.py:42-43 | pushing onto the bounded deque keeps the latest intervals of the whole stream |
| `Diagnostics.ReportsTelescope` | naviq_mts160/naviq_mts160/diagnostics.py:109-162 | over any schedule of frames and reports, the reported wrong-length figures and TPDO differences add up to the totals at the latest report |
| `Diagnostics.ReportedExact` | naviq_mts160/naviq_mts160/diagnostics.py:148-162 | a report covers the deliveries before it |
| `Diagnostics.HistoryConcat` | naviq_mts160/naviq_mts160/diagnostics.py:148-162 | and these are the deliveries among the events, in order |
| `Diagnostics.Mts160Diagnostics.Update` | naviq_mts160/naviq_mts160/diagnostics.py:109-162 | one report's figures are the changes since the previous report; the data is OK iff some TPDO1 is no older than the timeout |
| `Diagnostics.Mts160Diagnostics.DataTask` | naviq_mts160/naviq_mts160/diagnostics.py:109-129 | differences, elapsed time and level of the data report |
| `Diagnostics.Mts160Diagnostics.FrameErrorsTask` | naviq_mts160/naviq_mts160/diagnostics.py:148-162 | wrong-length frames since the previous report, a warning iff there are any |
| `Diagnostics.Mts160Diagnostics.HeartbeatTask` | naviq_mts160/naviq_mts160/diagnostics.py:85-107 | OK iff a fresh heartbeat says operational, an error iff the heartbeat is too old |
| `Diagnostics.FreshMeaning` | naviq_mts160/naviq_mts160/diagnostics.py:122-129 | with reception times in order, testing the last one is testing them all |
| `DecodeLog.NodeNonInterference` | naviq_mts160/naviq_mts160/decoder.py:193-218 | however the streams of any number of sensors are interleaved, decoding for one node equals decoding that node's own stream |
| `DecodeLog.StreamInOrder` | naviq_mts160/naviq_mts160/decoder.py:340-358 | a node's own stream is all its frames, in order |
| `DecodeLog.DecodeLog` | naviq_mts160/test/fixture_utils.py:73-85 | the loop computes the decoded sequence |
| `DecodeLog.DecodeInOrder` | naviq_mts160/test/fixture_utils.py:73-85 | the k-th sample is that of the k-th frame that yields one |
| `DecodeLog.SampleMeaning` | naviq_mts160/test/fixture_utils.py:73-85 | a frame yields a sample exactly if its identifier and length are those of process data or heartbeat, and the sample keeps its time and carries what its bytes say |
| `DecodeLog.CountChanges` | naviq_mts160/test/fixture_utils.py:113-120 | the loop computes the number of counter changes |
| `DecodeLog.ChangesCounted` | naviq_mts160/test/fixture_utils.py:113-120 | which is the number of positions that differ from the one before |
| `Decoder.IdSplitsUniquely` | naviq_mts160/naviq_mts160/decoder.py:193-200 | an 11-bit identifier splits into function code and node id in exactly one way |
| `Decoder.CobIdsDisjoint` | naviq_mts160/naviq_mts160/decoder.py:203-218 | no identifier belongs to two nodes, and a node's identifiers are recognised for that node only |
| `Decoder.CobIdsOf` | naviq_mts160/naviq_mts160/decoder.py:203-218 | the six identifiers of a node |
| `Decoder.Tpdo1DecodeAfterEncode` | naviq_mts160/naviq_mts160/decoder.py:240-297 | decoding after encoding gives every field back; encoding fails exactly on out-of-range fields |
| `Decoder.Tpdo1EncodeAfterDecode` | naviq_mts160/naviq_mts160/decoder.py:227-297 | encoding after decoding reproduces every 5-byte payload, all eight status bits included |
| `Decoder.Tpdo2RoundTrips` | naviq_mts160/naviq_mts160/decoder.py:300-307 | both directions for TPDO2, two's complement and little-endian |
| `Decoder.Tpdo3RoundTrips` | naviq_mts160/naviq_mts160/decoder.py:320-327 | both directions for TPDO3, fields masked |
| `Decoder.HeartbeatRoundTrips` | naviq_mts160/naviq_mts160/decoder.py:330-337 | both directions for the heartbeat |
| `Decoder.DecodeFrameMeaning` | naviq_mts160/naviq_mts160/decoder.py:227-358 | decoding by identifier, in full: which lengths fail, which frames say nothing, and which byte and bit each field of the others is |
| `Decoder.InversionsInvolutive` | naviq_mts160/naviq_mts160/decoder.py:372-393 | applying the inversions twice changes nothing; single_track and tape_detected survive |
| `Candump.ReadAfterWrite` | naviq_mts160/test/fixture_utils.py:25-44 | reading what was written gives the same frames in order, with any lines the reader skips in between |
| `Candump.ReadAmongOtherLines` | naviq_mts160/test/fixture_utils.py:25-44 | blank lines, comments (indented or not) and remote frames inserted anywhere change nothing |
| `Candump.CommentSkipped` | naviq_mts160/test/fixture_utils.py:29-31 | a line whose first character after white space is # is skipped |
| `Candump.BlankSkipped` | naviq_mts160/test/fixture_utils.py:29-31 | a line of white space is skipped |
| `Candump.ReadPrinted` | naviq_mts160/test/fixture_utils.py:41-44 | one printed line parses to its frame: time, identifier, payload |
| `Candump.PrintedText` | naviq_mts160/test/fixture_utils.py:41-44 | the printed line: seconds and six decimals in parentheses, interface, identifier # payload |
| `Candump.NoLeadingZero` | naviq_mts160/test/fixture_utils.py:41-44 | numbers are padded to their width and no further |
| `Candump.DigitsUpper` | naviq_mts160/test/fixture_utils.py:41-44 | in upper-case digits |
| `Candump.HexShape` | naviq_mts160/test/fixture_utils.py:41-44 | two upper-case digits for each byte, high half first |
| `Candump.FromHexMeaning` | naviq_mts160/test/fixture_utils.py:37 | an odd number of payload digits fails, an even number gives one byte for two digits |
| `Candump.StripExact` | naviq_mts160/test/fixture_utils.py:28-29 | white space around a line does not matter |
| `Candump.WhiteSpace` | naviq_mts160/test/fixture_utils.py:28-29 | white space is the ten ASCII characters that count as such |
| `Candump.CaseIgnored` | naviq_mts160/test/fixture_utils.py:15 | hex digits of either case have the same value |
| `Candump.LastLine` | naviq_mts160/test/fixture_utils.py:27 | the last line need not end with a line end |
| `Candump.RemoteFrameSkipped` | naviq_mts160/test/fixture_utils.py:32-36 | a remote-frame line is skipped |
| `Candump.ReadLoop` | naviq_mts160/test/fixture_utils.py:25-38 | the reader's loop computes the parsed frames, and fails exactly on an odd number of payload digits |

## Left out

- python-can, gs_usb and USB code: calls into `can.Bus`, `recv`, `send` and `shutdown` are choices of the environment that may fail.
- ROS plumbing, logging, parameters and message headers: publishing is appending to a sequence; receive-time stamps and `~/raw` are not carried.
- Floating point: times are integer ticks, marker coordinates stay in tenths of a millimetre; `encode_tpdo2_mm`, rates, means and the latency deque are not modelled.
- Text: abort-code descriptions, `last_error`, NMT state names and diagnostic messages.
- `line_follower.py`, `tools/dump_raw.py` and the tolerance rules of `evaluate_segment`: a clamp, formatting and test thresholds.
- Frames with an extended identifier equal to the SDO response identifier: `SdoClient` does not look at `is_extended`, so one that parses and matches would decide a call; the protocol's noise excludes it.
- `start` called twice, and a negative number of retries (the source's final assertion would fail).
- Driver.Mts160Driver.OnBusState: the helper thread that applies the periods, and its 50 ms pause; the writes are made before the handler returns.
- CanBus.CanBus.TakeTurn: the waits of `reconnect_delay_s` after a failed open or receive; turns come at any time.
- CanBus.CanBus.Open: nothing interleaves inside a method; `connected` is written outside `_bus_lock`, so under interleavings it need not agree with `_bus`, and only BusOwnership covers those.
- CanBus.CanBus.Stop: the join with the reader thread is in BusOwnership only.
- BusOwnership.TimedOutJoinLeaks: `join` is modelled as free to return at any time; its two-second limit is not.
- `SdoClient.close`: it passes a freshly made bound method, and `CanBus.RemoveListener` shows that such a removal leaves the registrations as they were.
- Candump: only ASCII digits and white space, and only '\n' line ends; a time is kept as its digits rather than as a float.
- Locks: one transaction at a time is the client's lock, and a handler's update of the statistics is one step.
