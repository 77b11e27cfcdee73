# Verified model of the JSON-RPC client, the config merge, the rotating log and the event reader

A Dafny model of four parts of the repository, with proofs of what each is for:

- **The JSON-RPC client** (`crates/mcp-jsonrpc/src/lib.rs`): the size-limited line reader, request ids and
  their number/string twins, the window of cancelled ids, the routing of responses, the life of a request from
  call to settlement while the connection may close, and the handling of incoming batches with the packed
  word that decides who writes the reply array.
- **The layered config merge** (`crates/config-kit/src/merge.rs`): the merge itself, the reported paths, their
  rendering, and the fold over layers.
- **The rotating log** (`crates/mcp-jsonrpc/src/stdout_log.rs`): cutting, rotating, numbering and pruning.
- **The server-sent-events reader** (`crates/http-kit/src/sse.rs`): two nested loops over a chunked source
  under two limits.

`dafny verify dfyconfig.toml` checks everything.

## How it is built

Code that loops over fields and buffers is written as classes and methods with loops
(`RotatingLog.LogState`, `SseReader.EventStream`, `LineReader.ReadLineLimitedInto`,
`CancelledIds.CancelledRequestIds`, `Responses.Router`, `BatchDispatch.Context`, `ConfigMerge.ChangeList` and
the merge methods). Each method is proved equal to a function on values, and the results are proved about
that function.

| file | part |
|---|---|
| `Basics`, `Sequences`, `Bytes`, `Utf8`, `ChunkReader`, `Json` | integers, sequences, byte lines, UTF-8, a source that hands out chunks, JSON values and places in them |
| `LineReader` | `read_line_limited_into`, the loop around it, and newline framing |
| `RequestIds`, `CancelledIds`, `Responses`, `ResponseReplies` | ids and twins, the window of cancelled ids, `handle_response`, what a response says |
| `RequestProtocol`, `RequestInvariant`, `RequestPromises`, `RequestWindow`, `RequestService` | requests, reader, guards and close as interleaved atomic steps; what each step keeps; what callers are promised; what the window of cancelled ids is in every run; that calls are let in and answered |
| `BatchDispatch`, `BatchMembers` | `handle_incoming_value` and its explicit stack; what each kind of member comes to |
| `BatchWriter`, `BatchInvariant` | the reply writer as interleaved atomic steps, and what each step keeps |
| `BatchPromises`, `BatchProgress` | what holds in every run of the writer; that its runs end and never get stuck |
| `BatchReplies`, `BatchRefusals` | what a batch comes to without an offender, and with one |
| `MergeSpec`, `JsonPointer`, `ConfigMerge` | merge and reports, path rendering, the in-place merge and the fold over layers |
| `Segments`, `RotatingLog` | the log as a value, and its writer |
| `SseSpec`, `SseLines`, `SseLimits`, `SseRoundTrip`, `SseReader` | the parse as a fold over lines, what lines and streams mean, limits, encoding, the reader |

`RequestProtocol` and `BatchWriter` describe concurrent code, so they are state machines: an action is one
atomic step of one process, a step that is not enabled changes nothing, and a run is any sequence of actions.
Every invariant is proved of every run. In `RequestProtocol` the steps of a call are the closed check, taking
an id, the insertion under the table's lock, the second closed check in `write_line`, the write, and the
reception; dropping the guard is two steps, because the table and the window have separate locks; closing is
the flag with its reason, the emptying of the table, and one send after another. In `BatchWriter` the steps
are the atomic operations on the word and on the flag of `flush_once`, the closed checks, the pushes under
the buffer's lock, the check before the write and the write. A respond call may be dropped wherever it waits;
a failed write or a lock that timed out closes the connection one step later; and the reader of a batch that
failed, for an offender or for its flush, closes the connection as the next thing it does.

## What the proofs found

- *An offender cuts off late answers.* After an offender the reader finishes the batch and then closes the
  connection. The replies are sure to be written exactly when no slot is pending at finish, there is something
  to write, and it fits (`BatchRefusals.SureIffNonePending`). With slots pending they race with the close. What
  is written by then stays, and an array that has not passed its closed check is never written; of one that has
  passed it, the next step of its own sender decides, because the close puts a sink in the transport's place and
  aborts background tasks (`BatchRefusals.CloseDecides`). So at the close the replies are sure exactly when they
  are already written (`BatchRefusals.SureIffWritten`). For a request followed by the number 42, whose handler has
  not answered when the reader closes, nothing is ever written, neither the reply nor the error for the number
  (`BatchRefusals.LateAnswersAreLost`).
- *A batch can close its own connection.* A notification that finds its queue full costs the connection, and the
  check between members then ends the handling without finishing the batch: nothing is ever written for it, not
  even the replies to requests that were answered (`BatchReplies.BatchCutShort`). A request followed by such a
  notification is enough (`BatchReplies.OverflowCutsShort`).
- *A batch stops at its first offender.* Section 6 of the JSON-RPC 2.0 Specification asks for a response for each
  request and an error object for each invalid member. The code looks at nothing after the first invalid member,
  and fails the whole message.
- *A stranded batch.* Without an offender, the reply array is not written when the respond call of the last
  pending slot is dropped while it waits for the buffer: the slot completes without a look at the word.
  `BatchPromises.WrittenUnlessStranded` shows that this is the only way for a connection that stays open to lose
  an array that fits and whose flush was carried through, and `BatchPromises.LastDroppedStrands` gives such a run.
- *Members of a batch are never expanded.* The stack holds only members that may not be expanded, and a value
  that may be is never an array, so the branches for arrays that may be expanded are unreachable
  (`BatchDispatch.Context.HandleIncomingValue`).
- *The merge is associative on exactly the triples that `MergeSpec.Unseparated` describes.* An object, then a
  non-object, then an object at one place is the pattern that breaks it (`MergeSpec.GroupingMatters`).
- *Unlike RFC 7396* (section 2), a null overwrites. *Unlike RFC 6901* (section 3), the root is written "/",
  which is also the pointer of the single empty key; `JsonPointer.RenderClash` shows that this is the only clash.
- *Unlike section 9.2.6 of the WHATWG HTML Standard*, the event reader emits an unfinished event at the end of
  input, does not take a lone CR for a line end, and does not skip a byte order mark. CRs at the end of a
  payload's lines are lost; `SseRoundTrip.RoundTrip` shows that no other payload is changed. What every stream comes to is
  `SseLines.StreamMeans`.
- *Newline framing* carries a message unchanged exactly when it holds no LF, does not end in CR and is within
  the limit (`LineReader.FramingRoundTrip`).
- *Twins.* A twin's twin is the id itself exactly for ids that can come off the wire: an `Unsigned` that fits in
  an `i64` has the same spelling as the `Integer` (`RequestIds.TwinIsInvolution`).

## Model

| member | source | states |
|---|---|---|
| `LineReader.LongPrefixIsTooLarge` | crates/mcp-jsonrpc/src/lib.rs:2510-2521 | Stopping early is right: bytes of a line beyond the limit and the delimiter slack mean that the whole line is too large, wherever the chunk ends |
| `LineReader.StripIs` | crates/mcp-jsonrpc/src/lib.rs:2530-2545 | A line loses its LF and one CR before that; without an LF it loses nothing |
| `LineReader.ReadLineLimitedInto` | crates/mcp-jsonrpc/src/lib.rs:2491-2546 | The outcome and the line depend on the stream alone, not on its chunks; a line is consumed with its LF; never more than the limit and 2 bytes are held |
| `LineReader.AcceptExact` | crates/mcp-jsonrpc/src/lib.rs:2491-2546 | The messages are the stripped lines up to the first whose stripped length is over the limit, and only such a line fails the reading |
| `LineReader.ReadAll` | crates/mcp-jsonrpc/src/lib.rs:2046-2109 | The loop ends, and handles what the stream's messages call for, whatever the chunks; whether the connection survives a message may depend on everything handled before it, and so on whatever happened meanwhile |
| `LineReader.ServeExact` | crates/mcp-jsonrpc/src/lib.rs:2046-2109 | The messages handled are those that are not blank, in order, up to the first that the connection does not survive, after those before it; without one, the end of input or a line that is too long ends the session |
| `LineReader.BlankIff` | crates/mcp-jsonrpc/src/lib.rs:2548-2552 | The lines that are skipped are those of nothing but space, tab, LF, form feed and CR |
| `LineReader.VisibleIsKept` | crates/mcp-jsonrpc/src/lib.rs:2051-2053 | A message with any byte above the space in it is not skipped |
| `LineReader.FramingRoundTrip` | crates/mcp-jsonrpc/src/lib.rs:753-757 | Messages framed by an LF each are read back exactly when each holds no LF, does not end in CR and is within the limit |
| `RequestIds.WireIds` | crates/mcp-jsonrpc/src/lib.rs:2691-2700 | What is parsed is a string, an i64, or a u64 beyond every i64 |
| `RequestIds.IdIsWritten` | crates/mcp-jsonrpc/src/lib.rs:2691-2700 | A JSON value is read as an id exactly when it is what that id is written as: a string for a string, a number for a number in the range of i64 and u64, and nothing else |
| `RequestIds.NumericIdParses` | crates/mcp-jsonrpc/src/lib.rs:2622-2632 | The decimal spelling of every number that can be an id parses to that id |
| `RequestIds.TwinIsOtherSpelling` | crates/mcp-jsonrpc/src/lib.rs:2614-2632 | A number and its decimal spelling are twins of each other, and no other string has a twin |
| `RequestIds.TwinIsInvolution` | crates/mcp-jsonrpc/src/lib.rs:2614-2632 | The twin of the twin is the id exactly for ids off the wire; a twin is such an id, and another one |
| `CancelledIds.CancelledRequestIds.RememberCancelledRequestId` | crates/mcp-jsonrpc/src/lib.rs:2593-2607 | The eviction loop and the stamp bring the window to the remembered state |
| `CancelledIds.CancelledRequestIds.TakeCancelledRequestId` | crates/mcp-jsonrpc/src/lib.rs:2609-2612 | Forgets the id, and says whether it was wanted |
| `CancelledIds.CancelledRequestIds.TakeCancelledRequestIdTypeMismatch` | crates/mcp-jsonrpc/src/lib.rs:2634-2644 | Forgets the twin, if there is one, and says whether it was wanted |
| `CancelledIds.EvictRight` | crates/mcp-jsonrpc/src/lib.rs:2595-2602 | Making room drops the oldest entry of a full window and forgets exactly the id whose newest remember that entry is |
| `CancelledIds.StampsAreDistinct` | crates/mcp-jsonrpc/src/lib.rs:2603-2606 | In every window that a history leads to, different entries have different stamps, although the stamps wrap |
| `CancelledIds.WindowIsExact` | crates/mcp-jsonrpc/src/lib.rs:2593-2612 | After any history an id is in the window exactly when one of the last 1024 remembers was for it with no take since, however often the u64 stamp wrapped; the order never holds more than 1024 entries |
| `Responses.Router.TakePendingTypeMismatchSender` | crates/mcp-jsonrpc/src/lib.rs:2646-2654 | Takes the twin's entry out of the table and leaves all others |
| `Responses.Router.HandleResponse` | crates/mcp-jsonrpc/src/lib.rs:2702-2797 | Verdict, table, window and sends are those of the routing function, malformed responses included |
| `ResponseReplies.ResultArrives` | crates/mcp-jsonrpc/src/lib.rs:2784-2787 | Whatever a result is, null included, a success response with the id of a pending request settles that request with just that result |
| `ResponseReplies.ErrorArrives` | crates/mcp-jsonrpc/src/lib.rs:2757-2782 | An error response settles it with the code, the message, and the data if there is any, for every i64 code |
| `ResponseReplies.SettledExactly` | crates/mcp-jsonrpc/src/lib.rs:2748-2796 | A request is settled with a result only if the version is 2.0, the result is there and no error is; with an error only if that is an object with an integer code and a string message and no result is there; with each flaw exactly in the cases that are left to it |
| `ResponseReplies.RoutedByItsId` | crates/mcp-jsonrpc/src/lib.rs:2707-2726 | A message is routed under the id that it bears; one that is no object, has no id, or has one that is neither a string nor an integer in range is turned away as such, without effect |
| `Responses.RoutingIsPrecise` | crates/mcp-jsonrpc/src/lib.rs:2727-2747 | A response settles at most one request: its own with what it says, or the twin's with a mismatch error, and that only when neither spelling was otherwise pending or cancelled |
| `Responses.LateReplyIsSwallowed` | crates/mcp-jsonrpc/src/lib.rs:2731-2736 | A late reply to a cancelled id, in either spelling, settles nothing and uses up one remembered id |
| `RequestInvariant.RecheckMay` | crates/mcp-jsonrpc/src/lib.rs:1452-1453 | The second closed check lets a call go on only if its entry is not yet in the hands of a close, and otherwise sends it off to take its own entry out |
| `RequestInvariant.InsertKeeps` | crates/mcp-jsonrpc/src/lib.rs:1316-1328 | Inserting under a fresh id, or refusing at the limit, keeps every invariant |
| `RequestService.InsertedIff` | crates/mcp-jsonrpc/src/lib.rs:1316-1328 | A call is refused exactly when as many are pending as may be, and nothing else changes then; otherwise the table gets exactly one more entry, its own under its id |
| `RequestService.OpenLetsGoOn` | crates/mcp-jsonrpc/src/lib.rs:1312-1312 | Both closed checks let a call go on exactly while the client is open |
| `RequestService.CallIsServed` | crates/mcp-jsonrpc/src/lib.rs:1303-1393 | From every state that keeps the invariant, with the client open: a call that takes its steps, finds an id and room, and whose id one response bears, returns with just that reply, whatever other calls do in between |
| `RequestService.NewCallIsServed` | crates/mcp-jsonrpc/src/lib.rs:1303-1393 | A new call on an open client with room, an id left and an idle reader is served when it and the response to it are left to themselves |
| `RequestService.DroppedCallEnds` | crates/mcp-jsonrpc/src/lib.rs:1906-1916 | From the moment its entry is in the table until it returns a call can be dropped; then its entry is taken out and its id remembered |
| `RequestService.FailedCallEnds` | crates/mcp-jsonrpc/src/lib.rs:1374-1378 | A call whose write failed, or that found the client closed, takes its entry out and is not remembered |
| `RequestInvariant.RememberKeeps` | crates/mcp-jsonrpc/src/lib.rs:1906-1916 | A dropped guard ends with no entry in the table, the call over, and its id remembered as cancelled; every invariant is kept |
| `RequestInvariant.DrainSenders` | crates/mcp-jsonrpc/src/lib.rs:2656-2665 | Emptying the table hands every sender in it to the close, and loses none |
| `RequestInvariant.RunKeeps` | crates/mcp-jsonrpc/src/lib.rs:1303-1393 | Every run keeps the invariant: fresh ids, a bounded table keyed by the ids of calls in progress, each sender in one place, each reply accounted for |
| `RequestPromises.NoStrandedWaiter` | crates/mcp-jsonrpc/src/lib.rs:1147-1166 | Once a close has emptied the table and sent what it took, every call past the second check that still waits has its result, or the reader is about to deliver it |
| `RequestPromises.DrainOnlyShrinks` | crates/mcp-jsonrpc/src/lib.rs:2656-2665 | Whatever anyone does, the senders that a close has still to send on only become fewer |
| `RequestPromises.EveryWaiterIsServed` | crates/mcp-jsonrpc/src/lib.rs:1147-1166 | From every closed state of every run, the reader and the close finish within one step a sender and six more, and then every call that waits has its result |
| `RequestPromises.NoLostSender` | crates/mcp-jsonrpc/src/lib.rs:1383-1392 | In no state of any run does a call that counts on a result find its sender gone without one |
| `RequestPromises.SettledOnceAndBounded` | crates/mcp-jsonrpc/src/lib.rs:1316-1328 | No channel is sent on twice and the table never outgrows its limit |
| `RequestPromises.RepliesAreOwn` | crates/mcp-jsonrpc/src/lib.rs:2702-2797 | What a call gets came in a response with its id, or is a mismatch error caused by its twin, or carries the reason of the close |
| `RequestPromises.NoLeakedEntry` | crates/mcp-jsonrpc/src/lib.rs:1884-1916 | When all calls have returned, the table is empty |
| `RequestPromises.FirstReasonStays` | crates/mcp-jsonrpc/src/lib.rs:1147-1166 | The first close reason stays, whatever steps follow |
| `RequestPromises.FirstReasonIsKept` | crates/mcp-jsonrpc/src/lib.rs:1147-1166 | The reason of the first close of a run is the reason in every continuation |
| `RequestPromises.CloseTellsReason` | crates/mcp-jsonrpc/src/lib.rs:2656-2665 | A call whose sender the close has is told that reason |
| `RequestWindow.WindowIsReplay` | crates/mcp-jsonrpc/src/lib.rs:2593-2644 | In every run of the request protocol the window is what the remembers of dropped calls and the takes of unmatched responses make of it, in their order |
| `RequestWindow.SwallowedIff` | crates/mcp-jsonrpc/src/lib.rs:2731-2733 | In every run, a response that finds no call waiting is swallowed exactly when one of the last 1024 dropped calls had its id and no response has taken that since |
| `RequestWindow.TwinSwallowedIff` | crates/mcp-jsonrpc/src/lib.rs:2734-2736 | Failing that, it is swallowed exactly when this is so of its twin |
| `RequestPromises.ReaderIsRouting` | crates/mcp-jsonrpc/src/lib.rs:2727-2747 | The reader's separate locked steps, left to themselves, do exactly what routing says |
| `BatchDispatch.DispatchOrders` | crates/mcp-jsonrpc/src/lib.rs:2359-2391 | A request is owed exactly one reply, and takes up one slot, whether it is queued, finds the queue full or finds it closed |
| `BatchDispatch.NotifyOrders` | crates/mcp-jsonrpc/src/lib.rs:2394-2413 | A notification is owed nothing, even when it costs the connection |
| `BatchDispatch.Context.HandleCall` | crates/mcp-jsonrpc/src/lib.rs:2320-2429 | The checks of method, version and id in the order of the code, with the id each error is answered under |
| `BatchDispatch.Context.HandleIncomingItem` | crates/mcp-jsonrpc/src/lib.rs:2278-2449 | One member does what its classification says; only an array that may be expanded touches the stack |
| `BatchDispatch.Context.HandleIncomingValue` | crates/mcp-jsonrpc/src/lib.rs:2192-2253 | The explicit stack visits the members in order until the first offender or until the connection is found closed, by this batch or by anyone else, and no array among them is ever expanded |
| `BatchDispatch.WalkOrdersDue` | crates/mcp-jsonrpc/src/lib.rs:2221-2246 | A walk to the end reserves one slot for each request before the first offender and says the offender's answer, nothing else, and fails exactly when there is an offender, for the first one's offence; a walk cut short by a close has done a part of that and leaves the connection closed; what others do to the queues makes no difference |
| `BatchMembers.GivenExactly` | crates/mcp-jsonrpc/src/lib.rs:2320-2429 | A member is given to the request handler with an id, a method and parameters exactly when it is an object with version 2.0 and just those, its id a string or an integer in range, and there is room; to the notification handler likewise without an id; and left to handle_response exactly when it has such an id and no method |
| `BatchMembers.TurnedAwayExactly` | crates/mcp-jsonrpc/src/lib.rs:2278-2449 | A request is refused under its id exactly for want of room (-32000) or of a handler (-32601); a notification costs the connection exactly for want of either; an error reply is sent exactly for a member that is none of the three, for its reason and under the id due to it |
| `BatchMembers.RequestIsHandled` | crates/mcp-jsonrpc/src/lib.rs:2347-2391 | The whole state after a request: one place less in the queue, or a refusal, and nothing else |
| `BatchMembers.NotificationIsHandled` | crates/mcp-jsonrpc/src/lib.rs:2394-2413 | The whole state after a notification: one place less in the queue, or the connection closed |
| `BatchMembers.OffenderIsHandled` | crates/mcp-jsonrpc/src/lib.rs:2320-2449 | The whole state after an offender: one error reply under its own id if that is a string or a number and not what is wrong, under null if it is neither or the member is no object, and none at all if there is no id or no method |
| `BatchMembers.AloneLikeAMember` | crates/mcp-jsonrpc/src/lib.rs:2247-2250 | A message that is no array is handled as a member of a batch is |
| `BatchMembers.ArrayIsItsMembers` | crates/mcp-jsonrpc/src/lib.rs:2210-2220 | An array stands for its members in order, and an empty one is answered under null and fails |
| `BatchMembers.MembersInTurn` | crates/mcp-jsonrpc/src/lib.rs:2221-2242 | The rest of a batch is handled from where its first member left it, unless that was an offender or the connection is found closed |
| `BatchMembers.OthersAreSeen` | crates/mcp-jsonrpc/src/lib.rs:2239-2241 | A close by anyone while a member was handled ends the batch at the check after it |
| `BatchMembers.BatchIsQueued` | crates/mcp-jsonrpc/src/lib.rs:2221-2242 | A batch of encoded requests that there is room for reaches the handler whole, in order and unchanged |
| `BatchMembers.OwedByShape` | crates/mcp-jsonrpc/src/lib.rs:2221-2242 | By the look of the members alone: which come before the first offender, and what that is answered under |
| `BatchMembers.RequestsByShape` | crates/mcp-jsonrpc/src/lib.rs:2221-2242 | By the look of the members alone: which are requests, and under which ids |
| `BatchReplies.DueByKind` | crates/mcp-jsonrpc/src/lib.rs:2221-2246 | The slots are those of the requests before the first offender, in order, and the one possible answer is the offender's |
| `BatchInvariant.LastOneExact` | crates/mcp-jsonrpc/src/lib.rs:857-866 | The test on the previous word holds exactly when one slot is pending and the batch is finished |
| `BatchInvariant.FinishCounts` | crates/mcp-jsonrpc/src/lib.rs:915-924 | finish finds the count at zero exactly when every slot is complete, no step has crossed before it, and the counts stay right |
| `BatchInvariant.CompletionCounts` | crates/mcp-jsonrpc/src/lib.rs:847-849 | A completion lowers the count by one and never touches the finished bit; it is the crossing exactly when its slot was the last of a finished batch |
| `BatchInvariant.CompletionFlushes` | crates/mcp-jsonrpc/src/lib.rs:857-866 | Only the process that looked at the word of the last completion begins to flush; any other completion leaves the buffer untouched |
| `BatchInvariant.GoOnFlushes` | crates/mcp-jsonrpc/src/lib.rs:926-942 | From phase to phase of a flush, everything that was pushed stays in one place, and nobody else flushes |
| `BatchInvariant.LeaveFlushes` | crates/mcp-jsonrpc/src/lib.rs:926-942 | A flush ends with everything written, or with nothing written and a reason: nothing to write, a close, an array that is too large, or a call given up |
| `BatchWriter.TooLongIff` | crates/mcp-jsonrpc/src/lib.rs:759-774 | An array is too long exactly when its members, a comma between neighbours, two brackets and the LF are more than a message may have |
| `BatchWriter.LineGrows` | crates/mcp-jsonrpc/src/lib.rs:753-757 | The array on the wire is its members in order between brackets, with commas, and an LF |
| `BatchInvariant.RunKeeps` | crates/mcp-jsonrpc/src/lib.rs:827-971 | Every run keeps the invariant: word, slots, entries, the one flusher and what was written agree |
| `BatchPromises.WordIsExact` | crates/mcp-jsonrpc/src/lib.rs:842-849 | In every run the word is the number of incomplete slots and the finished bit, so that no decrement borrows from the bit; no slot completes twice |
| `BatchPromises.OneCrossingOneArray` | crates/mcp-jsonrpc/src/lib.rs:915-942 | Exactly one step crosses to finished with nothing pending; at most one array is written, and it holds everything that was pushed |
| `BatchPromises.UnseenExact` | crates/mcp-jsonrpc/src/lib.rs:965-971 | While the connection is open, and no process is about to close it for a timeout, the crossing goes unseen exactly when a respond call was dropped as the last |
| `BatchPromises.WrittenUnlessStranded` | crates/mcp-jsonrpc/src/lib.rs:827-971 | With the connection open at rest, no flush given up and an array that fits, the replies are written exactly when there are none or no respond call was dropped as the last |
| `BatchPromises.LastDroppedStrands` | crates/mcp-jsonrpc/src/lib.rs:965-971 | For every reply and every limit it fits: two requests, the first answered, the respond call of the second dropped as it waits; the reply is never written though the connection is open |
| `BatchPromises.NeverWrittenAfterClose` | crates/mcp-jsonrpc/src/lib.rs:1452-1453 | An array whose flush has not passed its closed check when the connection closes is never written, whatever anyone does |
| `BatchPromises.NothingPushedAfterClose` | crates/mcp-jsonrpc/src/lib.rs:851-866 | After a close nothing more is pushed than what had passed its closed check by then |
| `BatchPromises.TimeOutEnds` | crates/mcp-jsonrpc/src/lib.rs:874-882 | A respond call that does not get the buffer in time completes its slot, pushes nothing and closes the connection |
| `BatchPromises.FailedWriteEnds` | crates/mcp-jsonrpc/src/lib.rs:1453-1475 | A write that fails closes the connection |
| `BatchPromises.WrittenStays` | crates/mcp-jsonrpc/src/lib.rs:926-942 | Once an array is written, no continuation takes it back or writes another |
| `BatchPromises.CutShortWritesNothing` | crates/mcp-jsonrpc/src/lib.rs:2239-2241 | A batch whose reader finds the connection closed between members is never finished, and nothing is written for it in any run |
| `BatchProgress.RunsAreShort` | crates/mcp-jsonrpc/src/lib.rs:827-971 | No run of reader and responders goes on for ever: each step leaves less to do, ten steps an order and eight more at most |
| `BatchProgress.NeverStuck` | crates/mcp-jsonrpc/src/lib.rs:827-971 | Until reader and responders are done some process can go on without anyone giving up or closing |
| `BatchProgress.RestIsReached` | crates/mcp-jsonrpc/src/lib.rs:827-971 | From every state of a batch that will be finished and whose reader was not stopped, reader and responders can come to rest that way |
| `BatchReplies.TextsWereClaimed` | crates/mcp-jsonrpc/src/lib.rs:1026-1039 | The text of a slot is that of an accepted respond call for it |
| `BatchReplies.AcceptedOnce` | crates/mcp-jsonrpc/src/lib.rs:1026-1039 | No two respond calls are ever accepted for one slot, so the text is that of the only one |
| `BatchReplies.BatchAnswered` | crates/mcp-jsonrpc/src/lib.rs:2221-2246 | From members to wire, from every state of the queues and over every interleaving: when the members are handled to the end without an offender, and no close from outside, dropped call or failed write comes after, the reply is one array with exactly one entry for each request, with the text its accepted respond call gave; nothing is written when there is no request or the array is over the message limit, and only the latter can close the connection |
| `BatchReplies.BatchCutShort` | crates/mcp-jsonrpc/src/lib.rs:2239-2241 | When the connection is found closed between members, through the batch itself or through anyone else, nothing is ever written for the batch, whatever was answered |
| `BatchReplies.OverflowCutsShort` | crates/mcp-jsonrpc/src/lib.rs:2394-2413 | A request and a notification that finds its queue full are such a batch |
| `BatchRefusals.CloseDecides` | crates/mcp-jsonrpc/src/lib.rs:2079-2092 | After the close that follows a failed batch, in every continuation: what was written stays; an array that has not passed its closed check is never written; one that has, and is not written yet, is written exactly when the next step of its own sender is a write that succeeds; there is no fourth case |
| `BatchRefusals.SureIffWritten` | crates/mcp-jsonrpc/src/lib.rs:1168-1174 | At that close the replies are written in every continuation that comes to rest exactly when they are written already: until then the sink that the close puts in place can take them |
| `BatchRefusals.SureIffNonePending` | crates/mcp-jsonrpc/src/lib.rs:2234-2237 | With an offender, the replies are written in every smooth run exactly when no slot is pending at finish, something was pushed, and it fits |
| `BatchRefusals.RefusedAfterAnswers` | crates/mcp-jsonrpc/src/lib.rs:2234-2237 | If no slot is pending at finish, an array with one entry for each request before the offender and the offender's answer is written if it fits, and then the connection is closed |
| `BatchRefusals.LateAnswersAreLost` | crates/mcp-jsonrpc/src/lib.rs:2234-2237 | For a request and then the number 42, both of them looked at and the request not answered by the time the reader closes, nothing is written in any continuation, whatever the request, the limit and the texts |
| `BatchRefusals.LateAnswerIsTurnedAway` | crates/mcp-jsonrpc/src/lib.rs:857-859 | The late respond call then runs to completion and its reply is dropped at the closed check |
| `MergeSpec.ReportedTakesOverlay` | crates/config-kit/src/merge.rs:133-137 | At a reported place the merge has what the overlay has |
| `MergeSpec.ReportsArePrefixFree` | crates/config-kit/src/merge.rs:128-158 | No reported place lies inside another |
| `MergeSpec.UnreportedUnchanged` | crates/config-kit/src/merge.rs:128-158 | A place that is neither inside nor around a reported one keeps what the base had |
| `MergeSpec.SomethingReported` | crates/config-kit/src/merge.rs:128-158 | Something is reported exactly when the merge differs from the base |
| `MergeSpec.ReportIsExactPatch` | crates/config-kit/src/merge.rs:128-158 | Setting the reported places of the base, in any order, to what the merge has there rebuilds the merge |
| `MergeSpec.SecondOverlayChangesNothing` | crates/config-kit/src/merge.rs:128-158 | Overlaying the same value again changes nothing and reports nothing |
| `MergeSpec.SubsumedIff` | crates/config-kit/src/merge.rs:128-158 | Merging c over a gives c exactly when every object of a meets an object of c that has all its keys, or something else |
| `MergeSpec.AssociativeIff` | crates/config-kit/src/merge.rs:128-158 | Grouping does not matter on exactly the triples without the separating pattern |
| `MergeSpec.AssociativeWithoutPattern` | crates/config-kit/src/merge.rs:128-158 | When no place has an object, a non-object and an object in the three layers, grouping does not matter |
| `MergeSpec.GroupingMatters` | crates/config-kit/src/merge.rs:133-137 | An object, a null and an object on which grouping matters |
| `MergeSpec.Provenance` | crates/config-kit/src/merge.rs:94-111 | Every leaf of the final value is the own value of the last layer whose step reports a place covering it, and there is such a layer unless the whole value is the empty object |
| `JsonPointer.EscapeUndone` | crates/config-kit/src/merge.rs:160-161 | Undoing ~1 and then ~0 undoes the escaping of any key |
| `JsonPointer.PointerIsJoin` | crates/config-kit/src/merge.rs:160-167 | Pushing keys one by one gives the escaped keys joined by slashes |
| `JsonPointer.RenderDecodes` | crates/config-kit/src/merge.rs:160-175 | Splitting a report at slashes and undoing the escapes recovers the keys of every place but the root |
| `JsonPointer.RenderClash` | crates/config-kit/src/merge.rs:169-175 | Two places share a report only when they are the root and the single empty key |
| `ConfigMerge.MergeValue` | crates/config-kit/src/merge.rs:128-140 | Computes the merge, and pushes each reported place once, rendered under the given path |
| `ConfigMerge.MergeObject` | crates/config-kit/src/merge.rs:142-158 | The loop over the overlay's entries, in whatever order, merges the objects and pushes each reported place once |
| `ConfigMerge.ReportIsUnique` | crates/config-kit/src/merge.rs:124-125 | The sorted report does not depend on the order in which keys were visited |
| `ConfigMerge.LessIff` | crates/config-kit/src/merge.rs:124-124 | The order of the report is that of a dictionary |
| `ConfigMerge.MergeConfigValuesInPlace` | crates/config-kit/src/merge.rs:121-126 | The result is the merge; the list is sorted, without duplicates, and names exactly the reported places |
| `ConfigMerge.MergeConfigLayers` | crates/config-kit/src/merge.rs:94-111 | The result is the left fold from the empty object, with one step a layer, in order, that reports what the layer changed |
| `RotatingLog.NextRotatingLogPart` | crates/mcp-jsonrpc/src/stdout_log.rs:217-255 | The number is at least 1, above every part, and the least such unless the indices are used up |
| `RotatingLog.RotateLogFile` | crates/mcp-jsonrpc/src/stdout_log.rs:257-292 | The file moves to the least free index at or above the given one, no entry is overwritten, and it fails exactly when there is none |
| `RotatingLog.PruneRotatingLogParts` | crates/mcp-jsonrpc/src/stdout_log.rs:337-363 | As many parts remain as there were, or as the limit where there were more; they are the highest numbered, and nothing else is removed; a limit of 0 removes nothing |
| `RotatingLog.LogState.constructor` | crates/mcp-jsonrpc/src/stdout_log.rs:163-184 | An opened log is sound; as many of the parts that were there remain as the limit allows, the highest numbered, and all of them if there were no more |
| `RotatingLog.LogState.Rotate` | crates/mcp-jsonrpc/src/stdout_log.rs:197-206 | A rotation changes nothing when the indices are used up; else the live file becomes the highest part, and then the number of parts is one more than before or the limit, whichever is less, the highest numbered being kept |
| `RotatingLog.LogState.WriteBytesWithRotation` | crates/mcp-jsonrpc/src/stdout_log.rs:194-214 | The loop ends; what it wrote and what it could not write are the bytes given, in order; the log stays sound; it fails only when the indices are used up |
| `RotatingLog.LogState.WriteLineBytes` | crates/mcp-jsonrpc/src/stdout_log.rs:186-192 | The line is logged with an LF added only when it has none |
| `RotatingLog.LogState.WriteLines` | crates/mcp-jsonrpc/src/stdout_log.rs:186-214 | Until more parts were made than may be kept, parts in index order and the live file are the old contents and every ended line, and all parts are there; from then on exactly as many as the limit; the log stays sound throughout |
| `RotatingLog.LogReadsBack` | crates/mcp-jsonrpc/src/stdout_log.rs:186-192 | A session that was logged reads back line by line, each with the one LF that ends it |
| `Segments.RotationIsLast` | crates/mcp-jsonrpc/src/stdout_log.rs:265-291 | Rotation puts its part above all others, and the next number stays above every part |
| `Segments.RotateSized` | crates/mcp-jsonrpc/src/stdout_log.rs:194-214 | Every part rotated out is exactly full, except a first file that was larger when opened |
| `Segments.RotateOrdered` | crates/mcp-jsonrpc/src/stdout_log.rs:257-292 | Rotation gives out ever higher numbers, and keeps the next number above every part |
| `Segments.RotateContents` | crates/mcp-jsonrpc/src/stdout_log.rs:194-214 | Rotation leaves parts and live file, read in order, the same bytes |
| `Segments.RotateKeeps` | crates/mcp-jsonrpc/src/stdout_log.rs:194-214 | Rotation keeps sizes, numbering and what is retained of everything ever logged |
| `Segments.PruneKeepsSuffix` | crates/mcp-jsonrpc/src/stdout_log.rs:352-362 | Removing the lowest parts removes a prefix of the log |
| `Segments.PruneKeeps` | crates/mcp-jsonrpc/src/stdout_log.rs:337-363 | After pruning, what is left is a suffix of everything ever logged, all of it while no more parts were made than may be kept; sizes and numbering stay right |
| `Segments.RotationKeeps` | crates/mcp-jsonrpc/src/stdout_log.rs:197-206 | A sound log is sound after a rotation and the pruning that follows |
| `SseSpec.CallsAreOneFold` | crates/http-kit/src/sse.rs:161-178 | Successive calls amount to one fold over the lines |
| `SseLines.StreamMeans` | crates/http-kit/src/sse.rs:108-158 | From the bytes of the lines: a stream of well-formed text has one event for each block between empty lines that has a data field, and it is the values of those fields with one LF between neighbours; comments and fields of any other name are nothing to it |
| `SseLines.EveryStreamIsSpelled` | crates/http-kit/src/sse.rs:122-142 | Every stream is made of such lines, so that is the meaning of all streams |
| `SseLines.SpelledMeans` | crates/http-kit/src/sse.rs:122-142 | The reader takes each line for what it is: CRs and LFs at the end dropped, a name up to the first colon, a value after it with one space taken off |
| `SseLines.InsertUnread` | crates/http-kit/src/sse.rs:133-142 | A line that starts with a colon, or whose name is not "data", put in at any line start, changes nothing |
| `SseLines.SameMeaning` | crates/http-kit/src/sse.rs:137-142 | Lines that mean the same can stand for each other anywhere in a stream |
| `SseLines.SpaceIsOptional` | crates/http-kit/src/sse.rs:137-138 | "data:" and "data: " before a value that does not start with a space give the same parse |
| `SseLines.BlankLineCuts` | crates/http-kit/src/sse.rs:123-131 | A line of nothing but CRs before its LF cuts a stream into two that are parsed each by itself |
| `SseLimits.StepRefines` | crates/http-kit/src/sse.rs:122-158 | A limit shows in one step exactly when the line, or the data it makes, is too long |
| `SseLimits.LimitsRefine` | crates/http-kit/src/sse.rs:95-159 | Under limits the events are a prefix of the unlimited ones; a limit error arises exactly when a line, an event or the unfinished data is over its limit; otherwise the parses agree |
| `SseLimits.LimitsInNumbers` | crates/http-kit/src/sse.rs:79-81 | Lines, events and unfinished data may be as long as their limits, and no longer |
| `SseReader.ZeroLimitFails` | crates/http-kit/src/sse.rs:67-69 | A limit of zero is an error for every stream, the event limit first |
| `SseRoundTrip.ReadBack` | crates/http-kit/src/sse.rs:122-158 | Encoded payloads are read back with the CRs at their line ends taken off |
| `SseRoundTrip.RoundTrip` | crates/http-kit/src/sse.rs:95-159 | Payloads within the limits are read back unchanged exactly when none of their lines ends in CR |
| `Utf8.EncodedIsUtf8` | crates/http-kit/src/sse.rs:122-122 | The encoding of any characters is accepted as text |
| `Utf8.Utf8IsEncoded` | crates/http-kit/src/sse.rs:122-122 | Whatever is accepted as text is the encoding of some characters, surrogates excluded |
| `SseReader.EventStream.ReadNextLine` | crates/http-kit/src/sse.rs:59-93 | The next line with its LF, or the too-large error, whatever the chunks; the line buffer never outgrows its limit |
| `SseReader.EventStream.ApplyLine` | crates/http-kit/src/sse.rs:122-157 | One line does to the event in progress what the fold says; the event buffer never outgrows its limit |
| `SseReader.EventStream.ReadNextEvent` | crates/http-kit/src/sse.rs:95-159 | The next event, error or end depends on the stream alone, and an event consumes just its lines |
| `SseReader.EventStream.ReadAll` | crates/http-kit/src/sse.rs:161-178 | Polling to the end gives the limited parse of the stream, whatever the chunks |

## Left out

- The Tokio runtime, timers, the abort of spawned work and child processes: a timeout or a dropped future is a step that may come at any point where the code waits.
- The byte transport: a write appends a line or fails; partial writes and read errors of the source are not modelled.
- serde: JSON values are given; the parsing of message text, the rendering of replies and the equality of -0.0 and 0.0 are not modelled. Whether a message parses is a parameter of the client's loop.
- File-system errors, symbolic links and other processes: part names stand for their numbers, so two spellings of one number and a live file that vanishes between check and rename are not modelled.
- Request ids beyond the range of i64, and message and buffer sizes near the limit of usize.
- RequestPromises.NoStrandedWaiter: says that a result is there or on its way; that a waiter is woken to pick it up is the runtime's part.
- BatchPromises.WrittenUnlessStranded: a batch of 2^63 members or more is not considered, because no vector holds one.
- BatchReplies.BatchAnswered: is about runs that come to rest, so a request whose handler never answers is outside it; that a request dropped without an answer gets one rests on reference counts which are not modelled.
- ConfigMerge.MergeValue: the JSON tree is a value that the method returns, so the update of the tree in place and its sharing are not modelled; the list of changed paths is updated in place.
- BatchWriter: the writer is a state machine on values rather than a class, because its operations interleave.
- Replies to single requests outside a batch: they are written directly, guarded by the same responded flag.
- Statistics, diagnostics, log text, buffer shrinking, the streamable HTTP bridge and all network code.
