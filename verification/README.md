# Verified model of FreeRDP client protocol cores

A Dafny model of the stateful cores below FreeRDP's clients, with proofs about all of their runs and inputs.
Every file is one component:

- `SelectionScheduler.dfy` is the X11 clipboard's handling of local selection requests: requests for one remote
  format share one data request to the server, other formats wait in a queue, answers are cached.
  `SchedulerInvariants.dfy`, `SchedulerLedger.dfy`, `SchedulerProgress.dfy` and `ClipboardFreshness.dfy` prove single
  flight, exactly-once answers, bounded waiting and freshness; `ClipboardAddressing.dfy` and `ClipboardAnswers.dfy`
  prove whose answer a response is and what each request is sent, and `ClipboardSources.dfy` that it is first in, first
  out; `ClipboardOutcomes.dfy` says what one request and one response do. `ClipboardFormats.dfy` holds its tables.
- `LocalTransfer.dfy` is the other direction: server requests for local data, with ICCCM INCR transfers.
- `AnnouncedFormats.dfy` and `RawFormatList.dfy` are the translation of X11 targets to formats, and the list one
  client leaves for another. `AnnouncedServed.dfy` proves which announced formats can be served.
- `ChannelDelivery.dfy` reassembles virtual channel chunks, and `ChannelThread.dfy` hands the PDUs to a handler,
  directly or through a queue and a thread.
- `FormatListCodec.dfy`, `FormatListRoundTrip.dfy` and `FormatListLimits.dfy` are the clipboard format list PDU (over
  `LittleEndian.dfy`).
- `VarInt.dfy`, `VarIntSizes.dfy` and `VarIntStream.dfy` are the variable-length integers of the touch input channel.
- `ResizePacing.dfy`, `ResizeMessages.dfy`, `ResizeRetries.dfy` and `DisplayControl.dfy` are the paced resize requests of
  the X11 and Wayland clients.
- `WheelEvents.dfy` and `Blit.dfy` are wheel splitting and the unscaled framebuffer copy of the Wayland client.

Objects that the C code updates in place are classes whose methods have the C functions' branches. Each method is
proved to be a function of the old state (`View() == Step(old(View()), ...)`), and the promises are lemmas about
those functions over every run. A ghost history of what was asked, sent and answered carries the properties that
speak about time. Everything that comes from outside is a parameter: clock readings, whether an append, an
allocation, a send or a timer registration works, what the X server reports, and the conversions of the platform.

Where the code does not do what its comments or the protocol suggest, the model follows the code, and lemmas say
exactly when it differs:

- A response can be for another request than those that wait: it is theirs exactly when one data request is in flight
  (`ClipboardAnswers.ResponseMatchesGroup`, with a run in `LateResponseMisdelivered`).
- Even then a request is given what was cached for its local format meanwhile, in place of its own response
  (`ClipboardSources.OwnUnlessCached`, `CachedInstead`).
- A request and the response to it can use different source formats, as for image/tiff with a server that announces
  CF_DIB alone (`ClipboardAnswers.FormatsAgreeIff`, `FirstRowRequested`, `TiffSourcesDiffer`), and all requests of a
  group are converted from the source of one of them (`EachEntryGets`). Cached raw data can then be converted
  differently than it was before (`RawCacheAgreesIff`).
- Raw clipboard data is stored under one key and looked up under another (`ClipboardAnswers.RawTransfersAlwaysAsk`).
- An empty successful response is notified as if the property had been written (`ClipboardAnswers.EmptySuccess`).
- A promoted format group all of whose entries cannot be appended leaves a data request nobody waits for
  (`SchedulerInvariants.StepSchedules`, with a run in `ClipboardSources.LostGroup`).
- An INCR transfer is left open by data that cannot be read or is for no row, and by a request that cannot be served
  (`LocalTransfer.LeftOpenIff`, `FailedBatchSwallowsNext`); a request that arrives inside one gets the bytes of both
  (`RequestJoinsOpen`).
- HTML announced beside an image can be served only if the table marks the image's row
  (`AnnouncedServed.AnnouncedServedIff`).
- Non-ASCII long format names are cut (`FormatListRoundTrip.LongNamesIff`), and so are those of the short ASCII layout
  below its limit (`ShortNamesIff`).
- Long lists written as ASCII come back only if they have no names; others are refused or read as something else
  (`FormatListLimits.LongAsciiIff`, `OneEntryRefused`, `TwoEntriesMerge`).
- A failed read can leave a count beside a null array (`FormatListLimits.StaleCountIff`).
- The 8-byte integer writer masks four middle bytes to five bits, and the signed writers take the minimum value
  (`VarInt.ListRoundTripIff`, `VarInt.LossyValues`).
- A failed X11 resize is repeated by itself only if another timer was registered before it, which can be one that a callback
  lost (`ResizeRetries.FailedAttemptWatched`, `FailedSendForgotten`, `ForgottenTimer`, `ForgottenTimerRetries`). A
  failed Wayland resize is repeated without any distance (`FailedSendRepeated`).

## Model

| member | source | states |
|---|---|---|
| ClipboardFormats.FindClientFormat | client/X11/xf_cliprdr.c:435-449 | the table search returns the first row with that target, or says that no row has it |
| ClipboardFormats.FindServerFormat | client/X11/xf_cliprdr.c:451-477 | the nested search returns the first announced format that equals a table row carrying the target, and fails only when no such pair exists |
| SelectionScheduler.XfClipboard.constructor | client/X11/xf_cliprdr.c:2633-2660 | a new clipboard object is the initial state |
| SelectionScheduler.XfClipboard.LookupCache | client/X11/xf_cliprdr.c:1661-1698 | cache hit, conversion of cached raw data (with its one-time load of the converter), or miss; the raw key is searched where it is never stored |
| SelectionScheduler.XfClipboard.QueueRequest | client/X11/xf_cliprdr.c:1711-1775 | a request with the format in flight joins the pending list, another format queues, an empty pending list starts one data request; a failed append changes nothing |
| SelectionScheduler.XfClipboard.ProcessFormatRequest | client/X11/xf_cliprdr.c:1639-1780 | a target that stands for a server format is answered from the cache or queued |
| SelectionScheduler.XfClipboard.RespondTo | client/X11/xf_cliprdr.c:1604-1788 | TIMESTAMP and TARGETS are answered at once, unknown targets and self-owned requests are refused, the rest goes to the format branch |
| SelectionScheduler.XfClipboard.ProcessSelectionRequest | client/X11/xf_cliprdr.c:1581-1791 | one selection request is one step of the state machine; requests for other windows are ignored |
| SelectionScheduler.XfClipboard.RefuseAll | client/X11/xf_cliprdr.c:2326-2340 | a failing response refuses every pending request, in order, and empties the list |
| SelectionScheduler.XfClipboard.DeliverTo | client/X11/xf_cliprdr.c:2489-2571 | a pending request gets the cached conversion or a new one that is cached, cut at the first NUL for text, or a refusal |
| SelectionScheduler.XfClipboard.AnswerEntry | client/X11/xf_cliprdr.c:2353-2573 | one turn of the answer loop: raw data as it is, else one load of the converter for all, then delivery; exactly one notify |
| SelectionScheduler.XfClipboard.AnswerPending | client/X11/xf_cliprdr.c:2342-2574 | the loop answers all pending requests in order with one response and empties the list |
| SelectionScheduler.XfClipboard.MoveGroup | client/X11/xf_cliprdr.c:2585-2602 | the index loop moves exactly the entries of one format, keeping the order of both lists; failed appends lose their entry |
| SelectionScheduler.XfClipboard.PromoteNext | client/X11/xf_cliprdr.c:2576-2606 | the head format's group becomes pending and one data request for it is sent, also when its entries are lost |
| SelectionScheduler.XfClipboard.ServerFormatDataResponse | client/X11/xf_cliprdr.c:2302-2614 | one server response is one step: all pending requests answered, next group promoted |
| SelectionScheduler.XfClipboard.ClearCachedData | client/X11/xf_cliprdr.c:1384-1403 | both caches and the converter are empty afterwards |
| SelectionScheduler.XfClipboard.ServerFormatListReceived | client/X11/xf_cliprdr.c:2122-2235 | a server format list drops every waiting request, clears the caches and replaces the formats, with the synthetic raw format last |
| SchedulerInvariants.AnswerOneLog | client/X11/xf_cliprdr.c:2353-2573 | answering one entry appends at most one payload for it and then its one notify, nothing else |
| SchedulerInvariants.ResponseSchedules | client/X11/xf_cliprdr.c:2302-2614 | a response keeps the scheduler invariant when some member of the promoted group is appended, and only then if nothing was in flight at the last format list |
| SchedulerInvariants.StepSchedules | client/X11/xf_cliprdr.c:1544-1561 | pending entries share one format that no queued entry has, queued implies pending, and one data request is in flight exactly while something is pending: kept by every event but a response, and by a response when an append of the promoted group succeeds, and only then if nothing was in flight at the last format list |
| SchedulerInvariants.RunSchedules | client/X11/xf_cliprdr.c:1729-1775 | single flight and the one-group invariant in every state of every run without a wholly lost group |
| SchedulerInvariants.RespondEffect | client/X11/xf_cliprdr.c:1581-1791 | a selection request is either settled at once by its own notify or waits as one entry that starts, joins or queues behind the flight |
| SchedulerLedger.StepBalances | client/X11/xf_cliprdr.c:1581-1791 | every event keeps: each request id asked so far is notified once, dropped once or waiting once |
| SchedulerLedger.RunBalances | client/X11/xf_cliprdr.c:2302-2614 | the same over every run from a balanced state |
| SchedulerLedger.ExactlyOnce | client/X11/xf_cliprdr.c:2140-2142 | requests = notifies + dropped + pending + queued over every run, failures included, and no request is ever notified twice |
| SchedulerProgress.ResponseMoves | client/X11/xf_cliprdr.c:2576-2606 | a response takes exactly the head format's group out of the queue, in stable order |
| SchedulerProgress.RankBound | client/X11/xf_cliprdr.c:1729-1775 | an entry's position is at most the number of distinct formats queued up to it |
| SchedulerProgress.ResponseNotifies | client/X11/xf_cliprdr.c:2326-2573 | whatever a response says, every pending request is notified by it |
| SchedulerProgress.PendingProgress | client/X11/xf_cliprdr.c:2326-2573 | a pending request stays pending until the next response, and is notified by it |
| SchedulerProgress.BoundedWaiting | client/X11/xf_cliprdr.c:2576-2606 | with d the entry's position, it is queued before the d-th response, pending after exactly d, and notified after d + 1, whatever else arrives meanwhile |
| ClipboardFreshness.StepFresh | client/X11/xf_cliprdr.c:1384-1403 | every event keeps: each cached slot holds a conversion to its own format of a response since the last clear, from a source that was waited for |
| ClipboardFreshness.NoStaleClipboard | client/X11/xf_cliprdr.c:1665-1709 | every payload ever given to a requestor answers an earlier request, in a format wanted for its target (raw only for a request that asked for raw data), and is the conversion, cut at a NUL or whole, of a server response received before it with no cache clear between, from the source format of a request that waited for the newest data request when that response came; for every interleaving |
| ClipboardAddressing.RunAddressed | client/X11/xf_cliprdr.c:1729-1775 | kept over every run: each waiting request was asked for, with its raw format if it is raw, and else carries the row of its target; each payload goes to a request asked for before, in the local format of its target, or raw if it asked for raw data and a server's raw format can stand for its target |
| SchedulerInvariants.RunNewest | client/X11/xf_cliprdr.c:2576-2606 | in every run, whatever fails, the newest data request in flight is the one for the pending group |
| ClipboardAnswers.ResponseMatchesGroup | client/X11/xf_cliprdr.c:1729-1775 | the next response is the pending group's own exactly when one data request is in flight, in every run; and one is whenever no group was lost and nothing was in flight at the last format list |
| ClipboardAnswers.LateResponseMisdelivered | client/X11/xf_cliprdr.c:2140-2142 | otherwise it can be for another one: a concrete run with two requests in flight, where text from before a format list is handed to a later TIFF request |
| ClipboardAnswers.EmptySuccess | client/X11/xf_cliprdr.c:2470-2487 | a request of a successful response is notified with its property but without data exactly when the data is empty or the converter refuses it under the source format of this request and of all before it in the group |
| ClipboardAnswers.RawTransfersAlwaysAsk | client/X11/xf_cliprdr.c:1665-1674 | the raw cache is filled and searched under different keys, so that raw requests never hit |
| ClipboardAnswers.WaitingEntries | client/X11/xf_cliprdr.c:1639-1775 | every waiting request that is not raw carries the name and the destination of the first table row of its target, in every run |
| ClipboardAnswers.FormatsAgreeIff | client/X11/xf_cliprdr.c:2353-2433 | the request side and the response side choose the same destination, and the same source exactly when the row has a name or the row's own format is the one requested |
| ClipboardAnswers.FirstRowRequested | client/X11/xf_cliprdr.c:451-477 | which is so exactly when the server announces the first row's own format |
| ClipboardAnswers.TiffSourcesDiffer | client/X11/xf_cliprdr.c:2732-2774 | image/tiff has two rows: with a server that announces CF_DIB alone the two sides use different sources |
| ClipboardAnswers.EachEntryGets | client/X11/xf_cliprdr.c:2342-2573 | what each request of a group is sent, the first and the later ones: a conversion from the source of the first request that was accepted, or a cached one |
| ClipboardAnswers.RawCacheAgreesIff | client/X11/xf_cliprdr.c:1481-1524 | converting cached raw data later answers a request as the response did, for all converters, exactly when the response converted it from the row's own source and cut it the same way |
| ClipboardAnswers.AnsweredThenCached | client/X11/xf_cliprdr.c:2489-2568 | what a response gave any request of a group the next requestor of that target finds in the cache, with the cut the response made |
| ClipboardSources.RunAlone | client/X11/xf_cliprdr.c:1729-1775 | while groups survive and no server format list finds a data request in flight, every response finds at most one |
| ClipboardSources.PayloadsOfLoneRequests | client/X11/xf_cliprdr.c:2302-2614 | then every payload ever given out was received for the one data request in flight, of a request asked before, and is converted from that request's source format |
| ClipboardSources.OwnUnlessCached | client/X11/xf_cliprdr.c:2489-2568 | then every response is for the pending requests' own format, and each is given a conversion of it from a source of its own group, except where a conversion to its local format was cached before: it is given that one |
| ClipboardSources.CachedInstead | client/X11/xf_cliprdr.c:2489-2540 | a run in which a request is given data cached for another format, though its own data request was answered |
| ClipboardSources.LostGroup | client/X11/xf_cliprdr.c:2585-2606 | a run in which the only member of a promoted group is lost: a data request is in flight and nothing waits |
| ClipboardOutcomes.AnsweredOrRefused | client/X11/xf_cliprdr.c:1604-1640 | TIMESTAMP and TARGETS are answered at once with a property and a notify, also for ourselves; a request of ours, or for a target no row of which matches an announced format, gets exactly a refusal; nothing waits |
| ClipboardOutcomes.AnnouncedRequest | client/X11/xf_cliprdr.c:1639-1788 | any other request is handled by the first row of its target and the first announced format that matches: given the cached conversion, or a new one of cached raw data (text up to its first NUL, anything else whole), or it waits with that format, and is refused exactly when it cannot be appended |
| ClipboardOutcomes.AnswerOneExactly | client/X11/xf_cliprdr.c:2353-2573 | one request and a response: notified without data, refused, or given the cached or the new conversion from the source to the destination of its kind, cut at the first NUL exactly for the three text formats, HTML and file lists, and whole for anything else |
| ClipboardOutcomes.AnswerOneCached | client/X11/xf_cliprdr.c:2435-2487 | raw data is kept under the source of the first request of a group that has one, and the converter is loaded once |
| ClipboardOutcomes.TextEndsAtNul | client/X11/xf_cliprdr.c:2531-2539 | no payload a response gives to a request for text holds a NUL |
| ClipboardOutcomes.LoneResponse | client/X11/xf_cliprdr.c:2302-2614 | the whole step for a request that waits alone, with what both caches and the converter hold afterwards |
| ClipboardOutcomes.FailedResponse | client/X11/xf_cliprdr.c:2326-2340 | a failing response refuses every pending request with property None, in their order, and changes nothing else |
| ClipboardOutcomes.ServerListExactly | client/X11/xf_cliprdr.c:2122-2235 | a server format list: the formats with the raw one last, every waiting request dropped in order, caches and converter empty |
| ClipboardOutcomes.LocalChanges | client/X11/xf_cliprdr.c:1384-1403 | our own format list empties both caches and the converter, local data replaces only what the converter holds |
| LocalTransfer.XfClipboard.FindAvailable | client/X11/xf_cliprdr.c:411-433 | the first available row for the requested format, an available image row standing in for HTML |
| LocalTransfer.XfClipboard.SendDataResponse | client/X11/xf_cliprdr.c:499-542 | a response is sent only while a server request is outstanding, and settles it |
| LocalTransfer.XfClipboard.Append | client/X11/xf_cliprdr.c:1121-1135 | the reallocated array holds the old bytes, the batch and two zero bytes |
| LocalTransfer.XfClipboard.ProcessRequestedData | client/X11/xf_cliprdr.c:996-1104 | conversion, refusal or silence, and the buffer reset, for one finished transfer |
| LocalTransfer.XfClipboard.GetRequestedData | client/X11/xf_cliprdr.c:1144-1221 | the property is appended, starts an INCR transfer, ends one, or is processed at once |
| LocalTransfer.XfClipboard.ServerFormatDataRequest | client/X11/xf_cliprdr.c:2252-2295 | a server request is recorded, and refused at once when no row offers the format |
| LocalTransfer.XfClipboard.ProcessPropertyNotify | client/X11/xf_cliprdr.c:1814-1854 | a property change matters only during an INCR transfer |
| LocalTransfer.XfClipboard.SendFormatList | client/X11/xf_cliprdr.c:961-982 | an outstanding request is refused before the list is announced |
| LocalTransfer.RunIdle | client/X11/xf_cliprdr.c:1137-1142 | between transfers the accumulation buffer is empty, in every run |
| LocalTransfer.IncrTransfer | client/X11/xf_cliprdr.c:1144-1221 | an INCR transfer of any number of batches hands the converter their concatenation once and leaves nothing behind (section 2.7.2 of the ICCCM) |
| LocalTransfer.EmptyIncrTransfer | client/X11/xf_cliprdr.c:1144-1221 | an INCR transfer without batches hands over nothing |
| LocalTransfer.PlainTransfer | client/X11/xf_cliprdr.c:1144-1221 | a plain transfer hands over exactly its own bytes if and only if no INCR transfer is open |
| LocalTransfer.ServerGets | client/X11/xf_cliprdr.c:996-1104 | the server is answered, for a plain transfer and for one in batches, with what the converter makes of the data under the format of the first row offered, serialized once more exactly for the file list, and with a failure otherwise |
| LocalTransfer.TransferAnswers | client/X11/xf_cliprdr.c:1048-1104 | so is every transfer that is handed over |
| LocalTransfer.FirstAvailableFound | client/X11/xf_cliprdr.c:411-433 | that row is the first offered for the format or, for HTML while an image is offered, marked as an image |
| LocalTransfer.NotifyOutside | client/X11/xf_cliprdr.c:1144-1221 | outside an INCR transfer the owner's data is refused, opens a transfer, or is the answer; a property change does nothing |
| LocalTransfer.NotifyInside | client/X11/xf_cliprdr.c:1144-1221 | inside one it is refused, starts the transfer again, is one more batch, or ends it with what was collected |
| LocalTransfer.ListsExactly | client/X11/xf_cliprdr.c:961-982 | a format list of ours refuses the outstanding request and ends a transfer, and is announced if the files were; a server format list ends a transfer and offers nothing |
| LocalTransfer.RequestExactly | client/X11/xf_cliprdr.c:2252-2295 | a server request is kept if a row is offered for it and refused at once otherwise |
| LocalTransfer.IncrEqualsPlain | client/X11/xf_cliprdr.c:996-1104 | splitting a transfer into batches makes no difference to the server |
| LocalTransfer.LeftOpenIff | client/X11/xf_cliprdr.c:1144-1221 | an event inside an INCR transfer settles the request and leaves the transfer open exactly when it is a request no row serves, or data that no row or another row is for, or that cannot be read |
| LocalTransfer.RequestJoinsOpen | client/X11/xf_cliprdr.c:2252-2295 | a request that arrives inside an open transfer is answered with the bytes of that transfer followed by its own |
| LocalTransfer.FailedBatchSwallowsNext | client/X11/xf_cliprdr.c:1191-1218 | after a batch that cannot be read the transfer stays open, and the next plain transfer is appended to it instead of being answered: one such case |
| LocalTransfer.RequestBetweenResponses | client/X11/xf_cliprdr.c:499-542 | between any two data responses of any run there is a server request |
| LocalTransfer.ResponsesNeverExceedRequests | client/X11/xf_cliprdr.c:2252-2295 | responses never exceed requests, in every run |
| LocalTransfer.AnsweredBeforeAnnounce | client/X11/xf_cliprdr.c:961-982 | a server request (with an id other than 0xFFFFFFFF) is answered before any later format list is announced |
| AnnouncedFormats.TargetReader.ShouldAddFormat | client/X11/xf_cliprdr.c:713-728 | a row is added if and only if it exists and its id is not there yet |
| AnnouncedFormats.TargetReader.FormatsFromTargets | client/X11/xf_cliprdr.c:731-841 | the array filled from the targets is the announced list, within its length of targets + 1, and the image flag is set from it; without data or memory nothing changes |
| AnnouncedFormats.AnnouncedIs | client/X11/xf_cliprdr.c:778-826 | ids are distinct and are those of the known targets, with HTML once beside TIFF, DIB or DIBV5 |
| AnnouncedFormats.HtmlIsLast | client/X11/xf_cliprdr.c:778-826 | the list is the formats collected from the targets, and after them HTML under its name exactly when one is TIFF, DIB or DIBV5 and none is HTML |
| AnnouncedFormats.CollectedInOrder | client/X11/xf_cliprdr.c:778-818 | the entries are the table rows of the first targets with new ids, in the order of the targets |
| AnnouncedServed.ServedWaits | client/X11/xf_cliprdr.c:2252-2295 | a server request for a format is kept for the owner's data exactly when a row serves it |
| AnnouncedServed.ServedIff | client/X11/xf_cliprdr.c:411-433 | an announced format is served exactly when a target maps to it, or an image row of the targets stands in for HTML |
| AnnouncedServed.AnnouncedServedIff | client/X11/xf_cliprdr.c:731-841 | whatever targets are offered, all announced formats are served exactly when each target whose first row has an image id also has a row marked as an image or with the HTML id |
| RawFormatList.SerializeServerFormats | client/X11/xf_cliprdr.c:544-588 | the loop prints a count and every format but the last |
| RawFormatList.ReadEntry | client/X11/xf_cliprdr.c:627-646 | one turn of the parser's loop reads a whole entry or fails for want of an id or a NUL |
| RawFormatList.ParseServerFormats | client/X11/xf_cliprdr.c:590-656 | the loop fills the array with what the parser's specification gives, or returns no array |
| RawFormatList.RoundTripIff | client/X11/xf_cliprdr.c:544-656 | parsing what was printed gives all formats but the last, null names as empty ones, exactly when there are at most 255; with more it is refused |
| RawFormatList.PrintedBytes | client/X11/xf_cliprdr.c:544-588 | the bytes of a list of two formats and the raw one |
| RawFormatList.ParsedReprints | client/X11/xf_cliprdr.c:590-656 | the other way round: any accepted list, with a raw format appended, prints as the bytes it came from |
| ChannelThread.MessageProcessor.constructor | channels/client/addin.c:597-641 | a new processor has no open stream, an empty queue, and a running thread without an error |
| ChannelThread.MessageProcessor.Reassemble | channels/client/addin.c:655-722 | one chunk: append, drop, or complete a PDU |
| ChannelThread.MessageProcessor.PostMessage | channels/client/addin.c:643-741 | threaded mode posts the completed PDU; direct mode takes one step of its own run; either reports no error, whatever the handler returned |
| ChannelThread.MessageProcessor.ThreadTurn | channels/client/addin.c:530-570 | a failed wait or an empty peek ends the thread with an error that is reported; QUIT ends it without; otherwise one PDU is handled and what the handler returned is cleared |
| ChannelThread.MessageProcessor.QuitHandler | channels/client/addin.c:743-773 | once a quit was posted quitting returns when the thread has exited; if it was running and its waits work everything posted has been handled, and nothing posted is lost in any case |
| ChannelDelivery.FeedRefines | channels/client/addin.c:655-722 | chunk by chunk, the open stream holds the payload of the open run of chunks |
| ChannelDelivery.ReassemblyRefines | channels/client/addin.c:643-741 | for every chunk sequence the delivered PDUs are exactly the complete FIRST..LAST runs whose length never exceeds a chunk's total and equals the last one's |
| ChannelDelivery.FlagMeansOpen | channels/client/addin.c:672-717 | after every call a first chunk is remembered if and only if a stream is open |
| ChannelDelivery.NoFirstNoPdu | channels/client/addin.c:696-703 | whatever a stream holds, a last chunk completes nothing when no first chunk is remembered |
| ChannelDelivery.RoundTrip | channels/client/addin.c:643-741 | any PDUs, cut anyhow, with suspend and resume chunks anywhere and any garbage before them, come back unchanged |
| ChannelThread.ThreadedDelivery | channels/client/addin.c:520-570 | for every interleaving, handler result and failure: handled then queued is what was posted, in order, and a thread that was told to quit has handled everything |
| ChannelThread.PostsExactly | channels/client/addin.c:724-738 | reassembly goes on with every chunk of every run, and each PDU it completes is posted exactly if posting works and the queue is open |
| ChannelThread.DirectDelivers | channels/client/addin.c:724-732 | a run in direct mode handles what reassembly delivers for its chunks, whatever the handlers return |
| ChannelThread.ThreadedEqualsDirect | channels/client/addin.c:724-738 | a thread that was told to quit has handled exactly what a run in direct mode handles for the same chunks |
| ChannelThread.ExitErrorIff | channels/client/addin.c:520-570 | over every run the thread's exit code is an error, which is then reported to the session, exactly when a wait or a peek failed it, whatever handlers returned |
| ChannelThread.HandlerErrorsIgnored | channels/client/addin.c:545-556 | two runs that differ only in what handlers return end in the same state: handled, queued, the thread's error and what is reported |
| ChannelThread.ThreadStops | channels/client/addin.c:756-769 | once the queue is closed, as many turns as it has messages stop the thread with everything handled |
| FormatListCodec.WriteFormatList | channels/cliprdr/cliprdr_common.c:241-320 | the loop writes the specified bytes, or fails on the first name that cannot be converted |
| FormatListCodec.EntryFits | channels/cliprdr/cliprdr_common.c:281-312 | every entry fits the capacity ensured for it, and short entries are 36 bytes |
| FormatListCodec.CountBound | channels/cliprdr/cliprdr_common.c:503-521 | the long reader counts at most dataLen / 6 entries |
| FormatListCodec.CountEntries | channels/cliprdr/cliprdr_common.c:503-521 | the first pass counts the whole entries and says whether they fill the data |
| FormatListCodec.FillEntries | channels/cliprdr/cliprdr_common.c:523-562 | the second pass meets the same entries on any bytes, fills every slot, and fails only on a name conversion |
| FormatListCodec.FillShort | channels/cliprdr/cliprdr_common.c:428-500 | the short-name loop fills the array, or fails on left-over bytes or a conversion |
| FormatListCodec.ShortLoopCompletes | channels/cliprdr/cliprdr_common.c:428-500 | short names are read without error exactly when dataLen is at least 36, leaves fewer than four bytes over, and every name converts, as ASCII names always do |
| FormatListCodec.ReadFormatList | channels/cliprdr/cliprdr_common.c:402-570 | the reader returns the specified error, array and count for any bytes |
| FormatListCodec.ReadEnds | channels/cliprdr/cliprdr_common.c:402-570 | every way a read can end: the error of each cause, the array and the count beside it, for both layouts and any bytes |
| FormatListCodec.EmptyList | channels/cliprdr/cliprdr_common.c:402-420 | a list without formats is written as nothing and read as no array without an error |
| FormatListRoundTrip.LongNamesIff | channels/cliprdr/cliprdr_common.c:265-313 | long names come back if and only if all are ASCII: others are cut to as many bytes as they have UTF-16 units |
| FormatListRoundTrip.LongRoundTrip | channels/cliprdr/cliprdr_common.c:241-570 | reading a written ASCII long-name list returns the same ids and names, empty ones null, whatever follows in the stream |
| FormatListRoundTrip.ShortRoundTrip | channels/cliprdr/cliprdr_common.c:241-570 | every short list the writer writes is read back with each name cut to 15 bytes (Unicode), or to 31 bytes and to as many as it has UTF-16 units (ASCII, when the reader is told) |
| FormatListRoundTrip.ShortWrittenIff | channels/cliprdr/cliprdr_common.c:265-313 | the writer writes a short list exactly when each name converts and, in the Unicode layout, its first 15 bytes do |
| FormatListRoundTrip.ShortNamesIff | channels/cliprdr/cliprdr_common.c:281-300 | short ASCII lists come back cut to 31 bytes and no more exactly when each name is ASCII or has at least 31 UTF-16 units; Unicode ones always come back cut to 15 |
| FormatListLimits.LongAsciiIff | channels/cliprdr/cliprdr_common.c:249-300 | a list written with long layout and the ASCII flag comes back from the long reader exactly when no format in it has a name |
| FormatListLimits.OneEntryRefused | channels/cliprdr/cliprdr_common.c:249-300 | such a list of one named ASCII entry is refused |
| FormatListLimits.TwoEntriesMerge | channels/cliprdr/cliprdr_common.c:249-300 | such a list of two named entries is read without error as one format with another name |
| FormatListLimits.AccentsCut | channels/cliprdr/cliprdr_common.c:265-313 | a name of two accented letters comes back as one of them from a long list and from a short ASCII one, and whole from a short Unicode one |
| FormatListLimits.StaleCountIff | channels/cliprdr/cliprdr_common.c:402-570 | for any input a null array has a count beside it exactly when a long list has an entry that does not fit after one that did |
| FormatListLimits.StaleCount | channels/cliprdr/cliprdr_common.c:506-521 | one good entry and then an id without a name leave the count 1 beside a null array |
| FormatListLimits.FaithfulConversionsExist | channels/cliprdr/cliprdr_common.c:269-308 | UTF-8 of one and two bytes meets what is assumed of the conversions |
| VarInt.UnpackPack | channels/rdpei/rdpei_common.c:33-611 | any magnitude and sign written in any length that has room for it is read back, with the bytes taken |
| VarInt.EncodableIff | channels/rdpei/rdpei_common.c:33-611 | each writer refuses exactly the values out of its range, the minimum signed values excepted |
| VarInt.RoundTrip | channels/rdpei/rdpei_common.c:33-611 | a written value followed by any bytes is read as its canonical form and takes exactly the bytes written |
| VarInt.SelfDelimiting | channels/rdpei/rdpei_common.c:33-493 | a reader depends only on the bytes it takes, and fails on any shorter prefix |
| VarInt.AllEncodable | channels/rdpei/rdpei_common.c:60-611 | a list is written if and only if every value is in range |
| VarIntSizes.Size2 | channels/rdpei/rdpei_common.c:60-156 | the number of bytes for every 2-byte value: two from 0x7F on, or from a magnitude of 0x3F on, and one for the minimum |
| VarIntSizes.Size4 | channels/rdpei/rdpei_common.c:210-381 | the number of bytes for every 4-byte value |
| VarIntSizes.Size8 | channels/rdpei/rdpei_common.c:495-611 | the number of bytes for every 8-byte value |
| VarInt.ListRoundTrip | channels/rdpei/rdpei_common.c:33-611 | any mix of written values followed by any bytes is read in order, each as its canonical form |
| VarInt.ListRoundTripIff | channels/rdpei/rdpei_common.c:495-611 | the list comes back unchanged exactly when no value is a minimum and no 8-byte value has bits 29-31, 37-39, 45-47 or 53-55 |
| VarInt.LossyValues | channels/rdpei/rdpei_common.c:117-156 | both signed minima, and an 8-byte value with bit 29 alone, are written and come back as zero |
| VarInt.DecodedIsEncodable | channels/rdpei/rdpei_common.c:33-493 | whatever a reader returns for any bytes its writer takes, and except for 8-byte values without loss |
| VarIntStream.Stream.Write2ByteUnsigned | channels/rdpei/rdpei_common.c:60-84 | writes exactly the encoding, or nothing when refused |
| VarIntStream.Stream.Write2ByteSigned | channels/rdpei/rdpei_common.c:117-156 | the same, with the sign taken off first as C does |
| VarIntStream.Stream.Write4ByteUnsigned | channels/rdpei/rdpei_common.c:210-254 | writes exactly the encoding, or nothing when refused |
| VarIntStream.Stream.Write4ByteSigned | channels/rdpei/rdpei_common.c:313-381 | the same, with the sign taken off first as C does |
| VarIntStream.Stream.Write8ByteUnsigned | channels/rdpei/rdpei_common.c:495-611 | the bytes under their masks are the encoding of the value without the dropped bits |
| VarIntStream.Stream.ReadLower | channels/rdpei/rdpei_common.c:403-487 | or-ing bytes in at falling shifts joins them below the top bits |
| VarIntStream.Stream.Read2ByteUnsigned | channels/rdpei/rdpei_common.c:33-58 | reads one value and moves past it; a failure has taken at most the first byte |
| VarIntStream.Stream.Read2ByteSigned | channels/rdpei/rdpei_common.c:86-115 | the same, with the sign applied |
| VarIntStream.Stream.Read4ByteUnsigned | channels/rdpei/rdpei_common.c:158-208 | reads one value and moves past it; a failure has taken at most the first byte |
| VarIntStream.Stream.Read4ByteSigned | channels/rdpei/rdpei_common.c:256-311 | the same, with the sign applied |
| VarIntStream.Stream.Read8ByteUnsigned | channels/rdpei/rdpei_common.c:383-493 | reads one value and moves past it; a failure has taken at most the first byte |
| DisplayControl.Display.constructor | client/X11/xf_disp.c:334-367 | a new display context of either client is the initial state |
| DisplayControl.Display.SettingsChanged | client/X11/xf_disp.c:75-107 | true exactly when size, orientation, scales or window state differ from what was last sent; the Wayland client has the same comparisons |
| DisplayControl.Display.UpdateLastSent | client/Wayland/wlf_disp.c:90-111 | records what was sent and, in the Wayland client, the date after it |
| DisplayControl.Display.UpdateTimer | client/X11/xf_disp.c:152-163 | the timer in use is replaced by a new one, or by none when registering fails, in both clients |
| DisplayControl.Display.SendResizeX11 | client/X11/xf_disp.c:165-227 | one call is the X11 step: timer first, then delay, then change, and the date before the send |
| DisplayControl.Display.SendResizeWayland | client/Wayland/wlf_disp.c:143-199 | one call is the Wayland step: delay before timer, a whole delay each time, and the date after a successful send |
| DisplayControl.Display.Configure | client/X11/xf_disp.c:229-236 | the same target again does nothing and succeeds in the X11 client; the Wayland client sets the target and calls sendResize for every configure |
| DisplayControl.Display.OnTimer | client/X11/xf_disp.c:131-150 | keeps the timer while inactive (in the Wayland client also in full screen), else tries to send and ends the timer |
| DisplayControl.Display.RunTimer | libfreerdp/core/timer.c:123-131 | a due timer runs its callback and is rescheduled or removed by the result |
| DisplayControl.Display.OnActivated | client/X11/xf_disp.c:279-297 | a later activation outside full screen calls sendResize |
| DisplayControl.Display.OnGraphicsReset | client/X11/xf_disp.c:299-315 | a graphics reset outside full screen calls sendResize |
| DisplayControl.Display.OnWindowStateChange | client/X11/xf_disp.c:317-332 | a window state change in full screen calls sendResize |
| ResizePacing.StepKeeps | client/X11/xf_disp.c:131-236 | every event of either client keeps: pacing, known timers, the recorded size, and that no size is lost |
| ResizePacing.ResizesPacedAndKept | client/X11/xf_disp.c:165-227 | over every run under a monotone clock: X11 attempts (Wayland: successful ones) are at least 500 ms apart, the size recorded is the one the last successful message told, and a size not yet sent has a timer unless the last attempt failed |
| ResizePacing.AttemptsSpread | client/X11/xf_disp.c:190-202 | X11 attempts i and j are at least (j - i) delays apart |
| ResizeMessages.EverySend | client/X11/xf_disp.c:200-227 | over every run each attempt was sent by one step, and tells the target wanted and the look set at that step, or the layout of the monitors: of several in the X11 client, of any in the Wayland client's full screen window |
| ResizeMessages.StepSendsIff | client/X11/xf_disp.c:165-332 | a step sends exactly when its event calls for it, the client is active and the channel open, half a second has passed since the last date, and the size, a part of the look or the window state differ from what was last sent |
| ResizeMessages.SuccessRecorded | client/X11/xf_disp.c:109-129 | after a successful send nothing differs any more, and the date is the one noted for it |
| ResizeMessages.CallExactly | client/X11/xf_disp.c:152-227 | one call attempts, does nothing, or replaces the timer in use by one for half a second, in the X11 client for what is left of it; its result is that of sending or registering |
| ResizeMessages.Start | client/X11/xf_disp.c:334-367 | a new context has sent nothing and waits for nothing |
| ResizeMessages.Switches | client/X11/xf_disp.c:518-545 | capabilities, the channel and the settings change one field each |
| ResizeMessages.BackwardsClockSends | client/X11/xf_disp.c:171-200 | with a clock that went back the 64-bit difference is large and a change is sent at once |
| ResizePacing.DueTimerSends | client/X11/xf_disp.c:131-150 | a timer registered since the last attempt, firing when due with the channel open and working, gets the target to the server, told as the settings are |
| ResizeRetries.DueTimerSendsOrWaits | client/X11/xf_disp.c:131-150 | any registered timer that fires when due with the channel open and working gets the target to the server if the delay has passed, and else registers a timer that will |
| ResizeRetries.TwoTimersSend | client/X11/xf_disp.c:131-227 | so after at most two firings the server has the size |
| ResizeRetries.ForgottenTimer | client/X11/xf_disp.c:147-149 | a callback leaves a registered timer that the code waits for no longer exactly when registering worked and the channel was closed or the delay had not passed |
| ResizeRetries.FailedAttemptWatched | client/X11/xf_disp.c:200-234 | after a failed attempt by any event of either client the change is still to be sent, and some timer will look at it exactly when another was registered before |
| ResizeRetries.FailedSendForgotten | client/X11/xf_disp.c:200-236 | in the X11 client without another timer neither timers nor the same size again change anything, for good |
| ResizeRetries.FailedSendRetried | client/X11/xf_disp.c:131-227 | with another timer the size of a failed X11 attempt is sent when that timer is due a delay later |
| ResizeRetries.ForgottenTimerRetries | client/X11/xf_disp.c:147-149 | a run in which a timer lost by a callback does so |
| ResizeRetries.FailedRun | client/X11/xf_disp.c:200-227 | a run in which a failed resize is left without a timer |
| ResizeRetries.FailedSendRepeated | client/Wayland/wlf_disp.c:143-199 | after any failed Wayland attempt the same size configured again is tried at once, whatever little time has passed |
| ResizeRetries.RepeatedRun | client/Wayland/wlf_disp.c:143-199 | a run with two failed Wayland attempts at the same instant |
| WheelEvents.PlanConserves | client/Wayland/wlf_input.c:223-234 | the 9-bit rotations of the planned events add up to the signed amount on the axis of the flags, and to nothing on the other |
| WheelEvents.PlanSteps | client/Wayland/wlf_input.c:223-234 | there are ceil(amount / 255) events, each of magnitude 1 to 255 |
| WheelEvents.WheelConserves | client/Wayland/wlf_input.c:182-236 | rotations add up to minus the vertical amount, or to the horizontal amount, for every amount but the minimum (section 2.2.8.1.1.3.1.1.3 of MS-RDPBCGR) |
| WheelEvents.DeliverPrefix | client/Wayland/wlf_input.c:228-231 | what is sent is a prefix of the plan, all of it when every call works |
| WheelEvents.ScrollsConserved | client/Wayland/wlf_input.c:258-304 | over a frame the rotations add up to the amounts of each axis; an unknown axis, or coordinates of one event that cannot be scaled, only make the result false |
| WheelEvents.FrameConserves | client/Wayland/wlf_input.c:238-307 | over the events of a frame: for a wheel the rotations are 120 for each step, negative on the vertical axis, for a finger the truncated distances, by the last source named; and the frame fails exactly if a counting event has an unknown axis or cannot be scaled |
| WheelEvents.SourcelessFrame | client/Wayland/wlf_input.c:246-258 | without a source a frame sends nothing |
| WheelEvents.PointerInput.HandleWheel | client/Wayland/wlf_input.c:182-236 | one scroll sends the plan for its axis and amount, up to the first failing call |
| WheelEvents.PointerInput.SendRotations | client/Wayland/wlf_input.c:221-235 | the loop over the remaining amount sends the plan and ends |
| WheelEvents.PointerInput.HandlePointerFrame | client/Wayland/wlf_input.c:238-307 | the last source decides how each event counts, every counting event is handled though others fail, and the list is empty afterwards |
| Blit.CopyImage | client/Wayland/wlfreerdp.c:737-754 | every byte of the clipped area is the source byte of the same row and column, every other byte is as before |
| Blit.PixelsExact | client/Wayland/wlfreerdp.c:737-754 | pixel by pixel: inside the clipped area the source's pixel, outside the old one |
| Blit.PaddingKept | client/Wayland/wlfreerdp.c:737-754 | bytes beside or below the pixels of the buffer are as before |
| Blit.Window.UpdateBuffer | client/Wayland/wlfreerdp.c:62-120 | negative areas, and a missing drawing buffer, geometry or session, fail without effect; areas that start beyond the surface are ignored; others are copied, marked and submitted once |

## Left out

- Window system calls, logging, locks and window management: only the event that reaches the core and the message that
  leaves it are modelled. Each X11 handler is one atomic step; only the channel queue and thread interleave.
- The X11 clipboard object is two models, one per direction. They share format tables and cache clears and nothing else;
  the list of targets sent for a TARGETS request and the file contents of the file clipboard are not modelled.
- Format conversion, UTF-8 and UTF-16 conversion are parameters; the round trip of format names assumes of the latter only
  what `FormatListCodec.Faithful` says, which `FormatListLimits.FaithfulConversionsExist` shows can be met by conversions that know more than ASCII.
- Allocation failures other than those that are parameters. The container, queue and stream types of WinPR are
  sequences, maps and positions.
- `SelectionScheduler.Enqueue`: the code ignores whether sending a data request works and waits for its response all the same. The model
  logs the request as in flight and has no event for a send that failed.
- `SelectionScheduler.Promote`: the same for the request of a promoted group.
- `ChannelThread.MessageProcessor.QuitHandler`: the processor is freed afterwards, with what is still queued when the thread had failed; the
  model ends before that. That the wait for the thread itself fails is not modelled.
- `VarIntStream.Stream.ReadLower`: the readers' unrolled cases for each length are one loop over the length, and the writers'
  consecutive byte writes are one call with the bytes in order.
- `VarIntStream.Stream.Write4ByteSigned`: the negation of the minimum is taken to wrap, which C leaves undefined.
- `WheelEvents.WheelConserves`: the minimum 32-bit amount has no absolute value in C and is excluded, as are step
  counts that overflow when multiplied by 120. The division of a finger's distance is exact in a double, and is an integer one here.
- `ResizePacing.ResizesPacedAndKept`: X11 attempts are dated by the clock reading before the send, not by the send itself; the layout sent
  directly on a RandR screen change is outside the pacing in the code and is not modelled; nor are the physical sizes
  computed in floating point. Settings other than the size may change without a resize being sent.
- `Blit.CopyImage`: the scaled branch is a call to the image library and is not modelled, nor is the scaling of the damage rectangle;
  that 16-bit coordinates do not overflow is asserted by the code and assumed here.
- The rail, graphics and display channel codecs and the Windows clients: field copies and platform calls.
