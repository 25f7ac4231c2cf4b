# Verification of the esip user-agent server

This Dafny project models the engine of esip, an easy SIP server on libosip2 and libevent: the dispatcher, wake-up
loop, callbacks and dialog list of `src/sip/esosip.c`, and the response builder of `src/sip/esomsg.c`. It proves what
the engine keeps over every finite interleaving of received datagrams and loop callbacks.

`dafny verify dfyconfig.toml` checks everything.

## How the model is laid out

| file | content |
|---|---|
| `Messages.dfy` | parsed SIP messages, status codes, the text of generated tags |
| `Response.dfy` | `es_msg_initResponse`, a method with the Via loop and its early exits |
| `Dialogs.dfy` | dialogs, their matching rule, and the newest-first search |
| `Transactions.dfy` | transactions, the callbacks, and the small libosip2 semantics the engine relies on |
| `Model.dfy` | the context as a value: wake-ups, draining, dispatcher, runs; and the measure of queued work |
| `Drain.dfy` | completeness and coalescing of a drain, from any state |
| `Invariants.dfy`, `Arrivals.dfy` | the invariant of the context, kept by every callback, so by every run |
| `Answering.dfy` | what a run accepts, and what a transaction can have sent at any moment |
| `CutOff.dfy` | exactly-once answering, and which arrivals can cut an answer off |
| `OrderIndependence.dfy` | what the order of arrivals and loop callbacks can and cannot change |
| `Prediction.dfy` | the closed form of a drain; trace, dialogs, wake-ups and statuses read off the arrivals and callbacks |
| `DialogTable.dfy` | the dialog list against the trace; the round trip of ACK and BYE |
| `Lifetime.dfy` | wake-up events and parsed messages over a lifetime; server-only tables |
| `Examples.dfy` | concrete runs on which tempting claims fail |
| `Engine.dfy` | the context as a class whose methods update its fields, each proved against `Model.dfy` |

The state has three parts. `Core` holds the four transaction tables, the dialog list (newest first), the trace of sent
messages and the dialog searches made for BYEs. `Queue` holds `pendingEv`, libevent's active events, and the fate of
every event created. `Ledger` is the dispatcher's account of received messages.

A run is a sequence of steps: a datagram arrives (`Arrive`), or libevent runs an active wake-up (`Fire`).

## Choices about the environment

- libosip2: FIFOs append at the tail; executing a family drains every FIFO of it, also what callbacks append
  meanwhile; the server state machines follow sections 17.2.1 and 17.2.2 of RFC 3261 for the events the engine can
  produce; a response is matched as in section 17.1.3; dialog identity is Call-ID, local tag and remote tag (section
  12 of RFC 3261), an absent tag being equal only to an absent tag.
- libevent: a one-shot event leaves the active set before its callback runs; freeing an event also deactivates it.
- Every library call that may fail has an outcome in the record `Luck` that travels with the message it is made for,
  and so does the random number its response would use; a response is built at most once per message. In one run this
  is no restriction, because all outcomes and draws are allowed. When two orders of the same messages are compared,
  outcomes are the same for each message, but draws are free: the source draws from one generator in the order in
  which requests are executed, so other orders give other tags. `OrderIndependence.dfy` therefore compares traces and
  dialogs up to the generated tags, and says how the tags are renamed.
- Arrivals have names (`id`), which no two arrivals of a run share. A transaction carries the name of its request.
- Runs assume that wake-ups succeed. `OwnershipNeedsWakeup` says exactly what a failing one in the dispatcher breaks:
  line 374 frees an event that a transaction already holds.

## Where the code differs from what one would expect

- `src/sip/esosip.c:319`: the guard ends in a stray semicolon, so retransmissions are "stopped" for every ACK, also
  when no dialog was found. The model follows the code: a stop call is recorded with whatever was found, `None`
  included. `UnmatchedAckStillStops` is a run with such a call, and `AckStopsNothing` the exact condition: no dialog
  in the list matches the ACK.
- `src/sip/esosip.c:291,300,354,366`: a received response is looked up among the *server* transactions, and if its
  hand-over fails, the matched transaction is freed. If that transaction had not answered yet, its request is never
  answered: `ResponseCutsInviteOff` is such a run. `CutExactly` gives the condition for whole runs, on the sequence of
  arrivals and loop callbacks alone, and `ExactlyOnce` is stated with it. Whether a response can match a server
  transaction at all is decided inside libosip2, which is not part of this model; the rule assumed here is that of
  section 17.1.3. If the library never matches them, no run cuts anything off: `NothingCut` and
  `ExactlyOnceWithoutMatches` hold for every run in which no response corresponds to an INVITE.
- For the same reason the order of arrivals can matter: `InviteAnsweredWhenTheLoopRunsFirst` has the arrivals of
  `ResponseCutsInviteOff` and another outcome. `TracesAgree` says exactly when two orders agree.
- `src/sip/esosip.c:613`: the guard looks at the CSeq method that was copied from the request. An INVITE whose CSeq
  names another method is answered 200 but leaves no dialog: `MismatchedCSeqLeavesNoDialog` and `OpensExactly`.
- `src/sip/esomsg.c:187`: an unsigned random number is printed with `%d`. The tag is the numeral of the signed reading
  (`TagTextReads`), so tags are still distinct for distinct numbers (`TagTextInjective`).
- A retransmitted INVITE is a new arrival and gets a transaction and a 200 of its own.

## Model

The last five rows are steps that follow from the definitions; the rows before them are the results.

| member | source | states |
|---|---|---|
| ResponseBuilder.InitResponse | src/sip/esomsg.c:137-232 | Ok exactly when To, From, CSeq and Call-ID are there, the message, CSeq and Call-ID allocations succeed, and no Via, of however many, fails; then Via sequence, From, Call-ID and CSeq are the request's and To differs at most by an added tag; otherwise the output is untouched and a message that was created is released once |
| SipMessages.TagTextReads | src/sip/esomsg.c:180-190 | the tag, read as a decimal numeral with optional sign, is the drawn number as a signed 32-bit value; it has a sign only when negative and no superfluous zero |
| SipMessages.TagTextInjective | src/sip/esomsg.c:180-190 | distinct random numbers give distinct To tags, although they are printed as signed |
| Dialogs.FirstMatchIsFirst | src/sip/esosip.c:309-317 | the search returns the first list element that matches, and none exactly when none does |
| Dialogs.FirstMatchIsMapLookup | src/sip/esosip.c:653-661 | the search equals lookup in a map keyed by Call-ID, local and remote tag in which newer dialogs replace older ones |
| Transactions.ConsumeIsGood | src/sip/esosip.c:573-694 | executing any event keeps a transaction sound; what it sends is its own answer, and only if it has not sent it yet |
| Transactions.ConsumeLightens | src/sip/esosip.c:683-693 | an executed event weighs more than the response and the wake-up it creates together |
| EngineModel.ExecOneWork | src/sip/esosip.c:683-693 | each executed event strictly lowers the total of pending wake-ups and queued work |
| EngineModel.LoopBodyWork | src/sip/esosip.c:428-481 | each iteration strictly lowers that total, although callbacks push onto the list it pops: the loop terminates |
| Drain.PassEmpties | src/sip/esosip.c:438-460 | after one pass every FIFO of every family is empty, including what was queued during the pass |
| Drain.LoopDrains | src/sip/esosip.c:428-481 | on exit nothing is pending, and every FIFO is empty if the loop had anything to pop; with nothing to pop it does nothing |
| Drain.LaterIteration | src/sip/esosip.c:428-481 | once FIFOs are empty an iteration pops its wake-up, deactivates it, frees it last, and changes nothing else |
| Drain.Coalescing | src/sip/esosip.c:428-481 | with any number of wake-ups queued, the drain gives the transactions, trace and dialogs of a single pass |
| Drain.WakeupCountIsIrrelevant | src/sip/esosip.c:428-481 | contexts that differ only in their non-empty wake-up lists drain to the same result |
| Prediction.LoopSends | src/sip/esosip.c:428-481 | a drain sends the answers that are due, all those to INVITEs in the order of their table and then all others in the order of theirs |
| Prediction.LoopFrees | src/sip/esosip.c:428-481 | a drain frees the wake-up it popped, then those queued by its callbacks, newest first, one per response built, then the other pending ones |
| Prediction.InvitesGoFirst | src/sip/esosip.c:438-460 | what a callback sends extends the trace, and in it no answer to another request precedes one to an INVITE |
| Prediction.TraceIsPredicted | src/sip/esosip.c:428-481 | the trace of every run, in order and message by message, and its dialog list are those read off the sequence of arrivals and callbacks: each callback answers what was accepted since the last one, INVITEs first, in order of arrival, and not what was cut off |
| Invariants.ExecOneKeeps | src/sip/esosip.c:573-694 | the whole invariant holds after each event executed in the middle of a drain |
| Invariants.LoopBodyKeeps | src/sip/esosip.c:428-481 | an iteration keeps the invariant and the account of wake-up events, with the popped event in hand meanwhile |
| Arrivals.FreeMatchedKeeps | src/sip/esosip.c:352-369 | freeing the transaction a response matched keeps the invariant: its request has been answered, never calls for an answer, or is recorded as cut off |
| Arrivals.ParseMsgKeeps | src/sip/esosip.c:258-384 | the dispatcher keeps the invariant for every class of message and every set-up failure |
| Arrivals.Reachable | src/sip/esosip.c:258-522 | the invariant holds after every finite interleaving of arrivals and loop callbacks |
| Answering.NeverTwice | src/sip/esosip.c:594-693 | in every reachable state no arrival has been answered twice, or with anything but its expected response |
| CutOff.CutExactly | src/sip/esosip.c:299-306 | the answers cut off in a run are exactly those of INVITEs that a response with a failing hand-over corresponds to, before any other INVITE in the table, when they could be answered and no loop callback has come since they arrived |
| CutOff.ExactlyOnce | src/sip/esosip.c:327-376 | at rest each accepted INVITE, REGISTER or BYE that could be answered and was not cut off in that sense has sent exactly one 200, the right one; every other arrival has sent nothing |
| Prediction.AnsweredWhen | src/sip/esomsg.c:137-232 | at rest an arrival not cut off has one answer exactly when it is an INVITE, REGISTER or BYE with the four headers, is set up, and no allocation of its response fails, for any number of Vias; the answer's headers are given field by field |
| CutOff.NothingCut | src/sip/esosip.c:352-369 | nothing is cut off when no response corresponds to an INVITE, or no hand-over of a response fails |
| CutOff.ExactlyOnceWithoutMatches | src/sip/esosip.c:327-376 | exactly-once answering without exception, for runs in which no response corresponds to an INVITE |
| OrderIndependence.TraceFromArrivals | src/sip/esosip.c:428-481 | at rest the trace holds exactly the expected answers of the accepted arrivals that were not cut off |
| OrderIndependence.TracesAgree | src/sip/esosip.c:364-376 | two runs of the same messages ending at rest, in any order, with the loop run at any points and any draws, have the same trace up to generated tags if and only if they cut off the same INVITEs; then their dialogs are permutations up to generated local tags |
| OrderIndependence.AnswersAgree | src/sip/esosip.c:683-685 | a message received in two such runs is answered in both or in neither; the answers are equal but for the To tag, which each run's own draw makes, and only where the request had none |
| OrderIndependence.TracesAreRenamed | src/sip/esomsg.c:180-190 | renaming the draws of the one run to those of the other turns its trace into the other's, and the dialogs that trace opens into the other's dialogs, up to order |
| DialogTable.DialogListCorrespondence | src/sip/esosip.c:611-623 | in every reachable state the dialog list is the reverse-chronological sequence of those answers |
| DialogTable.SearchFindsNewest | src/sip/esosip.c:308-317 | a search finds the newest dialog of the identity, or there is none |
| DialogTable.SearchesResolve | src/sip/esosip.c:652-661 | every search recorded in a run for a request that carries the identity of an earlier 200 to an INVITE found the newest such dialog |
| DialogTable.AckFindsDialog | src/sip/esosip.c:308-325 | an ACK arriving after the 200 stops retransmissions of the newest dialog it addresses |
| DialogTable.ByeFindsDialog | src/sip/esosip.c:652-661 | a BYE arriving any time after the 200 has been looked up when the engine rests, and found the newest dialog it addresses |
| DialogTable.DialogIsUnique | src/sip/esomsg.c:180-190 | when the INVITE had no To tag and no other accepted INVITE that opens a dialog can have the generated one, exactly one dialog in the list has the identity |
| DialogTable.ByeFindsItsInvite | src/sip/esosip.c:652-661 | under that condition a later BYE with the identity found the dialog of that very INVITE, and no other dialog in the list matches the BYE |
| Prediction.DispatcherStatus | src/sip/esosip.c:258-384 | each status is returned exactly for: nothing parsed; a response to no INVITE in the table; a failing init or add; a failing socket or wake-up; otherwise Ok |
| Prediction.WakeupOfArrival | src/sip/esosip.c:371-376 | an arrival queues and activates one new wake-up, first in the list, exactly when its message is handed over; when event_new fails nothing changes, when event_add fails the new event is leaked |
| Prediction.WakeupsCounted | src/sip/esosip.c:683-692 | over every run, the events created are one per message handed over and one per answer sent |
| Lifetime.NoLostWakeup | src/sip/esosip.c:364-376 | between callbacks, if any FIFO is non-empty the head of the pending list is an active event |
| Lifetime.DrainLeavesNothing | src/sip/esosip.c:416-482 | after one loop callback nothing is pending, nothing is active and every FIFO is empty |
| Lifetime.PendingIsActive | src/sip/esosip.c:497-519 | the pending list holds distinct, unfreed events, newest first, and they are exactly the active ones |
| Lifetime.WakeupsConserved | src/sip/esosip.c:224-247 | events created equal those freed plus those pending; after deinit each has been freed exactly once, the pending ones front to back |
| Lifetime.OneOwner | src/sip/esosip.c:279-379 | every parsed message was freed by the dispatcher once or put on one transaction once, and FIFOs saw exactly what was put on them |
| Lifetime.OwnershipNeedsWakeup | src/sip/esosip.c:371-376 | single ownership survives an arrival exactly when the message was not handed over or the wake-up succeeded |
| Lifetime.ServerOnly | src/sip/esosip.c:438-454 | client tables stay empty, client passes do nothing, INVITE and non-INVITE requests are in their own tables |
| Examples.ResponseCutsInviteOff | src/sip/esosip.c:364-369 | a run in which an accepted INVITE is never answered |
| Examples.InviteAnsweredWhenTheLoopRunsFirst | src/sip/esosip.c:364-369 | the same arrivals with the loop run in between: it is answered |
| Examples.MismatchedCSeqLeavesNoDialog | src/sip/esosip.c:613-622 | a run in which an INVITE is answered 200 and no dialog is stored |
| Examples.AckStopsNothing | src/sip/esosip.c:319-321 | the stop call is made on no dialog exactly when no dialog in the list matches the ACK |
| Examples.UnmatchedAckStillStops | src/sip/esosip.c:319-321 | a run in which the stop call is made although no dialog was found |
| SipEngine.Engine.constructor | src/sip/esosip.c:104-179 | a new context is the empty one |
| SipEngine.Engine.Wakeup | src/sip/esosip.c:484-522 | the new event is active and first in the pending list; a failing event_new changes nothing, a failing event_add leaks the event |
| SipEngine.Engine.SendMessage | src/sip/esosip.c:524-550 | the message is appended to the trace and nothing else changes |
| SipEngine.Engine.MessageCallback | src/sip/esosip.c:573-694 | the callback, with its dialog search loop, has exactly the effects of `React` on its own transaction and the shared context |
| SipEngine.Engine.ExecuteFamily | src/sip/esosip.c:438-460 | draining a family in place computes `Execute` |
| SipEngine.Engine.OsipLoop | src/sip/esosip.c:416-482 | the loop terminates and computes `Loop`, about which coalescing and completeness are proved |
| SipEngine.Engine.MatchResponse | src/sip/esosip.c:290-306 | the first transaction that matches the response, and none exactly when none does |
| SipEngine.Engine.GiveEvent | src/sip/esosip.c:347-379 | the hand-over of an event to a transaction and its three failures, in place |
| SipEngine.Engine.ParseMsg | src/sip/esosip.c:258-384 | status and new context are those of the specification that the invariant is proved for |
| SipEngine.Engine.DeinitPending | src/sip/esosip.c:224-247 | every pending event is freed, front to back, and nothing else changes |
| SipEngine.Engine.Serve | src/esip.c:190-194 | serving callbacks one after the other in place is the run the theorems speak of |
| SipEngine.ServeAndShutDown | src/esip.c:190-200 | after any run and deinit, every wake-up event ever created has been freed exactly once |
| Transactions.OwnRequestStep | src/sip/esosip.c:594-693 | executing a request queues its one expected response with one wake-up, or, when building fails or the method is not answered, neither |
| Transactions.OwnAnswerStep | src/sip/esosip.c:611-623 | executing the queued response sends it, finishes the transaction, and opens the dialog an INVITE's response should open |
| DialogTable.OpensExactly | src/sip/esosip.c:611-623 | a sent 200 opened a dialog exactly when it answers an INVITE whose CSeq method is INVITE and dialog creation succeeded; its identity is that of request and response |
| Lifetime.StatusTellsOwner | src/sip/esosip.c:279-384 | the status returned tells which of the two happened |
| Lifetime.UnmatchedResponse | src/sip/esosip.c:290-306 | the illegal-action status is returned exactly for a response that matches no INVITE server transaction, and then tables, dialogs and wake-ups are unchanged; the correspondence is spelled out in Via and CSeq fields |

## Left out

- TracesAgree: the outcomes of allocations are taken to be the same for each message in the two runs compared.
- MessageCallback: a wake-up that fails inside the callback (lines 688-692) frees a response that is still queued; what follows is undefined, so the wake-up is taken to succeed there.
- InitResponse: the results of cloning From and To are not checked by the source, and are taken to succeed.
- InitResponse: User-Agent, Organization, Subject, Server, Max-Forwards, version and reason phrase are fixed texts.
- IstStep: rows of the state machines for 1xx and 3xx-6xx responses and for timers; the engine queues no response but 200 (part of `TxOk`) and has no timer of its own.
- Matches: the fallback of libosip2 to comparing URIs when a tag is missing on one side only.
- Text parsing and printing, sockets, DSCP, addresses and ports: a datagram arrives as a parsed message, and sending appends to the trace.
- Failures inside `es_osip_init`, magic numbers and null contexts: one-branch facts.
- Dialogs are never removed on BYE and finished transactions never leave their table, so nothing is claimed about memory being reclaimed, nor about the dialogs at deinit.
- `src/cli/escli.c`, `src/eslog.c`, option parsing in `src/esip.c`, and `es_msg_init`, which the engine does not call.
