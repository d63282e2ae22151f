# Kanedias in Dafny

Kanedias runs a tree of supervisor processes, one per session, and a manager that watches a fleet of
such trees. This project models the parts whose value lies in concurrency and failure handling, and
proves what they promise. Nothing was executed; every claim below is a proof.

The models come in two layers. A *specification* gives each critical section of the source as a
function from state to state, and runs as arbitrary interleavings of them. *Classes and methods*
follow the source's own form, updating fields in place with its branches and loops, and are proved to
compute those functions. The theorems quantify over all runs, all inputs and all faults.

| Files | What they model |
|---|---|
| `Mailbox`, `Events`, `Broker`, `EventBroker` | the bounded mailbox, the retention rule, and the event broker with its replay/live cut and overflow disconnect |
| `Forwarding`, `Forwarder`, `EventStream` | events climbing a tree of brokers, and their Server-Sent Events framing |
| `Mirror`, `ReadTask`, `EventPath` | the manager's event mirror across reconnections, the classification of a read child's task, and the whole way of an event from its session to the mirror |
| `Lifecycle`, `Transport` | reconciliation of synchronous responses with asynchronously drained events, and why the transport's numbers allow it |
| `Reporting` | the terminal report and acknowledgement protocol between child and parent |
| `Fleet`, `FleetManager`, `FleetRaces` | the manager's root and route index and the lifetime of its clients |
| `Incus`, `Provision`, `ProvisionChild`, `ProvisionRoot` | provisioning with rollback over a store whose operations may outlive the wait for them |
| `Wrappers` | the optional value the others share |
| `TreeValidation`, `Display`, `Teardown`, `PiRpc` | snapshot validation, bounded UTF-8 display, node teardown, calls over Pi's transport |

Histories (`history`, `accepted`, `delivered`, `held`, `draining`, `submitted`, `confirmed`, `deleted`, the counts of
`Teardown`) are bookkeeping that no code reads.

## What does not hold

Some promises hold only under a condition. Each is stated with its exact condition, and with a run or an
input that breaks it.

- Confluence of the lifecycle fails for readers, whose `Completed` phase absorbs:
  `Lifecycle.ReadersAgreeExactly` gives the condition on the wire, `Lifecycle.ReaderCounterexample` an input.
- An accepted report need not be acknowledged, and a child may succeed where CreateChild fails. An accepted
  report is acknowledged exactly when the endpoint is still open at its acknowledgement and the write works
  (`Reporting.AcceptedIsAcknowledgedExactly`), and a child's success is CreateChild's exactly when the close
  after the byte works (`Reporting.ChildSuccessFinishesExactly`). `Reporting.AcceptedMayGoUnacknowledged` and
  `Reporting.ChildMayOutliveCreation` are runs outside the two conditions.
- The manager's invariant depends on three things its lock does not enforce, and fails exactly when one of
  them does (`Fleet.StepKeepsInvExactly`): a snapshot loop re-commits under its own root ID, loops are
  started only for a registered handle, and a creator withdraws its handle only while no loop runs. The
  last two are broken by reachable runs. The comment at internal/manager/discovery.go:282-288 says a refused
  handle was never monitored; `FleetRaces.RefusedCreatorClosesUnderLoops` shows one that was, because the
  refusal is checked before `monitoring`.
- Rollback leaves a name behind only if the wait for that name's own creation timed out or its own cleanup
  failed (`Provision.RollbackSettles`). What is absent can then appear exactly when its creation is still
  pending (`Incus.AppearsExactly`); `ProvisionChild.SlowCopyOutlivesRollback` runs the provisioner into it.
- A node that is done shows the state it ended in unless it completed and is asked to stop afterwards: then it
  reports stopping for good (`Teardown.DoneShowsExactly`, `Teardown.CompletedThenStopped`).

## Model

| member | source | states |
|---|---|---|
| `Forwarding.ViewHasNoHoles` | internal/supervisor/events.go:119-160 | In every reachable state of a supervisor tree of any depth, what any broker's history says of any session below it is a hole-free, duplicate-free interval of that session's own publications, numbered lo+1, lo+2, ... in source order |
| `Forwarding.ViewIsInterval` | internal/supervisor/children.go:270-313 | The same by induction on the distance between the two nodes, from the invariant of one state |
| `Forwarding.RootSeesAll` | internal/supervisor/children.go:270-313 | In every run each node ever created lies under the root, so the root's view covers every session |
| `Forwarding.ShapeOfRun` | internal/supervisor/children.go:260-313 | Every run keeps parents and depths consistent, the shape conditions the view theorem names |
| `Forwarding.HandoverKeepsLink` | internal/supervisor/events.go:139-160 | Republishing one event keeps the parent's copies equal to a prefix of the child's stream |
| `Forwarding.IdleLinkIsCaughtUp` | internal/supervisor/children.go:286-311 | An open link with nothing under way has republished everything its forwarder was handed |
| `Forwarding.LinkCatchesUp` | internal/supervisor/children.go:286-311 | From every state of the tree a live link can be run, by its own steps and the parent's publications alone, until the parent has republished all the child's forwarder was handed |
| `Forwarding.EveryLinkDelivers` | internal/supervisor/children.go:282-311 | From every reachable state in which a child is between publications and its forwarder registered and up, the tree can go on so that the parent has republished the child's whole history since the subscription |
| `Forwarding.StepKeepsInv` | internal/supervisor/children.go:270-313 | Every publication, broker step, attachment, hand-over and severed link keeps the tree's invariant |
| `Forwarding.EveryRunKeepsInv` | internal/supervisor/children.go:270-313 | So does every interleaving of them |
| `EventPath.MirrorShowsOwnPublications` | internal/manager/mirror.go:36-56 | End to end, in every run of a tree of supervisors: whichever subscriptions of the root's broker the manager read and wherever each connection broke, the mirror accepted published events in increasing order and knows whether one is missing; while none is, what it accepted of any session is a hole-free interval of that session's own publications |
| `EventPath.ReceivedIsInterval` | internal/manager/monitor.go:228-268 | What a connection received, its text cut anywhere, is an interval of the root broker's final history |
| `EventPath.CarriedIsPrefix` | internal/supervisorapi/client.go:264-305 | A connection that breaks anywhere hands over a prefix of the events written to it, an unbroken one all of them |
| `EventPath.RunExtends` | internal/supervisor/events.go:221-235 | In every run of the tree each broker's history only grows |
| `Forwarder.ForwardChildEvents` | internal/supervisor/children.go:282-311 | The loop appends the replay and then the live events to the parent's history, numbers aside, or nothing to a closed broker |
| `Forwarder.ForwardAll` | internal/supervisor/children.go:282-284 | Forwarding a list of events appends exactly that list, in order |
| `Broker.StreamIsInterval` | internal/supervisor/events.go:162-195 | In every run, what a subscriber was handed, replay first, is a hole-free interval of the publication history that starts at the oldest event retained at its subscription |
| `Broker.RegisteredMissNothing` | internal/supervisor/events.go:261-283 | Between publications a registered subscriber has, or has queued, everything from that start to the end of the history |
| `Broker.RegisteredCatchesUp` | internal/supervisor/events.go:162-283 | In every reachable state between publications, a registered subscriber that receives as often as its queue is long holds the history from its start to its end |
| `Broker.PublicationSettles` | internal/supervisor/events.go:261-283 | From every reachable state the publication under way can be finished by its own steps, whatever the subscribers do |
| `Broker.RefusalDooms` | internal/supervisor/events.go:261-283 | A refused delivery accepts nothing and leaves the subscriber to be dropped and aborted |
| `Broker.DoomedEnds` | internal/supervisor/events.go:261-292 | In every continuation such a subscriber accepts nothing more, is unregistered and aborted by the time the publish lock is free, and is handed nothing after its abort: its stream ends, it never skips |
| `Broker.SeveredStaysSevered` | internal/supervisor/events.go:285-292 | A subscriber no publication will reach again accepts nothing in any continuation |
| `Broker.StepKeepsInv` | internal/supervisor/events.go:119-292 | Each critical section keeps: the ring is the longest fitting suffix of the history with an exact byte counter, histories and source numbers are contiguous, every subscription is an interval of the history |
| `Broker.EveryRunKeepsInv` | internal/supervisor/events.go:119-292 | Every interleaving of critical sections keeps all of that |
| `Broker.ForwardAppends` | internal/supervisor/events.go:139-160 | Forwarding appends the source's event under the next sequence number and changes no subscription yet |
| `Broker.QuietStepGrowsStream` | internal/supervisor/events.go:162-292 | No step but a publication changes the history, and none takes back what a receiver was handed |
| `EventBrokers.EventBroker.RetainLocked` | internal/supervisor/events.go:221-235 | The in-place append and eviction produce the retained state of the specification, with the next sequence number |
| `EventBrokers.EventBroker.Evict` | internal/supervisor/events.go:228-233 | The eviction loop leaves the longest fitting suffix and its exact size, and never indexes an empty ring |
| `EventBrokers.EventBroker.PublishLocal` | internal/supervisor/events.go:119-137 | The event gets the next broker and source numbers, the source number being the count of the session's own publications; each registered subscriber is served it or dropped; a closed broker changes nothing |
| `EventBrokers.EventBroker.Forward` | internal/supervisor/events.go:139-160 | A forwarded event keeps its session, source number, kind and payload; each registered subscriber is served it or dropped |
| `EventBrokers.EventBroker.Deliver` | internal/supervisor/events.go:261-283 | Exactly the subscribers of the snapshot are offered the event; exactly those that refuse are unregistered and aborted |
| `EventBrokers.EventBroker.Subscribe` | internal/supervisor/events.go:162-195 | The replay is the ring at the cut, under a fresh id; a closed broker gives an empty, closed subscription |
| `EventBrokers.EventBroker.RemoveSubscriber` | internal/supervisor/events.go:285-292 | Afterwards the subscriber is unregistered and its mailbox aborted |
| `EventBrokers.EventBroker.Close` | internal/supervisor/events.go:199-219 | Every registered subscription is left to drain, none is registered, the history is untouched; a second call changes nothing |
| `EventBrokers.EventBroker.SourceBoundary` | internal/supervisor/events.go:244-251 | For a session nobody forwards, the boundary is the number of its publications so far |
| `Events.LongestFitIsLongest` | internal/supervisor/events.go:221-240 | The retained suffix fits both caps and no longer suffix does |
| `Events.LongestFitAppend` | internal/supervisor/events.go:221-235 | Evicting after every publication retains what evicting once from the whole history would |
| `Events.CapBoundsCharacters` | internal/supervisor/events.go:221-242 | A byte cap bounds everything the retained events carry, and their number |
| `Events.ProjectInterval` | internal/supervisor/events.go:119-160 | Projecting an interval of a history onto a session is an interval of the projection, with its bounds |
| `Mailboxes.EveryRunKeepsInv` | internal/eventmailbox/mailbox.go:72-173 | In every reachable state retained bytes are the queue's sum, the limits hold, and before Abort delivered events followed by the queue are the accepted ones in order |
| `Mailboxes.StepKeepsInv` | internal/eventmailbox/mailbox.go:72-204 | One lock hold keeps it |
| `Mailboxes.NothingAfterAbort` | internal/eventmailbox/mailbox.go:107-173 | After Abort nothing is accepted or delivered in any continuation |
| `Mailboxes.CloseDeliversBeforeClosing` | internal/eventmailbox/mailbox.go:98-173 | After Close nothing is accepted, and without Abort the channel closes only when everything accepted has been delivered |
| `Mailboxes.CloseFinishes` | internal/eventmailbox/mailbox.go:120-173 | A draining mailbox with a willing receiver delivers everything and closes in queue length plus one rounds |
| `Mailboxes.WillingReceiverGetsAll` | internal/eventmailbox/mailbox.go:120-173 | From every state that was not aborted, open or draining, as many willing rounds as there are queued entries deliver everything accepted |
| `Mailboxes.EveryRunCanDeliver` | internal/eventmailbox/mailbox.go:72-173 | So from every reachable state |
| `Mailboxes.EveryCloseFinishes` | internal/eventmailbox/mailbox.go:98-173 | Close, from every reachable open state, ends in a closed channel with everything accepted delivered |
| `Mailboxes.Mailbox.Send` | internal/eventmailbox/mailbox.go:72-96 | A send is accepted if and only if it is not negative, the mailbox is open and the longer queue fits both limits; otherwise nothing changes |
| `Mailboxes.Mailbox.Close` | internal/eventmailbox/mailbox.go:98-105 | Close starts draining an open mailbox and leaves any other as it is |
| `Mailboxes.Mailbox.Abort` | internal/eventmailbox/mailbox.go:107-118 | Abort empties the queue for good and takes back nothing delivered |
| `Mailboxes.Mailbox.Dispatch` | internal/eventmailbox/mailbox.go:120-173 | Unless aborted, a round with a willing receiver delivers exactly the head of the queue and keeps the rest, whether the mailbox is open or draining; an unwilling receiver changes nothing; an empty draining queue or an abort finishes the channel |
| `Mailboxes.New` | internal/eventmailbox/mailbox.go:51-67 | A mailbox is made exactly for limits that are not negative and bound something |
| `Mirrors.ReconnectsKeepInv` | internal/manager/mirror.go:36-56 | Across any number of reconnections, accepted events are published events in strictly increasing order, and a recorded gap names the first missing one |
| `Mirrors.GapMeansMissing` | internal/manager/mirror.go:36-56 | No gap is recorded if and only if the accepted events are exactly the first lastSeq published ones |
| `Mirrors.MirrorOfRun` | internal/manager/monitor.go:228-268 | Both, joined to every run of the broker the connections were served from |
| `Mirrors.ReplayCatchesUp` | internal/manager/monitor.go:228-243 | A replay that reaches back to the mirror's position brings it up to the whole history without a gap |
| `Mirrors.EventMirror.Accept` | internal/manager/mirror.go:36-56 | An event is accepted if and only if it has a session and a kind, valid JSON if it has a payload, and a sequence number above lastSeq; accepted, it becomes the last one, a jump is recorded as the gap, and the retained events are the longest fitting suffix; otherwise nothing changes |
| `Mirrors.EventMirror.Evict` | internal/manager/mirror.go:94-105 | The loop leaves the longest fitting suffix and its exact size |
| `Mirrors.EventMirror.EventsFor` | internal/manager/mirror.go:69-77 | Exactly the retained events of one session, in order |
| `Mirrors.EventMirror.ConsumeSubscription` | internal/manager/monitor.go:228-268 | Replay and live events are folded in order, and progress is reported exactly when lastSeq grew |
| `ReadTask.RunReadTask` | internal/supervisor/result.go:31-104 | Each verdict, exactly, over the relevant events of replay and live stream, however they are split: undecided if and only if nothing decides; otherwise by the first event that does, and at a settlement by the stop reason of the last assistant message_end before it |
| `ReadTask.VerdictExactly` | internal/supervisor/result.go:80-103 | For every list of events: let k be the first that does not decode, is an extension_error or an agent_settled. Decode failure and extension error if and only if k is one; settled exactly when the last assistant message_end before k says stop, aborted exactly for aborted, a bad stop exactly for error and length, no final message for any other reason or none; undecided exactly when there is no k |
| `ReadTask.RelevantExactly` | internal/supervisor/result.go:66-68 | The events that are not skipped are exactly the session's own pi events past the boundary, in order |
| `ReadTask.VerdictOfRun` | internal/supervisor/result.go:31-104 | In every run of the broker, the verdict on what a subscriber was handed is the verdict on the session's own publications after the source boundary, whatever descendants' events interleave |
| `ReadTask.VerdictIsOfGeneration` | internal/supervisor/result.go:31-79 | The same for any history, subscription cut and boundary at or after the cut |
| `ReadTask.StreamHoldsGeneration` | internal/supervisor/events.go:244-251 | What the loop keeps of a stream is what it would keep of the publications after the boundary alone |
| `ReadTask.VerdictIsFinal` | internal/supervisor/result.go:80-103 | A decision once reached is not changed by later events |
| `EventStream.ReadInvertsWrite` | internal/supervisorapi/client.go:264-295 | Parsing what was written yields the same bodies in order, for every kind string, when bodies are newline-free, brace-delimited and within the bound (sections 9.2.5 and 9.2.6 of the WHATWG HTML Living Standard) |
| `EventStream.CutStreamYieldsPrefix` | internal/supervisorapi/client.go:264-305 | A stream cut at any character yields a prefix of the bodies and no failure: nothing is garbled, skipped or invented |
| `EventStream.ReadFrame` | internal/supervisorapi/client.go:193-206 | One whole frame yields exactly its body, whatever follows |
| `EventStream.ReadCutFrame` | internal/supervisorapi/client.go:264-305 | A frame cut short yields nothing and is no failure |
| `EventStream.ServeEvents` | internal/supervisorapi/events.go:62-91 | The two writing loops produce the frames of the replay and then of the live events |
| `EventStream.ReadStream` | internal/supervisorapi/client.go:264-305 | The scanner loop computes the line-by-line specification, oversize failure included |
| `EventStream.ReadExactly` | internal/supervisorapi/client.go:264-305 | For every list of lines, well-formed or not: the reader fails exactly when a line, or the event it belongs to, exceeds the bound, and up to there every blank line hands on the values of the data lines since the blank line before, joined by line feeds, if there is anything to hand on |
| `EventStream.AfterBlankExactly` | internal/supervisorapi/client.go:270-283 | The lines an event consists of are those after the last blank line |
| `Lifecycle.LifecycleIsDecided` | internal/supervisor/local.go:120-131 | For roots and writers, and readers that never settle, at every moment after Bind of every interleaving the phase is fixed by the greatest drained activity against the greatest reconciled response |
| `Lifecycle.Confluence` | internal/supervisor/local.go:174-187 | Once every record is processed, any two schedules leave such a session in the same state |
| `Lifecycle.EndsAsInWireOrder` | internal/supervisor/local.go:174-187 | Every complete schedule ends in the state of processing all records in wire order |
| `Lifecycle.WireOrderIsSchedule` | internal/supervisor/local.go:104-131 | The wire order, which always takes the least unprocessed number, is a complete schedule with numbers that never go down |
| `Lifecycle.ReadersEndAsInWireOrderExactly` | internal/supervisor/local.go:294-318 | For readers every complete schedule ends in the wire order's phase if and only if the reader's condition holds |
| `Lifecycle.ReadersAgreeExactly` | internal/supervisor/local.go:294-318 | For readers, whose Completed phase absorbs, all schedules agree if and only if no settlement follows Bind or the last record is a settlement later than Bind and every response |
| `Lifecycle.ReaderCounterexample` | internal/supervisor/local.go:263-274 | A reader's settlement before its prompt response on the wire breaks confluence |
| `Lifecycle.StepKeepsDecision` | internal/supervisor/local.go:263-274 | One step keeps the decision |
| `Lifecycle.StepKeepsPosition` | internal/supervisor/local.go:174-187 | One step keeps the drain position and the latest response recorded |
| `Lifecycle.SettlesLastCompletes` | internal/supervisor/local.go:294-318 | A reader whose wire ends in a settlement later than everything completes under every schedule |
| `Lifecycle.EventsFirstCompletes` | internal/supervisor/local.go:294-318 | A reader with a settlement after Bind completes when it drains first |
| `Lifecycle.ResponsesFirstStaysOpen` | internal/supervisor/local.go:174-187 | A reader whose events all precede some response does not complete when it reconciles first |
| `Lifecycle.BindLateStaysOpen` | internal/supervisor/local.go:120-131 | A reader whose last event is a start does not complete when it binds last |
| `Lifecycle.OverStaysOver` | internal/supervisor/lifecycle.go:24-43 | No late activity, response, handoff or transport end revives a completed, failed, stopping or stopped session |
| `Lifecycle.LocalSession.Transition` | internal/supervisor/lifecycle.go:55-64 | A transition happens exactly when the table allows it |
| `Lifecycle.LocalSession.ApplyActivityLocked` | internal/supervisor/local.go:294-318 | A start makes a ready or awaiting session run; a settlement turns a running root ready, and a ready or running reader completed and writer awaiting handoff; nothing else moves, and the ignored transition errors cannot occur |
| `Lifecycle.LocalSession.MarkRunningLocked` | internal/supervisor/local.go:287-292 | Ready and awaiting handoff become running, nothing else moves |
| `Lifecycle.LocalSession.BindSection` | internal/supervisor/local.go:120-131 | Bind's last section, refused exactly when the session is neither starting nor running; a later activity decides the phase, else streaming, else ready |
| `Lifecycle.LocalSession.ReconcilePrompt` | internal/supervisor/local.go:174-187 | The response position only grows, and the session is made to run exactly when no drained activity is later than the response |
| `Lifecycle.LocalSession.HandleActivity` | internal/supervisor/local.go:263-274 | The drain position only grows, and the activity counts exactly when it is later than every response recorded |
| `Lifecycle.LocalSession.HandleRPCTermination` | internal/supervisor/local.go:277-285 | The transport's end fails exactly the four live phases |
| `Lifecycle.LocalSession.CompleteHandoff` | internal/supervisor/local.go:320-327 | A handoff completes exactly a running or awaiting session |
| `Lifecycle.LocalSession.BeginStop` | internal/supervisor/local.go:216-231 | Stopping is legal from every phase but stopped |
| `Lifecycle.LocalSession.EndStop` | internal/supervisor/local.go:232-239 | The final transition fails only if another stop made it first |
| `Reporting.ReportSuccessMeansAcceptance` | internal/supervisor/process/protocol.go:274-321 | In every run a terminal report returns success only if the parent ingested exactly that report, acceptance won the disposition and the pipe carried exactly the one byte |
| `Reporting.CancelledIsNeverAcknowledged` | internal/supervisor/children.go:152-173 | Once cancellation wins, no byte is ever written and no report ever succeeds |
| `Reporting.ClaimIsFinal` | internal/supervisor/children.go:152-173 | A disposition, once claimed, is final in every continuation |
| `Reporting.OneTerminalOneByte` | internal/supervisor/process/protocol.go:274-349 | The wire carries at most one terminal record, after all others, and at most one byte comes back |
| `Reporting.EveryRecordIsSound` | internal/supervisor/process/protocol.go:332-349 | In every run each whole record on the wire names a session, carries exactly the payload of its kind for that session, and fits the limit |
| `Reporting.FinishedMeansIntroduced` | internal/supervisor/node.go:355-449 | In every run CreateChild finishes only on its own child's ownership, readiness and terminal report, the first three records in that order |
| `Reporting.EndsExactly` | internal/supervisor/node.go:393-441 | In every run, how CreateChild ends without an acceptable message or claim: aborted exactly when a cancellation explains it, which before readiness is not asked, and failed otherwise; a record is ingested exactly when it is its child's terminal report |
| `Reporting.AcknowledgedIsWhatWasReported` | internal/supervisor/node.go:435-449 | What CreateChild acknowledged is the report the child's one terminal call wrote |
| `Reporting.UsedEndpointReleasesReporter` | internal/supervisor/process/protocol.go:291-321 | Whatever used the endpoint, or the parent's death, releases a waiting reporter, with success exactly on the one byte |
| `Reporting.UndisturbedReportSucceeds` | internal/supervisor/node.go:393-449 | Without interference, ingesting, claiming and acknowledging make the report succeed |
| `Reporting.AcknowledgeExactly` | internal/supervisor/process/spawn.go:331-362 | In every run, acknowledging an accepted report writes the byte if and only if the endpoint is still open and the write works, finishes CreateChild if and only if the close works too, and then a waiting reporter succeeds if and only if the byte is there |
| `Reporting.AcceptedIsAcknowledgedExactly` | internal/supervisor/node.go:435-449 | For every run with acceptance won and CreateChild over: there is the one moment of acknowledgement, and the byte was written if and only if the endpoint was open then and the write worked |
| `Reporting.ChildSuccessFinishesExactly` | internal/supervisor/node.go:443-449 | For every run in which the child's report succeeded, CreateChild finishes if and only if the close after the byte worked |
| `Reporting.OverIsFinal` | internal/supervisor/node.go:435-449 | Once CreateChild is over, its end, the pipe's bytes and the outcome of the claim never change |
| `Reporting.AcceptedMayGoUnacknowledged` | internal/supervisor/children.go:329-332 | A reachable run outside the condition: a losing canceller closes the endpoint of an accepted report |
| `Reporting.ChildMayOutliveCreation` | internal/supervisor/process/spawn.go:349-361 | A reachable run outside the condition: the child succeeds and CreateChild fails, the close after the byte having failed |
| `Reporting.StepKeepsInv` | internal/supervisor/process/spawn.go:302-377 | Every section of either party keeps the protocol's invariant |
| `Reporting.EveryRunKeepsInv` | internal/supervisor/process/spawn.go:302-377 | So does every run |
| `Reporting.Reporter.SendTerminal` | internal/supervisor/process/protocol.go:274-289 | At most one call passes the gate; it succeeds exactly if its record was written and the pipe held exactly the one byte |
| `Reporting.Reporter.SendNonterminal` | internal/supervisor/process/protocol.go:323-330 | Nothing is written once the gate is taken; success exactly for a valid message within the limit that was written while it was free |
| `Reporting.Reporter.SendWire` | internal/supervisor/process/protocol.go:332-349 | An invalid or oversize message is never written; a failed write may leave a torn record |
| `Reporting.Reporter.WaitForTerminalAck` | internal/supervisor/process/protocol.go:291-321 | Success exactly on one acknowledgement byte and the end of the pipe |
| `Reporting.Child.Ingest` | internal/supervisor/process/spawn.go:302-325 | A second terminal report is refused |
| `Reporting.Child.AcknowledgeTerminal` | internal/supervisor/process/spawn.go:331-362 | Success exactly for the pending report, an unused endpoint and a write and close that both worked; the byte is then in the pipe |
| `Reporting.Child.CloseTerminalAck` | internal/supervisor/process/spawn.go:364-377 | Afterwards the pipe's write end is closed, and no byte was added |
| `Reporting.ChildEntry.ClaimAccepted` | internal/supervisor/children.go:152-160 | Only the first claim wins |
| `Reporting.ChildEntry.ClaimCancelled` | internal/supervisor/children.go:165-173 | Only the first claim wins |
| `Fleet.StepKeepsInvExactly` | internal/manager/discovery.go:373-547 | Every manager step keeps the whole invariant (root IDs distinct, every route naming a registered root, routed sessions equal to the tree of each actionable root, every client closed at most once and after its loops) if and only if it is orderly: the three conditions the lock does not enforce |
| `Fleet.EveryOrderlyRunKeepsInv` | internal/manager/manager.go:433-492 | Every orderly run keeps it |
| `Fleet.ManagerRuns` | internal/manager/manager.go:433-492 | From a new manager on, along every orderly run, routes name registered roots and each client is closed at most once, with no loop left and out of the index |
| `Fleet.RouteNamesOneRoot` | internal/manager/discovery.go:398-401 | A route leads to exactly one registered root |
| `Fleet.CommitKeepsInv` | internal/manager/discovery.go:373-471 | A commit whose candidate names the handle's own root keeps the invariant, accepted or refused, by any branch |
| `Fleet.CommitRoutes` | internal/manager/discovery.go:417-461 | Session by session: an accepted commit routes its candidate, clears its own and the displaced root's routes and nothing else |
| `Fleet.CommitKeepsOtherRoots` | internal/manager/discovery.go:413-422 | No session of a root that stays is rerouted or lost |
| `Fleet.CommitShape` | internal/manager/discovery.go:427-471 | An accepted commit puts the right handle at the caller's path and releases the caller's handle |
| `Fleet.RecommitExactly` | internal/manager/monitor.go:119-130 | A self re-commit keeps the invariant if and only if the snapshot names the handle's own root, or the commit is refused |
| `Fleet.ForeignRecommitBreaksInv` | internal/manager/monitor.go:119-130 | Every accepted self re-commit under a foreign root ID breaks it |
| `Fleet.MonitorExactly` | internal/manager/monitor.go:42-66 | Starting loops keeps the invariant if and only if the handle is registered |
| `Fleet.WithdrawExactly` | internal/manager/discovery.go:497-507 | Withdrawing a handle keeps it if and only if none of its loops runs |
| `Fleet.GoneStaysGone` | internal/manager/discovery.go:383-389 | In every orderly run an evicted handle never re-enters the index, its client is closed at most once, and once closed it has no loop |
| `Fleet.NoLoopAfterClose` | internal/manager/manager.go:445-473 | Once Close has begun no step adds a monitor loop |
| `Fleet.QuiescedAdmitsNothing` | internal/manager/discovery.go:377-381 | Once the manager quiesced, no continuation of any kind, orderly or not, registers another socket |
| `Fleet.CloseClientsKeepsInv` | internal/manager/manager.go:475-492 | After the wait, every registered client is closed exactly once and the index is empty |
| `Fleet.EvictedKeepsInv` | internal/manager/discovery.go:518-529 | An eviction keeps the index of all others and marks the handle for draining |
| `Fleet.DrainedKeepsInv` | internal/manager/discovery.go:484-492 | Closing an evicted handle's client after its loops keeps the invariant |
| `Fleet.RetainKeepsInv` | internal/manager/monitor.go:301-308 | A retained tree, not actionable, leaves the route agreement intact |
| `Fleet.MonitoredOnce` | internal/manager/monitor.go:42-66 | Starting a handle's loops starts two, touches no other handle, and asking again changes nothing |
| `Fleet.TouchedNameStays` | internal/manager/discovery.go:459-465 | No step but a rename changes a name a user set or cleared, commits with a pending launch name included |
| `FleetRaces.LateMonitorResurrects` | internal/manager/monitor.go:32-66 | A reachable run: a handle first monitored after eviction runs loops over a closed client and is registered again |
| `FleetRaces.RefusedCreatorClosesUnderLoops` | internal/manager/discovery.go:282-288 | A reachable run: a creator refused because the manager quiesced withdraws a handle another caller already monitors, closing its client under two running loops |
| `FleetManager.Manager.CommitTreeWithAdmission` | internal/manager/discovery.go:373-471 | Committed if and only if the manager is neither quiesced nor closed, the handle's scope is not cancelled, its root is registered under no other socket, the socket's root did not change and no candidate session is routed to a third root; then which handle takes the path, with which tree and name, and who is displaced, closed and cancelled; a rejected commit changes nothing |
| `FleetManager.Manager.CheckCommit` | internal/manager/discovery.go:374-422 | Each error has its condition over roots and routes, in the order of the source, and no error means that none of them holds |
| `FleetManager.Manager.HasDuplicateRoot` | internal/manager/discovery.go:394-401 | The loop finds a duplicate exactly when the root is registered under another socket |
| `FleetManager.Manager.HasRouteConflict` | internal/manager/discovery.go:417-421 | The loop finds a conflict exactly when a candidate session is routed to a third root |
| `FleetManager.Manager.Install` | internal/manager/discovery.go:454-470 | Old routes out, candidate in, tree, actionability and name stored, path taken |
| `FleetManager.Manager.RemoveRoutesLocked` | internal/manager/discovery.go:535-547 | Exactly the routes of that root are removed |
| `FleetManager.Manager.MonitorRootLocked` | internal/manager/monitor.go:42-66 | Loops start exactly once and only before closing |
| `FleetManager.Manager.RemoveRootLocked` | internal/manager/discovery.go:518-529 | The handle leaves the index with its routes and is told to stop |
| `FleetManager.Manager.RemoveReplacedSocket` | internal/manager/discovery.go:167-175 | Only a handle of another socket generation is removed, with its routes, and told to stop; otherwise nothing changes |
| `FleetManager.Manager.RemoveRootBySocketPath` | internal/manager/discovery.go:497-507 | Only the very handle registered at the path is withdrawn, with its routes, and closed once; otherwise nothing changes |
| `FleetManager.Manager.UpdateRetainedTree` | internal/manager/monitor.go:301-308 | Only a registered handle's tree and actionability change, no route does |
| `FleetManager.Manager.DrainAndCloseDisplaced` | internal/manager/discovery.go:484-492 | After the wait for its loops the client is closed once |
| `FleetManager.Manager.Quiesce` | internal/manager/manager.go:433-441 | Admission closes |
| `FleetManager.Manager.MarkClosed` | internal/manager/manager.go:447-455 | Close's hold of the lock: from here on no loop is added |
| `FleetManager.Manager.CancelAll` | internal/manager/manager.go:456 | Every handle's scope is cancelled at once |
| `FleetManager.Manager.CloseClients` | internal/manager/manager.go:475-492 | The loop closes every registered client once and empties the index; a second call does nothing |
| `ProvisionChild.ChildProvisioner.Attempt` | internal/supervisor/provision/child.go:147-322 | At every exit the ownership record covers everything submitted and every pending creation is among the retained errors |
| `ProvisionChild.ChildProvisioner.ProvisionChild` | internal/supervisor/provision/child.go:118-323 | Whatever step fails, before or after submission: each of the two names, if this call submitted it, is gone with nothing pending that could bring it back, unless the wait for its own creation timed out or its own cleanup failed; every other name is as before and only submitted names were deleted. Ready means that the volume was copied, the instance created, its devices changed and the instance started, in that order and nothing else save one more change for a start that was retried, and that it is active, the workspace prepared and the RPC address known; nothing is submitted before the six checks passed. With fresh names and no fault the child is ready; when only the copy's two waits are slow, no cleanup error is reported and the copy is still pending |
| `ProvisionChild.ChildProvisioner.Rollback` | internal/supervisor/provision/child.go:132-145 | The deferred cleanup settles each claimed name by itself, and reports an unawaited operation only for a slow reply |
| `ProvisionChild.ChildProvisioner.CleanupOwned` | internal/supervisor/provision/child.go:381-414 | Everything submitted is gone, resource by resource, unless its own cleanup failed; nothing else is touched; a failure is reported only if some reply was not fine or a start was still pending |
| `ProvisionChild.ChildProvisioner.Destroy` | internal/supervisor/provision/child.go:363-379 | Success means both names are gone, whatever was pending before: only a pending creation can bring the instance back, and only the two names were deleted |
| `ProvisionChild.SlowCopyOutlivesRollback` | internal/supervisor/provision/child.go:207-212 | The run that needs the exemption: a slow copy, a wait that times out, a probe that finds nothing; no cleanup error, and the volume may appear |
| `ProvisionChild.ChildProvisioner.CopyVolume` | internal/supervisor/provision/child.go:207-218 | A copy is recorded exactly as far as it was submitted and confirmed |
| `ProvisionChild.ChildProvisioner.CopyInstance` | internal/supervisor/provision/child.go:220-231 | The same for the instance |
| `ProvisionChild.ChildProvisioner.DeleteOwnedInstance` | internal/supervisor/provision/child.go:416-440 | Without a reported failure the instance is gone, running or not |
| `ProvisionChild.ChildProvisioner.DeleteOwnedVolume` | internal/supervisor/provision/child.go:389-412 | The same for the volume, probed first when unconfirmed |
| `ProvisionChild.ChildProvisioner.Configure` | internal/supervisor/provision/child.go:233-297 | Success means the devices were changed; updates create and delete nothing |
| `ProvisionChild.ChildProvisioner.Launch` | internal/supervisor/provision/child.go:299-322 | Success means the instance was started and is active, by the first start or the one retry after a duplicate MAC; nothing is created or deleted |
| `ProvisionChild.ChildProvisioner.RegenerateNICMACAndRetryStart` | internal/supervisor/provision/child.go:335-361 | Success means the device was changed and then the start confirmed; the retry creates and deletes nothing, whichever of its calls fails |
| `ProvisionRoot.RootProvisioner.ProvisionRoot` | internal/supervisor/provision/root.go:105-300 | The promise of ProvisionChild, for roots: what ready means, with ten checks before the first submission, and how a failure settles each name |
| `ProvisionRoot.RootProvisioner.Attempt` | internal/supervisor/provision/root.go:155-300 | At every exit the owned flags cover everything submitted and every pending creation is among the retained errors |
| `ProvisionRoot.RootProvisioner.StopOwned` | internal/supervisor/provision/root.go:327-346 | Probing and stopping delete nothing, and an instance is given up only when it is absent |
| `ProvisionRoot.RootProvisioner.CleanupRoot` | internal/supervisor/provision/root.go:326-370 | Everything owned is gone, resource by resource, unless its own cleanup failed, and nothing else is touched; a failure is reported only for a bad reply or an instance the record does not know to be running |
| `ProvisionRoot.RootProvisioner.Destroy` | internal/supervisor/provision/root.go:302-317 | The promise of the child's Destroy, an unreachable server being a failure |
| `Provision.CreatedVolume` | internal/supervisor/provision/child.go:207-215 | Whatever a copy did, the record made of it is right |
| `Provision.CreatedInstance` | internal/supervisor/provision/child.go:220-228 | The same for the instance |
| `Provision.AwaitAll` | internal/supervisor/provision/child.go:138-142 | An operation whose wait did not time out is no longer pending; a timeout is reported only for a slow reply |
| `Provision.RollbackSettles` | internal/supervisor/provision/child.go:128-145 | Record, waiting and cleanup together settle each name, exempt only by its own creation's wait or its own cleanup |
| `Provision.SettledForGood` | internal/supervisor/provision/child.go:128-145 | After a settled failure no further ending of pending operations makes a resource appear or vanish |
| `Incus.AppearsExactly` | internal/incusclient/client.go:293-313 | Over every sequence of further endings, an absent resource can appear if and only if a creation of it is pending |
| `Incus.VanishesExactly` | internal/incusclient/client.go:293-313 | A present resource can vanish if and only if a removal of it is pending |
| `Provision.Ownership.RecordVolumeConfirmed` | internal/supervisor/provision/ownership.go:44-50 | Only a submitted volume is confirmed |
| `Provision.Ownership.RecordInstanceConfirmed` | internal/supervisor/provision/ownership.go:29-35 | Only a submitted instance is confirmed |
| `TreeValidation.NormalizeSorts` | internal/manager/tree.go:93-97 | Every list of children of the normalised tree is sorted |
| `TreeValidation.ValidateRootTree` | internal/manager/tree.go:46-108 | The worklist terminates, accepts exactly the recursively well-formed trees, routes exactly their session IDs to the root, and the tree whose nodes it sorted one by one on its way is the normalised one |
| `TreeValidation.WellFormedExactly` | internal/manager/tree.go:46-112 | Place by place: the top node says it is a root, every node anywhere has a session ID that is one safe path segment, names the root, is in a known lifecycle, and its children name it as their parent and are no roots; no two places hold the same ID |
| `TreeValidation.LoopSteps` | internal/manager/tree.go:65-105 | One visit keeps the loop's invariant: what no pointer on the stack leads to is sorted, the rest is the original up to sorting, and the work shrinks |
| `TreeValidation.SortKeepsNormal` | internal/manager/tree.go:93-97 | Sorting the children of any one node through its pointer does not change the normal form |
| `TreeValidation.NormalizeTwice` | internal/manager/tree.go:93-97 | Normalisation is a fixed point |
| `TreeValidation.NormalizeKeepsForest` | internal/manager/tree.go:93-97 | It keeps the session IDs, with multiplicity, and every node's fit |
| `TreeValidation.NormalizeKeepsWellFormed` | internal/manager/tree.go:46-108 | The normalised tree validates exactly when the original does |
| `TreeValidation.InOrderSorts` | internal/manager/tree.go:93-97 | The order of siblings is a sorted permutation of them |
| `TreeValidation.AtMostExactly` | internal/manager/tree.go:94-96 | The order compared with is the lexicographic one |
| `TreeValidation.SortedPermutationIsUnique` | internal/manager/tree.go:93-97 | With distinct IDs any sorted permutation is that one, so the sort need not be stable |
| `TreeValidation.FindsExactly` | internal/manager/manager.go:403-413 | findNode succeeds exactly on the session IDs of the tree, with a node of that ID |
| `TreeValidation.FoundIsWithin` | internal/manager/manager.go:403-413 | The subtree found holds only sessions of the tree |
| `TreeValidation.FindNormalized` | internal/manager/manager.go:403-413 | Where an ID occurs once, looking it up in the normalised tree gives its own subtree, normalised |
| `TreeValidation.ValidatedLookup` | internal/manager/manager.go:403-413 | After validation findNode answers for exactly the routed sessions, with the right node |
| `TreeValidation.LookupExactly` | internal/manager/manager.go:403-413 | In a well-formed tree the session at any place is found by its ID, as it stands there |
| `Display.BoundedDisplay` | internal/manager/projection.go:233-249 | Only longer strings are truncated; the result never exceeds the cap, is valid UTF-8, and is the longest valid prefix within the cut plus the marker; of valid input at most three bytes before the cut are dropped (section 4 of RFC 3629) |
| `Display.ValidIsEncoded` | internal/manager/projection.go:244-247 | Every string taken for valid is the encoding of a list of Unicode scalar values (section 3 of RFC 3629) |
| `Display.EncodedIsValid` | internal/manager/projection.go:244-247 | And the encoding of every such list is taken for valid |
| `Display.CharIsEncoded` | internal/manager/projection.go:244-247 | A character is the shortest encoding of exactly one scalar value |
| `Display.LongestValidPrefix` | internal/manager/projection.go:244-247 | The shrinking loop finds the longest valid prefix |
| `Display.BoundaryNear` | internal/manager/projection.go:244-247 | A valid string has a valid prefix at most three bytes before any cut |
| `Display.ValidCuts` | internal/manager/projection.go:244-247 | A valid prefix of a valid string ends at a character boundary: the rest is valid too |
| `Display.ValidConcat` | internal/manager/projection.go:248 | Valid strings concatenate to a valid string |
| `Teardown.DestroyedExactlyOnce` | internal/supervisor/node.go:684-730 | In every run of Start, Stop, transport death, watchdog and child creation: what was provisioned is destroyed at most once, only after every registered child's cleanup returned, and exactly once before the node is done |
| `Teardown.EveryInternalRunReachesDone` | internal/supervisor/stop.go:19-34 | However a stopped node's internal steps are scheduled and answered, there are at most as many as its measure, and when none is left the node is done with everything it provisioned destroyed |
| `Teardown.InternalStepsDescend` | internal/supervisor/stop.go:29-34 | Every internal step that does anything brings the node strictly closer, whoever takes it |
| `Teardown.StopReachesDone` | internal/supervisor/stop.go:19-34 | From every reachable state such a schedule exists, so there is no deadlock |
| `Teardown.BarrierHolds` | internal/supervisor/node.go:684-691 | Once teardown has begun no child is registered and nothing is provisioned, in any continuation |
| `Teardown.FirstEntranceDecides` | internal/supervisor/node.go:680-730 | In every run the first entrance into teardown decides what the node ends as: failed for a failed start, stopped for a stop, and for the transport's end or the watchdog completed, or failed without an accepted handoff; whatever comes later leaves that alone, and a node that is done shows it, save for a stop after a completion |
| `Teardown.DoneShowsExactly` | internal/supervisor/node.go:657-664 | A node that is done keeps its state for good, and takes stopping instead if and only if it completed and is asked to stop afterwards |
| `Teardown.CompletedThenStopped` | internal/supervisor/node.go:657-664 | A run of the exception: a completed node, its teardown over, that reports stopping for good |
| `Teardown.StopMoves` | internal/supervisor/stop.go:29-34 | While it is not done, some internal step brings it strictly closer |
| `Teardown.StepKeepsInv` | internal/supervisor/node.go:136-250 | Every critical section keeps the node's invariant |
| `Teardown.EveryRunKeepsInv` | internal/supervisor/node.go:609-730 | So does every run |
| `Teardown.Node.Start` | internal/supervisor/node.go:136-149 | Start is accepted once, and not after a stop |
| `Teardown.Node.Provisioned` | internal/supervisor/node.go:177-191 | The provisioner's result is published, and the stop observed, in one section |
| `Teardown.Node.Connected` | internal/supervisor/node.go:192-250 | A failed connection under a stop is left to the stop, every other failure is Start's; the watcher runs exactly when no stop was asked for |
| `Teardown.Node.RequestStop` | internal/supervisor/node.go:657-678 | A stop closes admission, settles startup that never began, and starts the finaliser once |
| `Teardown.Node.EnterFinish` | internal/supervisor/node.go:684-692 | Only the first caller runs teardown, under its own terminal state; it closes admission before reading the registry |
| `Teardown.Node.WatchRPC` | internal/supervisor/node.go:609-624 | The watcher yields to a requested stop, and otherwise ends the node as completed after an accepted handoff and failed without one |
| `Teardown.Node.RegisterChild` | internal/supervisor/node.go:325-349 | A child is registered exactly when admission is open, resources are there and the ID is free |
| `PiRpc.NoWaiterStranded` | internal/supervisor/pirpc/client.go:102-145 | In every reachable state a call that waits is owed exactly one answer, in exactly one place: pending, in one sender's hands, or buffered; after termination it is buffered |
| `PiRpc.NoSendBlocks` | internal/supervisor/pirpc/client.go:237-248 | No send of a result ever finds the channel full |
| `PiRpc.AnswerIsOwn` | internal/supervisor/pirpc/client.go:217-220 | Two calls are never answered with the same wire position |
| `PiRpc.LaterCallLaterNumber` | internal/supervisor/pirpc/client.go:185-235 | A call made after another was answered is answered from a later position of the wire |
| `PiRpc.ResponseAnswersItsCall` | internal/supervisor/pirpc/client.go:185-248 | In every reachable state, the response to a call that waits takes it out of the pending map, gets the next number of the wire, is sent to it and received by it |
| `PiRpc.OtherRecordsGoToEvents` | internal/supervisor/pirpc/client.go:185-243 | Every other record, the late response to a cancelled call included, goes to the events under the next number and changes nothing else |
| `PiRpc.TerminationAnswersEveryCall` | internal/supervisor/pirpc/client.go:306-323 | In every reachable state termination answers a call that waits with the error |
| `PiRpc.CancelledIsNotPending` | internal/supervisor/pirpc/client.go:134-145 | A call that gives up is out of the pending map |
| `Transport.WireIsWellNumbered` | internal/supervisor/local.go:97-131 | The transport's numbers satisfy what the reconciliation assumes: in every run the numbers of events, of Bind and of prompts called after Bind returned are distinct, increasing on the wire, the prompts' past Bind's |
| `PiRpc.ClosedTakesNoCall` | internal/supervisor/pirpc/client.go:113-122 | A closed client takes no call and owes nothing new |
| `PiRpc.StepKeepsInv` | internal/supervisor/pirpc/client.go:102-323 | Every critical section and channel operation keeps the invariant |
| `PiRpc.EveryRunKeepsInv` | internal/supervisor/pirpc/client.go:102-323 | So does every run |
| `PiRpc.Client.FailPending` | internal/supervisor/pirpc/client.go:319-321 | Every call that was pending at termination gets exactly the error, no other channel changes |
| `PiRpc.Client.Register` | internal/supervisor/pirpc/client.go:111-123 | A call is registered under a fresh ID unless the client is closed |
| `PiRpc.Client.DispatchResponse` | internal/supervisor/pirpc/client.go:237-243 | A pending call's response takes it out of the map, is what the reader holds, and is the destination of the record; any other goes to the events and changes nothing else |
| `PiRpc.Client.Terminate` | internal/supervisor/pirpc/client.go:306-317 | The pending calls are taken over exactly once |

## Left out

- Sequence numbers, byte counts and identifiers are unbounded; the source's uint64 and int wrap-around is not modelled.
- Characters stand for bytes in `EventStream`, and white space there and in `Reporting` is the ASCII kind; `Display` works on bytes.
- JSON encoding is not modelled: payloads arrive decoded, validity of a payload and decoding of a Pi record are parameters, and equality of messages stands for equality of their encodings.
- The mailboxes inside `EventBroker` are values of `Mailboxes.State` rather than objects; the mailbox class itself is proved separately.
- Time: tickers, backoff, grace periods and deadlines are arbitrary steps. Nothing is claimed about when they happen.
- The Incus server is an oracle that answers arbitrarily but truthfully: a reported absence is an absence, a refused request has no effect. A request that the server accepted while the client saw a plain failure is not modelled.
- ProvisionChild.ChildProvisioner.ProvisionChild: the read-only calls and local checks between two server changes are counted rather than named one by one, the after-step hook is absent, and the store is what this session's client sees: no operation on the session's two names is pending beforehand, as for newly generated names, and other clients do not touch them.
- ProvisionRoot.RootProvisioner.ProvisionRoot: the same; profiles, network and proxy setup before the first creation are such checks.
- TreeValidation.ValidateRootTree: the tree is a value and a pointer into it a path of indices, assigned through by rebuilding; aliasing with the caller's slices is not modelled, one sort of siblings is the specification's, and the session ID pattern by character classes.
- FleetManager.Manager.CommitTreeWithAdmission: each handle is taken to have a client of its own, so a redundant client is always a different one; the event mirror, stale and connection flags and revision counters are not part of the handle. Revisions are published after the lock is released, so nothing is claimed about their order.
- FleetManager.Manager.CloseClients: the handle's path must be the key it is registered under, which `Fleet.StepKeepsInvExactly` keeps.
- The order of signals and escalations inside one child's cleanup (liveness, stop request, SIGTERM, SIGKILL, recovery): `Teardown` knows only that it begins and returns once, `Reporting` that it may close the acknowledgement endpoint at any time.
- The lifecycle filters `admissible` and `retainable`, which choose between the steps Recommit, Retain and neither of `Fleet`: easy members.
- Forwarder.ForwardChildEvents: the loop's ends, by cancellation, by a stream error and its liveness close, are left to the link's Sever step of `Forwarding`.
- Mailboxes.Mailbox.Abort: waiting for the dispatcher to end; that nothing is delivered once the lock is released is proved instead.
- ReadTask.RunReadTask: the ends by stream, transport and context are one verdict, and fetching the final text after a successful one is not modelled.
- EventStream.ServeEvents: a failed write or a cancelled request; every cut of the text is covered by `EventStream.CutStreamYieldsPrefix`.
- EventStream.ReadStream: a body that does not decode and a full mailbox, which also end the loop.
- Teardown.Node.WatchRPC: the watcher's check of a requested stop and its entry into teardown are one step, so which terminal phase wins that race is not modelled; closing the transport and the listener are steps without content.
- Teardown.EveryInternalRunReachesDone: the environment is assumed to answer, not to answer soon.
- Lifecycle.LifecycleIsDecided: prompts follow Bind, and stop, failure and handoff are outside the schedules; `Lifecycle.OverStaysOver` covers what happens after them.
- Forwarding.ViewHasNoHoles: session IDs are unique in the tree and each child has one forwarder, as CreateChild makes it; the transport between the two is the lossless, ordered, severable link that `EventStream` justifies.
- Reporting.ReportSuccessMeansAcceptance: the parent closes its end of the acknowledgement pipe when its process dies, and a failing close releases the descriptor.
- Concurrent writes to Pi's transport, the write gate and the forbidden-command policy: a write succeeds or fails as one step.
- The proxy, web interface, HTTP handlers, command line, image build, workspace synchronisation, configuration and launch validation, activity projection beyond `boundedDisplay`, handoff field checks, the RPC admission gate and result cells: plumbing, or members that would be easy.
