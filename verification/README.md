# Verified model of the SLIM session protocols

This project models the session layer of the SLIM data plane and proves what its
protocols promise. The centre is the reliable streaming session: a producer that
numbers and retains its publications, a receiver that reorders them, asks for what is
missing and reports what cannot be recovered, and a network in between that may lose,
duplicate, delay and reorder everything. Beside it stand the reliable and sticky
fire-and-forget session, the matching of replies to requests, the retry timer that
drives all of them, and the table of forwarded subscriptions that is replayed when a
connection comes back.

`dafny verify dfyconfig.toml` checks the whole project.

## How the files fit together

| file | content |
|---|---|
| `Messages.dfy` | messages, names, 32-bit and 64-bit integers |
| `ReorderWindow.dfy` | the meaning of a receive buffer: a map from id to first copy, a counter, a set of lost ids |
| `ReceiverBuffers.dfy` | the sliding vector of the source, updated in place, proved equal to that meaning |
| `WindowRuns.dfy`, `WindowLosses.dfy` | what holds over every sequence of received, lost and beacon calls |
| `ProducerBuffers.dfy`, `Producers.dfy` | the ring with its index, and the producer's handlers |
| `Timers.dfy` | the retry timer |
| `ReceiverSessions.dfy`, `StreamingReceivers.dfy` | one receiver per producer: requests and timers; never stuck; drain |
| `SessionDelivery.dfy` | what a receiver makes of what it hears: complete delivery, complete detection, counted requests |
| `StreamingProtocol.dfy`, `StreamingRecovery.dfy` | producer, network and receiver together: end to end, recovery |
| `StreamingRoutes.dfy` | who sends what to whom; request and answer as a round trip; runs without losses |
| `FireAndForget.dfy`, `FireAndForgetProcessors.dfy` | the fire-and-forget session as a step function and as the object that updates its fields |
| `StickyOrder.dfy` | message order of sticky sessions |
| `FnfExchange.dfy` | two fire-and-forget sessions: delivery, acknowledgement, discovery from both sides |
| `FnfConservation.dfy`, `FnfFailures.dfy` | accounting and retry budget of reliable messages; runs in which random ids meet |
| `RequestResponse.dfy` | replies and timeouts under every interleaving |
| `RemoteSubscriptions.dfy` | forwarded subscriptions and their replay |

Objects that the source updates in place are classes here. Each of their methods is
proved against a function on values, and the theorems over whole runs are proved about
those functions.

## Main results

- `StreamingProtocol.EndToEnd`: in every run the receiving application sees a contiguous
  run of the publications in order; every entry is the published payload or a loss marker,
  and a marker means that the producer refused an evicted id or that the whole retry
  budget of a timer for that id was used up; a payload is the one submitted in that place.
  `StreamingProtocol.BoundIsExact`: this holds
  for all runs with at most `n` publications if and only if `n` is at most 2^32, because
  message ids are 32 bits wide.
- `StreamingRecovery.CatchUpIff`: from every reachable state the receiver can be brought up
  to date with no original publication arriving, if and only if it has started, nothing was
  published, a payload was already sent in reply to one of its requests, or a beacon that was
  sent or can be sent now names publication 0 or one that is retained with a payload.
  `StreamingRecovery.CatchUp`: every publication still retained, with a payload and not given
  up before, is then delivered with that payload.
- `ReceiverSessions.NeverStuck` and `ReceiverSessions.DrainTheorem`: a waiting window
  always has a timer for its front id, and once all pending requests have failed, in any
  order, the window is empty with every buffered message delivered.
- `SessionDelivery.HeardTheorem`, `SessionDelivery.CompleteDelivery`: what a receiver hears
  reaches its application; once everything up to some id has been heard, in any order and
  any number of times, all of it has been handed over. `SessionDelivery.NothingOverlooked`,
  `SessionDelivery.RetryCount`: whatever lies below an id that was named is handed over, held
  or asked for, and requests are counted exactly, retries included.
- `StreamingRoutes.RunRoutes`, `StreamingRoutes.RtxRoundTrip`: in every run requests and
  replies are addressed to each other's sender, and an answer settles exactly the request it
  answers. `StreamingRoutes.LossFreeRun`: without losses everything submitted is seen.
- `WindowRuns.DeliveryTheorem`, `WindowRuns.RequestTheorem`: ordered, gap-free, honest
  delivery and complete, non-repeating loss detection for every sequence of buffer calls.
- `FnfConservation.Accounting`: over every run of a reliable fire-and-forget session each
  message is pending, acknowledged or reported at every moment, if and only if drawn ids
  are fresh among the pending ones. `FnfConservation.Conservation` and
  `FnfConservation.BudgetIff`: the retry budget, and the exact condition for it.
- `FnfExchange.Delivered`, `FnfExchange.Acknowledged`: over every run the application is given
  exactly the messages that came for it, and each reliable one is acknowledged once.
  `FnfExchange.ReliableRoundTrip`, `FnfExchange.Handshake`: between two sessions a message is
  delivered and its acknowledgement settles exactly its entry; a discovery binds both sides
  to each other and delivers everything that waited.
- `StickyOrder.OrderTheorem`: message order of sticky sessions over every run.
- `RequestResponse.Matching`: in every run of a request session, whatever ids are drawn, each
  request has at most one outcome, a reply with its id or a timeout with its message.
  `RequestResponse.AccountedIff` and `RequestResponse.AlwaysTimelyIff`: the exact conditions
  under which no request is forgotten and no timeout comes from another request's timer.

## Where a promise fails

- A loss declared for an id that is already buffered or delivered should be invisible.
  It is, if and only if the next id owed to the application is not itself waiting to be
  reported lost (`WindowLosses.LateLossTheorem`). The direct-delivery path of the buffer does
  not release lost successors, so that state is reachable; `LateLossCounterexample` gives a
  run in which a late, irrelevant loss turns a deliverable message into a loss.
- A sticky session that is itself discovered while it waits for its own discovery reply
  becomes established without sending what waits. The waiting messages are never sent
  (`StickyOrder.StrandedForGood`), this happens exactly then (`StickyOrder.StrandedIffCrossed`),
  and exactly then can later messages overtake them (`StickyOrder.OrderIffNotStranded`).
  `StickyOrder.CrossingOvertakes` gives the run: one submission, one discovery, and the next
  submission is transmitted while the first one waits for ever.
- A random message id that meets a pending one loses the older message
  (`FnfConservation.AccountingStepIff`, for every action; `FnfFailures.CollisionRun`).
- A random message id that is free but still carried by a queued timer event makes that event
  count for the new message. Messages keep to their own timers and budgets in all later runs if
  and only if no queued event carries a drawn id (`FnfConservation.BudgetIff`). In
  `FnfFailures.OverrunRun` a message with one retry is transmitted three times.
- A random id that meets that of another request: a request entered under the id of an open one
  takes its place, and the open one never gets an outcome; this is the only way to forget a
  request (`RequestResponse.AccountedIff`). A timeout can come from the timer of another request
  if and only if an id was drawn that a live request has, one that is open, not yet entered, or
  whose timer may still fail (`RequestResponse.TimelyIff`, `RequestResponse.AlwaysTimelyIff`).
  `RequestResponse.CollidingRequests` is a run with both.
- A publication without a payload is retained but a request for it is never answered
  (`Producers.AnswerMeaning`). So a receiver that missed two or more publications, and heard
  nothing else, can be brought up to date if and only if the last one has a payload
  (`StreamingRecovery.LateJoinerIff`). The public publish calls always set a payload
  (`data-plane/core/service/src/lib.rs:598`,
  `data-plane/core/datapath/src/messages/utils.rs:404`); only code inside the service that
  hands a message to the session's own handler could send one without.
- A discovered session that is reliable keeps its answer to the probe pending like a message,
  but no session acknowledges such an answer (`FnfExchange.AnswerNeverAcknowledged`).
- A subscription for the reserved id 2^64 - 1 is replayed without an id
  (`RemoteSubscriptions.RoundTrip`).

## Modelling decisions

- `usize` is 64 bits wide; the "not started" value of the receive buffer is its maximum
  and adding one to it wraps to zero, as in a build without overflow checks. `next_id` is a
  32-bit counter that wraps.
- Channels deliver, and one handler call is one step. In the end-to-end model whatever has
  been sent once may arrive any number of times, at any later moment, or never; the same
  holds for queued timer callbacks, which covers late callbacks of stopped timers.
- Time is the order of events; durations are natural numbers. Random ids are parameters.
- Errors that the source only logs have no output here; the state change is modelled.
- A message is the record of the header fields that the session code reads or writes,
  plus its payload. Session ids, the fan-out number and metadata are not part of it.

## Model

| member | source | states |
|---|---|---|
| ReceiverBuffers.ReceiverBuffer.constructor | data-plane/core/service/src/receiver_buffer.rs:29-38 | a new buffer is the window that has not started |
| ReceiverBuffers.ReceiverBuffer.OnReceivedMessage | data-plane/core/service/src/receiver_buffer.rs:46-48 | window, deliveries and requests after a message are those of the map-and-counter meaning |
| ReceiverBuffers.ReceiverBuffer.OnLostMessage | data-plane/core/service/src/receiver_buffer.rs:51-55 | the same for a declared loss, before or after the first message |
| ReceiverBuffers.ReceiverBuffer.OnBeaconMessage | data-plane/core/service/src/receiver_buffer.rs:58-62 | the same for a beacon, and the dropped deliveries are always empty |
| ReceiverBuffers.ReceiverBuffer.InternalOnReceivedMessage | data-plane/core/service/src/receiver_buffer.rs:64-194 | all branches (first id, direct delivery, duplicate, gap, in range, beyond) agree with the meaning |
| ReceiverBuffers.ReceiverBuffer.StoreInRange | data-plane/core/service/src/receiver_buffer.rs:139-168 | an id with a slot: a second copy changes nothing, a first copy is stored and the front released |
| ReceiverBuffers.ReceiverBuffer.OpenBuffer | data-plane/core/service/src/receiver_buffer.rs:100-126 | a gap behind an empty buffer: slots up to the id, a request for every id without a message |
| ReceiverBuffers.ReceiverBuffer.ExtendBuffer | data-plane/core/service/src/receiver_buffer.rs:169-192 | beyond the buffer: slots and requests for the ids in between; a beacon's own id is requested without a slot |
| ReceiverBuffers.ReceiverBuffer.ReleaseMsgs | data-plane/core/service/src/receiver_buffer.rs:196-257 | releases exactly the longest front of held or lost ids, in order, and leaves a settled buffer |
| ReceiverBuffers.ReceiverBuffer.ReleaseFront | data-plane/core/service/src/receiver_buffer.rs:197-232 | the first loop stops at a hole that is not known to be lost, nothing skipped or repeated |
| ReceiverBuffers.ReceiverBuffer.ReleaseTrailing | data-plane/core/service/src/receiver_buffer.rs:240-256 | the second loop reports lost ids that follow the last slot |
| WindowRuns.ApplySettles | data-plane/core/service/src/receiver_buffer.rs:100-257 | no head-of-line hold-back: the front slot is empty after every call, and not known lost after a call that releases |
| WindowRuns.DeliveryTheorem | data-plane/core/service/src/receiver_buffer.rs:46-257 | over every run the outputs are consecutive ids, one entry each; an entry is the first copy so far, a marker needs a declared loss and no copy |
| WindowRuns.ReleasingEvent | data-plane/core/service/src/receiver_buffer.rs:46-257 | every output entry was released by some call, so the delivery theorem covers all of them |
| WindowRuns.RunExtends | data-plane/core/service/src/receiver_buffer.rs:71-98 | later calls only append outputs and never move the first id |
| WindowRuns.CallRequests | data-plane/core/service/src/receiver_buffer.rs:84-87 | requests of a call lie above the old high-water mark, ascend, and cover every new hole; only a beacon's own id has no slot |
| WindowRuns.RequestTheorem | data-plane/core/service/src/receiver_buffer.rs:100-192 | over every run every hole has been requested, and an id requested twice is some beacon's own |
| WindowRuns.BeaconFreeRequestsDistinct | data-plane/core/service/src/receiver_buffer.rs:100-192 | without beacons no id is requested twice |
| WindowRuns.RequestedIff | data-plane/core/service/src/receiver_buffer.rs:100-192 | exactly which ids a call asks for: from the high-water mark up to the id named, a beacon's own id included |
| WindowRuns.BeaconRepeats | data-plane/core/service/src/receiver_buffer.rs:169-192 | a repeated beacon asks for its id again if and only if a gap was open or the id is the one owed |
| WindowRuns.NamedTheorem | data-plane/core/service/src/receiver_buffer.rs:84-192 | over every run, whatever lies at or below an id named after the start is delivered, held or requested |
| WindowLosses.LateLossTheorem | data-plane/core/service/src/receiver_buffer.rs:51-55 | declaring a buffered or delivered id lost is invisible for ever if and only if the front id is not waiting to be reported |
| WindowLosses.LateLossCounterexample | data-plane/core/service/src/receiver_buffer.rs:71-82 | the excluded state is reachable and the late loss then changes a later delivery |
| WindowLosses.LossesTogether | data-plane/core/service/src/receiver_buffer.rs:196-257 | any order of declared losses releases what declaring them at once releases |
| WindowLosses.LossesEmptyWindow | data-plane/core/service/src/receiver_buffer.rs:196-257 | losses that cover all holes empty the window, each id handed over once as its copy or a marker |
| ProducerBuffers.ProducerBuffer.WithCapacity | data-plane/core/service/src/producer_buffer.rs:19-28 | an empty ring of the given capacity |
| ProducerBuffers.ProducerBuffer.Push | data-plane/core/service/src/producer_buffer.rs:44-73 | the ring becomes the last `capacity` accepted messages, an id still in it is not taken again, the first push fixes the destination |
| ProducerBuffers.ProducerBuffer.Clear | data-plane/core/service/src/producer_buffer.rs:76-80 | nothing is retained; the destination is kept until the next push |
| ProducerBuffers.ProducerBuffer.Get | data-plane/core/service/src/producer_buffer.rs:82-87 | finds exactly the message with that id among the last `capacity` accepted |
| ProducerBuffers.FindIff | data-plane/core/service/src/producer_buffer.rs:82-87 | a message is found under an id if and only if it is retained and has that id |
| ProducerBuffers.PushRing | data-plane/core/service/src/producer_buffer.rs:59-71 | overwriting the oldest slot keeps the index the exact inverse of the occupied slots |
| ProducerBuffers.RingDistinct | data-plane/core/service/src/producer_buffer.rs:53-57 | ids in the ring are distinct |
| Producers.Producer.ProcessMessageFromApp | data-plane/core/service/src/streaming.rs:550-598 | publication number n gets id n modulo 2^32, is retained and sent, and starts the producer timer |
| Producers.Producer.ProcessIncomingRtxRequest | data-plane/core/service/src/streaming.rs:459-548 | answers with the retained payload, with the error flag when it is gone, and not at all when the retained packet has no payload |
| Producers.AnswerMeaning | data-plane/core/service/src/streaming.rs:476-542 | which of the three answers a published id gets: refusal if and only if evicted, silence if and only if retained without payload, else the published payload |
| Producers.AnswerAddress | data-plane/core/service/src/streaming.rs:471-532 | an answer comes from the producer, goes to whoever asked, over the connection of the request |
| Producers.Producer.ProducerTimer | data-plane/core/service/src/streaming.rs:420-439 | a beacon names the last publication; the subtraction does not underflow before ids wrap |
| Producers.RetainedRecent | data-plane/core/service/src/streaming.rs:259-273 | each of the last 500 publications is found under its own id, also across the wrap of ids |
| Producers.RefusedIffEvicted | data-plane/core/service/src/streaming.rs:476-542 | a published id is refused if and only if at least 500 later publications evicted it |
| Timers.Start | data-plane/core/service/src/timer.rs:73-151 | wait k is min(duration * 2^k, max); timeouts are numbered from 1 and followed by one stop if the timer is stopped within its budget, and otherwise by one failure numbered maxRetries + 1 |
| Timers.NextWait | data-plane/core/service/src/timer.rs:80-125 | doubling the last wait up to the cap follows the closed form |
| Timers.WaitShape | data-plane/core/service/src/timer.rs:80-125 | a constant timer waits the same each time, an exponential one twice as long up to its cap |
| Timers.StartWithoutRetries | data-plane/core/service/src/request_response.rs:69-74 | a timer without retries never reports a timeout and fails with count 1 |
| ReceiverSessions.SessionIsRun | data-plane/core/service/src/streaming.rs:637-691 | the application of a session is given what the run of its buffer calls delivers |
| ReceiverSessions.StepUnstuck | data-plane/core/service/src/streaming.rs:642-732 | every packet and timer event keeps the session from getting stuck |
| ReceiverSessions.NeverStuck | data-plane/core/service/src/streaming.rs:601-807 | in every run: request and timer maps have the same keys, the front id has a timer, every other hole has one or is known lost |
| ReceiverSessions.DrainTheorem | data-plane/core/service/src/streaming.rs:781-807 | once every pending request has failed, in any order, the window is empty and each of its ids was handed over once |
| ReceiverSessions.RtxTimerBudget | data-plane/core/service/src/streaming.rs:711-722 | an unanswered request is given up after maxRetries retries and maxRetries + 1 waits of the configured timeout |
| SessionDelivery.PublicationStep | data-plane/core/service/src/streaming.rs:643-648 | an original publication is kept or handed over, and at once if it is the one owed or the first |
| SessionDelivery.HeardTheorem | data-plane/core/service/src/streaming.rs:642-691 | in every run a message heard is handed over or held, and the next one owed is one not yet heard |
| SessionDelivery.EntryTheorem | data-plane/core/service/src/streaming.rs:642-691 | every entry is the first copy heard of its id, or a marker for an id said to be lost |
| SessionDelivery.CompleteDelivery | data-plane/core/service/src/streaming.rs:642-691 | when everything up to some id has been heard and nothing was said to be lost, all of it has been handed over in order |
| SessionDelivery.LossFree | data-plane/core/service/src/streaming.rs:642-691 | in order and without losses the application is given exactly the packets and nothing is asked for |
| SessionDelivery.TimeoutSends | data-plane/core/service/src/streaming.rs:754-778 | a timeout of an awaited id sends exactly one message, the request for it, and changes nothing |
| SessionDelivery.RetryCount | data-plane/core/service/src/streaming.rs:693-807 | over every run the requests for an id are its misses plus its timeouts while awaited; a timer runs exactly while it is awaited |
| SessionDelivery.NothingOverlooked | data-plane/core/service/src/streaming.rs:642-731 | after the first message, whatever lies at or below the id of a packet heard is handed over, held or asked for |
| StreamingReceivers.Receiver.ProcessMessage | data-plane/core/service/src/streaming.rs:637-732 | one packet: new session state, deliveries and requests |
| StreamingReceivers.Receiver.UpdateBuffer | data-plane/core/service/src/streaming.rs:642-686 | which buffer call a packet leads to, and that a reply settles its own request and timer |
| StreamingReceivers.Receiver.SendRtx | data-plane/core/service/src/streaming.rs:693-731 | one request and one timer per missing id, in order |
| StreamingReceivers.Receiver.HandleRtxTimeout | data-plane/core/service/src/streaming.rs:754-778 | the stored request is sent again unchanged; without one there is no timer either |
| StreamingReceivers.Receiver.HandleRtxFailure | data-plane/core/service/src/streaming.rs:798-806 | request and timer are dropped and the id is declared lost |
| StreamingReceivers.ReceiverState.ProcessMessageFromSlim | data-plane/core/service/src/streaming.rs:601-635 | a packet changes the state of its own producer only, created on first contact |
| StreamingReceivers.ReceiverState.HandleRtxTimeout | data-plane/core/service/src/streaming.rs:734-752 | a timeout concerns its own producer; an unknown producer is ignored |
| StreamingReceivers.ReceiverState.HandleRtxFailure | data-plane/core/service/src/streaming.rs:781-796 | a failure changes the state of its own producer only; an unknown producer is ignored |
| StreamingProtocol.RunKeepsInv | data-plane/core/service/src/streaming.rs:459-807 | in every run packets agree with the publications, the receiver works on published ids only, timer callbacks come in order |
| StreamingProtocol.PublishedAre | data-plane/core/service/src/streaming.rs:550-598 | publication k is submission k with id k modulo 2^32 and the type of the session, nothing else changed |
| StreamingProtocol.EndToEnd | data-plane/core/service/src/streaming.rs:459-807 | the application sees a contiguous run of the publications with the payloads submitted; loss markers are justified |
| StreamingProtocol.BoundIsExact | data-plane/core/service/src/streaming.rs:566-581 | the end-to-end promise holds for all runs of at most n publications if and only if n <= 2^32 |
| StreamingProtocol.WrappedRun | data-plane/core/service/src/streaming.rs:581 | a run of 2^32 + 1 publications in which a late joiner takes the last one for the first |
| StreamingRoutes.RequestAddress | data-plane/core/service/src/streaming.rs:693-709 | requests go to the sender of the packet that revealed the loss, over the connection it came on |
| StreamingRoutes.RunRoutes | data-plane/core/service/src/streaming.rs:459-731 | in every run packets come from the producer in the kind of its session, replies are for the receiver, requests for the producer, beacons for the topic |
| StreamingRoutes.RtxRoundTrip | data-plane/core/service/src/streaming.rs:649-669 | the answer to a stored request is filed under the same producer and settles request and timer; the message is then handed over, held or known lost |
| StreamingRoutes.AnswerExchange | data-plane/core/service/src/streaming.rs:459-669 | the same with the producer's and the receiver's handlers, one after the other |
| StreamingRoutes.LossFreeRun | data-plane/core/service/src/streaming.rs:550-691 | if every publication arrives at once, the application sees exactly what was submitted and nothing is requested |
| StreamingRecovery.FateArrives | data-plane/core/service/src/streaming.rs:649-669 | for every pending id an answer, or the exhausted timer of one that is never answered, reaches the window; a retained payload arrives as a message |
| StreamingRecovery.FrontRecovers | data-plane/core/service/src/streaming.rs:649-669 | the fate of the front id moves a waiting window on |
| StreamingRecovery.EmptyRecovers | data-plane/core/service/src/streaming.rs:420-439 | with no open gap the window moves on: the receiver is started, or a beacon opens a gap or asks for the last publication |
| StreamingRecovery.RunAnnounced | data-plane/core/service/src/streaming.rs:670-731 | in every run a receiver that has not started has requested, timed, been answered or lost only ids that a beacon named |
| StreamingRecovery.CatchUp | data-plane/core/service/src/streaming.rs:420-807 | repairing actions give the application an entry for every publication from its first one on; what is retained, has a payload and was not given up is delivered with it |
| StreamingRecovery.CatchUpIff | data-plane/core/service/src/streaming.rs:420-807 | from every reachable state that is possible if and only if the receiver has started or can be started: by a payload already sent in reply, or by a beacon for id 0 or for a retained payload |
| StreamingRecovery.LateJoinerIff | data-plane/core/service/src/streaming.rs:484-490 | for a receiver that missed everything: if and only if at most one message was published or the last one has a payload |
| FireAndForget.BindingKept | data-plane/core/service/src/fire_and_forget.rs:302-366 | established, bound name and bound connection stay together through every input |
| FireAndForget.BindingAlways | data-plane/core/service/src/fire_and_forget.rs:445-468 | they agree in every run, so the established arm without a name is unreachable |
| FireAndForget.RebindingIff | data-plane/core/service/src/fire_and_forget.rs:490-501 | a bound name changes if and only if a non-sticky session is discovered by another agent |
| FireAndForget.BoundForGood | data-plane/core/service/src/fire_and_forget.rs:490-501 | while the configuration is sticky a bound name never changes |
| FireAndForget.SendAllShape | data-plane/core/service/src/fire_and_forget.rs:336-342 | draining sends every waiting message once, in order, to the bound peer |
| FnfExchange.Delivered | data-plane/core/service/src/fire_and_forget.rs:478-587 | over every run the application is given exactly the data messages from accepted senders, in order, once each |
| FnfExchange.Acknowledged | data-plane/core/service/src/fire_and_forget.rs:508-536 | over every run each accepted reliable message is acknowledged once, in order, to its sender over its connection |
| FnfExchange.ConfigInForce | data-plane/core/service/src/fire_and_forget.rs:170-180 | in every run the configuration in force is the one set last |
| FnfExchange.BoundBy | data-plane/core/service/src/fire_and_forget.rs:274-366 | in every run a session is bound to the sender and connection of the message that bound it last |
| FnfExchange.Sent | data-plane/core/service/src/fire_and_forget.rs:368-475 | a session that has a peer or needs none sends a submission at once, unchanged but for id, type and, when bound, the peer's address and connection |
| FnfExchange.Got | data-plane/core/service/src/fire_and_forget.rs:485-539 | a data message is delivered if and only if its sender is accepted, and acknowledged if and only if it is also reliable |
| FnfExchange.ReliableRoundTrip | data-plane/core/service/src/fire_and_forget.rs:368-539 | a reliable message is delivered once with its payload, and its acknowledgement settles exactly its entry |
| FnfExchange.Handshake | data-plane/core/service/src/fire_and_forget.rs:244-366 | probe and answer bind two sessions to each other, and everything that waited is delivered in order |
| FnfExchange.FirstContact | data-plane/core/service/src/fire_and_forget.rs:244-366 | the first message of a sticky session: the probe goes to the destination's type, and the message is delivered by whoever takes it |
| FnfExchange.AnswerNeverAcknowledged | data-plane/core/service/src/fire_and_forget.rs:274-311 | a reliable session keeps its answer to a probe pending, and no session acknowledges it |
| FireAndForgetProcessors.FireAndForgetProcessor.SendMessage | data-plane/core/service/src/fire_and_forget.rs:368-419 | numbering, addressing, timer and stored copy of a sent message |
| FireAndForgetProcessors.FireAndForgetProcessor.HandleMessageToSlim | data-plane/core/service/src/fire_and_forget.rs:421-476 | all arms of sending, including discovery and waiting |
| FireAndForget.ProbeOnce | data-plane/core/service/src/fire_and_forget.rs:244-272 | over every run no probe is sent before a message has to wait, exactly one while waiting, and never another |
| FireAndForgetProcessors.FireAndForgetProcessor.HandleMessageToApp | data-plane/core/service/src/fire_and_forget.rs:478-587 | all arms of receiving, including strangers, acknowledgements and unknown types |
| FireAndForgetProcessors.FireAndForgetProcessor.HandleStickySessionDiscovery | data-plane/core/service/src/fire_and_forget.rs:274-311 | bind to the discoverer and answer |
| FireAndForgetProcessors.FireAndForgetProcessor.HandleStickySessionDiscoveryReply | data-plane/core/service/src/fire_and_forget.rs:313-366 | bind and drain the waiting messages, only while discovering |
| FireAndForgetProcessors.FireAndForgetProcessor.HandleTimerTimeout | data-plane/core/service/src/fire_and_forget.rs:214-226 | the stored copy is sent again while pending, else nothing |
| FireAndForgetProcessors.FireAndForgetProcessor.HandleTimerFailure | data-plane/core/service/src/fire_and_forget.rs:228-242 | a pending message is removed and reported once |
| StickyOrder.FollowKeeps | data-plane/core/service/src/fire_and_forget.rs:421-476 | every input except a crossing discovery keeps the order and the destination |
| StickyOrder.OrderTheorem | data-plane/core/service/src/fire_and_forget.rs:244-475 | first transmissions followed by the waiting messages are the submissions in order; all go to the bound peer, each forced onto the connection bound when it was sent |
| StickyOrder.StrandedForGood | data-plane/core/service/src/fire_and_forget.rs:302-305 | messages that wait while a peer is bound are never sent, however the session is configured |
| StickyOrder.StrandedIffCrossed | data-plane/core/service/src/fire_and_forget.rs:302-305 | that happens if and only if a discovery arrives while discovering |
| StickyOrder.OrderIffNotStranded | data-plane/core/service/src/fire_and_forget.rs:435-475 | every further submission keeps the order if and only if nothing is stranded |
| StickyOrder.CrossingOvertakes | data-plane/core/service/src/fire_and_forget.rs:302-305 | a crossing run exists, strands the first message, and the next submission overtakes it |
| FnfConservation.AccountingStepIff | data-plane/core/service/src/fire_and_forget.rs:402-406 | every action keeps table and ledger in agreement if and only if the ids it draws are fresh among pending ones and distinct |
| FnfConservation.Accounting | data-plane/core/service/src/fire_and_forget.rs:368-587 | over every run a reliable message is pending, acknowledged or reported at every moment, if and only if drawn ids are fresh among pending ones |
| FnfConservation.NextKeeps | data-plane/core/service/src/fire_and_forget.rs:156-242 | with no queued event for a drawn id, transmissions match the firings of each message's own timer |
| FnfConservation.CountedGiveUp | data-plane/core/service/src/timer.rs:130-145 | when a timer's failure is handled, all its retries have been: the budget is used up exactly |
| FnfConservation.Conservation | data-plane/core/service/src/fire_and_forget.rs:214-242 | a message is sent again or given up only for its own timer: at most n + 1 transmissions, exactly n + 1 when reported |
| FnfConservation.BudgetIff | data-plane/core/service/src/fire_and_forget.rs:214-226 | all later runs keep to own timers and budgets if and only if no queued event carries a drawn id |
| FnfConservation.EntryTimerBudget | data-plane/core/service/src/fire_and_forget.rs:388-397 | an unacknowledged message is reported after n + 1 waits of the configured timeout |
| FnfFailures.CollisionRun | data-plane/core/service/src/fire_and_forget.rs:402-406 | two messages under one id: the older still waits but only the newer is held |
| FnfFailures.OverrunRun | data-plane/core/service/src/fire_and_forget.rs:214-226 | ids fresh among pending ones, yet a message with one retry is transmitted three times |
| RequestResponse.Matching | data-plane/core/service/src/request_response.rs:69-231 | under every interleaving and with any ids: at most one outcome per request, only for an entered request that is no longer open, with its id or message; the timer of a settled or replaced request no longer runs; the handler that panics on a timeout is never called |
| RequestResponse.NextKeeps | data-plane/core/service/src/request_response.rs:162-177 | transmission, timer start, entry, reply, firing and failure keep the matching |
| RequestResponse.AccountedIff | data-plane/core/service/src/request_response.rs:173-177 | every entered request is open or has its outcome if and only if none was entered under the id of an open one |
| RequestResponse.TimelyIff | data-plane/core/service/src/request_response.rs:73-93 | timeouts stay those of the own timer in all later runs with fresh ids if and only if the drawn id is fresh among live requests |
| RequestResponse.AlwaysTimelyIff | data-plane/core/service/src/request_response.rs:73-93 | the same at every moment of every run |
| RequestResponse.FreshAccounts | data-plane/core/service/src/request_response.rs:69-231 | with fresh ids no request is forgotten and every timeout is its own |
| RequestResponse.CollidingRequests | data-plane/core/service/src/request_response.rs:173-177 | a run in which one id is drawn twice: the first request is forgotten, the second reported for the first one's timer |
| RequestResponse.RequestResponseInternal.OnMessageSouth | data-plane/core/service/src/request_response.rs:232-272 | a reply is sent under the id of its request or refused without one; anything else is a new request, transmitted before it has a timer or an entry |
| RequestResponse.RequestResponseInternal.StoreRequest | data-plane/core/service/src/request_response.rs:173-177 | the request becomes open |
| RequestResponse.RequestResponseInternal.OnMessageNorth | data-plane/core/service/src/request_response.rs:195-231 | a reply is forwarded if and only if a request with its id is open, which it closes; a request is forwarded ready to be answered; anything else is refused |
| RequestResponse.RequestTimerBudget | data-plane/core/service/src/request_response.rs:153-159 | a request waits once for the configured time and then fails |
| RequestResponse.RequestReplyRoundTrip | data-plane/core/service/src/request_response.rs:214-259 | a request is forwarded with its payload, and answering it with its info closes exactly that request with the payload of the answer |
| RequestResponse.RequestResponseInternal.OnFailure | data-plane/core/service/src/request_response.rs:73-93 | an expired timer reports and closes the request open under its id, or finds none |
| RemoteSubscriptions.RemoteSubscriptionTable.AddSubscription | data-plane/core/datapath/src/tables/remote_subscription_table.rs:39-53 | the table holds exactly what stands after one more forward; other connections are untouched |
| RemoteSubscriptions.RemoteSubscriptionTable.RemoveSubscription | data-plane/core/datapath/src/tables/remote_subscription_table.rs:55-69 | the same after a withdrawal, and no connection keeps an empty set |
| RemoteSubscriptions.RemoteSubscriptionTable.RemoveConnection | data-plane/core/datapath/src/tables/remote_subscription_table.rs:79-82 | the same after a dropped connection |
| RemoteSubscriptions.RemoteSubscriptionTable.Replay | data-plane/core/datapath/src/message_processing.rs:639-668 | replays exactly the subscriptions forwarded and not withdrawn or dropped since |
| RemoteSubscriptions.StandingStep | data-plane/core/datapath/src/forwarder.rs:99-115 | how one more event changes what stands |
| RemoteSubscriptions.RoundTrip | data-plane/core/datapath/src/messages/encoder.rs:187-193 | a stored subscription is replayed unchanged if and only if it does not use the reserved id |

## Left out

- The session pool (`session_layer.rs`): creation, removal and configuration of sessions, and `StreamingConfiguration::replace`; they would only add easy members.
- Sessions of several receivers on one stream: the end-to-end model has one producer and one receiver; producers are independent of each other by the contracts of `ReceiverState`.
- Real time: timers fire in any order and at any moment; only counts and durations are modelled.
- RequestResponse.Matching: makes no claim that a failure handler always finds its request; a failure before the entry, or a firing that races with a reply, is counted as a panic.
- Stopping and resetting a running timer object (`stop`, `reset`): a cancelled wait is a parameter of `Timers.Start`; the token swap is not modelled.
- Failing channels: a send that fails is not modelled, so the error returns that depend on it are not either.
- The clean-up of pending timers when a fire-and-forget session ends.
- gRPC streams, tasks, authentication, encryption, configuration loading, the subscription matching table, the control plane and the language bindings.
