# Verified model of the order backend

This project models the parts of a restaurant order backend in which concurrency, versions,
numbering and batching meet, and proves what those parts promise. Each file holds one component.

| file | component |
|---|---|
| Common.dfy | small shared vocabulary |
| Calendar.dfy | business dates (an abstract time zone) and display numbers |
| OrderForms.dfy | order forms: normal form, meat selection, price |
| Orders.dfy | rows, cooking steps, what a mutation decides to write |
| OrderVersions.dfy | concurrent mutations, split into read, decide, conditional write and commit, publish |
| OrderRaces.dfy | publishers that race, and a client that keeps the highest version |
| OrderStore.dfy | whole transactions over the orders and counter tables; how the two granularities agree |
| OrderOutcomes.dfy | what each command leaves, in the columns of its rows, and what it publishes |
| OrderService.dfy | the same transactions as a class whose methods change the tables statement by statement |
| Batching.dfy | realtime events, and how upserts are cut into frames |
| FrameSizes.dfy, FrameTexts.dfy | encoded sizes of frames, and their text |
| OrderEvents.dfy | what a client knows from the events; the store, the events and the delivery put together |
| Realtime.dfy | the broker as a class, under its mutex |
| Delivery.dfy | publishers and write loops interleaved channel operation by channel operation: what no run does |
| DeliveryFormat.dfy | the same protocol: which clients are sent batches |
| DeliveryProgress.dfy | the same protocol: what can and must still happen from a state |
| Pagination.dfy | keyset pagination, on a frozen table and on one that changes between requests |
| Reports.dfy, ReportFigures.dfy | the report aggregation, and its figures in the columns of the orders |
| DailyReports.dfy | what the report promises beyond one pass, and its agreement with the daily query |
| TimeZones.dfy | zones whose midnights are skipped or repeated |
| RefreshTokens.dfy | refresh-token rotation under a row lock |

State machines (`OrderVersions`, `Delivery`, `RefreshTokens`) have a total `Step` and a `Run` over
any list of actions, beginning with nothing; an action that is not possible in a state leaves it
unchanged, so a theorem about `Run(actions)` for every `actions` is a theorem about every
interleaving. Fields that only record the past (`history`, `authors`, `log`, `taken`, `written`,
`chains`) are written by steps and never decide what a step does, except that identifiers in
`history` are not generated again and that a token's chain is where its replacement is recorded.
Where the program updates objects, the model has classes whose methods are
proved against functions of the state before (`Offered`, `Exec`, `Extended`), and the lemmas are
about those functions. Three lemmas connect the granularities: `DeliveryProgress.TurnRefinesOffer`,
`AtomicMutations.StepsMakeTransaction` and `RefreshTokens.StepsMakeRefresh`.

The clock, generated identifiers, the time zone and the widths of formatted times are parameters.
A calendar says at which instant a date's wall clock shows a time of day, as the time library
resolves it, and what the wall clock shows at an instant. A calendar is valid when its clock never
goes back to an earlier date and what the library takes for 00:00 of each date is that date's first
instant; dates may have any length. Dates print differently from each other within the years 0000 to
9999, where a create's clock is required to lie. The results about orders and their events are for
valid calendars; those about reports and daily rows need less and say what. Identifiers stand for UUIDs; a create is given new ones. A note is a string of Unicode
characters, measured in UTF-8 bytes.

## What turned out not to hold

- A clear deletes orders before counters. If a create commits between those two statements, its
  order stays while its counter is forgotten, and the next create of the day is rejected by the
  unique index (`OrderStore.InterleavedClearBreaksNumbering`). The counter statement keeps the
  numbering sound exactly when no order is left on a day it resets (`OrderStore.ResetIsSoundIff`),
  and so a whole clear with any commands between its statements does
  (`OrderStore.InterleavedClearIsSoundIff`); as whole transactions, clears keep it
  (`OrderStore.ClearKeepsStore`).
- The day window of a report runs from what the library takes for 00:00 of the date to one calendar
  day later, at the time of day of the start (internal/domain/report.go:58-63). It contains exactly
  the orders completed on the date if and only if it runs from the first instant of the date to the
  first instant of the next (`DailyReports.WindowIsDateIff`), and the daily rows are the reports of
  their dates, whatever the orders, if and only if this holds at every date boundary inside the range
  and the range begins on its first and ends on its last date (`DailyReports.DailyAgreesIff`). It
  fails in two ways. Where a zone skips a midnight, consecutive windows leave a gap or overlap
  (`TimeZones.WindowsMeetIff`): west of UTC an order can be in no date's report
  (`TimeZones.SkippedMidnightLosesOrder`), east of it in two
  (`TimeZones.SkippedMidnightRepeatsOrder`). Where a zone repeats a midnight and the library takes the
  second, an order completed in between is in the report of the date before
  (`TimeZones.RepeatedMidnightMovesOrder`).
- A before_today clear cuts off at the same 00:00. This separates the earlier dates from the others if
  and only if it is the first instant of its date (`Calendars.StartSeparatesIff`); where the library
  takes a second 00:00, a clear deletes orders that clients keep
  (`TimeZones.RepeatedMidnightClearsTooMuch`).
- The daily statistics cast counts and sums to 32-bit integers, the report adds in 64 bits. Where the
  windows are the dates, the two agree exactly if every date of the range fits 32 bits (`DailyReports.DailyAgreesWithReport`);
  `DailyReports.DailyRefusesWhatReportAdds` gives a pair of orders where they do not.
- Walking the completed orders promises less than walking all or the uncompleted ones: an order
  reopened and completed again between two requests can be skipped
  (`Pagination.CompletedWalkCanMiss`). An order that never moves back in the listing is skipped
  exactly when, between two requests, it moves from beyond the cursor to a place the cursor has
  passed (`Pagination.SkippedIffJumped`); completed orders never move back while the clock readings
  of their commits do not (`LivePagination.CompletedSkippedIff`).
- The comment on `normalizeSelectedMeatCodes` (internal/domain/order_normalization.go:108-109) says
  that the selection keeps its original order. The code yields menu order without repetitions, and
  the model follows the code. Selecting liver before lean pork is a counterexample
  (`OrderForms.SelectionOrderLost`); the order is kept exactly when what the size shows of the
  selection is already in menu order without repetitions (`OrderForms.SelectionOrderKeptIff`).
- The comment on the fallback of `publishUpserts` (internal/service/v1/order.go:501-504) speaks of
  items that exceed the frame budget. The fallback is unreachable whatever the sizes, because the
  limits are not applied to the first item of a batch (`Batching.TakeBatch`).
- Rebuilding a form from a row (internal/domain/order_status.go:91-107) gives back the stored form
  exactly when there are no eggs and no skewers, and otherwise one that is cheaper by their price
  (`Orders.RebuiltFormIff`). Row invariants are therefore stated about the stored columns; the
  cooking steps do not depend on those counts.

## Model

| member | source | states |
|---|---|---|
| Delivery.NoGap | internal/handler/v1/realtime.go:222-251 | in every interleaving, what a client was written, batches opened up, is a prefix of what was published to its workspace since it subscribed |
| DeliveryFormat.NoBatchUnasked | internal/handler/v1/realtime.go:235-242 | in every run, a client that did not ask for batches is neither written nor about to be written one |
| DeliveryFormat.BatchesArriveWhole | internal/handler/v1/realtime.go:235-251 | in every run, what a client that asked for batches was written is, frame by frame, a prefix of what was published to it |
| Delivery.NoSilentLoss | internal/infra/realtime/broker.go:68-141 | outside a publish, a registered subscription's received and queued messages are exactly everything published since it began, at most 128 of them queued; unless its connection ended, each event was written, is being written or is queued; an unregistered one was cancelled or overflowed |
| Delivery.OnlyBacklogOverflows | internal/infra/realtime/broker.go:77-92 | in every run, a connection whose overflow is signalled, or about to be, once had 128 messages waiting |
| Delivery.ChannelSafety | internal/infra/realtime/broker.go:77-138 | no run sends on a closed channel or closes one twice; outside a publish, registered means channel open, overflowed means closed and drained, and no workspace is kept empty |
| Delivery.OverflowStopsWriting | internal/handler/v1/realtime.go:244-251 | after the overflow signal a client is written at most the one message already past its re-check, whatever happens later |
| DeliveryProgress.OverflowEndsConnection | internal/handler/v1/realtime.go:222-251 | after the overflow signal, whatever else happens, the connection has ended within three steps of its own loop |
| DeliveryProgress.OnlyMessagesPostpone | internal/handler/v1/realtime.go:222-257 | after the overflow signal, only a message taken off the queue or a write under way postpones the end; no heartbeat is written any more |
| DeliveryProgress.CancelledLoopEnds | internal/handler/v1/realtime.go:230-251 | in every run, a connection whose channel is closed without overflow can still be written everything it took and had queued, and then its loop ends |
| DeliveryProgress.TurnRefinesOffer | internal/infra/realtime/broker.go:77-92 | the fine-grained steps of one subscriber's turn, undisturbed, buffer the message or signal, drain, close and unregister, as the broker's method does |
| DeliveryProgress.PublishRefines | internal/infra/realtime/broker.go:68-97 | a whole undisturbed publication, in whatever order it visits the subscribers, does what the broker's method promises for every subscriber and for the workspaces it keeps |
| DeliveryProgress.SubscribeRefines | internal/infra/realtime/broker.go:109-120 | the step of subscribing does what the broker's method promises, and begins an empty stream |
| DeliveryProgress.CancelRefines | internal/infra/realtime/broker.go:122-137 | the step of cancelling does what the broker's method promises, in every case leaving the subscription unregistered and its channel closed |
| DeliveryProgress.CancelledStaysOut | internal/infra/realtime/broker.go:122-137 | in every run, a cancelled subscription is not registered |
| DeliveryProgress.EverythingCanArrive | internal/handler/v1/realtime.go:222-251 | from every reachable state, whatever is published to a live connection from then on, some continuation writes all of it, keeps the connection registered and leaves nothing queued |
| Delivery.StepKeepsInv | internal/infra/realtime/broker.go:68-141 | every single step (try-send, signal, discard one, close, unregister, cancel, check, dequeue, re-check, write one) keeps the protocol invariant |
| Brokers.Subscriber.DiscardQueued | internal/infra/realtime/broker.go:99-107 | leaves nothing buffered |
| Brokers.Broker.Subscribe | internal/infra/realtime/broker.go:109-120 | adds one fresh open subscriber to its workspace and touches no other |
| Brokers.Broker.Cancel | internal/infra/realtime/broker.go:122-137 | unregisters and closes a registered subscriber, is harmless on any other, and forgets an emptied workspace |
| Brokers.Broker.Offer | internal/infra/realtime/broker.go:77-92 | one turn of the publishing loop: buffered, or signalled, drained, closed and unregistered |
| Brokers.Broker.OfferAll | internal/infra/realtime/broker.go:76-92 | in whatever order the set is visited, every subscriber has had exactly its own turn, and exactly the open ones stay |
| Brokers.Broker.Publish | internal/infra/realtime/broker.go:68-97 | every subscriber of the workspace buffers or is dropped, nobody else changes, an unencodable payload changes nothing |
| OrderVersions.NamedVersionIsBase | internal/service/v1/order.go:153-200 | a mutation naming version v that changed its order computed the result from exactly the row committed at v and left v+1 |
| OrderVersions.OneWinnerPerVersion | internal/repo/order.go:161-185 | at most one mutation naming the same version of an order commits a change |
| OrderVersions.OnlyCommitsChangeRows | internal/service/v1/order.go:219-254 | a mutation's only step that touches the table is its commit, which replaces one row, raises its version by one and keeps its identity; a refused or idle one changes nothing |
| OrderVersions.VersionIdentifiesContent | internal/repo/order.go:161-185 | a published upsert carries the row committed at its version, also after a stale read without expected version; equal id and version mean equal rows |
| OrderVersions.LifeCycle | internal/service/v1/order.go:170-200 | in every reachable table rows are well formed (steps, completion only when servable and at the time of the last update, normal form, price), and identity columns never change while the order exists |
| OrderVersions.RunKeepsInv | internal/service/v1/order.go:153-291 | every interleaving keeps the invariant that ties table, transactions, events and histories |
| OrderRaces.EveryRowIsPublished | internal/service/v1/order.go:139-140 | in every run that has come to rest, each row ever committed has been published, in whatever order |
| OrderRaces.RacingClientIsCurrent | internal/service/v1/order.go:200-206 | with racing publishers, a client that subscribes, loads a snapshot, and keeps the highest version of each order shows every stored order as it is stored |
| OrderRaces.UpsertCanFollowDeletion | internal/service/v1/order.go:200-206 | the upsert of a change can be published after its order was deleted |
| AtomicMutations.StepsMakeTransaction | internal/service/v1/order.go:256-291 | run undisturbed, the split steps end, store and publish as the atomic transaction does |
| AtomicMutations.StepsAreCommands | internal/service/v1/order.go:294-373 | the steps that delete and clear do to the orders what the commands do |
| AtomicMutations.InsertIsCreate | internal/service/v1/order.go:78-141 | the step that inserts stores and announces the row a create of one order stores |
| Orders.DecideKeepsRow | internal/service/v1/order.go:162-200 | whatever a mutation writes over a well-formed row is well formed and has the same identity |
| Orders.NewOrderIsOk | internal/service/v1/order.go:99-129 | a created row is well formed |
| Orders.CanServeMeaning | internal/domain/order_status.go:33-42 | a stored order can be served exactly when no step is still to do |
| Orders.ToggleStepTwice | internal/domain/order_status.go:46-76 | toggling a step twice restores all but the completion time, and a toggle changes nothing exactly when the step is not required |
| Orders.RebuiltFormIff | internal/domain/order_status.go:91-107 | rebuilding gives back the stored form if and only if it has no eggs and no skewers; what it loses in price |
| OrderForms.Normalize | internal/domain/order_normalization.go:12-106 | the field-by-field rewriting computes the canonical form, with the first failing check as its error |
| OrderForms.NormalizeMeaning | internal/domain/order_normalization.go:12-106 | accepts exactly the acceptable inputs; the result is a normal form that keeps every choice the menu allows |
| OrderForms.FirstFailureWins | internal/domain/order_normalization.go:12-106 | an error is reported if and only if the form fails its check and no earlier one, for all sixteen checks in their order |
| OrderForms.NormalFormsAreFixedPoints | internal/domain/order_normalization.go:12-106 | normal forms, described independently, are exactly the fixed points, so normalizing is idempotent |
| OrderForms.NormalizeSelectedMeatCodes | internal/domain/order_normalization.go:110-124 | the two loops compute the menu entries that were selected |
| OrderForms.SelectedMeatsMeaning | internal/domain/order_normalization.go:110-145 | exactly the selected codes that the size shows, strictly increasing; unchanged exactly when already so |
| OrderForms.MenuOfSize | internal/domain/order_normalization.go:128-147 | the small size offers all meats but kidney, the others all |
| OrderForms.SelectionOrderKeptIff | internal/domain/order_normalization.go:108-124 | the order of selection is kept if and only if what the size shows of it is strictly increasing |
| OrderForms.SelectionOrderLost | internal/domain/order_normalization.go:108-124 | the concrete selection whose order is lost |
| OrderForms.TrimSpaceTrims | internal/domain/order_normalization.go:56-60 | a trimmed note has no space at either end, and trimming changes only notes that have |
| OrderForms.TrimCuts | internal/domain/order_normalization.go:56-60 | a trimmed note is the note cut at both ends, and only white space is cut off |
| OrderForms.SpaceCodes | internal/domain/order_normalization.go:56-57 | white space is the 25 code points with that property |
| OrderForms.RuneBytesAreUtf8 | internal/domain/order_normalization.go:56-60 | a rune counts as many bytes as its only admitted UTF-8 encoding has |
| OrderForms.PriceOfNormalForm | internal/domain/order_pricing.go:19-79 | a stored form has a positive price, far from 64-bit overflow within the column widths |
| OrderForms.PriceList | internal/domain/order_pricing.go:19-79 | the price of every size and staple, and of every extra |
| OrderForms.NormalizingAndPrice | internal/domain/order_pricing.go:64-79 | normalizing changes the price only by the container that takeout is given by default |
| Calendars.BeforeDayStart | internal/service/v1/order.go:404-409 | where a day's start is the first instant of its date, comparing with it is comparing business dates |
| Calendars.StartSeparatesIff | internal/service/v1/order.go:404-409 | and only there |
| Calendars.WholeSecondKeepsDate | internal/domain/order_events.go:80-112 | showing times in whole seconds never changes their business date |
| Calendars.DisplayNoRoundTrip | internal/service/v1/order.go:399-401 | date and sequence can be read back from a display number, however long the sequence |
| Calendars.SequencePlaces | internal/service/v1/order.go:399-401 | below 10000 the sequence takes four places; above it takes more and has no zero in front |
| Calendars.DisplayNoInjective | internal/service/v1/order.go:399-401 | equal display numbers mean equal date and sequence |
| OrderStore.RunKeepsStore | internal/service/v1/order.go:92-396 | in every run of creates, mutations, removals and clears, display numbers are unique per workspace and at most their day's counter |
| OrderStore.CreateSucceeds | internal/service/v1/order.go:78-141 | a create succeeds if and only if quantity, form, counter room, price width and the characters of the note allow it: the unique index never rejects it |
| OrderStore.ClearKeepsStore | internal/service/v1/order.go:379-396 | a clear as one transaction keeps numbering sound |
| OrderStore.MutateKeepsStore | internal/service/v1/order.go:153-291 | a mutation as one transaction keeps numbers, counters and rows well formed |
| OrderStore.ResetIsSoundIff | internal/repo/counter.go:46-60 | resetting counters keeps numbering sound if and only if no stored order is on a reset day |
| OrderStore.InterleavedClearIsSoundIff | internal/service/v1/order.go:385-393 | a whole clear, with any commands between its statements, keeps numbering sound if and only if no order is then stored on a reset day |
| OrderStore.RepeatedNumberRejects | migrations/000001_init_schema.up.sql:100-101 | a create that would repeat a stored number is rejected |
| OrderStore.InterleavedClearBreaksNumbering | internal/service/v1/order.go:385-393 | the concrete run in which a create between the statements of a clear makes the next create fail |
| OrderService.Service.Allocate | internal/repo/counter.go:20-44 | reserves the next numbers of a day, or refuses without using any |
| OrderService.Service.InsertMany | internal/repo/order.go:139-153 | inserts all rows or none |
| OrderService.Service.Update | internal/repo/order.go:161-185 | compare-and-set on workspace and named version, version raised by one, otherwise nothing changes |
| OrderService.Service.BuildItems | internal/service/v1/order.go:99-131 | the loop builds the specified rows, numbered consecutively |
| OrderService.Service.CreateBatch | internal/service/v1/order.go:78-141 | state, error and published frames are those of the specified transaction, with rollback on every error |
| OrderService.Service.UpdateForm | internal/service/v1/order.go:144-207 | the same for a form update: read, check the guard, rebuild the row from the form, write, publish |
| OrderService.Service.ToggleStep | internal/service/v1/order.go:210-254 | the same for a step toggle, which writes and publishes nothing when no progress changes |
| OrderService.Service.ToggleServed | internal/service/v1/order.go:257-291 | the same for a served toggle, refused while a step is still to do |
| OrderService.Service.RemoveOrder | internal/service/v1/order.go:294-313 | the same for removal |
| OrderService.Service.ClearWorkspace | internal/service/v1/order.go:316-373 | the same for clears, with the cut-off date and the number of orders in the event |
| OrderOutcomes.UpdateFormOutcome | internal/service/v1/order.go:144-207 | on any tables, an update succeeds if and only if the form is acceptable, the order is in the workspace, the guard is met and the new row fits its columns; it stores the normalized form, its price, steps not started, no completion time, the caller, the time and the next version, and changes nothing else; invalid form, not found and conflict each under its exact condition |
| OrderOutcomes.ToggleStepOutcome | internal/service/v1/order.go:210-254 | a step toggle turns the one step round if the order needs it and takes back the completion, the other step and the form stay; otherwise nothing happens; each refusal under its exact condition |
| OrderOutcomes.ToggleServedOutcome | internal/service/v1/order.go:257-291 | serving is refused exactly while a step is not started; it sets the completion time, and repeated takes it back; nothing else of the row changes but version, caller and time |
| OrderOutcomes.CreateOutcome | internal/service/v1/order.go:78-141 | a create stores, for each ordered item, one row of the normalized form with the caller, the time, version 1 and the next number of the day, and advances the counter by their number; refusals under their exact conditions change nothing |
| OrderOutcomes.CreatePublishes | internal/service/v1/order.go:135-141 | what a create publishes shows each stored row once, in the order of their numbers, to its workspace only, a single one unbatched |
| OrderOutcomes.RemoveOutcome | internal/service/v1/order.go:294-313 | a removal takes away and announces exactly the order found in the workspace |
| OrderOutcomes.ClearOutcome | internal/service/v1/order.go:316-373 | on a valid calendar, a clear leaves exactly the orders and counters of other workspaces and, before today, those not of an earlier date, as they were; the event tells how many orders went and before which date; the three refusals under their exact conditions |
| OrderOutcomes.ClearAllLeavesNothing | internal/service/v1/order.go:316-373 | an owner's confirmed clear of everything leaves no order and no counter of the workspace |
| Events.LegacyOrderUpsertMessages | internal/handler/v1/realtime.go:45-65 | one single-order event per item, in order |
| Events.OpenedTwice | internal/handler/v1/realtime.go:235-242 | an opened stream holds no batch, and opening it again changes nothing |
| Batching.TakeBatch | internal/service/v1/order.go:482-508 | the inner loop takes the longest allowed batch from its start and always at least one item |
| Batching.PublishUpserts | internal/service/v1/order.go:465-515 | the nested loops terminate and publish exactly the specified frames |
| Batching.PublishedFrames | internal/service/v1/order.go:465-515 | one order travels alone and unbatched; any other number in batches of 1 to 64 within 64 KiB unless single, each to the workspace of its orders |
| Batching.GreedyIsLegal | internal/service/v1/order.go:465-515 | batches are non-empty, of one workspace, at most 64 items, within the byte limit unless single, and concatenate to the input |
| Batching.BatchingRoundTrip | internal/handler/v1/realtime.go:45-65 | expanding every published frame gives each item exactly once, in order |
| Batching.GreedyIsOptimal | internal/service/v1/order.go:471-514 | for any frame cost monotone under sub-segments, no legal split uses fewer batches |
| Batching.GreedyStaysAhead | internal/service/v1/order.go:484-499 | greedy batching of any suffix needs no more batches than any legal split of the whole |
| FrameSizes.BatchSizeIsMonotone | internal/service/v1/order.go:529-542 | encoded frame size is monotone under sub-segments |
| FrameSizes.FewestFrames | internal/service/v1/order.go:465-542 | with real encoded sizes, no legal split is published in fewer frames |
| FrameSizes.SingleOrderFits | internal/domain/order_normalization.go:5-8 | an order stored with a normal form takes at most 7000 bytes encoded, so any single one fits a frame |
| FrameSizes.FramesFit | internal/service/v1/order.go:493-507 | if every order fits alone, every published frame fits |
| FrameTexts.FrameBytesAreBytes | internal/service/v1/order.go:529-542 | the size frames are measured by is the number of bytes of their encoded text, member by member |
| EndToEnd.CreateFramesFit | internal/service/v1/order.go:21-31 | every frame a create publishes is within 64 KiB |
| EndToEnd.CaughtUpClientIsCurrent | internal/handler/v1/realtime.go:213-270 | when events are published in commit order, a connected client with nothing queued or half sent shows exactly the stored orders, with or without batches |
| EndToEnd.SomeClientCatchesUp | internal/handler/v1/realtime.go:213-270 | whatever the broker has been through, such a client exists for every run of commands: one that subscribes while nobody publishes can be written all their events |
| OrderEvents.EventsDescribeChange | internal/service/v1/order.go:294-373 | on a valid calendar, folding a command's events over what a client showed gives the table after the command, for every command and outcome |
| OrderEvents.EventsDescribeRun | internal/service/v1/order.go:135-373 | the same over whole runs published in commit order |
| OrderEvents.OpeningIsInvisible | internal/handler/v1/realtime.go:235-242 | a client ends up showing the same whether or not it is sent batches |
| OrderEvents.SameRowsCleared | internal/domain/order_events.go:39-49 | the orders before a clear's cut-off instant are those whose shown creation date is before its date |
| Pagination.List | internal/repo/order.go:34-102 | the query with one extra row returns the error of a bad cursor or status, or a page of which PageColumns holds |
| Pagination.PageColumns | internal/repo/order.go:34-102 | in the columns of the rows: a page holds stored orders of the workspace and status after the cursor, in the order of its listing, at most the limit; without a next cursor all of them; with one it is full, the cursor is its last row, and what it leaves comes after and is not empty |
| Pagination.CursorMeansBeyond | internal/repo/order.go:53-77 | the three cursor predicates each say: after the cursor in the listing's order |
| Pagination.PageMeaning | internal/repo/order.go:82-101 | a page holds, in order, exactly the matching rows beyond its cursor and not beyond the next one |
| Pagination.NextRows | internal/repo/order.go:86-95 | what the next cursor selects is exactly what the page left |
| Pagination.FrozenWalk | internal/repo/order.go:34-102 | on a frozen table the walk terminates, pages are full but the last, only a sole page can be empty, the nil cursor marks the last page, and pages concatenate to the sorted listing |
| Pagination.NothingTwice | internal/repo/order.go:53-77 | over arbitrarily changing tables, an order that keeps its place is not returned twice |
| Pagination.NothingTwiceForward | internal/repo/order.go:53-77 | the same for an order that moves, as long as it never moves back |
| Pagination.NothingMissed | internal/repo/order.go:82-95 | over arbitrarily changing tables, an order that keeps its place and always matches is returned by the time the walk ends |
| Pagination.MissedOnlyByJump | internal/repo/order.go:53-95 | wherever an order moves, an ended walk in which it always matched misses it only if it jumped the cursor between two requests |
| Pagination.SkippedIffJumped | internal/repo/order.go:61-95 | an order that always matched and never moved back is missing from an ended walk if and only if it jumped the cursor |
| Pagination.CompletedWalkCanMiss | internal/repo/order.go:61-72 | a completed order whose completion time moves forward is skipped |
| LivePagination.TablesAreKeyed | internal/repo/order.go:34-102 | every table the mutations produce can be walked |
| LivePagination.NoOrderTwice | internal/repo/order.go:53-95 | over any run of the service between pages, a walk of all or uncompleted orders returns no order twice |
| LivePagination.NoOrderMissed | internal/repo/order.go:53-95 | and it returns every order that matched at every request |
| LivePagination.CompletedSkippedIff | internal/repo/order.go:61-95 | over any run whose clock readings for an order do not go back, a walk of completed orders returns it at most once, and skips it if and only if it jumped the cursor |
| Reports.AggregateReport | internal/domain/report.go:169-298 | the single pass computes, for every metric, the number or sum its definition selects, the averages and ratios derived from them, and the top five half hours |
| ReportFigures.BasicFigures | internal/domain/report.go:193-212 | each counter is the number of positions whose order has these columns, revenue and eggs the sum of theirs |
| ReportFigures.ChoiceFigures | internal/domain/report.go:214-233 | the same for the four staples, none, unknown ones, and the customizations |
| ReportFigures.TimingFigures | internal/domain/report.go:239-252 | a half hour counts the orders placed in the window whose wall clock was in it; preparation counts and adds trusted times only |
| ReportFigures.RatesMeaning | internal/domain/report.go:255-274 | which two figures each average and ratio divides, nearest integers and exact ratios, zero where there is nothing to divide by |
| ReportFigures.PeaksMeaning | internal/domain/report.go:276-298 | the peak list names at most five non-empty half hours with their counts, busiest and then earliest first, and nothing left out comes before what is listed |
| Reports.CountOrder | internal/domain/report.go:188-253 | one order changes each counter exactly by what it counts for |
| Reports.CountBasics | internal/domain/report.go:193-212 | price, egg, takeout and size counters move as their definitions say |
| Reports.CountChoices | internal/domain/report.go:214-233 | staple and customization counters move as their definitions say, overlap counted once in the union |
| Reports.CountTiming | internal/domain/report.go:239-252 | half-hour and preparation counters move as their definitions say |
| Reports.CustomizationFlags | internal/domain/report.go:340-348 | lean-only means exactly one lean pork, no-intestine means neither intestine |
| Reports.BucketInRange | internal/domain/report.go:241-246 | the range guard of the half-hour counters never fails |
| Reports.RankBuckets | internal/domain/report.go:276-288 | the ranking holds exactly the non-empty half hours, strictly ordered |
| Reports.PeakBuckets | internal/domain/report.go:276-298 | the peak list is that of a top five |
| Reports.RankingIsTopFive | internal/domain/report.go:289-291 | cutting the ranking at five leaves out nothing that ranks above what is kept |
| Reports.TopFiveIsUnique | internal/domain/report.go:282-291 | there is only one top five, whichever way it was sorted |
| Reports.RoundedIsNearest | internal/domain/report.go:255-274 | averages are the nearest integer, halves away from zero |
| DailyReports.CountsAddUp | internal/domain/report.go:193-233 | every completed order is of exactly one staple category and at most one size category, and the customization union counts overlaps once |
| DailyReports.RatesAreShares | internal/domain/report.go:258-271 | every ratio is between zero and one, and the standard-size ratios add up to one |
| DailyReports.ReportIgnoresOrder | internal/domain/report.go:188-253 | permuting the input changes no counter and not the peak list |
| DailyReports.BucketsAccountForAll | internal/domain/report.go:239-247 | the 48 half hours together count every validly timed order placed and completed in the window, once |
| DailyReports.DaysTile | internal/domain/report.go:53-78 | on a range whose inner boundaries are first instants, an order of the whole window is in exactly one day's window, that of its date |
| DailyReports.WindowIsDateIff | internal/domain/report.go:53-65 | the window of a date is exactly that date if and only if it runs from its first instant to the first of the next |
| TimeZones.WindowsMeetIff | internal/domain/report.go:53-65 | around a regular end of a date, consecutive windows meet if and only if the midnight of the first exists; otherwise they leave a gap or overlap, by where the library places the midnight |
| TimeZones.SkippedMidnightLosesOrder | internal/domain/report.go:53-65 | a western zone and an order that is in no date's report, though the daily query groups it under its date |
| TimeZones.SkippedMidnightRepeatsOrder | internal/domain/report.go:53-65 | an eastern zone and an order that is in two dates' reports |
| TimeZones.RepeatedMidnightMovesOrder | internal/domain/report.go:53-65 | a zone and an order that is in the report of the date before the one it is grouped under |
| TimeZones.RepeatedMidnightClearsTooMuch | internal/service/v1/order.go:328-332 | in that zone a clear deletes an order that clients keep |
| DailyReports.DailyAgreesWithReport | internal/service/v1/stats.go:39-76 | the daily endpoint refuses exactly reversed and too long ranges and, where the windows are the dates, 32-bit-overflowing ones; otherwise there one row per date, descending, each equal to that date's report, adding up to the report of the range |
| DailyReports.DailyAgreesIff | internal/repo/stats.go:50-104 | the daily rows are the reports of their dates, whatever the orders, if and only if the windows of the range are its dates |
| DailyReports.DailyRefusesWhatReportAdds | internal/repo/stats.go:64-66 | two orders that have a report and no daily rows |
| RefreshTokens.TokenTable.Refresh | internal/service/v1/auth.go:144-200 | succeeds if and only if the presented token is stored, unspent, not past its expiry and access is granted; each refusal under its exact condition changes nothing; success inserts a replacement for the bearer named by the claims, valid for the lifetime from now, spends the presented token on it and leaves the rest |
| RefreshTokens.DoneRefreshPassed | internal/service/v1/auth.go:153-196 | in every run, a finished refresh had access, came no later than the expiry of its token, and its replacement is stored |
| RefreshTokens.CommitsRenew | internal/service/v1/auth.go:153-196 | in every run, each commit replaces a usable token by one for the same bearer that is valid for the lifetime from the refresh's time, and leaves the other tokens alone |
| RefreshTokens.ChainsAreLinear | internal/service/v1/auth.go:153-196 | in every run of logins and concurrent refreshes, tokens form disjoint acyclic chains, one per login, each with exactly one unrotated token at its end; version is 2 if rotated and 1 if not |
| RefreshTokens.OneRefreshPerToken | internal/service/v1/auth.go:156-165 | of the refreshes that present a token at most one succeeds |
| RefreshTokens.RotatedOnce | internal/repo/refresh_token.go:75-91 | a rotated token is never written again |
| RefreshTokens.StepKeepsClaims | internal/service/v1/auth.go:144-196 | every refresh works for the user and workspace its token was issued to |
| RefreshTokens.StepsMakeRefresh | internal/service/v1/auth.go:153-196 | a refresh that waits for no lock does, step by step, what the transaction does |

## Left out

- HTTP handlers, routers, DTO copying, response envelopes and the mapping of errors to statuses.
- PASETO, Argon2, SHA-256 and base64: a presented token is named by the id of its row, a cursor is its decoded content or garbled.
- JSON: the text of identifiers and times is a parameter; a note that is not valid UTF-8, a payload that cannot be decoded again, and times that print longer than 25 characters are not modelled.
- PostgreSQL: tables are maps; the conditional UPDATE with its commit is one step, justified by its row lock; a failing connection shows up only as an aborted refresh or a failed write.
- Time-zone tables: calendars are arbitrary, and the zones of TimeZones.dfy have one change each. Zones whose clock goes back to an earlier date, or that drop a whole date, are not covered.
- Pings, heartbeats, deadlines, the ready message, the read loop and origin checks: heartbeats are no business events; a failed write ends the loop, and a frame cut off by it counts as not written.
- Delivery.NoGap: says what is written in which order, not that anything is written in time; the endless write loop is a step function.
- Reports.AggregateReport: averages and ratios are exact quotients, where the program rounds in binary floating point; sorting is by insertion where it calls a library sort.
- Reports.AggregateReport: orders are those of one workspace; the workspace filter of the query is not part of the report.
- Pagination.List: ORDER BY is the unique ascending order of the selected rows; the service's own status check before it is the same check.
- Order: fifteen columns copied from the form are one field, so that their copying one by one is not modelled; the version column is unbounded where the database has 64 bits.
- OrderStore.RunKeepsStore: transactions are atomic there; the statement-level results are InterleavedClearBreaksNumbering and InterleavedClearIsSoundIff.
- OrderEvents.EventsDescribeRun: events are published in commit order, as are those of EndToEnd.CaughtUpClientIsCurrent; the program publishes after each commit without ordering concurrent publishers. OrderRaces says what holds then.
- OrderRaces.RacingClientIsCurrent: says nothing of orders no longer stored, whose upsert may follow their deletion; batch frames are taken apart into their rows.
- OrderService.Service.ClearWorkspace: the role check is a flag, the owner's.
- RefreshTokens.TokenTable.Refresh: decrypting the token is left out; in the concurrent model a token yields the claims it was issued with. The code never revokes a token, so there is no revoking step.
- RefreshTokens.TokenTable.Login: the password and membership checks before the insert.
- Events: the client is not part of the repository; folding events in publish order, or keeping the highest version, stands for it.
- SessionManager, tracing, shutdown, configuration, the command line, phone numbers, role permissions and ListActive.
