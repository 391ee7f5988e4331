# Servicesim request path: model and proofs

Servicesim answers HTTP requests the way a vendor would, under a scenario that scripts turns, faults,
asynchronous jobs and server-sent event streams. This project models the part of it that every request
goes through, and proves what that part promises:

- the poll/cancel protocol of one job, as a transition system in which any number of polls and cancels
  interleave at their atomic points (`Jobs`, `Cancel`, `CancelRuns`), and the operations themselves, step by
  step and on the job store (`CancelSteps`, `CancelLoop`), with the turn scripts they serve from and the load-time check on them (`Turns`,
  `Regressions`);
- the lane keys, the fault engine that counts calls under them, the plans it draws attempts from, and
  the creation of jobs on top of it (`Lanes`, `Paths`, `Routes`, `Faults`, `Engine`, `EngineRuns`,
  `Minting`);
- a request's life from its claim to its journal entry, for every fault kind, delay, stream and client
  (`Connections`, `Executor`, `Handling`, `Lifecycle`, `Rejections`, `Entries`, `Delivery`), with what its
  client is sent and how long it waits for it (`Replies`, `StreamReplies`, `Waits`) and what its entry says
  was asked for (`Journal`);
- streams: printing, parsing, planning, writing, and the load-time check on stream faults (`Sse`,
  `Streams`, `StreamChecks`);
- alias resolution in a possibly cyclic document graph, and how many visits it takes (`Aliases`,
  `AliasVisits`, `AliasResolver`);
- the pacing assertions (`Rates`).

What the source changes step by step is a class or a loop here: the job store, the fault engine, the
exchange, the connection with its journal entry, the alias resolver, the encoder, the parser and the
checks. Each such method is proved to do what a function of its inputs and of the state it met says, and
the properties are proved about that function: over every run, every interleaving, every client.

## How the pieces are modelled

- **Interleavings.** A poll is a claim, then an advance of the record; a cancel is a claim, a lookup, and
  compare-and-sets with peeks between them. Each is one event; a run is any list of events. `CancelLoop`
  has the two operations as methods over the store, with arbitrary other requests of the job, resets
  included, landing before each store operation of a cancel; `CancelSteps` says what they answer on the
  records they read, and that the cancels of a run are such loops on what the rest of the run did.
- **A handler that panics** is one that stops after some of its actions, raises a finding and answers with
  the profile's own 500, which is what the mux that serves it makes of the panic
  (`provider/mux.go:107-129`).
- **Alias visits.** `AliasVisits.Visits` counts what resolving a document with no bound would visit; the
  resolver is proved to spend exactly that, so the bound decides exactly which documents it refuses.
- **The client.** `Connections.World.client` gives, for the n-th hang or write a request makes, `None`
  while the client stays or how many bytes it took before it went. A patient client is one that always
  stays. Whether delays are skipped, and the JSON merge, are the other two inputs from outside.
- **A trace** is the list of what a request did: claim, append, close, headers, bytes with their owner,
  reset, abort. Owners keep a replaced body apart from the handler's even when the bytes agree. A log also
  keeps the hangs the request began.
- **The net/http rules used**: 101, 204 and 304 take no body, any other 1xx is interim and 200 follows.
- **Assumed**: a route's fault key is not empty and has neither `/` nor `|`; an extractor's value is any
  string; a job identifier encoder is injective and otherwise unknown; a paired reset of counters and
  records is one step.

## Where the code and what is said about it part

The model follows the code; the lemmas named here say exactly when the two agree.

- A `FaultBody` that returns nil leaves the handler's body even when the attempt declares a `body:`
  (`provider/fault_exec.go:319-328`; `provider/response.go:44-46` says the declared body wins). This, a
  declared body that does not marshal, a kind the switch does not name, and a handler whose own status
  shows no body are all the ways the delivery prediction can be wrong: `Delivery.PredictionIsExact`,
  `Delivery.PredictionFails`.
- A rejected request's attempt never reaches the wire (`provider/handle.go:317-373`), but a request that
  fails because its `accepted` attempt had nothing to keep is still faulted by it
  (`provider/handle.go:376-391`): `Rejections.FailedRequestsAreFaultedExactlyWhen`,
  `Rejections.AnAcceptedAttemptFaultsAFailedRequest`.
- Namespaces do not see each other's counters, but they share the bound on how many may exist, so one
  that holds no slot can be refused because of another:
  `EngineRuns.OtherNamespacesInterfereOnlyThroughTheBound`, `EngineRuns.AdmittingOneRefusesAnother`.
- An `Uncommitted` cancel's snapshot is broken exactly by another cancel recorded at the very position it
  was judged at; every other answer is kept in every continuation: `CancelRuns.PromiseIsKept`,
  `CancelRuns.AnUncommittedAnswerIsBroken`.
- A create decides whether to keep its job on the attempt its claim drew, but a response that opts out of
  faults afterwards has that attempt taken back (`provider/jobs.go:258-277` assumes it does not happen):
  `Delivery.JobsAreKeptExactlyWhenTheReplyArrives`, `Delivery.OptingOutLosesTheJob`.
- An attempt of no kind with a status of its own sends that status and journals the handler's
  (`provider/fault_exec.go:89-97`, `:200-203`): `Delivery.ReportedStatusIsSent`,
  `Delivery.ARedirectGoesUnreported`.
- A truncation is journaled before its bytes are written, so under a status that takes no body, or with a
  client that leaves in the write, its entry counts bytes that never arrive:
  `Entries.OrdinaryEntriesTellTheTruth`, `Entries.AnUnsentTruncationIsCounted`,
  `Entries.AnAbandonedTruncationIsOvercounted`.
- A stream abort past the last chunk is journaled and does not happen; the load-time check is what rules
  it out: `Entries.StreamsRunTheirScript`, `Entries.AnAbortPastTheEndDoesNotHappen`,
  `Entries.CheckedFaultsFire`.
- Printed frames parse back except for one trailing carriage return per line, and for event names that
  span lines: `Sse.RoundTripExactly`, `Sse.SomeFramesDoNotRoundTrip`.
- Extractor values may carry the separator, so two requests can spell one lane key. They do exactly when
  their contributions have the same separated fields; where no value carries a separator, only when all
  values agree; and for two extractors with different values, exactly when one first value spells the second
  extractor:
  `Lanes.LanesMeetExactlyWhenFieldsDo`, `Lanes.SeparatorFreeLanesAreApart`,
  `Lanes.TwoExtractorsMergeExactlyWhen`, `Lanes.ExtractorValuesCanMerge`.
- On a lane the engine serves no counter, a kept create sent again collides with itself, and only there:
  `Minting.RepeatedCreatesCollideExactlyWhenUnserved`.

## Model

| member | source | states |
|---|---|---|
| CancelRuns.PollsAreServedByPosition | provider/cancel.go:109-140 | in every interleaving an answered poll was served what the final record says about its position alone: `cancel.turns` at i - p from a recorded cancel p on, the job's turns at i before |
| CancelRuns.ScheduleIsInvisible | provider/cancel.go:27-30 | two runs that end with the same recorded cancel serve every position alike, however they were scheduled |
| CancelRuns.PositionsAreUnique | provider/cancel.go:118-119 | no two polls are served the same position |
| CancelRuns.StepOnlyGrows | testkit/server.go:203-219 | one step never lowers the position, moves a recorded cancel or changes a decided one |
| CancelRuns.RunOnlyGrows | testkit/server.go:203-219 | nor does any continuation of a run |
| CancelRuns.DecisionIsAtomic | provider/cancel.go:230-290 | a cancel's answer is about the position the record holds at its deciding store operation; only Recorded writes, and writes exactly that position |
| CancelRuns.OneCancelIsRecorded | provider/cancel.go:27-64 | at most one compare-and-set of a job ever succeeds |
| CancelRuns.PromiseIsKept | provider/cancel.go:27-64 | in every continuation the poll at a decided cancel's position gets the very snapshot it answered with, if and only if it was not Uncommitted with a cancel recorded there since |
| CancelRuns.AnUncommittedAnswerIsBroken | provider/cancel.go:27-64 | the exception happens: a run in which the poll at an Uncommitted cancel's position is served the cancel script |
| CancelRuns.ServedInOrder | provider/cancel.go:249-270 | along one record neither script nor a recorded cancel leads from a terminal snapshot to a live one |
| CancelRuns.TerminalIsAbsorbingAcrossACancel | provider/turn.go:72-97 | when neither script regresses, no live snapshot follows a terminal one in poll order, in any run, even across a cancel recorded in the middle |
| CancelRuns.CleanReportMeansNoRegression | provider/turn.go:98-136 | an empty load-time report on a declared script is that condition |
| CancelRuns.PositionTracksClaims | provider/cancel.go:10-18 | the position never exceeds the lane's claims, equals them when no poll is between claim and advance, and a cancel is never recorded past it |
| CancelRuns.ContentionIsReal | provider/cancel.go:196-297 | a cancel that gives up as contended has read nine strictly rising positions inside its own interval |
| CancelLoop.SelectPollTurn | provider/cancel.go:109-140 | a poll advances the record to at least i + 1 and serves what the advanced record says at its index; a job dropped since is served from its own turns |
| CancelLoop.Decide | provider/cancel.go:230-270 | one round goes on to the compare-and-set if and only if the record is unmarked, its next snapshot live, the attempt commits and the cancel script answers; otherwise it answers by which of these failed |
| CancelLoop.Attempt | provider/cancel.go:267-290 | one compare-and-set after any other requests: the reply and the record it leaves are those of the automaton's step on the record it met, and nothing else moves but what a reset among them drops |
| CancelLoop.CancelJob | provider/cancel.go:196-297 | whatever other requests land before each of its store operations, the retry loop answers what the records it read say, case by case, leaves the record as they would but for its own mark, and moves nothing else but what a reset among them drops |
| CancelSteps.CancelsAnswerTheirReads | provider/cancel.go:230-296 | every outcome exactly when: gone, already cancelling, terminal, uncommitted and unscripted from the record met, recorded when an unmarked record is met where it was last read, contended when none of nine is |
| CancelSteps.CancelsAreRecordedOnceStill | provider/cancel.go:27-64 | while every record read is unmarked and live, under an attempt that commits and with a cancel script, a cancel is recorded if and only if two consecutive reads of nine are at one position, and contended otherwise |
| CancelSteps.CancelsWriteOnlyTheirMark | provider/cancel.go:27-64 | such a loop always decides; it leaves the record as the other requests alone would, but for the one mark a recorded cancel makes over an unmarked record at the position it answers for; it says gone only of a job that is; and contended only after nine strictly rising positions |
| CancelSteps.InterleavedCancelsAreLoops | provider/cancel.go:196-297 | in every interleaving of any number of polls and cancels, a decided cancel answered as its loop does on what the rest of the run did between its store operations, and the record is what that leaves |
| Cancel.RunKeepsInv | provider/cancel.go:27-64 | the protocol's invariant holds in every run of any number of polls and cancels |
| Jobs.Registry.Create | internal/jobs/jobs.go:373-398 | a duplicate if and only if the identifier is live, full if and only if it is not and the namespace holds its bound, and nothing written then; otherwise files exactly the new record |
| Jobs.Registry.Advance | internal/jobs/jobs.go:412-424 | raises the position to at least i + 1 and changes nothing else |
| Jobs.Registry.MarkCancel | internal/jobs/jobs.go:428-447 | writes the cancel only when none is recorded and the position is the one given, and answers with the record as it is |
| Jobs.Registry.ResetIn | internal/jobs/jobs.go:460-466 | drops exactly one namespace's records |
| Jobs.PutKeepsFiling | internal/jobs/jobs.go:373-398 | a filed record keeps every namespace within its bound |
| Turns.SelectIsFirst | provider/turn.go:43-55 | selection is the first matching turn, and none only when none matches |
| Turns.SelectTurn | provider/turn.go:34-55 | the search returns that selection |
| Turns.MatchesExactly | scenario/model.go:987-1016 | a predicate matches if and only if the call has its index, the route answers to its name, the body reads around its text and the decoded body holds each field it names |
| Turns.BodyPredicatesMatchNoPoll | provider/turn.go:90-97 | a predicate on a body never selects a poll |
| Turns.UnnamedPollsAreAlike | provider/turn.go:72-97 | polls no turn names by index are served alike |
| Regressions.TerminalRegressions | provider/turn.go:98-136 | the sparse evaluation returns exactly the regressions of all polls: each report names the first terminal poll and its turn, and the first later poll served the blamed turn live; one for every such turn, in poll order; as walking polls 0..n would for every n past the highest named call index |
| Regressions.SparseWalkIsExact | provider/turn.go:72-136 | a walk over covering positions equals the naive walk |
| Regressions.NaiveWalkReports | provider/turn.go:56-71 | the naive walk reports exactly the regressions of its polls |
| Regressions.NaiveWalkMeaning | provider/turn.go:72-97 | the naive walk is empty exactly when no poll up to n regresses |
| Regressions.NothingReportedMeansAbsorbing | provider/turn.go:72-97 | nothing is reported exactly when no poll, however late, regresses |
| Regressions.NamedPositions | provider/turn.go:98-112 | the positions collected are the ones turns name, and the next ones, and 0 |
| Lanes.SplitRecoversExactly | provider/lane.go:127-167 | the split recovers namespace and key of any lane if and only if the lane is not an unprefixed one whose key opens like a namespace |
| Lanes.ComposedKeysAreUnscoped | provider/lane.go:475-550 | no key a request composes opens like a namespace |
| Lanes.SplitInvertsCursorKey | provider/lane.go:127-167 | the split inverts the composition for every namespace and every extractor value, and its first part is the request's own fault key |
| Lanes.CursorKeysAreInjective | provider/lane.go:127-167 | distinct namespaces, routes or lane keys never share a counter |
| Lanes.JobLanesAreInjective | provider/lane.go:555-562 | two jobs never share a lane |
| Lanes.ContributesExactly | provider/lane.go:598-616 | what an extractor contributes: its name and its value, a scalar of at most 128 characters or a path value that could be an identifier |
| Lanes.ExtractorsAreAccountedFor | provider/lane.go:475-550 | every extractor contributes, restates the route or is warned about |
| Lanes.ExtractorValuesCanMerge | provider/lane.go:601-616 | two different pairs of extractor values that spell one key |
| Lanes.LanesMeetExactlyWhenFieldsDo | provider/lane.go:475-550 | for all extractors and values, two requests of a route share a lane key if and only if their contributions have the same separated fields |
| Lanes.EvenLanesAreApart | provider/lane.go:601-616 | with as many separators slot by slot, they share it if and only if they contribute the same |
| Lanes.SeparatorFreeLanesAreApart | provider/lane.go:601-616 | when no contributed value carries a separator, requests of one shape share a lane if and only if every extractor found the same value on both |
| Lanes.TwoExtractorsMergeExactlyWhen | provider/lane.go:598-616 | for two extractors and any values, the keys are equal if and only if the values are, or one first value goes on from the other's with the second extractor's text and what the other second value opens with |
| Lanes.TurnLaneKey | provider/lane.go:475-550 | composes that key, with one warning for every extractor that contributed nothing |
| Paths.SplitInvertsAddressing | provider/lane.go:243-303 | route and names of an addressed path are recovered if and only if no absent prefix is what the route itself opens with |
| Paths.BaseURLsSelectTheirNamespace | testkit/server.go:976-982 | a request to a namespace's base URL matches the plain route and is served in that namespace, whatever its header says |
| Paths.RequestsAreServedIn | provider/lane.go:310-344 | a request is served in the namespace its path names, else the one its header does, else the default; a path that names one that cannot be never falls back to the header |
| Paths.RequestNamespacesAreValid | provider/lane.go:310-344 | whatever path and header, it is one that can be a namespace |
| Paths.BadNamespacesAreTakenOff | provider/lane.go:243-303 | a value that can be no namespace is taken off the path and reported, and the route behind it served in the default |
| Paths.BareBaseURLsAddressTheRoot | provider/lane.go:243-303 | a path that is all prefix addresses the root, and none addresses nothing |
| Routes.Register | provider/profile.go:814-830 | the engine registers exactly the profiles' namespaced routes, in order |
| Routes.RequestKeysAreRegistered | provider/profile.go:766-812 | the fault key a listener's request uses is one the engine registered |
| Routes.InstancesAreDisjoint | provider/profile.go:742-764 | two instances of one kind never share a fault key |
| Routes.PrimaryMeetsInstance | provider/profile.go:742-764 | a kind's own listener shares a key with an instance if and only if it declares one that spells the instance's qualifier |
| Routes.QualifiedPrimaryIsDisjoint | provider/profile.go:742-764 | a primary that qualifies its keys with its own name never does |
| Routes.InstancingKeepsRouteMatching | scenario/model.go:1051-1073 | instancing a listener leaves its routes answering to the same documented names, plus their own full spelling |
| Routes.QualifiedNamesNeverWiden | scenario/model.go:1051-1073 | a qualified name selects only keys that end in all of it |
| Routes.RouteMatchesExactly | scenario/model.go:1051-1073 | a name selects its own key, or a key that is the name behind qualifiers: one for a qualified name, any number for a bare one |
| Faults.ExpandFault | provider/fault_engine.go:281-307 | the flat plan has as many attempts as the repeats sum to, and holds at every index the attempt whose cumulative interval contains it |
| Faults.OwnerIsUnique | scenario/fault.go:358-365 | no index belongs to two attempts |
| Faults.PlanAgreesWithRunLength | provider/fault_engine.go:309-320 | at every index, in range or not, the flat plan answers as the run-length plan prescribes |
| Faults.PlannedAttemptsAreDeclared | provider/fault_engine.go:281-320 | every attempt it hands out is a declared one |
| Faults.KindsAreInferredInOrder | scenario/fault.go:220-240 | a declared kind stands; otherwise the first clue an attempt carries, in the order tried, decides, and none leaves it without a kind |
| Engine.SetFaultEngine.constructor | provider/fault_engine.go:94-125 | one plan and counter per distinct fault key, the first route of several deciding the plan |
| Engine.SetFaultEngine.PlanForParts | provider/fault_engine.go:165-172 | finds the first part that is a registered key |
| Engine.PlanForIsFirst | provider/fault_engine.go:165-172 | and it is the first, and none only when no part is registered |
| Engine.SetFaultEngine.LaneCounter | provider/fault_engine.go:174-214 | creates a lane's counter on first use, unless its namespace would go over the bound, and then changes nothing |
| Engine.SetFaultEngine.Next | provider/fault_engine.go:127-163 | answers if and only if the key is registered, or a part of it is and the key has a counter or its namespace a slot or a free one; then with the number of calls before, the key itself, and the attempt of the first registered part's plan there |
| Engine.CallsAreAnswered | provider/fault_engine.go:127-163 | the same of the specification of a call |
| Engine.SetFaultEngine.AdmitNamespace | provider/fault_engine.go:216-240 | takes a slot if one is free, and says whether it holds one |
| Engine.SetFaultEngine.Reset | provider/fault_engine.go:242-250 | zeroes every counter and frees no slot |
| Engine.SetFaultEngine.ResetIn | provider/fault_engine.go:252-279 | drops exactly one namespace's counters and frees its slot; the default's are zeroed in place |
| EngineRuns.RunKeepsValid | provider/fault_engine.go:57-92 | in every run the live namespaces stay within the bound and every lane outside the default belongs to a live one |
| EngineRuns.AnswersCountCalls | provider/fault_engine.go:127-163 | the engine is a map from lane to call count: an answered call returns the number of its own key's calls since the last reset covering it, and the attempt its plan prescribes there |
| EngineRuns.AdmissionIsKept | provider/fault_engine.go:216-240 | once admitted, no call on a lane of the namespace that embeds a registered key is refused until that namespace is reset, whatever others do |
| EngineRuns.SlotsAreHeldByWhoTookThem | provider/fault_engine.go:174-240 | in every run a namespace holds a slot if and only if an admission or a call on a registered lane took one while one was free, and no reset of it has followed |
| EngineRuns.OwnFaultKeyIsRecovered | provider/fault_engine.go:165-172 | every key a request composes finds its own route's plan |
| EngineRuns.OtherNamespacesInterfereOnlyThroughTheBound | provider/fault_engine.go:174-214 | an operation elsewhere changes an answer if and only if the namespace holds no slot, and either one slot is free and the operation takes it, or none is and the operation is the scoped reset of a namespace that holds one |
| EngineRuns.AdmittingOneRefusesAnother | provider/fault_engine.go:174-214 | a concrete engine on which admitting one namespace turns another's first answer into a refusal |
| EngineRuns.NamespacesDoNotInterfere | provider/fault_engine.go:252-279 | a namespace that is never refused gets, in every run, exactly the answers it would get alone |
| EngineRuns.AdmittedNamespacesDoNotInterfere | provider/fault_engine.go:216-279 | a namespace whose first operation is an admission that succeeds, and that is not reset after it, is never refused and gets on every call the answer it would get alone, whatever others do before and after |
| Minting.NoCollision | provider/jobs.go:278-351 | a create of a registered route never meets a duplicate identifier |
| Minting.LiveJobsAreBacked | provider/jobs.go:278-351 | in every run each live job's create index is below its lane's counter, no namespace is over its bound, and the next create meets no duplicate |
| Minting.RecordsAreExactlyTheKeptCreates | provider/jobs.go:194-209 | in every run a record exists exactly for the creates that were not refused, whose attempt commits, and that no paired reset has covered |
| Minting.KeptIdentifiersResolve | provider/jobs.go:393-402 | in every run the identifier a kept create answered with resolves through the entry that served it, and through no other, until a reset covers it |
| Minting.MintJob | provider/jobs.go:278-351 | on the engine and the store: every reply exactly when, from the admission, the identifier, the claimed attempt, the live record and the bound; the one record of a create that mints under an attempt that keeps jobs, and nothing else; full only at the bound |
| Minting.CreatesAreAnswered | provider/jobs.go:278-351 | the same split of every create of a run |
| Minting.CreatesAreFiled | provider/jobs.go:278-351 | and what it leaves in the store |
| Minting.ResolveJob | provider/jobs.go:393-402 | resolves exactly the valid identifiers of live jobs minted through the same entry |
| Minting.ResetNamespace | internal/admin/handler.go:352-375 | drops one namespace's counters and records together |
| Minting.ResetAll | internal/admin/handler.go:318-330 | zeroes every counter and drops every record together |
| Minting.ResetKeepsInv | internal/admin/handler.go:352-375 | dropping one namespace's counters and records together keeps every other job backed |
| Minting.RepeatedCreatesCollideExactlyWhenUnserved | provider/jobs.go:278-351 | a kept create sent again collides if and only if the engine serves its lane no counter, which for a key read in its own namespace is that no part of the key is registered |
| Sse.EncodeFrame | provider/stream.go:168-187 | prints an optional event line, one data line per line of data, and a blank line |
| Sse.FramesAreSpelled | provider/stream.go:168-187 | a printed frame character by character, every newline of the data opening a data line |
| Sse.EncodeSSE | provider/stream.go:143-166 | one chunk per event, and refuses exactly the sequences with a second terminal frame |
| Sse.ParseSSEFrames | testkit/golden.go:288-319 | the line-by-line loop parses as the specification does |
| Sse.FieldsAreRead | testkit/golden.go:270-319 | any line with a colon: event sets, data appends, anything else is ignored, one space after the colon and one carriage return at the end are not the value's |
| Sse.OtherLinesAreRead | testkit/golden.go:288-319 | a blank line ends the frame that is open, if any; a line without a colon is ignored |
| Sse.UnterminatedFramesCount | testkit/golden.go:288-319 | a frame still open at the end of the transcript counts |
| Sse.ParsePrinted | testkit/golden.go:270-319 | a printed frame list parses back to itself, each line short of one trailing carriage return, whatever else it contains |
| Sse.RoundTripExactly | provider/stream.go:143-187 | parsing what was printed gives the list back if and only if every name is one line and no line ends in a carriage return |
| Sse.SomeFramesDoNotRoundTrip | testkit/golden.go:288-319 | a frame that loses its carriage return, and one whose name does not come back |
| Sse.CutAtAFrameBoundary | scenario/fault.go:30-39 | a transcript cut before chunk k parses to exactly the first k frames |
| Streams.PlannedBytes | provider/stream.go:130-141 | the planned total is the length of everything an uninterrupted run writes |
| Streams.StallsAddTheirDelayOnce | provider/stream.go:260-293 | an attempt changes the planned pace only as a stall at an existing chunk, by its delay, once |
| Streams.ExecuteStream | provider/stream.go:370-462 | the write loop does what the specification of the run does, its report included |
| Streams.StreamAccounts | provider/stream.go:393-462 | whatever the client does, the run reports exactly the bytes and whole chunks it put on the wire, and only a client gone or a bodiless status makes them less than the script |
| Streams.WireIsTheScript | provider/stream.go:255-283 | with a client that stays the wire is chunks [0,k), plus the head of chunk k for a truncation, or everything; the report says exactly so and aborts exactly when the chunk exists |
| Streams.LostClientsHoldAPrefix | provider/stream.go:393-462 | a client lost at any point holds a prefix of the script, of exactly the reported length, with the reported chunks whole in it |
| Streams.TranscriptParses | testkit/golden.go:288-319 | a client that stays parses a disconnected stream to the frames before the cut, and a whole one to every frame and the sentinel's |
| StreamChecks.TurnFault | provider/turn.go:182-193 | a route's plan is the first one any turn declares with attempts |
| StreamChecks.MinChunks | scenario/stream.go:480-485 | the smallest chunk count of any turn, or -1 without turns |
| StreamChecks.TurnsHaveChunks | scenario/stream.go:402-421 | a turn's stream has its provider's own count of chunks, and otherwise one for each delta and a terminal one; never none |
| StreamChecks.EntriesStreamByTheirFirstTurn | scenario/stream.go:179-193 | an entry streams if and only if its first turn's script says so, or says nothing and has deltas |
| StreamChecks.ValidateStreamFaultMismatch | scenario/stream.go:475-556 | reports exactly the mismatched attempts, once each, in declaration order |
| StreamChecks.UnreportedMeansInEveryTurn | scenario/stream.go:446-465 | the minimum is the right bound: a streaming attempt goes unreported if and only if its chunk exists in every turn's stream |
| StreamChecks.CoherentChunksExist | scenario/stream.go:446-465 | any streaming attempt a checked entry's plan can draw, at any call, names a chunk every turn has |
| StreamReplies.ChecksRefuseWhatIsDropped | scenario/stream.go:475-556 | the check refuses on a streaming entry exactly the attempts that assume an ordinary body and the chunks no turn has, and on any other exactly the stream kinds |
| Executor.WriteOversizedBody | provider/fault_exec.go:549-600 | the body, then spaces up to the size asked for, and the count of what the client took |
| Executor.TruncateBody | provider/fault_exec.go:481-532 | headers, hang, journal, a prefix, reset; and nothing after the hang, the entry included, when the client left in it |
| Executor.Execute | provider/fault_exec.go:186-254 | each kind's writes, outcome and abort are those of its specification, whose every byte a client that stays is shown in `Replies` |
| Replies.FaultBodiesAre | provider/fault_exec.go:309-339 | the body of a faulted response: the renderer's where it is asked and answers, a declared one where there is no renderer, the handler's otherwise, fields merged where they can be; the raw body or its default; or none |
| Replies.FaultedRepliesAreSent | provider/fault_exec.go:186-254 | for every attempt a request that does not stream is faulted with, a client that stays sees exactly the events of its kind: the status, that body whole, padded, truncated to the stated length or none, the reset and the abort |
| Replies.UnfaultedRepliesAreSent | provider/handle.go:408-429 | without an attempt, or with a streaming one it cannot use, which is reported, it sees the handler's status and body |
| StreamReplies.StreamsAreDroppedFor | provider/fault_exec.go:341-373 | a status, an invalid or empty body, a wrong content type, extra fields or a closed connection drops the stream: the request leaves what it would had its handler never streamed, no frame and no close |
| StreamReplies.StreamsAreServed | provider/stream.go:370-462 | any other attempt leaves it: one that assumes a body is reported and does nothing, the rest run it; the client sees the status, each chunk in one write up to the cut, and the ending, with its reset; one close |
| Waits.RequestsHangAsAsked | provider/fault_exec.go:128-153 | with a client that stays a request hangs exactly for its delay, its hang after headers, or the paces of the chunks it writes, the stalled one's delay added once, and the sentinel's, in order |
| Handling.Exchange.Fault | provider/exchange.go:262-276 | the claim is made once, whoever asks first, and answered the same ever after |
| Handling.Exchange.RunHandler | provider/handle.go:296-315 | the handler's claims and findings, and a stream without a grammar replaced by a refusal |
| Handling.Exchange.Decide | provider/handle.go:317-373 | an eligible request claims; any other that claimed an index gives its attempt back and keeps key and index |
| Handling.Exchange.Settle | provider/handle.go:376-462 | an accepted attempt with nothing to keep is reported and stays; one that cannot apply to the exchange is reported and dropped; a suppressing one drops the stream |
| Handling.Exchange.Handle | provider/handle.go:143-582 | the whole request leaves exactly the log its specification says |
| Lifecycle.EveryRequestIsJournaledOnce | provider/handle.go:187-267 | on every path: one entry, carrying the claimed key and index; at most one claim; a stream closed once, anything else never; the entry before any reset, abort or close, and before any byte of a stream or of an attempt that destroys the connection |
| Rejections.RejectedRequestsIgnoreTheAttempt | provider/handle.go:339-373 | a request that is not fault-eligible leaves the same entry, bytes and aborts whichever attempt its claim drew, and the drawn key and index stay in the entry |
| Rejections.FailedRequestsAreFaultedExactlyWhen | provider/handle.go:376-391 | an attempt is applied to a request that ends up failed if and only if it is an accepted one with nothing to keep and the finding that says so counts as an error |
| Rejections.AnAcceptedAttemptFaultsAFailedRequest | provider/handle.go:376-391 | a concrete request of that kind, aborted on the wire |
| Rejections.PanickingHandlersAreAnsweredFor | provider/mux.go:107-129 | a handler that panics after any of its actions, its claim included, leaves the profile's 500 whole on the wire, untouched by any attempt, and one entry with the key and index claimed by then |
| Rejections.EngineAnswersArePromised | provider/fault_engine.go:127-147 | the engine hands out an attempt only with its index |
| Rejections.HandlersDecideByTheirActions | provider/handle.go:296-315 | what a handler claimed, kept and raised, and the refusal in place of a stream without a grammar |
| Rejections.DrawnIsTheClaim | provider/handle.go:317-373 | the attempt a request is faulted with is its claim's if and only if the reply is fault-eligible and nothing raised fails the request |
| Rejections.PoliciesSettleSeverities | provider/exchange.go:499-516 | demotion last, then strictness and promotion, then the severity raised |
| Journal.EntriesTellWhatWasAsked | provider/fault_exec.go:38-126 | whatever its client does, the one entry's kind, label, status, key, index, delays and planned stream follow from the attempt drawn and whether it could apply |
| Journal.FindingsAreRaisedInOrder | provider/handle.go:317-440 | every finding of a request, when it is raised and in which order |
| Entries.StreamsAreAmendedTruthfully | provider/stream.go:464-481 | however its client goes, a stream's amendment counts exactly the bytes received, a prefix of the script, and its entry announced the script's abort and the uninterrupted size |
| Entries.StreamsRunTheirScript | provider/fault_exec.go:116-124 | with a client that stays the wire, the amendment and the abort are the script's, and the announced abort happens if and only if its chunk exists |
| Entries.AnAbortPastTheEndDoesNotHappen | provider/fault_exec.go:116-124 | a concrete stream journaled as aborted and served whole |
| Entries.AnnouncedCutIsTheCut | provider/fault_exec.go:386-417 | the chunk and byte the entry announces for a cut are where the run is cut |
| Entries.CheckedFaultsFire | scenario/stream.go:446-465 | on an entry the load-time check reports nothing about, every aborting stream attempt any call can draw is kept and fires on whichever turn answers |
| Entries.OrdinaryEntriesTellTheTruth | provider/fault_exec.go:38-126 | whatever its client does, a request that does not stream dies exactly when an attempt destroys it with the client still there, is journaled aborted exactly then and when the client left in a hang, before any byte, and counts exactly the bytes on the wire unless it truncates and its client does not get all of what that keeps |
| Entries.AnUnsentTruncationIsCounted | provider/fault_exec.go:38-126 | a concrete entry that counts two bytes of none sent |
| Entries.AnAbandonedTruncationIsOvercounted | provider/fault_exec.go:481-532 | a concrete entry that counts two bytes of which the client took one |
| Delivery.PredictionIsExact | scenario/fault.go:329-347 | the prediction that the client holds the handler's body, whole, padded or merged, in a complete response below 400, is right if and only if it is not one of the listed mispredictions |
| Delivery.PredictionHolds | scenario/fault.go:254-328 | it is right for a known kind under a 2xx handler response with a body, when a declared body can be produced |
| Delivery.PredictionFails | provider/fault_exec.go:319-328 | two concrete requests for which it is wrong, in either direction |
| Delivery.JobsAreKeptExactlyWhenTheReplyArrives | provider/jobs.go:194-209 | on a visit that claims, the attempt the claim drew keeps the job exactly when its client holds the reply or it is marked accepted, if and only if that attempt keeps rightly: for a reply it applies to, when its prediction is right; for any other, when it would have kept the job just if the reply shows a body |
| Delivery.RecordsAreKeptExactlyWhenTheReplyArrives | provider/jobs.go:258-351 | the same of the record in the store, for a create the engine answered as this visit's claim |
| Delivery.SuccessfulCreatesKeepRightly | provider/jobs.go:258-277 | under a success with a body and a known attempt whose declared body can be produced, that is so if and only if the reply stays fault-eligible or the claimed attempt keeps the job anyway |
| Delivery.OptingOutLosesTheJob | provider/jobs.go:258-277 | a concrete create whose client holds the identifier of a job that was not kept |
| Delivery.SeenHandled | provider/fault_exec.go:291-339 | what the client sees of a delivered response is the handler's bytes, fields merged where they can be, then exactly the padding asked for |
| Delivery.ReportedStatusIsSent | provider/fault_exec.go:89-103 | the journaled status is the one sent, if and only if no kindless attempt changes it |
| Delivery.ARedirectGoesUnreported | provider/fault_exec.go:89-103 | a concrete request sent 302 and journaled 200 |
| Aliases.FiniteExactlyWithoutCycles | scenario/alias.go:93-100 | a graph unfolds to a finite tree if and only if no cycle of content and alias edges is reachable |
| Aliases.UnfoldingIsUnique | scenario/alias.go:25-28 | it unfolds to one tree |
| Aliases.NodesUnfoldAsThemselves | scenario/alias.go:117-124 | a node with content is itself over its content's trees, in order; a dangling alias is itself |
| Aliases.AliasesUnfoldAsCopies | scenario/alias.go:85-116 | a live alias is its target's tree path by path, no anchor left, moved to the alias's own line and column and nothing beneath it moved |
| AliasVisits.ResolvingEnds | scenario/alias.go:9-23 | with nothing to bound it, resolving ends on every document without a reachable cycle and on every parsed one |
| AliasVisits.ParsedDocumentsAreWalked | scenario/alias.go:63-73 | on a parsed document it ends from any node, cyclic or not, whichever anchors are active |
| AliasVisits.LoopsExactlyOnCycles | scenario/alias.go:93-100 | a walk that ends has met an active anchor if and only if a cycle is reachable |
| AliasVisits.ResultsAreWithinTheVisits | scenario/alias.go:9-23 | the tree a document resolves to is never larger than the visits resolving it takes, so the bound bounds it too |
| AliasResolver.Resolver.Clone | scenario/alias.go:148-169 | a copy made of new nodes only, denoting the same tree with every anchor cleared, and spending exactly one visit for each node of it; refused exactly when that is past the bound |
| AliasResolver.Resolver.CopyTo | scenario/alias.go:110-115 | that copy at the alias's own position |
| AliasResolver.Resolver.ResolveAlias | scenario/alias.go:85-116 | a live alias becomes a copy of its resolved target, or an error exactly of the kind found |
| AliasResolver.Resolver.ResolveContent | scenario/alias.go:117-124 | any other node keeps its identity, its content resolved entry by entry in place |
| AliasResolver.Resolver.Resolve | scenario/alias.go:77-125 | the tree of the original document, in place, touching only what lies beneath the node and spending exactly the visits the walk of the original takes; a cycle is reported only for a node that returns to an active one, a refusal only past the bound |
| AliasResolver.ResolveAliases | scenario/alias.go:58-73 | succeeds if and only if no cycle is reachable and the visits resolving takes are within the bound, with the document's unfolding as result; reports a cycle if and only if one is reachable and finding it takes no more; refuses everything else |
| AliasResolver.NothingIsShared | scenario/alias.go:127-137 | no node of a resolved document is at two positions |
| AliasResolver.NoAliasIsLeft | scenario/alias.go:25-28 | no live alias is at any position of it |
| Rates.SortSorts | testkit/assertions.go:392-396 | the sorted entries are the same entries, ascending |
| Rates.SortIsStable | testkit/assertions.go:384-396 | entries that arrived together keep the caller's order |
| Rates.AssertMaxRate | testkit/assertions.go:277-313 | reports nothing if and only if no half-open window of the period, at whatever instant, holds more than the limit; and otherwise one report, in order, for exactly the arrivals whose window does, with that window |
| Rates.BudgetIsAnchored | testkit/assertions.go:253-265 | windows anchored at sorted arrivals stand for every window |
| Rates.AssertMinGap | testkit/assertions.go:329-344 | reports nothing if and only if all pairs of arrivals are at least the gap apart; and otherwise one report, in order, for exactly the arrivals too soon after the one before |

## Left out

- CancelLoop.SelectPollTurn: a call without a resolved job, and the finding raised when no turn matches, are
  left out.
- CancelLoop.CancelJob: a call without a resolved job, and a store whose own operation errors, are not
  modelled; nor is a job dropped by a reset and created anew under its old identifier within one cancel.
- EngineRuns.NamespacesDoNotInterfere: holds while the namespace is never refused, which one admission that
  succeeds ensures; the exact extent of interference otherwise is
  `EngineRuns.OtherNamespacesInterfereOnlyThroughTheBound`.
- Streams.ExecuteStream: header contents and flushing are left out, and a header override that breaks
  framing with them; so are HEAD requests.
- Executor.Execute: header contents, content types, declared lengths and flushing are left out; a hijack
  that fails aborts without the reset the model records.
- Executor.WriteOversizedBody: the declared Content-Length is left out.
- Executor.TruncateBody: likewise, and the flush before the reset.
- Handling.Exchange.Handle: reading the body, resolving the lane and admission come before it and are left
  out; a refused admission is one of the findings raised early.
- Lifecycle.EveryRequestIsJournaledOnce: a handler that raises net/http's own abort, or one served without
  the mux that recovers its panic, journals an entry with no outcome; neither is modelled.
- Lanes.TurnLaneKey: how an extractor finds its value, and the fingerprinting of a credential, are inputs.
- AliasResolver.ResolveAliases: an alias node has no content, as the parser makes them.
- Rates.AssertMaxRate: instants are unbounded integers, so a duration that overflows is not modelled.
- Minting.MintJob: a process without a job store keeps nothing and is not modelled, nor is the near-limit
  warning; a refused admission is taken to end the create before its claim; and the constant a handler
  passes into the derivation is taken to be a function of its route, hence of the lane key.
- Minting.ResolveJob: the findings that explain a miss, and the identifier kept on the exchange, are left
  out.
- Minting.ResetNamespace: the journal, dropped with the other two, holds no state of this model, and the
  checks that the engine and the store can be scoped are left out.
- Minting.ResetAll: likewise of the journal.
- Delivery.JobsAreKeptExactlyWhenTheReplyArrives: the client's own deadline is outside it, as the
  prediction's own documentation says.
- Requests in flight across a reset: the store declares them undefined (`testkit/server.go:220-223`).
- Integer widths: counters and positions are unbounded.
- YAML and JSON decoding, finding messages and paths, header merging, log lines, event names in the
  journal.
- Credential fingerprinting of lane values: a value is any string.
- `instanceFault`, status defaults, version gating and the other validators, each settled by reading one
  branch.
- `assertAttemptsUnbroken` and the remaining test assertions: they read the journal and add no state.
- The composition root, flags, configuration, health and read endpoints.
