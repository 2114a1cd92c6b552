# AMOS: verified model of the automation, streaming, bounty and token cores

AMOS runs a small business on agents. This project models six of its parts in
Dafny and proves what they keep over whole runs.

| module | part of the system |
|---|---|
| `EventHeaders`, `EventStream`, `Conversation` (over `Wire`, `Json`) | The incremental decoder of the Bedrock event stream: header blocks with ten value types, messages cut off a growing buffer, the tool-call accumulator, the collecting reader, and what whole conversations come out as |
| `RetryQueue`, `RetryOutcomes` | Failed webhooks: rows with status, attempt and due time; a worker that claims the ten earliest due rows per tick and resolves them |
| `Cascade`, `Triggers` | Events start runs, successful runs emit follow-up events one level deeper through a bounded channel |
| `Rewriting`, `Template` | `{{trigger.field}}` substitution: a rescanning loop inside a recursion over JSON |
| `BountyLoop`, `BountyOutcomes` | The autonomous agent: discover, choose, claim, submit, wait for verification, rework |
| `Decay`, `DecayAmounts`, `DecayOrder`, `Emission`, `Distribution` (over `Arith`) | Token arithmetic: stake decay day after day and stakes compared, a day of bounty awards, points, rewards and holder claims |
| `Chunker`, `ChunkShape` | Splitting text into overlapping chunks for embedding |
| `Revisions` | JSON diffs stored per version, a table of revisions, reverts |

How the parts are modelled:

- Objects the source updates in place are classes (`EventStream.Decoder`,
  `RetryQueue.Worker`, `BountyLoop.AutonomousAgentLoop`,
  `Distribution.ContributorPoints`, `Revisions.RevisionService`). Each method
  says which function of the old state its new state is; the lemmas are about
  that function and about runs of it.
- Loops of the source are loops here, proved against a specification.
- What comes from outside is a parameter or an arbitrary value: the relay, the
  clock, the jitter and the agent service (`BountyLoop.World`), the outcome and
  duration of a delivery (`env`), the order in which runs finish
  (`Cascade.Action`), UTF-8 decoding and JSON parsing (`EventStream.Codec`),
  the printed form of a JSON value (`show`), the content hash.

Where the code differs from its own prose, the model follows the code, and the
difference is a theorem:

- The decay rate is documented as clamped to 25%. Losses cannot exceed costs,
  so it never passes 15% (`DynamicRateRange`).
- The first award of a day with any points takes the whole pool
  (`FirstTakesAll`).
- An effective rate above 100%, that is after tenure and vault reductions,
  makes the daily root not a number, which the cast turns into 0: the stake then
  loses one token a day. A base rate that overflows is taken for 0, and a balance
  whose product overflows loses one token. `DayKeepsOrderIff` and
  `BetterStakeStaysAheadIff` say exactly when a stake that is treated worse can
  end up with more; `TooHighHardlyDecays` and `OverflowHardlyDecays` are inputs.
- A floor whose product overflows is taken for 0 and protects nothing
  (`TenthSurvivesIff`, `FrozenForGoodIff`).
- Daily rewards exceed the emission when the point total saturates and more
  entries are at the cap than there are tokens (`RewardsWithinEmissionIff`,
  `SaturationOverpays`).
- Splitting a stake pays where the claim of the whole overflows and is refused
  (`SplittingNeverPaysIff`, `SplittingCanPay`).
- A claimed bounty need not be resolved: against an arbitrary relay it is exactly
  where the verification timeout is no longer than one polling interval
  (`AlwaysResolvedIff`); a relay that raises its revision counter is enough too
  (`BountyIsResolved`).
- The bounty choice compares a newcomer's value-adjusted fitness with the
  incumbent's *reward*. `ChoiceIsBestIff` says exactly when the choice is
  still the best in every order of listing, `BetterFitPassedOver` shows a
  wrong one.
- A forced text cut with `overlap >= max_chars` never ends
  (`HardSplitEndsIff`), nor does substitution with values that refer to
  themselves (`HaltsIff`, `AllHaltIff`, `OwnPlaceholderNeverEnds`).
- The depth limit of five counts from whatever `_chain_depth` the data carries,
  negative numbers included (`SixRunsIff`, `CascadeIsFinite`).
- A message whose announced lengths leave no room for its parts, or a JSON
  map without an indexed key, panics the decoding task. The model keeps this
  as a state, chunk invariance covers it, and `TaskDiesIff` says exactly when.
- `NoPartsMeansEqual`: the last test of `compute_diff` cannot fail. Comments in
  the schema speak of JSON Patch; what is stored is changed, added and removed
  keys.
- `RoundedToZero` is documented as a reason to skip a day of decay; it cannot
  occur (`DayConserves`).

## Model

| member | source | states |
|---|---|---|
| EventHeaders.NextTurn | amos-harness/src/bedrock.rs:922-1005 | every turn of the header loop leaves the loop or moves strictly forward, on any bytes |
| EventHeaders.ParseValue | amos-harness/src/bedrock.rs:941-1004 | the position-based reading of one value, running past the end included, is the suffix-based one |
| EventHeaders.ParseHeader | amos-harness/src/bedrock.rs:922-1004 | one turn reads name length, name, type and value exactly where they stand |
| EventHeaders.ParseEventHeaders | amos-harness/src/bedrock.rs:918-1008 | the whole parser with its early exits equals a scan of the remaining bytes, turn by turn |
| EventHeaders.EncodedHeaderTurn | amos-harness/src/bedrock.rs:918-1008 | an encoded header of any of the ten types is consumed exactly, whatever follows it |
| EventHeaders.HeaderRoundTrip | amos-harness/src/bedrock.rs:918-1008 | parsing the encoding of any list of headers yields its meaning: string and boolean headers only |
| EventHeaders.MeaningIsLastOfEachName | amos-harness/src/bedrock.rs:918-1008 | that meaning holds exactly the readable names, each with its last value |
| EventHeaders.CutBlockKeepsTheRest | amos-harness/src/bedrock.rs:922-1004 | a block cut anywhere inside a header has the meaning of the whole headers before the cut, for all ten types |
| EventHeaders.UnknownTypeEndsBlock | amos-harness/src/bedrock.rs:1000-1003 | a type beyond the ten ends the block: what came before counts, whatever follows does not |
| Wire.ReadWriteBE32 | amos-harness/src/bedrock.rs:851-858 | big-endian lengths are read as written, whatever follows |
| EventStream.Decoder.ParseEvent | amos-harness/src/bedrock.rs:1011-1101 | the new tool state and the outcome (event, nothing, malformed JSON, panic) of each kind of event |
| EventStream.Decoder.Dispatch | amos-harness/src/bedrock.rs:870-905 | exception messages become error events, empty payloads and unnamed messages do nothing, others go to the event parser |
| EventStream.Decoder.TakeMessage | amos-harness/src/bedrock.rs:858-908 | one complete message takes effect and leaves the buffer, or the task ends |
| EventStream.Decoder.Receive | amos-harness/src/bedrock.rs:840-911 | a chunk has the effect of draining every complete message of buffer plus chunk |
| EventStream.Decoder.Finish | amos-harness/src/bedrock.rs:911-915 | the end of the body appends one `Stop`, unless the task is gone |
| EventStream.DrainThenMore | amos-harness/src/bedrock.rs:845-909 | bytes that arrive later never change how earlier bytes were read |
| EventStream.ChunkInvariance | amos-harness/src/bedrock.rs:826-915 | for every byte stream, well formed or not, any split into chunks gives the events, tool state, left-over bytes and fate of decoding it at once |
| EventStream.SameBytesSameEvents | amos-harness/src/bedrock.rs:826-915 | two ways to cut the same bytes cannot be told apart |
| EventStream.FrontOfEncoded | amos-harness/src/bedrock.rs:818-868 | an encoded message at the front of the buffer is cut exactly where it ends, its headers and payload recovered |
| EventStream.BufferHoldsNextMessage | amos-harness/src/bedrock.rs:845-909 | after any prefix of a well-formed stream exactly the first k messages have taken effect and the buffer holds a proper prefix of message k |
| EventStream.DecodeEncodedStream | amos-harness/src/bedrock.rs:826-915 | any chunking of the encoding of a list of messages has the effect of the list itself, nothing left in the buffer |
| EventStream.InterpretPanicsIff | amos-harness/src/bedrock.rs:1018-1092 | a list of messages ends the task if and only if one of them holds a tool use without id or name, or a usage without a count, whatever came before |
| EventStream.TaskDiesIff | amos-harness/src/bedrock.rs:826-915 | on any bytes, however cut, the task dies if and only if some message's lengths do not add up or a complete message before that is such a one |
| EventStream.UsageWithoutCounts | amos-harness/src/bedrock.rs:1078-1092 | one such message, encoded and cut anyhow, ends the task |
| EventStream.InputDeltasAccumulate | amos-harness/src/bedrock.rs:1034-1055 | input deltas are appended in order and emit nothing |
| EventStream.ToolCallReassembled | amos-harness/src/bedrock.rs:1018-1076 | a tool call cut into any number of deltas comes out as one event with the whole input, whatever was accumulated before, and leaves the accumulator empty |
| Conversation.CarriedIsSent | amos-harness/src/bedrock.rs:870-905 | a text delta, a message stop, a usage with both counts and an exception each send exactly the event their headers and JSON carry, and leave the tool call in progress alone |
| Conversation.NothingHappens | amos-harness/src/bedrock.rs:870-905 | unnamed, empty, unknown and malformed messages and those without the expected parts change nothing |
| Conversation.TextIsSent | amos-harness/src/bedrock.rs:1031-1038 | any number of text deltas sends those texts in order and nothing else, in any state |
| Conversation.CallIsSent | amos-harness/src/bedrock.rs:1018-1076 | the messages of one tool call send one event with the parsed input, or an empty object where it is not JSON |
| Conversation.ConversationDecoded | amos-harness/src/bedrock.rs:826-915 | any chunking of the encoded messages of a conversation of texts, calls, usages, stops, errors and empty messages sends exactly those events, in order and once, nothing left over |
| EventStream.Collect | amos-harness/src/bedrock.rs:391-418 | the answer is made of the events before the first `Stop` and fails with the first error among them; later usage is never seen |
| EventStream.UntilStopAt | amos-harness/src/bedrock.rs:391-407 | what is read up to the first `Stop` |
| Conversation.AnswerIsConversation | amos-harness/src/bedrock.rs:391-418 | the answer collected from such a conversation is one block with all text joined, if any, then the calls in order, and the last usage reported; nothing after the stop counts |
| Conversation.ErrorEndsIt | amos-harness/src/bedrock.rs:403-405 | an error before the stop is the answer, whatever was said before or after |
| RetryQueue.DelaySumIs | amos-harness/src/automations/engine.rs:798-806 | the delays before attempt n add up to 30 s, 2.5 min, 12.5 min, and half an hour more for each further one |
| RetryQueue.Worker.EnqueueRetry | amos-harness/src/automations/engine.rs:761-796 | a pending row with attempt 1, due after the first delay |
| RetryQueue.Worker.SelectDue | amos-harness/src/automations/engine.rs:817-822 | at most ten distinct due rows, and none left out that is earlier than one picked |
| RetryQueue.Worker.ClaimDue | amos-harness/src/automations/engine.rs:811-833 | exactly the picked rows become in-progress and are the work of this tick |
| RetryQueue.Worker.ResolveNext | amos-harness/src/automations/engine.rs:835-962 | the whole new queue for each outcome: gone or disabled automation, delivered, refused with attempts left or without |
| RetryQueue.Worker.ProcessRetryQueue | amos-harness/src/automations/engine.rs:811-963 | a tick is one claim followed by one resolution per claimed row, with the outcomes met, and ends with no work left |
| RetryQueue.AheadShrinks | amos-harness/src/automations/engine.rs:811-833 | nothing ever moves a due row back; a claim that passes it over moves it ten places up |
| RetryQueue.DueRowIsClaimed | amos-harness/src/automations/engine.rs:811-833 | a due row with k pending rows no later than it is claimed within k/10 + 1 claims, whatever is enqueued or rescheduled meanwhile |
| RetryQueue.StepKeepsInv | amos-harness/src/automations/engine.rs:761-963 | every enqueue, claim and resolution keeps the row life cycle and the worker's hold on exactly the in-progress rows |
| RetryQueue.RowLifecycle | amos-harness/src/automations/engine.rs:761-963 | on every run from the empty queue a row is delivered at most max(1, max_attempts) times, attempts 1, 2, 3, ..., the k-th claimed no earlier than the first k delays after enqueue, only the last one successful |
| RetryQueue.TickLeavesNothingInProgress | amos-harness/src/automations/engine.rs:811-963 | after any run, a tick that has resolved what it claimed leaves no row in progress |
| RetryQueue.EndStatesAbsorb | amos-harness/src/automations/engine.rs:853-952 | on every run from the empty queue, rows once succeeded or dead-lettered never change or get delivered again |
| RetryQueue.DeadAfterAllDelays | amos-harness/migrations/20260417000049_create_automation_retry_queue.sql:3-6 | a refusal is final exactly at the last attempt, and then all delays have passed since the row was queued: 30 s + 2 min + 10 min with three attempts |
| RetryOutcomes.EnqueuedRow | amos-harness/src/automations/engine.rs:761-796 | enqueueing adds one pending row, last, for attempt 1 in 30 seconds, and nothing else |
| RetryOutcomes.ClaimTakesTen | amos-harness/src/automations/engine.rs:811-833 | a claim takes ten due rows or all there are, none later than one left behind, and marks exactly those |
| RetryOutcomes.DeliveredWebhookSucceeds | amos-harness/src/automations/engine.rs:873-903 | on every run a delivered webhook leaves its row succeeded and one more delivery on record, successful and with its attempt; no other row changes |
| RetryOutcomes.RefusedWaitsOrDies | amos-harness/src/automations/engine.rs:875-952 | on every run a failed delivery, or any answer for another action type, is on record as failed; the row waits 2 min, 10 min or 30 min for its next attempt, or is dead after its last |
| RetryOutcomes.UnavailableDies | amos-harness/src/automations/engine.rs:844-871 | on every run a row whose automation is gone or disabled is dead at once, without a delivery |
| RetryOutcomes.OthersNeverSucceed | amos-harness/src/automations/engine.rs:873-881 | on no run does a row of another action type than a webhook succeed |
| RetryOutcomes.RowsKeepTheirOrder | amos-harness/src/automations/engine.rs:761-963 | on every run rows keep their place, automation, action, limit and creation time |
| Cascade.FindMatching | amos-harness/src/automations/engine.rs:114-182 | the row-by-row filters select the matching automations, which are those of `StartedIff`, in the order of `StartedInOrder` |
| Triggers.StartedIff | amos-harness/src/automations/engine.rs:114-182 | an automation is started as often as it is listed, unless it is disabled, waits for another trigger, another collection or another source, or has a condition the data does not contain |
| Triggers.StartedInOrder | amos-harness/src/automations/engine.rs:114-182 | started automations come in the order of the list |
| Triggers.RecordEventStartsIff | amos-harness/src/automations/engine.rs:132-149 | a record event starts an unconditional automation that names a collection exactly when it is that of the event, and any that names none |
| Triggers.FollowUpStartsIff | amos-harness/src/automations/engine.rs:151-170 | the follow-up of a run starts an unconditional automation that names a source exactly when it is the automation of the run, and any that names none |
| Triggers.UnmetConditionKeepsOut | amos-harness/src/automations/engine.rs:1305-1325 | a condition with a key that the data lacks or contradicts keeps its automation out |
| Triggers.FollowUpTells | amos-harness/src/automations/engine.rs:239-250 | a follow-up carries id and name of the source, result, trigger data and depth, and no more |
| Triggers.DeliveryStarts | amos-harness/src/automations/engine.rs:83-111 | a delivery takes the oldest event and starts one run on its data per automation that does not stay out; a lost one starts nothing |
| Triggers.FinishEmitsIff | amos-harness/src/automations/engine.rs:229-269 | the end of a run emits its follow-up exactly if it has a result, is less than five deep, and the channel is there and holds less than 1024 events |
| Triggers.ChannelStaysBounded | amos-harness/src/automations/engine.rs:67-81 | on every run the channel holds at most 1024 events |
| Cascade.FollowUpsStartChained | amos-harness/src/automations/engine.rs:114-182 | completions start only automations that react to completions; other events start only the others |
| Cascade.FollowUpIsOneLevelLower | amos-harness/src/automations/engine.rs:229-256 | a follow-up carries one more level of depth and has one level fewer to go |
| Cascade.StepLowersPotential | amos-harness/src/automations/engine.rs:83-111 | every delivery, loss, finish and drop lowers the potential of pending events and live runs |
| Cascade.CascadeIsFinite | amos-harness/src/automations/engine.rs:83-269 | every interleaving after one event ends, with a bound on its steps and on the runs it starts, for any depth the data carries |
| Cascade.BudgetIsGeometric | amos-harness/src/automations/engine.rs:229-269 | what one run may cause is 1 + c + c^2 + ... over the levels left, c the automations that react to completions |
| Cascade.SixLevelsOfRuns | amos-harness/src/automations/engine.rs:83-269 | from any root whose data carries no negative depth, among n automations at most n + n^2 + ... + n^6 runs |
| Cascade.DepthNeverExceedsLimit | amos-harness/src/automations/engine.rs:229-256 | on every run depths stay between the root's and five (or the root's, if larger) |
| Cascade.ChainRunsOut | amos-harness/src/automations/engine.rs:229-269 | the bound is attained: an automation started by hand, with one reacting to every completion, runs 6 - d times in all from a carried depth d <= 5 |
| Cascade.SixRunsIff | amos-harness/src/automations/engine.rs:229-269 | such a pair makes at most six runs in every interleaving, if and only if the data handed in carries no negative depth |
| Rewriting.SubstitutionIsIdempotent | amos-harness/src/automations/engine.rs:1262-1285 | whenever the loop ends no placeholder is left, and substituting again with any data changes nothing |
| Rewriting.NoPlaceholderNoChange | amos-harness/src/automations/engine.rs:1262-1285 | a template without placeholders is returned as it is |
| Rewriting.CountBoundsTurns | amos-harness/src/automations/engine.rs:1267-1283 | a character rarer in every value than in its placeholder bounds the turns of the loop |
| Rewriting.SubstitutionIsOnePass | amos-harness/src/automations/engine.rs:1267-1283 | with clean values and clean text between placeholders the rescanning loop is one left-to-right pass |
| Rewriting.HaltsIff | amos-harness/src/automations/engine.rs:1267-1283 | for templates and values of clean text and placeholders the loop ends if and only if references followed from the template stop within as many levels as there are fields, plus one |
| Rewriting.SelfReferenceNeverEnds | amos-harness/src/automations/engine.rs:1267-1283 | a value containing its own placeholder keeps the loop going for ever |
| Rewriting.SelfReferenceStandsStill | amos-harness/src/automations/engine.rs:1267-1283 | a value that is its own placeholder makes a turn that maps the string to itself |
| Rewriting.SubstitutionExpands | amos-harness/src/automations/engine.rs:1267-1283 | where references stop, the loop yields the template with all of them followed to the end |
| Rewriting.SubstitutionFills | amos-harness/src/automations/engine.rs:1267-1283 | where the values asked for are clean, each placeholder is replaced by its value once and the text around them stays |
| Template.FindIsFirst | amos-harness/src/automations/engine.rs:1267-1269 | the search finds the first occurrence if there is one |
| Template.BracesAreLawful | amos-harness/src/automations/engine.rs:1267-1280 | searching for the two delimiters obeys the three laws all rewriting results rest on |
| Template.FewBracesHalt | amos-harness/src/automations/engine.rs:1267-1283 | values with at most one opening brace each, or at most one closing brace each, always let the loop end, in any template |
| Template.Turn | amos-harness/src/automations/engine.rs:1267-1283 | the two searches and the splice are one rewriting step, or none is possible |
| Template.SparseDataSuitsAll | amos-harness/src/automations/engine.rs:1262-1299 | trigger data of which no field renders with two opening braces, or none with two closing ones, lets substitution end on every JSON template |
| Template.AllHaltIff | amos-harness/src/automations/engine.rs:1262-1299 | for JSON templates and trigger data of clean text and placeholders substitution ends if and only if references from every string stop within as many levels as there are fields, plus one |
| Template.OwnFieldNeverEnds | amos-harness/src/automations/engine.rs:1262-1285 | a template asking for a field whose value contains its own placeholder never ends |
| Template.OwnPlaceholderNeverEnds | amos-harness/src/automations/engine.rs:1262-1285 | the template `{{trigger.x}}` with that very text as field `x` never ends |
| Template.TemplateIsFilled | amos-harness/src/automations/engine.rs:1262-1285 | in a template of any number of placeholders a string field is put in as it is, any other value as it prints, a missing field as nothing, and that is the only result |
| Template.OneFieldIsFilled | amos-harness/src/automations/engine.rs:1267-1283 | the same for one placeholder between two texts |
| Template.TemplateIsExpanded | amos-harness/src/automations/engine.rs:1262-1285 | fields that refer to other fields are expanded in their turn, to the end |
| Template.FilledWhereItStands | amos-harness/src/automations/engine.rs:1286-1299 | wherever in a JSON template such a string stands it is filled in there; numbers, booleans and nulls stay, and no path appears or disappears |
| Template.SubstituteString | amos-harness/src/automations/engine.rs:1264-1285 | the loop yields the rewritten string wherever it ends at all |
| Template.SubstituteTemplate | amos-harness/src/automations/engine.rs:1262-1299 | every string in the JSON tree is rewritten, shape, keys and everything else untouched |
| Template.SubstitutedOnce | amos-harness/src/automations/engine.rs:1262-1299 | substituting the result again gives it back |
| Template.SubstitutedIsUnique | amos-harness/src/automations/engine.rs:1262-1299 | the result is determined by template and data |
| BountyLoop.ChooseBounty | amos-harness/src/agent/autonomous.rs:716-762 | the loop keeps the running best among the offers that answered and fit |
| BountyLoop.ChoiceBeatsEarlierOffers | amos-harness/src/agent/autonomous.rs:747-757 | nothing is chosen only if nothing fits; every fitting offer before the choice is worth less, none after it more than its reward |
| BountyLoop.ChoiceIsBestIff | amos-harness/src/agent/autonomous.rs:747-757 | the most worthwhile bounty is picked in every order of listing if and only if no fitting one with smaller worth has a reward at least as large as its worth |
| BountyLoop.BetterFitPassedOver | amos-harness/src/agent/autonomous.rs:747-757 | of two equal rewards, half fit listed first beats nine-tenths fit |
| BountyOutcomes.ClaimsGoodChoiceIff | amos-harness/src/agent/autonomous.rs:672-814 | an idle loop claims exactly when it may still claim today, something fits and the relay grants it; what it then executes is one of this iteration's offers that fits, worth more than any fitting one before it, with a reward no less than the worth of any after it |
| BountyOutcomes.ClaimsMostValuable | amos-harness/src/agent/autonomous.rs:747-793 | where no offer hides a better one behind its reward, the bounty claimed is a most valuable one |
| BountyLoop.AutonomousAgentLoop.Iterate | amos-harness/src/agent/autonomous.rs:626-1226 | one turn of the loop: the whole new state, or the loop is left |
| BountyLoop.AutonomousAgentLoop.DiscoverAndClaim | amos-harness/src/agent/autonomous.rs:672-814 | the idle branch: daily limit, discovery, choice, claim |
| BountyLoop.AutonomousAgentLoop.SubmitProof | amos-harness/src/agent/autonomous.rs:910-951 | after work or rework: approved, under review, or failed |
| BountyLoop.AutonomousAgentLoop.CheckVerification | amos-harness/src/agent/autonomous.rs:953-1100 | waiting: timeout, approval, rejection, a revision request, or nothing new |
| BountyOutcomes.InFlightGoesTo | amos-harness/src/agent/autonomous.rs:816-1215 | where a bounty in flight stands after an iteration: done exactly if approved or lost, else waiting since its submission, in rework with the relay's count and feedback, or unchanged |
| BountyOutcomes.StepLedger | amos-harness/src/agent/autonomous.rs:626-1226 | what an iteration adds to every field of the telemetry |
| BountyOutcomes.RunLedger | amos-harness/src/agent/autonomous.rs:54-61 | on every run from the start completed, failed and earned are the approvals, the losses and what the approvals paid |
| BountyOutcomes.IdlePause | amos-harness/src/agent/autonomous.rs:244-249 | the pause of an idle loop: the maximum on a used-up day, doubled with jitter up to it when nothing fits |
| BountyOutcomes.PauseDoubles | amos-harness/src/agent/autonomous.rs:244-249 | n iterations that find nothing make the pause at least 2^n times as long, or as long as it may get |
| BountyLoop.StepKeepsInv | amos-harness/src/agent/autonomous.rs:626-1226 | every iteration keeps the ledger, the timer and the backoff invariant |
| BountyLoop.LedgerBalances | amos-harness/src/agent/autonomous.rs:26-61 | on every run from the start of the loop claimed = completed + failed + the one in flight, the timer is set exactly while waiting for verification, `Assessing` and `Stopping` never reach the loop head |
| BountyLoop.ClaimsOneAtMost | amos-harness/src/agent/autonomous.rs:660-790 | an iteration claims at most once, only below the limit, and counts it under its date |
| BountyLoop.DailyLimitHolds | amos-harness/src/agent/autonomous.rs:660-790 | no date sees more claims than the limit, those before the start included |
| BountyLoop.MeasureFalls | amos-harness/src/agent/autonomous.rs:816-1215 | reworks left, phase and verification time left, lexicographically, fall in every iteration in flight, and the bounty stays the same |
| BountyLoop.ResolvedOnce | amos-harness/src/agent/autonomous.rs:816-1215 | leaving flight means idle, with exactly one more completion or failure |
| BountyLoop.BountyIsResolved | amos-harness/src/agent/autonomous.rs:816-1215 | if revision counts rise and polling is at least a second, every claimed bounty is resolved exactly once, within the measure |
| BountyLoop.IterationsAfterClaim | amos-harness/src/agent/autonomous.rs:816-1215 | that is at most 4 * timeout + 11 iterations after the claim |
| BountyLoop.StaleRevisionNeverEnds | amos-harness/src/agent/autonomous.rs:1033-1080 | with a revision count that stands still there are runs of any length, time passing as it should, still on the same bounty |
| BountyLoop.AlwaysResolvedIff | amos-harness/src/agent/autonomous.rs:816-1215 | a claimed bounty is resolved whatever the relay answers, if and only if one polling interval outlasts the verification timeout |
| Decay.DynamicRateRange | amos-core/src/token/decay.rs:89-111 | for all 64-bit revenues and costs the rate is between 2% and 15%; the 25% clamp is unreachable |
| Decay.DynamicRateOrder | amos-core/src/token/decay.rs:86-111 | more revenue never raises the rate and higher positive costs never lower it, under truncating division |
| DecayAmounts.DynamicRateTracks | amos-core/src/token/decay.rs:78-111 | the rate is 10% less half of the profit ratio, exact up to 1.05 basis points, down to 2%; 5% without costs |
| DecayAmounts.SafeShare | amos-core/src/token/decay.rs:130-142 | the floor by age in days: 5%, 10%, 15%, 25% |
| DecayAmounts.TenureKeeps | amos-core/src/token/decay.rs:145-157 | what the age in days leaves of a rate |
| DecayAmounts.VaultKeeps | amos-core/src/token/decay.rs:159-169 | what each vault leaves of a rate |
| DecayAmounts.EffectiveRateIsShare | amos-core/src/token/decay.rs:172-191 | the effective rate is base times both shares, the two roundings costing at most two basis points, and at least 2% |
| Decay.DailyRateIsLeast | amos-core/src/token/decay.rs:113-128 | the daily rate is the least one whose 365-day compounding removes at least the annual rate |
| Decay.DailyRateMonotoneIff | amos-core/src/token/decay.rs:113-128 | no lower annual rate has a higher daily one, if and only if the rate is at most 100% |
| Decay.Bernoulli | amos-core/src/token/decay.rs:113-128 | n days of compounding keep at least what a straight line would |
| Decay.BernoulliAbove | amos-core/src/token/decay.rs:113-128 | and at most 10000 / (10000 + n d) of it |
| Decay.DailyRateCoversAnnual | amos-core/src/token/decay.rs:113-128 | 365 daily rates add up to at least the annual rate, if and only if that is at most 100% |
| Decay.DailyRateOneToFive | amos-core/src/token/decay.rs:113-128 | every annual rate the formula can produce is one to five basis points a day |
| Decay.EffectiveRate | amos-core/src/token/decay.rs:172-191 | tenure and vault never raise a rate above its base, except to the 2% minimum |
| DecayOrder.EffectiveRateMonotoneIff | amos-core/src/token/decay.rs:159-191 | no lower base and stronger vault give a higher effective rate, if and only if the base does not overflow |
| DecayOrder.RateReached | amos-core/src/token/decay.rs:159-191 | for every age and vault each effective rate from 2% to 100% has a base rate |
| Decay.DayConserves | amos-core/src/token/decay.rs:196-278 | a day loses no token, burns at most what it recycles, never ends under the floor it started above, and skips exactly when nothing decays; rounding to zero never happens |
| DecayAmounts.DayReport | amos-core/src/token/decay.rs:196-278 | when a day is skipped and why, and that a tenth of what decays, rounded down, is burned |
| DecayAmounts.DayTakes | amos-core/src/token/decay.rs:231-248 | a day takes its share of the balance to within one token, and never goes below the floor |
| Decay.DynamicDayIsGentle | amos-core/src/token/decay.rs:89-278 | at a rate the formula sets, a day takes at most 5 basis points of the balance, or one token |
| DecayOrder.DayKeepsOrderIff | amos-core/src/token/decay.rs:196-278 | on a day no stake treated no worse ends with less, if and only if the day is in the grace period, ends at the floor, or its rate is at most 100% with nothing overflowing; for all 64-bit rates and balances |
| Decay.Simulate | amos-cli/src/main.rs:546-584 | the simulator's loop is the run of its days 0 to `days`, with the ledger of what left the balance |
| Decay.RunDaysConcat | amos-cli/src/main.rs:546-584 | a run may be interrupted after any day and resumed from the balance and tenure reached |
| Decay.RunConserves | amos-core/src/token/decay.rs:196-278 | over any run balance, burned and recycled add up to what they were |
| DecayAmounts.RunAtRateLeavesAtLeast | amos-core/src/token/decay.rs:196-278 | n days at the daily rate d never leave less than balance * (1 - d)^n, short of n tokens |
| DecayAmounts.RunAtRateLeavesAtMost | amos-core/src/token/decay.rs:196-278 | nor more, beyond n tokens, while no floor is met |
| DecayAmounts.YearTakesItsRate | amos-core/src/token/decay.rs:113-128 | a year at the effective annual rate a takes at least that share of the stake, short of 365 tokens, unless it meets its floor |
| Decay.FloorsRiseIff | amos-core/src/token/decay.rs:134-142 | floors only rise with tenure, if and only if the largest one does not overflow, or there is none now |
| Decay.TenthSurvivesIff | amos-core/src/token/decay.rs:130-278 | no run brings a stake below a tenth of its original balance, if and only if the largest floor does not overflow; otherwise some run brings it to 0 |
| Decay.RunsDry | amos-core/src/token/decay.rs:213-247 | a floor that overflows protects nothing: there is a run after which the whole stake is gone |
| Decay.FrozenForGoodIff | amos-core/src/token/decay.rs:218-229 | a stake at or under its floor never moves again, if and only if the largest floor does not overflow, or nothing is left |
| Decay.FreezesInTime | amos-core/src/token/decay.rs:196-278 | a stake is at its floor within as many days as it has tokens, counted from the end of the grace period, or from five years where the largest floor overflows |
| DecayOrder.BetterStakeStaysAheadIff | amos-core/src/token/decay.rs:119-278 | over whole runs a stake is never overtaken by one that starts with no less and is never treated worse, if and only if each of its days meets that condition |
| DecayOrder.OrdinaryDaysTakeEnough | amos-core/src/token/decay.rs:119-278 | it is met on every day by base rates up to 125% and balances within a ten-thousandth of the 64-bit range |
| DecayOrder.SupplyFits | amos-core/src/token/decay.rs:196-278 | amounts up to the total supply meet the bounds the run results ask for |
| DecayOrder.TooHighHardlyDecays | amos-core/src/token/decay.rs:119-128 | in its second year a large stake loses a single token at a base rate of 200%, more at 10% |
| DecayOrder.OverflowHardlyDecays | amos-core/src/token/decay.rs:175-191 | at a base rate that overflows it loses one basis point, more at 10% |
| Emission.ValidBountyIsPaid | amos-core/src/token/emission.rs:133-205 | within a day's emission and points nothing overflows: a bounty is paid exactly when it has 1 to 2000 points |
| Emission.AwardOutcome | amos-core/src/token/emission.rs:68-164 | points are weighted by 70% to 130% for the kind of work; a bounty is invalid exactly with no or more than 2000 points; what an overflow takes |
| Emission.AwardFacts | amos-core/src/token/emission.rs:160-205 | contributor and reviewer share exactly what is paid, 5% rounded down to the reviewer, never more than remains |
| Emission.OnlyRemainingMatters | amos-core/src/token/emission.rs:150-175 | emission and tokens already distributed matter only through their difference |
| Emission.PoolTelescopes | amos-core/src/token/emission.rs:133-205 | an award keeps remaining pool times points, and adds less than one token's worth |
| Emission.DayTelescopes | amos-core/src/token/emission.rs:133-205 | after n bounties the pool is remaining * points / points' within n tokens |
| Emission.PaidOutLeavesPool | amos-core/src/token/emission.rs:133-205 | what a day pays out and what remains add up to the emission |
| Emission.FirstTakesAll | amos-core/src/token/emission.rs:133-205 | from an empty day the first award with positive points takes the whole pool and every later one is paid nothing |
| Emission.OrderMovesAtMostOneTokenEach | amos-core/src/token/emission.rs:133-205 | two orders of the same n bounties leave pools at most n tokens apart, and equal pools on a day that starts without points |
| Emission.EmptyDayLeaves | amos-core/src/token/emission.rs:133-205 | a day that starts without points leaves nothing, or everything if none of its bounties has points |
| Emission.WorthlessIff | amos-core/src/token/emission.rs:140-181 | a bounty leaves the day as it was if and only if it is refused or its points round to nothing |
| Emission.SinglePointCanBeWorthless | amos-core/src/token/emission.rs:70-84 | one raw point of support or documentation leaves the day as it was |
| Distribution.ReferralPoints | amos-core/src/token/points.rs:134-145 | saturating at every step is saturating the exact sum once |
| Distribution.PointsAddUp | amos-core/src/token/points.rs:107-116 | a total is made of 1, 1, 2, 5 and 10 points per referral activity and the points of the bounties |
| Distribution.ReferralsCountAlike | amos-core/src/token/points.rs:107-145 | added one by one or counted first, referrals come to the same points |
| Distribution.ContributorPoints.AddEntry | amos-core/src/token/points.rs:284-288 | the running total stays the exact total of the entries, stopped at the 64-bit end |
| Distribution.TakeSnapshot | amos-core/src/token/points.rs:297-314 | contributors without points are dropped without changing the saturated total |
| Distribution.EarnersAre | amos-core/src/token/points.rs:297-314 | the snapshot keeps a contributor as often as it comes if it has points, and never otherwise |
| Distribution.EarnersInOrder | amos-core/src/token/points.rs:297-314 | in the order they come |
| Distribution.DailyRewards | amos-core/src/token/points.rs:234-252 | one reward per entry in order, an error for an empty day, overflow exactly when some reward overflows |
| Distribution.RewardsOkIff | amos-core/src/token/points.rs:174-252 | all rewards are computed exactly when no product overflows, each its floored share |
| Distribution.RewardSumBounds | amos-core/src/token/points.rs:174-252 | how far the sum of floored shares can fall behind the exact share |
| Distribution.RewardsExhaustEmission | amos-core/src/token/points.rs:224-252 | with an exact total the rewards never exceed the emission and miss it by less than one token per entry |
| Distribution.RewardsWithinEmissionIff | amos-core/src/token/points.rs:224-314 | with the snapshot's total they stay within the emission exactly if it did not saturate or few enough entries are at the cap |
| Distribution.SaturationOverpays | amos-core/src/token/points.rs:297-314 | two contributors at the cap are paid two tokens out of one |
| Distribution.ClaimOutcome | amos-core/src/token/revenue.rs:78-120 | when a claim is refused and why, and that share and payout are the exact quotients rounded down |
| Distribution.PayoutAtMostShare | amos-core/src/token/revenue.rs:78-120 | a payout is at most the exact share of the pool |
| Distribution.ClaimsStayWithinPool | amos-core/src/token/revenue.rs:78-120 | all holders together take no more than the pool |
| Distribution.SplittingNeverPaysIff | amos-core/src/token/revenue.rs:78-120 | two parts of a stake are never paid more than the whole, if and only if the whole claim does not overflow, or neither part is owed anything |
| Distribution.OrdinaryClaimFits | amos-core/src/token/revenue.rs:78-120 | claims of no more than what is eligible do not overflow unless pool or total come within a factor 10000 of the 64-bit end |
| Distribution.SplittingCanPay | amos-core/src/token/revenue.rs:103-112 | a pool where the whole claim overflows and is refused, while its two halves are paid all of it |
| Chunker.SentencesMakeText | amos-harness/src/embeddings.rs:172-173 | the sentences are non-empty and put together they are the text |
| ChunkShape.SentencesAre | amos-harness/src/embeddings.rs:171-171 | a sentence has a stop at its end only, all but the last have one, and together they are the text |
| ChunkShape.ParagraphsAre | amos-harness/src/embeddings.rs:123-123 | paragraphs put together with blank lines are the text, none has one inside, and they are found from the left |
| ChunkShape.TrimIs | amos-harness/src/embeddings.rs:128-128 | trimming takes white space off both ends, and all of it |
| ChunkShape.BlocksInOrder | amos-harness/src/embeddings.rs:127-131 | blocks come in the order of the paragraphs |
| ChunkShape.OneBlockEach | amos-harness/src/embeddings.rs:127-131 | a paragraph is one trimmed block, unless nothing is left of it |
| Chunker.HardSplit | amos-harness/src/embeddings.rs:198-210 | the loop yields exactly the specified pieces |
| Chunker.PiecesTile | amos-harness/src/embeddings.rs:198-210 | those pieces are windows within the limit that tile the chunk, each repeating exactly the last `overlap` characters |
| ChunkShape.PiecesAreFull | amos-harness/src/embeddings.rs:198-210 | every piece of a forced cut but the last has the full length |
| Chunker.HardSplitEndsIff | amos-harness/src/embeddings.rs:196-208 | the forced cut of an over-long chunk ends if and only if the overlap is smaller than the limit |
| Chunker.PackSentences | amos-harness/src/embeddings.rs:171-190 | sentences are packed as specified, into windows tiling the text that repeat `overlap` characters of a finished chunk if it has more; with a too large overlap all fit exactly when all sentences do |
| ChunkShape.LongTextIsPacked | amos-harness/src/embeddings.rs:176-190 | whole sentences go into chunks in order; a chunk is what it repeats of the one before and its sentences, exceeds the limit only with a single one, and ends only where the next would not fit |
| Chunker.SplitLongText | amos-harness/src/embeddings.rs:170-215 | the specified chunks: contiguous windows within the limit, ever later starts, no gap, exact repetition of `overlap` characters, from the first character to the last; without overlap they concatenate to the text |
| Chunker.TilesMakeText | amos-harness/src/embeddings.rs:170-215 | windows that tile without overlap put together are the text |
| Chunker.Flush | amos-harness/src/embeddings.rs:132-143 | a finished chunk hands its last `overlap` characters to the next one, no block lost |
| Chunker.AddBlock | amos-harness/src/embeddings.rs:145-158 | a paragraph joins the current chunk or is split on its own, as specified and within the length bound, no earlier one lost |
| ChunkShape.ParagraphsArePacked | amos-harness/src/embeddings.rs:127-167 | paragraphs within the limit are packed in the same way, with blank lines between them |
| ChunkShape.LongParagraphParts | amos-harness/src/embeddings.rs:145-153 | a paragraph beyond the limit parts the text: the chunks before it, what is repeated of the last of them as a chunk of its own, its own chunks, and the chunks after it as if they stood alone |
| Chunker.ChunkText | amos-harness/src/embeddings.rs:115-168 | the specified chunks, of which: none is longer than max_chars (plus overlap and two if there is overlap), every paragraph survives whole or tiled, and without overlap no visible character is lost, repeated or moved |
| Chunker.InkOfParagraphs | amos-harness/src/embeddings.rs:124-130 | splitting at blank lines loses only white space |
| Chunker.InkOfBlocks | amos-harness/src/embeddings.rs:126-131 | trimming and dropping empty paragraphs loses only white space |
| Revisions.ScanOld | amos-harness/src/revisions.rs:326-338 | the pass over old keys fills exactly the changed and the removed entries |
| Revisions.ScanNew | amos-harness/src/revisions.rs:339-343 | the pass over new keys fills exactly the added entries |
| Revisions.ComputeDiff | amos-harness/src/revisions.rs:314-361 | the loops compute the specified diff |
| Revisions.NoPartsMeansEqual | amos-harness/src/revisions.rs:345-353 | a diff with no parts means equal objects, so the last test always passes |
| Revisions.DiffIsExact | amos-harness/src/revisions.rs:325-353 | a diff of objects names exactly the changed keys with both values, the new and the gone ones with theirs |
| Revisions.DiffIsLossless | amos-harness/src/revisions.rs:314-361 | applying a diff to the old value gives the new one, undoing it on the new gives the old, and there is none exactly when they are equal, keys named `_root` included |
| Revisions.NotItsOwnField | amos-harness/src/revisions.rs:325-359 | no object is one of its own fields, which tells a key `_root` from a root replacement |
| Revisions.RootKeyIsAKey | amos-harness/src/revisions.rs:325-359 | a change under a real key `_root` has the very diff of a root replacement, and replaying it gives the right value for either |
| Revisions.RevisionService.MaxVersion | amos-harness/src/revisions.rs:144-153 | the largest version is the number of versions |
| Revisions.RevisionService.GetRevision | amos-harness/src/revisions.rs:243-262 | version n of an entity is the n-th row of its history, or there is none |
| Revisions.RevisionService.CreateRevision | amos-harness/src/revisions.rs:143-205 | one row is appended to its entity's history, numbered next, with its hash and a diff that leads from the version before and back; other histories stay |
| Revisions.RevisionService.RevertToVersion | amos-harness/src/revisions.rs:285-302 | an earlier snapshot becomes the newest version with a diff from the latest one; an unknown version changes nothing |
| Revisions.StoredDiffConnects | amos-harness/src/revisions.rs:143-205 | a stored diff leads from each snapshot to the next and back |
| Revisions.HistoryReplaysForwards | amos-harness/src/revisions.rs:143-302 | the first snapshot and the stored diffs rebuild every version, reverts included |
| Revisions.HistoryReplaysBackwards | amos-harness/src/revisions.rs:143-302 | so do the latest snapshot and the stored diffs |

## Left out

- HTTP, SQL text, PostgreSQL, tokio scheduling and request signing: tables are sequences of rows, outcomes are parameters, and database writes succeed.
- Floating point: `powf` is replaced by the exact least daily rate, fit scores are reals, and the sigmoid emission curve (`exp`) is not modelled; any emission is allowed.
- Checksums of stream messages: the code does not check them either, they are uninterpreted bytes.
- A dropped event receiver: the stream decoder's sends are taken to succeed.
- JSON text: parsing and printing are parameters; numbers beyond integers are opaque literals.
- UTF-8: the chunker works on ASCII text, so slicing inside a character is not modelled; the decoder's lossy decoding is a parameter.
- Rewriting.HaltsIff: covers templates and values made of brace-free text and whole placeholders with brace-free names. Values holding parts of placeholders can assemble new ones with their surroundings; for them the sufficient conditions `CountBoundsTurns` and `FewBracesHalt` are stated.
- Template.AllHaltIff: covers the same templates and values.
- Builds with overflow checks: the token sum of a usage event wraps, as in a release build.
- Template.SubstituteString: is stated where the loop ends, since elsewhere the original returns nothing.
- Chunker.SplitLongText: is stated where the forced cut ends or is never reached, for the same reason.
- Chunker.ChunkText: is stated where every paragraph it has to split can be split, for the same reason.
- Template.SubstituteTemplate: is stated where the loop ends on every string of the template, for the same reason.
- Retry rows deleted with their automation by the foreign key, and retries after a crash of the worker.
- The link from a failed webhook to the retry queue: the two state machines are separate. A row resolved in the queue has no way to emit an event in either.
- Revisions.RevisionService.CreateRevision: concurrent calls and the unique constraint of the table are not modelled, the store is sequential.
- Claiming happens at one instant per iteration of the bounty loop: the date is read once per iteration.
- What the agent service answers while executing a bounty: it does not influence the loop's state, since the proof is submitted either way.
- Cron matching, listing and pagination, trust levels, permissions, hooks, settings, provider routing and the protocol-fee split alone: easy members, no run to reason about.
