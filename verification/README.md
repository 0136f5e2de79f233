# Verified models of the agent runtime

This project models the parts of the agent runtime where a loop, a protocol or a cache has to
agree with something simpler, and proves that it does, or exactly when it does. Run
`dafny verify dfyconfig.toml` to check it.

**Request assembly** (`packages/core/src/context-engine.ts`). A request replays the stored history
through four stages (shrink, collapse checkpoints, sanitize, dedupe) and ends with a tail of
volatile state that leaves out sections that did not change. What changes is also stored as a
checkpoint message. The central result says when this loses nothing: after any run, a section that
is left out of the tail is delivered by the one replayed checkpoint exactly when the last change
recorded of it was stored, or an older stored copy has the same normalised body. With a store that
accepts every checkpoint that is always so.

- `Prelude`, `Texts`, `Sections`, `Headings`, `AsStrings`: text as lines, `##` sections, the checkpoint
  printer and its two readers; the regular expressions and the strings behind them.
- `Checkpoints`, `Newest`, `CollapseView`, `Increments`, `Sanitizer`, `Blocks`, `Pipeline`: the stages,
  each loop against a specification, and what the specification says of the messages' own fields.
- `ReplayKeeps`, `HumanText`: what the stages preserve together, of the state and of human words.
- `VolatileTail`, `Turns`, `Completeness`, `Rereading`, `Rearm`, `SecondCall`: the change gate, the
  turns, the engine and the store, runs.

**The attention controller** (`packages/core/src/attention.ts`, `packages/core/src/mailbox.ts`).
A mailbox in priority order with entity locks; deliberation results that edit it; one disposition
per processed item; and a pool of workers as a step relation, across pool generations.

- `Mailbox`, `Deliberation`, `Disposition`, `WorkerPool`, `SingleFlight`.

**Greedy and log structures**: `ToolEviction` (`packages/core/src/capability-packs.ts`),
`HandoffLog` (`packages/core/src/concurrent-handoff.ts`) and `PageManager`
(`packages/chrome-extension/src/page-manager.ts`).

**Two calculations**: `CompactionEconomics` (`packages/core/src/context-budget.ts`) and
`ReleaseNotes`, `NotesLines` (`examples/release-notes-workflow.ts`).

## Findings

Where a property the repository states does not hold as stated, the code is kept as it is, and the
exact condition or a concrete input is proved.

- A line `##` with nothing behind it is text to the section splitter and a cut to the checkpoint
  reader, so a section that holds one comes back without its second half. Printing and reading
  undo each other, and collapsing keeps the newest bodies, exactly for the sections `Legible`
  describes. `SecondCall.StraySectionIsCutShort` follows one such section into a request, and
  `Rereading.AnySectionDeliveredExactlyWhen` says for every run and every state what is delivered.
- A body that ends with two hashes reads back alone and is cut once another body comes behind it, so
  collapsing as checkpoints arrive is not always collapsing at once (`Increments.HashesAtTheEnd`). It
  is exactly when the newest bodies are legible side by side.
- A continuation prompt followed at once by a human message is merged with it, and the merged
  message disappears when a newer continuation prompt arrives. A text is in the request exactly when
  some merged run that has it does not start, blank messages aside, with a prompt of a family that a
  later run starts with too.
- Behind a continuation prompt or a summary a human message begins no turn: it is merged into a message
  that counts as synthetic, so the call after it leaves out what has not changed
  (`Turns.APromptSwallowsTheTurn`).
- The re-arm counter is reset by any section that is sent, so with an always-fresh section in the
  state an unchanged section is never sent again within a turn, contrary to the comment at
  `packages/core/src/context-engine.ts:2551`.
- The snapshot counts a section as known before its checkpoint is stored, so a section whose
  checkpoint was not stored is missing from later calls, until it is sent again.
- The backstop looks up the turn in flight by worker id. A pool launched over the id of a turn in
  focus lets two turns at one item run at once; a launch that spares those ids never does.
- When a turn outlives its grace period its item is dropped, so that it is not run twice, but the
  items of its batch go back in line. A batch is completed although its primary item was sent back
  or dropped when the agent was stopped or the reply was empty.
- Turns that time out and then settle are retried without any bound.
- A deliberation result that drops the item it also picks marks the persisted row of that item
  dropped while it is being processed. The item in hand is protected by nothing.
- The compaction advice is to compact when the loss is smaller than the price of the summary
  (`CompactsAtALoss` is one measurement); the horizon-free bar carries the summary as a surcharge
  where the comment takes something off it; and "never when f < 4/N" is not a rule of the code
  (`NothingCachedAlwaysCompacts`).
- `ConcurrentHandoffLog.load` is called idempotent and is so only for files with no record or with
  at least `maxKeep`. A pair declared again after it was done is not reported as in flight
  (`DeclaredAgain`). After a failed append or rewrite a fresh log reads what the file was told, which
  is not what memory holds.
- A page id is handed out again after a restart exactly when some id was handed out that is not below
  the count found in the storage: when the restart comes before the delayed write, when that write
  failed unnoticed, or when the storage cannot be read (`PageManager.StaleRestartReissues`).

## Assumptions

- The whole history of a session is replayed (`packages/core/src/agent.ts:8280-8304`), only the
  engine writes checkpoints, appends succeed except where `persists` says otherwise, nothing
  compacts a history between two calls, and a checkpoint stays below the size at which messages
  are shrunk. `Completeness.Allowed` states these for a run.
- User content is plain text; text without a heading is not mistaken for a heading named `_preamble`. The section normaliser behind the hash
  and the cut made by shrinking are arbitrary functions; hashes are equality of normalised bodies.
- The mailbox runs without a persistence layer that can refuse a claim. Delegate hooks do not
  throw. Time appears only as "the backstop fired" and "the turn did or did not settle".
- JSON text appears as sizes and as lines that parse or do not. Letter case is ASCII. Prices and
  rates are exact reals.

## Model

| member | source | states |
|---|---|---|
| Sections.SplitVolatileSections | packages/core/src/context-engine.ts:2870-2892 | the one-pass splitter with its buffer yields the sections that cutting the text at each heading yields, blank ones left out |
| Headings.HeadingMeans | packages/core/src/context-engine.ts:2881 | the name of a line is what the regular expression captures: there is one if and only if it matches, and it is the one with the most blanks in front and then the shortest |
| AsStrings.CutMeans | packages/core/src/context-engine.ts:2944 | a checkpoint is cut in front of a line if and only if the string goes on with two hashes and white space |
| AsStrings.TrimmingMeans | packages/core/src/context-engine.ts:2875 | trimming takes the white space off both ends of the string and nothing else |
| AsStrings.KindsOfMessagesAre | packages/core/src/context-engine.ts:2928-2929 | checkpoints, continuation prompts and loop warnings are the messages of the user that begin so, white space in front left out |
| AsStrings.PrintingMeans | packages/core/src/context-engine.ts:2638-2644 | a checkpoint is the marker, a line feed, and the bodies with an empty line between them |
| Sections.CheckpointRoundTrip | packages/core/src/context-engine.ts:2941-2960 | a printed checkpoint is recognised as one, and reading it gives back the printed sections if and only if they are legible |
| Sections.StrayHashesBreakTheRoundTrip | packages/core/src/context-engine.ts:2944-2953 | a section of four lines that the splitter keeps whole and the checkpoint reader cuts in two |
| Checkpoints.CollapseStateCheckpoints | packages/core/src/context-engine.ts:2926-2982 | the loops that find, absorb and rebuild equal the specification of collapsing |
| Checkpoints.CollapseIsLossless | packages/core/src/context-engine.ts:2926-2982 | every other message stays in order, at most one checkpoint is left, and collapsing again changes nothing |
| Newest.ViewSaysTheNewest | packages/core/src/context-engine.ts:2941-2960 | the view holds under every name that came up, and for the nameless section, the newest body that was read, and the names in the order in which they came up |
| Newest.CollapsedWhereItStands | packages/core/src/context-engine.ts:2970-2982 | the last checkpoint is rewritten where it stands, the messages behind it stay, and before it the other checkpoints are gone |
| AsStrings.RenderingMeans | packages/core/src/context-engine.ts:2964-2968 | the rewritten checkpoint is the marker, the preamble if there is one, and the bodies in the order of their names, joined by line feeds |
| CollapseView.CollapseKeepsTheViewExactlyWhen | packages/core/src/context-engine.ts:2942-2968 | the newest body of every section is the same before and after if and only if there are fewer than two checkpoints or the newest bodies are legible side by side |
| Increments.CollapseIsIncrementalExactlyWhen | packages/core/src/context-engine.ts:2926-2982 | for every history: collapsing it before the next message comes makes no difference, whatever that message is, if and only if there are fewer than two checkpoints or the newest bodies are legible side by side |
| Increments.HashesAtTheEnd | packages/core/src/context-engine.ts:2944-2968 | two checkpoints that read back as they were written, and a message for which it makes a difference |
| Checkpoints.RenderedCheckpoint | packages/core/src/context-engine.ts:2964-2968 | the rewritten checkpoint reads back as the view if and only if the view's bodies are legible side by side |
| Sanitizer.SanitizeMessageSequence | packages/core/src/context-engine.ts:3058-3126 | the one-pass loop with its pending block equals dropping incomplete tool blocks and then merging adjacent user messages |
| Sanitizer.SanitizeIsNormalForm | packages/core/src/context-engine.ts:3058-3126 | every tool call of the result is followed at once by exactly one result per id, no result stands alone, nothing is left to merge; exactly the sequences of that form are unchanged, so a second pass changes nothing |
| Blocks.EveryCallIsAnswered | packages/core/src/context-engine.ts:3058-3126 | in the result, directly behind every message with calls stand one result for each id and no other, no result stands anywhere else, and exactly the sequences of that kind with nothing to merge are unchanged; said of `toolCalls` and `toolCallId` alone |
| Blocks.CallIsKeptExactlyWhen | packages/core/src/context-engine.ts:3076-3092 | a message with calls is kept, with the first result for each, if and only if every call has an id and a result of that id before the next message that is not of a tool; what comes before and after is sanitized as if the block were not there |
| Blocks.OrphansLeaveNoTrace | packages/core/src/context-engine.ts:3084-3091 | results without a call in front of them leave no trace |
| Blocks.HumanMessagesAreApart | packages/core/src/context-engine.ts:3093-3117 | no two messages of the user are left next to each other unless one of them begins as the system's do |
| Blocks.SystemMessagesStandAlone | packages/core/src/context-engine.ts:3102-3108 | a message of the user that begins as the system's do is never merged |
| AsStrings.MergingMeans | packages/core/src/context-engine.ts:3109-3112 | two messages of the user are merged in their order, with an empty line between them |
| Pipeline.DedupeTransientPrompts | packages/core/src/context-engine.ts:3000-3017 | the two passes keep exactly the newest prompt of each transient family and everything else |
| Pipeline.ReplayIsAppendOnly | packages/core/src/context-engine.ts:2330-2340 | whatever the history, the whole blocks and replies a tool loop adds are appended to the request unchanged, so the request only grows at its end |
| ReplayKeeps.ReplayKeepsTheViewExactlyWhen | packages/core/src/context-engine.ts:2330-2340 | for checkpoints that carry the mark of the engine, the four stages together keep the newest body of every section if and only if there are fewer than two checkpoints or those bodies are legible side by side; at most one checkpoint is left |
| HumanText.TextReachesExactlyWhen | packages/core/src/context-engine.ts:2330-2340 | for every history a text is in the request, after all four stages, if and only if some merged run that has it is not lost; a run is lost when it is headed by a prompt and a later run is headed by one of the same family |
| HumanText.HumanMessageIsInARun | packages/core/src/context-engine.ts:3093-3117 | a user message that is no checkpoint and is not so large that it is cut is in one of the runs |
| HumanText.HumanTextReachesTheRequest | packages/core/src/context-engine.ts:3093-3117 | its words are in the request if its run is not lost, in a message that is no prompt if its run is not headed by one, and exactly if its run is not lost when no other run has the words |
| HumanText.HumanTextLostBehindAPrompt | packages/core/src/context-engine.ts:3099-3100 | four messages for which the words of a human are not in the request |
| VolatileTail.GateSections | packages/core/src/context-engine.ts:2557-2598 | the gate loop's sections to send, to store and to leave out, and the next snapshot |
| VolatileTail.ContextEngine.PrepareMessages | packages/core/src/context-engine.ts:2557-2695 | the request, the new snapshots in insertion order after eviction, and the stored checkpoint of one call |
| Turns.WhatACallSends | packages/core/src/context-engine.ts:2557-2598 | while a human message of the request is unanswered a call sends every section; while a reply stands behind the last human one it sends what has changed and what is always sent, or everything if nothing is recorded or the last eight calls sent nothing; human is said by the six prefixes |
| Turns.WhatACallStores | packages/core/src/context-engine.ts:2595-2651 | a call stores a checkpoint of the sections that have changed and are not always sent, if there are any, the session has a name and the store accepts it, and touches no other session |
| Turns.FirstCallMeans | packages/core/src/context-engine.ts:2505-2558 | a call is a first one if a human message is unanswered and none if a reply stands behind the last one; without a human message, if nothing but the very first message is a reply |
| Turns.HumanMessageBeginsATurnExactlyWhen | packages/core/src/context-engine.ts:3036-3056 | a human message that comes in begins a turn if and only if the last message of the request does not swallow it; otherwise the turn stands as it stood |
| Turns.CallAfterAHumanMessage | packages/core/src/context-engine.ts:2505-2562 | after every run that ends with a human message that is not swallowed, the call sends every section, whatever was sent before |
| Turns.APromptSwallowsTheTurn | packages/core/src/context-engine.ts:3099-3112 | three messages behind which a human message is swallowed while a turn is underway |
| Turns.EverySectionIsSentOrNamed | packages/core/src/context-engine.ts:2660-2680 | every section is in the tail word for word, or the tail has a line with its name |
| AsStrings.TailMeans | packages/core/src/context-engine.ts:2660-2683 | the tail is its marker and, with empty lines between them, the hint, the sections sent, and the line that names the others, separated by commas |
| Completeness.NamedSectionDeliveredExactlyWhen | packages/core/src/context-engine.ts:2595-2651 | after every run, in which any checkpoint may fail to be stored, a named section is delivered if and only if this call sends it, or the newest stored body of it has the normal form of the last one recorded |
| Completeness.DeliveredExactlyWhen | packages/core/src/context-engine.ts:2557-2657 | the same for sections of any key, up to a tail that carries the words by chance; what is left out was recorded before |
| Completeness.EverySectionIsDelivered | packages/core/src/context-engine.ts:2600-2623 | when every checkpoint is stored, after every run of appends, calls and restarts, with any evictions, each section of the current state is in the tail verbatim or its newest replayed copy has the same normalised body, always-fresh ones are in the tail, and at most one checkpoint is replayed |
| Completeness.RunAgrees | packages/core/src/context-engine.ts:2557-2657 | every run keeps that the history holds the newest stored body of every section, and a snapshot the hash of the last one recorded |
| Rereading.AnySectionDeliveredExactlyWhen | packages/core/src/context-engine.ts:2595-2651 | for every run, whatever the blobs, a section is delivered if and only if the tail carries its words or what the stored checkpoints are read as, once more after the rewriting if there are two, holds a copy with the same normal form |
| Rereading.RunTracks | packages/core/src/context-engine.ts:2557-2657 | every run, whatever the blobs, leaves in the history of a session exactly the checkpoints it stored for it, and they say what they read as |
| Rearm.RearmAsCoded | packages/core/src/context-engine.ts:2558-2598 | after any run, the first call of a turn and any number of tool-loop iterations, each with its call and an unchanged blob: the next call sends everything if it is a ninth one and there is no always-fresh section, nothing if it is not, and only the always-fresh ones if there are any |
| Rearm.OldestSessionGoes | packages/core/src/context-engine.ts:2652-2657 | with 64 sessions a call for one more takes the place of the one that has been there the longest, and of no other |
| SecondCall.SecondCallDeliversExactlyWhen | packages/core/src/context-engine.ts:2595-2651 | for a state of any one section, the second call of a turn is delivered it if and only if the first one's checkpoint was stored and what is read back from it has the same normal form |
| SecondCall.RobustSectionNeedsTheStore | packages/core/src/context-engine.ts:2638-2651 | for a section without a stray `##`, if and only if the session has a name and the store accepted the checkpoint |
| SecondCall.StraySectionIsCutShort | packages/core/src/context-engine.ts:2944-2953 | a section with a stray `##` is delivered if and only if, besides, its first half has the normal form of the whole |
| Mailbox.AgentMailbox.LockEntities | packages/core/src/mailbox.ts:852-863 | succeeds exactly if every key is free and none is asked for twice, takes all of them then, and leaves the locks as they were otherwise |
| Mailbox.AgentMailbox.UnlockEntities | packages/core/src/mailbox.ts:866-876 | releases the keys held by the holder and no others |
| Mailbox.AgentMailbox.Insert | packages/core/src/mailbox.ts:1681-1690 | the item goes before the first one of the same or a lower rank |
| Mailbox.AgentMailbox.Dequeue | packages/core/src/mailbox.ts:1003-1017 | takes out the first item none of whose entities is locked, or nothing when there is none |
| Deliberation.AttentionController.ApplyDeliberationResult | packages/core/src/attention.ts:1860-1911 | the five loops leave the chosen item, the batch, the queue and the rows of a closed form |
| Deliberation.DeliberationConserves | packages/core/src/attention.ts:1860-1911 | every item ends in exactly one of chosen, batched, queued, deferred, dropped and completed, is otherwise unchanged, queued human chats, strict-state events and direct mentions stay queued or are chosen, and the rows agree up to a drop of an item in hand |
| Deliberation.ItemsGoWhereTheyAreSent | packages/core/src/attention.ts:1864-1911 | which of these places an item ends in, from the lists that name it, their precedence and the three flags that protect it |
| Deliberation.DeliberationKeepsOrder | packages/core/src/attention.ts:1900-1911 | the queue stays in priority order and the batch is in the order in which it was named |
| Deliberation.TheItemInHandCanBeDropped | packages/core/src/attention.ts:1864-1875 | for any two items and rows, a result that drops a current item put back, and one that marks the chosen item's row dropped |
| Disposition.AttentionController.ResolveStatus | packages/core/src/attention.ts:1087-1196 | the branches apply the one verdict of the rules, and the force-complete safety net cannot be reached |
| Disposition.AttentionController.FinishBatch | packages/core/src/attention.ts:1198-1212 | the batch is completed or sent back as one, by the rule for batches |
| Disposition.AttentionController.ProcessFocusedItem | packages/core/src/attention.ts:945-1217 | the mailbox after one focused item and its batch, and a controller with no focus, interrupt or batch left |
| Disposition.ExactlyOneVerdict | packages/core/src/attention.ts:1087-1184 | completed, dropped, deferred and requeued, each by its own rule, leave no ending without a verdict and none with two |
| Disposition.ItemAndBatchPartWays | packages/core/src/attention.ts:1023-1212 | in the mailbox after an item and its batch: the item is in line only if its turn is known to be over; a turn that outlives the grace period leaves it dropped and its batch in line; the batch is completed and the item not, exactly when the agent was stopped or an item that asks for a reply produced nothing |
| Disposition.SurvivesExactlyWhen | packages/core/src/attention.ts:1136-1184 | an item is still in line after a run of attempts exactly when each was interrupted, or abnormal within the first MAX_RETRIES attempts of any kind for a background item |
| Disposition.AbnormalAttemptsAreBounded | packages/core/src/attention.ts:1141-1176 | attempts that only end abnormally make a background item terminal with the third and a human chat with the first |
| Disposition.TimeoutsAreNotBounded | packages/core/src/attention.ts:1087-1102 | for every n an item survives n turns that time out and settle |
| WorkerPool.MutualExclusion | packages/core/src/attention.ts:835-937 | in every reachable state, over all interleavings and pool generations, two turns in focus have no entity in common, do not run in one session, and neither runs in a session that is an entity of the other |
| WorkerPool.StartsExactlyWhen | packages/core/src/attention.ts:835-880 | after every run a worker that holds an item can start its turn, in that session, if and only if the item names no entity twice and no turn in focus or still to be released works with one of its entities or its session |
| WorkerPool.ItemsAndLocksAreConserved | packages/core/src/attention.ts:841-937 | in every reachable state each item received is queued, held by one worker, deferred, completed or dropped, and only one of these, and every lock belongs to a worker that has still to release it |
| WorkerPool.MostUrgentFirst | packages/core/src/mailbox.ts:1003-1017 | after every run the item a worker takes is of the highest rank among all queued ones without a locked entity |
| SingleFlight.AttemptsNeverOverlap | packages/core/src/attention.ts:1021-1068 | as long as no pool is launched over the id of a turn in focus, of two attempts at one item the earlier is always over |
| SingleFlight.LaunchOverlapsExactlyWhen | packages/core/src/attention.ts:458-480 | in every state such launches lead to, one more launch can lead to two turns at one item at once if and only if some turn in focus has an id of the new pool |
| SingleFlight.ReusedIdOverlaps | packages/core/src/attention.ts:1414-1431 | from whatever state, a launch over the id of a turn in focus can, at any new item that comes first and has a free key |
| SingleFlight.TwoGenerationsOverlap | packages/core/src/attention.ts:435-480 | from the start, for any item with one key, a run over two launches of a pool of two has two turns at one item at once |
| CompactionEconomics.GainIsTheDifferenceOfTheBills | packages/core/src/context-budget.ts:252-257 | the formula is the difference of two bills added up call by call |
| CompactionEconomics.VerdictExactly | packages/core/src/context-budget.ts:259-270 | the three-way test is f > f*, or f >= f* without a summary, and this is a bound on the gain |
| CompactionEconomics.AdviceIsWorthFollowing | packages/core/src/context-budget.ts:227-276 | "hold" means compacting strictly loses over the expected calls; "compact" loses at most the price of the summary |
| CompactionEconomics.CompactsAtALossExactlyWhen | packages/core/src/context-budget.ts:265-270 | "compact" although it does not pay back in time, exactly when the loss is below the price of the summary |
| CompactionEconomics.VerdictIsMonotone | packages/core/src/context-budget.ts:259-270 | more freed, more calls or a worse hit rate never turn "compact" into "hold" |
| CompactionEconomics.EstimatesAre | packages/core/src/context-budget.ts:117-141 | the fraction freed is what is neither kept nor written anew, between nothing and 95 percent; the calls expected are those of this turn, between one and fifty |
| CompactionEconomics.PaysForTheLastCallExactlyWhen | packages/core/src/context-budget.ts:63-64 | the penalty is not positive exactly when f >= 0.8 h + 2 S / P |
| CompactionEconomics.EstimatesSpeakExactlyWhen | packages/core/src/context-budget.ts:117-141 | the estimates are in range, and advice on them is given exactly when the prompt is large, the hit rate is one, and what is freed outweighs what is kept and written |
| ReleaseNotes.Group | examples/release-notes-workflow.ts:214-220 | the map holds each category once, in order of first appearance, with its commits in order |
| ReleaseNotes.CategoryMeans | examples/release-notes-workflow.ts:193-208 | which commit goes under which heading, from its subject in small letters and its body |
| ReleaseNotes.DraftReleaseNotes | examples/release-notes-workflow.ts:210-240 | the nested loops write the document of the specification |
| NotesLines.EveryCommitUnderItsHeading | examples/release-notes-workflow.ts:224-239 | the draft starts with the title and the range, and every commit is listed, subject and hash, under the heading of its category |
| NotesLines.CleaningMeans | examples/release-notes-workflow.ts:189-191 | a cleaned text is the words of the text, its backticks replaced, with one space between them |
| NotesLines.OccurrencesAreSplits | examples/release-notes-workflow.ts:257-258 | a marker occurs once less often than the document has parts when it is split at it |
| ReleaseNotes.ReviewReleaseNotes | examples/release-notes-workflow.ts:242-267 | the problems found, in order |
| ReleaseNotes.OccurrencesInDraft | examples/release-notes-workflow.ts:210-258 | the marker of a hash is found once for each commit with it, and once more if the range has its name |
| ReleaseNotes.DraftPassesReviewExactlyWhen | examples/release-notes-workflow.ts:210-267 | the review of a draft is empty if and only if the hashes are distinct and none is the cleaned range label |
| ToolEviction.EstimateCoversTheText | packages/core/src/capability-packs.ts:411-414 | the least number of tokens that covers the JSON text of the list at 3.5 characters each, whatever the texts of the tools, and 0 for no tools |
| ToolEviction.PickVictim | packages/core/src/capability-packs.ts:439-455 | the tool that beats all others by tier, size and position, or none if all are protected |
| ToolEviction.EvictToolsToBudget | packages/core/src/capability-packs.ts:427-470 | what is evicted is the shortest beginning of the order by tier, size and position that is enough, or all of it; the rest stays in order |
| ToolEviction.PlanIsUnique | packages/core/src/capability-packs.ts:427-470 | list, policy and budget determine what is evicted and in which order |
| ToolEviction.EvictedByPrecedence | packages/core/src/capability-packs.ts:188-212 | protected tools are never evicted; situational tools go before the others, core tools after them, then the larger before the smaller and the first before the second; whatever stays would have gone after everything that is evicted |
| ToolEviction.PlanFitsTheText | packages/core/src/capability-packs.ts:411-457 | what is left is nothing, or a JSON text of at most 3.5 characters for each token of the budget, or protected tools alone; with one tool evicted less the text would have been longer |
| HandoffLog.ConcurrentHandoffLog.Load | packages/core/src/concurrent-handoff.ts:93-114 | the newest records of memory and file, and the line count including the empty last line |
| HandoffLog.ConcurrentHandoffLog.Append | packages/core/src/concurrent-handoff.ts:117-141 | the ring buffer, the file and the count after an append, whether the writes succeed or fail |
| HandoffLog.WhatAFreshLogReads | packages/core/src/concurrent-handoff.ts:93-151 | after any appends, clears and restarts, whichever writes fail, memory is the newest maxKeep records the process was told, and a fresh log reads the newest maxKeep the file was told |
| HandoffLog.NothingIsLostByRestarts | packages/core/src/concurrent-handoff.ts:93-151 | when every write succeeds both are the newest maxKeep records of history, and an append leaves at most max(511, maxKeep) lines |
| HandoffLog.RewrittenExactlyWhen | packages/core/src/concurrent-handoff.ts:117-141 | an append rewrites the file if and only if the lines read, the appends since and one more come to 512 |
| HandoffLog.LoadTwiceExactlyWhen | packages/core/src/concurrent-handoff.ts:92-114 | loading twice equals loading once exactly when the file has no record or at least maxKeep |
| HandoffLog.InFlight | packages/core/src/concurrent-handoff.ts:173-190 | exactly the latest openings of pairs closed nowhere in the window, each once, in the order the pairs were first opened |
| HandoffLog.ReportedExactlyWhen | packages/core/src/concurrent-handoff.ts:173-190 | what is reported, by worker, entity and kind of the records alone |
| HandoffLog.ReportedInOrder | packages/core/src/concurrent-handoff.ts:186-190 | of two reported records the one whose pair was opened first comes first |
| HandoffLog.ReopenedIsNotReported | packages/core/src/concurrent-handoff.ts:165-190 | what is reported is open by the comment; what is open by the comment is not reported exactly when its pair was closed before |
| PageManager.Manager.Restore | packages/chrome-extension/src/page-manager.ts:26-67 | the state read from whatever is stored, for the tabs that are still there, and the state as it was if nothing is stored or can be read |
| PageManager.Manager.Persist | packages/chrome-extension/src/page-manager.ts:69-82 | nothing is scheduled any more, and what is stored lists every tab of the state once, with its page, or is what was stored before if the storage refuses the write |
| PageManager.Manager.GetPageId | packages/chrome-extension/src/page-manager.ts:84-93 | the known page of a tab, or the next id, and a write scheduled when something changed |
| PageManager.OthersStayAsTheyAre | packages/chrome-extension/src/page-manager.ts:84-147 | removing a page takes out that page, its tab and its selection, and every other tab keeps its page and another selection stays; asking, selecting and restoring touch nothing else either |
| PageManager.RestoreIsRestriction | packages/chrome-extension/src/page-manager.ts:26-82 | restoring a stored state is that state restricted to the live tabs, and a bijection |
| PageManager.AlwaysABijection | packages/chrome-extension/src/page-manager.ts:26-172 | in every reachable state, over clears, failed writes and reads, and restarts from whatever was stored, the maps are inverse, the selection is mapped and ids are below the next |
| PageManager.IdsAreNeverReissued | packages/chrome-extension/src/page-manager.ts:84-93 | as long as every restart finds a count in the storage that is not below the one it replaces, no page id is handed out twice |
| PageManager.RestartComesToReissueExactlyWhen | packages/chrome-extension/src/page-manager.ts:26-82 | after every run at all, with clears, failed writes and reads and restarts at any moment, the worker that starts now comes to hand out an id again if and only if some id was handed out that is not below the count it finds |
| PageManager.RestartReissuesExactlyWhen | packages/chrome-extension/src/page-manager.ts:26-93 | without a clear, or with every read succeeding, it does so with the first new id |
| PageManager.FirstStaleRestartReissues | packages/chrome-extension/src/page-manager.ts:69-93 | as long as restarts were up to date, the next one hands out an id again if and only if it is not |

## Left out

- Completeness.NamedSectionDeliveredExactlyWhen: for blobs with unique headings and no stray `##` line; text in front of the first heading is not covered, because other text of the tail may repeat it.
- Completeness.EverySectionIsDelivered: states delivery for calls that name a session, with legible blobs and unique headings; the call it ends with may be any.
- Rereading.AnySectionDeliveredExactlyWhen: what a checkpoint with stray `##` lines reads as is computed from what was written, not given in closed form; a tail that carries the words is named on both sides.
- Rearm.RearmAsCoded: an iteration of the tool loop adds replies and results in final form; there is something to replay, which the message that starts the turn sees to.
- Turns.HumanMessageBeginsATurnExactlyWhen: for messages below the size at which they are shrunk.
- HumanText.TextReachesExactlyWhen: "in the request" is line for line inside some message; what surrounds the words of merged neighbours is what the specification of merging says.
- VolatileTail.ContextEngine.PrepareMessages: the system message in front and the cache breakpoints are not modelled.
- WorkerPool.MutualExclusion: is about turns in focus; a turn that was abandoned after its grace period may still be running when its locks are released. The serial loop takes no locks. When the serial loop replaces a pool, that is a launch of no worker, and what it does itself is not part of the pool.
- WorkerPool.ItemsAndLocksAreConserved: the pool is a step relation on values, not classes; workers interleave between steps, each of which is one stretch of code without an await.
- Disposition.ExactlyOneVerdict: is for serial mode; in the pool the last yield decision is shared by all workers, so any verdict may follow a turn that settled.
- ToolEviction.EvictToolsToBudget: a budget is an integer; the JSON text of a tool is its length.
- CompactionEconomics.VerdictExactly: NaN and infinite inputs and IEEE rounding are not modelled.
- ReleaseNotes.DraftPassesReviewExactlyWhen: for at least one commit and non-empty hashes without backticks and line ends, which is what reading the git log provides.
- HandoffLog.WhatAFreshLogReads: a write either happens or does not; the last line of the file is complete.
- PageManager.RestartReissuesExactlyWhen: for runs without a clear, or in which every read succeeds; with both, the first id handed out may be new although later ones are not.
- PageManager.AlwaysABijection: operations that arrive while a restore is still reading are not modelled; a write happens when the timer fires or not at all.
- Prompt text, the knowledge section, cache breakpoints, token counting and fitting to the budget.
- Mail arrival, interrupts, the judge and the rule table that decide at a yield point, triage conditions, the watchdog, leases and claims.
- The catalog text of evicted tools, the emission schedule of the compaction hint, and git, the browser and the file system themselves.
