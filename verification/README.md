# Verification of xezar's protocols

A Dafny project that models the parts of xezar whose correctness spans several calls, several files or a
crash, and proves what they promise. `dafny verify dfyconfig.toml` checks everything.

What is modelled, file by file:

- `Journal`, `JournalRows`, `JournalRuns`, `JournalFollow`, `JournalContents`, `Catalog`: the per-project
  event journal. A gapless log, retention from its head, pages bounded in rows and in bytes, cursors,
  recreation under a new epoch, readers that follow `nextCursor` while all of that goes on, and what its
  rows are made of.
- `LeaderRecord`, `LeaderPush`, `LeaderScan`, `LeaderRuns`, `LeaderPromises`, `LeaderPushRuns`,
  `LeaderLosses`, `LeaderSilence`, `LeaderInbox`: the leader's persisted positions; the event controller that
  scans the journal and pushes; at-least-once delivery over reads, gaps, rewinds, pushes that fail or go
  unanswered, rows left out of them, acknowledgements, new sessions, failed saves and restarts; which rows
  are lost to a leader; and the inbox that releases rows once each in order.
- `Receipts`, `ReceiptReads`, `ReceiptRuns`, `ReceiptSafety`, `ReceiptAnswers`, `ReceiptPromises`,
  `ReceiptTwice`: operation receipts. The journal of intents and outcomes with its torn writes, the snapshot,
  eviction, compaction at its two moments, the run index with its pruning and the read that reconciles from
  it, the run of calls, effects and crashes above them, and what each caller is told.
- `StaleWrite`: version tokens and the compare-and-swap of guarded mutations.
- `VerdictLedger`, `VerdictRuns`, `VerdictHistory`, `VerdictRows`: reviewer verdicts, one current packet per
  role, their publication in two durable writes, and what becomes of a report and of its row over a run.
- `Text`, `Json`, `JsonReading`, `JsonRecords`, `Findings`: the hand-written UTF-8 counter, the cost of JSON
  text and its reading back, and the rules that span a whole verdict packet.
- `Crc`, `Png`: the CRC-32 table and byte loop, and the PNG writer, against sections 3.2 and 3.4 of
  RFC 2083. A 32-bit register is a sequence of 32 bits, least significant first.
- `AirView`, `AirStores`, `AirLinks`, `AirPage`: the view state of the Air mockup pages, its two stores, its
  links and its compare page. A query string is its list of pairs.
- `StallMonitor`, `StallRuns`, `StallDeadlines`: the advisory stall monitor of one run.
- `LaunchArgs`: the per-session browser launch flags.
- `Quota`: the strict producer and the tolerant reader of the agent quota answer.

Protocols are functional step machines (`Next`, `Run`), where one step is one synchronous stretch of the
program or one thing that happens to it: a crash, a failed write, another process's change. Each carries
history the program does not keep, so that a promise about the past can be stated. Classes and loops of
the program are classes and loops here, each proved against the function the lemmas are about.

## Where a promise does not hold as written

The code is modelled as it is. Each of these has a run that breaks the promise and the condition under
which it is kept:

- A cursor can be taken for another journal's. A new journal empties the rows file before it replaces the
  index (`event-journal.ts:420-439`); if the second write is lost, the next start reads the old epoch over
  new rows, and a reader skips rows without being told (`JournalFollow.SilentSkip`). Exactly that restart
  breaks it (`JournalRuns.TrustworthyIff`).
- Rows a leader is owed are promised never to be passed in silence (`leader-events.ts:167`). They are when
  the first round of a session that gets past its page comes after an eviction: it reads from the oldest
  retained row and states a gap only where the session began with one (`event-controller.ts:629-661`,
  `LeaderSilence.GapPassesInSilence`). A round loses exactly the evicted owed rows that no waiting gap names
  and that nobody was told of (`LeaderLosses.RoundLosesIff`); rows the client already holds do not count. No
  other step passes a row, and a session that begins names what is gone (`LeaderLosses.OnlyRoundsPass`). A
  later pull may still name such a row in a gap; an acknowledged one was never handed over or named exactly
  if a round stepped over it and nothing settled it since (`LeaderLosses.NeverHeardIff`).
- A receipt's damage mark carries the earliest date of all losses (`operation-receipts.ts:688-691`), so a
  fresh loss can be dropped with an old one and an effect run twice although every read told the truth
  (`ReceiptTwice.EffectTakesPlaceTwice`). It is dropped exactly when an older mark, itself past the age
  floor, stood in the journal (`ReceiptTwice.FreshLossIsDroppedIff`); otherwise a key is forgotten only when
  old (`ReceiptPromises.ForgottenOnlyWhenOld`).
- A miss in a damaged journal asks the run index with the present instead of the attempt's date
  (`operation-receipts.ts:370-377`), which switches its pruning guard off
  (`ReceiptReads.AskedNowAbsenceIsDenied`): a run that was pruned is created a second time
  (`ReceiptTwice.PrunedRunIsCreatedTwice`). For a key that was not forgotten, exactly such a denial makes a
  second effect possible (`ReceiptPromises.AtMostOnce`, `ReceiptPromises.DeniedOverRuns`,
  `ReceiptPromises.AgainIsASecondTime`). Asked with its own date a pruned run is denied once an older run is
  restored from the archive (`ReceiptReads.RestoringDenies`, `ReceiptReads.PrunedRunIsDenied`); the intent is
  then settled as not applied, exactly under that condition (`ReceiptPromises.SettledNotAppliedIff`).
  Both need a call that names the run-by-key read, as the receipt layer offers it; the calls wired today name
  none (`mcp/index.ts:483-488`), and for them `ReceiptPromises.StartsAtMostOnce` holds.
- A decision change whose save failed before a restart lets a stale write pass (`StaleWrite.LostSavePasses`);
  exactly the restarts that lose a revision do (`StaleWrite.RestartFollowsIff`).
- A verdict's row is appended before its record is flushed exactly when a catalog is attached and the
  journal takes the row (`event-catalog.ts:381`, `task-verdicts.ts:255-265`, `VerdictRows.RowBeforeRecordIff`),
  and the report can end up announced twice (`VerdictRuns.RowBeforeRecord`). A second row becomes possible
  exactly at a crash between an announcement and the save of its mark, or when an id whose row is out is
  recorded again (`VerdictRows.AtMostOneRowIff`). A failed append is marked all the same
  (`VerdictRuns.HonestIff`).
- A recorded verdict can be lost: the packet is removed after a flush whose failure nobody sees
  (`task-verdicts.ts:265-266`), and the process dies before the next save (`VerdictHistory.LostWithoutATrace`,
  `VerdictHistory.LostBehindItsRow`). A crash loses a report only if its flush failed
  (`VerdictHistory.CrashLosesOnlyRefused`), and exactly when its packet is gone too and the last save had not
  written an equal report; a packet that a crash left behind is lost exactly when another step's settlement
  or another packet takes its place (`VerdictHistory.LosesIff`, `VerdictHistory.SurvivesIff`).
- The id of a replaced packet can come back with other content (`VerdictLedger.ReplacedIdComesBack`).
- The deadline warning is once per watch, not once per execution (`StallRuns.DeadlineWarnsAgain`): however
  often an execution is interrupted, it is warned about once for each stretch between interruptions in which
  its deadline is found near (`StallDeadlines.OncePerStretch`). A stall on record outlives a monitor that is
  attached anew (`StallRuns.StallLingers`, `StallRuns.HonestRecordIff`); a silence that starts after the
  deadline warning rewrites the record unchanged (`StallRuns.SilenceWriteChangesIff`).
- Applying the launch flags twice differs from once when `--args` is the last argument
  (`LaunchArgs.TwiceIsOnceIff`).

## Model

| member | source | states |
|---|---|---|
| Journal.EvictKeeps | packages/xezar/src/mcp/event-journal.ts:311-317 | eviction keeps a suffix: the newest rows whatever their age, and every row younger than the minimum age whatever the count |
| Journal.PageIsDetermined | packages/contract/src/mcp-journal.ts:32-34 | the two bounds and "at least one row" leave exactly one possible page |
| Journal.PageEndIsPage | packages/xezar/src/mcp/event-journal.ts:273-281 | the page loop stops exactly where those bounds put the end of the page |
| Journal.PageProperties | packages/xezar/src/mcp/event-journal.ts:273-291 | a page is the retained rows strictly after the cursor, consecutive, within both bounds, empty only at the head, and `hasMore` tells whether the head is reached |
| Journal.PageFitsItsBytes | packages/contract/src/mcp-journal.ts:32-34 | with rows of admissible events no page ever exceeds its byte bound, single-row pages included |
| Journal.ReadAnswers | packages/xezar/src/mcp/event-journal.ts:255-305 | a cursor of another project, an unreadable one and one past the head are rejected, each for its own reason; one of another epoch or with evicted rows gets the gap and where to resume; every other one gets its page |
| Journal.OpenFiles | packages/xezar/src/mcp/event-journal.ts:354-412 | a journal is loaded exactly when index and every row read, belong to the project and number consecutively; otherwise it starts anew |
| Journal.EventJournal.Append | packages/xezar/src/mcp/event-journal.ts:202-248 | a number is spent only on a row that reached the file; a refused or failed append leaves memory and file as they were |
| Journal.EventJournal.ApplyRetention | packages/xezar/src/mcp/event-journal.ts:313-324 | the in-place eviction is the suffix retention promises, and the file still ends with the retained rows |
| Journal.EventJournal.ReadPage | packages/xezar/src/mcp/event-journal.ts:255-291 | the read answers foreign before stale before malformed position, and otherwise exactly the page the specification gives |
| JournalRows.RowFitsAPage | packages/contract/src/mcp-journal.ts:39-44 | no admissible event, whatever its characters cost in escapes and UTF-8, makes a row that outgrows a page |
| JournalRows.TextByText | packages/contract/src/mcp-journal.ts:56-113 | which summary, subject, version and cause an append takes in place of those of any event it takes |
| JournalRows.PartByPart | packages/contract/src/mcp-journal.ts:77-87 | which source and which gate |
| JournalRows.CategoryByCategory | packages/contract/src/mcp-journal.ts:47 | the six categories and no other |
| JournalRows.KindByKind | packages/contract/src/mcp-journal.ts:90 | which texts are kinds, one unit at a time |
| JournalRows.OneUnit | packages/contract/src/mcp-journal.ts:69-90 | a single unit is a kind or a subject type exactly when it is a lower-case letter |
| JournalRows.SlugBySlug | packages/contract/src/mcp-journal.ts:69-73 | which texts are subject types, one unit at a time |
| JournalRows.LeastEvent | packages/contract/src/mcp-journal.ts:92-113 | the shortest event an append takes |
| JsonRecords.RowReadsBack | packages/xezar/src/mcp/event-journal.ts:202-248 | the stored line of any row reads back as the row, field by field, whatever its texts hold, lone surrogates included |
| JournalRuns.RunKeepsInv | packages/xezar/src/mcp/event-journal.ts:104-120 | over every run of appends, evictions, restarts and recreations the retained rows are one contiguous end of a gapless log, and the file holds the same |
| JournalRuns.RunGrows | packages/xezar/src/mcp/event-journal.ts:202-248 | a log only grows, and the log of a journal that was replaced never changes |
| JournalRuns.TrustworthyIff | packages/xezar/src/mcp/event-journal.ts:420-439 | an epoch stays the mark of one journal if and only if no restart loads an index older than the rows beside it |
| JournalRuns.TrustworthyRun | packages/xezar/src/mcp/event-journal.ts:420-439 | while every new journal gets its index written, no cursor is ever taken for another journal's |
| JournalRuns.ReadMeans | packages/xezar/src/mcp/event-journal.ts:255-305 | a cursor that was handed out either replays its own log strictly after its place or is told that those rows are gone, and exactly when they are |
| JournalFollow.FollowIsExact | packages/contract/src/mcp-journal.ts:128-176 | following `nextCursor` with anything happening between the pages collects the log after the start, in order, each row once, or stops at an explicit gap whose resume cursor stands before the oldest retained row |
| JournalFollow.DrainReachesHead | packages/contract/src/mcp-journal.ts:139-151 | without new rows, as many reads as there are outstanding rows reach the head and have collected all of them |
| JournalFollow.ReadWithoutCursor | packages/contract/src/mcp-journal.ts:132-136 | the raw read without a cursor starts at the oldest retained row |
| JournalFollow.ResumeReadsOn | packages/xezar/src/mcp/event-journal.ts:293-305 | from a gap's resume cursor the first page starts with the oldest retained row |
| JournalContents.RunKeepsRows | packages/xezar/src/mcp/event-journal.ts:202-248 | a run never invents or alters a row: whatever holds of everything appended holds of everything recorded |
| JournalContents.EveryPageFits | packages/contract/src/mcp-journal.ts:32-44 | in every reachable state every page from every place stays within its bytes, so "at least one row" never breaks the bound |
| JournalContents.CatalogRowsOnly | packages/contract/src/mcp-event-catalog.ts:94-120 | a journal fed by the event catalog holds catalog rows only |
| Catalog.CheckCatalogEvent | packages/contract/src/mcp-event-catalog.ts:99-120 | no issue exactly for a catalog kind under its category, about a catalog subject, human where it says human, with gate metadata only where it belongs |
| Catalog.CategoryMeans | packages/contract/src/mcp-event-catalog.ts:30-92 | a kind's category is what the table spells beside it, and a kind the table does not spell has none |
| Catalog.SubjectsAndGates | packages/contract/src/mcp-event-catalog.ts:94-120 | the five subjects and the two kinds of a gate row, spelled |
| JournalFollow.SilentSkip | packages/xezar/src/mcp/event-journal.ts:420-439 | a run with one lost index write after which a reader is handed a later journal's second row as its next row |
| LeaderRecord.ProbeFindsThePlace | packages/xezar/src/mcp/reconnect.ts:228-234 | the one-row probe read gives back exactly the place a cursor stands at |
| LeaderRecord.AckMeans | packages/xezar/src/mcp/reconnect.ts:221-248 | an acknowledgement moves to its cursor's place when that is ahead and retained, and otherwise changes nothing |
| LeaderRecord.AckIsIdempotent | packages/xezar/src/mcp/reconnect.ts:221-248 | acknowledging twice is acknowledging once, for any cursor |
| LeaderRecord.AckIsCumulative | packages/xezar/src/mcp/reconnect.ts:221-248 | two acknowledgements leave the same record in either order |
| LeaderRecord.LeaderCursors.Open | packages/xezar/src/mcp/reconnect.ts:256-288 | a stored record is taken over; otherwise the record begins at the head with nothing delivered, acknowledged or reacted, and says it is fresh |
| LeaderRecord.LeaderCursors.GetPosition | packages/contract/src/mcp-leader.ts:65-83 | the three positions are reported apart, each 0 until it happened in the running journal |
| LeaderRecord.LeaderCursors.MarkDelivered | packages/xezar/src/mcp/reconnect.ts:205-211 | delivery moves its own position forward only, and is written only when it moved |
| LeaderRecord.LeaderCursors.Ack | packages/xezar/src/mcp/reconnect.ts:228-248 | the method is the acknowledgement the lemmas describe, and the file changes only with it |
| LeaderRuns.RunKeepsInv | README.md:252-284 | over every run of reads, rewinds, pushes and acknowledgements of cursors that were handed out, everything up to the acknowledged place, in memory and on disk, is accounted for; so is everything before the controller's scan, or the next push that is taken makes it so |
| LeaderPush.SignificantMeans | packages/xezar/src/mcp/event-significance.ts:13-15 | every row is significant except one whose kind reads `gate.passed` and whose gate has the scope `routine` |
| LeaderPush.ResumedMeans | packages/xezar/src/mcp/event-controller.ts:629-661 | a session that begins owes what is not acknowledged in this journal, and states a gap exactly when the record is another journal's or an owed row is gone |
| LeaderPush.RaisedMeans | packages/xezar/src/mcp/event-controller.ts:216-222 | before a round, what was acknowledged in this journal meanwhile is no longer owed |
| LeaderPush.ForeignPlaceIsDropped | packages/xezar/src/mcp/event-controller.ts:504-512 | a scan place the journal refuses is dropped and a gap is owed in its stead |
| LeaderPromises.LeftOutForAReason | packages/xezar/src/mcp/event-controller.ts:131-145 | over every run, each row left out behind a cursor reads `gate.passed` with the scope `routine`, or names the leader as origin and one of its operations as cause; no pushed row is the first |
| LeaderPromises.AcknowledgedWasAccountedFor | packages/xezar/src/mcp/event-controller.ts:131-145 | each acknowledged row was read or pushed, lies in a stated gap, is older than the record or was stepped over untold; any other is a routine success or an echo of the leader's own operation before a pushed cursor |
| LeaderPromises.OthersReachTheLeader | packages/xezar/src/mcp/tools/leader-events.ts:162-167 | an acknowledged significant row that the leader did not cause itself was handed to it or named, unless a round stepped over it untold |
| LeaderPushRuns.PushMeans | packages/xezar/src/mcp/event-controller.ts:519-556 | between where its scan began and the cursor it names, a push hands over exactly the owed rows that are no routine success and not the leader's own doing, and none that was acknowledged |
| LeaderPushRuns.OmittedCountIsExact | packages/xezar/src/mcp/event-controller.ts:143-145 | the count a push states is the number of routine successes that come to lie behind a pushed cursor with it, over any rounds and failed deliveries before; no owed one up to the cursor is missing that was not told of, named by the waiting gap or stepped over |
| LeaderPushRuns.PushesReachTheHead | packages/xezar/src/mcp/event-controller.ts:441-492 | while a client takes what it is handed, as many rounds as there are rows, and two, leave no row outstanding and no gap unstated |
| LeaderPushRuns.NothingSignificantWaits | packages/xezar/src/mcp/event-significance.ts:3-15 | then every row that is no routine success and nobody's echo was handed over or named |
| LeaderLosses.RunKeepsTold | packages/xezar/src/mcp/event-controller.ts:519-556 | over every run, each row up to a cursor the leader holds or up to what a session takes as acknowledged was told of or lies before a pushed cursor, and a waiting gap names evicted rows only |
| LeaderLosses.RoundLosesIff | packages/xezar/src/mcp/event-controller.ts:629-661 | in every reachable state, a round makes a row lost (before the scan's place or a pushed cursor, yet neither handed over, named, left out on purpose nor waiting) if and only if it gets past its page in a session whose scan has not moved, the row is owed, evicted and in no waiting gap, nobody was told of it, and no pushed cursor was beyond it before |
| LeaderLosses.OnlyRoundsPass | packages/xezar/src/mcp/event-controller.ts:629-661 | no other step moves past a row, and a session that begins leaves no evicted owed row outside its gap |
| LeaderLosses.NeverHeardIff | packages/xezar/src/mcp/tools/leader-events.ts:162-167 | over every run, an acknowledged significant row that the leader did not cause itself was never handed over or named if and only if a round stepped over it untold and no answer since has it |
| LeaderSilence.LeftOutOnPurpose | packages/xezar/src/mcp/event-controller.ts:137-143 | a run in which the leader acknowledges a pushed cursor over a routine success and its own echo, neither of which it was given |
| LeaderSilence.GapPassesInSilence | packages/xezar/src/mcp/tools/leader-events.ts:167 | a run in which a significant row is evicted before the first client takes a push, and is acknowledged without having been handed over or named |
| LeaderPromises.OwedRowsComeBack | README.md:266-276 | the leader's read without a cursor, followed to its end, returns every retained row after the acknowledged place, at once or after the gap is stated |
| LeaderPromises.OnlyAcksMoveIt | README.md:274-284 | reads, rewinds, pushes and reactions leave the acknowledged place where it was |
| LeaderPromises.AckNeverMovesBack | packages/xezar/src/mcp/reconnect.ts:221-248 | the acknowledged place never moves back within a process, nor across restarts while saves hold |
| LeaderPromises.MarksAreSaved | packages/xezar/src/mcp/reconnect.ts:205-219 | a delivery or reaction moves its own position forward only, and is on disk when it moved and the write succeeded |
| LeaderPromises.DamagedBeginsAnew | packages/xezar/src/mcp/reconnect.ts:256-288 | an unreadable record begins anew at the head with nothing delivered, reacted or acknowledged, and does so at every start until it was written |
| LeaderPromises.UnsavedAckIsForgotten | packages/xezar/src/mcp/reconnect.ts:290-300 | an acknowledgement whose write failed is forgotten by the next restart |
| LeaderInbox.ExactlyOnceInOrder | packages/xezar/src/mcp/reconnect.ts:566-604 | whatever is duplicated, reordered or split: the rows released are the log from the start, once each, up to the first number that never arrived; the rest is held |
| LeaderInbox.OrderDoesNotMatter | packages/xezar/src/mcp/reconnect.ts:566-604 | two inboxes that saw the same numbers end in the same state with the same rows released |
| LeaderInbox.ReleaseIsTheRun | packages/xezar/src/mcp/reconnect.ts:591-596 | release hands out the unbroken run after the delivered place and stops at the first hole |
| LeaderInbox.LeaderInbox.Accept | packages/xezar/src/mcp/reconnect.ts:580-603 | one call absorbs, releases, counts the duplicates and names the first missing range exactly |
| Receipts.KeySplits | packages/xezar/src/mcp/operation-receipts.ts:188-195 | a key gives its project back, because an operation id has no slash |
| Receipts.KeysAreDistinct | packages/contract/src/mcp-idempotency.ts:17-27 | two operations never share a key |
| Receipts.LoadLines | packages/xezar/src/mcp/operation-receipts.ts:658-686 | the scan keeps the latest receipt per key, counts every unreadable line and dates the damage by the earliest loss |
| Receipts.SnapshotIsAShortcut | packages/xezar/src/mcp/operation-receipts.ts:641-656 | loading from the snapshot and the rest of the journal is loading the whole journal |
| Receipts.Evict | packages/xezar/src/mcp/operation-receipts.ts:709-728 | the eviction loop drops exactly the receipts retention names |
| Receipts.EvictionMeans | packages/xezar/src/mcp/operation-receipts.ts:703-728 | only a settled receipt past the age floor goes, while its project keeps at least the floor of receipts no older, and never while its result exists |
| ReceiptSafety.DoneTells | packages/xezar/src/mcp/operation-receipts.ts:599-608 | a complete append leaves a line or a counted loss, even when a torn line swallows it |
| ReceiptSafety.FirstAttemptKeepsInv | packages/xezar/src/mcp/operation-receipts.ts:400-432 | the intent is on disk before the effect starts, and a refused or unwritable one starts nothing |
| ReceiptSafety.CompactDisk | packages/xezar/src/mcp/operation-receipts.ts:736-773 | a compaction writes exactly the kept receipts and the damage still owed, and its snapshot says the same |
| ReceiptSafety.RunKeepsInv | packages/xezar/src/mcp/operation-receipts.ts:337-514 | over every run, whatever started is remembered in memory and on disk, or told of as damage, until retention lets go |
| ReceiptPromises.AtMostOnce | packages/contract/src/mcp-idempotency.ts:6-15 | over every run of calls, retries, throws, torn writes, crashes, changes of the run index and reconciliations that read it, the effect of a key that was not forgotten takes place at most once while no read of a damaged journal's miss denies it |
| ReceiptPromises.DeniedOverRuns | packages/xezar/src/mcp/operation-receipts.ts:371-398 | such a denial is exactly a read, asked with the call's date, of an index without the run in which each non-empty pool holds a run no newer than the call |
| ReceiptPromises.AgainIsASecondTime | packages/contract/src/mcp-idempotency.ts:6-15 | and it is enough: the effect can take place a second time at once |
| ReceiptPromises.SettledNotAppliedIff | packages/xezar/src/mcp/operation-receipts.ts:482-513 | a dangling intent is settled as not applied exactly when the index denies its run under the intent's own date, and is never started again |
| ReceiptPromises.CallStartsIff | packages/xezar/src/mcp/operation-receipts.ts:337-432 | a call starts its effect exactly on an undamaged miss with a passing check and a written intent; every immediate answer started nothing |
| ReceiptAnswers.RetryAnswers | packages/contract/src/mcp-idempotency.ts:85-141 | a retry gets a conflict without any outcome when action or payload disagree, else the stored outcome, unverified ones with their date and reason, else that it is under way; only a dangling intent is asked about |
| ReceiptAnswers.UnknownAnswers | packages/xezar/src/mcp/operation-receipts.ts:363-432 | a key without a receipt is under way, asked about because the journal was damaged, refused, refused because its intent cannot be written, or started |
| ReceiptAnswers.EndingAnswers | packages/xezar/src/mcp/operation-receipts.ts:434-462 | an effect that reports is told as it reported and remembered; of one that throws nothing is told before it was asked about |
| ReceiptAnswers.SettlingAnswers | packages/xezar/src/mcp/operation-receipts.ts:482-513 | a dangling intent is told to have happened if and only if the read was made and its run is in the index, not to have happened if and only if the index denies it under the intent's date, and otherwise to be unverified with that date |
| ReceiptAnswers.SettledMeanwhile | packages/xezar/src/mcp/operation-receipts.ts:500-502 | what somebody settled during the read is told instead, unless the read could not tell |
| ReceiptAnswers.MissAnswers | packages/xezar/src/mcp/operation-receipts.ts:370-398 | a miss of a damaged journal is told to have happened, or to be unverified because of the damage, or is a first attempt exactly when the index denies the run |
| ReceiptAnswers.NextLineIsAlone | packages/xezar/src/mcp/operation-receipts.ts:599-608 | after a whole line the next append adds its own line only |
| ReceiptAnswers.TornLineCostsItself | packages/xezar/src/mcp/operation-receipts.ts:299-301 | behind a torn line the next append starts a line of its own, so the torn one costs only itself |
| Receipts.TornStaysTorn | packages/xezar/src/mcp/operation-receipts.ts:656-691 | writing nothing changes nothing; more text on a torn line spoils it, a newline ends it |
| ReceiptAnswers.BackgroundAsks | packages/xezar/src/mcp/operation-receipts.ts:464-475 | the background pass asks about a dangling intent that nobody asks about, and leaves every other key |
| ReceiptAnswers.CompactLeavesAJournal | packages/xezar/src/mcp/operation-receipts.ts:736-773 | a compaction starts no effect, and if its file is written leaves a journal that has begun, is not torn and counts anew |
| ReceiptAnswers.RestartKnows | packages/xezar/src/mcp/operation-receipts.ts:624-691 | a restart knows the latest line of every key and how much is lost, of unreadable files that something is, of deleted ones nothing |
| ReceiptAnswers.RestartCounts | packages/xezar/src/mcp/operation-receipts.ts:641-656 | and counts the lines it had to read towards the next compaction |
| ReceiptPromises.StartsAtMostOnce | packages/contract/src/mcp-idempotency.ts:111-126 | where no call names the read of the run index, the effect is even started at most once: an unverified key never runs again |
| ReceiptPromises.SettledIsFinal | packages/contract/src/mcp-idempotency.ts:30-40 | an outcome whose line reached the disk is the one every later call replays, across crashes, until it is evicted |
| ReceiptPromises.ForgottenOnlyWhenOld | packages/xezar/src/mcp/operation-receipts.ts:703-741 | a key is forgotten only with deleted files, a settled receipt past the age floor, or a damage date past it |
| ReceiptTwice.MarkIsOlderIff | packages/xezar/src/mcp/operation-receipts.ts:658-691 | the mark left for losses found by a load is older than they are exactly when the journal already carries an older one |
| ReceiptTwice.FreshLossIsDroppedIff | packages/xezar/src/mcp/operation-receipts.ts:736-741 | a compaction within the age floor drops the mark of what the load had just found exactly when an older mark past the floor stood in the journal |
| ReceiptTwice.EffectTakesPlaceTwice | packages/xezar/src/mcp/operation-receipts.ts:688-741 | a run with truthful reads and compactions only at shutdown in which one effect takes place twice because a fresh loss carries an old date |
| ReceiptTwice.PrunedRunIsCreatedTwice | packages/xezar/src/mcp/operation-receipts.ts:370-398 | a run in which an operation's run is pruned as the index fills and created again by a retry after an unreadable journal |
| ReceiptReads.Reconcile | packages/xezar/src/mcp/operation-receipts.ts:243-265 | the loop over the two retention pools is the read the lemmas describe |
| ReceiptReads.DeniedIff | packages/xezar/src/mcp/operation-receipts.ts:231-265 | "not applied" is answered exactly when the run is absent and every non-empty pool still holds a run no newer than the attempt |
| ReceiptReads.PruningMeans | packages/xezar/src/runs/store.ts:1705-1724 | pruning drops a run exactly when its pool lists 300, or 500 archived, before it, and what is kept there is at least as new |
| ReceiptReads.ChangeMeans | packages/xezar/src/runs/store.ts:1541-1565 | a deletion takes one run, a filing alters where one is kept, a lost file takes all, a creation adds one and invents no other |
| ReceiptReads.PruningIsNotDenied | packages/xezar/src/mcp/operation-receipts.ts:231-242 | right after pruning took a run, the read does not deny it to an attempt older than the run |
| ReceiptReads.RestoringDenies | packages/contract/src/runs.ts:939 | once a run no newer than the attempt is restored from the archive, every absent run is denied exactly when what is left archived does not forbid it |
| ReceiptReads.PrunedRunIsDenied | packages/contract/src/runs.ts:939 | an index that could not tell denies after one restore |
| ReceiptReads.AskedNowAbsenceIsDenied | packages/xezar/src/mcp/operation-receipts.ts:370-377 | asked with the present date, absence always reads as not applied |
| StaleWrite.TokensTellApart | packages/xezar/src/mcp/stale-write.ts:58-63 | equal token texts mean the same run, revision and digest, whatever characters the id holds |
| StaleWrite.ProjectionIff | packages/xezar/src/runs/decision-projection.ts:21-36 | two runs have the same projection if and only if they agree on each of the twelve listed facts, of a step on its id and status |
| StaleWrite.NoStaleWrite | packages/contract/src/runs.ts:985-990 | version read first, record second: whatever writers do in between, a write that passes the guard acts on a run that agrees with the one read on each of those facts, for any digest |
| StaleWrite.TraceFollows | packages/xezar/src/runs/store.ts:1688-1703 | over every trace an unchanged revision means an unchanged decision, and revisions never go back |
| StaleWrite.RevisionMovesIff | packages/xezar/src/runs/store.ts:1688-1703 | a write moves the revision by one if and only if one of those facts changed, a participant's message always, and the rest of the record is the caller's |
| StaleWrite.CreateAndRemove | packages/xezar/src/runs/store.ts:1688-1703 | a new run starts at revision 0, a removed one is gone |
| StaleWrite.SaveThenRestart | packages/xezar/src/runs/store.ts:1562-1565 | after a save the next process has every run and version, whatever was lost before |
| StaleWrite.RecordFirstIsUnsafe | packages/contract/src/runs.ts:985-990 | the other reading order lets a stale decision pass |
| StaleWrite.LostSavePasses | packages/xezar/src/runs/store.ts:1698-1703 | with a lost save and a restart a stale decision passes, for any digest |
| StaleWrite.RestartFollowsIff | packages/xezar/src/runs/store.ts:845-858 | a restart keeps revisions trustworthy if and only if the run's revision was saved, or reconciliation makes the one lost decision again |
| StaleWrite.StaysBehind | packages/xezar/src/runs/store.ts:1698-1703 | what is on disk is never ahead of memory |
| StaleWrite.TelemetryKeepsTheVersion | packages/xezar/src/runs/decision-projection.ts:16-36 | a change of anything but those facts leaves the version as it was |
| StaleWrite.RunStore.TrackDecision | packages/xezar/src/runs/store.ts:1688-1696 | the revision moves exactly when the tracked projection does |
| StaleWrite.RunStore.GuardedRunMutation | packages/xezar/src/mcp/stale-write.ts:102-131 | stale, failed and done never overlap; a rejection leaves everything as it was and names the standing version; past the check the effect ran |
| VerdictLedger.TakingInKeepsOnePerRole | packages/xezar/src/runs/task-verdicts.ts:246-255 | recording keeps one packet per role and id, replaces exactly the reporting role's and leaves every other |
| VerdictLedger.SameIdAgain | packages/contract/src/task-verdict.ts:320-322 | the same report again changes nothing, another under its id is refused |
| VerdictLedger.JudgedMeans | packages/xezar/src/runs/task-verdicts.ts:180-247 | each refusal is given for the first check that fails; a packet of the right form, task, step and declared role is recorded exactly when no current verdict has its id |
| VerdictLedger.ReplacedIdComesBack | packages/xezar/src/runs/task-verdicts.ts:233-254 | an id no current packet carries is recorded, whatever was reported under it before |
| VerdictLedger.ReplacedIdIsFree | packages/xezar/src/runs/task-verdicts.ts:252-254 | and replacing a role's packet takes its id out of use |
| VerdictLedger.MarkingTheFirst | packages/xezar/src/runs/task-verdicts.ts:283-291 | marking the first pending verdict leaves exactly the others pending |
| VerdictLedger.Ledger.Announce | packages/xezar/src/mcp/event-catalog.ts:405-416 | the loop that re-enters itself through the store appends one row per pending verdict, in order, and leaves none pending |
| VerdictLedger.Ledger.Ingest | packages/xezar/src/runs/task-verdicts.ts:180-268 | a packet is refused, ignored as a repeat or recorded, with the row, record, file and packet each outcome leaves |
| VerdictRuns.RunKeepsInv | packages/xezar/src/mcp/event-catalog.ts:386-416 | with a crash between any two durable writes: one packet per role, and what is queued for announcement is exactly what is pending |
| VerdictRuns.SettlingLeaves | packages/xezar/src/runs/task-verdicts.ts:180-268 | a repeat only has its packet removed; everything else is announced to whoever listens, flushed and then removed, and only a recorded packet changes the record |
| VerdictRuns.DoingLeaves | packages/xezar/src/mcp/event-catalog.ts:405-416 | a row is appended if the journal takes it and the verdict marked either way; a flush writes the record as it stands |
| VerdictRuns.DyingLeaves | packages/xezar/src/runs/task-verdicts.ts:255-266 | a crash leaves the index file, the rows and the packet |
| VerdictRows.AtMostOneRowIff | packages/contract/src/task-verdict.ts:392-401 | over a whole run no verdict is or can be announced twice if and only if no crash falls between an announcement and the save of its mark on a recorded verdict, and no id whose row is out is recorded again |
| VerdictRows.AtMostOneRowFromTheStart | packages/contract/src/task-verdict.ts:392-401 | so it is from the start of a run's history, with nothing assumed |
| VerdictRuns.HonestIff | packages/xezar/src/mcp/event-catalog.ts:405-416 | a verdict is marked without a row if and only if its append failed |
| VerdictHistory.RecordedStands | packages/xezar/src/runs/task-verdicts.ts:246-255 | a report that is recorded becomes its role's current one and stands |
| VerdictHistory.LosesIff | packages/xezar/src/runs/task-verdicts.ts:56-61 | a recorded report that nothing superseded goes on standing, in its packet, on disk or in memory, if and only if the step is not a crash after its flush failed and its packet was removed, with no save since and no equal report in the last one, nor one that takes away the packet a crash left |
| VerdictHistory.CrashLosesOnlyRefused | packages/xezar/src/runs/task-verdicts.ts:265-266 | a crash loses a recorded report only if its flush failed and nothing was saved since |
| VerdictHistory.SurvivesIff | packages/xezar/src/runs/task-verdicts.ts:56-61 | over a whole run it survives if and only if no step was one of those |
| VerdictHistory.CrashCostsNothing | packages/xezar/src/runs/task-verdicts.ts:255-266 | while no flush fails, a crash at any point of any run leaves each recorded report that was not superseded and still stood before it its packet or its record |
| VerdictHistory.LostWithoutATrace | packages/xezar/src/runs/task-verdicts.ts:265-266 | a run with a failed flush after which neither packet, record nor row is left |
| VerdictHistory.LostBehindItsRow | packages/xezar/src/runs/task-verdicts.ts:265-266 | the same with a catalog attached: one row that nothing stands behind |
| VerdictHistory.NeverZero | packages/contract/src/task-verdict.ts:392-401 | while the journal takes its rows, whatever flush or removal fails, each recorded report that was neither superseded nor lost has its row once an attached catalog is done, or waits in its packet to be recorded again |
| VerdictRows.RowBeforeRecordIff | packages/xezar/src/runs/task-verdicts.ts:255-266 | recording passes through a moment with the row out and no record on disk if and only if a catalog is attached, the journal takes the row and no earlier record of the report is there |
| VerdictRuns.RowBeforeRecord | packages/xezar/src/runs/task-verdicts.ts:255-266 | a run in which the row precedes the record and the report ends up announced twice |
| Text.ByteLength | packages/contract/src/task-verdict.ts:252-259 | the counter is the length of the UTF-8 encoding of any UTF-16 string, lone surrogates as three bytes |
| Text.EncodeAllReadsBack | packages/contract/src/task-verdict.ts:245-251 | that encoding decodes back to the same code points |
| Text.LengthOfConcat | packages/contract/src/task-verdict.ts:245-259 | the length is additive, two bytes short exactly when the cut splits a surrogate pair |
| Text.QuoteCost | packages/contract/src/mcp-journal.ts:39-44 | a JSON string costs at most six bytes per code unit and two |
| JsonReading.QuoteReadsBack | packages/contract/src/mcp-journal.ts:39-44 | a JSON string reads back as the text it was made from, whatever code units it holds |
| JsonReading.ObjectReadsBack | packages/contract/src/mcp-journal.ts:39-44 | an object reads back as its members, in order |
| Findings.CheckFindingRules | packages/contract/src/task-verdict.ts:274-309 | no issue exactly when the three rules hold, and each broken rule is reported once, in order |
| Findings.AcceptedInAnyOrder | packages/contract/src/task-verdict.ts:261-309 | permuting the findings never changes the decision |
| Findings.StringifiedSize | packages/contract/src/task-verdict.ts:294-300 | the size the bound is compared with is the sum of the findings' own sizes and their separators |
| JsonRecords.FindingReadsBack | packages/contract/src/task-verdict.ts:294-300 | the text whose size counts holds a finding's fields under their names, the optional ones exactly when they are there |
| Crc.StepIsInjective | packages/web/e2e/design-debt-b8.e2e.ts:86-90 | one bit of CRC never maps two registers to one |
| Crc.FeedAtOnce | packages/web/e2e/design-debt-b8.e2e.ts:91-95 | eight bits taken one at a time are eight steps of the register with the byte mixed in at once |
| Crc.TableStep | packages/web/e2e/design-debt-b8.e2e.ts:91-95 | one look-up in the table is eight bit steps |
| Crc.BuildTable | packages/web/e2e/design-debt-b8.e2e.ts:86-90 | the table holds for each byte the register eight steps make of it |
| Crc.TableChecksum | packages/web/e2e/design-debt-b8.e2e.ts:91-95 | the table-driven loop computes the bit-at-a-time reflected CRC-32 of every byte string |
| Crc.BurstIsSeen | packages/web/e2e/design-debt-b8.e2e.ts:91-95 | two messages that differ only inside one window of at most 32 bits never share a register |
| Crc.FourByteWindowIsSeen | packages/web/e2e/design-debt-b8.e2e.ts:91-103 | at most four wrong consecutive bytes always change the checksum |
| Png.BigEndianReadsBack | packages/web/e2e/design-debt-b8.e2e.ts:97-101 | four big-endian bytes give the number back |
| Png.FramedReadsBack | packages/web/e2e/design-debt-b8.e2e.ts:96-103 | any list of chunks reads back from its bytes with matching checksums |
| Png.ParsedIsFramed | packages/web/e2e/design-debt-b8.e2e.ts:96-103 | and only such bytes read as chunks |
| Png.FillImage | packages/web/e2e/design-debt-b8.e2e.ts:75-85 | for every size each byte is written once, in order: a zero filter byte and the triples of each line |
| Png.ImageAt | packages/web/e2e/design-debt-b8.e2e.ts:75-85 | which byte stands at which place of the picture |
| Png.WriteFile | packages/web/e2e/design-debt-b8.e2e.ts:104-114 | the file reads back as exactly IHDR, IDAT and IEND with their data |
| Png.HeaderSays | packages/web/e2e/design-debt-b8.e2e.ts:104-114 | the header reads back as the width and height, eight bits a channel, true colour |
| Png.NamesSpell | packages/web/e2e/design-debt-b8.e2e.ts:104-114 | the signature and the chunk names, in characters |
| AirView.GetAfterPut | designs/design-system-air/theme.js:99-112 | setting a key changes what that key reads and nothing else |
| AirView.LoadedIsValid | designs/design-system-air/theme.js:67-79 | a page loads exactly the axes it has, each with a value it allows, whatever address and storage say |
| AirStores.LoadOrder | designs/design-system-air/theme.js:67-73 | an allowed value in the address comes first, then, for a persisted axis of a top-level page, an allowed one in storage, then the default |
| AirStores.NextPageShowsTheChoice | designs/design-system-air/theme.js:67-122 | after any run in which a persisted axis was chosen and storage took its choices, every page that has it shows the same value unless its address names another |
| AirStores.FirstVisit | designs/design-system-air/theme.js:36-49 | what each page shows when nothing was ever chosen |
| AirStores.LaterVisit | designs/design-system-air/theme.js:36-49 | what is shown when all five persisted axes were |
| AirStores.PagesOffer | designs/design-system-air/theme.js:17-49 | the values each page offers |
| AirView.AddressTellsIff | designs/design-system-air/theme.js:99-113 | after one successful address write, loading the address gives the state under any storage if and only if it already told every other page key |
| AirView.AddressTellsTheState | designs/design-system-air/theme.js:67-122 | after any run with an accepted call whose address writes succeed, the address alone gives the current state, under any storage |
| AirView.ReachableIsValid | designs/design-system-air/theme.js:60-63 | every reachable value is one the page allows |
| AirView.FramesWriteNothing | designs/design-system-air/theme.js:114-122 | a frame never writes storage or its address |
| AirView.FramesReadTheirAddress | designs/design-system-air/theme.js:67-73 | what a frame loads does not depend on storage |
| AirLinks.CarryMeans | designs/design-system-air/theme.js:124-132 | authored keys stay pinned; only persisted axes off their default are added, and page keys never travel |
| AirLinks.LinksAreHistoryIndependent | designs/design-system-air/theme.js:150-176 | after any passes over any states an ordinary link is its authored address carried under the last state |
| AirLinks.CompareLinkIs | designs/design-system-air/theme.js:133-176 | a link to the compare page is built for the page it names, with this page's own keys when it is this page; one that names no page stays |
| AirLinks.CompareTakes | designs/design-system-air/theme.js:133-142 | such a link names its page, and takes section, state, table and cta along only to compare the very page it is on |
| AirLinks.FramesWhatIsNamed | designs/design-system-air/theme.js:187-190 | the compare page frames the page its address names, and the tasks page when it names none |
| AirLinks.SyncForgetsHistory | designs/design-system-air/theme.js:150-176 | a pass leaves what it would have left without the passes before it |
| AirLinks.SyncTwiceIsOnce | designs/design-system-air/theme.js:150-176 | a second pass changes nothing |
| AirLinks.CompareIsFaithful | designs/design-system-air/theme.js:133-142 | from any screen page in any state, both frames of "Compare at 1280" resolve section, state, table and cta to that page's values, one view each, and the other axes as the compare page holds them |
| AirLinks.CompareHoldsTheAxisIff | designs/design-system-air/theme.js:124-142 | the compare page holds an axis as its source does unless the source has it at its default and storage says otherwise |
| AirPage.Air.Load | designs/design-system-air/theme.js:75-79 | the loading loop gives every axis its resolved value, and flags storage exactly when it had to be read and could not be |
| AirPage.Air.Remember | designs/design-system-air/theme.js:98-113 | storage and address are written each on its own, and a refused write is flagged |
| AirPage.Air.Set | designs/design-system-air/theme.js:114-122 | an accepted call is the step the lemmas are about and rebuilds every link; a refused one changes nothing |
| StallMonitor.Monitor.Tick | packages/xezar/src/mcp/stall-monitor.ts:314-345 | one evaluation is the function the lemmas are about |
| StallMonitor.FloorIsTheLatest | packages/xezar/src/mcp/stall-monitor.ts:352-380 | quiet is measured from the latest of the recorded activity or start, the watch and the last park |
| StallRuns.RunKeepsInv | packages/xezar/src/mcp/stall-monitor.ts:352-380 | quiet is never measured from before the last work, the start, the park or the watch, and a running step is always watched by an armed clock |
| StallRuns.SilenceOnTime | packages/contract/src/run-progress.ts:22-29 | a silent step is reported no earlier than 300 000 ms after its last activity and no later than one evaluation after that |
| StallRuns.SilenceIsSeen | packages/xezar/src/mcp/stall-monitor.ts:397-403 | after every evaluation a running step is silent and reported, or not quiet for long enough |
| StallRuns.ClockIsKept | packages/xezar/src/mcp/stall-monitor.ts:352-380 | a start of another run and a return keep the clock on, and only work is noted as activity |
| StallDeadlines.OncePerExecution | packages/contract/src/run-progress.ts:22-29 | an execution that is never parked over an evaluation nor watched anew is warned about exactly once if an evaluation finds four fifths of a finite timeout spent, and never otherwise |
| StallDeadlines.OncePerWatch | packages/xezar/src/mcp/stall-monitor.ts:411-424 | the same from any reachable state, whatever was published before |
| StallDeadlines.TwiceIff | packages/xezar/src/mcp/stall-monitor.ts:352-380 | one interruption makes it two warnings exactly when the deadline is near before it and after |
| StallDeadlines.OncePerStretch | packages/xezar/src/mcp/stall-monitor.ts:352-380 | with any number of interruptions the warnings are as many as the stretches between them in which an evaluation finds the deadline near |
| StallDeadlines.RunsAreStretches | packages/xezar/src/mcp/stall-monitor.ts:352-380 | every run in which nothing else starts falls into such stretches |
| StallDeadlines.WarningsAreTrue | packages/xezar/src/mcp/stall-monitor.ts:411-424 | over every run each warning is about an execution that started, dates it from its start and comes when four fifths of its own timeout are spent |
| StallRuns.DeadlineWarnsAgain | packages/xezar/src/mcp/stall-monitor.ts:352-380 | an execution parked over one evaluation is warned about twice |
| StallRuns.ResumesArePaired | packages/xezar/src/mcp/stall-monitor.ts:383-395 | over every history each resume follows an unanswered silence stall of the same execution |
| StallRuns.HonestRecordIff | packages/xezar/src/mcp/stall-monitor.ts:426-444 | the stall on record is one the monitor stands behind, until it is attached anew over one |
| StallRuns.StallLingers | packages/xezar/src/mcp/stall-monitor.ts:426-444 | after such an attach the record reads as stalled through renewed work and past the end of the step |
| StallRuns.SilenceWriteChangesIff | packages/contract/src/run-progress.ts:56-60 | a silence transition writes an unchanged record exactly when the deadline warning holds the field and nothing was heard since |
| StallRuns.OtherWritesChange | packages/contract/src/run-progress.ts:56-60 | a resume and a deadline warning always change the record |
| LaunchArgs.MergingMeans | packages/web/e2e/agent-browser-cli.ts:53-56 | merging is duplicate-free, keeps first-seen order and holds every environment, caller and base flag and no other |
| LaunchArgs.TrimMeans | packages/web/e2e/agent-browser-cli.ts:53-56 | trimming takes the white space off both ends and nothing else |
| LaunchArgs.SpacesAre | packages/web/e2e/agent-browser-cli.ts:53-56 | what counts as white space |
| LaunchArgs.JoinedReadsBack | packages/web/e2e/agent-browser-cli.ts:53-56 | a merged string reads back as its flags |
| LaunchArgs.SessionKeepsItsFlags | packages/web/e2e/agent-browser-cli.ts:41-46 | once a call with `--session` brings flags after `--args`, every later call of that session without its own gets those flags merged with the environment of then, whatever other sessions and the environment do |
| LaunchArgs.OthersStay | packages/web/e2e/agent-browser-cli.ts:59-72 | every other argument stays in its place |
| LaunchArgs.TwiceIsOnceIff | packages/web/e2e/agent-browser-cli.ts:59-72 | after any calls under one environment, applying it twice is once exactly when the first `--args` is not the last argument |
| LaunchArgs.Cli.WithLaunchArgs | packages/web/e2e/agent-browser-cli.ts:59-72 | the method overwrites or appends, and remembers, as the lemmas say |
| Quota.RefineKnownNotReported | packages/contract/src/agent-quota.ts:140-152 | an issue for exactly the facts that are not null exactly when listed |
| Quota.ListedMeans | packages/contract/src/agent-quota.ts:140-152 | field by field: each of the five is null exactly when its name is listed |
| Quota.RefineOkWindows | packages/contract/src/agent-quota.ts:220-233 | an issue for exactly the Claude accounts that are ok with a spent window |
| Quota.SpentMeans | packages/contract/src/agent-quota.ts:220-233 | those are the accounts of `claude` with the status `ok` of which any window has 100 percent used |
| Quota.WordByWord | packages/contract/src/agent-quota.ts:24-48 | which words a producer may write for login kind, source and reason, and that a reader takes any |
| Quota.WhoAndWhat | packages/contract/src/agent-quota.ts:155-180 | which runner, account id and status, and with which reset time |
| Quota.SeenWhen | packages/contract/src/agent-quota.ts:86-100 | which times and ages |
| Quota.TextByText | packages/contract/src/agent-quota.ts:94-106 | which texts may be missing but not empty |
| Quota.NameByName | packages/contract/src/agent-quota.ts:95-122 | which lists of missing facts, and that an unknown key is a reader's business only |
| Quota.LeastAccount | packages/contract/src/agent-quota.ts:109-127 | the account nothing is known of may be written |
| Quota.AnswerByPart | packages/contract/src/agent-quota.ts:235-243 | which envelope |
| Quota.WindowByWindow | packages/contract/src/agent-quota.ts:53-67 | which windows |
| Quota.NothingIsLost | packages/contract/src/agent-quota.ts:235-255 | a reader accepts what a producer writes and keeps all of it |
| Quota.PlainMeans | packages/contract/src/agent-quota.ts:5-16 | what a reader keeps of an account has no unknown key left at any level and is the account otherwise |
| Quota.AdditionsAreTolerated | packages/contract/src/agent-quota.ts:5-16 | more keys at every level of an answer and more distinct names never make a reader refuse it, and it keeps of it what it would have kept without them, the further names excepted |

## Left out

- Journal.EventJournal.Append: the redaction of summaries and step ids before the row is built, the listeners it calls, and a write that fails and cannot be truncated are not modelled.
- JournalRuns.RunKeepsInv: takes random epochs to be new, the lines of a journal that was acknowledged to stay on disk, and a start anew to be able to empty the rows file; rows replaced by another program's readable rows are out.
- LeaderRecord.LeaderCursors.Open: a file without `ackedByLeader` counts as acknowledged, as the code reads it, and is not a case of its own.
- LeaderRuns.RunKeepsInv: the snapshot of current task states beside each answer, the standing of a row against it, the retries inside one delivery, and the ownership checks around the controller; a dispatch and its settlement are one step, because what happens in between neither reads nor changes what the settlement does.
- ReceiptPromises.AtMostOnce: an effect takes place before its process ends; a predicted run id stands for its hash, which no two operations share; `expectedVersion`, `ownerGeneration`, `settledAt` and unknown keys of a line are not carried, and a reason that may not go on the wire is not replaced by a fixed one.
- ReceiptPromises.SettledIsFinal: starts from an outcome whose line reached the disk, and excludes restarts that find the journal deleted or unreadable, because after those the code itself forgets.
- ReceiptPromises.CallStartsIff: the store's calls are steps on values rather than methods of a class, because one call spans several stretches with other calls in between.
- Receipts.LoadLines: the snapshot's byte offset is an offset in lines, and a header without its newline is not used.
- StaleWrite.NoStaleWrite: takes the id not to be given out again and, at a restart, the decision saved; the digest is any function to texts without a colon.
- StaleWrite.RunStore.GuardedRunMutation: the runtime check for a promise, and the route form in which an absent version means nobody asked.
- VerdictLedger.Ledger.Ingest: the packet file's size and kind checks, its schema's fields and the stored notes about refusals are one "matches the schema" bit and a store write.
- VerdictRows.AtMostOneRowIff: one run's verdicts; removals of runs are not modelled.
- Findings.CheckFindingRules: the findings' members stand in schema order, as the parser emits them.
- Text.QuoteCost: an upper bound; the exact text is `Text.Quote`.
- Png.WriteFile: the compressor's output is any byte string; the picture's size is any number of pixels.
- AirLinks.LinksAreHistoryIndependent: parsing and percent-encoding of addresses are taken as the library states them; captions, titles, fieldsets and DOM events are left out.
- StallMonitor.Monitor.Tick: one execution is on record, so a stall left on the previous step's record when the next step starts between two ticks is dropped with it instead of being cleared by the next tick; one run at a time, with other runs as a flag; the clock is an input that does not run backwards, and the deadline ratio is the exact fraction 4/5 rather than a rounded one.
- LaunchArgs.Cli.WithLaunchArgs: starting the browser and reading its output.
- JournalContents.CatalogRowsOnly: that every append comes from the event catalog is assumed; the emitters are not modelled.
- Quota.AdditionsAreTolerated: a timestamp is two facts about its text, and an unknown key is its name.
- The derivation of catalog rows from status changes, the label and evidence rules of a verdict, and the schemas of the other contracts: mostly single-branch facts about one value.
- Access ownership, audit rotation and leases: this project has no model of them.
- The stall monitor's and the catalog's subscriptions, timers and error guards: I/O.
