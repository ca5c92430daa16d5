# Verification of the stateful cores

A Dafny model of the parts of this repository in which state, failure and order matter, and
proofs of what they promise. Nothing here runs the programs themselves.

| file | what it models |
|---|---|
| `AgentFiles.dfy`, `AgentLifecycle.dfy` | installing, updating and removing a managed agent: a two-file commit by stage, backup and rename, with a rollback that can itself fail |
| `SseFraming.dfy`, `SessionStreams.dfy` | the ACP HTTP transport: the event-stream splitter and the registry of per-session streams |
| `ArchiveQueue.dfy`, `HydrationPool.dfy`, `NavHistory.dfy` | three state machines of the app shell: the archive queue with its voice-start lease, the pinned-chat worker pool, the navigation history |
| `AppsCreate.dfy`, `AppsRuns.dfy`, `Redaction.dfy` | `apps create` against a server whose answers may be lost, over one run and over many; redaction of a secret in a JSON tree |
| `Json.dfy`, `Ranks.dfy`, `SchemaShape.dfy` | classification of JSON schemas through `$ref`, `anyOf` and `items` |
| `ArgScanners.dfy` | the three argument scanners that must agree on the `appkit` command |
| `Catalog.dfy` | the extensions catalog's printer and parser |
| `AudioFramer.dfy` | the voice worklet's 960-sample blocks |

How it is built:

- Code that updates state in place is a class (or a method with loops) proved equal to a step
  function or specification on values; the laws are then proved of that function, over every
  input, run or interleaving. An asynchronous function is cut at its awaits: each stretch
  between two awaits is one step, and the environment picks the next one.
- The environment is nondeterministic: any file-system call may fail (an oracle indexed by the
  call's number, with torn writes and unreadable metadata), any request or answer may be lost,
  any await may settle in any order or reject.
- SHA-256, the record's JSON form, the marketplace, lower-casing and the value checks of two
  command-line options are function parameters. Server answers are parameters of one run, and
  come from a small server model over many runs.

Main results:

- **No loss under any faults, and success exactly without them.** `AgentFiles.ReplacePair` shows that
  after every single file-system call of a replacement, whatever has failed, the complete new
  pair is in place or both old files survive byte for byte, and that the pair is replaced exactly
  when no call fails; when the commit's call k is the first to fail, k more undo the k before it, and
  if none of those fails and neither does the clearing of the stages, the files are exactly the old ones; `AgentLifecycle.ApplyInstallOrUpdate` and `AgentLifecycle.Remove` say exactly
  what each operation comes to; `AgentLifecycle.ProtectedPairIsNeverTouched` and
  `AgentLifecycle.NothingIsLostUntilAnOperationCompletes` carry the safety over whole runs. A process
  killed after some call leaves what the same operation leaves when every later call fails, so
  killed operations are among the runs.
- **Chunk independence.** `SseFraming.ConsumeSse` and `SseFraming.DrainIsTheLeftmostSplit`: the events
  depend on the text alone; `SseFraming.FramedPayloadsComeBack` is the round trip.
- **Archive queue.** Bodies run one at a time in call order, nothing gets stuck, every granted
  lease is released exactly once (late ones too), and no voice is active on the target from the
  dispatch of its mutation until the lease is given back. Each call is exactly where the answers it
  has received put it (`ArchiveQueue.EveryCallIsWhereTold`), so a mutation is only ever dispatched on
  the grounds the policy demands (`ArchiveQueue.DispatchIsJustified`).
- **The outcome of every `apps create`**, for every sequence of answers: `AppsCreate.OutcomeOfEveryRun`.
- **Retrying `apps create`.** Client and server take turns: the server serves whatever request comes,
  the client's next one depends on the answers it got. At most one reservation over any number
  of runs; anybody may look at an app, so it is the client's own test that makes it adopt only
  the caller's idle one; and the first clear run after any number of broken ones completes
  exactly when no initialize took effect before.
- **Schema classification** equals classification of the inlined schema, on exactly those
  schemas whose edges have no loop; and where each reference leads (`SchemaShape.ReferenceLeads`,
  `SchemaShape.ReferenceLeadsNowhere`).
- **Catalog.** The exact set of scalars that survive print and parse, and the file round trip.
- **History** is a zipper, and its limit only ever forgets the oldest entries.

Properties one might expect that are false of the code, each with a witness and the exact
condition under which the code does meet it:

- *An answer to reserve that never arrived as complete JSON is never reported as a definite
  rejection.* False for an error status whose body was read in full but is not JSON (a gateway's
  page): `AppsCreate.GatewayPageIsReportedAsRejection`. Exactly that case, with no matching app on
  inspection: `AppsCreate.IncompleteAnswerIsRejectedOnlyBehindAnErrorStatus`.
- *A new document never stands beside the old record.* `AgentFiles.MixedPairWitness` has one. It
  happens exactly when there was a record, every call up to the document's installation works,
  the record's installation and the removal of the new document fail, and the old record's
  return works: last clause of `AgentFiles.ReplacePair`. No data is lost even then.
- *At most one GET stream per session, always.* A shutdown while a session's fetch is pending
  lets a later open and the stale failure produce two: `SessionStreams.StaleFetchOpensTwice`; safe exactly
  when no fetch is pending: `SessionStreams.AbortIsSafeIffNoFetchIsPending`.
- *The guard set ends empty.* A load that rejects leaves its session in the guard for good
  (`HydrationPool.RejectedLoadStaysInGuard`); empty exactly when none rejects:
  `HydrationPool.EverySessionIsLoaded`.
- *An array's item classifies to the array's scalar.* `SchemaShape.MixedNodeMisleads` has one that
  does not. It does exactly when the node whose `items` it is has no `anyOf` or its `items` agree:
  `SchemaShape.ArrayHasItem`.
- *An enum's shape does not depend on the order of its values.* `SchemaShape.EnumOrderWitness`: 1 before
  2.5 is not recognised, 2.5 before 1 is. Independent of the order exactly when the values are
  not numbers of both kinds: `SchemaShape.EnumOrderMattersIff`.
- *Event streams may use any of the standard's line ends* (section 9.2.5 of the WHATWG HTML Living
  Standard). `SseFraming.CrlfFramingIsOneEvent` has CRLF framing that is never split. The code hands
  over the events of the standard's line ends exactly when the text has no carriage return:
  `SseFraming.LineEndsAreReadRightIff`.
- *A catalog text survives printing and parsing.* `Catalog.HashIsLost` has one that does not. Exactly
  those do that are free of `#` and either trimmed or written in quotes with an escape:
  `Catalog.ScalarComesBackIff`.

## Model

| member | source | states |
|---|---|---|
| AgentFiles.FileSystem.Rename | bb-cli/src/bb/agents_install.rs:477-503 | a rename moves the node or, failing, leaves every path as it was |
| AgentFiles.FileSystem.RemoveFile | bb-cli/src/bb/agents_install.rs:660-684 | a removal deletes one path, finds nothing, or fails without effect |
| AgentFiles.FileSystem.WriteNewFile | bb-cli/src/bb/agents_install.rs:693-703 | writes exactly when the path is free and neither opening nor writing fails; never overwrites; a failed write may leave a torn file at its own path only |
| AgentFiles.RestorePair | bb-cli/src/bb/agents_install.rs:613-649 | the state after each rollback step for every combination of its three failures, each of which is that of its own call |
| AgentFiles.RollbackKeeps | bb-cli/src/bb/agents_install.rs:613-649 | every step of a rollback, whatever fails, keeps both old files at their canonical or backup paths |
| AgentFiles.RollbackBringsBack | bb-cli/src/bb/agents_install.rs:613-649 | a rollback without failures restores both canonical paths in existence and bytes |
| AgentFiles.RollbackUndoes | bb-cli/src/bb/agents_install.rs:613-649 | going by the calls alone: every step that does not fail brings its file back, every other leaves it at its backup path |
| AgentFiles.Recover | bb-cli/src/bb/agents_install.rs:613-649 | the same of the rollback as it runs, step by step: what each call leaves, what it reports, and how many calls it makes |
| AgentFiles.RollbackMixes | bb-cli/src/bb/agents_install.rs:613-649 | the new document meets the old record exactly when its removal fails and the record's return does not |
| AgentFiles.ReplacePair | bb-cli/src/bb/agents_install.rs:469-580 | after every call and for every fault pattern nothing is lost; with `exists` truthful and no directories the pair is replaced exactly when no call fails; when the commit's call k is the first to fail the rollback's k calls undo the k before it: all is as before if none of them fails nor the clearing of the stages does, and what is reported is which call it was, whether the rollback was clean and whether the stages are gone; the one fault pattern under which old and new meet |
| AgentFiles.MixedPairWitness | bb-cli/src/bb/agents_install.rs:552-567 | a concrete fault pattern under which the new document stands beside the old record |
| AgentFiles.TakeBackups | bb-cli/src/bb/agents_install.rs:513-535 | both old files are set aside exactly when none of their renames fails; otherwise what the rollback leaves and reports, by the calls that fail |
| AgentFiles.BackUpRecord | bb-cli/src/bb/agents_install.rs:523-535 | the record follows exactly when its rename does not fail; otherwise the document is brought back or, if that call fails, left at its backup path |
| AgentFiles.InstallStages | bb-cli/src/bb/agents_install.rs:536-568 | both new files go in exactly when neither rename fails; after either failure what the rollback leaves and reports, by the calls that fail; when it lets old and new meet |
| AgentFiles.InstallRecordStage | bb-cli/src/bb/agents_install.rs:552-567 | the new record goes in exactly when its rename does not fail; otherwise the new document comes out and both old files return, each unless its own call fails |
| AgentFiles.CommitAndClean | bb-cli/src/bb/agents_install.rs:505-580 | whichever of the commit's calls is the first to fail, the files and the report after the rollback and the clearing of the stages |
| AgentFiles.ClearRollbackReverts | bb-cli/src/bb/agents_install.rs:613-649 | a rollback none of whose calls fails brings both files back, wherever the commit stopped |
| AgentFiles.DiscardBackups | bb-cli/src/bb/agents_install.rs:571-574 | the new pair stays; with the backups gone nothing else has changed |
| AgentFiles.DiscardStages | bb-cli/src/bb/agents_install.rs:575-578 | clearing the stages after a rollback loses nothing and mixes nothing, and succeeds exactly when neither removal fails |
| AgentFiles.NothingElseChanged | bb-cli/src/bb/agents_install.rs:660-684 | once the stages and backups are gone, the whole file system is the old one but for the pair |
| AgentFiles.StageRemoval | bb-cli/src/bb/agents_install.rs:582-600 | both files are set aside exactly when no rename fails; both survive after every call; when the record cannot follow all is as before, unless bringing the document back fails, which is what is reported |
| AgentFiles.RemovePair | bb-cli/src/bb/agents_install.rs:582-611 | the pair is deleted exactly when no call fails; both files survive until both are set aside; the files and the report after every failure to set them aside |
| AgentLifecycle.ClassifyIsSound | bb-cli/src/bb/agents_install.rs:93-151 | what each classification guarantees about the files, even where metadata or contents cannot be read |
| AgentLifecycle.ClassifyIsExact | bb-cli/src/bb/agents_install.rs:93-151 | with readable files, each answer is given exactly for the files it describes: exact by hash, orphaned record, nothing, or anything else a conflict |
| AgentLifecycle.ConflictReasons | bb-cli/src/bb/agents_install.rs:93-151 | why a pair is protected: a record of another schema, kind or slug, one that cannot be used, or a document that differs or is no file |
| AgentLifecycle.UnreadableIsNotOwned | bb-cli/src/bb/agents_install.rs:93-151 | a file that cannot be looked at or read is never taken for absent or owned |
| AgentLifecycle.SlugCharacters | bb-cli/src/bb/agents_install.rs:30-43 | exactly which slugs are allowed |
| AgentLifecycle.ApplyInstallOrUpdate | bb-cli/src/bb/agents_install.rs:205-255 | the verdict for every file state and every answer; a pair to be written is written exactly when no file-system call fails; only an absent or owned pair changes; nothing is lost at any step; success classifies as exact with the returned metadata; the unreachable branch is |
| AgentLifecycle.Remove | bb-cli/src/bb/agents_install.rs:263-282 | an owned pair is removed exactly when no call fails, any other is left alone with the fitting verdict; both files survive until set aside; success classifies as absent |
| AgentLifecycle.NewPairIsExact | bb-cli/src/bb/agents_install.rs:119-151 | a pair whose metadata carries the document's hash is one the classification calls exact |
| AgentLifecycle.IntendedPairFits | bb-cli/src/bb/agents_install.rs:438-467 | freshly made metadata is for this slug and carries the document's hash |
| AgentLifecycle.WrittenRecord | bb-cli/src/bb/agents_install.rs:438-467 | every field of a written record; and, at the next operation, what the marketplace is told about it (lines 153-166) |
| AgentLifecycle.WritesExactlyWhen | bb-cli/src/bb/agents_install.rs:205-255 | when an operation comes to writing a pair at all |
| AgentLifecycle.StopsBecause | bb-cli/src/bb/agents_install.rs:205-255 | what comes of an operation that writes nothing, case by case |
| AgentLifecycle.IntentIsRight | bb-cli/src/bb/agents_install.rs:205-255 | a pair is only intended over none or an owned one, and called an update exactly over an exact one |
| AgentLifecycle.ResolveAndDownload | bb-cli/src/bb/agents_install.rs:323-336 | an installed version that is current is not downloaded again, and the unreachable branch is |
| AgentLifecycle.ProtectedPairIsNeverTouched | bb-cli/src/bb/agents_install.rs:93-151 | over any run of installs, updates and removes with any faults, a pair whose record does not prove ownership stays as the user left it |
| AgentLifecycle.StepKeepsSurvivor | bb-cli/src/bb/agents_install.rs:205-282 | one operation either completes or keeps every surviving file, older backups included |
| AgentLifecycle.NothingIsLostUntilAnOperationCompletes | bb-cli/src/bb/agents_install.rs:205-282 | over any run, what stood at a canonical path is on disk until an operation on that slug completes |
| SseFraming.IndexOfBreakIsLeast | sdk/src/http-stream.ts:206-212 | the search finds the leftmost blank line, and -1 exactly when there is none |
| SseFraming.DrainIsTheLeftmostSplit | sdk/src/http-stream.ts:206-212 | the inner loop's result is the one and only split of the text at leftmost blank lines |
| SseFraming.DrainAppend | sdk/src/http-stream.ts:201-212 | draining early and appending later gives the same events and remainder as draining the whole |
| SseFraming.ConsumeSse | sdk/src/http-stream.ts:195-219 | for every cutting into chunks and every end of the body, the same events in the same order |
| SseFraming.WholeEventsAreHandedOver | sdk/src/http-stream.ts:195-219 | the events before each blank line are handed over however the body ends, an unterminated last one only if it ends normally |
| SseFraming.EventData | sdk/src/http-stream.ts:221-229 | the data lines of an event, joined, as the payload function has it |
| SseFraming.DataLineContributes | sdk/src/http-stream.ts:223-227 | a line `data:` contributes the rest of it, less one blank |
| SseFraming.OtherLinesContributeNothing | sdk/src/http-stream.ts:223-228 | any other line, a comment or another field, contributes nothing |
| SseFraming.PayloadOfLines | sdk/src/http-stream.ts:221-229 | the payload of an event is that of its lines, one by one |
| SseFraming.JoinUndoesSplit | sdk/src/http-stream.ts:222-229 | joining the lines of a text gives the text |
| SseFraming.SplitUndoesJoin | sdk/src/http-stream.ts:222-229 | splitting joined lines gives the lines |
| SseFraming.EncodedEventIsWhole | sdk/src/http-stream.ts:206-212 | a payload framed as data lines, blank lines included, contains no event break |
| SseFraming.EncodedPayloadComesBack | sdk/src/http-stream.ts:221-229 | any payload framed as data lines is recovered exactly |
| SseFraming.FramedPayloadsComeBack | sdk/src/http-stream.ts:195-229 | any list of framed payloads, cut anywhere, is recovered exactly and in order; an unterminated last one only if the body ends normally |
| SseFraming.CrlfFramingIsOneEvent | sdk/src/http-stream.ts:206-212 | blank lines made of CRLF do not separate events |
| SseFraming.HandsOverEveryCharacter | sdk/src/http-stream.ts:195-219 | what is handed over has exactly the characters of the text, line feeds aside |
| SseFraming.LineEndsAreReadRightIff | sdk/src/http-stream.ts:206-212 | the standard's line ends are honoured exactly when there is no carriage return |
| SessionStreams.SettledStep | sdk/src/http-stream.ts:143-193 | every step keeps the table equal to the set of active streams, one per session |
| SessionStreams.OpeningOpens | sdk/src/http-stream.ts:143-160 | opening starts exactly one stream when connected and none is registered, and does nothing otherwise |
| SessionStreams.StreamsLiveAndEnd | sdk/src/http-stream.ts:152-193 | the life of a stream, from its fetch to its body's end, and when its session is free again |
| SessionStreams.OneStreamPerSession | sdk/src/http-stream.ts:143-193 | for every interleaving without an abort during a pending fetch, at most one stream per session is opening or live |
| SessionStreams.StaleFetchOpensTwice | sdk/src/http-stream.ts:162-174 | an abort during a pending fetch can lead to two live streams of one session |
| SessionStreams.AbortIsSafeIffNoFetchIsPending | sdk/src/http-stream.ts:349-357 | aborting keeps one stream per session in every continuation exactly when no fetch is pending |
| SessionStreams.HttpStream.EnsureSessionGetStream | sdk/src/http-stream.ts:143-150 | opens at most one stream per session; both tables always name the same sessions |
| SessionStreams.HttpStream.FetchFailed | sdk/src/http-stream.ts:162-174 | gives the session up in both tables |
| SessionStreams.HttpStream.BodyEnded | sdk/src/http-stream.ts:186-192 | gives the session up only if its entry is still this stream's |
| SessionStreams.HttpStream.AbortAllStreams | sdk/src/http-stream.ts:349-357 | every registered stream is told to stop and both tables end empty |
| SessionStreams.HttpStream.Deliver | sdk/src/http-stream.ts:101-108 | appends exactly the message and wakes a sleeping reader |
| SessionStreams.HttpStream.HandleInbound | sdk/src/http-stream.ts:241-254 | a response naming a session opens that session's stream first; every message is delivered |
| SessionStreams.HttpStream.StartPull | sdk/src/http-stream.ts:110-115 | a pull sleeps exactly when the inbox is empty |
| SessionStreams.HttpStream.FinishPull | sdk/src/http-stream.ts:360-371 | the reader has then received all delivered messages, in order |
| SessionStreams.HttpStream.FinishShutdown | sdk/src/http-stream.ts:401-420 | shutdown stops all streams, loses no delivered message and wakes a sleeping reader |
| ArchiveQueue.OneBodyAtATime | src/app/AppShell.tsx:3939-3944 | for any overlapping calls at most one body runs, in call order |
| ArchiveQueue.MutationIsProtected | src/app/AppShell.tsx:4039-4111 | no lease is released twice; from dispatch to the end of clean-up the lease is held and the target owns no voice; a call that reports anything but success or a failed mutation has dispatched none |
| ArchiveQueue.EveryCallIsWhereTold | src/app/AppShell.tsx:3946-4195 | over every run, each call is exactly where what its awaits have found so far puts it, outcome included |
| ArchiveQueue.DispatchIsJustified | src/app/AppShell.tsx:3946-4111 | over every run, a mutation is dispatched only for a session that was found, with inspection clean or confirmed as the policy demands, revalidated where asked, in time, not interrupted, and with no voice of the target |
| ArchiveQueue.InterruptionTold | src/app/AppShell.tsx:367-388 | when a call is interrupted: out of time by three seconds of margin, or busy unless the user confirmed |
| ArchiveQueue.OutOfTimeAtOnce | src/app/AppShell.tsx:390-401 | when the lease is asked for too late to wait for it |
| ArchiveQueue.NothingIsStuck | src/app/AppShell.tsx:4193-4198 | when nothing can settle any more every call is done and every granted lease, late ones included, was released exactly once |
| ArchiveQueue.WorkBoundsRuns | src/app/AppShell.tsx:3939-4198 | from any reachable point only a bounded number of answers can still settle |
| ArchiveQueue.InLineStep | src/app/AppShell.tsx:3939-3944 | every step keeps the promise chain: each call waits for its predecessor, and exactly the finished ones have resolved |
| ArchiveQueue.StepCallTracks | src/app/AppShell.tsx:390-415 | every step of a call keeps lease, race, late callback and release count consistent, and lowers the call's rank |
| ArchiveQueue.AppShell.ArchiveChat | src/app/AppShell.tsx:3939-3944 | a call takes the end of the queue and waits for what was there |
| ArchiveQueue.AppShell.AcquireVoiceStartBlockBeforeDeadline | src/app/AppShell.tsx:390-401 | asks for the lease; out of time already, gives up and arms the late release |
| ArchiveQueue.AppShell.ContinueBeforeLease | src/app/AppShell.tsx:3946-4040 | the stretches between the awaits before the lease, branch by branch, each of which EveryCallIsWhereTold and DispatchIsJustified cover |
| ArchiveQueue.AppShell.ContinueAfterRace | src/app/AppShell.tsx:403-415 | a lost race arms the late release and times out; a won one goes on or gives the lease back |
| ArchiveQueue.AppShell.ContinueWithLease | src/app/AppShell.tsx:4044-4195 | the stretches under the lease, branch by branch, each exit giving it back |
| ArchiveQueue.AppShell.Return | src/app/AppShell.tsx:4196-4198 | every exit resolves the call's promise |
| ArchiveQueue.AppShell.LeaseSettles | src/app/AppShell.tsx:403-408 | a grant or a refusal decides a race that is still open, and only that |
| ArchiveQueue.AppShell.ReleaseLateLease | src/app/AppShell.tsx:409-413 | a late grant is released by the armed callback |
| HydrationPool.QueueTakesEachOnce | src/app/AppShell.tsx:1283-1307 | a call takes on each eligible session exactly once |
| HydrationPool.TakeCloses | src/app/AppShell.tsx:1322-1334 | a worker turning to the next session closes exactly the one it loaded |
| HydrationPool.NoSessionIsLoadedTwiceAtOnce | src/app/AppShell.tsx:1281-1346 | for every interleaving of workers and overlapping calls no session is in flight twice, at most five per call, each started at most once per call |
| HydrationPool.ReadySessionsAreNeverStarted | src/app/AppShell.tsx:1283-1318 | in no run does a call start a session that was being created, had messages or was in the guard when it was made; its queue is exactly the others it was given |
| HydrationPool.EveryLoadSettlesOnce | src/app/AppShell.tsx:1318-1346 | over every run the loads started less those in flight are as many as the answers that came |
| HydrationPool.ResolveGoesOn | src/app/AppShell.tsx:1322-1334 | a settled load leaves the guard, its worker starts the next session or ends, and the others go on as they were |
| HydrationPool.EverySessionIsLoaded | src/app/AppShell.tsx:1281-1346 | at rest every call without a rejecting load has loaded each of its sessions exactly once, and the guard is empty exactly when no load rejected |
| HydrationPool.RejectedLoadStaysInGuard | src/app/AppShell.tsx:1322-1334 | a run at rest with a session left in the guard |
| HydrationPool.RunsStayGuarded | src/app/AppShell.tsx:1287-1318 | the guard always names exactly the open sessions, and no two calls share one |
| HydrationPool.Hydrator.HydratePinnedChatSessions | src/app/AppShell.tsx:1283-1345 | the new guard and the new pool of a call, for every list and guard |
| HydrationPool.Hydrator.StartWorkers | src/app/AppShell.tsx:1336-1345 | each worker takes one session before any await |
| HydrationPool.Hydrator.LoadResolved | src/app/AppShell.tsx:1326-1333 | a settled load leaves the guard and its worker goes on |
| HydrationPool.Hydrator.LoadRejected | src/app/AppShell.tsx:1322-1334 | a rejected load ends its worker and leaves the guard as it is |
| NavHistory.NavigationHistory.OnTargetLocation | src/app/AppShell.tsx:1525-1562 | the recording effect is the zipper's visit, show or no-op; the index stays valid |
| NavHistory.NavigationHistory.ReplaceNavigationSessionId | src/app/AppShell.tsx:1512-1523 | renames every entry of the session and keeps the position |
| NavHistory.NavigationHistory.ReturnToVoiceSettingsTarget | src/app/AppShell.tsx:3707-3748 | goes back to the chat or inserts it in front, as the zipper's return |
| NavHistory.NavigationHistory.GoBack | src/app/AppShell.tsx:4702-4734 | one step of the zipper, through any of the three ways back |
| NavHistory.NavigationHistory.GoForward | src/app/AppShell.tsx:4745-4755 | one step forward: the entries stay, the index grows by one and the location is awaited, exactly when allowed and there is something ahead |
| NavHistory.ForwardStepsOn | src/app/AppShell.tsx:4745-4755 | an allowed forward with something ahead goes one entry on, leaves the entries alone and awaits the location |
| NavHistory.BackStepsBack | src/app/AppShell.tsx:4726-4734 | an allowed back does so one entry back |
| NavHistory.BackFromSettings | src/app/AppShell.tsx:4702-4725 | which way back from settings is taken, and when |
| NavHistory.ReturnFindsOrInserts | src/app/AppShell.tsx:3707-3748 | the chat is found right behind or inserted in front of the settings; nothing if it is gone |
| NavHistory.RenameChangesThoseChats | src/app/AppShell.tsx:1512-1523 | exactly the entries of the session change, in place |
| NavHistory.ForwardEventUndoesBack | src/app/AppShell.tsx:4702-4755 | going forward after going back restores entries, index and location |
| NavHistory.BackEventUndoesForward | src/app/AppShell.tsx:4702-4755 | and the other way round |
| NavHistory.RecordingShowsReplacesOrVisits | src/app/AppShell.tsx:1525-1562 | what recording a location does to entries, index and flags, case by case, the limit of fifty included |
| NavHistory.ForwardUndoesBack | src/app/AppShell.tsx:4702-4756 | forward after back restores the history |
| NavHistory.BackUndoesForward | src/app/AppShell.tsx:4702-4756 | back after forward restores the history |
| NavHistory.BackUndoesVisit | src/app/AppShell.tsx:1551-1560 | going back from a new visit leads where one was, with the visit ahead |
| NavHistory.ForwardUndoesReturn | src/app/AppShell.tsx:3726-3739 | either way of returning shows the chat, and forward leads back to the settings |
| NavHistory.RenameCommutes | src/app/AppShell.tsx:1512-1523 | renaming commutes with moving, and the old name is nowhere left |
| NavHistory.RecordShowsTheLocation | src/app/AppShell.tsx:1525-1562 | after a recording the current entry is the location; exactly when an entry is added, and what is then dropped |
| NavHistory.LengthIsBounded | src/app/AppShell.tsx:1551-1560 | at most fifty entries, plus one for each return from voice settings |
| NavHistory.LimitOnlyForgets | src/app/AppShell.tsx:1551-1560 | under every mix of events that stays inside what is left, the limited history is the unlimited one but for its oldest entries |
| NavHistory.LastVisitsAreKept | src/app/AppShell.tsx:1544-1560 | recorded navigations alone leave the last fifty places visited |
| AppsCreate.MutationRequestFromPlan | bb-cli/src/bb/apps.rs:928-943 | the settings copied are the non-empty ones, in a fixed order |
| AppsCreate.BodyMembers | bb-cli/src/bb/apps.rs:928-943 | each member of the body by its name, `display_name` under `name` |
| AppsCreate.SettingsFitExactlyWhen | bb-cli/src/bb/apps.rs:648-684 | an inspected app fits a plan exactly when it shows each of the four settings the plan gives |
| AppsCreate.PlanIsAcceptedExactlyWhen | bb-cli/src/bb/apps.rs:530-552 | exactly which plans are accepted: a non-empty id, the requested one if one was, and both flags |
| AppsCreate.ReconcileCreateReservation | bb-cli/src/bb/apps.rs:591-646 | asks for the reservation and, on any error, inspects; the requests and the verdict for every pair of answers |
| AppsCreate.RunCreate | bb-cli/src/bb/apps.rs:519-589 | the requests sent and the outcome for every sequence of answers |
| AppsCreate.OutcomeOfEveryRun | bb-cli/src/bb/apps.rs:519-646 | for every sequence of answers the outcome, without naming the steps: initialized exactly when the plan asks for it, the reservation is certain and initialize answers for that very id with an address; and what every other answer gives |
| AppsCreate.ReceivedExactly | bb-cli/src/bb/apps.rs:1452-1490 | what counts as an answer, as a failure with a code and as one without |
| AppsCreate.ErrorCodesAreRead | bb-cli/src/bb/apps.rs:1657-1670 | the code a failure carries: the one in the body, or the general one |
| AppsCreate.RequestsAreJustified | bb-cli/src/bb/apps.rs:533-589 | no reserve without a plan naming a non-empty (and the requested) id and both flags; no initialize without a certain reservation; same id and body on both |
| AppsCreate.CreatedIsCertain | bb-cli/src/bb/apps.rs:519-646 | success is only claimed for a certain reservation, and says truly whether it was adopted and initialized |
| AppsCreate.RejectedExactlyWhen | bb-cli/src/bb/apps.rs:591-646 | when a reservation counts as definitely rejected |
| AppsCreate.IncompleteAnswerIsRejectedOnlyBehindAnErrorStatus | bb-cli/src/bb/apps.rs:694-699 | an answer that is no complete JSON is a rejection exactly behind an error status whose body was read in full |
| AppsCreate.GatewayPageIsReportedAsRejection | bb-cli/src/bb/apps.rs:1657-1670 | a concrete such answer |
| AppsRuns.MatchesExactlyPristine | bb-cli/src/bb/apps.rs:648-684 | of the apps anybody may look at, inspection accepts exactly the caller's own idle, revision-1, version-free one with the same settings |
| AppsRuns.RequestsAreCausal | bb-cli/src/bb/apps.rs:519-646 | a request depends on the answers to earlier ones only |
| AppsRuns.RunsEnd | bb-cli/src/bb/apps.rs:519-589 | a run ends after at most four requests, which are exactly those of the client given the answers it got |
| AppsRuns.RequestIsOwn | bb-cli/src/bb/apps.rs:533-589 | every request after the plan is for the planned id, and initialize only with a certain reservation |
| AppsRuns.OnlyOwnReservationsAreUsed | bb-cli/src/bb/apps.rs:591-646 | whatever is lost, initialize is asked and success claimed only for an app the caller owns, and an adopted app was the caller's own and untouched when looked at |
| AppsRuns.AtMostOneReservation | bb-cli/src/bb/apps.rs:519-646 | over any number of runs, cut off anywhere, with every request served as it is asked, at most one app is added, of the planned id, and none is replaced; none at all without an acceptable plan |
| AppsRuns.ClearRunSucceedsIff | bb-cli/src/bb/apps.rs:519-646 | a run that loses nothing succeeds exactly when the id is free or its app is the caller's to adopt, initializing exactly if the plan says so, and otherwise reports the collision |
| AppsRuns.InitializeTakesEffectOnce | bb-cli/src/bb/apps.rs:548-589 | an app is past adoption exactly from the first initialize on that is carried out |
| AppsRuns.RetryingCompletes | bb-cli/src/bb/apps.rs:519-646 | after any runs, the first that loses nothing completes the app, reserve-only plans included, exactly when no initialize took effect before |
| Redaction.RedactJsonValue | bb-cli/src/bb/apps.rs:1517-1538 | fails exactly when a key would change, and otherwise is the redacted tree |
| Redaction.RedactionIsSafeIff | bb-cli/src/bb/apps.rs:1002-1004 | a bracket-free secret never survives, in any text, exactly when it is not part of the marker word |
| Redaction.CleanTextStays | bb-cli/src/bb/apps.rs:1002-1004 | a text without the secret is unchanged |
| Redaction.RedactReplacesLeftmost | bb-cli/src/bb/apps.rs:1002-1004 | the leftmost secret becomes the marker, and what follows it is redacted in turn |
| Redaction.FailsIffAKeyLeaks | bb-cli/src/bb/apps.rs:1517-1538 | fails exactly when some key, at any depth, contains the secret |
| Redaction.SuccessIsClean | bb-cli/src/bb/apps.rs:1517-1538 | on success no string or key contains the secret; shape, keys, numbers and clean strings are unchanged |
| SchemaShape.EdgeLowersDepth | bb-cli/src/runtime.rs:354-440 | the rank by which classification terminates |
| SchemaShape.RankedIffNoLoop | bb-cli/src/runtime.rs:354-440 | a schema has that rank exactly when no path of its edges comes back to a node |
| Ranks.RankedIffNoLoop | bb-cli/src/runtime.rs:354-440 | the same of any finite graph |
| SchemaShape.ResolveSchema | bb-cli/src/runtime.rs:478-497 | the loop ends whenever the chain of references does, whatever other loops the schema has, and at its end |
| SchemaShape.SplitPathIsTheOnlySplit | bb-cli/src/runtime.rs:482-488 | the segments of a path are the one and only list of pieces without a slash that joins to it |
| SchemaShape.ReferenceLeads | bb-cli/src/runtime.rs:478-497 | `#/` and keys joined by slashes lead to the member of the member of .. the root, for every list of keys |
| SchemaShape.ReferenceLeadsNowhere | bb-cli/src/runtime.rs:478-497 | and nowhere exactly when a member is missing, something on the way is no object, or the text begins otherwise |
| SchemaShape.EnumMissesOnlyFractionsBehindAnInteger | bb-cli/src/runtime.rs:442-468 | an inferred shape fits every value; exactly which values with a common shape are not recognised |
| SchemaShape.EnumOrderMattersIff | bb-cli/src/runtime.rs:442-468 | all orders of the values infer alike exactly when they are not numbers of both kinds |
| SchemaShape.EnumOrderWitness | bb-cli/src/runtime.rs:442-468 | two orders of the same values, one recognised and one not |
| SchemaShape.EnumsSpeak | bb-cli/src/runtime.rs:442-468 | which lists of values have which shape |
| SchemaShape.TypesSpeak | bb-cli/src/runtime.rs:370-392 | the shape of each scalar type and of `null` |
| SchemaShape.CompoundTypesSpeak | bb-cli/src/runtime.rs:377-386 | an array is one exactly for scalar items, an object is JSON |
| SchemaShape.UntypedIsItsEnum | bb-cli/src/runtime.rs:384-392 | without a known type the enum decides |
| SchemaShape.MergeAnyOfScalars | bb-cli/src/runtime.rs:417-440 | merges only equal scalars |
| SchemaShape.ClassifyAnyOf | bb-cli/src/runtime.rs:394-415 | the answer depends only on the set of non-null shapes, so order, repetition and the merge make no difference |
| SchemaShape.AnyOfDecides | bb-cli/src/runtime.rs:357-359 | a node's `anyOf` decides alone: null when all variants are, a scalar or array when all but the null ones are that, otherwise JSON |
| SchemaShape.ClassifySchemaShape | bb-cli/src/runtime.rs:354-392 | terminates on every loop-free schema with the specified shape |
| SchemaShape.ClassifyMatchesInlined | bb-cli/src/runtime.rs:354-440 | equals classifying the schema with all references inlined, without looking at references |
| SchemaShape.InlinedIsRefFree | bb-cli/src/runtime.rs:478-497 | inlining leaves no reference to follow at any node classification reaches |
| SchemaShape.ItemComesFromHolder | bb-cli/src/runtime.rs:321-336 | the item schema is that of the first node with `items` down the first array variants, and fits where that node has no `anyOf` |
| SchemaShape.ArrayHasItem | bb-cli/src/runtime.rs:321-336 | an array schema always has an item schema, of the array's scalar exactly when the node it comes from has no `anyOf` or `items` that agree |
| SchemaShape.ParameterKindFollowsShape | bb-cli/src/runtime.rs:311-319 | the JSON fallback is never taken for an array |
| SchemaShape.ParameterCarries | bb-cli/src/runtime.rs:311-352 | the enum values and the format a parameter carries, of its own schema or of its item's |
| SchemaShape.MixedNodeMisleads | bb-cli/src/runtime.rs:321-336 | a concrete schema whose item classifies differently |
| ArgScanners.SplitOnce | bb-cli/src/cli.rs:94-97 | splits at the first `=`, and exactly when there is one |
| ArgScanners.TheFlags | bb-cli/src/cli.rs:61-72 | the six options that take a value, by name, and no other |
| ArgScanners.TheLoneOptions | bb-cli/src/cli.rs:84-104 | exactly what stands alone: the four switches and a value option with an equals sign |
| ArgScanners.TheMetadataOptions | bb-cli/src/appkit.rs:71-76 | exactly what asks for the catalog |
| ArgScanners.AppkitCommandPosition | bb-cli/src/appkit.rs:40-69 | the early look as its specification |
| ArgScanners.EarlyLookFindsTheFirstToken | bb-cli/src/appkit.rs:40-69 | finds the command exactly when the first token is `appkit` and no option before it asks for metadata |
| ArgScanners.ShouldRunBeforeBootstrap | bb-cli/src/appkit.rs:18-27 | when appkit runs unparsed |
| ArgScanners.RawArgsAfterAppkit | bb-cli/src/appkit.rs:78-96 | the cut as its specification |
| ArgScanners.CutFollowsFirstToken | bb-cli/src/appkit.rs:78-96 | when the first token is `appkit`, the cut is everything behind it |
| ArgScanners.FirstTokenIsNoValue | bb-cli/src/cli.rs:84-104 | the first token is never an option's value |
| ArgScanners.BootstrapArgs | bb-cli/src/cli.rs:120-144 | the parser as its specification |
| ArgScanners.WhatIsSaid | bb-cli/src/cli.rs:120-144 | what is read at each argument: an option's value behind it or behind its equals sign, a switch, the rest behind the separator, or a word |
| ArgScanners.ParserSucceedsIff | bb-cli/src/cli.rs:120-144 | exactly when no option lacks its value and every service path and timeout passes its check |
| ArgScanners.ParserLearns | bb-cli/src/cli.rs:120-144 | of each option the value given last |
| ArgScanners.ParserSwitches | bb-cli/src/cli.rs:133-136 | of each switch whether it was given |
| ArgScanners.ParserTakesTheTokens | bb-cli/src/cli.rs:120-144 | when parsing succeeds, its command tokens are exactly the arguments that are neither options nor their values, by position and in order |
| ArgScanners.TokensBeginAtTheFirst | bb-cli/src/cli.rs:120-144 | the first of those positions is that of the first token |
| ArgScanners.KindsAreRight | bb-cli/src/cli.rs:84-104 | the kind of an argument tells all the scanners ask of it; what asks for metadata is an option |
| ArgScanners.ScannersAgree | bb-cli/src/appkit.rs:40-96 | for every argument list the early look, the parser and the cut agree on one position, the cut is what follows it, and it is never an option's value |
| Catalog.StripTrims | bb-cli/script/update_extensions_catalog.py:15-16 | stripping trims, and changes exactly what is not trimmed |
| Catalog.LinesOfText | bb-cli/script/update_extensions_catalog.py:32-32 | splitting written lines gives the lines |
| Catalog.UnescapeUndoesEscape | bb-cli/script/update_extensions_catalog.py:21-21 | every text comes back from its JSON string |
| Catalog.ScalarComesBackIff | bb-cli/script/update_extensions_catalog.py:15-23 | exactly which texts survive being rendered and parsed |
| Catalog.HashIsLost | bb-cli/script/update_extensions_catalog.py:15-23 | a concrete text that does not survive |
| Catalog.UnquotedExactlyWhen | bb-cli/script/update_extensions_catalog.py:124-136 | exactly which texts are written without quotes |
| Catalog.SingleQuotedComesBack | bb-cli/script/update_extensions_catalog.py:17-20 | a text in single quotes, each of its own doubled, comes back |
| Catalog.CommentMarksAreDropped | bb-cli/script/update_extensions_catalog.py:119-121 | a text behind blanks and comment marks comes out bare; without a text the name stands in |
| Catalog.ParseGeneratedCatalog | bb-cli/script/update_extensions_catalog.py:26-48 | the parsing loop as its specification, its error included |
| Catalog.OtherLinesAreIgnored | bb-cli/script/update_extensions_catalog.py:31-44 | comments and other lines may stand anywhere |
| Catalog.WriteCatalog | bb-cli/script/update_extensions_catalog.py:139-149 | one row for each name in ascending order, and nothing else |
| Catalog.RenderedIsOneLine | bb-cli/script/update_extensions_catalog.py:124-136 | a rendered text never breaks a line |
| Catalog.CatalogComesBack | bb-cli/script/update_extensions_catalog.py:26-48 | parsing the written file gives back every name with its normalized text |
| Catalog.RewritingChangesNothing | bb-cli/script/update_extensions_catalog.py:119-149 | writing what was read gives the same file |
| AudioFramer.NativeVoiceProcessor.Process | public/native-voice-worklet.js:8-31 | posted blocks followed by the filled part equal all input so far; blocks have 960 samples and never change; the offset stays below 960 |
| AudioFramer.NativeVoiceProcessor.Post | public/native-voice-worklet.js:24-28 | a full buffer is handed over as it is and replaced |
| AudioFramer.BlockAt | public/native-voice-worklet.js:8-31 | the k-th block is the k-th run of 960 samples |
| AudioFramer.FramingIgnoresCuts | public/native-voice-worklet.js:8-31 | blocks and remainder depend on the input alone, not on how it was cut into frames |

## Left out

- Real file, network, process and timer calls; JSON and YAML libraries; UTF-8 decoding; SHA-256 (parameters or environment choices).
- Path names: paths are values (slug, role, place); stage and backup suffixes are assumed unused, as the source assumes of its clock.
- Stale-lock takeover in `AgentLock` (bb-cli/src/bb/agents_install.rs:724-768): check, removal and creation are not atomic, so operations on one slug are serialised here, and user edits happen between operations.
- The reason text and the paths in an operation's result (bb-cli/src/bb/agents_install.rs:284-320).
- Symbolic links are nodes that dangle or do not; what they point at is not followed further.
- Checking the downloaded document's form and unpacking the archive (bb-cli/src/bb/agents_install.rs:343-436): part of the download parameter.
- The readable stream's eventual close after shutdown, `sendInitialize`, `sendPost` and `sendDelete`; the connection-wide stream.
- SessionStreams.HttpStream.FetchSucceeded: a ghost step, since the code changes no table there.
- Redaction.RedactJsonValue: builds the tree anew instead of rewriting it in place, so the partly redacted tree of a failed call is not captured; the source discards it.
- Redaction of an empty secret or one with square brackets, and of error codes and texts (bb-cli/src/bb/apps.rs:1657-1720).
- Redaction inside `apps create`: an answer it refuses counts as unreadable, and the texts of an accepted answer are taken as already redacted.
- The wording of `apps create` errors; which exit code a failed initialize gives; URLs and headers.
- The server of the many-runs model reserves an id once and answers collision afterwards, shows an app to anybody with the role they have, and initializes whatever it is asked to; it ignores the environment of an inspection.
- SchemaShape.ResolveSchema: nothing for a `$ref` chain that never ends, on which the source does not terminate; and SchemaShape.ClassifySchemaShape nothing for a loop of any edges.
- JSON object keys are taken as they come; duplicate keys, which the library merges, are looked up as the first.
- The voice store behind the lease (native tokens, its own release retries): a granted lease stops new voice starts for its session, the status read is the true one, and releasing counts as done when it begins.
- Toasts, console output, home widgets, active-session clean-up and window release in the archive body.
- ArchiveQueue.AppShell.ContinueBeforeLease: the clean-up plans are reduced to whether they would discard files.
- Why a pinned session is skipped (being created, or having messages): a set given with each call.
- The navigation history's length under returns from voice settings is bounded only by one more entry each; the flags' timing within React rendering is the environment's.
- Environment variables and the base URL's resolution in the bootstrap parser; its timeout is kept as text.
- The catalog's two other input formats (bb-cli/script/update_extensions_catalog.py:51-116); surrogate escapes in JSON strings; `\r` translation on reading.
- AudioFramer.NativeVoiceProcessor.Copy: samples are reals, since framing does no arithmetic on them.
- Session-window handoff, UI rendering, command trees, output formatting and build scripts.
