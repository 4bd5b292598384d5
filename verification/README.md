# A verified model of the agent extensions' stateful cores

The repository extends a coding agent with an LSP daemon, a subagent supervisor, a notes store and a manager of
sessions in terminal windows. This project models the parts of those extensions that keep state or transform
documents, and proves what they promise. To verify it, run `dafny verify dfyconfig.toml`.

- **Workspace edits** (`LineTables`, `TextEdits`, `FileReplacement`). Positions become offsets, overlapping edits are
  rejected by looking at neighbours after a sort, and edits are spliced from right to left; this is shown to be
  simultaneous substitution in the original text. Several files are then replaced as one transaction of staging,
  renaming and rolling back, in which any command may fail and the commands of a rollback interleave in any order.
- **Language server framing** (`LspFraming`). The incremental parser gives the same messages however a byte stream is
  cut into chunks, and undoes serializing.
- **Run supervisor** (`Scheduling`, `RunSupervisor`). The scheduling functions say what every method of the supervisor
  object does; over every run the caps, the writer exclusion, the order of starts and the usage accounts hold.
- **Notes** (`TextLines`, `MarkdownSections`, `MarkdownPatterns`, `MarkdownAppend`, `AppendThenExtract`,
  `WorklogPaging`). A fence automaton, section bounds, item extraction and the in-place appender agree with each other,
  and the predicates that stand for regular expressions mean what those say; worklog pages tile the items of all
  documents.
- **Session catalog** (`SessionManifest`, `SessionTransforms`, `CatalogCommit`, `CatalogUpdate`). What a valid manifest
  is, exactly when each command's result is accepted, the commit protocol of any number of interleaved calls under a
  lock, and the step-by-step program of one call, every run of which is a run of the protocol.
- **Open documents and backend** (`OpenDocuments`, `BackendLifecycle`). The table of open documents and its index, the
  server that hears the notifications, and the generation-stamped life of the backend with its waiting requests.
- **Window bindings** (`WindowBindings`). Claiming, reclaiming, releasing and restoring windows with commands that may
  fail with or without effect while owners die and windows come and go.

`Wrappers`, `Sequences` and `Sorting` are shared: results, a fact about sequences, and the host language's stable sort
as insertion sort.

Asynchronous code is modelled as atomic steps between its suspension points. File system, terminal and process calls
are steps that succeed or fail by a nondeterministic choice; a step that fails is reported as failing, and where it
matters it may have had its effect nevertheless. Object state that the program updates in place is a class, and its
methods are tied to functions of the old state. Where a property needs every reachable state, ghost histories record
the state after each command.

Where the code falls short of a property, the model follows the code and says exactly when the property holds:

- A note whose text itself reads like a checkbox, such as `[x] done`, is written to the Notes or Worklog section and
  then found by no reader (`AppendThenExtract.CheckboxTextIsLost`). For follow-ups, and for any other text, one item is
  gained.
- A window that has lost its tag but still names a live process as its owner, as a release that fails half way leaves
  it, is taken over from that process (`WindowBindings.Tmux.BindCurrent`, the last two clauses; a run of four moments in
  `WindowBindings.HalfReleaseIsTakenOver`). In every other case no command changes a binding that another live process
  owns.
- A notification that is dropped because the server's input is gone leaves the table of open documents ahead of the
  server; the exact condition is in `OpenDocuments.Backend.EnsureFile`. A file that is opened while its server is being
  lost stays open for the next server, which has not heard of it (`OpenDocuments.Backend.OpeningOutlivesServer`), and
  `OpenDocuments.LostOpeningIsNotMadeUp` says what follows.
- Without a lock that can be relied on, one catalog update can overwrite another under the same revision
  (`CatalogCommit.StolenLockLosesUpdate`); outcomes stay truthful even then (`CatalogCommit.OutcomesAreTruthful`).

## Model

| member | source | states |
|---|---|---|
| LineTables.LineTableIsTheTable | extensions/dev-tools/workspace-edit.ts:200-216 | a list of line bounds covers the text with terminator-free lines, each followed by one terminator, if and only if it is the computed table |
| LineTables.GetLineBounds | extensions/dev-tools/workspace-edit.ts:200-216 | the loop computes the one correct line table of every text |
| LineTables.PositionOffsetKeepsOrder | extensions/dev-tools/workspace-edit.ts:218-225 | position-to-offset preserves and reflects lexicographic order, so it is one-to-one |
| LineTables.ReachableOffsets | extensions/dev-tools/workspace-edit.ts:200-225 | some position maps to an offset exactly when it is within the text and not inside a CRLF pair |
| TextEdits.ResolvedEditsAreWellFormed | extensions/dev-tools/workspace-edit.ts:228-239 | edits that resolve to what their lines and characters say lie in the text and are not reversed |
| TextEdits.ResolveMeans | extensions/dev-tools/workspace-edit.ts:218-239 | for any table of the lines: every edit resolves to the start of its line plus its character, for both ends, with its own text; an error is of the first edit with a position outside its line or a range that ends before it starts |
| TextEdits.NeighbourCheckIsComplete | extensions/dev-tools/workspace-edit.ts:241-248 | no neighbour overlaps after the sort if and only if every two edits have different starts and disjoint ranges or are both insertions at one offset |
| TextEdits.SplicingOrderIsRightToLeft | extensions/dev-tools/workspace-edit.ts:250-252 | the second sort puts compatible edits from right to left, equal insertions in reverse list order |
| TextEdits.SpliceAllIsMerge | extensions/dev-tools/workspace-edit.ts:250-256 | splicing right to left equals one left-to-right pass of kept gaps and new texts |
| TextEdits.MergeIsSubstitution | extensions/dev-tools/workspace-edit.ts:250-256 | that pass equals, offset by offset, the new texts starting there followed by the character unless it is replaced |
| TextEdits.SubstitutionsAgree | extensions/dev-tools/workspace-edit.ts:250-256 | the substitution does not depend on the sort: insertions at one offset appear in list order |
| TextEdits.SpliceIsSubstitution | extensions/dev-tools/workspace-edit.ts:250-256 | the program's reduce is simultaneous substitution in the original text for every compatible list of edits |
| TextEdits.SubstitutionLength | extensions/dev-tools/workspace-edit.ts:253-256 | the result is as long as the original plus what each edit adds |
| TextEdits.EditedTextMeans | extensions/dev-tools/workspace-edit.ts:227-257 | on lines and characters: an error names the first wrong edit, a rejection as overlapping means that two edits are incompatible, and otherwise the text is the simultaneous substitution of what the edits say |
| TextEdits.OneEdit | extensions/dev-tools/workspace-edit.ts:227-257 | a single legal edit replaces exactly the text between its two positions |
| TextEdits.ApplyTextEdits | extensions/dev-tools/workspace-edit.ts:227-257 | every list of edits either fails with the first bad position or range, or is rejected exactly when two edits are incompatible, or yields the simultaneous substitution of what the edits say on lines and characters |
| FileReplacement.FileSystem.Rename | extensions/dev-tools/workspace-edit.ts:358-360 | a rename moves the text or fails and changes nothing; the moment after it is recorded |
| FileReplacement.FileSystem.Remove | extensions/dev-tools/workspace-edit.ts:365 | a forced removal removes or fails and changes nothing; the moment after it is recorded |
| FileReplacement.FileSystem.Create | extensions/dev-tools/workspace-edit.ts:287-297 | creating a file exclusively: created only if absent, and writing may fail half way; the moment after it is recorded |
| FileReplacement.StageWorkspaceFile | extensions/dev-tools/workspace-edit.ts:281-299 | staging writes the whole new text beside the file or fails, and changes no other path at any moment |
| FileReplacement.CompareContents | extensions/dev-tools/workspace-edit.ts:340-349 | the comparison passes only if every target still has the text that was read |
| FileReplacement.StageAll | extensions/dev-tools/workspace-edit.ts:337-353 | staging all updates leaves every target alone; without a failing command it fails only for a target that changed; a staged file stays after a failure only if its own removal failed |
| FileReplacement.CommitOne | extensions/dev-tools/workspace-edit.ts:357-361 | one target is replaced, or the number of backups to undo is known and nothing is lost |
| FileReplacement.CommitAll | extensions/dev-tools/workspace-edit.ts:355-375 | all targets replaced and no staged file left, or all kept and no backup left after a complete rollback, or an incomplete rollback, reported only if an old text is in its backup still, with every old text at its path or backup |
| FileReplacement.RollbackCommand | extensions/dev-tools/workspace-edit.ts:363-368 | one command of one file's rollback moves it one phase on or rejects it, touching that file only |
| FileReplacement.Rollback | extensions/dev-tools/workspace-edit.ts:363-368 | the rollbacks of all files, interleaved in any order, restore every target if none is rejected and never lose an old text; exactly the rejected ones leave their backups |
| FileReplacement.Undo | extensions/dev-tools/workspace-edit.ts:362-374 | a failure is reported as plain only if every target holds its old text and no backup stays; each staged file and backup that stays has had its own failed command |
| FileReplacement.RemoveBackups | extensions/dev-tools/workspace-edit.ts:376 | removing backups leaves every target with its new text, whatever fails; a backup stays only if its removal failed |
| FileReplacement.ReplaceWorkspaceFiles | extensions/dev-tools/workspace-edit.ts:336-377 | all or nothing for any number of targets and a failure at any command; the record goes on to the present command by command, and at each of its moments all old texts are safe or all targets are new; failure only if a command failed or a target changed; no more staged files and backups stay than commands failed in cleaning up |
| FileReplacement.AllDistinct | extensions/dev-tools/workspace-edit.ts:408-410 | the size comparison of the set of paths holds exactly when no two targets are the same file |
| FileReplacement.ApplyWorkspaceEdit | extensions/dev-tools/workspace-edit.ts:379-425 | the whole edit: success means every target holds its edited text, failure that every target is as before, and other paths never change; at every recorded moment in between all old texts can be found or all edits are done; a temporary file stays only for a failed command of its own |
| LspFraming.DecimalRoundTrip | extensions/dev-tools/lsp-transport.ts:16 | printing a length in decimal and reading it back gives the length |
| LspFraming.ParseIntMeans | extensions/dev-tools/lsp-transport.ts:65 | reading a number gives the value of blanks, a sign or none and all the digits that follow, whatever follows them |
| LspFraming.ParseIntFinds | extensions/dev-tools/lsp-transport.ts:65 | a number is read only where one stands |
| LspFraming.HeaderRoundTrip | extensions/dev-tools/lsp-transport.ts:16-18 | the length parsed from a printed header is the length that was printed |
| LspFraming.LengthOfMeans | extensions/dev-tools/lsp-transport.ts:61-69 | the first length field of a header decides, on whatever line it stands; without one there is no length |
| LspFraming.NextTurnMeans | extensions/dev-tools/lsp-transport.ts:34-58 | a turn is the one that cuts the buffer at its first separator: skip a header without a length, deliver a body that is whole, and wait otherwise |
| LspFraming.TurnIsStable | extensions/dev-tools/lsp-transport.ts:34-58 | once a turn of the parser can act, later bytes do not change what it does |
| LspFraming.DrainInTwo | extensions/dev-tools/lsp-transport.ts:34-58 | draining a buffer in two parts is draining it whole |
| LspFraming.DrainLeavesNothingToDo | extensions/dev-tools/lsp-transport.ts:34-58 | after draining, the parser waits for more bytes |
| LspFraming.ChunkIndependence | extensions/dev-tools/lsp-transport.ts:28-58 | any split of any input, with bad headers and bad bodies, delivers the same bodies and leaves the same buffer |
| LspFraming.LspParser.Push | extensions/dev-tools/lsp-transport.ts:28-32 | pushing a chunk delivers what draining the joined buffer delivers and keeps its rest |
| LspFraming.LspParser.DrainBuffer | extensions/dev-tools/lsp-transport.ts:34-58 | the loop delivers and leaves exactly what the drain function says |
| LspFraming.LspParser.Receive | extensions/dev-tools/lsp-transport.ts:28-58 | pushing the chunks of a stream one after the other delivers the messages of the whole stream and leaves its rest |
| LspFraming.FirstTurnOfSerialized | extensions/dev-tools/lsp-transport.ts:14-18 | the first turn on a serialized body followed by anything delivers that body |
| LspFraming.DrainSerialized | extensions/dev-tools/lsp-transport.ts:14-58 | draining serialized bodies delivers exactly them and empties the buffer |
| LspFraming.FramingRoundTrip | extensions/dev-tools/lsp-transport.ts:14-68 | any chunking of serialized messages delivers exactly those messages and leaves an empty buffer |
| Scheduling.StepKeepsInv | extensions/subagent/control.ts:131-160 | every event keeps the bounds, the writer set, the distinct ids and the order, and ends at rest |
| Scheduling.SupervisorSafety | extensions/subagent/control.ts:228-336 | over every run: active runs within the cap, active plus waiting within capacity, the writer set exactly that of the active writers, one writer for a workspace |
| Scheduling.WorkConserving | extensions/subagent/control.ts:253-279 | between events a free slot means everything that waits is a writer of a held workspace, so waiting means running |
| Scheduling.StartsAreOrderly | extensions/subagent/control.ts:261-279 | a run starts before an earlier admission, which starts later or waits still, only if that is a writer of a workspace held at that moment and the run is no writer of it |
| Scheduling.OutcomesAreExplained | extensions/subagent/control.ts:131-160 | over every run each outcome has its reason: started only with a signal that has not fired and, for a writer, in a free workspace; rejected as aborted only for a fired signal or its listener, for capacity only when full, as closed only by or after the shutdown |
| Scheduling.EveryAdmissionIsAnswered | extensions/subagent/control.ts:131-160 | over every run each id ever acquired waits or has exactly one outcome, and what is active was started |
| Scheduling.AcquireMeans | extensions/subagent/control.ts:131-160 | what a request meets: a rejection for its reason, a start at once if a slot and its workspace are free, or the last place of the queue |
| Scheduling.AbortMeans | extensions/subagent/control.ts:139-148 | an abort listener takes exactly its waiting admission out of the queue and rejects it |
| Scheduling.ActiveAfter | extensions/subagent/control.ts:261-336 | after any event exactly those are active who were and are not released by it, and those whom it starts |
| Scheduling.EventsAreRemembered | extensions/subagent/control.ts:131-160 | over every run, signals that have fired, the shutdown and the ids that were acquired are those of the events |
| Scheduling.RejectAllMeans | extensions/subagent/control.ts:197-208 | a shutdown rejects everything that waits as closed, in order |
| Scheduling.ReportMeans | extensions/subagent/control.ts:315-321 | a report adds to each total what it is above the last one and replaces that, and changes nothing for a run that is not active |
| Scheduling.TotalUsage | extensions/subagent/control.ts:85-92 | over every run the total is the sum of latest reports plus all drops; equal to that sum exactly when no report fell |
| Scheduling.ReportsAfterRelease | extensions/subagent/control.ts:315-336 | once a run is released, reports and releases for it change nothing, after any further run of events |
| RunSupervisor.SubagentRunSupervisor.constructor | extensions/subagent/control.ts:95-111 | a new supervisor is empty and satisfies the invariant |
| RunSupervisor.SubagentRunSupervisor.StartRun | extensions/subagent/control.ts:281-313 | starting enters the run and its workspace |
| RunSupervisor.SubagentRunSupervisor.FindStartable | extensions/subagent/control.ts:253-264 | the search finds the first waiting admission that can start |
| RunSupervisor.SubagentRunSupervisor.DrainQueue | extensions/subagent/control.ts:261-279 | the loop has the effect of the drain function |
| RunSupervisor.SubagentRunSupervisor.Acquire | extensions/subagent/control.ts:131-160 | acquiring has the effect of its function and keeps the invariant |
| RunSupervisor.SubagentRunSupervisor.OnAbort | extensions/subagent/control.ts:139-148 | an abort takes a waiting admission out and rejects it |
| RunSupervisor.SubagentRunSupervisor.UpdateUsage | extensions/subagent/control.ts:315-321 | a report has the effect of its function and keeps the invariant |
| RunSupervisor.SubagentRunSupervisor.Release | extensions/subagent/control.ts:323-336 | a release has the effect of its function and keeps the invariant |
| RunSupervisor.SubagentRunSupervisor.Shutdown | extensions/subagent/control.ts:197-208 | shutting down rejects everything that waits, in order, keeps the active runs and closes all children |
| RunSupervisor.SubagentRunSupervisor.PruneChildren | extensions/subagent/control.ts:175-195 | only idle or closed children are closed, oldest first, not one more than needed and fewer only if no more can go; counted on the children that stay |
| RunSupervisor.KeptCount | extensions/subagent/control.ts:177 | all children less those being closed is the number of children that stay |
| RunSupervisor.SubagentRunSupervisor.RetainChild | extensions/subagent/control.ts:170-173 | a child is kept after the others or in the place of its predecessor, and refused after the shutdown |
| RunSupervisor.SubagentRunSupervisor.OnChildClosed | extensions/subagent/control.ts:184-185 | a closed child is gone from both tables, all others are there, and the children that stay are the same |
| RunSupervisor.SubagentRunSupervisor.OnCloseFailed | extensions/subagent/control.ts:186-192 | the failure is kept or counted, so that none is lost; a child that is not closed stays again, one that is closed is gone |
| RunSupervisor.SubagentRunSupervisor.OnShutdownClose | extensions/subagent/control.ts:213-216 | each child that the shutdown closes ends well or is counted as a failure once |
| RunSupervisor.SubagentRunSupervisor.EndShutdown | extensions/subagent/control.ts:216-224 | at the end no child is kept, every close that ever failed is reported or counted, and those of the shutdown are all reported |
| TextLines.SplitsAgree | extensions/notes/collection-policy.ts:166 | for one newline style, the reader's and the writer's way of splitting agree and joining undoes them |
| MarkdownSections.VisibleMarkdownLines | extensions/notes/collection-policy.ts:278-295 | the loop marks exactly the lines outside fences and their markers |
| MarkdownSections.CollectNestedDetails | extensions/notes/collection-policy.ts:201-215 | the loop collects, in order, the trimmed texts of exactly the visible indented lines before the first list line, other text or end |
| MarkdownSections.ExtractListItems | extensions/notes/collection-policy.ts:159-185 | the loop extracts exactly the item lines between the first header and the next, each with its text, its details and its line number |
| MarkdownSections.AppendSectionItem | extensions/notes/collection-policy.ts:217-244 | the program appends as the append function says, with its error for empty text: every line of the note is kept but for the first placeholder |
| MarkdownSections.SectionBoundsMean | extensions/notes/collection-policy.ts:261-276 | the bounds are between the first visible header and the next visible heading of level two or the end, or there is no header |
| MarkdownSections.NestedDetailsMeans | extensions/notes/collection-policy.ts:201-215 | the details of an item are the trimmed texts of all visible indented lines, in order, up to the line that ends them |
| MarkdownSections.ItemsInMeans | extensions/notes/collection-policy.ts:159-185 | the items are read off exactly the visible item lines of the section, in order |
| MarkdownSections.AppendWrites | extensions/notes/collection-policy.ts:217-244 | the new note is the old one with the bullet in the place of the first placeholder or after the last line of the section that is not blank, or with a new section at its end |
| MarkdownPatterns.OpensFenceMeans | extensions/notes/collection-policy.ts:286-287 | a line opens a fence if and only if it can be written as at most three spaces, at least three marks and a rest as the pattern demands |
| MarkdownPatterns.ClosesFenceMeans | extensions/notes/collection-policy.ts:297-305 | a line closes a fence if and only if it can be written as at most three spaces, enough of the same marks and blanks |
| MarkdownPatterns.InsideMeans | extensions/notes/collection-policy.ts:278-295 | a text ends inside a fence if and only if some line outside all fences opened it and no line since closed it |
| MarkdownPatterns.AfterBlanksMeans | extensions/notes/collection-policy.ts:191-197 | what stands after a marker is a text if and only if it can be written as blanks and one line that trims to the text |
| MarkdownPatterns.CheckboxMeans | extensions/notes/collection-policy.ts:191-194 | a line is a checkbox with a text and a state if and only if it can be written as the pattern says |
| MarkdownPatterns.ListItemMeans | extensions/notes/collection-policy.ts:187-199 | a line is a list item of a heading with a text and a state if and only if it can be written as the heading's pattern says |
| MarkdownPatterns.IndentedMeans | extensions/notes/collection-policy.ts:211 | a line counts as indented if and only if blanks or tabs come before its first other character |
| AppendThenExtract.VisibleMeans | extensions/notes/collection-policy.ts:278-295 | exactly the lines outside every fence that open none are visible |
| MarkdownSections.FindPlaceholder | extensions/notes/collection-policy.ts:234-238 | the first visible placeholder of the section, if there is one |
| MarkdownSections.InsertAt | extensions/notes/collection-policy.ts:240-241 | the end of the section without its trailing blank lines, and no further |
| MarkdownAppend.ItemsInIsScan | extensions/notes/collection-policy.ts:261-276 | finding the bounds first gives the same items as walking through the lines |
| MarkdownAppend.ItemsAround | extensions/notes/collection-policy.ts:159-215 | around a line that starts with a dash, items before and after are independent, with their details |
| MarkdownAppend.OtherHeading | extensions/notes/collection-policy.ts:261-276 | what stands in one heading's section does not matter to another heading, up to line positions |
| AppendThenExtract.AnnotateBoth | extensions/notes/collection-policy.ts:278-295 | the fence automaton runs over a text in parts |
| AppendThenExtract.AnnotateReplaced | extensions/notes/collection-policy.ts:278-295 | a line with a dash outside fences changes the visibility of no other line |
| AppendThenExtract.PlaceholderHoldsNoItem | extensions/notes/collection-policy.ts:234-236 | a placeholder line is a list line without an item |
| AppendThenExtract.BulletIsRead | extensions/notes/collection-policy.ts:187-199 | the written bullet reads back as its text, unchecked for follow-ups, and as no item exactly when a note's text is a checkbox |
| AppendThenExtract.ReplacedItems | extensions/notes/collection-policy.ts:217-244 | a bullet at a placeholder or at the end of the section adds its own item after those ahead of it, with the details below it, and changes no other item of any heading |
| AppendThenExtract.AppendsNewSection | extensions/notes/collection-policy.ts:228-232 | a section added at the end of a note holds exactly the new item |
| AppendThenExtract.AppendThenExtract | extensions/notes/collection-policy.ts:130-305 | appending one line and extracting again gives the old items in order with their details and exactly one new item, at the place and with the details of the first placeholder, or else last and without details; none if a note's text is a checkbox; other headings unchanged up to positions |
| AppendThenExtract.CheckboxTextIsLost | extensions/notes/collection-policy.ts:187-199 | a concrete text that is appended to notes and never extracted, for every such note |
| WorklogPaging.FitCountIsLongest | extensions/notes/contract.ts:912-925 | taking items one by one gives the longest prefix within both limits |
| WorklogPaging.TakeWorklogItems | extensions/notes/contract.ts:905-928 | the loop takes exactly that prefix, names where to go on, and fails exactly when the next item fits no page |
| WorklogPaging.CollectWorklogPage | extensions/notes/contract.ts:852-892 | the loop returns the longest fitting prefix of what the next 32 documents hold, with a cursor to the next item or document, and rejects unknown cursors |
| WorklogPaging.PositionMeans | extensions/notes/contract.ts:864-890 | a cursor without a location begins at the start, one with a path at that document and offset, and one with an unknown path is invalid |
| WorklogPaging.PageTiles | extensions/notes/contract.ts:852-892 | a page and what its cursor leaves are what the cursor before it left; the page holds items of the next 32 documents, its cursor does not go beyond them, and it has a cursor only after a full scan or if one more item would not fit |
| WorklogPaging.PageProgresses | extensions/notes/contract.ts:852-892 | if items fit, there is always a page, and each page with a cursor takes an item or scans 32 documents |
| WorklogPaging.CursorsTile | extensions/notes/contract.ts:852-892 | following the cursors gives every remaining item once and in order, each page within the limits of items, bytes and documents for the cursor before it, in a bounded number of pages |
| WorklogPaging.WholeWorklogIsRead | extensions/notes/contract.ts:852-892 | from the start, the pages concatenate to all documents |
| WorklogPaging.OnlyOversizedItemsStop | extensions/notes/contract.ts:915-921 | a page fails only if an item that fits no page comes next within the limits |
| SessionManifest.RecordLeIsAnOrder | extensions/session-manager/schema.ts:145-155 | the order by creation time and id is total and transitive |
| SessionManifest.ValidateRecord | extensions/session-manager/schema.ts:83-130 | the checks on one record accept exactly the legal ones and name what is wrong |
| SessionManifest.WrongIsInvalid | extensions/session-manager/schema.ts:158-178 | every reason for refusing a manifest is one |
| SessionManifest.ValidateManifest | extensions/session-manager/schema.ts:158-178 | the loop, which looks at neighbours and a set of ids, accepts exactly the manifests with legal records, globally distinct ids, global order and no record newer than the manifest, and gives a true reason otherwise |
| SessionTransforms.ReplacedSessions | extensions/session-manager/domain.ts:22-35 | replacing keeps ids distinct and the order, and all other records |
| SessionTransforms.FindReplaced | extensions/session-manager/domain.ts:14-35 | after replacing, lookup finds the new record and everything else as before |
| SessionTransforms.ReplacedIsValid | extensions/session-manager/domain.ts:22-35 | exactly when a manifest with one replaced record is accepted, whatever the clock says |
| SessionTransforms.StartIsAccepted | extensions/session-manager/lifecycle.ts:197-231 | start fails exactly for coordinator and closed sessions; its result is accepted exactly if id, name and file are legal and its time is between creation and update |
| SessionTransforms.AdoptIsAccepted | extensions/session-manager/lifecycle.ts:256-277 | the same for adopting, with an absolute session file |
| SessionTransforms.CloseIsAccepted | extensions/session-manager/lifecycle.ts:299-312 | closing is accepted exactly if it is dated between the last opening and the update; closing twice changes nothing |
| SessionTransforms.RenameIsAccepted | extensions/session-manager/lifecycle.ts:322-330 | renaming succeeds exactly for open sessions and is accepted exactly for legal names |
| SessionTransforms.RefreshIsAccepted | extensions/session-manager/lifecycle.ts:348-355 | refreshing succeeds exactly for open sessions and is accepted exactly for legal files |
| SessionTransforms.GcKeepsValid | extensions/session-manager/schema.ts:193-201 | collecting keeps a manifest valid and drops exactly the sessions closed for more than thirty days |
| SessionTransforms.EnsureCoordinatorIsAccepted | extensions/session-manager/coordinator.ts:25-42 | a coordinator is kept or made, accepted exactly if it was there or its id is legal and free |
| SessionTransforms.CommandsKeepValid | extensions/session-manager/lifecycle.ts:197-355 | every command maps a valid manifest to one that is accepted, given legal input and a clock that does not go back, also for an empty manifest stamped later than the command |
| SessionTransforms.CommandsTouchOneRecord | extensions/session-manager/lifecycle.ts:197-355 | a command changes no record but its session's |
| SessionTransforms.CommandsOwnRecord | extensions/session-manager/lifecycle.ts:197-355 | what a command does to its own record: a new one has its id, name, file and time; of an old one origin and task are kept, names once explicit stay so, times and state change as the command says |
| SessionTransforms.RefusedExactly | extensions/session-manager/lifecycle.ts:197-355 | a command is refused with an error if and only if the record of its session is missing, closed or the coordinator as that error says |
| SessionTransforms.CommandsCarry | extensions/session-manager/lifecycle.ts:197-355 | what a whole manifest is after a command: its own record changed in its way, all others and the coordinator as before; or a coordinator kept or made and exactly the old tombstones gone |
| CatalogCommit.NextIsAccepted | extensions/session-manager/storage.ts:113-143 | an update makes a manifest exactly when its command is not refused, in the first update of a workspace as in any other |
| CatalogCommit.NextManifestMeans | extensions/session-manager/storage.ts:113-143 | the manifest of an update has the next revision, its time, and what its command makes of the manifest before or the empty one; it fails only for the reason of its command or an invalid result |
| CatalogCommit.StepKeepsInv | extensions/session-manager/storage.ts:175-329 | every step of every call keeps the account of who has renamed what |
| CatalogCommit.OutcomesAreTruthful | extensions/session-manager/storage.ts:175-329 | in any run, even with stolen locks: a reported commit, in doubt or not, renamed exactly once the manifest that it names; any other outcome renamed nothing |
| CatalogCommit.StepKeepsSafe | extensions/session-manager/storage.ts:104-155 | a step that steals no lock keeps one holder, up-to-date reads and the chain of commits |
| CatalogCommit.CommitsFollowEachOther | extensions/session-manager/storage.ts:104-155 | without stolen locks every commit is its command applied to the manifest just before it and carries out that command: its own record changed in its way and every other found as before; revisions count commits; what is stored is valid |
| CatalogCommit.StolenLockLosesUpdate | extensions/session-manager/storage.ts:175-253 | with a stolen lock two updates can commit the same revision, the second over the first |
| CatalogUpdate.SuccessIsVerified | extensions/session-manager/storage.ts:315-317 | success means that the lock was never reported as compromised and the revision was read back from the disk |
| CatalogUpdate.SuccessExactly | extensions/session-manager/storage.ts:104-329 | a call succeeds exactly if nothing failed, the lock was free and never compromised, the command made a manifest of what was read and its revision was read back |
| CatalogUpdate.Attempt | extensions/session-manager/storage.ts:295-317 | the guarded part of the commit goes through the protocol's steps and knows whether it renamed |
| CatalogUpdate.Commit | extensions/session-manager/storage.ts:292-329 | the flags decide the outcome as the protocol does |
| CatalogUpdate.UpdateLocked | extensions/session-manager/storage.ts:113-150 | the part under the lock reads, cleans, transforms, validates and commits in the protocol's order |
| CatalogUpdate.Update | extensions/session-manager/storage.ts:104-253 | every run of the program is a run of one call of the protocol on the answers that it got, returns its outcome, and succeeds exactly under the condition for that call; on success the command is carried out on what was read |
| OpenDocuments.GroupedWith | extensions/dev-tools/document-manager.ts:77-81 | entering a document updates the index as regrouping all documents would |
| OpenDocuments.GroupedWithout | extensions/dev-tools/document-manager.ts:195-199 | removing a document updates the index as regrouping would, dropping empty projects |
| OpenDocuments.NotedIsHeard | extensions/dev-tools/document-manager.ts:83-119 | the notification of an opening or change is legal for a server with the old documents and gives it the new ones with their languages, versions and texts; without one they are the same to it |
| OpenDocuments.DocumentManager.GetProjectRoot | extensions/dev-tools/document-manager.ts:149-157 | the resolved root of a file, or else its directory, cached once and for all and touching no other entry |
| OpenDocuments.DocumentManager.Open | extensions/dev-tools/document-manager.ts:58-120 | the new table, index and notification, and whether the project is new; the document has the content of the file and the language of its path and is the last one used |
| OpenDocuments.DocumentManager.Evict | extensions/dev-tools/document-manager.ts:184-204 | just as many as are too many are closed, all used before every one that stays |
| OpenDocuments.DocumentManager.Close | extensions/dev-tools/document-manager.ts:211-223 | closing takes exactly the document out of table and index |
| OpenDocuments.DocumentManager.Clear | extensions/dev-tools/document-manager.ts:226-230 | clearing leaves nothing open |
| OpenDocuments.Backend.BeginEnsureFile | extensions/dev-tools/backend.ts:682-687 | an idle backend starts a server in the project of the file; opening goes on only with a server |
| OpenDocuments.Backend.EnsureFile | extensions/dev-tools/backend.ts:688-723 | whatever has become of the server: the file stays open with its content, at most 50 stay open, and the server, which takes back nothing, stays in step exactly if it hears or nothing needs sending |
| OpenDocuments.Backend.CloseFile | extensions/dev-tools/backend.ts:729-739 | the file is closed, and the server, which takes back nothing, stays in step exactly if it hears or the file was not open |
| OpenDocuments.Backend.BeginStopping | extensions/dev-tools/backend.ts:962-983 | a loss clears the open documents at once, a shutdown leaves them |
| OpenDocuments.Backend.EndStopping | extensions/dev-tools/backend.ts:985-994 | after a shutdown nothing is open; after a loss, what was opened meanwhile still is |
| OpenDocuments.Backend.AnyRun | extensions/dev-tools/backend.ts:682-1056 | in any run, over any number of servers: unless something was dropped since the caches were cleared last, the server has exactly the open documents and knows their projects; what a server has heard is never taken back |
| OpenDocuments.Backend.OpeningOutlivesServer | extensions/dev-tools/backend.ts:688-723 | a file opened after its server was lost is open for the next server, which has not heard of it |
| OpenDocuments.LostOpeningIsNotMadeUp | extensions/dev-tools/backend.ts:858-865 | after a lost opening the next change of the document is one that the server must reject |
| BackendLifecycle.LspBackend.EnsureStarted | extensions/dev-tools/backend.ts:348-380 | a start gets a new generation; in every other phase nothing changes |
| BackendLifecycle.LspBackend.Initialize | extensions/dev-tools/backend.ts:632-648 | the initialize request enters only for the generation that is starting |
| BackendLifecycle.LspBackend.PublishRunning | extensions/dev-tools/backend.ts:498-515 | only the starting generation becomes running |
| BackendLifecycle.LspBackend.Request | extensions/dev-tools/backend.ts:766-786 | a request enters only while running, under a new id and the present generation |
| BackendLifecycle.LspBackend.Complete | extensions/dev-tools/backend.ts:880-919 | a request of the generation is taken, its timer cleared and settled once; of another generation nothing changes |
| BackendLifecycle.LspBackend.OnMessage | extensions/dev-tools/backend.ts:814-840 | a message of another generation changes nothing; one of the present settles its request |
| BackendLifecycle.LspBackend.OnTimeout | extensions/dev-tools/backend.ts:867-878 | a timer that has gone off settles its request if that still waits, and changes nothing if it has been settled meanwhile |
| BackendLifecycle.LspBackend.OnWriteFailure | extensions/dev-tools/backend.ts:787-796 | a failed write settles its own request |
| BackendLifecycle.LspBackend.OnServerLost | extensions/dev-tools/backend.ts:962-983 | only the present generation is stopped by its loss |
| BackendLifecycle.LspBackend.OnStartupFailed | extensions/dev-tools/backend.ts:517-549 | only the starting generation is stopped by its failure |
| BackendLifecycle.LspBackend.Shutdown | extensions/dev-tools/backend.ts:1000-1014 | a shutdown stops the present server, under the next generation |
| BackendLifecycle.LspBackend.FailAllPending | extensions/dev-tools/backend.ts:921-932 | exactly the waiting requests of the generation, or all, are settled, none twice |
| BackendLifecycle.LspBackend.FailOwnPending | extensions/dev-tools/backend.ts:549 | a startup that failed settles what is left of its own requests, and no others |
| BackendLifecycle.LspBackend.FailStopped | extensions/dev-tools/backend.ts:984-985 | stopping leaves no request waiting |
| BackendLifecycle.LspBackend.Finish | extensions/dev-tools/backend.ts:989-993 | the stopped backend becomes idle or unavailable without changing its generation |
| BackendLifecycle.LspBackend.AnyRun | extensions/dev-tools/backend.ts:348-1064 | in any run of steps, with replies, errors, timeouts and lost servers, the generation never goes back, requests stay accounted for, and what is settled stays settled |
| WindowBindings.Tmux.InspectCurrent | extensions/session-manager/host.ts:160-225 | what is seen was so at the start and stays so until a command of the caller changes it; it fails only if a command does |
| WindowBindings.Tmux.AssertLiveOwner | extensions/session-manager/host.ts:263-284 | it passes only if no other live process owns the window, and conflicts only if one does |
| WindowBindings.Tmux.ReclaimStaleBinding | extensions/session-manager/host.ts:288-299 | a stale binding of another session, with a settled owner, is taken off, tag and owner; nothing else is, and without a failed command only a live owner is refused |
| WindowBindings.Tmux.CreateTag | extensions/session-manager/host.ts:305-316 | tagging keeps session ids unique in the group, given what was seen |
| WindowBindings.Tmux.BindCurrent | extensions/session-manager/host.ts:301-355 | success means tag and owner are the caller's; without a failed command a window that stays open is refused only for another live owner, another session without an owner, or an id that tags another window; another live owner's binding is left alone; live owners are respected exactly unless a live owner was left over on an untagged window |
| WindowBindings.Tmux.RenameCurrent | extensions/session-manager/host.ts:357-386 | renaming changes no binding and succeeds only on the session's own window; without a failed command it is refused only for a conflict, a duplicate or an untagged window |
| WindowBindings.Tmux.ReleaseCurrent | extensions/session-manager/host.ts:388-416 | success means that tag and owner of the session's window are gone and an untagged window is as it was; another live owner's binding is left alone; without a failed command it is refused only for a conflict or a duplicate |
| WindowBindings.Tmux.RestoreWindow | extensions/session-manager/host.ts:418-538 | success gives the one window of the group that has the session's tag, or a new one with it if none had; without a failed command it succeeds; no window that was there is touched |
| WindowBindings.Tmux.AnyRun | extensions/session-manager/host.ts:227-538 | in any run the history records the windows after every single command; at each of its moments a session id tags at most one window of a group, and no change passes over another live process's binding unless its operation began on a leftover window |
| WindowBindings.HalfReleaseIsTakenOver | extensions/session-manager/host.ts:249-355 | a release that takes the tag off and then fails leaves a leftover window, and the next binding passes over its live owner |

## Left out

- Character encodings: texts are sequences of characters, not UTF-16 code units, so split surrogates and byte offsets inside characters do not occur; JSON, URIs, path syntax, symbolic links, hashing and base64 are abstract or absent.
- Parsing and authorizing a workspace edit: the allowed roots, resource operations and the comparison with the editor's snapshot by version are not modelled; the transaction starts from a list of targets with their edits.
- Other programs writing to the files of a workspace edit while it runs; the unique names of staged and backup files are assumed not to be in use.
- Numbers of a Content-Length beyond 2^53, where the host language rounds; chunks that are strings rather than bytes.
- The supervisor's timeouts, the signals it sends to active runs, and usage by prefix; run ids are assumed not to be used twice.
- Appending several lines of text, and documents of mixed newlines or with an unclosed fence: nothing is claimed about reading those back.
- MarkdownSections.Append: several lines of text are joined as the program joins them, but only single lines are shown to be read back.
- Paging of the inbox, projects and wiki collections, listing the provider's pages, exact edits, and the date and path helpers; the worklog's list of paths is taken as given and without duplicates, which the listing checks. Byte sizes are any function of the item.
- Decoding a manifest from JSON strictly, and the locale's collation: one order of ids serves for sorting and for checking. Timestamps are numbers, and one out of range stands for a malformed string.
- The session commands around their manifest transforms: probing session files, binding windows, and the early answers of start and adopt. The identifiers of a new coordinator are a parameter.
- Reading the catalog without updating it, cleaning up temporary files beyond its success or failure, and interrupting an update. A failed renaming is taken not to have happened.
- Sockets, processes, stderr tails, telemetry, semantic state and diagnostics of a backend; the daemon's choice of a backend for a file.
- BackendLifecycle.LspBackend.Initialize: the check that the generation is still starting and the entry of its request are one step, since nothing suspends between them.
- Moving panes and windows between windows and terminal sessions during an operation, reuse of process and window ids, options set by hand, window names, and the lock itself: operations run one at a time.
- Rendering, formatting, tool schemas, browser automation, code review sharing, introspection and settings.
