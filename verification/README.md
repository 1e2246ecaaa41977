# The harness's protocols, modelled and proved

The AI-driven delivery harness is a set of small protocols whose state lives in text files.
This project models them and proves what they keep:

- **Scheduler and ledger.** Groups of work items run in order, phase by phase or independently,
  with completions in any order. Every event is written through to a Markdown file that is parsed
  back on resume. The save/load pair is modelled character by character, with the loader's regular
  expressions run by a small backtracking engine (`Regex`).
- **Document Control.** The two-column tables at the head of every artifact: first-match read,
  one-cell write, and the upsert that splices missing rows in. `ControlText` works on plain text,
  as the code does; `ControlDoc`, `ControlInsert` and `DocumentControl` show what that does to the
  rows; `ControlPatterns` shows that the regular expressions read and write exactly those cells;
  `AnyTable` and `FreezeAnyText` say what upsert and freeze do to texts whose tables have any width.
- **Freeze authority.** Generation, freeze decisions and `mark-status` as writers of one directory of
  artifacts, with the engagement record's counter and the journal. Files and record are their characters on
  disk, read with line endings folded and rewritten by the code's own searches, insertions and substitutions;
  `Template` models the replacement templates of `re.sub`, including those that raise. `FreezeText` shows that on
  the text of a well-formed document these are operations on its rows (`FreezeDocs`), `ErText` the same for the record.
- **Lease lock**, **circuit breaker and routing**, **calibration scoring**, the
  **generate/validate/lens loop**, the **capability registry** and the **optimisation loop**.

AI adapters, attestation verifiers, clocks and random shuffles are arbitrary: methods assign them any
value, and the results hold for every answer. In the scheduler the answer of an (item, phase) is fixed,
so that runs can be compared. Arithmetic on scores, costs and times is over exact reals; lock
timestamps are integer microseconds cut to seconds on write, as in the code.

Code that changes state is a class or a method with loops, proved equal to a specification function;
the laws are lemmas about those functions. A method and its specification function share a module.

Where the code departs from its own documentation, or a promise holds only on a condition, the model follows the
code and these lemmas give the exact condition: a synchronised gate can pass over failed phases
(`SyncGateIsReview` against `SyncCompleteIff`), a lens that fails without naming an issue does not block
(`AcceptedIff`), lens entries blind or mislead the two detectors (`StaleIff`, `OscillatesIff`), a re-registration
that drops an action leaves a stale index entry and can hide the stored one (`RegisterKeepsExactIff`,
`ListsCurrentIff`), adapter ids with slashes can share a store key (`KeysCollideIff`), an equality target may report
a best value that misses it (`EqualityBestMeetsIff`), a frozen artifact stays frozen exactly while no mark names it
(`AlwaysFrozenIff`), a freeze can raise with the artifact already FROZEN but without its
provenance (`ProvenanceLostIff`, `ProvidedIff`), a missing row can land where it is not read (`MissingRowLandsIff`),
a freeze can be lost to the record (`LostToRecordIff`), and a gate
whose group is called "Group ..." is lost on resume, which never matters to the run (`ResumeFromFile`).

## Model

| member | source | states |
|---|---|---|
| `LedgerLaws.RoundTripIff` | src/execution_ledger.py:151-291 | For any ledger, loading the saved text gives it back (times, gate paths and None/empty/`-` cells aside) if and only if every row fits the table syntax, is of a canonical phase, and hides neither behind a heading nor a section title. |
| `LedgerLaws.RoundTrip` | src/execution_ledger.py:151-291 | The sufficient half: a carryable ledger survives save and load exactly. |
| `LedgerLaws.OnlyCarryable` | src/execution_ledger.py:151-291 | The necessary half: a ledger that survives was carryable, so nothing outside the condition round-trips. |
| `LedgerLaws.PhasesSurvive` | src/execution_ledger.py:151-291 | The phases come back whole even where gates are lost to a heading or title. |
| `LedgerLaws.LoadIsStorable` | src/execution_ledger.py:209-291 | Whatever text the file holds, every row the loader returns fits the row syntax. |
| `LedgerVisible.PhaseVisibleIff` | src/execution_ledger.py:228-262 | A printed phase row is read, rather than taken for a heading or title, exactly when its item id does not start with "Group" and its text cells hold no section title. |
| `LedgerVisible.GateVisibleIff` | src/execution_ledger.py:228-291 | The same for a gate row and its group name. |
| `LedgerFormat.PhaseCells` | src/execution_ledger.py:166-187 | A phase row is written as its seven cells in the order of the columns, a missing value as a dash and a bar in the validation cell escaped. |
| `LedgerFormat.PhaseRowLoads` | src/execution_ledger.py:221-262 | A row with given cells loads as the record with those fields, a dash as a missing value. |
| `LedgerFormat.GateCellsAre` | src/execution_ledger.py:190-206 | A gate row is written as its seven cells: name, status, tests before, tests after, delta, "clean" or "DIRTY", completed over total. |
| `LedgerFormat.GateRowLoads` | src/execution_ledger.py:225-291 | A gate row with given cells loads as the gate with those figures, clean exactly when the lint cell says "clean". |
| `LedgerResume.SaveAgain` | src/execution_ledger.py:151-291 | Load a saved file and save again: the same text but for the timestamp. |
| `LedgerResume.NormSavesSame` | src/execution_ledger.py:151-207 | What a load erases was never printed: the erased ledger saves to the same text. |
| `LedgerResume.NoStatusInvented` | src/execution_ledger.py:151-291 | Even when fields hold bars and rows get lost, no phase that comes back has a status it did not have. |
| `LedgerRecords.LoadIsKeyed` | src/execution_ledger.py:240-291 | Every loaded row is filed under its own item, phase or group. |
| `LedgerRecords.ExecutionLedger.SaveFile` | src/execution_ledger.py:151-207 | The line-by-line printer writes exactly the specified text and remembers the state it wrote. |
| `LedgerRecords.ExecutionLedger.LoadFile` | src/execution_ledger.py:209-291 | The loop over lines with its two table flags computes the specified parse. |
| `LedgerRecords.ExecutionLedger.RecordPhaseStart` | src/execution_ledger.py:60-71 | Replaces one row, leaves all others and the gates, and the file then holds the new state. |
| `LedgerRecords.ExecutionLedger.RecordPhaseComplete` | src/execution_ledger.py:73-99 | Marks one row passed whatever the validation text says, keeping agent and start of an existing row; written through. |
| `LedgerRecords.ExecutionLedger.RecordPhaseFailed` | src/execution_ledger.py:101-116 | Marks one row failed with the error; written through. |
| `LedgerRecords.ExecutionLedger.RecordGroupGate` | src/execution_ledger.py:118-121 | Files one gate under its group; written through. |
| `LedgerRecords.ExecutionLedger.IsGroupComplete` | src/execution_ledger.py:136-142 | True exactly when all four phases of all given items are passed. |
| `LedgerRecords.ExecutionLedger.AllGroupsComplete` | src/execution_ledger.py:144-149 | True exactly when every named group has a passed gate. |
| `Regex.MatchSound` | src/execution_ledger.py:216-238 | A match of the loader's patterns is a genuine parse of a prefix of the line. |
| `Regex.MatchComplete` | src/execution_ledger.py:216-238 | A line with any parse is matched: greedy and lazy backtracking misses none. |
| `Sorting.Sort` | src/execution_ledger.py:168-174 | Selection by least element gives the sorted list of a key set. |
| `Orchestrator.Orchestrator.Execute` | src/orchestrator.py:89-155 | For every answer of the adapters and every completion order, a run ends with exactly the specified rows, gates and result, makes exactly the specified calls, and every state written on the way has rows a run may pass through and gates it started with or may write; an attempted group two of whose items share a file is left phase-synchronised, so only groups with pairwise disjoint files run independently. |
| `Orchestrator.Orchestrator.ExecuteGroupPhaseSync` | src/orchestrator.py:157-219 | The two loops per phase end in the order-free specification, with the barrier kept, no call of a phase after one of a later phase, and only review exceptions counted as failures. |
| `Orchestrator.Orchestrator.ExecuteGroupIndependent` | src/orchestrator.py:221-252 | Any interleaving of the items' events ends in the same rows and counts, and calls each item's phases in the order tests, plan, code, review. |
| `Orchestrator.Orchestrator.SubmitPhase` | src/orchestrator.py:166-199 | Submits exactly the AI items whose phase has not passed, passes human items as pending, skips the rest. |
| `Orchestrator.Orchestrator.CollectPhase` | src/orchestrator.py:201-219 | Collecting futures in any order records each result once and leaves no call in flight. |
| `Orchestrator.Orchestrator.RunGroup` | src/orchestrator.py:101-139 | One group: if two of its items share a file its mode becomes "phase_sync", else the mode stays; its rows, counts and calls are those of the mode it is left with; the calls respect the barrier or the item, come in the order tests, plan, code, review, and the gate is the one the counts imply. |
| `Orchestrator.Orchestrator.CheckFileOverlap` | src/orchestrator.py:356-370 | Empty exactly when the items' files are pairwise disjoint; otherwise exactly the overlapping pairs with their common files. |
| `Scheduler.Accounting` | src/orchestrator.py:165-252 | In both modes completed, failed and human items add up to the group. |
| `Scheduler.ModeIs` | src/orchestrator.py:101-119 | A group runs independently exactly when it asks to and no file is listed by two of its items; one with a shared file is left "phase_sync", any other keeps its mode. |
| `SchedulerRows.RowLeft` | src/orchestrator.py:157-252 | The row of each phase of each item after its group has run, cell by cell: pending for a human; for an AI item skipped, passed, failed or left running, according to the mode, the row before and the outcome. |
| `SchedulerRows.RowKept` | src/orchestrator.py:157-252 | Rows of other items and of other phases stay as they were. |
| `SchedulerRows.CallIff` | src/orchestrator.py:165-252 | A call is made exactly for an AI item and one of the four phases that no earlier exception of the item stops, when independent, or that had not passed, when synchronised. |
| `SchedulerRows.GateSays` | src/orchestrator.py:125-139 | The gate of a group from files, outcomes and earlier rows: passed when every AI item was completed, with the number completed and the number of AI items. |
| `SchedulerSteps.IndDone` | src/orchestrator.py:221-252 | When nothing is left to run, the rows are the specification's, whatever the interleaving was (confluence). |
| `SchedulerSteps.SyncSettled` | src/orchestrator.py:201-219 | Recording any one future in flight keeps the phase's order-free description of the rows. |
| `SchedulerLaws.CrashIsInvisible` | src/orchestrator.py:89-219 | Stop a run after any write and start again from the rows written: same rows, counts and attempted groups as the run never stopped. |
| `SchedulerLaws.ResumeFromFile` | src/orchestrator.py:89-219 | The same through the file, for any written state whose phases the file carries, whatever becomes of its gates. |
| `SchedulerLaws.LostRowsAreRedone` | src/orchestrator.py:165-252 | Where the file loses rows, a resumed run makes in every group all the calls that were due, and besides them only calls that had passed and whose row is lost. |
| `SchedulerLaws.WrittenStatesCarry` | src/orchestrator.py:165-219 | Every state a run writes is such a state when the ids, agent name, outputs, verdicts and errors and the starting ledger can be carried; with visible group names it comes back whole. |
| `SchedulerLaws.ResumeAfterCrash` | src/orchestrator.py:89-219 | So from the run's inputs alone: after any write, load the file and run again, and end as the uninterrupted run. |
| `SchedulerLaws.CallsAreDue` | src/orchestrator.py:165-199 | A run makes exactly the calls that were due when it started in the groups it attempts, each once. |
| `SchedulerLaws.PassedIsNeverRepeated` | src/orchestrator.py:176-183 | In a synchronised plan an (item, phase) recorded as passed is never executed again. |
| `SchedulerLaws.FinalIsMid` | src/orchestrator.py:89-155 | The final state of a run is itself a state a resume may start from. |
| `SchedulerLaws.RunAgain` | src/orchestrator.py:89-155 | Running a plan twice is running it once: same rows, same counts. |
| `SchedulerLaws.NothingLeftToCall` | src/orchestrator.py:176-183 | Once every AI phase has passed, a synchronised plan makes no adapter call. |
| `SchedulerLaws.GatesOfRun` | src/orchestrator.py:101-147 | The gates written are those of an initial segment of the plan, all passed but possibly the last; other gates are untouched. |
| `SchedulerLaws.CountsOfRun` | src/orchestrator.py:96-155 | Every item of every attempted group is counted once; status is "complete" exactly when every group passed. |
| `SchedulerLaws.IndependentGateMeansComplete` | src/orchestrator.py:236-252 | A passed independent gate implies that every phase of every item is passed. |
| `SchedulerLaws.SyncGateIsReview` | src/orchestrator.py:206-219 | A synchronised gate passes exactly when every AI item's review is passed afterwards. |
| `SchedulerLaws.SyncCompleteIff` | src/orchestrator.py:165-219 | A synchronised group is complete afterwards exactly when each AI phase had passed before or did not raise. |
| `SchedulerLaws.SyncGateCanHideAFailure` | src/orchestrator.py:206-219 | A concrete group whose gate passes although a phase failed. |
| `ControlText.UpsertDocumentControlRows` | src/state.py:162-208 | The loops over rows and lines compute the text-level upsert for any values, including both refusals and the raise of a substitution whose value is no template. |
| `ControlText.UpsertRaisesIff` | src/state.py:182-190 | On any text and for any values it raises on a template exactly when there is a block and an entry comes up whose row is there by then and whose value is no template. |
| `ControlCells.WriteThenRead` | src/state.py:106-159 | On any text where the row is found, the value written is the value read. |
| `ControlCells.WriteKeepsOthers` | src/state.py:106-159 | On any text, another row keeps its value when the write neither hides nor forges its label. |
| `ControlCells.WriteTwice` | src/state.py:106-159 | Writing twice is writing once. |
| `ControlPatterns.RowIff` | src/state.py:73-97 | When the row pattern matches at a position, in terms of the cells there. |
| `ControlPatterns.SearchReadsCell` | src/state.py:61-97 | Searching any text with the regular expression yields exactly the first fitting cell, trimmed. |
| `ControlPatterns.SubstituteWritesCell` | src/state.py:139-159 | Substituting with the regular expression replaces exactly that cell and nothing else. |
| `ControlPatterns.TemplateWritesRow` | src/state.py:185-188 | For any value, running the row pattern and the compiled template as `re.sub` does is the upsert's write in terms of cells, or raises with it. |
| `ControlPatterns.TemplateWritesCell` | src/state.py:185-188 | For a value without a backslash that is writing just that cell. |
| `ControlDoc.ReadRendered` | src/state.py:61-97 | On well-formed tables the text search is reading the first row with the title. |
| `ControlDoc.WriteRendered` | src/state.py:106-159 | On well-formed tables the text write is setting that row's value. |
| `ControlInsert.InsertRendered` | src/state.py:192-208 | Splicing lines into the text is inserting rows, in order, into the document. |
| `DocumentControl.UpsertReads` | src/state.py:162-208 | Every requested label reads back its value by first match. |
| `DocumentControl.UpsertKeeps` | src/state.py:162-208 | Every other label reads as before. |
| `DocumentControl.UpsertShape` | src/state.py:162-208 | Prose, old rows, their order and titles are untouched; exactly the missing entries are spliced in. |
| `DocumentControl.InsertsAtBlockEnd` | src/state.py:192-208 | New rows land right after the last row of the block that holds Artifact ID. |
| `DocumentControl.UpsertTwice` | src/state.py:162-208 | Applying the same rows twice is applying them once. |
| `DocumentControl.UpsertRendered` | src/state.py:162-208 | On a well-formed table, for values that a substitution takes literally or refuses, the code's text surgery is the document upsert, raises exactly when a row that is there gets a value that is no template, and without the block refuses; its line search never fails. |
| `DocumentControl.UpsertWellFormed` | src/state.py:162-208 | The result is again a well-formed table with its block. |
| `AnyTable.UpsertAnyText` | src/state.py:162-208 | On any text with an Artifact ID row, tables of any width included: when the rows read stand apart and missing ones can land, the upsert goes through, every label it sets reads as asked and every other label as before. |
| `AnyTable.MissingRowLandsIff` | src/state.py:192-206 | On any text whose block ends with a bar, a row added for a missing label is read back if and only if the last cell of the block is not that label. |
| `AnyTable.HeadingIsTaken` | src/state.py:183-188 | A label in the heading of another table is taken for the row: the cell after it is overwritten and no row is added. |
| `ErState.WriteThenReadState` | src/state.py:16-58 | On the rows: with all seven present and trimmed texts, the state set is the state read. |
| `ErState.WrittenCells` | src/state.py:39-58 | With all seven rows present, each is given its own field of the state. |
| `Template.PlainRowTemplate` | src/state.py:52-56 | A value without a backslash is a template that gives, at every match, the label, the padded value and a bar. |
| `Template.BadEscape` | src/state.py:52-56 | A value with an unknown escape is no template, whatever stands around it: `re.sub` raises. |
| `ErText.SubstitutesEveryCell` | src/state.py:53-56 | On any text, substituting with the regular expression and such a template writes every matching cell, left to right, and nothing else. |
| `ErText.WriteRaisesIff` | src/state.py:39-56 | On any text the write raises exactly when the value of some field is no template. |
| `ErText.ReadStateRendered` | src/state.py:16-36 | On a well-formed record the text searches read exactly the state of the rows. |
| `ErText.WriteStateRendered` | src/state.py:39-58 | On a well-formed record, for values its rows can hold, the text written is that of the rows set, and well formed again. |
| `ErText.WriteThenReadText` | src/state.py:16-58 | So on the record's own text, with all seven rows, the state written is the state read. |
| `ErText.WriteErStateBlock` | src/state.py:39-58 | The loop of seven substitutions computes the specified text, or raises before anything is written. |
| `ArtifactStore.FindFileIs` | src/state.py:282-305 | With unique ids, the search finds exactly the file that has the id. |
| `ArtifactStore.StatusesAre` | src/state.py:61-97 | With unique ids, the scan reports each id with its file's status, and no other id. |
| `LineEndings.TwoPassesAreOne` | src/freeze.py:56-70 | Replacing CRLF, then CR, equals one pass of universal newlines. |
| `LineEndings.NormalizeIsCanonical` | src/freeze.py:56-70 | No carriage return is left, normalising again changes nothing, and text read with folded newlines has the digest of the raw text. |
| `LineEndings.SameDigestIffSameLines` | src/freeze.py:56-70 | Two texts have one digest exactly when they have the same lines up to line-ending style. |
| `FreezeSteps.Initiative.Run` | src/driver.py:123-225 | The guard sequence of `run_artifact` computes the specified step on the characters of the whole disk, for any content. |
| `FreezeSteps.Initiative.Freeze` | src/freeze.py:81-199 | For any decision and any files, the guards and the writes in their order compute the specified step on the characters of artifacts, record and journal, with the three ways it can raise once FROZEN is written. |
| `FreezeSteps.Initiative.Mark` | src/cli.py:1040-1067 | `mark-status` computes the specified step and only ever writes HALTED or FAULTED. |
| `FreezeSteps.Initiative.CheckFreezeBeforePromote` | src/invariants.py:80-116 | Returns exactly the required upstream types that no frozen artifact carries. |
| `FreezeText.PersistRendered` | src/driver.py:284-321 | The text written for a converged artifact, wrapped or upserted, is the text of the pending document; for ids without a backslash it never raises. |
| `FreezeText.WrapRendered` | src/driver.py:303-314 | The literal block put around a bare content is the wrapped document's text. |
| `FreezeText.FreezeRendered` | src/freeze.py:144-164 | Status write and provenance upsert on the text give the text of the frozen document, or raise exactly when a provenance row that is there gets a value that is no template. |
| `FreezeText.StatusRendered` | src/state.py:142-158 | Writing a status writes the text of the document with that status row set. |
| `FreezeText.FrozenTextOk` | src/freeze.py:144-164 | What a freeze past the guards leaves reads FROZEN under the same id; the provenance is as decided unless blocked, and if blocked it reads as before. |
| `FreezeAnyText.StatusAnyText` | src/state.py:142-158 | On any file with a status row, the status written is the status read. |
| `FreezeAnyText.FrozenAnyText` | src/freeze.py:144-164 | On any file whose labels stand apart, tables of any width included, a freeze past the guards leaves it reading FROZEN under its id with the provenance as decided, when missing rows can land. |
| `FreezeDocs.PendingOk` | src/driver.py:284-314 | A persisted artifact is well formed, carries its own id and reads FREEZE_PENDING. |
| `FreezeDocs.FrozenReads` | src/freeze.py:144-164 | A frozen document keeps its id, reads FROZEN and carries Owner, Frozen By and Frozen Date, for any values a cell can hold. |
| `FreezeLaws.FreezeEffect` | src/freeze.py:109-199 | For any decision and files: a refused freeze changes nothing on disk; one that passes every guard was made by a named approver, not automatically, approves with or without conditions and matched the hash, and leaves the file with the upsert, or with the status alone if that raised. |
| `FreezeLaws.Refusals` | src/freeze.py:109-141 | From the decision's fields and the disk: an automatic or anonymous decision is unauthorised, one with another outcome is not approved, and so on through the guards in order; each writes nothing, and a decision past all of them is not refused. |
| `FreezeLaws.AppliedWrites` | src/freeze.py:143-185 | An applied freeze writes FROZEN and then owner, approver and date, the owner being the non-blank one named or else the approver; one more and the time in the record if given; one journal entry with id, outcome, approver and hash if given; nothing else. |
| `FreezeLaws.JournalIsFreezes` | src/freeze.py:174-185 | Over any run of all three writers the journal grows by exactly one entry for each freeze applied with it, in order, each carrying its decision. |
| `FreezeLaws.RunWrites` | src/driver.py:284-321 | A converged run leaves, in the file named after its type, a well-formed artifact whose id is the type, the slug and 001, with status FREEZE_PENDING and last validation PASS. |
| `FreezeLaws.RunDecides` | src/driver.py:137-225 | In every directory reached over well-formed contents a run of a frozen type changes nothing; one with required types that are not frozen names exactly those and changes nothing; else only a converged generation is written. |
| `FreezeLaws.FrozenIs` | src/driver.py:259-271 | In every directory reached over well-formed contents the driver's frozen check is the status of the type's own file. |
| `FreezeLaws.FrozenTypesAre` | src/invariants.py:95-116 | In every directory reached over well-formed contents the promotion check's frozen types are those whose own file is frozen. |
| `FreezeLaws.UpstreamClosure` | src/driver.py:143-224 | In every state reached over well-formed contents without mark-status, an artifact on disk has everything upstream of it, along any dependency chain, frozen. |
| `FreezeLaws.Provenance` | src/freeze.py:109-199 | Over all runs of all three writers on well-formed contents, a file that reads FROZEN was frozen by a decision not attempted automatically, with a non-blank approver and an approving outcome, whose hash matched its text then, and has not been touched since. |
| `FreezeLaws.FrozenCarriesProvenance` | src/freeze.py:148-164 | Over all runs, a frozen file carries the owner, approver and date of its decision, or, where that freeze was blocked, what it carried before. |
| `FreezeLaws.ProvidedIff` | src/freeze.py:148-164 | A freeze leaves the tuple as decided exactly when it is not blocked or the file carried it already. |
| `FreezeLaws.ProvenanceLostIff` | src/freeze.py:144-164 | In every directory reached over well-formed contents, a freeze past every guard raises with the artifact FROZEN and nothing else written exactly when a provenance row the file has is to get a value that is no template. |
| `FreezeLaws.StaysFrozenIff` | src/driver.py:137-144 | A frozen artifact is frozen after a step of any writer exactly when the step is no HALTED or FAULTED mark of that artifact. |
| `FreezeLaws.AlwaysFrozenIff` | src/cli.py:1049-1061 | Over any run, marks of other artifacts included, it is frozen at every moment exactly when no step marks it. |
| `FreezeLaws.FrozenSurvivesRuns` | src/driver.py:137-144 | While nobody marks it, no step but a further freeze decision that matches its text changes its file. |
| `FreezeLaws.MarkThaws` | src/cli.py:1049-1061 | Marking a frozen artifact gives it the status marked, so unfreezes it, and no other. |
| `FreezeLaws.MarkedCanBeRewritten` | src/driver.py:137-144 | After a mark that names it, generation overwrites the once frozen file with any content it can persist. |
| `FreezeProgress.EveryTypeCanFreeze` | src/driver.py:143-224 | For any acyclic, closed dependency table some run from an empty directory freezes every type. |
| `FreezeProgress.CountGrowsByFreezes` | src/freeze.py:166-172 | Over any run of all three writers, blocked freezes included, the count read in the text of a well-formed record without backslashes grows by exactly the freezes applied with the record given. |
| `FreezeProgress.LostToRecordIff` | src/freeze.py:143-172 | For any decision and files, a freeze past every guard ends with the artifact frozen but neither counted nor journalled exactly when the upsert fails, the record's count is no number or a field read from it is no template; in directories reached over well-formed contents the upsert fails exactly when a provenance row is blocked. |
| `UpstreamTable.TableIsRanked` | src/invariants.py:26-60 | The shipped table is closed and acyclic. |
| `UpstreamTable.EveryListedTypeCanFreeze` | src/invariants.py:26-60 | So some run freezes all the types it lists. |
| `Lock.Initiative.AcquireLock` | src/lock.py:239-311 | The acquire sequence computes the specified step, halt before lock; `AcquireDecides` says which that is. |
| `Lock.AcquireDecides` | src/lock.py:239-311 | A free lock goes to any known driver with each of its own terms recorded and both times in whole seconds; another session's is taken, with those terms and the halt, exactly when its lease is over or its process is dead on the same host; a session's own is renewed; otherwise the answer is blocked or unknown driver and nothing changes. |
| `Lock.HolderOnly` | src/lock.py:314-344 | A renew or release by the recorded session sets the renewal time or frees the lock and touches nothing else; by anyone else it changes nothing. |
| `Lock.Initiative.RenewLock` | src/lock.py:314-331 | Renews only for the recorded session; otherwise changes nothing. |
| `Lock.Initiative.ReleaseLock` | src/lock.py:334-344 | Removes the lock of the recorded session only; otherwise changes nothing. |
| `Lock.LeaseSafety` | src/lock.py:180-311 | A session with a live PID on its host whose beats are at most the lease less 999,999 microseconds apart is never displaced in any run of steps by others. |
| `Lock.AcquiredIsSafe` | src/lock.py:180-311 | So a session that acquires with a lease of its own choosing holds the lock after every later step, while its beats are at most that lease less 999,999 microseconds apart and its process lives. |
| `Lock.GapIsTight` | src/lock.py:92-201 | One microsecond more, at an unlucky fraction of a second, and the lock can be taken. |
| `Lock.TakeoverWindow` | src/lock.py:92-201 | Past its lease a lock is takeable by anyone; within the lease less 999,999 microseconds, by nobody to whom its process is not reported dead. |
| `Lock.BeliefIsSound` | src/lock.py:239-344 | In every reachable state a session that believes it holds the lock does, or has been named in a halt written since; once it does not, its next renew, whenever, or release returns False and changes nothing. |
| `Lock.HaltComesFirst` | src/lock.py:275-311 | The lock changes sessions only by a step that wrote the halt naming both. |
| `Lock.TakersWereAnnounced` | src/lock.py:275-311 | Over whole runs with crash points, every taker had been named in a halt. |
| `Routing.CircuitBreaker.IsOpen` | src/routing.py:36-45 | Open exactly while less than the reset has passed since it opened, which is what the log of past calls says too; otherwise the counters are cleared. |
| `Routing.CircuitBreaker.RecordFailure` | src/routing.py:27-30 | Counts one failure and opens at the limit, for any provider; for a closed one it keeps every provider's failures spaced. |
| `Routing.FailureKeeps` | src/routing.py:27-45 | The invariant behind the limit: a failure of a closed provider keeps any limit-plus-one failures at least the reset time apart. |
| `Routing.RateLimit` | src/routing.py:27-45 | Over any log of calls, more than the limit of failures of one provider with no success between span at least the reset time. |
| `Routing.CallRate` | src/routing.py:27-45 | The same of every call: answered or failed, a call with at least the limit of failures and no success since some failure comes at least the reset time after it. |
| `Routing.CallsAndRefusals` | src/routing.py:36-45 | In a log where refusals are exactly the open moments, a refused provider has at least the limit of failures since its last success, the last less than the reset time ago; a call waits for the reset after the limit-th last one. |
| `Routing.LawfulIsSpaced` | src/routing.py:27-45 | Such a log keeps every provider's failures spaced at every moment, so the rate limit holds of it. |
| `Routing.CircuitBreaker.CountersMean` | src/routing.py:21-34 | In every valid state the dictionaries hold the current run of failures and the time of opening, and the whole log is spaced. |
| `Routing.RoutingEngine.TryOne` | src/routing.py:203-215 | An adapter is skipped exactly when its breaker is open at that moment; otherwise it is called once, and its answer recorded. |
| `Routing.RoutingEngine.Fallback` | src/routing.py:190-219 | Returns the first response, or all errors in order; each provider is skipped exactly when it is open at its turn and called otherwise; the calls made are those of the attempts, and the breaker's log grows by one event for each. |
| `Routing.RoutingEngine.CostAware` | src/routing.py:221-261 | The same over exactly the eligible adapters, cheapest first, ties in the given order. |
| `Kappa.ChanceBounds` | src/calibration.py:509-526 | Chance agreement is at most one and at most half of one plus the observed agreement, for any categories. |
| `Kappa.KappaBounds` | src/calibration.py:509-526 | Kappa lies in [-1, 1]; for non-empty lists it is 1 exactly when they are equal; chance agreement 1 forces equality. |
| `Kappa.KappaFromPlaces` | src/calibration.py:509-526 | From the two lists alone: with n entries, m places where they agree and p pairs of places with the same label, kappa is (nm - p)/(nn - p), and one when every pair agrees. |
| `Kappa.ComputeKappa` | src/calibration.py:509-526 | The loop over categories, in any order, computes kappa. |
| `Calibration.Score` | src/calibration.py:551-629 | The nested counting loops compute the specified report, whose figures the laws below give from the gold labels and the maps of the judge. |
| `Calibration.Conservation` | src/calibration.py:551-629 | Per-gate rows sum to the report's totals, false passes and flips, and kappa's observed agreement is the reported one. |
| `CalibrationLaws.MatrixCounts` | src/calibration.py:581-609 | The matrix has exactly the labelled gates; a gate's row counts, over cases, labels and runs, its verdicts, those that are the gold label, its labels FAIL passed by some run, and its labels that two runs answered differently. |
| `CalibrationLaws.ReportCounts` | src/calibration.py:581-629 | The agreement is the share of verdicts that are the label; false passes and flips are the numbers of such labels, and the flips name their cases and gates. |
| `CalibrationLaws.SilenceIsWrong` | src/calibration.py:90-94 | A run silent on a gate labelled PASS or FAIL is not right about it, and differs from every run that gives a verdict. |
| `CalibrationLaws.FreezeGatePass` | src/calibration.py:529-548 | From labels and maps alone: a freeze-gate PASS means some verdict was given, no two runs disagree on a label, no run passed a label FAIL and at least nine tenths of the verdicts are the label; and conversely. |
| `CalibrationLaws.AdvisoryPass` | src/calibration.py:529-548 | The advisory verdict likewise: no two runs disagree and three quarters of the verdicts are the label. |
| `Convergence.ConvergenceLoop.Run` | src/convergence.py:114-263 | For all answers of generator, validator and lenses: the rounds form a legal run, and outcome, ledger, calls and warnings are exactly those of the rounds. |
| `Convergence.ConvergenceLoop.RunLensReviews` | src/convergence.py:265-331 | Asks every lens once about the same content, collects the issues of those that fail, and records those that answered. |
| `Convergence.ConvergenceLoop.BuildCorrectionRequest` | src/convergence.py:392-419 | The original's fields, its constraints followed by one line per issue, and no temperature. |
| `ConvergenceLaws.StopsAtFirst` | src/convergence.py:148-263 | With whole generations and readable verdicts, the run stops at the first accepted round, else after exactly `max`. |
| `ConvergenceLaws.PassIff` | src/convergence.py:214-263 | The result is PASS exactly when some round was accepted. |
| `ConvergenceLaws.AcceptedIff` | src/convergence.py:214-242 | Accepted means a validator PASS and no lens that fails it with an issue to show. |
| `ConvergenceLaws.EndsAs` | src/convergence.py:151-263 | How a run ends, from its last round: raised, cut off at which iteration, unreadable, or the last generation with its verdict, turned to FAIL with the lens issues where a PASS did not survive them. |
| `ConvergenceLaws.NoAccumulation` | src/convergence.py:392-419 | Each regeneration carries exactly the original constraints plus one line for each finding of the previous round, with its gate, description and place: the issues of the verdict, or of the lenses after a PASS. |
| `ConvergenceLaws.LensIssueIff` | src/convergence.py:317-326 | The findings of the lenses are exactly the issues of those that answer FAIL, each under the name of its lens. |
| `ConvergenceLaws.Determined` | src/convergence.py:148-263 | The adapters' answers determine the whole run, so the contract of `Run` admits no other behaviour. |
| `ConvergenceLaws.CallsAreFair` | src/convergence.py:151-181 | A truncated generation is never judged; the validator is shown a whole generation with the validation request otherwise unchanged; a lens is shown one whose verdict was PASS, with the generation inputs, its own name, no constraint and no other judge's words; all at temperature zero; the number of calls is exact. |
| `ConvergenceLaws.QuestionsAreAboutWholes` | src/convergence.py:151-183 | The n-th question to the validator is the validation request with the n-th whole generation as the artifact, and there are no others. |
| `ConvergenceLaws.EveryLensAsked` | src/convergence.py:214-219 | Every lens is asked about every artifact whose verdict was PASS. |
| `ConvergenceLaws.VerdictsAreNumbered` | src/convergence.py:184-207 | The validator's ledger entries are numbered from one, once each, and hold the verdicts read, with provider, model, prompt and temperature. |
| `ConvergenceLaws.ReviewsFollowAPass` | src/convergence.py:297-315 | A lens entry exists only for an iteration whose verdict was PASS, and holds what that lens answered, without gates or score. |
| `ConvergenceLaws.StaleIff` | src/convergence.py:333-368 | Staleness is reported exactly when two rounds in a row fail a gate with the same last words on it and no lens answered in the first. |
| `ConvergenceLaws.OscillatesIff` | src/convergence.py:370-390 | Oscillation is reported exactly for fail-pass-fail with no lens answers in between, or for any repeated failure after exactly one lens answer. |
| `ConvergenceLaws.WarnedIff` | src/convergence.py:242-257 | A warning is logged exactly for the rounds whose verdict is not PASS, with a further round allowed, after which the detector sees its pattern in the ledger. |
| `Registry.KeysDiffer` | src/cicd/registry.py:64-65 | With slash-free ids, keys coincide exactly for the same id and version. |
| `Registry.KeysCollideIff` | src/cicd/registry.py:64-65 | Two different adapters share a key exactly when one id continues the other, after a slash, with what begins the other's version. |
| `Registry.AddedBuckets` | src/cicd/registry.py:87-99 | Indexing an entry replaces its identity once in each claimed bucket, however often the action is listed, and touches no other bucket. |
| `Registry.RegisterKeepsExactIff` | src/cicd/registry.py:87-131 | An accepted registration keeps the index exact if and only if the record it overwrites loses no action. |
| `Registry.RunExactIff` | src/cicd/registry.py:87-131 | Over any run the index is exact at every moment if and only if no registration drops anything. |
| `Registry.RegisterKeepsCovered` | src/cicd/registry.py:87-131 | Without that condition, one registration keeps every stored claim indexed exactly once. |
| `Registry.RunCovered` | src/cicd/registry.py:87-131 | Over any run, every stored claim is indexed exactly once and only superseded entries linger. |
| `Registry.RebuildExactIff` | src/cicd/registry.py:68-85 | A rebuild is exact if and only if no stored entry lists an action twice. |
| `Registry.RestartChangesNothing` | src/cicd/registry.py:68-85 | An exact index and its rebuild hold the same entries in every bucket, once each. |
| `AdapterRegistry.CapabilityRegistry.RegisterAdapter` | src/cicd/registry.py:102-131 | Store first, then index; on rejection or a failing store neither changes. |
| `AdapterRegistry.CapabilityRegistry.RebuildIndexFromStore` | src/cicd/registry.py:68-85 | The loops compute the rebuild over the store's keys in order, skipping what does not parse. |
| `AdapterRegistry.CapabilityRegistry.FindAdapters` | src/cicd/registry.py:134-156 | The bucket narrowed to the entries with all the tags. |
| `AdapterRegistry.FoundIsStored` | src/cicd/registry.py:134-156 | With an exact index a lookup finds each stored entry that claims the action and whose context has every tag of the query, once, and nothing else. |
| `AdapterRegistry.CapabilityRegistry.AllEntries` | src/cicd/registry.py:159-170 | The first entry of each identity, in the index's order. |
| `AdapterRegistry.AllEntriesExact` | src/cicd/registry.py:159-170 | With an exact index it lists each stored entry once, except those that claim no action. |
| `AdapterRegistry.ListsCurrentIff` | src/cicd/registry.py:87-170 | After a re-registration over a different entry, inspection lists the stored entry exactly when the first action, in the index's order, claimed by either is claimed by the new one. |
| `AdapterRegistry.StaleHidesCurrent` | src/cicd/registry.py:87-170 | A run that shows the failure: dropping an action for another leaves the lookup answering the old entry and inspection without the stored one. |
| `AutoResearch.AutoResearchEngine.Optimize` | src/auto_research.py:76-163 | For all answers: the history tries the generated variations one by one in order, numbered; best first-reached; stop at the first success that meets the target, else everything generated was tried and, where variations cannot run dry, the budget used; totals, and the bound on the budget for every strategy. |
| `AutoResearch.MetIsBest` | src/auto_research.py:362-382 | For inequality targets the experiment that meets the target is the best. |
| `AutoResearch.SearchMeans` | src/auto_research.py:76-163 | In numbers: of the successful experiments exactly the last of a search that met its target satisfies the comparison asked for; the best value is the highest for at least and above, the lowest otherwise. |
| `AutoResearch.BestIsLastIff` | src/auto_research.py:76-163 | For every target, the best is the last exactly when it beats every earlier success. |
| `AutoResearch.UnmetMeansBestMisses` | src/auto_research.py:76-163 | When the target is not met the best value misses it. |
| `AutoResearch.EqualityBestMeetsIff` | src/auto_research.py:362-382 | For an equality target that was met, the reported best meets it exactly when no earlier success fell below the threshold. |
| `AutoResearch.EqualityPrefersLower` | src/auto_research.py:362-382 | A history that shows the failure. |
| `AutoResearch.AutoResearchEngine.VaryContextPruning` | src/auto_research.py:298-320 | The baseline, then the request without each upstream artifact in turn: one more than there are artifacts. |
| `AutoResearch.AutoResearchEngine.VaryConstraintOrdering` | src/auto_research.py:263-296 | Pairwise different rearrangements of the same constraints, between one and the number asked for; the bare request when there is nothing to reorder. |

## Left out

- Provider adapters, subprocesses, argument parsing, configuration, YAML and JSON decoding: library calls; a parsed value or a failure to parse stands for them.
- Real threads in the independent mode: each recorded event is one atomic step and every interleaving is covered.
- File-level races between processes in `acquire_lock`, and the calls that probe PIDs: a call is atomic but for the crash point after the halt; liveness is an input.
- SHA-256 is an injective wrapper; the calendar is integer microseconds; one clock is shared by all sessions of the lock model.
- Floating-point rounding in scores, thresholds, kappa, costs and breaker times: exact reals.
- Unicode case folding and the non-ASCII members of `\w` and `\d`: ASCII only; white space is Python's full set.
- DocumentControl.UpsertRendered: takes, like the laws over runs, values that a cell can hold and that a substitution takes literally or refuses; an owner or approver with a bar, or with a backslash in a valid template (`\1`, `\n`), is covered by the text-level steps but has no row-level account.
- FreezeLaws.Provenance: like the other laws over runs, it is about contents in which every bar belongs to a two-column row on a line of its own and labels stand in label cells only; files with wider tables, or labels in their headings, are covered step by step (`AnyTable`, `FreezeAnyText`), not over runs. `FreezeProgress.CountGrowsByFreezes` asks the same of the record.
- Encodings: a file is its characters, read with line endings folded; Python's limit on the digits of a number is not modelled.
- `build_context` raising: in an independent group the item fails with its row not yet started, where the model's failing item leaves the row running; in a phase-synchronised group the run ends with an exception, and the states written until then are among those a resume may start from.
- Duplicate item ids inside a group or plan, and two groups of one name: the ledger's rows would be shared.
- FreezeSteps.Initiative.Run: the generate/validate loop inside it is its result only (no spec, escalated, converged content); the loop itself is `Convergence`.
- Convergence.ConvergenceLoop.Run: state reached before an exception is part of the result here, where the code lets it go with the stack; JSON fields of other types than expected count as a judge that raised.
- AutoResearch.AutoResearchEngine.VaryPromptPhrasing: the texts come from the adapter; the meta-prompt and the pattern that extracts them are not modelled.
- AdapterRegistry.ArtifactStore: a map from keys to records, not a file system; two keys that name one path are not identified.
- Parallel consensus and pipeline routing, calibration's gold-set parsing, `write_lock` and `check_lock`, lifecycle hooks, observability, attestation: independent of the protocols above or easy guard chains.
