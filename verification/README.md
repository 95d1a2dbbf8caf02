# Equity research audit: a verified model

The platform runs equity research as a workflow with human gates, on filed figures and fetched
documents. An audit beside it drives runs without a person and scores what they produce. This project
models the parts whose correctness no finite set of examples settles, and proves what they promise.

- **Driving a run** (`Platform`, `Executor`, `Gates`, `Policy`, `Driver`, `Ledger`). A driver polls a
  job that a separate worker moves. `Platform.Runtime` is the record they share; the worker is any
  process that leaves an idle run alone and never writes an approval or raises a cap, and it may move
  between any two reads of the driver. The driver is modelled query by query. `Gates.Clear` is the gate
  decision on one unmoving state; the method that reads several agrees with it whenever nobody else can
  move the run, and is proved safe when somebody can.
- **Scoring** (`Facts`, `Match`, `Variance`, `GateWaits`, `Numerals`, `Tables`). Each loop with its best,
  last or cursor state is a method held to a specification, and the specification to a declarative
  statement of what the score means.
- **Data surgery** (`ResetResearch`, `KeeperMerge`, `RunRoot`, `WordBudgets`). Tables are maps from ids
  to rows, statements are methods that replace them, and a failing statement leaves everything as it was.
- **Untrusted text** (`Untrusted`, `Framing`). The delimiter pattern, the leftmost substitution that
  defuses it, the printer of blocks, and the reader the printer is held to.

`Options` and `Text` hold what the modules share. Verify everything with `dafny verify dfyconfig.toml`.

## Where the code and its description part

Each of these is a lemma below; the model does what the code does.

- A stale pause is not always absorbed (`Gates.StaleReadAbsorbedExactly`). The worker commits RUNNING
  before it restarts the paused step; between the two commits the driver sees a moved run, finds the old
  pause with its gate decided, and stops with a post-approval pause (`Gates.StaleReadExample`).
- Resealing compares the two hashes the pause recorded and then seals the display as it now stands,
  which need not be the approved one (`Gates.ResealKeepsTheApprovalExactly`, `Gates.ResealExample`).
- A drill that did not move counts as a resume, so resumes can exceed the bound by one
  (`Driver.ResumesPassTheBoundExactly`, `Driver.ResumesPassTheBoundExample`).
- The guard before a drive asks for the raised cap. It does not cover a run commissioned under a larger
  one (`Ledger.GuardCoversExactly`).
- A value the operator states outside its own band is written, and would be amended by a second decision
  (`Policy.RedecidingIsSettledExactly`, `Policy.RedecidingExample`).
- 0032 fails when two extractions cite different copies of one document under one key
  (`KeeperMerge.FailsExactlyOnCollision`).
- 0054 fails when one request pinned a skill on two plans (`RunRoot.UpgradeFailsExactlyOnRepinned`). Its
  downgrade is, as its own comment says, no perfect inverse of a re-planned run: the lemmas say exactly
  when it is one (`RunRoot.UnrootedRestoresExactly`, `RunRoot.PlannedTwiceExample`). It fails when one
  document was acquired for two work orders that name one request (`RunRoot.DowngradeFailsExactly`).
- 0034 down forgets a budget that 0034 up overwrote (`WordBudgets.StatingUndoneExactly`, `WordBudgets.StatingExample`).
- Cleaning an attribute twice can shorten it by a space (`Framing.AttributeIdempotentExactly`,
  `Framing.AttributeExample`).
- "Longest phrase wins" can fail for row labels: the code measures a concept by its longest name, not by
  the name it found (`Tables.LongestPhraseExample`, `Tables.LongestWinsExactly`,
  `Tables.LongestAlwaysWinsExactly`).

## Model

| member | source | states |
|---|---|---|
| Untrusted.MatchIsDelimiter | src/aer/agents/untrusted.py:39 | A search at one position finds a match of length n exactly when the first n characters are one delimiter: `<`, an optional slash, spaces, the name in any casing, a word boundary, no `>` up to the closing `>`. |
| Untrusted.PassedOverStaysUnmatched | src/aer/agents/untrusted.py:97 | A `<` the leftmost scan passed over starts no delimiter in the output either, whatever was escaped behind it. |
| Untrusted.UnmatchedAt | src/aer/agents/untrusted.py:97 | No position of the output starts a delimiter. |
| Untrusted.NeutraliseLeavesNoDelimiter | src/aer/agents/untrusted.py:81-97 | No stretch of the neutralised text, at any position and of any length, is a delimiter. |
| Untrusted.UnchangedExactlyWhenFree | src/aer/agents/untrusted.py:81-97 | A text passes unchanged if and only if it contains no delimiter. |
| Untrusted.NeutraliseIsIdempotent | src/aer/agents/untrusted.py:81-97 | Neutralising twice is neutralising once. |
| Untrusted.UnescapeUndoesMarks | src/aer/agents/untrusted.py:92-97 | Escaping any selection of angle brackets is undone by reading the escapes back, whatever escapes the text held already. |
| Untrusted.NeutraliseDeletesNothing | src/aer/agents/untrusted.py:92-97 | Read back, the output and the input are the same text: escaped, never cut. |
| Framing.AttributeIsTidy | src/aer/agents/untrusted.py:100-107 | A cleaned attribute has no quote, angle bracket or newline, single spaces only, and at most 200 characters. |
| Framing.AttributeIsCleaned | src/aer/agents/untrusted.py:100-107 | A field is carried as its words in their order, quotes made apostrophes and angle brackets parentheses, single-spaced, cut at 200 characters; a field with nothing to clean is carried as it is. |
| Framing.AttributeIdempotentExactly | src/aer/agents/untrusted.py:106-107 | Cleaning a cleaned attribute changes it exactly when the joined words are longer than 200 characters and the 200th is a space. |
| Framing.AttributeExample | src/aer/agents/untrusted.py:106-107 | Such a value. |
| Framing.BodyEndsAtClose | src/aer/agents/untrusted.py:78-97 | The first literal newline and closing tag after a delimiter-free body is the one the block ends with. |
| Framing.BlockReadBack | src/aer/agents/untrusted.py:74-78 | A reader that takes the header to the first `>` and the body to the first literal closing line gets back one block and what follows it: the source's own id under id, its tier under tier, a title exactly when it has a non-empty one, each as it is where there is nothing to clean, and its text with nothing deleted. |
| Framing.ReadWrap | src/aer/agents/untrusted.py:67-78 | Round trip: for any list of sources and any texts the reader recovers from the wrapped string, for each source in order, what its block carries of it, field by field. |
| Framing.WrapTellsSourcesApart | src/aer/agents/untrusted.py:67-97 | Two lists have the same rendering if and only if they were the same quotations, and then carried the same texts, escapes read back. |
| Policy.DecideAssumptions | audit/driver/policy.py:258-318 | The two loops return the verdict of the specification: refuse at the first outstanding name the operator stated no value for, else supply the rest and amend what is out of its band. |
| Policy.FirstUnstatedIs | audit/driver/policy.py:265-277 | The name a refusal gives is the first outstanding one without a stated value. |
| Policy.StatedIsLast | audit/driver/policy.py:265-277 | Of several statements for one name the last in the list counts. |
| Policy.RefusalsCarryReasons | audit/driver/policy.py:92-376 | At every gate a verdict carries a stop reason exactly when it refuses; rows are supplied or amended only by an approval at the assumptions gate; the two gates without a policy are refused. |
| Policy.ReasonsAre | audit/driver/policy.py:92-376 | The reason given is the first thing, in the order of the checks, that stands against the gate. |
| Policy.ApprovedExactly | audit/driver/policy.py:92-376 | A gate is approved if and only if it shows what the audit asks: a filing among the sources, the expected sector, facts without load errors, an operator value for everything outstanding, a final draft with no section open, few enough lost, no look-ahead and no failed metric. |
| Policy.AmendedIsNearest | audit/driver/policy.py:279-302 | The amended value lies in the band, and every other point of the band is further from what was proposed. |
| Policy.OutOfBandExactly | audit/driver/policy.py:279-302 | A row is amended exactly when it is a number, a percentage read as a hundredth of it, beyond a bound of its band. |
| Policy.BaseOfForecast | audit/driver/policy.py:279-302 | The band of a forecast name is that of what stands before its last `_y`. |
| Policy.WriteAllEffect | audit/driver/gates.py:164-179 | After the rows are written a name shows its last written row, or the row it had. |
| Policy.RedecidingIsSettledExactly | audit/driver/policy.py:258-318 | Deciding again over the written rows approves with nothing outstanding and nothing to supply; with nothing to amend exactly when every supplied value the operator stated was in its own band. |
| Policy.RedecidingExample | audit/driver/policy.py:258-318 | A decision that the one after it would amend: a stated beta of 3. |
| Policy.AmendedRowsSettle | audit/driver/policy.py:279-302 | A row written at the gate that was not outstanding is inside its band afterwards. |
| Platform.Runtime.Observe | audit/driver/executor.py:155-181 | One query: the worker may commit anything it lawfully can first, and what is then committed is what is seen. |
| Platform.LeftAloneKeeps | audit/driver/executor.py:155-181 | While only the worker moves, over any number of reads, no approval is written and the cap stays. |
| Platform.LatestSteps | src/aer/services/approvals.py:246-252 | The paused and the current step are the latest of their status in workflow order. |
| Platform.SameFingerprintExactly | audit/driver/executor.py:116-122 | A fingerprint changes exactly with the run's status, its number of steps, or the key, attempt or status of one. |
| Executor.WorkerExecutor.Start | audit/driver/executor.py:66-95 | A living worker is left alone, at once; a new one is waited for a second at a time until it reports health; failure is a process found dead or the whole start timeout. |
| Executor.TrackOne | audit/driver/executor.py:159-180 | One more observed step status keeps the invariant of `last_seen` and `timeline`. |
| Executor.WorkerExecutor.Follow | audit/driver/executor.py:159-180 | After a poll the timeline of every step attempt is the sequence of its observed statuses with immediate repetitions removed, and `running_since` names moments it was seen running. |
| Executor.WorkerExecutor.Look | audit/driver/executor.py:155-181 | One poll begins a round and keeps the watch true of every round so far. |
| Executor.WorkerExecutor.Compare | audit/driver/executor.py:198-200 | The second fingerprint of a round is of the state the next query reads, possibly another. |
| Executor.WorkerExecutor.Listen | audit/driver/executor.py:217-229 | Death is reported exactly when the unbroken run of missing health records is longer than the silence window; `silent_since` is where that run began. |
| Executor.WorkerExecutor.RanLongEnough | audit/driver/executor.py:182-187 | The kill condition holds exactly when the current step is the named one and was seen running, in some round of this advance, at least that long before. |
| Executor.WorkerExecutor.Poll | audit/driver/executor.py:155-230 | One round ends the advance exactly when the drill is due, a told job is overdue, a taken one stands still, or the worker is silent, in that order, and with that answer; otherwise it leaves what the loop keeps. |
| Executor.WorkerExecutor.Attend | audit/driver/executor.py:217-230 | The end of a round: the worker's health, and five seconds' rest. |
| Executor.WorkerExecutor.PollOn | audit/driver/executor.py:155-232 | The loop answers with the first round that has anything to end it, and times out only when none had and the time is up. |
| Executor.WorkerExecutor.Advance | audit/driver/executor.py:129-232 | Against a worker that moves between any two reads: the states read are one before the enqueue and then, in order, those of the account's rounds; no round before the last met any of the four exit conditions, and under a timeout none did; the result is the answer to the one the last round met; rounds begin when the loop wakes and while time is left; the timeline is the destuttered observation; the worker is stopped exactly by the drill; and after the first read one task is written, or nothing. |
| Gates.PolicyRulesCoherent | audit/driver/gates.py:217-254 | The audit's own policies meet what the gate clearing relies on. |
| Gates.PendingGateOf | src/aer/services/approvals.py:233-264 | The gate the paused step names in the first read, else the first undecided unconditional gate in the second. |
| Gates.PendingExactly | src/aer/services/approvals.py:233-264 | The gate asked about is the one the latest paused step names; where it names none, the plan until it is decided, then the final gate until it is. |
| Gates.RecordDecision | src/aer/services/approvals.py:97-172 | A decision is recorded exactly when the gate is undecided and in order; at most one per gate is kept by every call; nothing else changes. |
| Gates.RecordableExactly | src/aer/services/approvals.py:175-222 | A decision may be recorded exactly for an undecided gate of the order such that, of those before it, the plan is approved and each other one if it was decided at all. |
| Gates.ResealFinalGate | src/aer/services/gates.py:83-113 | The seal moves to the display as it stands, exactly for a sealed run that is neither executing nor finished. |
| Gates.Display | audit/driver/gates.py:141-158 | The display is built from one read; drift is reported exactly when a seal-checked gate's recorded hash, read afterwards, is another. |
| Gates.RowsWritten | audit/driver/gates.py:164-179 | The rows stored come to the policy's own rows written one after the other. |
| Gates.ConfirmAndRecord | audit/driver/gates.py:164-214 | At the assumptions gate the rows stored, each confirmed, are the verdict's written over the rows just read, and the recorded hash is that of the display built next with them. |
| Gates.DecideGate | audit/driver/gates.py:141-214 | The rest of the call on one unmoving state; against a moving one its answer is the drift, the refusal, the approval or the failure that its reads, in order, call for. |
| Gates.ReadPause | audit/driver/gates.py:85-112 | The reads before the decision: one when nothing is paused, and on an unmoving state the paused step and its pending gate. |
| Gates.Judge | audit/driver/gates.py:141-163 | The policy is asked about the display of the first read, exactly when the seal read next does not contradict it, with the counts of the read after. |
| Gates.ClearPendingGate | audit/driver/gates.py:85-214 | On a state nobody else moves the call does what one decision on that state does. Against any worker every answer is accounted for by the reads in their order: which gate was pending, whether it was decided, what was shown, what the policy said of it, whether the decision could be recorded; the seal moves only on an agreed pause over a decided final gate; and it writes once at most, at the end. |
| Gates.ClearedIsFounded | audit/driver/gates.py:160-214 | The approval a call adds rests on states the run was in: its hash is of a display built from one, and no other seal stood recorded in another. |
| Gates.ClearedMeans | audit/driver/gates.py:85-214 | A gate is cleared only for a paused run, at the gate it is paused at, undecided, in order and approved by the policy; the hash is of the display in that same state, at the assumptions gate with the verdict's rows written over the run's and every one confirmed, and equals the sealed hash wherever one was recorded. |
| Gates.WrittenRowsAre | audit/driver/gates.py:164-184 | Of every name the verdict states, the row stated last stands there approved; every other row is the one it was, approved; and there is none besides. |
| Gates.SecondCallRecordsNothing | audit/driver/gates.py:110-139 | On the state a cleared gate leaves, a second call records nothing for it. |
| Gates.ResealKeepsTheApprovalExactly | audit/driver/gates.py:113-126 | When the call reseals, the seal left is the hash the final approval was recorded under if and only if the display as it now stands still has the live hash of the pause; only the pause's own two hashes are compared. |
| Gates.ResealExample | audit/driver/gates.py:113-126 | A run the call reseals onto a hash nobody approved. |
| Gates.StaleReadAbsorbedExactly | src/aer/services/runs.py:202-220 | Between the two commits with which the worker takes a decided run the driver stops with a post-approval pause (or fails at a final gate it would reseal); after the second it finds nothing waiting. Nothing is written in either. |
| Gates.StaleReadExample | src/aer/services/runs.py:202-220 | Such a run, between the two commits. |
| Driver.ResumeRun | src/aer/services/resume.py:123-183 | A run is queued again exactly when its status admits it, or it is RUNNING and attested stranded; a refusal changes nothing. |
| Driver.ResumeStranded | audit/driver/run.py:405-436 | A RUNNING run is continued exactly on the evidence that nothing executes it: no worker record, or a record with nothing in flight and a step older than the interval; any other exactly if it is not over. |
| Driver.WaitForMovement | audit/driver/run.py:439-449 | True means that the last fingerprint read differs from the first and every one before did not; false that every one read was the same, for the whole wait; it looks every five seconds. |
| Driver.OnKilled | audit/driver/run.py:178-196 | After the drill the run either moved by itself, or stood still for three minutes and was then resumed exactly on evidence; an error means the worker did not start. |
| Driver.OnAwaiting | audit/driver/run.py:198-225 | Whatever is answered at a pause is the answer of one call about the gate, and a stop is the stop it gave. |
| Driver.OnBudgetStop | audit/driver/run.py:227-262 | Exactly: another budget's stop, or a second one, ends the drive with that scope; else a cap that can be raised upwards within the ceiling is raised and the run resumed in one write; else it is an error. |
| Driver.OnFailed | audit/driver/run.py:264-279 | Exactly: out of resumes when they are used up; else resumed whenever the status read next admits it; else an error. |
| Driver.OnDeadWorker | audit/driver/run.py:281-289 | Another worker is started and heard; the drive goes on exactly when the run moved within the wait. |
| Driver.React | audit/driver/run.py:178-295 | Every result leads to what the source does with it, on the evidence of what was read in between. |
| Driver.AnswersFit | audit/driver/run.py:178-295 | What answers a result fits the transition table; a raise is the first and upwards, a resume within the bound, a clearing the clearing of one gate. |
| Driver.FirstEnqueue | audit/driver/run.py:143-160 | For a run an earlier driver left, the worker is told exactly for a queued run not already queued again, or a stranded one resumed. |
| Driver.Open | audit/driver/run.py:137-160 | Before the loop the worker is started; a commissioned run is told, any other as above. |
| Driver.OnePass | audit/driver/run.py:161-295 | One advance and the reaction to it: the result is borne out by what the advance read, and the action answers that result; at most one kill, one raise and one decision, and one task queued exactly when the pass says so. |
| Driver.CountPass | audit/driver/run.py:138-140 | The counters stay what they count: raises, kills, resumes after failure, and drills that did not move. |
| Driver.ResumesPassTheBoundExactly | audit/driver/run.py:178-196 | Resumes pass their bound, and then by one, exactly when failures used up all that were allowed and the drill had to resume too. |
| Driver.ResumesPassTheBoundExample | audit/driver/run.py:178-196 | Such passes, along the loop's transition table. |
| Driver.Turn | audit/driver/run.py:161-295 | One turn keeps everything the loop keeps: bounds, table, counters, decisions, queued tasks, and the evidence of every pass. |
| Driver.TracedAfter | audit/driver/run.py:161-295 | A pass more leaves the evidence of the passes before it as it was, and begins where they ended. |
| Driver.GoRound | audit/driver/run.py:161-297 | The loop ends with the first pass that ends it, after forty at most, and with its reason. |
| Driver.Drive | audit/driver/run.py:137-305 | In every interleaving with the worker: at most 40 passes, each following the table and each borne out, result and action, by what was read until it was over; the cap raised at most once and only upwards; one kill at most; resumes bounded, and used up when that is the reason; at most one decision per gate, each resting on a state the run was in; one task queued per pass that says so, the first as the run was found; the last pass's reason is the drive's, and there is none exactly when the run was last seen finished or cancelled. |
| Driver.AtMostSevenCleared | audit/driver/gates.py:217-254 | A whole drive clears at most the seven gates that have a policy, each once. |
| Driver.StalePassIsHarmless | audit/driver/run.py:217-221 | Over a pass that met a stale pause approvals and cap stay, and but for the task it may have queued first every state read is what the worker made of the one before, seals included; over the next pass no task is queued. |
| Ledger.Book.Record | audit/ledger.py:84-98 | One line appended to its own list; the recorded total grows by the amount. |
| Ledger.Book.SumOf | audit/ledger.py:100-101 | The total of the lines. |
| Ledger.Book.Read | audit/ledger.py:103-108 | The reading totals the platform's spend and both lists. |
| Ledger.Book.AssertRoom | audit/ledger.py:110-121 | A stage is admitted exactly when what it needs still fits under the ceiling. |
| Ledger.CeilingHolds | audit/ledger.py:110-121 | No sequence of guarded drives passes the ceiling, if each run keeps to its cap and no cap exceeds the amount the guard asked for. |
| Ledger.GuardCoversExactly | audit/driver/run.py:96-98 | That proviso is exact: the guard covers a drive if and only if its cap is at most the amount it could be raised to. |
| Ledger.DrivenRunIsCovered | audit/driver/run.py:96-98 | What the drive loop keeps is what the ledger asks of a run: started under a cap at most the guarded amount, a driven run stays within its cap and leaves the total under the ceiling. |
| ResetResearch.ResearchTables | src/aer/cli.py:469-484 | The closure ends with exactly the tables that have a foreign-key path to the run root, in reversed metadata order. |
| ResetResearch.OrderIsChildrenFirst | src/aer/cli.py:483-484 | Whatever refers to a table, other than itself, is listed before it. |
| ResetResearch.NothingPointsAt | src/aer/cli.py:518-520 | When a table's turn comes nothing refers to it any more. |
| ResetResearch.EmptyingKeepsIntegrity | src/aer/cli.py:518-520 | Emptying a table nothing points into leaves every remaining reference resolving. |
| ResetResearch.Database.Reset | src/aer/cli.py:518-520 | No DELETE is refused, every reference resolves after every one, and at the end exactly the run's tables are empty and all others untouched. |
| ResetResearch.ResetResearch | src/aer/cli.py:469-520 | The command as a whole, for any schema whose metadata order is topological apart from self-references. |
| ResetResearch.KeptTablesPointOnlyAtKept | src/aer/cli.py:476-481 | No table outside the reset has a reference into it. |
| KeeperMerge.BeforeExactly | migrations/versions/0032_one_source_record_per_artefact_per_request.py:50-64 | Of two documents the unquarantined ranks first, then the stronger tier, the earlier retrieval, the lower id. |
| KeeperMerge.KeeperExists | migrations/versions/0032_one_source_record_per_artefact_per_request.py:50-64 | Every document's part has a keeper. |
| KeeperMerge.KeptAreTheLeast | migrations/versions/0032_one_source_record_per_artefact_per_request.py:47-64 | The documents left are exactly those no document of the same request and artefact ranks before by (quarantined, tier, retrieval, id). |
| KeeperMerge.Store.Upgrade | migrations/versions/0032_one_source_record_per_artefact_per_request.py:67-77 | It goes through exactly when no repointed table violates its key, and then leaves the keepers and the repointed rows; otherwise nothing changed. The duplicate set is the same at every statement. |
| KeeperMerge.MergeIsSound | migrations/versions/0032_one_source_record_per_artefact_per_request.py:67-77 | Every reference that resolved still resolves, to the keeper of the document it cited; no row is lost or otherwise altered. |
| KeeperMerge.SecondRunChangesNothing | migrations/versions/0032_one_source_record_per_artefact_per_request.py:67-74 | A second run finds nothing to do. |
| KeeperMerge.FailsExactlyOnCollision | migrations/versions/0032_one_source_record_per_artefact_per_request.py:68-73 | The migration fails if and only if two keyed rows of one table cite different copies of one document. |
| KeeperMerge.CollisionExample | migrations/versions/0032_one_source_record_per_artefact_per_request.py:68-73 | Such a database. |
| RunRoot.Database.Upgrade54 | migrations/versions/0054_a_work_order_is_the_run_root.py:123-216 | The backfill: one work order per request, every pointer copied, pins moved two hops; it fails exactly on the pins' new unique key. |
| RunRoot.Database.Downgrade54 | migrations/versions/0054_a_work_order_is_the_run_root.py:219-309 | Pins to the latest plan, then rows without a request deleted, then the work orders dropped; or, exactly when a unique key put back does not hold, an error that changes nothing. |
| RunRoot.Database.Upgrade64 | migrations/versions/0064_the_run_root_is_the_only_place_the_run_lives.py:59-87 | The mirrored columns dropped; refused exactly when a request has no work order. |
| RunRoot.Database.Downgrade64 | migrations/versions/0064_the_run_root_is_the_only_place_the_run_lives.py:90-166 | The columns refilled from the work order, runs without a mandate and their rows deleted, the pointers refilled. |
| RunRoot.RootedIsSound | migrations/versions/0054_a_work_order_is_the_run_root.py:140-183 | After 0054 every pointer is an existing work order and both unique keys of a source document still hold. |
| RunRoot.BackfilledOrders | migrations/versions/0054_a_work_order_is_the_run_root.py:129-138 | Every request gets a work order of its own id and no other is made: a research order on its company, with its dates, bounds and status. |
| RunRoot.UpgradeFailsExactlyOnRepinned | migrations/versions/0054_a_work_order_is_the_run_root.py:205-211 | 0054 goes through if and only if no request pinned one skill on two of its plans. |
| RunRoot.RepinnedExample | migrations/versions/0054_a_work_order_is_the_run_root.py:205-211 | Such a database. |
| RunRoot.UnrootedRestoresExactly | migrations/versions/0054_a_work_order_is_the_run_root.py:219-239 | 0054 down undoes 0054 up if and only if every pin hung off its request's most recent plan. |
| RunRoot.PlannedTwiceExample | migrations/versions/0054_a_work_order_is_the_run_root.py:223-239 | A run planned twice whose pin neither downgrade brings back to its own plan. |
| RunRoot.PinsStayUnique | migrations/versions/0054_a_work_order_is_the_run_root.py:227-239 | One pin per skill of a work order is one per skill of the plan it returns to: the pins never fail the downgrade. |
| RunRoot.DowngradeFailsExactly | migrations/versions/0054_a_work_order_is_the_run_root.py:249-283 | The downgrade fails if and only if one document was acquired for two work orders whose rows name one request. |
| RunRoot.DowngradeGoesThrough | migrations/versions/0054_a_work_order_is_the_run_root.py:249-283 | It does not where a request is its own work order: straight after 0054, or after 0064 and its downgrade. |
| RunRoot.SharedDocumentExample | migrations/versions/0054_a_work_order_is_the_run_root.py:249-283 | Rows the upgraded keys admit and the downgrade fails on. |
| RunRoot.PinsReturnToTheLatestPlan | migrations/versions/0054_a_work_order_is_the_run_root.py:227-239 | No pin is lost: each returns to a plan of its own request, at least as recent as its own. |
| RunRoot.RestoredExactly | migrations/versions/0064_the_run_root_is_the_only_place_the_run_lives.py:59-166 | 0064 down after up gives back exactly the rows of the runs with a mandate, if and only if the mirrored columns agreed when dropped. |
| RunRoot.RootedIsMirrored | migrations/versions/0054_a_work_order_is_the_run_root.py:125-141 | What 0054 backfills does agree. |
| RunRoot.FourMigrationsRoundTrip | migrations/versions/0064_the_run_root_is_the_only_place_the_run_lives.py:59-166 | Both up, both down: the original rows, if and only if every pin hung off the latest plan. |
| RunRoot.NothingLeftToDelete | migrations/versions/0054_a_work_order_is_the_run_root.py:291-296 | After 0064 down, 0054 down deletes no row for want of a request. |
| WordBudgets.ScaledIsNearest | migrations/versions/0045_word_budgets_scaled_to_the_observed_overrun.py:38-54 | The scaled budget is within half a word of 1.45 times the budget, a half going away from nought; scaled down likewise of the quotient. |
| WordBudgets.UnscaleUndoesScale | migrations/versions/0045_word_budgets_scaled_to_the_observed_overrun.py:38-54 | Scaling by 1.45 with rounding and dividing back with rounding is the identity on every integer, the seeded ones or not. |
| WordBudgets.ScaleUndoesUnscaleExactly | migrations/versions/0045_word_budgets_scaled_to_the_observed_overrun.py:38-54 | The other order is the identity exactly on scaled numbers. |
| WordBudgets.Rebuild | migrations/versions/0039_financial_tables_read_across_periods.py:90-95 | The loop over the properties builds the specified contract. |
| WordBudgets.RebuildKeepsTheRest | migrations/versions/0039_financial_tables_read_across_periods.py:86-95 | Whatever the contract, the rebuild adds at most the one field and keeps every other one, in its order. |
| WordBudgets.SeriesFollowsProse | migrations/versions/0039_financial_tables_read_across_periods.py:86-95 | In a contract with prose and without the series, the series stands directly after the prose and nothing else moves. |
| WordBudgets.Definitions.Upgrade34 | migrations/versions/0034_every_section_states_its_length.py:50-58 | The statements together give every built-in seeded section its budget and touch no other row. |
| WordBudgets.Definitions.Downgrade34 | migrations/versions/0034_every_section_states_its_length.py:61-69 | They take the budget of every built-in seeded section away. |
| WordBudgets.Definitions.Upgrade39 | migrations/versions/0039_financial_tables_read_across_periods.py:79-112 | One second version per key appended, or an error that leaves everything as it was. |
| WordBudgets.Definitions.Downgrade39 | migrations/versions/0039_financial_tables_read_across_periods.py:115-153 | Refused exactly when a stored report cites a second version; else exactly those versions go. |
| WordBudgets.RevisedExactly | migrations/versions/0039_financial_tables_read_across_periods.py:79-112 | 0039 goes through if and only if the keys are distinct and each has its first version and not its second. |
| WordBudgets.RevisedAppends | migrations/versions/0039_financial_tables_read_across_periods.py:97-112 | Then the old rows stand untouched in front of one second version for each key. |
| WordBudgets.RevisedThenDeleted | migrations/versions/0039_financial_tables_read_across_periods.py:142-153 | 0039 down deletes exactly what 0039 up inserted. |
| WordBudgets.ScalingUndone | migrations/versions/0045_word_budgets_scaled_to_the_observed_overrun.py:38-62 | 0045 down restores every row of any table. |
| WordBudgets.StatingUndoneExactly | migrations/versions/0034_every_section_states_its_length.py:50-69 | 0034 down restores every row if and only if no seeded section had a budget of its own. |
| WordBudgets.StatingExample | migrations/versions/0034_every_section_states_its_length.py:50-69 | A section whose own budget is forgotten. |
| WordBudgets.Definitions.UpAndDown | migrations/versions/0045_word_budgets_scaled_to_the_observed_overrun.py:57-62 | The chain 0034, 0039, 0045 up and down in reverse runs through exactly when the keys are revisable, and gives back every row exactly when no seeded section had a budget before. |
| WordBudgets.BothVersionsCarryTheBudget | migrations/versions/0045_word_budgets_scaled_to_the_observed_overrun.py:38-45 | After the three upgrades both versions of a revised section carry one and the same scaled budget. |
| WordBudgets.RevisedAreSeeded | migrations/versions/0039_financial_tables_read_across_periods.py:79-82 | Every key 0039 revises is one 0034 seeds. |
| Facts.NotAfterExactly | audit/scoring/facts.py:176 | A row sorts before another unless it was filed later, or on one day under a higher accession number. |
| Facts.SortEnds | audit/scoring/facts.py:175-177 | The last and first row of the stable sort by (filed, accession) are the last of the greatest and the first of the least. |
| Facts.Group | audit/scoring/facts.py:157-174 | Each year's rows are the admissible observations whose period ends in it, in document order. |
| Facts.Merge | audit/scoring/facts.py:175-180 | A unit replaces the choice of a year exactly when its latest filing is strictly later. |
| Facts.Pick | audit/scoring/facts.py:149-181 | For every year the loop over units returns the specified choice, or none. |
| Facts.BestIsExactlyTheChoice | audit/scoring/facts.py:149-181 | The answer is c if and only if c is the latest row of the first unit whose latest filing date no row of any unit exceeds, with that unit's original. |
| Facts.YearAppearsExactly | audit/scoring/facts.py:158-180 | A year appears if and only if an accepted unit has an admissible observation of it. |
| Facts.NoHindsight | audit/scoring/facts.py:161-162 | The answer is the one the document as it stood at the as-of date would have given. |
| Facts.LaterNeverLoses | audit/scoring/facts.py:149-181 | A later as-of date drops no year and lowers no chosen filing date. |
| Facts.ObservedExactly | audit/scoring/facts.py:240-266 | A choice is reported exactly when its latest filing has a value: that filing's end, value, date and accession number, and beside them what the original said, if there is another. |
| Facts.EarliestUsableTag | audit/scoring/facts.py:240-251 | The tag that answers is the first in the list with a usable value for that year. |
| Facts.ReadTag | audit/scoring/facts.py:245-266 | One tag adds its usable years that no earlier tag answered, and disturbs nothing. |
| Facts.ReadConcept | audit/scoring/facts.py:240-266 | A concept's observations are exactly the answers of its tag list, one per year. |
| Facts.BuildTruth | audit/scoring/facts.py:237-266 | The basket holds at most one observation per concept and year, each the answer of its concept's own tags. |
| Facts.OneBasket | audit/scoring/facts.py:237-267 | Any two readings of one document hold the same observations. |
| Facts.FiscalYearIsTheEnds | audit/scoring/facts.py:170-174 | An observation's fiscal year is the year its period ends in, and it was filed by the as-of date. |
| Facts.FiledIsFirst | audit/scoring/facts.py:130-133 | The figure filed for a concept and year is that of its first observation. |
| Facts.FiguresAre | audit/scoring/facts.py:191-225 | Each figure a derivation reads is the one filed under its own name, for the year or the year before. |
| Facts.DerivedMeans | audit/scoring/facts.py:200-224 | A derived figure is v exactly when v solves its defining equation: share times whole is part, growth carries last year into this one, free cash flow plus capital spending is operating cash. |
| Facts.DeriveYear | audit/scoring/facts.py:200-224 | One year's figures are added, and no other year's touched. |
| Facts.Derive | audit/scoring/facts.py:191-225 | Every year's derived figures are recorded exactly when defined, and no others. |
| Match.Periods | audit/scoring/facts.py:138-139 | The basket's years, once each and ascending. |
| Match.EndingOn | audit/scoring/match.py:139-144 | A day is outside exactly when no observation ends on it. |
| Match.HintIsThePeriod | audit/scoring/match.py:133-145 | A fiscal year leaves that year, a day the year of the first observation that ends on it, anything else every year; outside is exactly a day no observation ends on. |
| Match.Candidates | audit/scoring/match.py:148-164 | The two loops collect the specified candidates. |
| Match.CandidatesAre | audit/scoring/match.py:148-164 | A candidate is a value the basket has for one of the concepts in an observed year, of those the period leaves. |
| Match.ValueIs | audit/scoring/facts.py:130-136 | The value is what was filed first, and only where nothing was, what is derived under that name. |
| Match.FiscalYearDecides | audit/scoring/match.py:137-155 | With a fiscal year every candidate has that year, and every verdict that names a year names it. |
| Match.NoPeriodLeavesAll | audit/scoring/match.py:133-164 | With no period, or one unread, every value the basket has for one of the concepts is a candidate. |
| Match.EarlierComesBefore | audit/scoring/match.py:157-163 | Candidates are listed in the order of the concepts, and of the years for each. |
| Match.LeastErrorIs | audit/scoring/match.py:117-130 | The error kept is the least over the readings that are not zero. |
| Match.RelativeError | audit/scoring/match.py:117-130 | The loop computes it. |
| Match.FindNearest | audit/scoring/match.py:193-197 | The loop keeps the first candidate with the least error. |
| Match.FindRead | audit/scoring/match.py:183-192 | The loop returns the first candidate the numeral reads as. |
| Match.Classify | audit/scoring/match.py:167-240 | The ladder of early returns decides as its specification. |
| Match.ContradictedExactly | audit/scoring/match.py:167-225 | "Contradicted" if and only if the numeral is not set aside, names a checkable concept and a period, reads as no candidate, and differs by more than two per cent from every reading of every non-zero candidate, of which there is one. |
| Match.MatchedExactly | audit/scoring/match.py:168-192 | "Matched" if and only if it is not set aside and reads as some candidate of its concept; unhinted, if and only if it has no usable concept, is at least one in size and reads as anything in the basket. |
| Match.ApproxExactly | audit/scoring/match.py:193-208 | "Approx" if and only if it reads as no candidate but lies within two per cent of some reading of a non-zero one. |
| Match.VerdictNamesTheNearest | audit/scoring/match.py:193-217 | The figure named beside "approx" or "contradicted" is a candidate and none is nearer. |
| Match.VerdictNamesTheFirst | audit/scoring/match.py:183-217 | Of several figures that would do the verdict names the first: none of an earlier concept, nor of an earlier year for the same one, reads as the numeral, or is as near. |
| Match.OrderDecidesNothing | audit/scoring/match.py:130-164 | The order of the basket changes no classification. |
| Match.OneDocumentOneVerdict | audit/scoring/match.py:167-240 | Two readings of one archived document judge every numeral alike. |
| Match.SummaryIsAPartition | audit/scoring/match.py:247-262 | Every numeral is counted under one kind; the contradicted share is absent exactly with nothing checkable, else lies in [0, 1] and is contradictions over checkables; the contradictions listed are as many as counted. |
| Match.SummaryLists | audit/scoring/match.py:247-262 | Listed are exactly the contradictions, and the first forty of the approximations. |
| Variance.ByKey | audit/scoring/variance.py:34-47 | Each key's group is its rows in recorded order. |
| Variance.GroupsPartition | audit/scoring/variance.py:34-47 | Each row lies in its own key's group as often as in the run, and in no other. |
| Variance.GroupKeepsOrder | audit/scoring/variance.py:34-47 | Grouping commutes with appending rows. |
| Variance.DiffersExactly | audit/scoring/variance.py:77-84 | A shared key differs if and only if its multisets of (value, unit) or its sets of formulas differ; the row-count test adds nothing. |
| Variance.ValuesAre | audit/scoring/variance.py:50-61 | A (value, unit) pair is among the values exactly when some row has it, and there are as many values as rows. |
| Variance.ShownExactly | audit/scoring/variance.py:83-90 | A formula is shown as changed exactly when it is not empty and only one run's rows have it. |
| Variance.RemaindersBalance | audit/scoring/variance.py:79-82 | The one-sided remainders differ by what the row counts differ by. |
| Variance.CompareShared | audit/scoring/variance.py:72-101 | The loop's counters and list. |
| Variance.ExamplesExactly | audit/scoring/variance.py:91-99 | The examples pair what only the first run has with what only the second has, as many as the shorter side has and three at most; there is none exactly when one run's values include the other's. |
| Variance.CompareRuns | audit/scoring/variance.py:68-151 | The calculation part of the report, its lists cut where the source cuts them. |
| Variance.EveryKeyIsAccountedFor | audit/scoring/variance.py:72-148 | Shared keys and keys only in the first run are all its keys; the report lists every one of the latter, or forty where there are more. |
| Variance.ListedExactly | audit/scoring/variance.py:84-101 | A shared key is listed exactly when the runs disagree on it, with its own difference; identical and differing keys together are the shared ones. |
| Variance.ExchangingTheRuns | audit/scoring/variance.py:76-101 | Exchanging the runs keeps the comparison and mirrors the list, examples included; the two counts of unmatched rows differ by exactly the rows the one run has more. |
| Variance.OrderDecidesNothing | audit/scoring/variance.py:50-61 | The whole report is the same however either run recorded its rows. |
| GateWaits.EarlierRunsDoNotCount | audit/scoring/platform_report.py:51-71 | What was logged before the newest commissioning does not count, and no second one stands in what is kept. |
| GateWaits.CollectWaits | audit/scoring/platform_report.py:157-178 | The loop with its pending pause collects the specified waits. |
| GateWaits.PairedExactly | audit/scoring/platform_report.py:163-177 | A wait is exactly a pause and a decision with neither a pause nor a decision between them. |
| GateWaits.WaitsArePairs | audit/scoring/platform_report.py:166-176 | Each wait reports the gate, verdict and findings of its decision and the time since its pause. |
| GateWaits.WaitsAreDisjoint | audit/scoring/platform_report.py:163-177 | The waits follow one another; none shares a pause and none overlap. |
| GateWaits.WaitsFitTheWallClock | audit/scoring/platform_report.py:147-178 | With times that do not go back, no pause before the commissioning and no decision after the last finish, the waits total between nothing and the wall clock. |
| GateWaits.TrimmedStartsAtZero | audit/scoring/platform_report.py:65-71 | A trimmed log starts with its commissioning. |
| Numerals.WindowIsOneSentence | audit/scoring/numerals.py:383-389 | The window has no sentence break on either side, and each side runs to the end of the text or right up to a break. |
| Numerals.ConceptFrom | audit/scoring/numerals.py:406-452 | The loop over the phrase table returns the specified attribution. |
| Numerals.BehindExactly | audit/scoring/numerals.py:419-425 | A phrase offers itself from before the numeral exactly by its last occurrence, within reach and with no figure between, at that distance and with its length. |
| Numerals.AheadExactly | audit/scoring/numerals.py:426-446 | From behind it exactly by its first occurrence, within reach and no figure between: as the label, ahead of all, or else three further off and with no figure of its own. |
| Numerals.BlockedExactly | audit/scoring/numerals.py:448-451 | An attribution is blocked exactly by a blocking phrase in the last forty-five characters before or the first forty behind. |
| Numerals.AttributedExactly | audit/scoring/numerals.py:406-452 | A concept is attributed if and only if the least candidate of the sentence is one of its phrases and nothing blocks it. |
| Numerals.LeastIsExactly | audit/scoring/numerals.py:418-446 | The candidate kept is the least by (distance, longer phrase, name) of all admissible ones, and no other. |
| Numerals.TableOrderDecidesNothing | audit/scoring/numerals.py:418-447 | Reordering or repeating phrase-table entries changes no attribution. |
| Numerals.NoFigureBetween | audit/scoring/numerals.py:406-447 | Every attribution rests on one phrase of that concept in the numeral's sentence, within reach, with no figure between; a phrase ahead that is not the label right behind the numeral has no figure of its own. |
| Numerals.TheAdjacentLabelWins | audit/scoring/numerals.py:430-443 | A label right behind the numeral wins over everything else; of several the longest. |
| Numerals.TheNearestWins | audit/scoring/numerals.py:425-446 | No admissible phrase is nearer than the one chosen, nor as near and longer, nor as near and as long with a name earlier in the alphabet. |
| Text.PrecedesExactly | audit/scoring/numerals.py:425 | Names compare by the first place they differ at. |
| Tables.SpanIsTheLine | audit/scoring/numerals.py:510-513 | The span cut out around a position is that line of the text, and what lies above it the lines before. |
| Tables.FindHeader | audit/scoring/numerals.py:518-531 | The backward scan returns the header of the line-list reading, and ends. |
| Tables.RowExactly | audit/scoring/numerals.py:513-524 | A line is a table row exactly when its first character that is no spacing is a bar. |
| Tables.SeparatorExactly | audit/scoring/numerals.py:249 | A separator line is one that, without its first bar, the pattern matches in any way. |
| Tables.HeaderExactly | audit/scoring/numerals.py:520-531 | The header is the line directly above the nearest separator in the unbroken run of rows above, if and only if there is one. |
| Tables.OneBodyOneHeader | audit/scoring/numerals.py:518-531 | Inside one table body the header does not change. |
| Tables.ColumnHoldsThePosition | audit/scoring/numerals.py:516-517 | Counting bars up to a position gives the cell the position lies in. |
| Tables.CellBetweenBars | audit/scoring/numerals.py:516 | What stands between two bars, or a bar and an end of the line, is the cell of its number. |
| Tables.LabelAndHeaderCell | audit/scoring/numerals.py:532-536 | A row's label is the text between its first two bars in lower case; a column's header cell what stands behind as many bars. |
| Tables.PeriodExactly | audit/scoring/numerals.py:547-551 | The period is the header cell's own, then that of the text before the numeral, then the row's. |
| Tables.LabelConcept | audit/scoring/numerals.py:537-540 | The loop over the phrase table. |
| Tables.ReadCell | audit/scoring/numerals.py:532-552 | A cell under a header gives the specified concept and period, or is set aside as qualified. |
| Tables.LabelledIs | audit/scoring/numerals.py:537-540 | No phrase in the label is longer than the longest name of the concept taken. |
| Tables.LongestWinsExactly | audit/scoring/numerals.py:537-540 | For one table: the longest phrase names the row if and only if the concept taken before the first longest phrase, if any, has no name that long, or has one in the label. |
| Tables.LongestAlwaysWinsExactly | audit/scoring/numerals.py:537-540 | Under every order of the table the longest phrase names the row if and only if every concept in the label with a name that long anywhere has one in the label. |
| Tables.LongestPhraseExample | audit/scoring/numerals.py:537-540 | A label the longest phrase does not name: a concept taken by a short name is defended by its long one. |
| Tables.TableHints | audit/scoring/numerals.py:502-552 | The reader over the text agrees with the reader over its lines. |
| Tables.OneColumnOneHeader | audit/scoring/numerals.py:532-552 | Two numerals in one column of one table body are read under one header cell: both qualified by it, and both given its period. |

## Left out

- Decimal and floating-point rounding: figures, money and times are exact reals; only the rounding of the word budgets is modelled, and there without the cast to a 32-bit integer.
- Unicode: letters, digits and spaces are ASCII; case folding beyond it and non-ASCII spaces are not modelled.
- The word-list patterns of the numeral reader (qualified, change, ratio, next item) and the period reader: predicates and functions the results hold for whatever they are.
- `extract_numerals` and `_compatible`: the set-aside patterns and the unit checks around one numeral are a ladder of independent tests.
- The platform's own reading of a figure and its list of readings: parameters; the list is taken to be positive.
- The phrase, tag and concept tables of the scorer: parameters, so that the results hold for any.
- The final sort of the basket: nothing proved depends on it (`Facts.OneBasket`, `Match.OrderDecidesNothing`). The variance report takes its two sortings, of keys and of values, as parameters, and gives the changed formulas as a set.
- The parts of the variance report that read one field of each export, and the delta of assumptions.
- Missing keys in an archived document: an observation without an end or filing date is not represented.
- The workflow engine, the payload builders and the hash: a display is any function of the state and the hash any function of the display.
- The identity map of a database session: two reads in one session may differ in the model, as in two sessions.
- Rationales, findings, recorder files, screenshots, the readouts after a drive and the commissioning before it.
- The policies' findings that decide nothing: missing spine sections, the plan's estimate, prior research, duplicate peers, unmapped shares.
- Refusals of the assumption service itself: a proposed row is always written.
- `InlineExecutor`: the same calls in one process, without a worker to race.
- A clock reading of exactly zero, which the silence timer would take for none.
- Executor.WorkerExecutor.Stop: the signals to the worker process, the wait for it and the log file are not modelled; a stopped worker is one no longer launched.
- The moment within a statement at which a database checks a constraint, indexes, and columns no statement reads.
- 0054 and 0064: tables other than the pointer tables lose rows by cascade only through these.
- The record a reset appends to the audit log, and the count it carries.
- Total step cost in the platform report, which is keyed by step and so not conserved across retried attempts.
- Baseline runs record spend without asking the guard and are outside `Ledger.CeilingHolds`.
- Executor.WorkerExecutor.Advance: a run that never stops moving ends in the timeout; that a worker takes a task eventually is not claimed.
- Driver.Drive: "at most one queued task" is not claimed, because a job that was never taken is queued again.
- Gates.ConfirmAndRecord: against a moving worker the rows are written over one read and hashed with the next; that both are the very state the rest of the call judged is claimed only when nobody else moves the run (`Gates.ClearedMeans`).
- Gates.ClearedIsFounded: likewise, the state the hash is of and the state whose seal agreed with it may be two different reads of the call.
- Driver.ResumesPassTheBoundExample: the passes are shown to follow the loop's table and counters; the worker that would produce them is not built.
- Match.OrderDecidesNothing: the name order of all basket concepts, used for numerals without a hint, is given.
