# Verification of the GENUT service

GENUT service assigns test generation jobs to workers, finds out which functions of a C or C++ product
changed, and queues jobs for them. This project models its core in Dafny and proves what the code
relies on. `dafny verify dfyconfig.toml` checks everything.

## What is modelled

**The scheduler** (`Database`, `Engine`, `AutoTick`, `Janitor`, `Services`). A `Session` holds the rows of
the tables, uncommitted over committed. The functions of the scheduler and the guarded service operations
are methods over it, each proved against a function from tables to tables. `Invariant` shows what every
one of them keeps. `Runs` puts them into one step relation with any interleaving, and proves mutual
exclusion by (project, name), the one-to-one holding of locks and workers, and that late finishes are
harmless. `Recovery` proves the restart and the draining of the queue, `Watchdog` the age bounds over
timed runs. `Holdings` makes the correspondence of workers, locks and running jobs one to one outside of a
restart, `Progress` shows that no queued job starves, `Intervals` how far apart the pairs of a product are, and
`Pitfalls` holds runs in which something unguarded goes wrong.

**The cancel registry** (`Registry`). Registering, cancelling and unregistering are steps under a mutex,
kills happen outside of it. Threads of workers, API and watchdog interleave in any way, and a restart may
happen at any time.

**Change detection** (`Masking`, `CParser`, `CGrammar`, `CDeclarators`, `CHeads`, `CRoundTrip`, `Reading`,
`Sources`, `SourceRoundTrip`, `ChangeDetection`, `DiffText`, `Patched`). The masking loops are checked against an
automaton, the automaton against a printer of sources from pieces, the extractor's loops against a recursive scan,
and the scan against a printer for an unbounded grammar; both printers together give a round trip from sources.
Edit scripts, the text of `git diff -U0` and the overlap with function spans lead to the theorem that nothing is
missed. `Reading` says position by position where the lines of the parser and of git part, and `Patched` what
holds when the file parsed is not the one of the commit.

**The automatic mode** (`Paths`, `Enqueue`, `AutoScan`, `AutoDiff`, `LostChanges`, `BaseProtocol`, `Overlap`,
`Setback`). The index of pending jobs refines a naive search of the job table. Scan and diff are folds of
requests over it, complete, sound and without duplicates. `AutoDiff.DiffRunMissesNothing` joins this with
change detection.
`BaseProtocol` follows the base commit through runs of the whole service, with whole diff runs among the
steps of `Runs`; `Overlap` lets the diff runs of one product overlap, as they can behind the watchdog.
`LostChanges` and `Setback` hold whole runs in which a change is not looked at again or the base goes back.

**The checkout** (`WorkTree`) and **the status pages** (`Merge`, `MergeOrder`, `Snapshots`, `Totals`).

## Assumptions

- Each database operation is one atomic transaction over the committed rows, which is the single-writer
  premise of the scheduler. Job ids are fresh and never used again.
- A step renames a product only if that is safe. The program does not check this;
  `Invariant.RenameKeepsExactly` says exactly when it is.
- Parser input is ASCII as far as letters and white space are concerned. For other letters the program's
  own assertion on identifiers can fail.
- The diff run parses the working tree, but the ranges are those of the commits. What is proved of it is about
  functions whose text in the tree is their text in the head; a product patch, or local edits that a rebase
  keeps, may also change them.
- A step takes one instant: all times it writes, as those of a job's start and of its lock, are the same,
  while the program reads the clock for each.
- Clocks do not go back in `Watchdog`, `Progress` and `Intervals`. The program gives every job the same priority;
  the queue order is proved for any priorities, `Progress.ServedInTurn` for jobs as the program makes them.
- No operation but queueing a pair writes the time of a product's last pair.

## Results about the code

- `Invariant.RenameKeepsExactly`, `Pitfalls.RenameBreaksExclusion`: renaming a product while one of its jobs
  runs can break exclusion; the condition is exact.
- `Runs.AtMostOnePair`, `Pitfalls.RerunBreaksPairs`: one preparation pair per product is kept all through a
  run exactly when every rerun is safe, which the program does not check.
- `Enqueue.AgreementIsKeptExactly`, `Enqueue.EmptyNameBreaksAgreement`: the index of pending jobs loses
  step with the table for an empty function name, and for a path whose normal form has a blank at an end.
- `Paths.NormalFormIsStable`, `Paths.NormalFormMayChange`: exactly those normal forms change when they are
  normalised again, because slashes are taken off after blanks.
- `Reading.NoEditMissedExactly`, `Reading.LoneReturnHidesChange`: reading a file turns a lone carriage return
  into a line break that git does not count; edits of a function are missed exactly when one stands in
  front of it.
- `Patched.NoHeadEditMissedExactly`, `Patched.PatchHidesChange`, `LostChanges.PatchedChangeIsLost`: lines that a
  product patch or a rebase has left in the working tree shift the functions below them away from the lines
  of the commit; edits are missed exactly when the number of line breaks in front of the function differs, and
  the base moves past them.
- `AutoDiff.LeftUnexaminedExactly`, `LostChanges.UnreadChangeIsLost`: the base moves past a modified file that
  could not be read, so that its change is not looked at again.
- `Overlap.ChainsExactly`, `Setback.BaseGoesBack`: when the watchdog gives up a diff run that goes on, its
  successor can end before it and the base go back; the bases chain exactly when every run that moves the
  base still finds the one it read. `Overlap.OnlyWatchdogOverlaps` shows that only the watchdog lets runs of a
  product overlap, and `Overlap.BaseIsExamined` that still nothing is skipped.
- `Registry.LaterProcessIsDoomedExactly`, `Registry.ProcessGetsThrough`: once the watchdog has forgotten a job,
  a worker that lives can register another process that nobody kills.
- `WorkTree.Checkout.RestorePreserved`, `WorkTree.LoseGenerated`: preserved files are lost exactly when git puts
  something of another kind in their place.
- `MergeOrder.CountsDependOnOrderExactly`: case counts, unlike all others, depend on the order of the variants
  exactly when these disagree; `Snapshots.DetailIsLive` has the consequence for the detail page, whose
  query leaves the order open.

## Model

| member | source | states |
|---|---|---|
| Masking.Mask | genut_service/services/c_function_parser.py:82-161 | The nested loops, with their look-back for continued directives, write exactly what a one-character-at-a-time automaton writes (code, directive with continuation, line and block comment, quoted literal with escapes). |
| Masking.MaskedKeepsLayout | genut_service/services/c_function_parser.py:83-86 | Masking keeps the length and every newline and changes a character only to a space. |
| CParser.SkipGroup | genut_service/services/c_function_parser.py:171-184 | The counting loop returns the position behind the bracket that closes the group, or the end of the text. |
| CParser.ScanTail | genut_service/services/c_function_parser.py:238-284 | The loop behind a parameter list accepts, rejects or runs out as the rules for qualifiers, initialiser lists and trailing return types say; it always moves on. |
| CParser.ScanAll | genut_service/services/c_function_parser.py:201-308 | The main loop, with every `continue` and the back-off to the rejected position, ends and computes the recursive scan. |
| CParser.ScanInOrder | genut_service/services/c_function_parser.py:286-302 | The character ranges reported are not empty, pairwise disjoint and increasing. |
| CParser.SpansInOrder | genut_service/services/c_function_parser.py:293-299 | Every span has 1 <= start <= end, and each starts no earlier than the one before it ends. |
| CParser.LineOf | genut_service/services/c_function_parser.py:192-199 | The bisection over the line starts gives one plus the number of newlines in front of the position. |
| CParser.MaskedLines | genut_service/services/c_function_parser.py:192-199 | Line numbers in the masked text are those of the source text. |
| CParser.ExtractFunctions | genut_service/services/c_function_parser.py:187-308 | The whole method computes the specification `Extracted` on every text. |
| Sources.MaskingIsPiecewise | genut_service/services/c_function_parser.py:82-161 | For every source printed from pieces (code, literals with escapes, closed or not, line and block comments, directives with continuation lines), masking leaves the code and the quotes and blanks all else, newlines apart. |
| CDeclarators.TailReadsParts | genut_service/services/c_function_parser.py:242-284 | Any sequence of qualifiers, attribute groups, trailing return type and constructor initialisers is read through to the body. |
| CDeclarators.TailRejectsMacro | genut_service/services/c_function_parser.py:271-278 | A macro call without a semicolon is given up no later than at the next called name, so that scanning goes on in front of it; exactly there if only names and white space come before. |
| CHeads.HeadOpens | genut_service/services/c_function_parser.py:60-70 | Namespaces, linkage blocks and class, struct, union and enum bodies are entered and not skipped. |
| CHeads.LinkageExactly | genut_service/services/c_function_parser.py:55-59 | A linkage head is `extern`, white space or none, and one literal, and nothing else is. |
| CHeads.NamespaceExactly | genut_service/services/c_function_parser.py:55-59 | A namespace head is the word alone or, behind white space, with a qualified name, and nothing else is. |
| CHeads.TypeBodyExactly | genut_service/services/c_function_parser.py:60-70 | A type body is opened if and only if one of the four keywords stands there as a word of its own and no `=`. |
| CHeads.InitialiserIsSkipped | genut_service/services/c_function_parser.py:213-225 | A brace behind an `=` is skipped as an initialiser, also behind a type keyword, if and only if the text is not the head of a linkage block. |
| CRoundTrip.ExtractorUndoesPrinter | genut_service/services/c_function_parser.py:187-308 | For every well-formed unit of the grammar (nested blocks, prototypes, initialisers, macros, definitions with balanced bodies) and every source whose masked text is the printed unit, exactly the definitions are reported, in order, with first and last lines. |
| CRoundTrip.ParsePrintRoundTrip | genut_service/services/c_function_parser.py:187-308 | The same on the printed units themselves, where they hold no quotes, comments or directives for masking to change. |
| SourceRoundTrip.SourceRoundTrip | genut_service/services/c_function_parser.py:187-308 | The same from whole sources: definitions, blocks, linkage heads and declarations with literals, comments and directives in bodies, in parameter lists and in front are read back to exactly the definitions and their lines. |
| SourceRoundTrip.EscapedQuoteStaysInside | genut_service/services/c_function_parser.py:148-152 | A closing brace behind an escaped quote in a literal does not end the function. |
| Reading.ReportedLinesAgreeExactly | genut_service/services/c_function_parser.py:311-314 | Reading a file translates newlines: the first line reported for a function is never in front of git's, and is git's if and only if no lone carriage return stands in front of the function; likewise for its last line. |
| Reading.NoEditMissedExactly | genut_service/services/auto_run_service.py:277-289 | Every edit that meets a line of the function, as git counts lines, hits its reported lines if and only if no lone carriage return stands in front of it; otherwise a real pair of files is missed. |
| Reading.FileChangesAreFound | genut_service/services/auto_run_service.py:277-289 | For a function with no lone carriage return in front of it: if its case-folded name is not reported, its lines stand in the old file word for word. |
| Reading.LoneReturnHidesChange | genut_service/services/c_function_parser.py:311-314 | A concrete file with lone carriage returns whose only function changes and is not reported. |
| DiffText.DiffNewLineRanges | genut_service/runner/git_ops.py:240-277 | The loop over the lines of the diff computes `TextRanges`, the ranges of all lines that match the hunk header pattern. |
| DiffText.HeaderIsRead | genut_service/runner/git_ops.py:265-280 | The header pattern read back from any printed hunk header gives its new side, with the count left out or not, whatever follows. |
| DiffText.ScriptIsReadExactly | genut_service/runner/git_ops.py:240-277 | Where no line has a break of its own inside, exactly the ranges of the script are read from its text, and in its order. |
| DiffText.DiffIsFound | genut_service/runner/git_ops.py:240-277 | For every edit script, no hunk of the diff text is overlooked, whatever the section headings and the source lines contain. |
| ChangeDetection.RangesOfDiff | genut_service/runner/git_ops.py:269-276 | The ranges of a script hunk by hunk; a pure deletion is anchored at max(c, 1). |
| ChangeDetection.MeetsExactly | genut_service/services/auto_run_service.py:286-286 | A line range is hit exactly when a hunk adds one of its lines or deletes directly behind one of them (a deletion at the top counting as line 1). |
| ChangeDetection.FoldsAlikeExactly | genut_service/services/auto_run_service.py:282-288 | Names count as one exactly if they differ in the case of letters only. |
| ChangeDetection.OverlappingFunctions | genut_service/services/auto_run_service.py:277-289 | The loop computes `Overlapping`. |
| ChangeDetection.OverlappingReports | genut_service/services/auto_run_service.py:277-289 | A case-folded name is reported exactly when a span of that name is hit, and once. |
| ChangeDetection.UntouchedBlock | genut_service/services/auto_run_service.py:277-289 | Lines that no range meets are a contiguous block of the old file, word for word, at the new position plus the lines removed minus the lines added by the hunks in front of it. |
| ChangeDetection.ChangeDetectionMissesNothing | genut_service/services/auto_run_service.py:277-289 | Parser, diff ranges and overlap together: an unreported function stands verbatim in the old text. |
| Patched.NoHeadEditMissedExactly | genut_service/services/auto_run_service.py:394-404 | The parser reads the working tree, the ranges are those of the head: for a function whose text both share, every edit meeting it in the head hits the lines reported for it if and only if the tree is in step with the head. |
| Patched.InStepPlainly | genut_service/services/auto_run_service.py:394-399 | Without lone carriage returns, being in step is having as many line breaks in front of the function in the tree as in the head. |
| Patched.HeadChangesAreFound | genut_service/services/auto_run_service.py:277-289 | A function in step that is not reported has its lines in the head stand in the old file word for word. |
| Patched.PatchHidesChange | genut_service/services/auto_run_service.py:394-404 | A concrete file on top of which a patch has put two lines: its only function changes in the commit, stands in the tree as in the head, and is not reported. |
| Database.Session.AddJob | genut_service/services/job_service.py:38-47 | A job gets the next id; nothing else changes. |
| Engine.TryAcquireLock | genut_service/scheduler/lock.py:11-23 | The lock is taken unless the product has one; then the transaction is rolled back. |
| Engine.ReleaseLock | genut_service/scheduler/lock.py:26-38 | A lock is deleted only if it is there and, when a job is named, belongs to it. |
| Engine.QueryCandidates | genut_service/scheduler/engine.py:80-88 | The queued GENUT jobs in (priority descending, submission, id) order. |
| Engine.PickEligible | genut_service/scheduler/engine.py:90-100 | The loop picks the first job of each free key, in queue order, up to the number of workers. |
| Engine.FirstComeFirstServed | genut_service/scheduler/engine.py:87-100 | Read off the columns: a job that waits is passed over for one of smaller priority, submitted later, or of greater id only if its key is in use or a job of its key in front of it was assigned. |
| Engine.ClaimedWereWaiting | genut_service/scheduler/engine.py:52-86 | Only waiting GENUT jobs of keys not in use are assigned, each to an idle worker of its own that is enabled. |
| Engine.ClaimConservesWork | genut_service/scheduler/engine.py:90-100 | No enabled worker stays idle while a job waits whose key is not in use and has no assigned job. |
| Engine.LockIsFree | genut_service/scheduler/engine.py:112-113 | When a picked job comes to its lock, the product has none: the attempt cannot fail. |
| Engine.ClaimJobs | genut_service/scheduler/engine.py:35-122 | The method assigns what `Claims` says, and the returned list is exactly what is committed; no rollback undoes an earlier assignment. |
| Engine.ClaimIsMaximal | genut_service/scheduler/engine.py:90-100 | A claim assigns exactly min(idle enabled workers, distinct free keys with a queued job), to distinct keys. |
| Engine.ClaimIsFair | genut_service/scheduler/engine.py:87-100 | A job that stays queued is outranked by every assigned one, unless its key is busy or taken by a job in front of it. |
| Engine.FinishJob | genut_service/scheduler/engine.py:125-157 | The terminal guard, the release of the job's own lock and the worker made idle, against `Finish`. |
| Progress.ServedInTurn | genut_service/scheduler/engine.py:80-122 | Over timed runs, nobody starves: whatever is submitted or done meanwhile, a job that no one cancels has been assigned after more claims than jobs waited in front of it, if the claims find its key free and a worker idle. |
| Progress.QueuedStays | genut_service/services/job_service.py:81-147 | A queued job stays as it is, and in the table, unless a claim takes it, preparation is started, it is finished, or the queue of its product is canceled. |
| Progress.RequestsStay | genut_service/scheduler/engine.py:102-157 | Over runs, what a job asks for never changes, and it does not go back to the queue. |
| AutoTick.EnqueueDueCycles | genut_service/scheduler/auto_tick.py:43-68 | Every due product gets its pair once, in some order; the ids returned are exactly the new ones. |
| AutoTick.EnqueueCycle | genut_service/scheduler/auto_tick.py:71-103 | No second pair while one is unfinished; the diff job gets the smaller id. |
| AutoTick.EnqueueCycleNow | genut_service/scheduler/auto_tick.py:106-115 | The same at once, committed; the ids returned are exactly the new ones. |
| AutoTick.ClaimPrepJobs | genut_service/scheduler/auto_tick.py:118-159 | Exactly the oldest queued preparation job of each free key is started; neither lock nor worker is touched. |
| AutoTick.FinishPrepJob | genut_service/scheduler/auto_tick.py:162-176 | The row is written whatever its status; a deleted job is left alone. |
| AutoTick.FinishRunWritesRow | genut_service/scheduler/auto_tick.py:250-283 | A body that was canceled leaves a canceled job, one that crashed a failed one with its message, any other a job done with its summary; no other row changes. |
| AutoTick.ProcessPrepJob | genut_service/scheduler/auto_tick.py:205-283 | A job that is not running is left alone; a cancel request counts before an error, an error before the summary. |
| AutoTick.LeftoversAreBusy | genut_service/scheduler/auto_tick.py:150-157 | If nothing can be started, the key of every queued preparation job is busy. |
| AutoTick.RunAutoPending | genut_service/scheduler/auto_tick.py:286-300 | The loop ends for every outcome of the bodies, leaves only preparation jobs whose key is busy, and returns how many left the queue. |
| Intervals.PairsAreApart | genut_service/scheduler/auto_tick.py:52-63 | Over timed runs, between a pair of a product and a later one that the clock queues lies at least its interval; the clock queues none for a product that is not active, or not in the automatic mode. |
| Intervals.DueGetsPair | genut_service/scheduler/auto_tick.py:43-103 | A product that is due and has nothing unfinished gets a diff and right behind it a scan. |
| Janitor.ReapStuckJobs | genut_service/scheduler/janitor.py:45-62 | The two loops fail exactly the stuck jobs and free exactly their locks and workers. |
| Janitor.MarkInterruptedJobs | genut_service/scheduler/janitor.py:65-82 | Every in-flight job becomes interrupted, no other row changes, and the count is right. |
| Janitor.ReleaseStaleLocks | genut_service/scheduler/janitor.py:109-128 | Exactly the locks of ended or lost jobs go, and exactly the workers of such jobs become idle. |
| Janitor.CleanIsClean | genut_service/scheduler/janitor.py:109-128 | From any tables, cleaning leaves no lock and no busy worker without a job that has not ended, and takes nothing from one that has not. |
| Janitor.RecoverAfterRestart | genut_service/scheduler/loop.py:164-176 | Start-up interrupts and then cleans. |
| Janitor.SweepTick | genut_service/scheduler/loop.py:84-89 | A sweep cleans first and reaps second. |
| Services.CancelAllJobs | genut_service/services/job_service.py:81-112 | Queued jobs of the product are canceled, the running ones are returned to be killed. |
| Services.RerunJob | genut_service/services/job_service.py:51-78 | A copy of the inputs is queued under a new id, or nothing if the job or its product is gone. |
| Services.RerunAsksAgain | genut_service/services/job_service.py:51-78 | The copy asks for the same kind, function and files of the same product, waits under a new id, and no other row changes. |
| Services.SubmitRequest | genut_service/services/job_service.py:23-48 | A GENUT job is queued, an empty function name stored as none, or nothing happens if the product is missing. |
| Services.CancelEmptiesQueue | genut_service/services/job_service.py:81-112 | Afterwards nothing of the product waits; what waited is canceled, and no other row changes. |
| Services.DeleteJob | genut_service/services/job_service.py:132-147 | Only an ended job is deleted; the three answers are told apart. |
| Services.DeleteFinishedJobs | genut_service/services/job_service.py:115-129 | Exactly the ended jobs of the product go. |
| Services.RefusedExactly | genut_service/services/job_service.py:132-147 | By status: only an ended job is deleted, an instance is in use if and only if a job is in flight on it, and a product active if and only if a job of it has not ended. |
| Services.DeleteGenut | genut_service/services/genut_service.py:57-88 | Refused while a job is in flight on the worker; otherwise stale locks go with it and finished jobs forget it. |
| Services.DeleteProduct | genut_service/services/product_service.py:69-91 | Refused while a job is queued or in flight; otherwise jobs and lock go with it. |
| Services.UpdateProductKey | genut_service/services/product_service.py:53-66 | The key is changed without a guard. |
| Services.DeletedWorkerIsForgotten | genut_service/services/genut_service.py:57-88 | No row refers to a deleted instance, of jobs only the reference goes, and of locks only its own. |
| Services.DeletedProductIsForgotten | genut_service/services/product_service.py:69-91 | No row of a deleted product is left, and every other row is. |
| Invariant.AssignKeeps | genut_service/scheduler/engine.py:102-121 | A whole claim keeps the invariant: exclusion by key over both job families, locks and workers owned one to one, preparation jobs in order. |
| Invariant.FinishKeeps | genut_service/scheduler/engine.py:133-157 | Finishing any job with any terminal status keeps it. |
| Invariant.FinishFreesHoldings | genut_service/scheduler/engine.py:141-155 | Finishing a running GENUT job gives back exactly what it held: its product is unlocked, its worker idle, one lock fewer. |
| Invariant.FinishPrepKeeps | genut_service/scheduler/auto_tick.py:162-176 | So does finishing a preparation job, even a second time. |
| Invariant.StartPrepKeeps | genut_service/scheduler/auto_tick.py:149-158 | So does starting preparation jobs, although they take no lock. |
| Invariant.ReapKeeps | genut_service/scheduler/janitor.py:45-62 | So does the watchdog. |
| Invariant.ReleaseStaleKeeps | genut_service/scheduler/janitor.py:109-128 | So does cleaning stale locks and workers. |
| Invariant.MarkInterruptedKeeps | genut_service/scheduler/janitor.py:65-82 | So does interrupting at start-up. |
| Invariant.CyclesKeep | genut_service/scheduler/auto_tick.py:43-103 | So does queueing cycles. |
| Invariant.DeletedWorkerKeeps | genut_service/services/genut_service.py:57-88 | So does deleting a worker that is not in use. |
| Invariant.DeletedProductKeeps | genut_service/services/product_service.py:69-91 | So does deleting a product without active jobs. |
| Invariant.RenameKeepsExactly | genut_service/services/product_service.py:53-66 | Renaming a product keeps the invariant if and only if no job running elsewhere has the new key while one of the product runs. |
| Runs.ReachableInv | genut_service/scheduler/engine.py:1-8 | The invariant holds in every state reachable by any interleaving of all operations. |
| Runs.MutualExclusion | genut_service/scheduler/engine.py:52-74 | In every reachable state two running jobs, of whatever kind, have different keys. |
| Runs.HoldingsAreExact | genut_service/scheduler/engine.py:108-119 | In every reachable state running GENUT jobs, their locks and their workers correspond one to one, and whatever else is held belongs to an ended job. |
| Runs.EndedForGood | genut_service/scheduler/engine.py:136-140 | Over runs: an ended GENUT job keeps its very status, an ended preparation job stays ended, and ids are not used again. |
| Runs.LateFinishIsHarmless | genut_service/scheduler/engine.py:136-140 | A worker that finishes a job after the watchdog took it changes nothing. |
| Runs.FinishTouchesOwnOnly | genut_service/scheduler/engine.py:148-155 | Finishing leaves the locks, workers and rows of all other jobs alone. |
| Runs.OlderPrepHasEnded | genut_service/scheduler/auto_tick.py:89-91 | While a preparation job runs, every older one of its product has ended: a scan runs only after its diff. |
| Runs.RerunKeepsPairsExactly | genut_service/services/job_service.py:51-78 | A rerun leaves at most one unfinished pair per product if and only if it is of a GENUT job, or nothing of the product is unfinished, or it is of a scan and the only unfinished one is a diff made just before. |
| Runs.AtMostOnePair | genut_service/scheduler/auto_tick.py:74-87 | Over a run, the unfinished preparation jobs of a product are at most one diff and the scan made with it, at every point, if and only if every rerun is such a one. |
| Pitfalls.RerunBreaksPairs | genut_service/services/job_service.py:63-68 | A run from empty tables: the rerun of a diff that has ended queues a second diff beside the scan. |
| Pitfalls.RenameBreaksExclusion | genut_service/services/product_service.py:60-62 | A run from empty tables after which a rename gives two running jobs the same key. |
| Recovery.RecoveryIsClean | genut_service/scheduler/loop.py:164-176 | From every reachable state, a restart leaves no lock, no busy worker and nothing in flight, and touches no queued or ended job. |
| Recovery.RunPending | genut_service/scheduler/loop.py:20-25 | One claim, then each assigned job is run to its end. |
| Recovery.RoundShrinksQueue | genut_service/scheduler/loop.py:20-25 | With an enabled worker, a round takes at least one job out of a queue that is not empty. |
| Recovery.QueueDrains | genut_service/scheduler/loop.py:20-25 | From every reachable state, after a restart, n queued GENUT jobs are gone after n rounds, whatever the outcomes. |
| Watchdog.ReapsExactlyTheStuck | genut_service/scheduler/janitor.py:45-53 | Over runs: the watchdog fails a job if and only if it runs beyond the limit without a process, or beyond twice the limit with one. |
| Watchdog.JobAgeBound | genut_service/scheduler/janitor.py:19-62 | If the watchdog comes by every S seconds, no job has been in flight for more than 2M + S. |
| Holdings.HoldingsAreOneToOne | genut_service/scheduler/janitor.py:109-128 | If start-up always cleans after interrupting, then at all other times busy workers, locks and running GENUT jobs correspond one to one, through the current job and the job of the lock, and are equally many. |
| Watchdog.LockAgeBound | genut_service/scheduler/janitor.py:19-62 | Nor is any lock held for more than 2M + S. |
| Registry.ProcessRegistry.Register | genut_service/runner/process_registry.py:33-41 | The process replaces the former one; the caller is told to kill it if the job is marked. |
| Registry.ProcessRegistry.Cancel | genut_service/runner/process_registry.py:61-72 | The job is marked and its process returned to be killed. |
| Registry.ProcessRegistry.Unregister | genut_service/runner/process_registry.py:44-48 | Process and mark go together. |
| Registry.EndRun | genut_service/runner/worker.py:160-191 | The flag is read before it is taken off, and a cancel request counts before the outcome of the run. |
| Registry.EndWritesRow | genut_service/runner/worker.py:160-191 | The columns of the row at the end of a run: status, summary and error by mark, error, success and detail, and nothing else. |
| Registry.EndsAgree | genut_service/runner/worker.py:160-191 | The status columns that the threads leave are those that the end of a run leaves in the tables. |
| Registry.FinishesAgree | genut_service/scheduler/engine.py:133-145 | The status columns of the interleaving model are those the finishing operations leave. |
| Registry.RestartAgrees | genut_service/scheduler/janitor.py:65-82 | A restart of the threads leaves the status columns that interrupting leaves in the tables. |
| Registry.StepKeeps | genut_service/runner/process_registry.py:33-72 | Every step of every thread (workers, cancels, watchdog, kills outside the mutex, restart) keeps the invariant. |
| Registry.NoCancelIsLost | genut_service/runner/process_registry.py:33-72 | Over all interleavings: a process registered for a canceled job, in whichever order, is killed or some thread is about to kill it, from then on. |
| Registry.LaterProcessIsDoomedExactly | genut_service/runner/process_registry.py:33-48 | A process registered after a cancel is to be killed at once, and stays so, if and only if the job was not taken out of the registry since the last request: by its worker, by the watchdog, or by a restart. |
| Registry.ProcessGetsThrough | genut_service/scheduler/janitor.py:55-62 | A run of six events: after a cancel and the watchdog's pass, the worker that still lives registers a process that nobody is to kill. |
| Registry.CanceledInTimeEndsCanceled | genut_service/runner/worker.py:160-168 | A cancel before the worker reads the flag ends the job as canceled, unless the watchdog finished it first. |
| Registry.EndsByMarkAndOutcome | genut_service/runner/worker.py:158-190 | Over all interleavings, a GENUT job that the watchdog leaves alone ends for good as canceled if and only if it was marked when the flag was read; as done if and only if it was not and its run returned success; as failed if and only if it was not and the run raised or returned failure. |
| Paths.NormalizeRelPath | genut_service/paths.py:10-23 | The loop computes `Normalize`; any `..` segment refuses the path. |
| Paths.NormalizeReads | genut_service/paths.py:10-23 | A path of any segments is normalised to those that are not empty and not a dot, and refused exactly if it climbs. |
| Paths.BackslashIsSlash | genut_service/paths.py:10-23 | Backslashes count as slashes. |
| Paths.StemIs | genut_service/services/auto_run_service.py:221-221 | The stem of a printed `dir/base.ext` is `base`, and of a name without a dot the name. |
| Paths.NormalFormIsStable | genut_service/paths.py:10-23 | Normalising a second time changes nothing if and only if the first result has no blank at either end. |
| Paths.NormalFormMayChange | genut_service/paths.py:10-23 | A path whose normal form changes when it is normalised again. |
| Enqueue.EnqueueContext.IndexJobs | genut_service/services/auto_run_service.py:77-92 | The index is built exactly from the pending jobs, or refused if one of their paths is. |
| Enqueue.EnqueueContext.PendingJobId | genut_service/services/auto_run_service.py:98-114 | The lookup finds a job exactly when the index has one that serves, and returns such a job. |
| Enqueue.EnqueueContext.NoteEnqueued | genut_service/services/auto_run_service.py:116-117 | An entry is added unless there is one. |
| Enqueue.IndexRefinesTable | genut_service/services/auto_run_service.py:69-75 | While index and table agree, looking up the one is searching the other naively. |
| Enqueue.EnqueueGenutJob | genut_service/services/auto_run_service.py:120-165 | Deduplication, the compile database check, the stored row and the note, against `Enqueued`. |
| Enqueue.RequestCreatesExactly | genut_service/services/auto_run_service.py:120-165 | Read off the columns: a request adds one row, which asks for exactly this, if and only if the compile database has the file by path or by name and no pending row of the file is for all of it, for the same function, or asked for as a whole; else nothing changes. |
| Enqueue.AgreementIsKeptExactly | genut_service/services/auto_run_service.py:136-162 | After a request the index agrees with the table if and only if nothing was created, or the function name is not empty and the path has no blank at an end. |
| Enqueue.EmptyNameBreaksAgreement | genut_service/services/auto_run_service.py:154-162 | An empty function name is stored as none and then not found in the index. |
| Enqueue.AllAreAnswered | genut_service/services/auto_run_service.py:120-165 | Every request for a file of the compile database has a pending job in the end, for the file as it is spelled or as it is read back. |
| Enqueue.AnsweredIsCovered | genut_service/services/auto_run_service.py:69-75 | For a path that does not change when it is read back, that is a job that a naive search of the table finds. |
| Enqueue.EnqueueAdds | genut_service/services/auto_run_service.py:150-165 | Created and skipped add up to the requests; created jobs take the next ids and nothing else changes. |
| Enqueue.NewJobsWereRequested | genut_service/services/auto_run_service.py:146-161 | Every new job was requested, for a file of the compile database. |
| Enqueue.AgreesThroughout | genut_service/services/auto_run_service.py:69-117 | Over any number of plain requests the index keeps agreeing with the table. |
| Enqueue.NoDuplicates | genut_service/services/auto_run_service.py:133-144 | No new job for a file is for what an older pending job does already, unless a request is for a file spelled differently but read back as this one. |
| Enqueue.EnqueueIsBody | genut_service/services/auto_run_service.py:150-161 | To the tables, a scan or a diff is a preparation job that queues what it created. |
| AutoScan.CoveredFunctions | genut_service/services/auto_run_service.py:168-180 | The loop over the test files computes `CoveredNames`. |
| AutoScan.CoveredExactly | genut_service/services/auto_run_service.py:168-180 | A name is covered if and only if some test file is called `<name>_test.*`, whatever the case. |
| AutoScan.MissingReports | genut_service/services/auto_run_service.py:251-260 | Exactly the uncovered case-folded names are missing. |
| AutoScan.ScanTarget | genut_service/services/auto_run_service.py:218-272 | One target: file request, warning, crash or one request for each missing function. |
| AutoScan.RunScanJob | genut_service/services/auto_run_service.py:183-274 | The method queues the requests of the targets it got through and counts them; it ends early exactly for a cancel, a refused path or an extractor failure. |
| AutoScan.ScanIsComplete | genut_service/services/auto_run_service.py:193-197 | After a whole scan, every target of the compile database for which neither folder lists a test has a pending job, and otherwise every function without a test in either has one. |
| AutoScan.ScanIsSound | genut_service/services/auto_run_service.py:193-197 | Every job a scan queues is for a target for which neither folder lists a test, or for a function of a target with tests that has none in either folder. |
| AutoScan.FileJobExactly | genut_service/services/auto_run_service.py:221-231 | A target gets a job for the whole file if and only if neither folder lists a test under its stem, the compile database has it and no job of it is pending. |
| AutoScan.FunctionJobExactly | genut_service/services/auto_run_service.py:221-272 | A function that comes first with its name gets a job if and only if some test is listed, but none of either folder is called `<name>_test.*`, the compile database has the file, and no pending job is in the way. |
| AutoScan.TargetFailsExactly | genut_service/services/auto_run_service.py:233-249 | A target ends the scan if and only if it has a test and the extractor fails, and is warned about if and only if it has a test but no file, no readable one, or no function. |
| AutoScan.TargetsAre | genut_service/services/auto_run_service.py:193-193 | Empty entries of the target list are passed over, one that is refused spoils it, and the targets are the others, normalised. |
| AutoScan.ScanMakesNoDuplicates | genut_service/services/auto_run_service.py:69-117 | No job a scan queues for a file repeats an older pending one, unless another target, with outer blanks, is read back as the file. |
| AutoDiff.DiffChange | genut_service/services/auto_run_service.py:356-412 | One change: by status `M`, `R100`, other renames, or left to the scan; by target list, diff and extractor. |
| AutoDiff.RunDiffJob | genut_service/services/auto_run_service.py:292-419 | The method, with first run, unchanged head, lost base, cancel and every failure; the base is written only where it says. |
| AutoDiff.DiffRunMissesNothing | genut_service/services/auto_run_service.py:394-412 | After a finished run, every function found in the working tree of a modified target in the compile database, which the head shares and is in step with, stands in the head as in the old file or has a pending job under its case-folded name; from the text of the diff to the job table. |
| AutoDiff.CleanRunMissesNothing | genut_service/services/auto_run_service.py:394-412 | The same for a file of a clean tree, of every function that no lone carriage return precedes. |
| AutoDiff.DiffIsSound | genut_service/services/auto_run_service.py:356-412 | However a run ends, every job it queued is for a function of a target that a change modified, where the diff touches its lines, or that was renamed and changed. |
| AutoDiff.OthersGetNoJob | genut_service/services/auto_run_service.py:369-393 | Files that were only added, deleted or renamed as they are get no job from a diff run. |
| AutoDiff.UntouchedGetsNoJob | genut_service/services/auto_run_service.py:394-407 | A function of a file that was only modified gets no job if the diff touches none of its case-folded name. |
| AutoDiff.FinishedHadAnswers | genut_service/services/auto_run_service.py:394-403 | A run is finished only if git gave the diff of every modified target and the extractor did not fail on it. |
| AutoDiff.RenameRequeuesAll | genut_service/services/auto_run_service.py:369-390 | A target renamed with changes gets a job for each of its functions. |
| AutoDiff.DiffMakesNoDuplicates | genut_service/services/auto_run_service.py:407-412 | The same of the jobs a diff queues. |
| BaseProtocol.RunIsAttempt | genut_service/services/auto_run_service.py:327-342 | The base after a run is the head after a first run, a lost base or full success, and otherwise unchanged. |
| AutoDiff.LeftUnexaminedExactly | genut_service/services/auto_run_service.py:396-403 | A finished run moves the base past every modified target; whatever changed in one goes unexamined if and only if its source could not be read or has no function. |
| AutoDiff.UnreadGetsNoJob | genut_service/services/auto_run_service.py:396-403 | Although the base has moved, a finished run queues no job for a file that could not be read, or in which no function was found. |
| LostChanges.UnreadChangeIsLost | genut_service/services/auto_run_service.py:396-403 | A whole run on a concrete change of a function: the file cannot be read, nothing is queued, and the base moves. |
| LostChanges.PatchedChangeIsLost | genut_service/services/auto_run_service.py:394-416 | The same with the file read from a patched tree: the function changes in the commit, nothing is queued, and the base moves. |
| BaseProtocol.BaseMovesExactly | genut_service/services/auto_run_service.py:310-342 | The base after a run, by what git answered: unchanged after a failure or with the head as it was, the head after a first run or without changes to list, and else the head exactly if all was examined. |
| BaseProtocol.OtherLeavesBase | genut_service/services/auto_run_service.py:327-342 | No other operation on the tables touches the base of a product, and a new product has none. |
| BaseProtocol.BaseFollowsAttempts | genut_service/services/auto_run_service.py:310-342 | Over any run of the service, with diff runs of all products and every other step in between, the base in the table is the one the diff runs of the product lead to, each starting from what the one before it left. |
| BaseProtocol.WindowsChain | genut_service/services/auto_run_service.py:304-307 | Over any such run without a lost base, the examined windows chain end to end from the first run's commit to the base in the table. |
| BaseProtocol.BaseMovesOnlyOnSuccess | genut_service/services/auto_run_service.py:414-415 | Over any such run, the base in the table changes only by a diff run of that product that was its first, lost the base or examined everything, and then to that run's head. |
| BaseProtocol.RetriedFromSameBase | genut_service/services/auto_run_service.py:310-342 | Whatever happens between failed or canceled diff runs, the next one starts from the same base. |
| Overlap.BaseIsExamined | genut_service/services/auto_run_service.py:304-342 | However the diff runs of a product overlap, and whatever else happens, examined windows lead to its base from the commit of a first run or of a lost base: no change is skipped. |
| Overlap.OnlyWatchdogOverlaps | genut_service/scheduler/janitor.py:19-62 | Two diff runs of a product are under way at a time only if the watchdog has given up the job of one of them. |
| Overlap.BaseIsLastHead | genut_service/services/auto_run_service.py:414-415 | However runs overlap, the base of a product that is not deleted is the head of the last run that moved it. |
| Overlap.ChainsExactly | genut_service/services/auto_run_service.py:304-342 | The runs that move the base of a product that is not deleted chain, in the order in which they end, end to end from no base if and only if each of them, as it writes the base, finds the one in the table that it read. |
| Setback.BaseGoesBack | genut_service/services/auto_run_service.py:414-415 | A run from empty tables: the watchdog gives up a diff whose thread goes on, the next cycle's diff looks further and ends before it, and the base goes back. |
| BaseProtocol.ServedInv | genut_service/services/auto_run_service.py:150-161 | Diff runs in between included, the invariant of the tables holds in every reachable state. |
| AutoDiff.ExtractedAreNamed | genut_service/services/c_function_parser.py:227-233 | The parser never reports an empty name, nor a control word or operator. |
| WorkTree.Checkout.BackupPreserved | genut_service/runner/git_ops.py:78-94 | The copies hold exactly the files under the listed paths. |
| WorkTree.Checkout.RestorePreserved | genut_service/runner/git_ops.py:97-110 | All kept files are back with their contents if and only if nothing of another kind stood in their place; then nothing else changes. |
| WorkTree.Checkout.EnsureCheckout | genut_service/runner/git_ops.py:113-203 | On every exit of an update the preserved files survive if and only if git left no clash; without an update the tree is untouched. |
| WorkTree.LoseGenerated | genut_service/runner/git_ops.py:97-110 | A concrete update that loses a generated test: the commit has a file of the name of its directory. |
| Merge.SortIsUnique | genut_service/services/test_status_service.py:414-425 | There is one strictly sorted list of a set of strings. |
| Merge.LessIsLexicographic | genut_service/services/test_status_service.py:416-447 | The sorting order is lexicographic. |
| Merge.MergeTestFile | genut_service/services/test_status_service.py:401-411 | One file is merged into the bucket: codes united, first log and count kept. |
| Merge.BucketIsUnion | genut_service/services/test_status_service.py:401-411 | A bucket has exactly the paths seen, each with exactly its codes and the first name, log and count. |
| Merge.FirstCountIsEarliest | genut_service/services/test_status_service.py:406-411 | The number of cases is that of the earliest occurrence that has one. |
| Merge.EmitTestFiles | genut_service/services/test_status_service.py:414-425 | One row for each path of the bucket, sorted, with sorted codes. |
| Merge.MergeStatus | genut_service/services/test_status_service.py:428-466 | The nested loops produce the merged rows, counts included. |
| MergeOrder.MergedIsUnion | genut_service/services/test_status_service.py:428-434 | Rows for exactly the target paths, each with exactly its codes and test files, every file counted once. |
| MergeOrder.MergedIsUnique | genut_service/services/test_status_service.py:428-466 | There is one merged status of a list of variants. |
| MergeOrder.OrderDoesNotMatter | genut_service/services/test_status_service.py:428-434 | Paths, codes and counts of files do not depend on the order of the variants. |
| MergeOrder.CountsAgreeExactly | genut_service/services/test_status_service.py:410-411 | The number of cases of a file is the same for every order in which it is seen if and only if all that count it agree. |
| MergeOrder.CountsDependOnOrderExactly | genut_service/services/test_status_service.py:428-466 | The case counts of all returned rows, and their sums, are the same for every order of the variants if and only if the variants agree on every test file. |
| Snapshots.ScanGroup | genut_service/services/test_status_service.py:29-45 | Each product of a group with its status, one that cannot be scanned counting as empty. |
| Snapshots.SnapshotStore.RefreshSnapshots | genut_service/services/test_status_snapshot_service.py:43-103 | Afterwards there is a snapshot for exactly the product groups, each with the fingerprint, summary and merged status of its group. |
| Snapshots.SnapshotStore.LoadSummaries | genut_service/services/test_status_snapshot_service.py:106-116 | The summaries of one project by name. |
| Snapshots.SnapshotStore.LoadDetail | genut_service/services/test_status_snapshot_service.py:119-126 | The detail of one name, or none. |
| Snapshots.SummaryOf | genut_service/api/test_status.py:77-106 | A stored summary, or a scan of its own. |
| Totals.SummaryCounts | genut_service/services/test_status_snapshot_service.py:29-40 | Counted on the scans themselves: a stored summary counts each target of any variant once, each passed test file of each target once, each failed one once, and the cases of the passed ones. |
| Totals.SummaryNames | genut_service/services/test_status_snapshot_service.py:29-40 | A stored summary shows the codes of exactly the products of its name, and the mode of the one listed first. |
| Totals.FingerprintTells | genut_service/services/test_status_snapshot_service.py:23-26 | Fingerprints are the same if and only if the products are, one by one, and none has been updated. |
| Snapshots.SnapshotsAreLive | genut_service/api/test_status.py:93-105 | What is stored by a refresh is what the live view would show. |
| Snapshots.DetailOf | genut_service/api/test_status.py:119-132 | The stored detail, or a scan of its own of the group in whatever order the query gave. |
| Snapshots.DetailIsLive | genut_service/api/test_status.py:119-132 | The stored detail and a live one have the same targets, codes, files and counts; also the case counts, if the variants agree. |

## Left out

- SQLAlchemy sessions, identity maps, WAL and foreign keys: only committed rows and the rows of an open
  transaction are modelled. Deleting a row that a stale lock still refers to, which the database may
  refuse, succeeds in the model.
- Services.SubmitRequest: takes the files that the compile database check included as given; the checkout
  that precedes it is not modelled, nor are excluded files.
- Services.UpdateProductKey: models the two columns that matter to exclusion; the other columns are the
  `ChangingProduct` steps of `Runs`.
- Engine.QueryIdleWorkers: the order in which idle workers are returned is left open, as the query leaves it.
- Enqueue.EnqueueContext.PendingJobId: which of several pending jobs of a file is named is left open; the
  program takes the one noted first, and only logs it.
- Enqueue.EnqueueGenutJob: always works on a given context; the variant that builds one for a single call
  is not modelled.
- AutoScan.RunScanJob, AutoDiff.RunDiffJob: the generated tests, the sources, the answers of git and of the
  extractor and the polls for cancellation are inputs. Jobs that others queue or finish meanwhile are not
  modelled. Listing the generated tests and the check for a code path are not part of this model.
- AutoDiff.DiffRunMissesNothing: for files that were read, and functions of the tree that stand in the head,
  too, and are in step with it; `AutoDiff.LeftUnexaminedExactly` and `Patched.NoHeadEditMissedExactly` have the
  rest. A function that a patch itself rewrites in the tree has no counterpart in the head to compare with.
  For the built-in parser; the external extractor is an arbitrary list of spans.
- AutoScan.ScanMakesNoDuplicates, AutoDiff.DiffMakesNoDuplicates: leave out files as which another target is
  read back; for these the index does not keep up, as `Enqueue.AgreementIsKeptExactly` says.
- AutoDiff.UnreadGetsNoJob: likewise for a file to which another target is normalised.
- BaseProtocol.WindowsChain: a diff run is one move; runs that overlap are in `Overlap`.
- CDeclarators.TailRejectsMacro: if the macro's arguments are followed by more than names and white space, the
  position is only bounded; `CParser.ScanTail` says what it is on every text.
- DiffText.DiffNewLineRanges: a failed git command is a missing answer in `AutoDiff`. Digits other than ASCII
  ones, which the pattern also accepts, do not occur in what git writes and are not modelled.
  `git diff --name-status` comes in as a list.
- AutoTick.ProcessPrepJob: messages are shortened to constants, error texts are not cut, and the last
  resort that retries a failed finish is not modelled.
- Registry.EndRun: likewise; the clean-up of the workspace and the early end of a job whose product or instance is
  gone are left out. The threads of `Registry` poll
  the flag without effect on the state, so that polls are not steps.
- AutoTick.RunAutoPending: the number returned is exact if all job ids are below the next one, as they always
  are in runs, and otherwise a bound.
- Recovery.RunPending: running a job is reduced to the status it ends with.
- Janitor.ReapStuckJobs: which jobs have a process is an input; marking and unregistering them is in
  `Registry`.
- WorkTree.Checkout.EnsureCheckout: trees are maps from paths to contents; empty directories, links and file
  modes are not modelled. What git leaves behind is an input.
- Merge.MergeStatus: log paths and case counts come with the files; finding them is not part of this model.
- Snapshots.SnapshotStore.RefreshSnapshots: what scanning the checkout of one product gives is an input, and a
  fingerprint is the list of its pairs, not a string.
- Snapshots.SummaryOf: the cache in front of it, with its expiry, is not modelled.
- C++ raw strings, operator overloads, K&R definitions and unbalanced conditional braces are outside the
  grammar of `CGrammar`, as they are outside the parser's own claims; `CParser` covers every text.
- Purging old events, log files, e-mail, routers, schemas, migrations, configuration, the terminal and the
  user interface: no state that the results above depend on.
