# CodeSpace: a verified model of its protocols and its judgements

CodeSpace runs a user's commands on a host, under an authority (DevGuard) that admits, launches and
accounts for them, and ships the tooling that qualifies the whole on real machines. This project models
the parts whose correctness is hard to see by reading them, and proves what they promise:

- **The execution owner** (`crates/devguard`). A session is a state machine over what each client call
  returned (`Session`); any number of sessions of one owner interleave with an authority behind a lossy
  channel (`Authority`); the owner's methods are proved to be runs of that machine (`OwnerProcess`).
- **Output continuity.** The numbered-line analysis (`Continuity`), and the Runner's retained window with
  the reader that feeds it (`RetainedOutput`): the analysis never raises a false alarm, and exactly when
  it misses a loss is known.
- **The harness's threads.** The live console over a terminal (`Terminal`, `Styling`, `Console`), the evidence writer
  (`EvidenceWriter`), the MCP client (`McpClient`), the fixed-slot sampler (`Sampling`) and the gate that
  restarts pass through (`Serving`), each as a class whose methods are tied to the steps of a machine,
  with theorems over every interleaving.
- **Judgement.** Coverage of a window (`Coverage`), percentiles with missing samples (`Percentile`),
  interval verdicts (`Verdicts`) and the verdict of a run (`Qualification`): `qualified` is characterised
  on the raw samples, if and only if.
- **CI and dependencies.** The breadth-first product-graph inspector (`Dependencies`), path patterns
  (`Glob`), planning (`CiPlan`) and the gate (`CiGate`), down to "a passing gate covers every changed
  path".
- **No-follow mode bits** (`crates/file-system`) over an inode graph that others may change (`NoFollow`,
  `ModeBits`).

`Sorting` holds the one sort the others use.

## How to read it

A component that runs on several threads, or against a process the repository does not contain, is a
machine: `Allowed` says which step may happen, `Perform` what it does, `Legal` and `Run` extend both to
sequences of steps, and the theorems hold of every legal run. Every block that holds a lock is one step.
Where the source updates an object, a class has the same fields and its methods are proved to take exactly
those steps. Clocks, lateness, durations, what a call returned, what git or the kernel answers and what is
on a disk are parameters.

Times and latencies are exact: integers of any common unit, or reals that are only compared. Fractions such
as 0.99 and 0.9 are exact too; the source computes them in binary floating point.

## What turned out not to hold

- The continuity check passes on the lines 0 and 2 (`RetainedOutput.ZeroThenTwoPasses`): a leading 0 counts
  as one line too many and hides one lost line. `Continuity.VerdictIsExact` gives the exact condition;
  streams that start at 1, as the harness's do, are judged exactly.
- The MCP client's class comment promises that a lost connection fails every waiting and later call. A reply
  whose id is an array or an object, or a line nested too deeply for the parser, ends the reader thread with
  an exception before the loss is recorded; `McpClient.CrashIffFatal` and `McpClient.StoppedReader` say
  when, and what callers then see.
- Each answer is to be matched by its id. Python takes an id of `true` for 1, so request 1 can be given
  such an answer (`McpClient.TrueAnswersOne`), and nothing else goes astray (`McpClient.MisledIffTrue`).
- A sampler whose wait ends late writes no row for a slot whose moment came before the stop
  (`Sampling.LateWaitLosesARow`); `Sampling.CoversIff` says exactly when a moment has its row.
- A gateway served while another still serves drops the time since the last `serve`
  (`Serving.ServeTwiceDropsTime`); `Serving.ServedTimeIsExact` says that nothing else does.
- A status text with a line feed leaves a row on the terminal (`Console.StatusFeedLeavesARow`);
  `Console.ConsoleRefinesPlainOutput` says that nothing else does.
- A style that ends within a colour sequence of the text itself leaves a trace in the log
  (`Styling.StyleBreaksASequence`); `Styling.StyledLineLogsPlain` says exactly when.

## Model

| member | source | states |
|---|---|---|
| Session.BeginIsOrderly | crates/devguard/src/registration.rs:175-243 | a session that has made no call has written nothing and claims no identity |
| Session.AdvanceWritesInOrder | crates/devguard/src/registration.rs:175-243 | each call writes nothing, or exactly the next frame of Hello, Authenticate, Status, Register and one request |
| Session.AdvanceIsOrderly | crates/devguard/src/admission.rs:310-345 | every call keeps a session's transcript, claim and outcome consistent, and the owner's identity is set at most once, to its own |
| Session.OthersStayOrderly | crates/devguard/src/registration.rs:90-98 | another session's step never spoils a session |
| Session.ReportsExactly | crates/devguard/src/admission.rs:361-400 | each answer is reported as exactly one thing: an error by its own code, except the transport's; a record of this key, fingerprint and registered owner as its attempt, field by field; a launch as granted with its permit only when that record is committed; anything else as Unknown |
| Authority.RunKeepsOwner | crates/devguard/src/registration.rs:175-243 | over every interleaving and every authority, all sessions stay orderly and what was established stays |
| Authority.StickyIdentity | crates/devguard/src/registration.rs:5-12 | the first registered identity sticks, registered sessions carry it, and a request is written only after the session's own Register was answered with it |
| Authority.SessionsWereOpened | crates/devguard/src/registration.rs:175-243 | a run's sessions are exactly those that were opened, each once and for its own job |
| Authority.AnswersAreReported | crates/devguard/src/admission.rs:8-19 | over every run and every authority, a session that waits for its answer waits until that is lost, and then reports Unknown, or delivered, and then reports it as exactly what it is to the owner as it then is |
| Authority.PoisonedReportsNothing | crates/devguard/src/admission.rs:361-400 | after the owner's lock was poisoned no answer is reported as an attempt or a grant |
| Authority.RunKeepsJournal | crates/devguard/src/admission.rs:8-19 | with a transactional authority, channel, journal, commits and permits stay tied to the sessions that caused them |
| Authority.AnswersAreSound | crates/devguard/src/admission.rs:8-19 | NotSent and Refused mean that nothing was committed, then and ever after; Attempt and Granted mean a commit of exactly that record for this key, fingerprint and owner |
| Authority.CommitsAreNeverDenied | crates/devguard/src/admission.rs:361-400 | a committed request is still waiting, reported as its record, or Unknown, and never refused or not sent |
| Authority.AtMostOneGrant | crates/devguard/src/launch.rs:3-7 | however many sessions begin a launch of one attempt, at most one is granted it |
| Authority.UnknownIsOpen | crates/devguard/src/admission.rs:16-19 | Unknown cannot be narrowed: a loss before, after or ahead of the commit leaves owner and sessions identical, and only one of the three committed nothing |
| Authority.CommitsAccountForTheJournal | crates/devguard/src/admission.rs:11-13 | in every run the journal goes from its first state to its last by changes of other consumers and by commits of the sessions, which are exactly the commits the answers are judged by |
| Authority.UncommittedChangedNothing | crates/devguard/src/admission.rs:10-13 | of a session whose request did not commit, no change of the journal is its own |
| OwnerProcess.AskingEnds | crates/devguard/src/admission.rs:310-345 | what an opened session reports of its request: Unknown when it could not be written, otherwise what Session.ReportsExactly says of the answer |
| OwnerProcess.OpensWhen | crates/devguard/src/registration.rs:175-243 | a session whose credential, connection, role, readiness and registration hold, and whose identity is or becomes the owner's, opens with exactly the four frames written |
| OwnerProcess.StopsBecause | crates/devguard/src/registration.rs:175-243 | every other one leaves the owner as it is and reports exactly which step failed, and why |
| OwnerProcess.RequestEnds | crates/devguard/src/admission.rs:310-345 | a whole request: refused as invalid without a session, not sent with the registration's state, or what the answer to it is reported as |
| OwnerProcess.AloneOpensFirst | crates/devguard/src/registration.rs:162-171 | a whole session is its opening followed by its request |
| OwnerProcess.AloneIsARun | crates/devguard/src/admission.rs:3-6 | an uninterrupted session is one of the interleaved machine's runs, which leaves every other session alone |
| OwnerProcess.OwnerObject.constructor | crates/devguard/src/registration.rs:102-110 | an owner starts with its fixed identity and nothing registered |
| OwnerProcess.OwnerObject.OpenWith | crates/devguard/src/registration.rs:175-243 | opening does exactly the machine's steps, with the registered field read and set in the mutex's block |
| OwnerProcess.OwnerObject.RegisterOwner | crates/devguard/src/registration.rs:158-171 | registering is a whole session that asks for nothing more |
| OwnerProcess.OwnerObject.AttemptOf | crates/devguard/src/admission.rs:361-400 | a record counts only when it is this owner's, for this attempt and this fingerprint |
| OwnerProcess.OwnerObject.AttemptRequest | crates/devguard/src/admission.rs:310-345 | the answer is the outcome of the whole session, which OwnerProcess.RequestEnds spells out |
| OwnerProcess.OwnerObject.CommitLaunch | crates/devguard/src/launch.rs:104-146 | a launch's answer is the outcome of the whole session: granted if and only if it was answered with a permit and this attempt's committed record |
| Continuity.Segmented | scripts/qualify_analysis.py:380-416 | the first loop collects the text between declared gaps |
| Continuity.Metrics | scripts/qualify_analysis.py:380-416 | the second loop computes the tally of every number found, and its verdict, which is undecided if and only if no segment holds a numbered line |
| Continuity.FindsTheLines | scripts/qualify_analysis.py:386-401 | the search finds the number of every line of a text, leftmost first and without overlap |
| Continuity.NothingToJudge | scripts/qualify_analysis.py:380-416 | the verdict is undecided exactly when no line was found |
| Continuity.UndecidedIff | scripts/qualify_analysis.py:380-416 | which is when no text between gaps holds the label, a space and eight digits anywhere |
| Continuity.Accounting | scripts/qualify_analysis.py:380-416 | after every prefix the last number is the accepted lines, the declared and the undeclared losses together |
| Continuity.PassesIffContinuous | scripts/qualify_analysis.py:380-416 | from 1 on, the check passes exactly when the numbers strictly increase from 1 and skip only right after a declared gap |
| Continuity.ZeroHidesALoss | scripts/qualify_analysis.py:380-416 | after a first number 0, the check passes exactly when the rest increases and hides one loss |
| Continuity.VerdictIsExact | scripts/qualify_analysis.py:380-416 | the verdict is undecided exactly on an empty stream, and right on any if and only if it does not start with a 0 that hides a loss |
| Continuity.SegmentsOfStream | scripts/qualify_analysis.py:380-416 | the segments depend only on the text and where its gaps lie |
| Continuity.ReadsDoNotMatter | scripts/qualify_analysis.py:380-416 | two sets of reads of the same text and gaps have the same tally |
| RetainedOutput.OutputReader.Read | scripts/qualify-devguard.py:2491-2507 | a read asks from the last cursor, keeps the answer as a row and moves the cursor to the answer's |
| RetainedOutput.RunKeepsInv | crates/runner/src/process.rs:1147-1177 | in every interleaving of writing, dropping and reading, the segments are the bytes of ordered stretches from offset 0 to the cursor |
| RetainedOutput.WindowCounts | crates/runner/src/process.rs:1147-1177 | what was written and what was dropped are exactly the sums of the run's steps |
| RetainedOutput.FindsTheLines | scripts/qualify-devguard.py:2134-2135 | the pattern finds exactly the whole lines of any stretch of output, in order, wherever it is cut |
| RetainedOutput.NoFalseAlarm | scripts/qualify_analysis.py:380-416 | in every such run no line is repeated and none lost undeclared, and the last line read is the lines found and the declared losses |
| RetainedOutput.ZeroThenTwoPasses | scripts/qualify_analysis.py:380-416 | a read of the lines 0 and 2 passes although line 1 was lost |
| Terminal.TextStaysBelow | scripts/console.py:259-277 | any text shorter than the row, from an empty row, writes on no more columns than it is long and adds one row for each line feed |
| Terminal.TextLiesOver | scripts/console.py:259-277 | printable text that fits an empty row is exactly what the row then begins with |
| Terminal.AboveIsAddedTo | scripts/console.py:288-299 | what a text does depends on the cursor's row alone; finished rows are only added to |
| Terminal.SgrMovesNothing | scripts/console.py:78-82 | a colour sequence changes nothing on the screen, and ends any sequence left unfinished |
| Terminal.WipeTakesAway | scripts/console.py:279-286 | returning, blanking and returning leaves an empty row and its start, even within an unfinished sequence |
| Styling.StyleStripsAway | scripts/console.py:78-82 | stripping undoes styling on every text, escapes in it included |
| Styling.StyleMarks | scripts/console.py:78-82 | styled text is the sequence of exactly its codes, the text and a reset; with styling off, or nothing to style, it is the text |
| Styling.StylesHaveCodes | scripts/console.py:24 | every style's code is a number, as the stripping expects |
| Styling.StripEachIff | scripts/console.py:25 | texts stripped one by one come out as stripped together if and only if no sequence goes across a boundary |
| Styling.StyledLineLogsPlain | scripts/console.py:288-299 | a line of styled pieces logs as the same line printed plain if and only if no sequence of the texts goes across a point where a style begins or ends |
| Styling.PlainLineLogsItself | scripts/console.py:288-299 | a line whose texts hold no escape logs as itself |
| Styling.StyleBreaksASequence | scripts/console.py:78-82 | a sequence begun in a styled piece and completed by the next shows in the log only with styling on |
| Styling.JoinsExample | scripts/console.py:25 | two texts that do so |
| Console.RunRefines | scripts/console.py:231-299 | every interleaving of writes, ticks and status blocks keeps the screen the plain one, but for the status text over it and a row above for each line feed a status text drew |
| Console.ConsoleRefinesPlainOutput | scripts/console.py:231-299 | taking the status line away leaves exactly the plain program's screen if and only if no status text drew a line feed; it shows only at a line start, and the log is the stripped writes |
| Console.NoBlockNoStatus | scripts/console.py:231-251 | while no status block is open no status line is shown |
| Console.NothingIsLeft | scripts/console.py:231-251 | so then the screen itself is the plain program's if and only if no status text drew a line feed |
| Console.LeaveTakesOne | scripts/console.py:231-251 | a block that ends takes its own step away and no other, and the line exactly with the last one |
| Console.TickShows | scripts/console.py:253-277 | after a tick at a line start the row shows the innermost block's text, as much as leaves the last column free, and blanks |
| Console.NoFeedsNoLitter | scripts/console.py:259-277 | no status text draws one when none has a line feed among what fits the row |
| Console.StatusFeedLeavesARow | scripts/console.py:259-277 | a status text of one line feed leaves a row behind |
| Console.LogIgnoresStyle | scripts/console.py:288-299 | the log of a run is the same with styling on or off if and only if no printed line has a sequence that a style breaks |
| Console.ConsoleObject.Erase | scripts/console.py:279-286 | erasing is the machine's erasure |
| Console.ConsoleObject.WriteText | scripts/console.py:288-299 | a write erases first, remembers whether it ended a line and logs stripped text |
| Console.ConsoleObject.Draw | scripts/console.py:259-277 | drawing cuts the text to the row, skips an unchanged one and overwrites the last |
| Console.ConsoleObject.TickOnce | scripts/console.py:253-257 | a tick draws the innermost step's text, and only at a line start |
| Console.ConsoleObject.EnterStatus | scripts/console.py:231-251 | a status block adds its step, on a terminal |
| Console.ConsoleObject.LeaveStatus | scripts/console.py:231-251 | leaving takes that step away and erases after the last |
| EvidenceWriter.LastOfTouch | scripts/qualify_host.py:202-216 | how the most recently written files change when one is written |
| EvidenceWriter.OpenedOrder | scripts/qualify_host.py:202-216 | the open files are always the most recently written ones |
| EvidenceWriter.BoundedWriterRefines | scripts/qualify_host.py:154-158 | with a bounded number of open files, every file holds exactly its lines in order, as if none were ever closed |
| EvidenceWriter.TakenUpToClose | scripts/qualify_host.py:177-200 | however the queue is cut into batches, the thread takes a prefix that holds everything before the sentinel |
| EvidenceWriter.TakenIs | scripts/qualify_host.py:177-200 | exactly which items the thread takes: every batch up to the first that holds the sentinel, that one whole |
| EvidenceWriter.CountIs | scripts/qualify_host.py:177-200 | the count is the number of lines among them |
| EvidenceWriter.BeforeCloseIsWritten | scripts/qualify_host.py:218-222 | everything handed over before `close` is written first and in order, and nothing else when nothing came after |
| EvidenceWriter.Writer.File | scripts/qualify_host.py:202-216 | the loop opens the file and closes the least recently written ones until it fits |
| EvidenceWriter.Writer.Batch | scripts/qualify_host.py:177-200 | a batch's lines are written and flushed, and counted |
| EvidenceWriter.Writer.Flush | scripts/qualify_host.py:194-198 | nothing waits in a buffer afterwards, and no file's content changed |
| EvidenceWriter.Writer.Run | scripts/qualify_host.py:177-200 | when the thread ends, the disk holds exactly the taken lines, file by file |
| McpClient.Client.Register | scripts/qualify_host.py:359-389 | a request gets the next id and a waiter, unless the connection was lost |
| McpClient.Client.Take | scripts/qualify_host.py:297-331 | an answer takes out the waiter its id finds, and an array or object id raises |
| McpClient.Client.Remove | scripts/qualify_host.py:359-389 | a caller that gives up takes its waiter out |
| McpClient.Client.Lose | scripts/qualify_host.py:297-331 | losing the connection marks it and takes every waiter out |
| McpClient.AnswersMatch | scripts/qualify_host.py:279-389 | in every interleaving a caller is woken at most once, with its own id's message, or with none on a loss |
| McpClient.CallsEndAs | scripts/qualify_host.py:359-389 | a caller whose event was set goes on with its message or, without one, with the loss; one that gives up or cannot send takes its waiter out |
| McpClient.ExpiredCalls | scripts/qualify_host.py:359-389 | a wait runs out only while its event is not set, and its call then reports no answer whatever arrives later |
| McpClient.NoAnswerWasExpired | scripts/qualify_host.py:359-389 | no other call does |
| McpClient.IdsAreNew | scripts/qualify_host.py:359-389 | an id is above every id given out before |
| McpClient.LossEndsEveryCall | scripts/qualify_host.py:297-331 | after a loss nothing is pending or registered, and every caller was woken or had given up |
| McpClient.CrashIffFatal | scripts/qualify_host.py:297-331 | the reader ends by an exception exactly when an answer's id is an array or an object, or its parser raises something else than that a line is not JSON |
| McpClient.StoppedReader | scripts/qualify_host.py:297-331 | once the reader stopped, the connection counts as lost exactly when nothing of that kind came; otherwise callers are registered and never woken |
| McpClient.MisledIffTrue | scripts/qualify_host.py:297-331 | a caller is given an answer that is not for its number if and only if an answer with the id `true` was taken while request 1 waited |
| McpClient.TrueAnswersOne | scripts/qualify_host.py:297-331 | a run in which request 1 ends with the answer for `true` |
| Sampling.Schedule.Turn | scripts/qualify-devguard.py:1379-1396 | one turn adds a missed or run slot, or ends |
| Sampling.Schedule.Run | scripts/qualify-devguard.py:1379-1396 | the thread's loop computes the rows of the plan and course |
| Sampling.RowsAreFaithful | scripts/qualify-devguard.py:1354-1396 | rows are slots in order, none early or after the stop, and missed exactly when the action before ended after their moment |
| Sampling.CoversIff | scripts/qualify-devguard.py:1379-1402 | a moment has its row if and only if it lies before the stop and no slot up to it was due with its wait still on at the stop |
| Sampling.CutEndsTheRows | scripts/qualify-devguard.py:1386-1387 | the first such slot ends the rows, although its moment may lie before the stop |
| Sampling.RowsCover | scripts/qualify-devguard.py:1379-1402 | so every moment more than the greatest lateness before the stop has its row |
| Sampling.StartsSoon | scripts/qualify-devguard.py:1379-1396 | no action starts later than its moment and that lateness |
| Sampling.IdealRows | scripts/qualify-devguard.py:1354-1402 | with punctual waits there is exactly one row for each moment before the stop, run on time or missed |
| Sampling.PeriodRows | scripts/qualify_analysis.py:148-165 | a periodic schedule has at least elapsed over period rows |
| Sampling.LateWaitLosesARow | scripts/qualify-devguard.py:1386-1387 | with slots at 0 and 10 and a stop at 15, a wait that is 5 late loses the second |
| Serving.Serving.constructor | scripts/qualify-devguard.py:3918-3923 | the gate starts closed, with nothing in flight and nothing served |
| Serving.Serving.Serve | scripts/qualify-devguard.py:3925-3928 | serving opens the gate now |
| Serving.Serving.Enter | scripts/qualify-devguard.py:3930-3935 | an action gets the gateway that serves and counts, or gets none |
| Serving.Serving.Leave | scripts/qualify-devguard.py:3937-3940 | an action that leaves counts no more |
| Serving.Serving.BeginClose | scripts/qualify-devguard.py:3942-3949 | closing shuts the gate and adds the open time |
| Serving.Serving.CheckClose | scripts/qualify-devguard.py:3950-3952 | `close` answers once the gate is drained or its deadline came |
| Serving.InflightCounts | scripts/qualify-devguard.py:3913-3966 | in every interleaving the counter is the number of actions that hold a gateway |
| Serving.ClosedGatewayIsFree | scripts/qualify-devguard.py:3914-3916 | after a `close` answered 0, no action ever again holds or can enter a gateway that did not begin to serve after that `close` began |
| Serving.NothingEnters | scripts/qualify-devguard.py:3942-3952 | until the next `serve` nothing enters, and the answer is the number still in flight |
| Serving.CloseAnswersWhen | scripts/qualify-devguard.py:3942-3952 | whatever happens while it waits, a `close` answers if and only if nothing is in flight any more or its limit has passed, and once |
| Serving.OpenTimeIsConserved | scripts/qualify-devguard.py:3925-3952 | every moment the gate stood open is served, current, or dropped by a `serve` that found it open |
| Serving.ServedTimeIsExact | scripts/qualify-devguard.py:3914-3916 | served time never exceeds the open time, and equals it if and only if no `serve` found the gate open for some time |
| Serving.ServeTwiceDropsTime | scripts/qualify-devguard.py:3925-3928 | two serves without a close between count half the time |
| Coverage.Sweep | scripts/qualify_analysis.py:168-176 | the sweep over sorted spans counts each covered unit once |
| Coverage.Covered | scripts/qualify_analysis.py:168-176 | the total is exactly the measure of the union of the spans within the window |
| Coverage.CoverIsBounded | scripts/qualify_analysis.py:168-176 | the total lies between nothing and the window |
| Coverage.Share | scripts/qualify_analysis.py:176 | the share times the window is the total, it lies between 0 and 1, and is 0 of an empty window |
| Coverage.MoreSpansCoverMore | scripts/qualify_analysis.py:168-176 | order and repetition of spans do not matter, and more spans never cover less |
| Percentile.RankWithin | scripts/qualify_analysis.py:23-29 | the rank is the least number of samples, and at least one, that makes up the fraction |
| Percentile.RankedWithin | scripts/qualify_analysis.py:23-29 | the percentile is within a bound if and only if the rank's number of samples are |
| Percentile.NearestRankIsLeast | scripts/qualify_analysis.py:23-29 | the percentile is the least value with that many samples at or below it, and is a sample |
| Percentile.MissingNeverLowers | scripts/qualify_analysis.py:23-29 | any one value going missing never lowers the percentile |
| Verdicts.P99Within | scripts/qualify_analysis.py:43-56 | the 99th percentile is within a bound if and only if 99 of 100 counted samples, missing ones included, were answered within it |
| Verdicts.StatusPassesIff | scripts/qualify_analysis.py:43-56 | the status metric passes exactly on a responsive target, and is undecided exactly without samples |
| Verdicts.TerminationsPassIff | scripts/qualify_analysis.py:59-93 | the termination metric passes, or fails, exactly on what the raw rows show: 99 of 100 counted targets ended in time, and no acknowledgement without effect or expected release |
| Verdicts.ReleasedIff | scripts/qualify_analysis.py:134-137 | a slot counts as released exactly when its last row shows a release |
| Verdicts.ConnectedIff | scripts/qualify_analysis.py:140-142 | the connection counts as lost exactly when some row of the six lists says so |
| Verdicts.EchoesAndRefusals | scripts/qualify_analysis.py:95-131 | echoes and refusals fail exactly on a missing echo or a loss, and are undecided exactly without any |
| Verdicts.IntervalPassesIff | scripts/qualify_analysis.py:265-298 | an interval passes if and only if its raw evidence is sound |
| Verdicts.IntervalFailsIff | scripts/qualify_analysis.py:265-298 | an interval fails if and only if its observation is valid and its raw rows show a missed target, a lost connection or wrong accounting |
| Verdicts.ReasonsAreGiven | scripts/qualify_analysis.py:265-298 | a verdict has no reasons if and only if it passes, and an invalid observation gives exactly its own |
| Verdicts.FailureReasons | scripts/qualify_analysis.py:265-298 | a failing verdict names only what the rows show, and all of it while the connection was kept |
| Verdicts.ShortfallReasons | scripts/qualify_analysis.py:290-298 | a valid but inconclusive one names exactly what was measured too little or not at all, and the load's issues |
| Verdicts.LosingASampleNeverPasses | scripts/qualify_analysis.py:43-56 | a status metric that passes with any one answer replaced by a missing sample passes with the answer |
| Verdicts.LosingAnAnswerNeverHelps | scripts/qualify_analysis.py:43-56 | so does an interval, for an answer of either status target |
| Verdicts.SchedulesMeetTheQuota | scripts/qualify_analysis.py:148-165 | status schedules that ran for the interval reach their expected samples, however slow the calls |
| Qualification.RepetitionPassesIff | scripts/qualify-devguard.py:1982-2002 | a repetition passes exactly when the release served throughout, both intervals are sound and it was no rehearsal |
| Qualification.RepetitionFailsIff | scripts/qualify_analysis.py:301-307 | a repetition fails exactly when the release ran, the warm target was built, the idle evidence is sound and the load's raw evidence shows a failure |
| Qualification.RepetitionReasons | scripts/qualify-devguard.py:1982-2002 | the reasons why a load did not decide, each if and only if it holds |
| Qualification.CombinationQualifiesIff | scripts/qualify_analysis.py:310-318 | a combination qualifies exactly with enough repetitions, all of them good |
| Qualification.QualifiedIff | scripts/qualify_analysis.py:321-331 | a run is qualified if and only if it is the full protocol and every repetition of every combination is good |
| Qualification.QualifiedCoversTheProtocol | scripts/qualify-devguard.py:2098-2112 | each combination of the protocol was then measured as often as it asks, with sound intervals |
| Qualification.FailedIff | scripts/qualify_analysis.py:321-331 | a run fails if and only if in some repetition the load's raw evidence shows a failure over a sound idle baseline |
| Dependencies.HeadIsShortest | scripts/upstream_dependencies.py:72-107 | the next package not seen is reached by a shortest trail |
| Dependencies.EverythingSeen | scripts/upstream_dependencies.py:72-107 | when the queue is empty, everything reachable was seen |
| Dependencies.Expand | scripts/upstream_dependencies.py:88-96 | what a package pulls in, or that something it names is not resolved |
| Dependencies.Traverse | scripts/upstream_dependencies.py:72-107 | a traversal ends on every graph and finds exactly what a root reaches, each by a shortest trail, unless something is not resolved |
| Dependencies.RootViolationsSound | scripts/upstream_dependencies.py:72-96 | every violation reported from a root is real, by a shortest trail |
| Dependencies.BroughtInSound | scripts/upstream_dependencies.py:97-107 | every package reported as brought in by DevGuard is, by a shortest trail |
| Dependencies.EverythingNamed | scripts/upstream_dependencies.py:39-109 | everything wrong that a root reaches is named by some violation |
| Dependencies.FromRoots | scripts/upstream_dependencies.py:72-96 | the first loop lists exactly what the roots reach and its violations |
| Dependencies.FromDevGuard | scripts/upstream_dependencies.py:97-107 | the second loop names everything a reached DevGuard crate brings in |
| Dependencies.Graph | scripts/upstream_dependencies.py:39-109 | the report is sound and complete, and its two errors occur exactly for a missing root or an unresolved package |
| Dependencies.CleanReport | scripts/upstream_dependencies.py:54-64 | without violations, nothing a root reaches is forbidden to it; every DevGuard crate is the pinned one, of its product set and under the feature; every Codex crate is the gitlink's; and no DevGuard crate brings one of ours in |
| Dependencies.ViolationIsReal | scripts/upstream_dependencies.py:54-107 | every violation names such a fault, kind by kind, by a shortest trail |
| Dependencies.ChildrenIff | scripts/upstream_dependencies.py:88-96 | a package is pulled in exactly by a dependency of unset, normal or build kind |
| Dependencies.EdgesIff | scripts/upstream_dependencies.py:88-96 | the edges are exactly those dependencies, an unset kind being a normal one |
| Dependencies.CleanReviewedReport | scripts/upstream_dependencies.py:16-25 | with the repository's own policy, a DevGuard crate is then the pinned client or contract, under the feature |
| Glob.MatchIff | scripts/ci_plan.py:24-46 | a pattern matches exactly the paths that split into parts its pieces stand for |
| Glob.ReadIsExact | scripts/ci_plan.py:24-43 | reading a pattern loses nothing of it and takes the longest wildcards |
| Glob.WrittenIsRead | scripts/ci_plan.py:24-43 | such pieces, written out and read again, are the same |
| Glob.StaysInsideSegments | scripts/ci_plan.py:40-41 | without `**` a pattern matches only paths as deep as itself |
| Glob.DirectoryPattern | scripts/ci_plan.py:40-41 | a directory followed by `**` matches exactly the paths below it |
| CiPlan.Classify | scripts/ci_plan.py:49-62 | the loop collects exactly the changed components and the reasons for a full run |
| CiPlan.SelectIsPart | scripts/ci_plan.py:65-74 | a selection holds only the policy's legs, and all of them in order when full |
| CiPlan.SelectOnce | scripts/ci_plan.py:65-74 | no leg is selected twice |
| CiPlan.PlanSelectsIff | scripts/ci_plan.py:65-74 | a leg is planned if and only if something forces a full run, the diff is empty, or some changed path is a full one, belongs to nothing, or belongs to a component the leg compiles |
| CiPlan.PlanExplains | scripts/ci_plan.py:49-74 | a plan is full exactly with reasons: the first pattern of each full path, the first ten unclassified paths, an empty diff |
| CiPlan.ComponentsAre | scripts/ci_plan.py:49-62 | its components are exactly the owners of changed paths that are neither full nor documentation |
| CiPlan.CommitNames | scripts/ci_plan.py:23 | a commit's name is forty lower-case hexadecimal digits |
| CiPlan.PreparesIff | scripts/ci_plan.py:92-114 | a plan is prepared exactly when the checkout is the run's commit and, for a pull request, the merge of its head; its base is the merge's first parent, a push's trusted base, or none |
| CiPlan.PreparedExplains | scripts/ci_plan.py:92-114 | it names its event, an untrusted base, a changed planning input or an empty diff if and only if that is so |
| CiPlan.PreparedSelectsIff | scripts/ci_plan.py:92-114 | it selects exactly what the run demands: every leg without a trusted base or with a changed planning input, otherwise those a changed path needs |
| CiPlan.PlanningDistributes | scripts/ci_plan.py:49-74 | two non-empty changes together need exactly the legs one of them needs |
| CiGate.NamedForTheAttempt | scripts/check_ci_results.py:18-27 | an artifact named for a leg and an attempt is read back as that attempt |
| CiGate.AttemptIff | scripts/check_ci_results.py:18-27 | and no other name is: the leg's prefix with digits |
| CiGate.UploadsAreArtifacts | scripts/check_ci_results.py:18-27 | a leg's uploads are exactly the artifacts named for an attempt up to this one |
| CiGate.Artifacts | scripts/check_ci_results.py:18-27 | the loop finds a leg's uploads up to this attempt, oldest first |
| CiGate.NewestIsLast | scripts/check_ci_results.py:18-34 | the last upload found is the newest |
| CiGate.CheckJobs | scripts/check_ci_results.py:60-66 | the first loop finds every job whose result is not the planned one |
| CiGate.CheckLegs | scripts/check_ci_results.py:67-75 | the second loop finds every leg whose reports are not the planned ones |
| CiGate.Problems | scripts/check_ci_results.py:46-75 | the gate's list, with its two early refusals |
| CiGate.GatePassesIff | scripts/check_ci_results.py:46-75 | the gate passes if and only if the plan is bound, job results match, each planned leg's newest report passes its stages at the source and other legs have none |
| CiGate.PassingIff | scripts/check_ci_results.py:30-43 | a report passes exactly when it is the one that says every stage, and nothing else, passed at the source |
| CiGate.LegProblemSays | scripts/check_ci_results.py:67-75 | what the gate says of a leg is so of its newest upload |
| CiGate.GateStops | scripts/check_ci_results.py:46-59 | it says nothing else when it does not see the required jobs, or the plan is not bound |
| CiGate.StagesAre | scripts/check_ci_results.py:67-75 | a selected leg owes its own stages, another one those of the first check that always runs it, and the rest none |
| CiGate.GateBinds | scripts/check_ci_results.py:46-66 | a passing gate has seen this commit's, event's and policy's plan, of the policy's legs and none twice, and exactly their jobs, the planning job and those that always run have succeeded |
| CiGate.FullRunsCoverEverything | scripts/check_ci_results.py:46-75 | a scheduled, dispatched or full run passes only when every leg of the policy passed its stages at the source |
| CiGate.RequiredJobsRan | scripts/check_ci_results.py:13-14 | with the repository's own jobs it passes only over those eight, and only when the plan job succeeded |
| CiGate.PreparedIsBound | scripts/ci_plan.py:92-114 | every plan that is prepared, for whatever event, satisfies every clause of the gate's binding check |
| CiGate.GateCoversTheChange | scripts/check_ci_results.py:46-75 | from git's answers to the gate: when it passes over the plan prepared for a run, every leg the run demands has a newest report passing its stages at the source |
| NoFollow.ComponentsOfPath | crates/file-system/src/unix.rs:28-46 | every list of proper names is what its path is taken apart into |
| NoFollow.ComponentsAreProper | crates/file-system/src/unix.rs:28-46 | a path taken apart has only names: no empty one, no dots, no slash |
| NoFollow.ComponentsIff | crates/file-system/src/unix.rs:28-46 | a path is taken apart if and only if it is absolute and has no part that goes up |
| NoFollow.KeptTogether | crates/file-system/src/unix.rs:28-46 | of its parts, only empty ones and dots are dropped, and none is moved |
| NoFollow.Parent | crates/file-system/src/unix.rs:68-78 | the loop is the walk, one open at each moment |
| NoFollow.WalkIff | crates/file-system/src/unix.rs:58-78 | whatever others do between opens, the walk reaches a directory if and only if each component was a real directory inside the last when it was opened |
| ModeBits.ClassifyAfterFailedIo | crates/file-system/src/unix.rs:82-101 | the loop classifies component by component |
| ModeBits.ClassifyIff | crates/file-system/src/unix.rs:80-101 | on a fixed tree the classifier reports exactly the kind of the first component that is not a directory |
| ModeBits.ClassifiedWasMet | crates/file-system/src/unix.rs:80-101 | while others change the tree, what it reports was met by its own walk, through directories that were real when opened |
| ModeBits.ReportedAs | crates/file-system/src/lib.rs:86-108 | whatever others do, a failed call is reported as what that second walk meets, or else as what the first one met |
| ModeBits.ModeIff | crates/file-system/src/unix.rs:103-111 | a mode is read if and only if real directories lead to something that is no link; a link anywhere is rejected as one, a file on the way as no directory, a missing name as not found, and a directory that may not be searched as another failure, each if and only if |
| ModeBits.SetModeIff | crates/file-system/src/unix.rs:113-134 | a mode is set if and only if one can be read there and the inode may be opened and is owned; the errors are the same |
| ModeBits.SetModeFollowsNoLink | crates/file-system/src/unix.rs:113-134 | even while others change the tree, a mode is set only on an inode the path names through no link, and nothing else changes |
| ModeBits.SetModeIsExact | crates/file-system/src/unix.rs:103-134 | on a fixed tree the new bits read back by every path that names the inode, and every other path reads what it read before |
| ModeBits.FileSystem.UnixMode | crates/file-system/src/unix.rs:103-111 | reading a mode, with the errors mapped as the caller sees them |
| ModeBits.FileSystem.SetUnixMode | crates/file-system/src/unix.rs:113-134 | setting a mode changes the tree as specified, or fails and changes nothing |

## Left out

- DevGuard's authority, launch helper, client and contract: not in the repository; the authority is an action with a guard, in two strengths.
- The record's plan, scope, reservation and applied fields, `terminate`, the launch helper's invocation and its transcript: conversions and finite tables.
- Sockets, credentials, digests, SQLite, git, subprocesses and signals: inputs, or steps that may happen.
- The Runner's process table, eviction and timeouts: only what a read answers of the retained window.
- RetainedOutput.NoFalseAlarm: output is shorter than 10^8 lines, because the numbers then outgrow their eight digits and the pattern.
- Console.ConsoleRefinesPlainOutput: a screen holds characters and no colours, stdout and stderr share one terminal of known width, and writing to it does not fail.
- Console's `keep`, its session set-up and the choice of colours: plumbing.
- EvidenceWriter.Writer.Run: I/O errors, the lag and `close`'s report are not modelled.
- Coverage.Share: the rounding to four digits is not modelled.
- The rounded numbers a report prints, host peaks, footprints, recovery scenarios and their own verdicts, and where load failures, load issues and service findings come from: reported values, or inputs of a verdict.
- Dependencies: `difference`, reading `cargo metadata`, and DevGuard's pinned revision, which is a parameter of Dependencies.Reviewed.
- CI outputs, caches and reading reports from disk; a plan or report of the wrong JSON type; the comparison of the planning inputs, which is an answer of git here.
- CiGate.GatePassesIff: a leg's key is its two parts, a sorted list of distinct jobs is a set of them, and how an artifact's name gives a leg's attempt is any function, of which CiGate.AttemptOf is the repository's.
- ModeBits.SetModeIsExact: what a process may search, read and change is an input that a new mode does not alter.
- File reads, writes, walks and sandboxed operations of `crates/file-system`: another repository's code behind thin wrappers.
