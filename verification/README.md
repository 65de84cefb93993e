# Verified model of the CI resources bot

The bot ("cigar") listens to GitLab webhooks. When a pipeline ends it writes a report of the
pipeline's resource usage on the merge request, and people can answer that report with commands
(`help`, `details …`, `advise …`) which the bot answers in the same thread. Everything it knows
about a report is in the report note: a signed marker that pins the pipeline and the merge request.

This project models that behaviour in Dafny and proves what it promises. `dafny verify dfyconfig.toml`
checks everything.

## How the model is laid out

| files | what they model |
|---|---|
| `Bot`, `BotReports`, `BotOrigins`, `BotQuiet` | the bot and GitLab as one closed loop: deliveries, queue, worker, threads, echoed hooks, failing calls, and the theorems about every run |
| `Queue`, `Worker` | the bounded queue under every interleaving of its atomic steps, and the queue, webhook and worker as objects tied to those steps |
| `Threads` | the notes of a merge request and the paged update-or-create of the report note |
| `Handler`, `Answers` | authorisation, target resolution and the one reply of a command; what it says, told from the services' answers alone |
| `Regex`, `Command`, `CommandPrinter`, `CommandReject` | a leftmost-first backtracking matcher, the command grammar as the source's regular expressions run on it, the printer, and bodies that are no command |
| `Marker`, `Report`, `Reporter`, `Totals`, `Figures` | the signed marker, the report body, the data it is built from, its totals and wall clock, its figures as text |
| `Trace` | finding the pod's name in a job trace with control sequences in it |
| `Advice`, `AdviceRender`, `Quantities` | the advice engine with its lazy trace fetching, the grouped text, the suggested requests and limits |
| `Downsample`, `AsciiChart`, `Raster` | the bucketed averages, the text chart's grid, the PNG chart's pixels |
| `Text` | trimming, folding, numerals, lines |

Code that changes state keeps its form: the queue, the webhook, the worker's `seen` set and the merge
request are classes; loops are loops, proved against specification functions that the lemmas are about.

### The closed loop

A world (`Bot.World`) holds the deliveries GitLab will still make, the queue's buffer, the worker's
`seen` set and current work, and the threads of every merge request. Its steps are a delivery in any
order, the worker taking an event, deciding about it and making its one writing call (which may be
refused, or carried out with the answer lost), and what GitLab and its users do: posting roots and
replies, ending pipelines, delivering any note's hook again. History fields record who wrote each report last,
where each person's note was posted and which report headed that thread at the time, which notes were
handled, which reply calls were made, which pipelines ended, and which merge requests their branches had. Services answer through oracles that may fail on any call.

Assumed of the environment: users open no thread with a note that bears the marker prefix (replies may
bear it), numbers of new notes are new, numbers are non-negative 64-bit integers, and discussions and notes are
only added. These are `Bot.Enabled`.

### Where the code and its documentation disagree

* The documentation promises one comment per merge request, updated in place. The code posts a fresh
  report once the last one has a reply (its own comment says so). `Threads.OneReportIff` says exactly when the
  promise is kept and `Threads.DiscussedReportGetsSecond` shows it fail; what does hold always is that at
  most one report may still be edited (`BotReports.OneEditableReport`).
* The queue's comment says it warns once per crossing and that racing callers may cost an extra line. Calls
  that nothing interrupts warn once per crossing as they see it: `Queue.LinesAreRises` counts one line for each
  accepted call that leaves the buffer at the threshold or above where the accepted call before left it below, and
  `Queue.LineIffSeen` says when a further line comes. The flag stays set until a call sees a depth below the
  threshold, so a crossing that only a receive and the next call make logs nothing (`Queue.SilentCrossing`). Where
  calls race, the lines are at most the upward crossings of the threshold, one more if the run begins at a crossing
  not yet warned of, as long as no call acts on a depth that holds no more: clears the flag at the threshold or above, or
  swaps it below (`Queue.AtMostOncePerCrossing`). Both guards are needed: `Queue.RaceWarnsTwice` logs two lines for
  one crossing by a stale store, `Queue.StaleSwapWarnsTwice` by a stale swap. Calls that wait for each other keep the
  bound without either (`Queue.LockedIsAtMostOnce`). `Queue.WarnsIff` says for every run exactly when a further line
  comes.
* The memory rule says to raise the ceiling. With `report.memory_pressure_ratio` below two thirds it can suggest
  a lower limit than there is: at one half, 1200 MiB of which 600 were used become 1024
  (`Quantities.HalfThresholdLowersLimit`). `Quantities.MemoryLimitNeverShrinks` proves two thirds or more to be safe,
  `Quantities.MemoryLimitMayShrink` that nothing below is, but for one part in 10^18, and
  `Quantities.MemoryLimitShrinksIff` says for which containers it happens.

Two boundaries are none of these, because the bot does not meet them.

* `Quantities.CPULimitIsRoundedDouble` shows the function to suggest `0m` for a positive limit under a quarter of a
  millicore. The limit is read from `kube_pod_container_resource_limits` (internal/metrics/prom.go:77), and
  Kubernetes accepts no CPU quantity finer than 1m; every limit of 1m or more gets a positive suggestion.
* `Quantities.MemoryLimitCovers` shows the suggested memory limit to fall short of one and a half times the peak
  exactly when three times the peak exceeds 64 bits, that is from some 5 EiB on, which no container uses.

## Model

| member | source | states |
|---|---|---|
| BotReports.AtMostOneReply | cmd/bot/serve.go:167-198 | In every reachable world, whatever was delivered twice, reordered, dropped or failed: no note was handled twice, no note caused two reply calls, only notes that people posted caused one, and so there are never more calls than such notes |
| BotReports.OneEditableReport | internal/gitlab/gitlab.go:75-117 | In every reachable world a merge request has at most one report note that the next report could edit |
| BotReports.RootTellsItsPipeline | internal/reporter/reporter.go:55-73 | With a signing key, every thread root that bears the marker parses to the pipeline whose report was written there last and to its own merge request |
| BotReports.ReplyConcernsReport | internal/command/handler.go:61-88 | Every reply call concerns the pipeline whose report headed the thread when the command was posted |
| BotReports.DiscussedRootStays | internal/gitlab/gitlab.go:91-97 | From any world on, along any run, the root of a thread with a reply never changes |
| BotReports.ReachableInv | cmd/bot/serve.go:167-198 | The joint invariant of the loop (handled once, bot notes recognisable, roots and topics recorded truly) holds in every reachable world |
| BotReports.SendUpsertKeepsReports | internal/reporter/reporter.go:60-73 | Writing a report keeps the per-merge-request thread invariant, whether it edits, creates, is refused or loses its answer |
| BotReports.AuthorizeKeepsReports | internal/command/handler.go:61-88 | Deciding about a command keeps it: the pipeline of the reply is the one recorded for the note |
| BotReports.PreparedIsSigned | internal/reporter/reporter.go:55-68 | Every report body about to be written bears the marker and, with a key, parses to its own pipeline and merge request |
| BotOrigins.PrepareIff | internal/reporter/reporter.go:34-73 | A report is written if and only if its data could be built and a merge request is known, the event's own or else its branch's: on exactly that merge request of the event's project, about the event's pipeline and status, under the marker for both |
| BotOrigins.ReportFromItsEvent | internal/reporter/reporter.go:34-73 | In every reachable world, every report ever written on a merge request stems from a pipeline of the same project that ended successfully or not, has its number, and was meant for that merge request or for a branch that was answered to have it |
| BotOrigins.UpsertLands | internal/reporter/reporter.go:68-70 | A report that is written is the root of one thread of its merge request, edited in place or new; every other thread there and everything on other merge requests stays |
| BotOrigins.ReplyLands | internal/command/handler.go:107-115 | A reply that is written follows the notes of the thread in which its command was posted, and everything else stays |
| BotOrigins.AdmitIff | internal/webhook/handler.go:148-218 | The webhook lets in exactly ended pipelines, and exactly commands on merge requests where commands are enabled, as what they are |
| BotQuiet.EveryScheduleStops | internal/command/handler.go:49-60 | Without new human steps every schedule of deliveries and bot steps comes to an end, however often each bot note is echoed as a hook |
| BotQuiet.StepDescends | internal/webhook/handler.go:198-200 | Every delivery and every step of the bot lowers a measure: admitted deliveries, queued events and work in hand, then pending deliveries |
| BotQuiet.EchoIsDead | internal/webhook/handler.go:198-200 | Hooks for a note of the bot's add nothing that the webhook filter admits |
| BotQuiet.StuckIsQuiet | cmd/bot/serve.go:171-184 | The bot has no step to take exactly when nothing is pending, queued or in hand, so a run can only end quiet |
| BotQuiet.FallsQuiet | cmd/bot/serve.go:171-184 | Without new human steps, a schedule that takes a delivery or a bot step whenever there is one reaches a world with nothing pending, queued or in hand |
| BotQuiet.NoCommandIsLost | cmd/bot/serve.go:169-198 | Along any run, people's steps and failing calls included, a note that was queued has been handled exactly once whenever the bot is quiet |
| BotQuiet.EveryCommandIsHandled | cmd/bot/serve.go:169-198 | Left alone, the bot reaches a quiet world in which the queued note has been handled exactly once |
| Bot.StepKeepsSound | internal/webhook/handler.go:182-218 | Every step keeps: each note is marked and no command, or was posted by somebody in that place; and only the latter are ever queued, handled or answered |
| Bot.StepKeepsOnceOnly | cmd/bot/serve.go:187-198 | Every step keeps the handled notes and the reply calls free of repetition; a failed handling is not retried |
| Bot.PreparedIsBotBody | internal/report/report.go:116-158 | Every report body bears the marker prefix and is no command |
| Queue.EveryInterleaving | cmd/bot/serve.go:69-88 | Under every interleaving of callers and worker: accepted events are the consumed ones followed by the buffer, the buffer keeps within capacity, and warnings minus resets is one while the flag is set and zero otherwise |
| Queue.WarnAtIsLeast | cmd/bot/serve.go:58-65 | The warning depth is the first that is 80 percent of the capacity or more |
| Queue.WarnsIff | cmd/bot/serve.go:51-55 | For every run from a set flag: a further warning is logged if and only if some call clears the flag and a later one swaps it; from a cleared flag, if and only if some call swaps it |
| Queue.AtMostOncePerCrossing | cmd/bot/serve.go:51-55 | For every run in which no call clears the flag at warnAt or above or swaps it below: the lines logged are at most the steps that take the buffer from below warnAt to it or above, plus one if the flag is clear and the depth at warnAt or above at first |
| Queue.LineNeedsLow | cmd/bot/serve.go:51-55 | For every run from a set flag without a stale store: a further line means that some state, the first included, holds fewer events than warnAt; the number of lines is not bounded by this |
| Queue.AgainIffStale | cmd/bot/serve.go:53-55 | While the buffer stays at warnAt or above, a further warning comes if and only if a stale store is made and a later call swaps |
| Queue.LockedIsNeverStale | cmd/bot/serve.go:53-55 | If calls wait for each other, whenever the worker receives, no store is stale |
| Queue.LockedIsAtMostOnce | cmd/bot/serve.go:53-55 | If calls wait for each other, the lines logged are at most those crossings and one owed before, even where a receive makes a swap stale |
| Queue.EnqueueAloneIsSteps | cmd/bot/serve.go:69-88 | A call that nothing interrupts, taken as its three atomic steps, puts its event last, leaves the flag set exactly when the depth has reached warnAt, and logs a warning exactly when that sets a cleared flag |
| Queue.LinesAreRises | cmd/bot/serve.go:69-88 | Calls that nothing interrupts, receives and hand-overs between them, log exactly as many lines as there are accepted calls that leave the buffer at warnAt or above where the accepted call before left it below; the flag tells where the last one left it |
| Queue.LineIffSeen | cmd/bot/serve.go:69-88 | For such calls: from a set flag a further line comes if and only if an accepted call leaves the buffer below warnAt and a later one at or above; from a cleared flag, if and only if one leaves it at or above |
| Queue.SilentCrossing | cmd/bot/serve.go:51-55 | From a set flag and a depth of warnAt, a receive and a call cross the threshold twice and log nothing |
| Queue.MovesAreSteps | cmd/bot/serve.go:69-88 | Every sequence of such calls, hand-overs and receives is a run of the atomic steps with the same end |
| Queue.LateStore | cmd/bot/serve.go:52-55 | A call that read a low depth clears the flag after another has warned, and the next crossing warns again |
| Queue.RaceWarnsTwice | cmd/bot/serve.go:52-55 | An interleaving from the empty queue logs two lines although nothing was received and the threshold was crossed once at most |
| Queue.StaleSwapWarnsTwice | cmd/bot/serve.go:52-55 | An interleaving from the empty queue without a stale store logs two lines for one crossing, by a stale swap |
| Worker.EventQueue.Enqueue | cmd/bot/serve.go:69-88 | Refuses exactly when full; the new state is that of an uninterrupted call in the step model |
| Worker.EventQueue.Receive | cmd/bot/serve.go:176-176 | Hands out the oldest event |
| Worker.Webhook.Receive | internal/webhook/handler.go:113-146 | Answers 401 exactly to requests that do not authenticate, 400 exactly to malformed payloads of the two event types it routes, 503 exactly when an admitted event is dropped, else 200; leaves the buffer that a delivery leaves in the closed loop, and the queue alone otherwise |
| Worker.Webhook.HandlePipeline | internal/webhook/handler.go:148-180 | A terminal status is offered to the queue, any other answered 200; malformed payloads get 400 |
| Worker.Webhook.HandleNote | internal/webhook/handler.go:182-218 | A merge request note that is a command is offered to the queue, any other answered 200; malformed payloads get 400 |
| Worker.NoteWorker.ProcessNote | cmd/bot/serve.go:187-198 | A note that was seen is dropped; any other is remembered first, then handled, with at most one reply |
| Worker.NoteStepsAgree | cmd/bot/serve.go:187-198 | Processing a note in one go ends where the closed loop's separate steps end |
| Threads.MergeRequest.UpsertNote | internal/gitlab/gitlab.go:80-117 | The paged scan edits the first editable report or creates one; a page that fails before the scan is decided changes nothing; a lost answer reports failure though the note is there |
| Threads.UpsertShowsBody | internal/gitlab/gitlab.go:75-117 | After an upsert that is carried out exactly one editable report exists, it shows the new body, and every other thread is as it was |
| Threads.UpsertKeepsOthers | internal/gitlab/gitlab.go:91-97 | A thread with a reply, or whose root is a system note or bears no marker, is never touched |
| Threads.UpsertTwice | internal/report/marker.go:12-15 | Upserting again only replaces the body: a second upsert leaves what it alone would have left in that place |
| Threads.OneReportIff | internal/gitlab/client.go:30-33 | The number of report notes stays the same exactly when one is editable and grows by one otherwise; one note is left exactly when there was none or one without a reply |
| Threads.DiscussedReportGetsSecond | internal/gitlab/gitlab.go:75-79 | One report with a reply becomes two report notes |
| Handler.ResolveTarget | internal/command/handler.go:179-227 | The two searches with their early returns compute the resolution that the lemmas are about |
| Handler.TargetBelongsToPipeline | internal/command/handler.go:176-227 | Charts are drawn only for a pod that ran a job of the report's own pipeline, the job or the pod being the one named |
| Handler.ResolvedJob | internal/command/handler.go:185-202 | The first job of that name decides: not part of the report if there is none, if it never ran or had no pod; otherwise its pod over its own window; an error exactly when its pod cannot be looked up |
| Handler.ResolvedPod | internal/command/handler.go:203-224 | The first job that ran on the pod, or whose pod cannot be looked up, decides; the window is the pod's active span, or without one the job's |
| Handler.ReplyIffAuthorized | internal/command/handler.go:46-89 | A reply about a pipeline is given if and only if the note is an unmarked command under a root that the bot wrote and whose first marker text pins that pipeline and this merge request with the bot's key, and the calls the answer needs succeed; nothing that is authorised is ignored |
| Handler.ReplyIsAboutRoot | internal/command/handler.go:61-74 | A reply is given only under a root that bears the marker, about the pipeline its signature pins, on the merge request it pins |
| Answers.ReplyIff | internal/command/handler.go:46-115 | A reply with a given body is given if and only if the note is authorised for the pipeline and the body is the answer, asked for the event's project and that pipeline, with the marker below it; handling fails exactly when the root or the answer cannot be had |
| Answers.DetailsIff | internal/command/handler.go:117-166 | The answer to details is the charts of the target's pod over its window, or that it has no metrics, or that the target is not part of the pipeline, each exactly in its case, told from the jobs of that pipeline of that project |
| Answers.ResolveIff | internal/command/handler.go:176-227 | The target is a pod over a window if and only if the deciding job of that pipeline of that project says so, and not part of the report if and only if none does |
| Answers.AdviseIff | internal/command/handler.go:91-105 | The answer to advise is the advice on that pipeline and name, or that the job is not part of it, or that there is no advisor, each exactly in its case |
| Answers.HelpIs | internal/command/command.go:106-113 | The answer to help is the help text, whatever the services say |
| Answers.AnswerAgrees | internal/command/handler.go:80-227 | Services that say the same about that pipeline of that project get the same answer: nothing else is asked |
| Handler.ReplyIsBotBody | internal/command/handler.go:107-115 | Every reply, whatever names and texts it quotes, bears the marker and is itself no command |
| Handler.AnswerIsBotBody | internal/command/handler.go:80-166 | The same for each of the answers: help, charts, advice, refusals |
| Command.ParseIsTokenRule | internal/command/command.go:60-104 | The parser built from the three regular expressions is the rule on white-space tokens of the first non-blank line: verb, verb and name, or verb, keyword and name |
| Command.DetailsRun | internal/command/command.go:62-62 | What the details pattern captures, with its optional keyword that may also be the name |
| Command.AdviseRun | internal/command/command.go:63-63 | What the advise pattern captures, with its optional tail and keyword |
| Command.HelpRun | internal/command/command.go:61-61 | The help pattern matches the word alone, in any letter case |
| CommandPrinter.CommandRoundTrip | internal/command/command.go:69-104 | Any command written in its explicit form reads back, whatever the blank lines before, the padding, the gaps, the letter case of verb and keyword and the lines after |
| CommandPrinter.ShortFormRoundTrip | internal/command/command.go:82-92 | Without a keyword, details of a name beginning with runner- is about a pod and of any other name about a job, and advise is about the job, under the same freedom of blank lines, padding, gap and case |
| CommandPrinter.ParsedIffPrintable | internal/command/command.go:69-95 | The commands that notes can give are exactly those that can be written in that form |
| CommandPrinter.JobNamedJob | internal/command/command.go:62-63 | `details job` and `advise job` name a job called "job" |
| CommandReject.RejectByFirstChar | internal/command/command.go:60-95 | A body whose first character can begin no verb is no command |
| CommandReject.RejectByFirstWord | internal/command/command.go:60-95 | A body whose first word is not a verb is no command |
| Marker.SignedMarkerRoundTrip | internal/report/marker.go:17-46 | A signed marker at the start of any text parses to its pair, for all non-negative 64-bit numbers and keys |
| Marker.MatchIsMarker | internal/report/marker.go:30-30 | The pattern matches where, and only where, a marker text stands, and captures its three fields |
| Marker.ParseMarkerFirst | internal/report/marker.go:34-46 | A body that begins with a well-formed marker is accepted exactly when the signature is that of its pair |
| Marker.AcceptedIffPinned | internal/report/marker.go:32-46 | For any body, pair and key: the body is accepted for the pair if and only if its first marker text carries numerals that read as the pair and the signature of the pair |
| Marker.AcceptedMarkerIsSigned | internal/report/marker.go:34-46 | Acceptance means that the first marker text of the body carries the signature of the returned pair |
| Marker.SignedTextInjective | internal/report/marker.go:17-21 | The text that is signed determines the pair |
| Marker.MarkerTextIs | internal/report/marker.go:12-30 | The marker text written out, and which characters stand in its fields |
| Marker.NoPrefixNoMarker | internal/report/marker.go:12-15 | A body without the prefix has no marker |
| Report.Render | internal/report/report.go:116-179 | The builder and its row loop write the body that the lemmas are about: marker, title, then the notice or the summary with its totals and wall clock and one row per job |
| Report.ReportRoundTrip | internal/report/report.go:116-134 | The marker is found again in a whole rendered report, whatever marker-like text names, status and cells contain |
| Report.ReportIsBotBody | internal/report/report.go:116-134 | A report, signed or not, bears the prefix and is no command |
| Report.TotalsAreShown | internal/report/report.go:136-148 | The summary shows each total of the jobs under its name, and the wall clock if there is one |
| Report.RowShows | internal/report/report.go:160-179 | A job's row shows its stage, name and each figure in the order of the headings, or that there are none |
| Report.RowInPlace | internal/report/report.go:153-155 | The tables end with one row per job, in the jobs' order |
| Report.HeadingsAre | internal/report/report.go:150-152 | The headings of the rows stand right above them |
| Report.TitleIsShown | internal/report/report.go:126-126 | The title names the pipeline and its status |
| Reporter.Build | internal/reporter/reporter.go:79-124 | One row per job in order, with its stage, name and times, and usage exactly for jobs that ran, were traced to a pod and measured; ranJobs is the number of jobs that ran; fails only when the listing fails |
| Reporter.NoticeIffNothingMeasured | internal/report/report.go:128-134 | The notice stands for the table exactly when some job ran and none that ran could be measured |
| Totals.WallClock | internal/report/report.go:94-114 | The loop computes the wall clock that the next row is about |
| Totals.WallClockIs | internal/report/report.go:94-96 | The span from the earliest start to the latest finish among jobs that ran, attained by such jobs; nothing exactly when that span would not be positive |
| Totals.AddUp | internal/report/report.go:75-92 | The loop gives each column's sum over the measured jobs, wrapped at 64 bits, and the greatest peak |
| Totals.PeakIsGreatest | internal/report/report.go:67-68 | The peak bounds every measured job's, is attained, and never exceeds the unwrapped sum of peaks |
| Totals.SumCat | internal/report/report.go:75-92 | A column's sum is additive over lists of jobs and, of one job, its figure or nothing |
| Figures.HumanBytesLoop | internal/report/report.go:230-242 | The scaling loop writes the number in the one unit of which it is at least one and less than 1024; its divisor does not overflow |
| Figures.UnitsSuffice | internal/report/report.go:236-241 | Six unit letters suffice for every 64-bit number, so the index never leaves them |
| Figures.BytesRead | internal/report/report.go:207-242 | A byte count reads as whole bytes below 1024, and else with the letter of the power of 1024 it was divided by, of which it is at least one and less than 1024; a dash stands for zero where zero means unset |
| Figures.DurationReads | internal/report/report.go:181-192 | A duration reads as its minutes and seconds below an hour, and as its hours and whole minutes from there |
| Figures.CoresRead | internal/report/report.go:198-205 | Cores read as the nearest millicores, and as a dash only when there are none |
| Trace.PodForJob | internal/correlate/trace.go:39-59 | The scanner loop with its line cap computes the scan that the lemmas are about |
| Trace.StripInvertsInsertion | internal/correlate/trace.go:20-21 | Stripping a text into which accepted control sequences were put anywhere gives the text back |
| Trace.GoodCsi | internal/correlate/trace.go:20-21 | What may be put in: ESC, a bracket, digits and semicolons, and a letter |
| Trace.InsertionKeepsPod | internal/correlate/trace.go:45-58 | Putting such sequences anywhere into a trace whose lines fit the scanner leaves the outcome unchanged, even where one separates a carriage return from its line feed |
| Trace.SamePodOfLine | internal/correlate/trace.go:48-49 | The same of one line |
| Trace.ScanIsFirstLine | internal/correlate/trace.go:45-58 | The outcome is that of the first line that names a pod or exceeds the cap |
| Trace.FindPodIff | internal/correlate/trace.go:23-25 | A line names a pod if and only if the pod is the maximal non-space run in the first "Running on … via " of the line, and none exactly when it holds no such phrase |
| Trace.PhraseMatches | internal/correlate/trace.go:23-25 | The pattern matches where, and only where, that phrase stands, and captures its pod |
| Trace.PodBeforeCR | internal/correlate/trace.go:23-25 | A carriage return at the end of a line changes nothing about the pod it names |
| Advice.Advise | internal/reporter/advise.go:19-59 | The job loop returns the specified advice and asks for exactly the traces that some rule needs, in job order |
| Advice.Analyze | internal/advice/advice.go:109-116 | The rule loop concatenates the rules' findings in registration order |
| Advice.CheckIff | internal/advice/advice.go:109-122 | Each rule has exactly one finding, about the job and with the rule's text, if and only if its condition on usage, duration and trace holds |
| Advice.JobAdviceIff | internal/reporter/advise.go:33-54 | The advice about a job is the rules' findings on that job's own name, stage, usage, running time and trace, in the rules' order; none about a job that never ran |
| Advice.ChecksCat | internal/advice/advice.go:109-116 | Rules that follow others have their findings after theirs |
| Advice.AdviceInPlace | internal/reporter/advise.go:32-54 | Each job's advice stands right where that of the jobs before it ends |
| Advice.AdviceOfCat | internal/reporter/advise.go:32-54 | Advice on a list of jobs followed by another is that on the one followed by that on the other, and on one job the job's own |
| Advice.AdviseByIs | internal/reporter/advise.go:19-30 | Without a filter all jobs are advised on, with one the job it picks; the two failures come exactly in their cases |
| Advice.FetchesIff | internal/reporter/advise.go:43-53 | The traces fetched are exactly those of throttled jobs that ran, if the rule about Java is selected |
| Advice.FetchesCat | internal/reporter/advise.go:43-53 | Traces are fetched in the jobs' order, at most one per job |
| Advice.LazyIsEager | internal/reporter/advise.go:43-53 | For any selected rules, any thresholds and any failing calls, fetching traces only on demand gives the advice that fetching all would give |
| Advice.TracesIgnored | internal/advice/java_threads.go:18-29 | Rules that do not ask for a trace give the same findings with any trace |
| Advice.AdviseIsSumOfJobs | internal/reporter/advise.go:19-59 | With distinct ids, advice about the pipeline is the advice about each job, asked for by its decimal id, in job order |
| Advice.FindJobIs | internal/gitlab/find.go:12-31 | A selector picks the first job whose number it is, else the first job with that name, else none |
| Advice.FindJobById | internal/gitlab/find.go:12-31 | A job's decimal id finds that job, whatever other jobs are named |
| AdviceRender.Render | internal/advice/render.go:16-41 | The two nested loops write the text of the grouped blocks |
| AdviceRender.CollectJobs | internal/advice/render.go:43-55 | The loop with its `seen` map lists exactly the named jobs, each once, a job before another exactly as their first items come |
| AdviceRender.GroupingIsStable | internal/advice/render.go:11-37 | For the pipeline and for each job, the items shown are its items, all of them, in input order |
| AdviceRender.GroupingIsPermutation | internal/advice/render.go:11-37 | Every item is shown exactly once |
| AdviceRender.JobOrderIsRight | internal/advice/render.go:43-55 | Exactly the named jobs get a heading, each one heading |
| AdviceRender.JobOrderIsByFirstName | internal/advice/render.go:14-15 | Of two headings the earlier is that of the job first named earlier in the input |
| AdviceRender.GroupStandsTogether | internal/advice/render.go:28-35 | A job's items follow its heading, and groups follow in job order |
| AdviceRender.TextIs | internal/advice/render.go:16-41 | The whole text: the remark when there is nothing to say; else the heading, the pipeline's items, then each job's heading with its items, every item as its bold title and its body |
| AdviceRender.TrimFeedsIs | internal/advice/render.go:39-41 | A body is shown without the line feeds at its end and with all the rest |
| Quantities.CPURequestFitsLimit | internal/advice/cpu_throttle.go:52-75 | Read as Kubernetes quantities, the suggested request never exceeds the suggested limit; a measured request that fits is kept, a missing one becomes the limit |
| Quantities.CPULimitIsRoundedDouble | internal/advice/cpu_throttle.go:42-50 | A multiple of 100m, less than 100m above the rounded double, never below the measured limit; zero exactly below a quarter millicore, so positive from 1m on |
| Quantities.MemoryLimitCovers | internal/advice/memory_pressure.go:45-51 | A multiple of 128 MiB that reaches one and a half times the peak exactly when tripling the peak fits 64 bits, and is then less than a step above it |
| Quantities.MemoryLimitNeverShrinks | internal/advice/memory_pressure.go:15-24 | Advice at a threshold of two thirds or more never suggests less than the measured limit, absent overflow |
| Quantities.MemoryLimitMayShrink | internal/advice/memory_pressure.go:15-24 | At thresholds below two thirds, but for one part in 10^18, it may: one container shows it for all of them |
| Quantities.MemoryLimitShrinksIff | internal/advice/memory_pressure.go:45-51 | Without overflow the suggestion is below the measured limit if and only if some multiple of 128 MiB below that limit covers one and a half times the peak |
| Quantities.HalfThresholdLowersLimit | internal/advice/memory_pressure.go:15-34 | At a threshold of one half, a peak of 600 MiB under a limit of 1200 MiB gets advice for 1024 MiB |
| Quantities.MemoryRequestFitsLimit | internal/advice/memory_pressure.go:58-74 | Rendered in mebibytes, the request never exceeds the limit, and is the measured request (or the peak) to the mebibyte where that fits |
| Downsample.Reduce | internal/chart/markdown.go:186-207 | Each output is the average of its bucket, with every index in range and no division by zero |
| Downsample.BucketSizes | internal/chart/markdown.go:193-198 | With more samples than buckets every bucket is non-empty, sizes differ by at most one, the first begins at 0 and the last ends at the length: both guards are dead |
| Downsample.BucketOf | internal/chart/markdown.go:193-195 | Every sample lies in exactly one bucket |
| Downsample.BoundIs | internal/chart/markdown.go:194-195 | A bucket begins at the greatest place not beyond its share of the length |
| Downsample.StaysBetween | internal/chart/markdown.go:186-207 | No output leaves the range of the samples |
| Downsample.KeepsTotal | internal/chart/markdown.go:186-207 | The outputs weighted by their bucket sizes add up to the samples |
| AsciiChart.Plot | internal/chart/markdown.go:26-89 | The whole grid: cells as specified by the picture, rows from the least and greatest column value, width of the longest series, nothing drawn exactly when no series has a sample |
| AsciiChart.FillGrid | internal/chart/markdown.go:63-89 | Every cell shows the marker of the last series plotted there, else a connector exactly when some series passes strictly between its rows at the column before and this one, else a blank |
| AsciiChart.CellShows | internal/chart/markdown.go:74-89 | Overwriting series after series, connectors only in blanks, makes that picture for any number of series |
| AsciiChart.DrawPoint | internal/chart/markdown.go:77-88 | One value changes its own column only: its marker and the blanks strictly between the two rows |
| AsciiChart.Extent | internal/chart/markdown.go:53-58 | The running extremes are the least and the greatest of all column values |
| AsciiChart.RowsFollowValues | internal/chart/markdown.go:70-73 | Rows reverse the order of values, the maximum is in the first row and the minimum in the last, and the clamp is idle inside the axis |
| AsciiChart.RowIsNearest | internal/chart/markdown.go:70-73 | A value's row is the one nearest to its exact height, the lower of two as near |
| AsciiChart.LineIsUnbroken | internal/chart/markdown.go:77-88 | With one series, every row between two neighbouring values is marked in one of their columns |
| Raster.Bounds | internal/chart/chart.go:153-174 | The running bounds contain every sample, each side is attained before a flat axis is widened, and no axis is flat |
| Raster.Render | internal/chart/png.go:19-38 | Every pixel shows the ink of the last layer that covers it, the layers being the title, then each series' line and its label in the palette's colours in turn; white where there is none |
| Raster.DrawText | internal/chart/png.go:49-57 | Of the pixels that the font gives the text at its place, sets exactly those in the image, and no other |
| Raster.DrawLine | internal/chart/png.go:59-76 | Sets exactly the dots of the segment, floor(steps)+1 rounds, each with the pixel below |
| Raster.DrawSeries | internal/chart/png.go:28-36 | Sets exactly the dots of the polyline through the projected points |
| Raster.SetPixel | internal/chart/png.go:78-83 | Sets one pixel, or none outside the image |
| Raster.NothingIsClipped | internal/chart/png.go:78-83 | All dots of every chart stay in the plot rectangle, at most one pixel lower: the clip never fires |
| Raster.SegmentUnbroken | internal/chart/png.go:68-75 | A segment begins on its first point, moves at most one pixel per axis and round, and ends within a pixel of its last point |
| Raster.LineIsUnbroken | internal/chart/png.go:28-36 | The same of a whole polyline, across its joints |
| Raster.NoColumnIsSkipped | internal/chart/png.go:59-76 | Between any two dots of such a line no pixel column is left out |
| Raster.ProjectInside | internal/chart/chart.go:176-187 | A sample inside the bounds is drawn inside the plot rectangle |
| Raster.ProjectIsProportional | internal/chart/png.go:30-31 | Places change in proportion to samples, to the right with time and upward with the value |
| Raster.ProjectCorners | internal/chart/png.go:30-31 | The extremes of the bounds stand on the edges of the plot rectangle, the greatest value on the upper one |
| Raster.ProjectFollows | internal/chart/png.go:30-31 | A sample is later than another if and only if it stands further right, and greater if and only if it stands higher |
| Raster.DotIsOnSegment | internal/chart/png.go:61-83 | Every dot of a segment is the pixel nearest to a place on it, one whole step further along for each round, with the pixel below |
| Raster.LayersAre | internal/chart/png.go:23-38 | The title, then each series' line and label, where they stand and in which colours |
| Raster.LineIsSeen | internal/chart/png.go:26-38 | Every pixel of every series' line has the series' colour in the end, unless that of something drawn later |

## Left out

- HTTP servers, how webhooks authenticate, JSON decoding, command-line and configuration loading, logging, metrics counters and the operations endpoints: the closed loop's deliveries are authenticated and decoded, and commands are enabled only with a key, as the server checks when it starts.
- The Prometheus and GitLab client libraries and the pod-label resolver: oracles that may fail on any call and answer the same question alike within one command.
- HMAC-SHA256: an arbitrary function from key and text to a non-empty hexadecimal string; nothing is claimed about forging.
- Non-ASCII text: case folding and white space are those of ASCII, names are sequences of characters.
- Floating point: values, ratios and coordinates are exact reals, so no rounding error, NaN or infinity; conversions to integers do not overflow, and `i*len(v)` in the downsampling does not either.
- Restarts and several replicas: one process whose queue and `seen` set live as long as the run.
- The upsert's listing and writing are one step of the closed loop: a reply that lands between the two is not modelled.
- The webhook's enqueueing is one step of the closed loop; its atomic micro-steps are those of `Queue`.
- Notes that are edited, deleted or resolved by users, and merge requests that close. A discussion is identified by its place in the list.
- Timeouts and cancellation: a call that times out is a call that fails.
- The prose of the advice rules and the detection of the build tool: arbitrary functions of what the rule reads.
- The rounding of `%.1f` and `%.0f`: arbitrary functions from a real to text. Times are whole seconds.
- Rule selection by name (`New`): the engine's theorems hold for any list of the four rules.
- Raster.DrawText: the bitmap font is foreign code, so its pixels are an arbitrary set for each text and place.
- The text chart's axis labels and legend, the SVG chart, PNG encoding, colours beyond their place in the palette, uploads.
- Draining a queue of capacity zero through a waiting receiver: `Queue` has the hand-over step, `Worker.EventQueue` does not.
- Regular expressions: only the constructs that the patterns use, with the backtracking order of leftmost-first matching.
