# FFmpegWebUI services in Dafny

FFmpegWebUI is a web front end for the ffmpeg transcoder. Its services keep conversion templates and jobs in a document store. They turn a template into an ffmpeg argument string and run the transcoder on it, following its progress. They group jobs into batches and detect which hardware encoders the machine offers. This project models those services and proves what their code promises.

The modules follow the services:

- `Command` (`BuildCommand`): the ordered chain of literal replacements that turns a template's arguments into a command line.
- `Progress` (`ParseProgress`): reads the elapsed time, speed, percentage and remaining time out of one diagnostic line.
- `Probe`: the first-match extraction from the version banner, the media probe's JSON and the format and codec listings, with their fixed defaults.
- `FFmpeg` (`FFmpegService`): the conversion driver as a class. Its registry of running processes is a set, with a log of register, deregister and kill events. The process run itself is an input.
- `Batches`: the batch recount and the batch status rule.
- `Tasks` (`TaskService`): a class over the Tasks and BatchTasks collections. It covers creation of jobs and batches, the guarded start, the job life cycle `Pending -> Running -> {Completed, Failed, Cancelled}`, cancellation, history queries and clean-up. Status and progress notifications are appended to logs.
- `Hardware` (`HardwareDetectionService`): the encoder catalogue, the parsing of the encoder listing and the test-encode verdict. It also has the detection loop with its 30-minute cache, and the encoder recommendation.
- `Templates` and `Presets` (`TemplateService`): the template store with its System/User guards, copying, preset initialisation and reset, and the ordered queries. The twenty presets are data.
- `Files` (`FileService`): Windows path decomposition and `Path.Combine`, `GenerateOutputPath`, the deterministic part of `FormatFileName`, and the extension filter and ordering of `ScanMediaFiles`.
- `Models`, `Text`, `Sequences`, `Wrappers` hold the shared pieces:
  - the records;
  - .NET string, regex-class and number-formatting behaviour over `seq<char>`;
  - filtering, counting and an insertion sort proved to sort and permute;
  - `Option` and `Result`.

Modelling choices:

- **Stores.** Each collection is a `map<nat, Record>`. A counter `nextId` hands out fresh object ids. The natural order of a collection is ascending id.
- **Unique indexes.** The unique index on template names makes a clashing insert or update fail with `DuplicateKey`. The unique index on encoder names never fires, because the catalogue's names are distinct (`Hardware.CatalogueDistinct`).
- **Time and numbers.** Instants are tick counts supplied by the caller. Media times, percentages and speeds are exact reals. The `time=` token is read in hundredths of a second.
- **Processes.** Every process the services start is an input: the exit code, the diagnostic text, a time-out, a failure to start, or a cancelled wait.
- **Host.** The host is Windows: both `\` and `/` separate path parts, `C:` is a volume, and a new line is `\r\n`. The current culture writes the decimal separator as `.` and uses the Gregorian calendar, as en-US and zh-CN do. `double.Parse` and `int.Parse` are called without a culture, so they follow it, and so does the batch name's `DateTime.Now:yyyy-MM-dd HH:mm`.
- **Regex classes.** Regex `\s` is the .NET white-space set. `\d` and `\w` are taken as their ASCII members.

Where the code and the prose description of the project disagree, the model follows the code:

- `ScanMediaFiles` compares extensions exactly when no list is requested. Its default set is a `HashSet` with the ordinal comparer (`Files.ExtensionCase`).
- `CancelTaskAsync` on a Pending job does not recount the job's batch. Only the terminal paths of `StartTaskAsync` do.

## Model

| member | source | states |
|---|---|---|
| Command.Placeholder | Services/FFmpegService.cs:167 | the token an override replaces is its key between one opening and one closing brace |
| Command.BuildCommand | Services/FFmpegService.cs:153-177 | the command is the template's arguments with `{input}` and `{output}` replaced first, then every override in iteration order, then the defaults `libx264`, `aac` and `23` for `{encoder}`, `{audio_encoder}` and `{crf}` |
| Command.Untouched | Services/FFmpegService.cs:159-161 | an ordinal replacement of a brace-led token leaves text with no opening brace unchanged |
| Command.Intact | Services/FFmpegService.cs:165-168 | replacing one brace-free key leaves a placeholder of another key verbatim and rewrites the text on both sides of it independently |
| Command.ReplaceHere | Services/FFmpegService.cs:167 | a single occurrence of `{k}` between brace-free texts becomes the override's value |
| Command.OverridesUntouched | Services/FFmpegService.cs:163-169 | the overrides leave text without an opening brace unchanged, whatever they are |
| Command.NoPlaceholderUnchanged | Services/FFmpegService.cs:159-176 | a template with no opening brace is returned as the command whatever the paths and overrides |
| Command.OverridesKeepPlaceholder | Services/FFmpegService.cs:165-168 | a placeholder whose key no override names survives the whole round of overrides |
| Command.UnknownPlaceholderSurvives | Services/FFmpegService.cs:159-175 | a placeholder that is neither a built-in key nor an override key is still in the finished command |
| Command.DefaultQuality | Services/FFmpegService.cs:174 | without overrides, `{crf}` between brace-free texts becomes `23` |
| Command.DefaultQualityExample | Services/FFmpegService.cs:174 | `-crf {crf}` with no overrides becomes `-crf 23` |
| Command.OverrideWins | Services/FFmpegService.cs:163-175 | an override for a default key is applied before the default, so its value, not the default, ends up in the command |
| Command.ApplyOverrides | Services/FFmpegService.cs:163-169 | no contract of its own: each override's `{key}` is replaced in order; its effect is stated by Command.ReplaceHere, Command.OverridesUntouched, Command.OverridesKeepPlaceholder and Command.OverrideWins |
| Command.ApplyDefaults | Services/FFmpegService.cs:172-174 | no contract of its own: `{encoder}`, `{audio_encoder}` and `{crf}` become `libx264`, `aac` and `23`; stated by Command.DefaultQuality and Command.UnknownPlaceholderSurvives |
| Progress.FindTime | Services/FFmpegService.cs:292 | the leftmost position at or after the start where `time=HH:MM:SS.ff` matches, or none exactly when no position matches |
| Progress.Seconds | Services/FFmpegService.cs:203 | the seconds group `SS.ff` read as a decimal lies in [0, 100) |
| Progress.Hundredths | Services/FFmpegService.cs:201-204 | the elapsed time in hundredths, divided by 100, is hours × 3600 + minutes × 60 + seconds |
| Progress.FindSpeed | Services/FFmpegService.cs:295 | the leftmost position where `speed=`, blanks, digits-and-dots and `x` match, or none exactly when no position matches |
| Progress.SpeedText | Services/FFmpegService.cs:295 | the captured speed text is a non-empty run of digits and dots |
| Progress.SpeedOf | Services/FFmpegService.cs:209-214 | no speed without a speed token; otherwise the leftmost token's captured text read as a decimal (so a speed is never negative) |
| Text.ParseDecimal | Services/FFmpegService.cs:213 | a digits-and-dots text is a number exactly when it has at most one dot and some digit, and its value is the digits read as a whole number divided by ten to the number of digits after the dot |
| Text.ParseInt32 | Services/FFmpegService.cs:72 | `int.Parse` of a digit run: its decimal value when that is at most 2147483647, and a failure exactly when it is larger |
| Text.ReplaceAll | Services/FileService.cs:89 | no contract of its own: `string.Replace`, left to right without overlap, ordinal or ignoring case; Text.ReplaceAbsent and Text.ReplaceConcat state that text without the needle is kept and that replacement splits at a seam no match crosses |
| Progress.ElapsedSeconds | Services/FFmpegService.cs:204 | the current time is hours × 3600 + minutes × 60 + seconds and is not negative |
| Progress.Percentage | Services/FFmpegService.cs:206-225 | the percentage is at most 100, not negative for a non-negative time, zero for a non-positive total, the elapsed fraction of the total up to the end and exactly 100 past it |
| Progress.Eta | Services/FFmpegService.cs:217-222 | an estimate exists exactly when the speed is known and positive and the total positive, and estimate × speed is the remaining time |
| Progress.ProgressAt | Services/FFmpegService.cs:224-231 | the record's percentage lies in [0, 100] |
| Progress.ParseProgress | Services/FFmpegService.cs:195-232 | no record exactly when the line has no time token; otherwise the record built from the leftmost token |
| Progress.ParseProgressTime | Services/FFmpegService.cs:201-204 | a record's current time is the leftmost token's hours, minutes and seconds, and is not negative |
| Progress.ParseProgressPercentage | Services/FFmpegService.cs:206-225 | a record's percentage lies in [0, 100], is zero for a non-positive total, is the elapsed fraction up to the end and is 100 past it |
| Progress.ParseProgressEcho | Services/FFmpegService.cs:224-231 | a record keeps the given total, the raw line and the line's speed |
| Progress.ParseProgressEta | Services/FFmpegService.cs:217-222 | a record carries an estimate exactly when a positive speed and total are known, and it is the remaining time over the speed |
| Progress.EtaNegativePastEnd | Services/FFmpegService.cs:220-221 | the estimate is not clamped: once the current time is past the total it is negative |
| Progress.HandleLine | Services/FFmpegService.cs:106-115 | an empty line gives no record; any other line gives what ParseProgress gives |
| Progress.ProgressEvents | Services/FFmpegService.cs:106-115 | the delivered records, no more than the lines, each echoing a non-empty received line and with a percentage in [0, 100] |
| Progress.ProgressEventsAppend | Services/FFmpegService.cs:106-115 | the records of two consecutive streams of lines are the concatenation of their records |
| Progress.ProgressEventsFromLines | Services/FFmpegService.cs:110-114 | every delivered record is the handler's result for one of the received lines |
| Progress.UntimedLineSilent | Services/FFmpegService.cs:198-199 | a line without a time token delivers no record |
| Progress.ExampleTime | Services/FFmpegService.cs:198-204 | in `frame=100 time=00:01:02.50 speed=2.0x` the time token is at position 10 and spells 6250 hundredths |
| Progress.ExampleSpeed | Services/FFmpegService.cs:210-213 | in the same line the speed token is at position 27 and captures `2.0` |
| Progress.ExampleLine | Services/FFmpegService.cs:195-232 | that line with a total of 124 s gives 62.5 s elapsed, speed 2.0 and 30.75 s remaining |
| Probe.ToolPath | Services/FFmpegService.cs:19 | an empty configured path falls back to the bare program name; any other is used as given |
| Probe.Version | Services/FFmpegService.cs:30-31 | `Unknown` when no `ffmpeg version ` is followed by a word; otherwise the longest non-blank run right after the leftmost such match |
| Probe.FirstVersion | Services/FFmpegService.cs:30 | the leftmost position where `ffmpeg version ` is followed by a non-blank character; none exactly when no position matches; no other position is leftmost |
| Probe.DurationText | Services/FFmpegService.cs:277 | the first duration field's text is a non-empty run of digits and dots, and it is missing exactly when no position matches the pattern |
| Probe.QuotedText | Services/FFmpegService.cs:280-284 | the first quoted field's text is non-empty and quote-free, and it is missing exactly when no position matches the pattern |
| Probe.NumberText | Services/FFmpegService.cs:286-290 | the first numeric field's text is a non-empty run of digits, and it is missing exactly when no position matches the pattern |
| Probe.IntField | Services/FFmpegService.cs:72-75 | a missing width or height reads as 0; a present one is parsed as a 32-bit integer, which fails on overflow |
| Probe.DurationField | Services/FFmpegService.cs:63 | a missing duration reads as 0; a present one is parsed as a decimal, which fails on text such as `1.2.3`; a parsed duration is not negative |
| Probe.ParseMediaInfo | Services/FFmpegService.cs:61-89 | a record exactly when duration, width and height all parse; it holds the path, those values, the format or `unknown`, the optional video codec, no audio codec, frame rate 0 and the file size |
| Probe.GetMediaInfo | Services/FFmpegService.cs:45-95 | a record only when the probe ran and exited with 0 and the file size was read, and then the parsed one |
| Probe.ProbeDefaults | Services/FFmpegService.cs:62-89 | JSON with none of the fields yields duration 0, format `unknown`, no codec and width and height 0 |
| Probe.ProbeOverflowFails | Services/FFmpegService.cs:71-94 | a width beyond the 32-bit range makes the whole probe report nothing |
| Probe.ListingNames | Services/FFmpegService.cs:298-302 | without multi-line mode the listing pattern matches at most once, at the very start, and captures a non-empty word |
| Probe.Listing | Services/FFmpegService.cs:234-272 | at most one name, and none when the listing process could not be started |
| Probe.GetFFmpegInfo | Services/FFmpegService.cs:14-43 | a record exactly when `-version` ran and exited with 0; it holds the parsed version, the program path and the two listings |
| Probe.HeadingListingEmpty | Services/FFmpegService.cs:298-302 | output starting with a heading word, as ffmpeg's listings do, yields no names |
| FFmpeg.ExitMessage | Services/FFmpegService.cs:128 | a failure message starts with `FFmpeg exited with code ` and goes on with the code |
| FFmpeg.ExitMessageInjective | Services/FFmpegService.cs:128 | different exit codes give different failure messages |
| FFmpeg.OutcomeOf | Services/FFmpegService.cs:119-130 | the conversion completes exactly when the process exits with 0, is cancelled exactly when the wait is cancelled, and otherwise fails with the exit-code message or the launch error |
| FFmpeg.FailureNamesExitCode | Services/FFmpegService.cs:126-129 | two failed conversions with the same outcome had the same non-zero exit code |
| FFmpeg.Reports | Services/FFmpegService.cs:106-115 | no reports when the process never started; otherwise at most one per diagnostic line, each non-empty and with a percentage in [0, 100] |
| FFmpeg.RunLeavesRegistry | Services/FFmpegService.cs:117-134 | registering a process and removing it again leaves exactly the other processes registered |
| FFmpeg.CancelLeavesRegistry | Services/FFmpegService.cs:139-143 | removing and killing a process leaves exactly the other processes registered |
| FFmpeg.FFmpegService.constructor | Services/FFmpegService.cs:12 | the registry starts empty |
| FFmpeg.FFmpegService.ExecuteConversion | Services/FFmpegService.cs:97-135 | the configured executable runs on the task's command; the reports are those of the parsed diagnostic lines; the outcome follows the exit; and the task's registration is added and then removed however the run ends |
| FFmpeg.FFmpegService.CancelTask | Services/FFmpegService.cs:137-151 | a registered process is removed and then killed; an unknown id changes nothing |
| Batches.ChildrenOf | Services/TaskService.cs:231 | the tasks gathered for a batch all carry that batch's id |
| Batches.ChildrenOfComplete | Services/TaskService.cs:231 | every stored task carrying the batch's id is gathered |
| Batches.Recount | Services/TaskService.cs:224-248 | the identity, name, template, total and creation time are kept; the completed and failed counters are recounted from the children, with a cancelled child counted as failed; the completion time is set exactly when every child has finished |
| Batches.RecountBounded | Services/TaskService.cs:233-234 | the two counters together never exceed the number of children |
| Batches.RecountCompletes | Services/TaskService.cs:236-244 | the batch is Completed exactly when every child completed, or when it already was and no child is running while some is unfinished |
| Batches.RecountFails | Services/TaskService.cs:236-238 | once every child has finished, one failed or cancelled child makes the batch Failed |
| Batches.EmptyBatchCompletes | Services/TaskService.cs:236-239 | a batch with no children is Completed at once, with a completion time |
| Batches.AllCompletedCounted | Services/TaskService.cs:233 | when every child completed, the completed counter is the number of children |
| Batches.RecountWaits | Services/TaskService.cs:241-244 | while some child is unfinished the batch is Running if a child runs and otherwise keeps its status |
| Batches.RecountIdempotent | Services/TaskService.cs:224-248 | recounting again from the same children changes nothing |
| Tasks.BatchOutputPaths | Services/TaskService.cs:60-66 | one output path per input of the batch |
| Tasks.BatchOutputPathAt | Services/TaskService.cs:62-66 | the path of the `j`-th job is the `j`-th input's name with `_converted` and the template's extension, under the output directory |
| Tasks.BatchChildren | Services/TaskService.cs:60-84 | one job per input of the batch, each with its own clock reading |
| Tasks.InsertAllContents | Services/TaskService.cs:83 | inserting the jobs one after another stores the `j`-th under the `j`-th id and leaves every other record as it was |
| Tasks.BatchChildrenAt | Services/TaskService.cs:70-81 | the `j`-th job converts the `j`-th input to the `j`-th path with the template's command, under the `j`-th id after the batch's, carrying the batch id, created at the `j`-th clock reading |
| Tasks.BatchChildrenFacts | Services/TaskService.cs:70-81 | every job of a new batch is Pending, well-formed and carries the batch id |
| Tasks.ProgressEventsOf | Services/TaskService.cs:122 | one progress notification per report, with its percentage, speed and remaining time, in order |
| Tasks.LastReportWins | Services/TaskService.cs:113-121 | each report overwrites progress, position, speed and remaining time, so the last report's values stand; the log gains each report's line plus a line break, in order; nothing else changes |
| Tasks.ReportsKeepWellFormed | Services/TaskService.cs:113-121 | reports with a percentage in [0, 100] keep a job well-formed, with its status and id |
| Tasks.RunOutcome | Services/TaskService.cs:126-156 | a started job ends Completed exactly when the transcoder exits with 0 (progress 100, output size set), Cancelled exactly when the wait was cancelled (error message untouched), otherwise Failed with the failure's message; it is always finished with a completion time |
| Tasks.Started | Services/TaskService.cs:101-102 | no contract of its own: Running with its start time; Tasks.TaskService.Begin stores it and Tasks.RunWellFormed keeps the job well-formed |
| Tasks.Ended | Services/TaskService.cs:126-151 | no contract of its own: the Completed, Cancelled and Failed endings; stated by Tasks.RunOutcome and Tasks.RunOutcomeWellFormed |
| Tasks.RunOutcomeWellFormed | Services/TaskService.cs:126-156 | ending a well-formed Running job gives a well-formed finished job with the same id and batch |
| Tasks.RunWellFormed | Services/TaskService.cs:100-156 | a Pending job that is started, gets its reports and ends stays well-formed and is finished |
| Tasks.NewerFirstPreorder | Services/TaskService.cs:201 | newest-first by creation time is a total preorder |
| Tasks.FirstRunning | Services/TaskService.cs:210-213 | the first Running job in the order given, and none exactly when no job runs |
| Tasks.InsertTaskValid | Services/TaskService.cs:39 | storing a well-formed job under the fresh id keeps the stores valid |
| Tasks.UpdateTaskValid | Services/TaskService.cs:103 | replacing a job by a well-formed one with the same id and batch keeps the stores valid |
| Tasks.InsertBatchValid | Services/TaskService.cs:57 | storing a batch under the fresh id keeps the stores valid |
| Tasks.UpdateBatchValid | Services/TaskService.cs:246 | replacing an existing batch keeps the stores valid |
| Tasks.DeleteTasksValid | Services/TaskService.cs:220 | deleting jobs keeps the stores valid |
| Tasks.FreshBatchMembers | Services/TaskService.cs:57-79 | after a batch takes a fresh id, the jobs carrying it are exactly the ones stored for it: no older job can carry an id no batch had |
| Tasks.BatchJobs | Services/TaskService.cs:57-84 | after a new batch's jobs are stored, the jobs carrying the batch id are exactly those, the `j`-th under the `j`-th id after the batch's, and every older job is as it was |
| Tasks.NewTaskWellFormed | Services/TaskService.cs:27-37 | a new job is well-formed and Pending, with the given id and batch |
| Tasks.NewTask | Services/TaskService.cs:70-81 | no contract of its own: a Pending job with the built command, the probed duration and size and the given creation time; Tasks.NewTaskWellFormed and Tasks.BatchChildrenAt state it |
| Tasks.HistoryFacts | Services/TaskService.cs:191-206 | the history is newest first, holds only jobs with the requested status, no job more often than the matching jobs do (so none twice when the jobs are distinct), and has `limit` of them or all when fewer |
| Tasks.TaskService.constructor | Services/TaskService.cs:9-15 | the stores, the notification logs and the cancellation source start empty |
| Tasks.TaskService.GetTaskById | Services/TaskService.cs:185-189 | the stored job under the id, or none exactly when none is stored |
| Tasks.TaskService.StoreNewTask | Services/TaskService.cs:27-39 | the new Pending job, with its built command, probed duration and file size, is stored under the fresh id and nothing else changes |
| Tasks.TaskService.StoreTask | Services/TaskService.cs:39 | the job is stored under the fresh id and nothing else changes |
| Tasks.TaskService.CreateTask | Services/TaskService.cs:20-41 | an unknown template is refused with nothing stored; otherwise the new Pending job for the template is stored under the fresh id and returned |
| Tasks.TaskService.CreateBatchTask | Services/TaskService.cs:43-87 | an unknown template is refused with nothing stored; otherwise a Pending batch counting the inputs, named by the local time, is stored under the fresh id, followed by one Pending job per input under the ids after it; the batch takes one clock reading and each job its own |
| Tasks.TaskService.AddBatch | Services/TaskService.cs:48-84 | the batch is stored under the fresh id, stamped with its clock reading, and its jobs under the ids after it, the `j`-th stamped with the `j`-th job's reading |
| Tasks.TaskService.StoreBatch | Services/TaskService.cs:57 | the batch is stored under the fresh id and nothing else changes |
| Tasks.TaskService.AddBatchChildren | Services/TaskService.cs:60-84 | the jobs are stored in order under the ids after the batch's |
| Tasks.TaskService.Begin | Services/TaskService.cs:99-107 | the job becomes Running with its start time, the change is announced and a fresh cancellation source is made |
| Tasks.TaskService.ApplyProgress | Services/TaskService.cs:113-123 | each report in turn updates the job and is announced |
| Tasks.TaskService.ApplyReport | Services/TaskService.cs:113-122 | one report overwrites the job's progress, time, speed and remaining time, appends the raw line and a new line to its log, and appends one progress notification; nothing else changes |
| Tasks.TaskService.Finish | Services/TaskService.cs:126-156 | the job ends by the conversion's outcome and the end is announced with its message |
| Tasks.TaskService.UpdateBatchStatus | Services/TaskService.cs:224-248 | a job with no batch, or with a batch that is not stored, changes nothing; otherwise its batch is recounted from its jobs |
| Tasks.TaskService.StartTask | Services/TaskService.cs:89-162 | a missing job or one that is not Pending is refused before anything changes; otherwise the job runs to its end, its reports and status changes are applied and announced in order, its batch is recounted at a later clock reading, its process registration comes and goes, and the cancellation source is cleared |
| Tasks.TaskService.RunTask | Services/TaskService.cs:99-161 | a Pending job's whole run, from marking it Running to clearing the cancellation source; the batch is recounted at a clock reading separate from the job's start and finish |
| Tasks.TaskService.Conclude | Services/TaskService.cs:136-160 | the job's batch is recounted at its own clock reading and the cancellation source cleared |
| Tasks.TaskService.Convert | Services/TaskService.cs:109-156 | the transcoder runs the job's command, each report is applied and the job ends by the outcome |
| Tasks.TaskService.CancelTask | Services/TaskService.cs:164-183 | a Running job has its token signalled and its process killed; a Pending job becomes Cancelled at once, announced and without the driver; a missing or finished job is left alone |
| Tasks.TaskService.GetTaskHistory | Services/TaskService.cs:191-206 | the stored jobs with the requested status, or all of them, newest first, none twice, `limit` of them or all when fewer |
| Tasks.TaskService.AllTasks | Services/TaskService.cs:193 | no contract of its own: the stored jobs in ascending id order, the collection's natural order that GetTaskHistory filters and sorts |
| Tasks.History | Services/TaskService.cs:191-206 | no contract of its own: the status filter, the newest-first sort and the limit; stated by Tasks.HistoryFacts and Tasks.HistoryIsNewest |
| Tasks.TaskService.GetRunningTask | Services/TaskService.cs:208-216 | a Running stored job, and none exactly when no job runs |
| Tasks.TaskService.CleanupHistory | Services/TaskService.cs:218-222 | exactly the jobs created before the cutoff are deleted, the others keep their values, and the count is the number deleted |
| Tasks.HistoryIsNewest | Services/TaskService.cs:200-203 | no listed job is older than a matching job the limit left out |
| Presets.Build | Services/TemplateService.cs:182-193 | a preset becomes a stored System template with its id and sort order, flagged for acceleration exactly when it names an encoder |
| Presets.SystemTemplates | Services/TemplateService.cs:176-439 | twenty presets in source order, under consecutive ids, with sort orders 0, 1, 2, … counted up from zero, all System, each with the two clock readings of its `CreatedAt` and `UpdatedAt` initialisers |
| Presets.PresetNamesDistinct | Services/TemplateService.cs:176-439 | no two presets share a name, so they never clash with each other on the unique name index |
| Presets.HardwarePresets | Services/TemplateService.cs:359-437 | exactly the last six presets need an accelerator, and exactly those name the encoder they need |
| Templates.UserPart | Services/TemplateService.cs:114-122 | the User templates of the store, each unchanged |
| Templates.InsertInto | Data/LiteDbContext.cs:48 | an insert is refused for an id already stored, then for a name already stored, and otherwise adds the record |
| Templates.UpdateIn | Data/LiteDbContext.cs:48 | an update is refused when another template has the new name and otherwise replaces the record |
| Templates.InsertKeepsUnique | Data/LiteDbContext.cs:48 | an accepted insert keeps names unique and adds exactly the new id |
| Templates.UpdateKeepsUnique | Data/LiteDbContext.cs:48 | an accepted update keeps names unique and the set of ids |
| Templates.Place | Services/TemplateService.cs:107 | bulk-inserted templates sit under consecutive ids, the `i`-th under the `i`-th |
| Templates.StagedClash | Services/TemplateService.cs:107 | while presets with distinct names are staged, a clash with the next name is a clash with a record already stored |
| Templates.StagedStep | Services/TemplateService.cs:107 | staging one more template whose name is free keeps the staged names unique |
| Templates.StagedIds | Services/TemplateService.cs:107 | every staged record sits under its own id, below the advanced counter |
| Templates.CopyOf | Services/TemplateService.cs:77-92 | the copy is a User template under the fresh id, named by the given name or the source's name plus ` (副本)`, one sort place later with 32-bit wrap-around, with separate clock readings for `CreatedAt` and `UpdatedAt`, and otherwise the source's fields |
| Templates.SortOrderPreorder | Services/TemplateService.cs:17 | ordering by sort order is a total preorder |
| Templates.LexLePreorder | Services/TemplateService.cs:171 | ordinal string order is a total preorder |
| Templates.Ordered | Services/TemplateService.cs:12-17 | the selected templates, exactly those, sorted by sort order, none twice when each is stored under its own id |
| Templates.CategoryList | Services/TemplateService.cs:163-174 | exactly the non-empty categories in use, each once, in ascending ordinal order |
| Templates.TemplateService.constructor | Data/LiteDbContext.cs:39 | the collection starts empty |
| Templates.TemplateService.GetAll | Services/TemplateService.cs:10-19 | every template, or only the User ones, ordered by sort order, none twice |
| Templates.TemplateService.GetByCategory | Services/TemplateService.cs:21-29 | exactly the templates of the category, ordered by sort order, none twice |
| Templates.TemplateService.GetById | Services/TemplateService.cs:31-35 | the template stored under the id, or none exactly when none is stored |
| Templates.TemplateService.GetCategories | Services/TemplateService.cs:163-174 | exactly the non-empty categories in use, each once, in ascending ordinal order |
| Templates.TemplateService.Insert | Data/LiteDbContext.cs:48 | an accepted insert stores the record and moves the fresh-id counter past it; a refused one changes nothing |
| Templates.TemplateService.Store | Data/LiteDbContext.cs:48 | an accepted update replaces the record; a refused one changes nothing |
| Templates.TemplateService.Create | Services/TemplateService.cs:37-44 | the template is stored as a User template, `CreatedAt` and `UpdatedAt` taking their own clock readings, unless the store refuses it, in which case nothing changes |
| Templates.TemplateService.Update | Services/TemplateService.cs:46-56 | a missing or System template is refused with false and nothing changes; a User template is replaced, stamped now, unless its new name is taken |
| Templates.TemplateService.Delete | Services/TemplateService.cs:58-67 | true exactly when the id holds a User template, which is then removed; otherwise nothing changes |
| Templates.TemplateService.Copy | Services/TemplateService.cs:69-96 | a missing source is refused with nothing stored; otherwise the copy is stored under the fresh id unless its name is taken |
| Templates.TemplateService.InsertBulk | Services/TemplateService.cs:107 | all the templates under consecutive fresh ids or, when one of their names is taken, none |
| Templates.TemplateService.Initialize | Services/TemplateService.cs:98-109 | nothing changes when a System template exists; otherwise the presets are added, or none of them when a name is taken |
| Templates.TemplateService.SystemIds | Services/TemplateService.cs:114-117 | exactly the ids of the stored System templates |
| Templates.TemplateService.DeleteAllSystem | Services/TemplateService.cs:119-122 | the deletions one id at a time leave exactly the User templates, each unchanged, and keep the id counter |
| Templates.TemplateService.Reset | Services/TemplateService.cs:111-128 | every System template is deleted and the presets inserted; the deletions stand when the insert is refused |
| Templates.TemplateService.CreateSystem | Services/TemplateService.cs:130-137 | the template is stored as a System template, `CreatedAt` and `UpdatedAt` taking their own clock readings, unless the store refuses it, in which case nothing changes |
| Templates.TemplateService.UpdateSystem | Services/TemplateService.cs:139-150 | a missing id is refused with false; otherwise the record is replaced, kept System and stamped now, unless its new name is taken |
| Templates.TemplateService.DeleteSystem | Services/TemplateService.cs:152-161 | any stored template is removed, true exactly when the id was stored |
| Templates.PlacedPresetsSystem | Services/TemplateService.cs:176-439 | every inserted preset is a System template |
| Templates.InitializeIdempotent | Services/TemplateService.cs:101-104 | once the presets are in, a System template exists, so initialising again changes nothing |
| Templates.ResetKeepsUsers | Services/TemplateService.cs:111-128 | a reset leaves the User templates exactly as they were |
| Templates.ResetSystemPart | Services/TemplateService.cs:111-128 | after a successful reset the System templates are exactly the presets under their new ids |
| Templates.CopyIsEditable | Services/TemplateService.cs:80-83 | a copy is a User template whatever its source, and without a new name its name differs from the source's |
| Text.Increment32 | Services/TemplateService.cs:91 | an increment of a 32-bit value is one more, except that the largest value wraps to the smallest; the result is always a 32-bit value |
| Files.GetFileName | Services/FileService.cs:81 | the file name is a separator-free tail of the path |
| Files.RootLength | Services/FileService.cs:81 | a path has a root exactly when `Path.IsPathRooted` holds; a drive root is 2, or 3 with its separator; a lone leading separator is 1 |
| Files.LongRootLength | Services/FileService.cs:81 | a share or device root is at least two characters and lies within the path |
| Files.UncRootEnd | Services/FileService.cs:81 | a share root stops at the second separator after its prefix, or at the end, and holds at most one separator |
| Files.ShareAndDeviceRoots | Services/FileService.cs:81 | a share root runs to the second separator after `\\` or `\\?\UNC\`; a device root is the prefix and its first component, with a separator after a non-empty one |
| Files.PlainRootUnder | Services/FileService.cs:70 | under a directory ending in a separator and with a plain root, the root of the joined path lies within the directory |
| Files.GetFileNameWithoutExtension | Services/FileService.cs:65 | the stem is a separator-free head of the file name |
| Files.GetExtension | Services/FileService.cs:82 | the extension is empty or a tail of the path made of a dot and at least one more character, with no dot or separator after the first |
| Files.Combine | Services/FileService.cs:70 | an empty part yields the other, a rooted second part replaces the first, otherwise the directory comes first and the name last, with at most one separator added |
| Files.IsPathRooted | Services/FileService.cs:70 | no contract of its own: a leading separator, or an ASCII letter and a colon, the test `Path.Combine` applies to its second part; Files.RootLength is positive exactly when it holds |
| Files.OutputFileName | Services/FileService.cs:65-68 | the output file name is the input stem, the suffix when one is given and non-empty, a dot and the extension without its leading dots |
| Files.ExtensionDotsIgnored | Services/FileService.cs:67-68 | a leading dot on the requested extension changes nothing, so `mp4` and `.mp4` give the same path |
| Files.StemBeforeLastDot | Services/FileService.cs:65 | a file name that ends in a dot and a dot-free extension has the text before that dot as its stem |
| Files.ExtensionAfterLastDot | Services/FileService.cs:82 | a path that ends in a dot and a plain extension has that extension |
| Files.CombineAsPrefix | Services/FileService.cs:70 | joining a plain name under a directory puts the directory and at most one separator in front of the name |
| Files.PathParts | Services/FileService.cs:65-70 | a plain file name below a directory prefix decomposes into its stem and extension |
| Files.OutputPathJoin | Services/FileService.cs:63-71 | the generated path is the directory, closed by a separator, followed by the output file name, and starts with the directory |
| Files.OutputPathRoundTrip | Services/FileService.cs:63-71 | the generated path lies under the output directory and decomposes back: its file name is the output file name, its stem the input stem plus the suffix, its extension the requested one |
| Files.GenerateOutputPath | Services/FileService.cs:63-71 | no contract of its own: the directory combined with the output file name; Files.OutputPathJoin states the join and Files.OutputPathRoundTrip recovers the stem and the extension |
| Files.WindowsInvalidKeepsUnderscore | Services/FileService.cs:148-151 | the 41 invalid file-name characters include both separators and exclude `_` |
| Files.TagEnd | Services/FileService.cs:108 | a tag match starts with `{key:` in any letter case, has a non-empty body of the allowed characters and ends with `}` |
| Files.ReplaceTags | Services/FileService.cs:106-145 | the tags are replaced left to right without overlapping, and the match count only grows |
| Files.Sanitize | Services/FileService.cs:148-151 | same length; each invalid character becomes `_` and every other character stays |
| Files.SanitizeName | Services/FileService.cs:148-151 | the loop over the invalid characters keeps the length and turns exactly the invalid characters into `_`, which is Files.Sanitize's result |
| Files.FormatFileName | Services/FileService.cs:73-154 | a blank template gives the input stem; otherwise the placeholders are replaced in their fixed order, and a successful result keeps no invalid character other than as `_` |
| Files.FormattedName | Services/FileService.cs:73-154 | no contract of its own: a blank template gives the stem; otherwise the simple placeholders, the tags and the sanitising in order; Files.FormatFileName computes it and states its properties |
| Files.Placeholders | Services/FileService.cs:89-103 | no contract of its own: the simple placeholders in source order; stated by Files.ApplyPlaceholders, Files.PlaceholdersOfBraceFree and Files.FileNameAlone |
| Files.ApplyPlaceholders | Services/FileService.cs:88-103 | the replacements applied one after another in source order give exactly Files.Placeholders' result |
| Files.ExpandTags | Services/FileService.cs:105-144 | no contract of its own: `{now:format}`, `{random:N}`, `{random}` and `{counter:N}` in order, none when an `int.Parse` of N overflows; Files.RandomTextWidth and Files.CounterTextWidth state the widths |
| Files.SanitizedIsValid | Services/FileService.cs:148-151 | with `_` itself valid, a sanitised name holds no invalid character |
| Files.SanitizeValid | Services/FileService.cs:148-151 | sanitising changes nothing in a name that is already valid |
| Files.RandomTextWidth | Services/FileService.cs:122-130 | `{random:N}` yields the first min(N, 32) characters of a fresh identifier, and throws exactly when N overflows an `int` |
| Files.CounterTextWidth | Services/FileService.cs:136-145 | `{counter:N}` yields exactly min(N, 10) digits, a single `0` for N = 0, and throws exactly when N overflows an `int` |
| Files.ReplaceTagsAbsent | Services/FileService.cs:106-145 | text without `{` holds no tag and is copied unchanged |
| Files.ExpansionOfBraceFree | Services/FileService.cs:89-145 | text without `{` passes every placeholder unchanged |
| Files.PlaceholdersOfBraceFree | Services/FileService.cs:89-103 | each simple placeholder leaves text without `{` alone |
| Files.BraceFreeTemplate | Services/FileService.cs:86-153 | a non-blank template without `{` is only sanitised |
| Files.FileNameAlone | Services/FileService.cs:89 | a template that is `{filename}` in any letter case is replaced by the stem as a whole |
| Files.FileNamePlaceholder | Services/FileService.cs:89 | a template that is only `{filename}`, in any letter case, names the output after the sanitised input stem |
| Files.NormalizeExtension | Services/FileService.cs:158 | a requested extension gets a leading dot exactly when it lacks one |
| Files.ScanMediaFiles | Services/FileService.cs:156-173 | an unreadable directory gives nothing; otherwise exactly the files whose extension is wanted, each as often as listed, in ordinal order |
| Files.IsWanted | Services/FileService.cs:158-165 | no contract of its own: the default set compared exactly, or the requested extensions, dot-prefixed, compared ignoring case; stated by Files.ExtensionCase, Files.LeadingDotOptional and Files.RequestedExtensionIgnoresCase |
| Files.LeadingDotOptional | Services/FileService.cs:158 | requesting `mp4` or `.mp4` scans for the same files |
| Files.RequestedExtensionIgnoresCase | Services/FileService.cs:158-165 | a file matches a requested extension in any letter case, with or without the leading dot |
| Files.ExtensionCase | Services/FileService.cs:158-165 | `clip.MP4` is found when `mp4` is requested but not by the default set, which compares exactly |
| Hardware.CatalogueNames | Services/HardwareDetectionService.cs:45-70 | the catalogue's names in order, one per entry |
| Hardware.CatalogueDistinct | Services/HardwareDetectionService.cs:45-70 | the catalogue has fourteen entries and no name twice, as the keys of a dictionary must |
| Hardware.MatchAt | Services/HardwareDetectionService.cs:270 | a match of `\s*V[\.\w]{5}\s+(\S+)` at a position captures a non-empty run of non-blank characters, at least seven characters in, that runs as far as it can |
| Hardware.EncoderMatches | Services/HardwareDetectionService.cs:270 | every listed name is non-empty and made of non-blank characters |
| Hardware.MatchesComeFromLines | Services/HardwareDetectionService.cs:171-174 | every listed name was captured by a match that starts at a line start |
| Hardware.FirstMatchListedFirst | Services/HardwareDetectionService.cs:171-174 | the first matching line is the first name listed |
| Hardware.AudioLineIgnored | Services/HardwareDetectionService.cs:268-270 | the audio line ` A..... aac` lists nothing |
| Hardware.NoMatchFrom | Services/HardwareDetectionService.cs:171 | with no match left in the output, the scan lists nothing more |
| Hardware.VideoLineRuns | Services/HardwareDetectionService.cs:270 | on ` V..... x264 H.264` the pattern consumes one blank, the mark and five flags, one blank and the four-letter name |
| Hardware.VideoLineMatch | Services/HardwareDetectionService.cs:270 | the pattern matches at the start of that line and captures `x264` |
| Hardware.VideoLineListed | Services/HardwareDetectionService.cs:171-174 | the video line ` V..... x264 H.264` lists exactly `x264` |
| Hardware.GetAllEncoders | Services/HardwareDetectionService.cs:149-182 | the set of names the listing's matches capture, and the empty set when the listing cannot be run |
| Hardware.Compiled | Services/HardwareDetectionService.cs:170-175 | no contract of its own: the names the listing's matches capture, none when it cannot start; stated by Hardware.GetAllEncoders |
| Hardware.TestPassed | Services/HardwareDetectionService.cs:184-254 | a test passes exactly when the encode finished in time, exited with 0, reported no hardware error phrase and reported `frame=` |
| Hardware.HardwareError | Services/HardwareDetectionService.cs:233-240 | no contract of its own: one of the failure phrases, or `hwaccel` together with `failed`; stated by Hardware.TestPassed and Hardware.PassedTestIsClean |
| Hardware.PassedTestIsClean | Services/HardwareDetectionService.cs:233-245 | a passing test's diagnostics contain none of the failure phrases, and not `hwaccel` together with `failed` |
| Hardware.FailedRunsFail | Services/HardwareDetectionService.cs:214-230 | a time-out, a failed start or a non-zero exit never passes, whatever was written |
| Hardware.GetCodecsForEncoder | Services/HardwareDetectionService.cs:256-266 | the rules in order: an h264 or x264 name gives `h264, avc`; `hevc, h265` exactly when no earlier rule applies and the name has hevc, h265 or x265; `av1` exactly when neither earlier rule applies and the name has av1; `vp9` exactly when no earlier rule applies and the name has vp9; nothing exactly when the name has none of the seven markers |
| Hardware.Candidates | Services/HardwareDetectionService.cs:114-121 | every codec, known or not, has at least one candidate |
| Hardware.CandidateRules | Services/HardwareDetectionService.cs:114-121 | the codec is matched after lowering; `avc` and `h264` share a list, as do `h265` and `hevc`; every codec other than the six named gets `libx264` alone |
| Hardware.CandidateAliases | Services/HardwareDetectionService.cs:116-117 | `avc` has `h264`'s list, `h265` has `hevc`'s, and `H264` is read as `h264` |
| Hardware.CandidatesFromCatalogue | Services/HardwareDetectionService.cs:114-121 | every candidate is a catalogue encoder, and the last candidate of every list is a software encoder |
| Hardware.Detected | Services/HardwareDetectionService.cs:74-89 | a record keeps the entry's name, display name and kind; it is available exactly when the encoder is built in and is software or passes its test; the reason says not built in, then driver missing, else none; the codecs follow the name and the check time is now |
| Hardware.DetectedUpTo | Services/HardwareDetectionService.cs:72-92 | the `i`-th record is the detection of the `i`-th catalogue entry |
| Hardware.TestedUpTo | Services/HardwareDetectionService.cs:75 | no more tests than entries |
| Hardware.TestedAreBuiltInHardware | Services/HardwareDetectionService.cs:74-75 | a name is tested exactly when it is a built-in hardware encoder of the catalogue |
| Hardware.DetectionListsCatalogue | Services/HardwareDetectionService.cs:72-99 | a detection run lists all fourteen entries once, in catalogue order, and a record has no reason exactly when it is available |
| Hardware.SoftwareNeedsNoTest | Services/HardwareDetectionService.cs:75 | a software encoder is available exactly when it is built in; no test is consulted |
| Hardware.FirstAvailable | Services/HardwareDetectionService.cs:128 | the first available record of the name, and none exactly when no record of that name is available |
| Hardware.FirstPick | Services/HardwareDetectionService.cs:126-143 | the first acceptable candidate from the given position on, and none exactly when none is acceptable |
| Hardware.RecommendationRule | Services/HardwareDetectionService.cs:108-147 | with the preference, the first candidate whose first available record is hardware wins; otherwise the first available candidate; when none is available, `libx264` |
| Hardware.Recommendation | Services/HardwareDetectionService.cs:122-146 | no contract of its own: the hardware scan when preferred, then the availability scan, then `libx264`; stated by Hardware.RecommendationRule and Hardware.RecommendedIsAvailable, and computed by Hardware.Choose |
| Hardware.RecommendedIsAvailable | Services/HardwareDetectionService.cs:124-146 | a recommended candidate other than `libx264` is available, and with the preference it is a hardware encoder whenever some candidate is |
| Hardware.HardwareDetectionService.constructor | Services/HardwareDetectionService.cs:13-22 | the service starts with the persisted cache and no detection time |
| Hardware.HardwareDetectionService.DetectEncoders | Services/HardwareDetectionService.cs:17-100 | a fresh cache is returned untouched and nothing runs; otherwise the listing runs once, each built-in hardware encoder is tested once, and the cache and the detection time become the new records and now |
| Hardware.CacheFresh | Services/HardwareDetectionService.cs:20-28 | no contract of its own: not forced, a non-empty cache and a detection under 30 minutes old; Hardware.HardwareDetectionService.DetectEncoders returns the cache exactly when it holds |
| Hardware.HardwareDetectionService.DetectAll | Services/HardwareDetectionService.cs:72-92 | the loop records every catalogue entry in order and tests exactly the built-in hardware encoders |
| Hardware.HardwareDetectionService.DetectOne | Services/HardwareDetectionService.cs:74-91 | one entry's record, with a test run exactly when it is a built-in hardware encoder |
| Hardware.HardwareDetectionService.IsEncoderAvailable | Services/HardwareDetectionService.cs:102-106 | detection as above, then true exactly when some record has the name and is available |
| Hardware.HardwareDetectionService.GetRecommendedEncoder | Services/HardwareDetectionService.cs:108-147 | detection as above, then the recommendation for the codec's candidates under the hardware preference |
| Hardware.Choose | Services/HardwareDetectionService.cs:123-146 | the two scans with their early returns and the `libx264` fallback give the recommendation |

## Left out

- Process launching, stream redirection, `WaitForExitAsync` and `Kill` are left out. The outcome of each process is a parameter (`ProcessRun`, `ToolRun`, `TestRun`).
- The asynchronous execution is sequential in the model. Races on `_currentCts` and on the concurrent dictionary are left out, as is a cancellation that reaches a job while the transcoder runs. `StartTask` takes the run's end, a cancelled wait included, as an input.
- Event delivery to UI subscribers is left out. Notifications are appended to `statusEvents` and `progressEvents`.
- The settings service and the document store's connection are left out. The settings are a parameter, read once per operation.
- LiteDB query semantics beyond a keyed map are left out. Ties in an ordering are not pinned down beyond being sorted.
- The file-system and dialog code of `FileService` is left out: `IsFileAccessible`, `IsDirectoryWritable`, `GetAvailableDiskSpace`, `EnsureDirectoryExists` and the PowerShell dialogs. File sizes and directory listings are inputs.
- `SendInputAsync` and `GetRunningTaskIds` are declared on the driver's interface with no implementation in sight, so they are not modelled.
- Progress.Percentage: computed over exact reals. IEEE double rounding of the division and of `Math.Min` is not modelled.
- Progress.Eta: computed over exact reals, without IEEE rounding.
- Progress.SpeedOf: a speed token whose text is not a number (such as `1.2.3`) is read as no speed. In the source `double.Parse` would throw inside the event handler.
- Probe.DurationField: decimals are parsed exactly, not to the nearest double.
- Text.ParseDecimal: reads `.` as the decimal point, the current culture's separator. Under a culture whose decimal separator is `,` (de-DE, fr-FR), `double.Parse` reads the same text differently or throws; such cultures, and non-Gregorian calendars in the batch name, are not modelled.
- Hardware.HardwareDetectionService.DetectEncoders: one clock reading `now` serves the cache check, each record's check time and the new detection time. The source reads the clock separately for each.
- Hardware.HardwareDetectionService.DetectEncoders: the cache age is compared in ticks. The source compares `TotalMinutes`, a double, with 30.
- Hardware.HardwareDetectionService.DetectEncoders: entries are listed in the catalogue's insertion order, which is how a `Dictionary` with no removals enumerates them.
- Hardware.TestPassed: the 10-second time-out is an input (`TimedOut`) rather than a timer.
- Hardware.Candidates: `ToLower` folds ASCII letters only. The culture-sensitive lowering of other letters is not modelled.
- Hardware.MatchAt: `\w` is taken as ASCII letters, digits and `_`. .NET also counts other Unicode letters.
- Templates.CategoryList: categories are ordered by ordinal code-unit order. The default string comparer of `OrderBy` is culture-sensitive.
- Files.ScanMediaFiles: paths are ordered by ordinal code-unit order, where `OrderBy` uses the culture-sensitive default comparer. Directory enumeration itself is an input.
- Files.OutputPathRoundTrip: holds only for an output directory that, closed by its separator, has a plain root (a drive, a single separator or none). A share or device root runs on into the file name: `\\server` with `clip.mp4` gives `\\server\clip.mp4`, whose file name is empty.
- Files.ScanMediaFiles: the case-insensitive extension comparison folds ASCII letters only (`Text.FoldCase`). `StringComparer.OrdinalIgnoreCase` also folds other letters.
- Files.FormatFileName: the case-insensitive matching of placeholder keys folds ASCII letters only (`Text.FoldCase`). `RegexOptions.IgnoreCase` and `OrdinalIgnoreCase` also fold other letters.
- Files.RootLength: `\\?\` and `\??\` paths are taken as given. The normalisation .NET applies to other paths before use is not modelled.
- Templates.InsertInto: the unique name index compares names exactly. LiteDB's collation may compare them ignoring case.
- Files.FormatFileName: the clock, the `{now:format}` formatter, the random identifiers, the input directory's name and the invalid-character set are parameters. Culture-specific date formatting is not modelled.
- Hardware.TestedUpTo: its own contract only bounds the number of tests. Which names are tested is stated by Hardware.TestedAreBuiltInHardware.
