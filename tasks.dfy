/**
 * The task service: conversion jobs and batches in the document store, the
 * job life cycle `Pending -> Running -> {Completed, Failed, Cancelled}`,
 * progress bookkeeping while the transcoder runs, and the batch recount
 * after each job ends. Clock readings, file sizes, probe runs and the
 * transcoder's run are inputs; the UI notifications are appended to logs.
 */
module Tasks {
  import opened Wrappers
  import opened Text
  import opened Sequences
  import opened Models
  import opened Command
  import opened FFmpeg
  import opened Batches
  import Probe
  import Templates
  import Files

  const NewLine := "\r\n"
  const TemplateMissing := "Template not found (Parameter 'templateId')"
  const TaskMissing := "Task not found (Parameter 'taskId')"
  const NotPending := "Task is not in pending state"
  const CancelledByUser := "用户取消"
  const ConvertedSuffix := "_converted"

  /** An input file as the services see it: its probe run and its length (absent when unreadable). */
  datatype InputSource = InputSource(path: string, probe: Probe.ToolRun, size: Option<int>)

  /** `GetFileSize`: the length, or 0 when the file cannot be read. */
  function FileSize(size: Option<int>): int {
    size.GetOr(0)
  }

  /** The media duration the probe reports, or 0 when probing fails. */
  function ProbedDuration(input: InputSource): real {
    match Probe.GetMediaInfo(input.path, input.probe, input.size)
    case None => 0.0
    case Some(info) => info.duration
  }

  /** A new Pending job converting `input` to `outputPath` with `template`. */
  function NewTask(id: nat, input: InputSource, outputPath: string, template: CommandTemplate,
                   batchId: Option<nat>, now: int): ConversionTask
  {
    ConversionTask(
      id := id, inputPath := input.path, outputPath := outputPath, templateId := template.id,
      actualCommand := CommandFor(template.commandArgs, input.path, outputPath, None),
      status := Pending, progress := 0.0, totalDuration := ProbedDuration(input), currentTime := 0.0,
      estimatedTimeRemaining := None, processingSpeed := None, logOutput := [], errorMessage := None,
      createdAt := now, startedAt := None, completedAt := None,
      inputFileSize := FileSize(input.size), outputFileSize := None, batchId := batchId)
  }

  /** The output paths of a batch: each input's name with `_converted`, under the output directory. */
  function BatchOutputPaths(inputs: seq<InputSource>, outputDirectory: string, extension: string): (r: seq<string>)
    decreases |inputs|
    ensures |r| == |inputs|
  {
    if inputs == [] then []
    else
      BatchOutputPaths(inputs[..|inputs| - 1], outputDirectory, extension)
        + [Files.GenerateOutputPath(inputs[|inputs| - 1].path, outputDirectory, extension, Some(ConvertedSuffix))]
  }

  /** The `j`-th output path of a batch is the `j`-th input's. */
  lemma {:induction false} BatchOutputPathAt(inputs: seq<InputSource>, outputDirectory: string, extension: string, j: nat)
    requires j < |inputs|
    decreases |inputs|
    ensures BatchOutputPaths(inputs, outputDirectory, extension)[j]
         == Files.GenerateOutputPath(inputs[j].path, outputDirectory, extension, Some(ConvertedSuffix))
  {
    var front := inputs[..|inputs| - 1];
    if j < |inputs| - 1 {
      assert front[j] == inputs[j];
      BatchOutputPathAt(front, outputDirectory, extension, j);
    }
  }

  /**
   * The jobs of batch `b`, one per input, output path and clock reading in
   * order, under the ids that follow `b`.
   */
  function BatchChildren(inputs: seq<InputSource>, outputPaths: seq<string>, template: CommandTemplate,
                         b: nat, times: seq<int>): (r: seq<ConversionTask>)
    requires |outputPaths| == |inputs| && |times| == |inputs|
    decreases |inputs|
    ensures |r| == |inputs|
  {
    if inputs == [] then []
    else
      var n := |inputs| - 1;
      BatchChildren(inputs[..n], outputPaths[..n], template, b, times[..n])
        + [NewTask(b + |inputs|, inputs[n], outputPaths[n], template, Some(b), times[n])]
  }

  /** The store after putting `cs[j]` under id `first + j` for each `j`, in order. */
  function InsertAll(m: map<nat, ConversionTask>, cs: seq<ConversionTask>, first: nat): map<nat, ConversionTask>
    decreases |cs|
  {
    if cs == [] then m else InsertAll(m, cs[..|cs| - 1], first)[first + |cs| - 1 := cs[|cs| - 1]]
  }

  /** What `InsertAll` stores: the new records under their ids, the others untouched. */
  lemma {:induction false} InsertAllContents(m: map<nat, ConversionTask>, cs: seq<ConversionTask>, first: nat)
    decreases |cs|
    ensures forall k :: k in InsertAll(m, cs, first) <==> k in m || first <= k < first + |cs|
    ensures forall j :: 0 <= j < |cs| ==> InsertAll(m, cs, first)[first + j] == cs[j]
    ensures forall k :: k in m && !(first <= k < first + |cs|) ==> InsertAll(m, cs, first)[k] == m[k]
  {
    if cs != [] {
      var front := cs[..|cs| - 1];
      InsertAllContents(m, front, first);
      forall j | 0 <= j < |front|
        ensures front[j] == cs[j]
      {
      }
    }
  }

  /**
   * The `j`-th job of a batch converts the `j`-th input to the `j`-th path
   * under the `j`-th id after the batch's, created at the `j`-th clock reading.
   */
  lemma {:induction false} BatchChildrenAt(inputs: seq<InputSource>, outputPaths: seq<string>, template: CommandTemplate,
                                           b: nat, times: seq<int>, j: nat)
    requires |outputPaths| == |inputs| && |times| == |inputs| && j < |inputs|
    decreases |inputs|
    ensures BatchChildren(inputs, outputPaths, template, b, times)[j]
         == NewTask(b + 1 + j, inputs[j], outputPaths[j], template, Some(b), times[j])
  {
    var n := |inputs| - 1;
    var front := inputs[..n];
    var frontPaths := outputPaths[..n];
    var frontTimes := times[..n];
    assert BatchChildren(inputs, outputPaths, template, b, times)
        == BatchChildren(front, frontPaths, template, b, frontTimes)
           + [NewTask(b + |inputs|, inputs[n], outputPaths[n], template, Some(b), times[n])];
    if j < n {
      assert front[j] == inputs[j] && frontPaths[j] == outputPaths[j] && frontTimes[j] == times[j];
      BatchChildrenAt(front, frontPaths, template, b, frontTimes, j);
    }
  }

  /** Jobs ready to be stored after batch `b`: Pending, well-formed, of the batch, each under its own id. */
  predicate BatchReady(children: seq<ConversionTask>, b: nat) {
    forall j :: 0 <= j < |children| ==>
      children[j].id == b + 1 + j && children[j].batchId == Some(b)
      && children[j].status == Pending && WellFormed(children[j])
  }

  /** Every job of a batch is a Pending, well-formed job of the batch under its own id. */
  lemma BatchChildrenFacts(inputs: seq<InputSource>, outputPaths: seq<string>, template: CommandTemplate,
                           b: nat, times: seq<int>)
    requires |outputPaths| == |inputs| && |times| == |inputs|
    ensures BatchReady(BatchChildren(inputs, outputPaths, template, b, times), b)
  {
    var r := BatchChildren(inputs, outputPaths, template, b, times);
    forall j | 0 <= j < |r|
      ensures r[j].id == b + 1 + j && r[j].batchId == Some(b) && r[j].status == Pending && WellFormed(r[j])
    {
      BatchChildrenAt(inputs, outputPaths, template, b, times, j);
      NewTaskWellFormed(b + 1 + j, inputs[j], outputPaths[j], template, Some(b), times[j]);
    }
  }

  /** `批量任务 - yyyy-MM-dd HH:mm` of the local clock. */
  function BatchName(t: Files.LocalTime): string {
    "批量任务 - " + PadNumber(t.year, 4) + "-" + PadNumber(t.month, 2) + "-" + PadNumber(t.day, 2)
      + " " + PadNumber(t.hour, 2) + ":" + PadNumber(t.minute, 2)
  }

  /** The field combinations a stored job can be in. */
  predicate WellFormed(t: ConversionTask) {
    && 0.0 <= t.progress <= 100.0
    && (t.completedAt.Some? <==> IsTerminal(t.status))
    && (t.status == Running ==> t.startedAt.Some?)
    && (t.startedAt.Some? ==> t.status != Pending)
  }

  // ---------------------------------------------------------------------------
  // The life cycle of one job
  // ---------------------------------------------------------------------------

  function Started(t: ConversionTask, at: int): ConversionTask {
    t.(status := Running, startedAt := Some(at))
  }

  /** What one progress event does to the job. */
  function WithReport(t: ConversionTask, p: ConversionProgress): ConversionTask {
    t.(progress := p.percentage, currentTime := p.currentTime, processingSpeed := p.speed,
       estimatedTimeRemaining := p.eta, logOutput := t.logOutput + p.rawOutput + NewLine)
  }

  /** The progress events of a run, applied in order. */
  function WithReports(t: ConversionTask, ps: seq<ConversionProgress>): ConversionTask
    decreases |ps|
  {
    if ps == [] then t else WithReport(WithReports(t, ps[..|ps| - 1]), ps[|ps| - 1])
  }

  /** The log lines a run appends: each raw line followed by a line break. */
  function LogText(ps: seq<ConversionProgress>): string
    decreases |ps|
  {
    if ps == [] then [] else LogText(ps[..|ps| - 1]) + ps[|ps| - 1].rawOutput + NewLine
  }

  /** The notification sent for each progress event. */
  function ProgressEventsOf(id: nat, ps: seq<ConversionProgress>): (r: seq<TaskProgressEvent>)
    decreases |ps|
    ensures |r| == |ps|
    ensures forall k :: 0 <= k < |ps| ==> r[k] == TaskProgressEvent(id, ps[k].percentage, ps[k].speed, ps[k].eta)
  {
    if ps == [] then []
    else ProgressEventsOf(id, ps[..|ps| - 1]) + [TaskProgressEvent(id, ps[|ps| - 1].percentage, ps[|ps| - 1].speed, ps[|ps| - 1].eta)]
  }

  /** How the job ends for each way the conversion can complete. */
  function Ended(t: ConversionTask, outcome: Outcome, at: int, outputSize: Option<int>): ConversionTask {
    match outcome
    case RanToCompletion =>
      t.(status := Completed, progress := 100.0, completedAt := Some(at), outputFileSize := Some(FileSize(outputSize)))
    case OperationCanceled => t.(status := Cancelled, completedAt := Some(at))
    case Threw(message) => t.(status := Failed, errorMessage := Some(message), completedAt := Some(at))
  }

  /** The status notification sent when the job ends. */
  function EndEvent(id: nat, outcome: Outcome): TaskStatusEvent {
    match outcome
    case RanToCompletion => TaskStatusEvent(id, Running, Completed, None)
    case OperationCanceled => TaskStatusEvent(id, Running, Cancelled, Some(CancelledByUser))
    case Threw(message) => TaskStatusEvent(id, Running, Failed, Some(message))
  }

  /** The batch store after `UpdateBatchTaskStatusAsync(batchId)`: only an existing batch is recounted. */
  function RecountedBatches(batches: map<nat, BatchTask>, tasks: map<nat, ConversionTask>, n: nat,
                            batchId: Option<nat>, now: int): map<nat, BatchTask>
  {
    if batchId.Some? && batchId.value in batches then
      batches[batchId.value := Recount(batches[batchId.value], ChildrenOf(tasks, n, batchId.value), now)]
    else batches
  }

  /**
   * Each progress event overwrites the progress, position, speed and
   * remaining time, so the last event's values stand; the log gains each
   * event's line in order; nothing else about the job changes.
   */
  lemma {:induction false} LastReportWins(t: ConversionTask, ps: seq<ConversionProgress>)
    decreases |ps|
    ensures var r := WithReports(t, ps);
      && r.logOutput == t.logOutput + LogText(ps)
      && r == (if ps == [] then t else
           var last := ps[|ps| - 1];
           t.(progress := last.percentage, currentTime := last.currentTime, processingSpeed := last.speed,
              estimatedTimeRemaining := last.eta, logOutput := t.logOutput + LogText(ps)))
  {
    if ps != [] {
      LastReportWins(t, ps[..|ps| - 1]);
    }
  }

  /** Events with percentages in range keep a well-formed job well-formed. */
  lemma {:induction false} ReportsKeepWellFormed(t: ConversionTask, ps: seq<ConversionProgress>)
    requires WellFormed(t)
    requires forall k :: 0 <= k < |ps| ==> 0.0 <= ps[k].percentage <= 100.0
    decreases |ps|
    ensures WellFormed(WithReports(t, ps))
    ensures WithReports(t, ps).status == t.status && WithReports(t, ps).id == t.id
  {
    if ps != [] {
      ReportsKeepWellFormed(t, ps[..|ps| - 1]);
    }
  }

  /**
   * A started job ends Completed exactly when the transcoder exits with
   * code 0 (with progress 100 and its output size), Cancelled exactly when
   * the wait was cancelled (its error message untouched), and Failed
   * otherwise with the failure's message, naming the exit code when there is
   * one; in every case it is finished, with a completion time.
   */
  lemma RunOutcome(t: ConversionTask, exit: ExitStatus, at: int, outputSize: Option<int>)
    ensures var r := Ended(t, OutcomeOf(exit), at, outputSize);
      && IsTerminal(r.status) && r.completedAt == Some(at)
      && (r.status == Completed <==> exit == Exited(0))
      && (r.status == Completed ==> r.progress == 100.0 && r.outputFileSize == Some(FileSize(outputSize)))
      && (r.status == Cancelled <==> exit.TokenCancelled?)
      && (r.status == Cancelled ==> r.errorMessage == t.errorMessage)
      && (exit.Exited? && exit.code != 0 ==> r.status == Failed && r.errorMessage == Some(ExitMessage(exit.code)))
      && (exit.LaunchFailed? ==> r.status == Failed && r.errorMessage == Some(exit.message))
      && r.id == t.id && r.batchId == t.batchId && r.startedAt == t.startedAt
  {
  }

  /** Ending a well-formed Running job gives a well-formed finished job with the same id and batch. */
  lemma RunOutcomeWellFormed(t: ConversionTask, outcome: Outcome, at: int, outputSize: Option<int>)
    requires WellFormed(t) && t.status == Running
    ensures var r := Ended(t, outcome, at, outputSize);
      WellFormed(r) && IsTerminal(r.status) && r.id == t.id && r.batchId == t.batchId
  {
  }

  /** A Pending job that is started and run ends well-formed and finished. */
  lemma RunWellFormed(t: ConversionTask, startedAt: int, ps: seq<ConversionProgress>, outcome: Outcome,
                      at: int, outputSize: Option<int>)
    requires WellFormed(t) && t.status == Pending
    requires forall k :: 0 <= k < |ps| ==> 0.0 <= ps[k].percentage <= 100.0
    ensures WellFormed(Started(t, startedAt))
    ensures var r := Ended(WithReports(Started(t, startedAt), ps), outcome, at, outputSize);
      WellFormed(r) && IsTerminal(r.status)
  {
    ReportsKeepWellFormed(Started(t, startedAt), ps);
  }

  // ---------------------------------------------------------------------------
  // Queries
  // ---------------------------------------------------------------------------

  /** Newer first (`OrderByDescending(CreatedAt)`). */
  predicate NewerFirst(a: ConversionTask, b: ConversionTask) {
    a.createdAt >= b.createdAt
  }

  lemma NewerFirstPreorder()
    ensures IsTotalPreorder(NewerFirst)
  {
  }

  /** The first Running job in the order given. */
  function FirstRunning(s: seq<ConversionTask>): (r: Option<ConversionTask>)
    ensures r.Some? ==> r.value in s && r.value.status == Running
    ensures r.None? <==> forall k :: 0 <= k < |s| ==> s[k].status != Running
    ensures r.Some? ==> exists i :: 0 <= i < |s| && s[i] == r.value && forall j :: 0 <= j < i ==> s[j].status != Running
  {
    if s == [] then None
    else if s[0].status == Running then
      assert s[0] == s[0];
      Some(s[0])
    else
      var r := FirstRunning(s[1..]);
      if r.Some? then
        var i :| 0 <= i < |s[1..]| && s[1..][i] == r.value && forall j :: 0 <= j < i ==> s[1..][j].status != Running;
        assert s[i + 1] == r.value;
        r
      else r
  }

  // ---------------------------------------------------------------------------
  // The two collections
  // ---------------------------------------------------------------------------

  /**
   * The stores: every record sits under its own id, below the next fresh id;
   * jobs and batches never share an id; every job's batch exists; every
   * stored job is well-formed.
   */
  predicate StoreValid(tasks: map<nat, ConversionTask>, batches: map<nat, BatchTask>, n: nat) {
    && (forall k :: k in tasks ==> k < n && tasks[k].id == k && WellFormed(tasks[k]))
    && (forall k :: k in batches ==> k < n && batches[k].id == k && k !in tasks)
    && (forall k :: k in tasks && tasks[k].batchId.Some? ==> tasks[k].batchId.value in batches)
  }

  /** Storing a well-formed job under the fresh id keeps the stores valid. */
  lemma InsertTaskValid(tasks: map<nat, ConversionTask>, batches: map<nat, BatchTask>, n: nat, t: ConversionTask)
    requires StoreValid(tasks, batches, n)
    requires t.id == n && WellFormed(t) && (t.batchId.Some? ==> t.batchId.value in batches)
    ensures StoreValid(tasks[n := t], batches, n + 1)
  {
  }

  /** Replacing a job by a well-formed one with the same id and batch keeps the stores valid. */
  lemma UpdateTaskValid(tasks: map<nat, ConversionTask>, batches: map<nat, BatchTask>, n: nat, k: nat, t: ConversionTask)
    requires StoreValid(tasks, batches, n) && k in tasks
    requires t.id == k && WellFormed(t) && t.batchId == tasks[k].batchId
    ensures StoreValid(tasks[k := t], batches, n)
  {
  }

  /** Storing a batch under the fresh id keeps the stores valid. */
  lemma InsertBatchValid(tasks: map<nat, ConversionTask>, batches: map<nat, BatchTask>, n: nat, b: BatchTask)
    requires StoreValid(tasks, batches, n) && b.id == n
    ensures StoreValid(tasks, batches[n := b], n + 1)
  {
  }

  /** Replacing an existing batch by one with the same id keeps the stores valid. */
  lemma UpdateBatchValid(tasks: map<nat, ConversionTask>, batches: map<nat, BatchTask>, n: nat, b: BatchTask)
    requires StoreValid(tasks, batches, n) && b.id in batches
    ensures StoreValid(tasks, batches[b.id := b], n)
  {
  }

  /** Deleting jobs keeps the stores valid. */
  lemma DeleteTasksValid(tasks: map<nat, ConversionTask>, batches: map<nat, BatchTask>, n: nat, kept: map<nat, ConversionTask>)
    requires StoreValid(tasks, batches, n)
    requires forall k :: k in kept ==> k in tasks && kept[k] == tasks[k]
    ensures StoreValid(kept, batches, n)
  {
  }

  /**
   * After a batch takes the fresh id `b` and its jobs the `count` ids after
   * it, the jobs carrying `b` are exactly those: no older job can carry an
   * id that no batch had.
   */
  lemma FreshBatchMembers(before: map<nat, ConversionTask>, after: map<nat, ConversionTask>,
                          batches: map<nat, BatchTask>, b: nat, count: nat)
    requires StoreValid(before, batches, b)
    requires forall k :: k in after <==> k in before || b < k <= b + count
    requires forall k :: k in before ==> after[k] == before[k]
    requires forall k :: b < k <= b + count ==> after[k].batchId == Some(b)
    ensures forall k :: k in after && after[k].batchId == Some(b) <==> b < k <= b + count
  {
    forall k | k in before
      ensures before[k].batchId != Some(b)
    {
      if before[k].batchId.Some? {
        assert before[k].batchId.value in batches;
      }
    }
  }

  /**
   * The jobs of a new batch `b`, stored under the ids after `b` over valid
   * stores whose next fresh id was `b`: the jobs carrying `b` are exactly
   * the ones added, the `j`-th under id `b + 1 + j`, and every older job
   * stays as it was.
   */
  lemma {:induction false} BatchJobs(tasks: map<nat, ConversionTask>, batches: map<nat, BatchTask>, b: nat,
                  children: seq<ConversionTask>)
    requires StoreValid(tasks, batches, b)
    requires forall j :: 0 <= j < |children| ==> children[j].batchId == Some(b)
    ensures var after := InsertAll(tasks, children, b + 1);
      && (forall k :: k in after <==> k in tasks || b < k <= b + |children|)
      && (forall k :: k in tasks ==> after[k] == tasks[k])
      && (forall j :: 0 <= j < |children| ==> after[b + 1 + j] == children[j])
      && (forall k :: k in after && after[k].batchId == Some(b) <==> b < k <= b + |children|)
  {
    var after := InsertAll(tasks, children, b + 1);
    InsertAllContents(tasks, children, b + 1);
    forall k | b < k <= b + |children|
      ensures after[k].batchId == Some(b)
    {
      var j := k - b - 1;
      assert after[b + 1 + j] == children[j];
    }
    forall k | k in tasks
      ensures after[k] == tasks[k]
    {
      assert k < b;
    }
    assert forall k :: k in after <==> k in tasks || b < k <= b + |children|;
    FreshBatchMembers(tasks, after, batches, b, |children|);
  }

  /** A new job is well-formed and Pending. */
  lemma NewTaskWellFormed(id: nat, input: InputSource, outputPath: string, template: CommandTemplate,
                          batchId: Option<nat>, now: int)
    ensures var t := NewTask(id, input, outputPath, template, batchId, now);
      WellFormed(t) && t.status == Pending && t.id == id && t.batchId == batchId
  {
  }

  /** The job has the requested status, or no status was requested. */
  predicate HasStatus(t: ConversionTask, status: Option<TaskStatus>) {
    status.None? || t.status == status.value
  }

  /** The jobs with the requested status, in their order. */
  function MatchingTasks(jobs: seq<ConversionTask>, status: Option<TaskStatus>): seq<ConversionTask> {
    Filter(jobs, (t: ConversionTask) => HasStatus(t, status))
  }

  /** The newest `limit` of the matching jobs, newest first. */
  function History(jobs: seq<ConversionTask>, limit: int, status: Option<TaskStatus>): seq<ConversionTask> {
    Take(Sort(MatchingTasks(jobs, status), NewerFirst), limit)
  }

  /** The history is sorted newest first and holds only matching jobs, as many as the limit allows. */
  lemma HistoryFacts(jobs: seq<ConversionTask>, limit: int, status: Option<TaskStatus>)
    ensures var r := History(jobs, limit, status);
      && SortedBy(r, NewerFirst)
      && (forall i :: 0 <= i < |r| ==> r[i] in jobs && HasStatus(r[i], status))
      && |r| == (var n := |MatchingTasks(jobs, status)|; if limit <= 0 then 0 else if limit < n then limit else n)
      && multiset(r) <= multiset(MatchingTasks(jobs, status))
      && (NoDuplicates(jobs) ==> NoDuplicates(r))
  {
    HistoryOrder(jobs, limit, status);
    HistoryCounts(jobs, limit, status);
  }

  /** The order and membership half of HistoryFacts. */
  lemma HistoryOrder(jobs: seq<ConversionTask>, limit: int, status: Option<TaskStatus>)
    ensures var r := History(jobs, limit, status);
      && SortedBy(r, NewerFirst)
      && (forall i :: 0 <= i < |r| ==> r[i] in jobs && HasStatus(r[i], status))
  {
    var matching := MatchingTasks(jobs, status);
    var sorted := Sort(matching, NewerFirst);
    var r := Take(sorted, limit);
    assert SortedBy(r, NewerFirst) && forall x :: x in r ==> x in sorted by {
      NewerFirstPreorder();
      SortSorted(matching, NewerFirst);
      TakeSorted(sorted, limit, NewerFirst);
    }
    forall i | 0 <= i < |r|
      ensures r[i] in jobs && HasStatus(r[i], status)
    {
      SortMembers(matching, NewerFirst, r[i]);
    }
  }

  /** The counting half of HistoryFacts: no job appears more often than among the matching ones. */
  lemma HistoryCounts(jobs: seq<ConversionTask>, limit: int, status: Option<TaskStatus>)
    ensures var r := History(jobs, limit, status);
      && multiset(r) <= multiset(MatchingTasks(jobs, status))
      && (NoDuplicates(jobs) ==> NoDuplicates(r))
  {
    var matching := MatchingTasks(jobs, status);
    var sorted := Sort(matching, NewerFirst);
    TakeSubMultiset(sorted, limit);
    if NoDuplicates(jobs) {
      FilterNoDuplicates(jobs, (t: ConversionTask) => HasStatus(t, status));
      PermutationNoDuplicates(matching, sorted);
    }
  }

  // ---------------------------------------------------------------------------
  // The service
  // ---------------------------------------------------------------------------

  class TaskService {
    /** The Tasks collection, keyed by id. */
    var tasks: map<nat, ConversionTask>
    /** The BatchTasks collection, keyed by id. */
    var batches: map<nat, BatchTask>
    /** The next fresh id, shared by both collections. */
    var nextId: nat
    /** The cancellation source of the running job, if any: whether it has been cancelled. */
    var currentCts: Option<bool>
    /** Status-change notifications, oldest first. */
    var statusEvents: seq<TaskStatusEvent>
    /** Progress notifications, oldest first. */
    var progressEvents: seq<TaskProgressEvent>
    const templateService: Templates.TemplateService
    const ffmpeg: FFmpegService

    ghost predicate Valid()
      reads this, templateService, ffmpeg
    {
      templateService.Valid() && ffmpeg.Valid() && StoreValid(tasks, batches, nextId)
    }

    constructor(templateService: Templates.TemplateService, ffmpeg: FFmpegService)
      requires templateService.Valid() && ffmpeg.Valid()
      ensures Valid()
      ensures this.templateService == templateService && this.ffmpeg == ffmpeg
      ensures tasks == map[] && batches == map[] && currentCts == None
      ensures statusEvents == [] && progressEvents == []
    {
      this.templateService := templateService;
      this.ffmpeg := ffmpeg;
      tasks := map[];
      batches := map[];
      nextId := 0;
      currentCts := None;
      statusEvents := [];
      progressEvents := [];
    }

    /** `GetTaskByIdAsync`. */
    function GetTaskById(id: nat): (r: Option<ConversionTask>)
      reads this
      ensures r.Some? <==> id in tasks
      ensures r.Some? ==> r.value == tasks[id]
    {
      if id in tasks then Some(tasks[id]) else None
    }

    /** Builds the job's command line and stores the new Pending job under the fresh id. */
    method StoreNewTask(input: InputSource, outputPath: string, template: CommandTemplate,
                        batchId: Option<nat>, now: int) returns (task: ConversionTask)
      requires Valid()
      requires batchId.Some? ==> batchId.value in batches
      modifies this
      ensures Valid()
      ensures task == NewTask(old(nextId), input, outputPath, template, batchId, now)
      ensures tasks == old(tasks)[old(nextId) := task] && nextId == old(nextId) + 1
      ensures batches == old(batches) && currentCts == old(currentCts)
      ensures statusEvents == old(statusEvents) && progressEvents == old(progressEvents)
    {
      var command := BuildCommand(template, input.path, outputPath, None);
      task := ConversionTask(
        id := nextId, inputPath := input.path, outputPath := outputPath, templateId := template.id,
        actualCommand := command, status := Pending, progress := 0.0,
        totalDuration := ProbedDuration(input), currentTime := 0.0,
        estimatedTimeRemaining := None, processingSpeed := None, logOutput := [], errorMessage := None,
        createdAt := now, startedAt := None, completedAt := None,
        inputFileSize := FileSize(input.size), outputFileSize := None, batchId := batchId);
      NewTaskWellFormed(nextId, input, outputPath, template, batchId, now);
      StoreTask(task);
    }

    /** Inserts a well-formed job under the fresh id. */
    method StoreTask(task: ConversionTask)
      requires Valid() && task.id == nextId && WellFormed(task)
      requires task.batchId.Some? ==> task.batchId.value in batches
      modifies this
      ensures Valid()
      ensures tasks == old(tasks)[old(nextId) := task] && nextId == old(nextId) + 1
      ensures batches == old(batches) && currentCts == old(currentCts)
      ensures statusEvents == old(statusEvents) && progressEvents == old(progressEvents)
    {
      InsertTaskValid(tasks, batches, nextId, task);
      tasks := tasks[nextId := task];
      nextId := nextId + 1;
    }

    /** `CreateTaskAsync`: stores a new Pending job, or refuses an unknown template. */
    method CreateTask(input: InputSource, outputPath: string, templateId: nat, now: int)
      returns (r: Result<ConversionTask, string>)
      requires Valid()
      modifies this
      ensures Valid()
      ensures batches == old(batches) && currentCts == old(currentCts)
      ensures statusEvents == old(statusEvents) && progressEvents == old(progressEvents)
      ensures templateService.GetById(templateId).None? ==>
        r == Failure(TemplateMissing) && tasks == old(tasks) && nextId == old(nextId)
      ensures templateService.GetById(templateId).Some? ==>
        var t := NewTask(old(nextId), input, outputPath, templateService.GetById(templateId).value, None, now);
        && r == Success(t) && tasks == old(tasks)[old(nextId) := t] && nextId == old(nextId) + 1
        && t.status == Pending && t.templateId == templateId
    {
      var template := templateService.GetById(templateId);
      if template.None? {
        return Failure(TemplateMissing);
      }
      var task := StoreNewTask(input, outputPath, template.value, None, now);
      return Success(task);
    }

    /**
     * `CreateBatchTaskAsync`: stores a Pending batch counting the inputs and
     * then one Pending job per input, each carrying the batch id; these are
     * exactly the batch's jobs (`BatchJobs`). The batch is stamped with `now`
     * and the `j`-th job with `jobTimes[j]`, the clock reading taken after
     * that input was probed.
     */
    method CreateBatchTask(inputs: seq<InputSource>, outputDirectory: string, templateId: nat,
                           localNow: Files.LocalTime, now: int, jobTimes: seq<int>)
      returns (r: Result<BatchTask, string>)
      requires Valid() && |jobTimes| == |inputs|
      modifies this
      ensures Valid()
      ensures currentCts == old(currentCts)
      ensures statusEvents == old(statusEvents) && progressEvents == old(progressEvents)
      ensures templateService.GetById(templateId).None? ==>
        r == Failure(TemplateMissing) && tasks == old(tasks) && batches == old(batches) && nextId == old(nextId)
      ensures templateService.GetById(templateId).Some? ==>
        var template := templateService.GetById(templateId).value;
        var b := old(nextId);
        var paths := BatchOutputPaths(inputs, outputDirectory, template.outputExtension);
        && r == Success(BatchTask(b, BatchName(localNow), templateId, |inputs|, 0, 0, Pending, now, None))
        && batches == old(batches)[b := r.value]
        && nextId == b + 1 + |inputs|
        && tasks == InsertAll(old(tasks), BatchChildren(inputs, paths, template, b, jobTimes), b + 1)
    {
      var found := templateService.GetById(templateId);
      if found.None? {
        return Failure(TemplateMissing);
      }
      var batch := AddBatch(inputs, outputDirectory, found.value, BatchName(localNow), now, jobTimes);
      return Success(batch);
    }

    /** Stores the batch under the fresh id, then its jobs under the ids after it. */
    method AddBatch(inputs: seq<InputSource>, outputDirectory: string, template: CommandTemplate,
                    name: string, now: int, jobTimes: seq<int>) returns (batch: BatchTask)
      requires Valid() && |jobTimes| == |inputs|
      modifies this
      ensures Valid()
      ensures currentCts == old(currentCts)
      ensures statusEvents == old(statusEvents) && progressEvents == old(progressEvents)
      ensures var b := old(nextId);
        var paths := BatchOutputPaths(inputs, outputDirectory, template.outputExtension);
        && batch == BatchTask(b, name, template.id, |inputs|, 0, 0, Pending, now, None)
        && batches == old(batches)[b := batch]
        && nextId == b + 1 + |inputs|
        && tasks == InsertAll(old(tasks), BatchChildren(inputs, paths, template, b, jobTimes), b + 1)
    {
      var b := nextId;
      batch := BatchTask(b, name, template.id, |inputs|, 0, 0, Pending, now, None);
      StoreBatch(batch);
      var paths := BatchOutputPaths(inputs, outputDirectory, template.outputExtension);
      var children := BatchChildren(inputs, paths, template, b, jobTimes);
      BatchChildrenFacts(inputs, paths, template, b, jobTimes);
      assert tasks == old(tasks);
      AddBatchChildren(children, b);
      assert tasks == InsertAll(old(tasks), children, b + 1);
    }

    /** Stores a batch under the fresh id. */
    method StoreBatch(batch: BatchTask)
      requires Valid() && batch.id == nextId
      modifies this
      ensures Valid()
      ensures batches == old(batches)[batch.id := batch] && nextId == old(nextId) + 1
      ensures tasks == old(tasks) && currentCts == old(currentCts)
      ensures statusEvents == old(statusEvents) && progressEvents == old(progressEvents)
    {
      InsertBatchValid(tasks, batches, nextId, batch);
      batches := batches[batch.id := batch];
      nextId := nextId + 1;
    }

    /** Stores the jobs given, in order, under the ids that follow the batch's. */
    method AddBatchChildren(children: seq<ConversionTask>, b: nat)
      requires Valid() && b in batches && nextId == b + 1
      requires BatchReady(children, b)
      modifies this
      ensures Valid()
      ensures tasks == InsertAll(old(tasks), children, b + 1) && nextId == b + 1 + |children|
      ensures batches == old(batches) && currentCts == old(currentCts)
      ensures statusEvents == old(statusEvents) && progressEvents == old(progressEvents)
    {
      var i := 0;
      while i < |children|
        invariant 0 <= i <= |children|
        invariant Valid()
        invariant nextId == b + 1 + i
        invariant tasks == InsertAll(old(tasks), children[..i], b + 1)
        invariant batches == old(batches) && currentCts == old(currentCts)
        invariant statusEvents == old(statusEvents) && progressEvents == old(progressEvents)
      {
        assert children[..i + 1][..i] == children[..i];
        StoreTask(children[i]);
        i := i + 1;
      }
      assert children[..|children|] == children;
    }

    /** The job is marked Running, with its start time, and the start is announced. */
    method Begin(id: nat, startedAt: int)
      requires Valid() && id in tasks && tasks[id].status == Pending
      modifies this
      ensures Valid()
      ensures tasks == old(tasks)[id := Started(old(tasks)[id], startedAt)]
      ensures statusEvents == old(statusEvents) + [TaskStatusEvent(id, Pending, Running, None)]
      ensures currentCts == Some(false)
      ensures batches == old(batches) && nextId == old(nextId) && progressEvents == old(progressEvents)
    {
      RunWellFormed(tasks[id], startedAt, [], RanToCompletion, 0, None);
      var task := Started(tasks[id], startedAt);
      UpdateTaskValid(tasks, batches, nextId, id, task);
      tasks := tasks[id := task];
      statusEvents := statusEvents + [TaskStatusEvent(id, Pending, Running, None)];
      currentCts := Some(false);
    }

    /** The progress handler, applied to each report of the run in turn. */
    method ApplyProgress(id: nat, reports: seq<ConversionProgress>)
      requires Valid() && id in tasks
      requires forall k :: 0 <= k < |reports| ==> 0.0 <= reports[k].percentage <= 100.0
      modifies this
      ensures Valid()
      ensures tasks == old(tasks)[id := WithReports(old(tasks)[id], reports)]
      ensures progressEvents == old(progressEvents) + ProgressEventsOf(id, reports)
      ensures batches == old(batches) && nextId == old(nextId)
      ensures statusEvents == old(statusEvents) && currentCts == old(currentCts)
      decreases |reports|
    {
      if reports == [] {
        return;
      }
      var earlier, last := reports[..|reports| - 1], reports[|reports| - 1];
      ApplyProgress(id, earlier);
      ReportsKeepWellFormed(old(tasks)[id], reports);
      ApplyReport(id, last);
    }

    /** One report: the job takes its figures and its log line, and the progress is announced. */
    method ApplyReport(id: nat, p: ConversionProgress)
      requires Valid() && id in tasks && WellFormed(WithReport(tasks[id], p))
      modifies this
      ensures Valid()
      ensures tasks == old(tasks)[id := WithReport(old(tasks)[id], p)]
      ensures progressEvents == old(progressEvents) + [TaskProgressEvent(id, p.percentage, p.speed, p.eta)]
      ensures batches == old(batches) && nextId == old(nextId)
      ensures statusEvents == old(statusEvents) && currentCts == old(currentCts)
    {
      var task := tasks[id];
      task := task.(progress := p.percentage, currentTime := p.currentTime, processingSpeed := p.speed,
                    estimatedTimeRemaining := p.eta, logOutput := task.logOutput + p.rawOutput + NewLine);
      UpdateTaskValid(tasks, batches, nextId, id, task);
      tasks := tasks[id := task];
      progressEvents := progressEvents + [TaskProgressEvent(id, p.percentage, p.speed, p.eta)];
    }

    /** The job ends according to how the conversion completed, and the end is announced. */
    method Finish(id: nat, outcome: Outcome, at: int, outputSize: Option<int>)
      requires Valid() && id in tasks && tasks[id].status == Running
      modifies this
      ensures Valid()
      ensures tasks == old(tasks)[id := Ended(old(tasks)[id], outcome, at, outputSize)]
      ensures statusEvents == old(statusEvents) + [EndEvent(id, outcome)]
      ensures batches == old(batches) && nextId == old(nextId)
      ensures progressEvents == old(progressEvents) && currentCts == old(currentCts)
    {
      RunOutcomeWellFormed(tasks[id], outcome, at, outputSize);
      UpdateTaskValid(tasks, batches, nextId, id, Ended(tasks[id], outcome, at, outputSize));
      var task := tasks[id];
      match outcome {
        case RanToCompletion =>
          task := task.(status := Completed, progress := 100.0, completedAt := Some(at),
                        outputFileSize := Some(FileSize(outputSize)));
          tasks := tasks[id := task];
          statusEvents := statusEvents + [TaskStatusEvent(id, Running, Completed, None)];
        case OperationCanceled =>
          task := task.(status := Cancelled, completedAt := Some(at));
          tasks := tasks[id := task];
          statusEvents := statusEvents + [TaskStatusEvent(id, Running, Cancelled, Some(CancelledByUser))];
        case Threw(message) =>
          task := task.(status := Failed, errorMessage := Some(message), completedAt := Some(at));
          tasks := tasks[id := task];
          statusEvents := statusEvents + [TaskStatusEvent(id, Running, Failed, Some(message))];
      }
    }

    /** `UpdateBatchTaskStatusAsync`: recounts the job's batch, if it has one that exists. */
    method UpdateBatchStatus(batchId: Option<nat>, now: int)
      requires Valid()
      modifies this
      ensures Valid()
      ensures batches == RecountedBatches(old(batches), tasks, nextId, batchId, now)
      ensures tasks == old(tasks) && nextId == old(nextId)
      ensures statusEvents == old(statusEvents) && progressEvents == old(progressEvents)
      ensures currentCts == old(currentCts)
    {
      if batchId.None? || batchId.value !in batches {
        return;
      }
      var bid := batchId.value;
      var children := ChildrenOf(tasks, nextId, bid);
      var batch := Recount(batches[bid], children, now);
      UpdateBatchValid(tasks, batches, nextId, batch);
      batches := batches[bid := batch];
    }

    /**
     * `StartTaskAsync`: refuses a missing job or one that is not Pending
     * before changing anything; otherwise marks it Running, runs the
     * transcoder, applies each progress report, ends the job by the run's
     * outcome, recounts its batch and clears the cancellation source. The
     * clock is read three times: when the job starts (`startedAt`), when it
     * ends (`finishedAt`) and when its batch is recounted (`recountedAt`).
     */
    method StartTask(id: nat, settings: Settings, run: ProcessRun, startedAt: int, finishedAt: int,
                     recountedAt: int, outputSize: Option<int>) returns (error: Option<string>)
      requires Valid()
      modifies this, ffmpeg
      ensures Valid()
      ensures nextId == old(nextId)
      ensures (id !in old(tasks) || old(tasks)[id].status != Pending) ==>
        && error == Some(if id !in old(tasks) then TaskMissing else NotPending)
        && tasks == old(tasks) && batches == old(batches) && currentCts == old(currentCts)
        && statusEvents == old(statusEvents) && progressEvents == old(progressEvents)
        && ffmpeg.running == old(ffmpeg.running) && ffmpeg.history == old(ffmpeg.history)
      ensures id in old(tasks) && old(tasks)[id].status == Pending ==>
        var running := Started(old(tasks)[id], startedAt);
        var reports := Reports(run, running.totalDuration);
        var outcome := OutcomeOf(run.exit);
        var final := Ended(WithReports(running, reports), outcome, finishedAt, outputSize);
        && error == None
        && tasks == old(tasks)[id := final]
        && statusEvents == old(statusEvents) + [TaskStatusEvent(id, Pending, Running, None), EndEvent(id, outcome)]
        && progressEvents == old(progressEvents) + ProgressEventsOf(id, reports)
        && batches == RecountedBatches(old(batches), tasks, nextId, final.batchId, recountedAt)
        && currentCts == None
        && ffmpeg.running == old(ffmpeg.running) - {id}
        && ffmpeg.history == old(ffmpeg.history) + [Registered(id), Deregistered(id)]
    {
      if id !in tasks {
        return Some(TaskMissing);
      }
      if tasks[id].status != Pending {
        return Some(NotPending);
      }
      RunTask(id, settings, run, startedAt, finishedAt, recountedAt, outputSize);
      error := None;
    }

    /** A Pending job's run, from marking it Running to clearing the cancellation source. */
    method RunTask(id: nat, settings: Settings, run: ProcessRun, startedAt: int, finishedAt: int,
                   recountedAt: int, outputSize: Option<int>)
      requires Valid() && id in tasks && tasks[id].status == Pending
      modifies this, ffmpeg
      ensures Valid()
      ensures nextId == old(nextId)
      ensures var running := Started(old(tasks)[id], startedAt);
        var reports := Reports(run, running.totalDuration);
        var outcome := OutcomeOf(run.exit);
        var final := Ended(WithReports(running, reports), outcome, finishedAt, outputSize);
        && tasks == old(tasks)[id := final]
        && statusEvents == old(statusEvents) + [TaskStatusEvent(id, Pending, Running, None), EndEvent(id, outcome)]
        && progressEvents == old(progressEvents) + ProgressEventsOf(id, reports)
        && batches == RecountedBatches(old(batches), tasks, nextId, final.batchId, recountedAt)
        && currentCts == None
        && ffmpeg.running == old(ffmpeg.running) - {id}
        && ffmpeg.history == old(ffmpeg.history) + [Registered(id), Deregistered(id)]
    {
      ghost var before, statusBefore, progressBefore := tasks, statusEvents, progressEvents;
      Begin(id, startedAt);
      ghost var running := Started(before[id], startedAt);
      assert tasks == before[id := running] && tasks[id] == running;
      ghost var reports := Reports(run, running.totalDuration);
      ghost var outcome := OutcomeOf(run.exit);
      Convert(id, settings, run, finishedAt, outputSize);
      ghost var final := Ended(WithReports(running, reports), outcome, finishedAt, outputSize);
      assert tasks == before[id := final];
      assert statusEvents == statusBefore + [TaskStatusEvent(id, Pending, Running, None), EndEvent(id, outcome)];
      assert progressEvents == progressBefore + ProgressEventsOf(id, reports);
      Conclude(id, recountedAt);
    }

    /** After the run: the job's batch is recounted and the cancellation source is cleared. */
    method Conclude(id: nat, recountedAt: int)
      requires Valid() && id in tasks
      modifies this
      ensures Valid()
      ensures tasks == old(tasks) && nextId == old(nextId)
      ensures batches == RecountedBatches(old(batches), tasks, nextId, tasks[id].batchId, recountedAt)
      ensures currentCts == None
      ensures statusEvents == old(statusEvents) && progressEvents == old(progressEvents)
    {
      UpdateBatchStatus(tasks[id].batchId, recountedAt);
      currentCts := None;
    }

    /** The transcoder runs the Running job; its reports are applied and the job ends by the outcome. */
    method Convert(id: nat, settings: Settings, run: ProcessRun, finishedAt: int, outputSize: Option<int>)
      requires Valid() && id in tasks && tasks[id].status == Running
      modifies this, ffmpeg
      ensures Valid()
      ensures var reports := Reports(run, old(tasks)[id].totalDuration);
        var outcome := OutcomeOf(run.exit);
        && tasks == old(tasks)[id := Ended(WithReports(old(tasks)[id], reports), outcome, finishedAt, outputSize)]
        && statusEvents == old(statusEvents) + [EndEvent(id, outcome)]
        && progressEvents == old(progressEvents) + ProgressEventsOf(id, reports)
      ensures batches == old(batches) && nextId == old(nextId) && currentCts == old(currentCts)
      ensures ffmpeg.running == old(ffmpeg.running) - {id}
      ensures ffmpeg.history == old(ffmpeg.history) + [Registered(id), Deregistered(id)]
    {
      var task := tasks[id];
      var program, arguments, reports, outcome := ffmpeg.ExecuteConversion(task, settings, run);
      ApplyProgress(id, reports);
      ReportsKeepWellFormed(task, reports);
      Finish(id, outcome, finishedAt, outputSize);
    }

    /**
     * `CancelTaskAsync`: a Running job has its token signalled and its
     * process killed; a Pending job goes straight to Cancelled without the
     * driver; a missing or finished job is left alone.
     */
    method CancelTask(id: nat, now: int)
      requires Valid()
      modifies this, ffmpeg
      ensures Valid()
      ensures batches == old(batches) && nextId == old(nextId) && progressEvents == old(progressEvents)
      ensures id in old(tasks) && old(tasks)[id].status == Running ==>
        && tasks == old(tasks) && statusEvents == old(statusEvents)
        && currentCts == (if old(currentCts).Some? then Some(true) else None)
        && (id in old(ffmpeg.running) ==>
              ffmpeg.running == old(ffmpeg.running) - {id}
              && ffmpeg.history == old(ffmpeg.history) + [Deregistered(id), Killed(id)])
        && (id !in old(ffmpeg.running) ==> ffmpeg.running == old(ffmpeg.running) && ffmpeg.history == old(ffmpeg.history))
      ensures id in old(tasks) && old(tasks)[id].status == Pending ==>
        && tasks == old(tasks)[id := old(tasks)[id].(status := Cancelled, completedAt := Some(now))]
        && statusEvents == old(statusEvents) + [TaskStatusEvent(id, Pending, Cancelled, Some(CancelledByUser))]
        && currentCts == old(currentCts)
        && ffmpeg.running == old(ffmpeg.running) && ffmpeg.history == old(ffmpeg.history)
      ensures (id !in old(tasks) || IsTerminal(old(tasks)[id].status)) ==>
        && tasks == old(tasks) && statusEvents == old(statusEvents) && currentCts == old(currentCts)
        && ffmpeg.running == old(ffmpeg.running) && ffmpeg.history == old(ffmpeg.history)
    {
      if id !in tasks {
        return;
      }
      var task := tasks[id];
      if task.status == Running {
        if currentCts.Some? {
          currentCts := Some(true);
        }
        ffmpeg.CancelTask(id);
      } else if task.status == Pending {
        task := task.(status := Cancelled, completedAt := Some(now));
        UpdateTaskValid(tasks, batches, nextId, id, task);
        tasks := tasks[id := task];
        statusEvents := statusEvents + [TaskStatusEvent(id, Pending, Cancelled, Some(CancelledByUser))];
      }
    }

    /** The stored jobs, in id order. */
    function AllTasks(): (r: seq<ConversionTask>)
      reads this
    {
      Values(tasks, nextId)
    }

    /**
     * `GetTaskHistoryAsync`: the jobs with the requested status (all when none
     * is given), newest first, at most `limit` of them (`HistoryIsNewest`).
     */
    function GetTaskHistory(limit: int, status: Option<TaskStatus>): (r: seq<ConversionTask>)
      reads this
      ensures SortedBy(r, NewerFirst)
      ensures forall i :: 0 <= i < |r| ==> r[i] in AllTasks() && HasStatus(r[i], status)
      ensures var matching := MatchingTasks(AllTasks(), status);
        |r| == (if limit <= 0 then 0 else if limit < |matching| then limit else |matching|)
      ensures (forall k :: k in tasks ==> tasks[k].id == k) ==> NoDuplicates(r)
    {
      HistoryFacts(AllTasks(), limit, status);
      if forall k :: k in tasks ==> tasks[k].id == k then
        ValuesNoDuplicates(tasks, nextId);
        History(AllTasks(), limit, status)
      else
        History(AllTasks(), limit, status)
    }

    /** `GetRunningTaskAsync`: the first Running job in id order, if any. */
    function GetRunningTask(): (r: Option<ConversionTask>)
      reads this
      ensures r.Some? ==> r.value in AllTasks() && r.value.status == Running
      ensures r.None? <==> forall i :: 0 <= i < |AllTasks()| ==> AllTasks()[i].status != Running
    {
      FirstRunning(AllTasks())
    }

    /** `CleanupHistoryAsync`: deletes exactly the jobs created before the cutoff and counts them. */
    method CleanupHistory(olderThan: int) returns (count: nat)
      requires Valid()
      modifies this
      ensures Valid()
      ensures forall k :: k in tasks <==> k in old(tasks) && old(tasks)[k].createdAt >= olderThan
      ensures forall k :: k in tasks ==> tasks[k] == old(tasks)[k]
      ensures count == |set k | k in old(tasks) && old(tasks)[k].createdAt < olderThan|
      ensures batches == old(batches) && nextId == old(nextId) && currentCts == old(currentCts)
      ensures statusEvents == old(statusEvents) && progressEvents == old(progressEvents)
    {
      var doomed := set k | k in tasks && tasks[k].createdAt < olderThan;
      count := |doomed|;
      var kept := map k | k in tasks && tasks[k].createdAt >= olderThan :: tasks[k];
      DeleteTasksValid(tasks, batches, nextId, kept);
      tasks := kept;
    }
  }

  /** The history never lists a job older than a matching job it leaves out. */
  lemma HistoryIsNewest(s: TaskService, limit: int, status: Option<TaskStatus>, x: ConversionTask, i: nat)
    requires x in s.AllTasks() && HasStatus(x, status)
    requires x !in s.GetTaskHistory(limit, status)
    requires i < |s.GetTaskHistory(limit, status)|
    ensures s.GetTaskHistory(limit, status)[i].createdAt >= x.createdAt
  {
    var matching := MatchingTasks(s.AllTasks(), status);
    var sorted := Sort(matching, NewerFirst);
    var r := s.GetTaskHistory(limit, status);
    assert r == Take(sorted, limit);
    SortMembers(matching, NewerFirst, x);
    NewerFirstPreorder();
    SortSorted(matching, NewerFirst);
    var j :| 0 <= j < |sorted| && sorted[j] == x;
    assert forall k :: 0 <= k < |r| ==> r[k] == sorted[k] && r[k] != x;
    assert i < j;
    assert NewerFirst(sorted[i], sorted[j]);
  }
}
