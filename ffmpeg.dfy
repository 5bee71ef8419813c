/**
 * The conversion driver: it launches the transcoder on a task's command,
 * turns each diagnostic line into a progress report, and keeps a registry
 * of the processes that are running so that a task can be killed. The
 * process itself is an input: the diagnostic lines it writes and how it
 * ends.
 */
module FFmpeg {
  import opened Wrappers
  import opened Text
  import opened Models
  import opened Progress
  import opened Probe

  /** How the awaited transcoder process ended. */
  datatype ExitStatus =
    | Exited(code: int)              // the process ran and exited with this code
    | TokenCancelled                 // the wait was abandoned because the token was cancelled
    | LaunchFailed(message: string)  // the executable could not be started

  /** One run of the transcoder: its diagnostic lines, in order, and its end. */
  datatype ProcessRun = ProcessRun(stderrLines: seq<string>, exit: ExitStatus)

  /** How the awaited conversion completes for its caller. */
  datatype Outcome =
    | RanToCompletion
    | OperationCanceled
    | Threw(message: string)

  /** Changes to the registry of running processes, in the order they happen. */
  datatype RegistryEvent = Registered(id: nat) | Deregistered(id: nat) | Killed(id: nat)

  function ExitMessage(code: int): (r: string)
    ensures |r| > |"FFmpeg exited with code "|
    ensures r[..|"FFmpeg exited with code "|] == "FFmpeg exited with code "
  {
    "FFmpeg exited with code " + IntToString(code)
  }

  /** Different exit codes give different failure messages. */
  lemma ExitMessageInjective(a: int, b: int)
    requires ExitMessage(a) == ExitMessage(b)
    ensures a == b
  {
    var n := |"FFmpeg exited with code "|;
    assert IntToString(a) == ExitMessage(a)[n..];
    assert IntToString(b) == ExitMessage(b)[n..];
    IntToStringRoundTrip(a);
    IntToStringRoundTrip(b);
  }

  /**
   * The outcome of a process end: only exit code 0 completes normally, a
   * cancelled wait surfaces as a cancellation, and every other end is a
   * failure carrying a message.
   */
  function OutcomeOf(exit: ExitStatus): (r: Outcome)
    ensures r.RanToCompletion? <==> exit == Exited(0)
    ensures r.OperationCanceled? <==> exit.TokenCancelled?
    ensures exit.Exited? && exit.code != 0 ==> r == Threw(ExitMessage(exit.code))
    ensures exit.LaunchFailed? ==> r == Threw(exit.message)
  {
    match exit
    case Exited(code) => if code == 0 then RanToCompletion else Threw(ExitMessage(code))
    case TokenCancelled => OperationCanceled
    case LaunchFailed(message) => Threw(message)
  }

  /** A failed conversion's message tells its exit code apart from every other code. */
  lemma FailureNamesExitCode(a: int, b: int)
    requires a != 0 && b != 0
    requires OutcomeOf(Exited(a)) == OutcomeOf(Exited(b))
    ensures a == b
  {
    ExitMessageInjective(a, b);
  }

  /** The progress reports a run delivers: none when the process never started. */
  function Reports(run: ProcessRun, totalDuration: real): (r: seq<ConversionProgress>)
    ensures run.exit.LaunchFailed? ==> r == []
    ensures !run.exit.LaunchFailed? ==> |r| <= |run.stderrLines|
    ensures forall k :: 0 <= k < |r| ==> 0.0 <= r[k].percentage <= 100.0 && r[k].rawOutput != []
  {
    if run.exit.LaunchFailed? then [] else ProgressEvents(run.stderrLines, totalDuration)
  }

  /** The set of task ids with a registered process after replaying `h`. */
  function Live(h: seq<RegistryEvent>): set<nat> {
    if h == [] then {}
    else
      var before := Live(h[..|h| - 1]);
      match h[|h| - 1]
      case Registered(id) => before + {id}
      case Deregistered(id) => before - {id}
      case Killed(_) => before
  }

  /** A kill always comes straight after removing that same id from the registry. */
  predicate KillsFollowRemoval(h: seq<RegistryEvent>) {
    forall i :: 0 <= i < |h| && h[i].Killed? ==> i > 0 && h[i - 1] == Deregistered(h[i].id)
  }

  /** A balanced register-then-deregister leaves exactly the other processes registered. */
  lemma RunLeavesRegistry(h: seq<RegistryEvent>, id: nat)
    ensures Live(h + [Registered(id), Deregistered(id)]) == Live(h) - {id}
  {
    var h1 := h + [Registered(id)];
    assert (h + [Registered(id), Deregistered(id)])[..|h| + 1] == h1;
    assert h1[..|h|] == h;
  }

  /** Removing and killing a registered process leaves exactly the others registered. */
  lemma CancelLeavesRegistry(h: seq<RegistryEvent>, id: nat)
    ensures Live(h + [Deregistered(id), Killed(id)]) == Live(h) - {id}
  {
    var h1 := h + [Deregistered(id)];
    assert (h + [Deregistered(id), Killed(id)])[..|h| + 1] == h1;
    assert h1[..|h|] == h;
  }

  class FFmpegService {
    /** Task ids whose process is registered (the keys of the concurrent dictionary). */
    var running: set<nat>
    /** Every change made to the registry, oldest first. */
    var history: seq<RegistryEvent>

    ghost predicate Valid()
      reads this
    {
      running == Live(history) && KillsFollowRemoval(history)
    }

    constructor()
      ensures Valid() && running == {} && history == []
    {
      running := {};
      history := [];
    }

    /**
     * `ExecuteConversionAsync`: registers the task's process, starts the
     * configured executable on the task's command, reports each parsed
     * diagnostic line, and removes the registration however the run ends.
     */
    method ExecuteConversion(task: ConversionTask, settings: Settings, run: ProcessRun)
      returns (program: string, arguments: string, reports: seq<ConversionProgress>, outcome: Outcome)
      requires Valid()
      modifies this
      ensures Valid()
      ensures program == ToolPath(settings.ffmpegPath, "ffmpeg")
      ensures arguments == task.actualCommand
      ensures reports == Reports(run, task.totalDuration)
      ensures outcome == OutcomeOf(run.exit)
      ensures running == old(running) - {task.id}
      ensures history == old(history) + [Registered(task.id), Deregistered(task.id)]
    {
      program := ToolPath(settings.ffmpegPath, "ffmpeg");
      arguments := task.actualCommand;
      RunLeavesRegistry(history, task.id);
      running := running + {task.id};
      history := history + [Registered(task.id)];
      reports := Reports(run, task.totalDuration);
      outcome := OutcomeOf(run.exit);
      // the `finally` block
      running := running - {task.id};
      history := history + [Deregistered(task.id)];
    }

    /** `CancelTaskAsync`: kills the registered process, if any; an unknown id is ignored. */
    method CancelTask(id: nat)
      requires Valid()
      modifies this
      ensures Valid()
      ensures id in old(running) ==>
        running == old(running) - {id} && history == old(history) + [Deregistered(id), Killed(id)]
      ensures id !in old(running) ==> running == old(running) && history == old(history)
    {
      if id in running {
        CancelLeavesRegistry(history, id);
        running := running - {id};
        history := history + [Deregistered(id), Killed(id)];
      }
    }
  }
}
