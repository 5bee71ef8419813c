/**
 * The records the services keep in the document store and pass to the UI.
 * Object ids are natural numbers handed out by a counter, so that "a fresh
 * ObjectId" is "the next unused number"; instants are tick counts supplied
 * by the caller; durations, percentages and speeds are exact reals.
 */
module Models {
  import opened Wrappers
  import Sequences

  datatype TemplateType = System | User

  datatype TaskStatus = Pending | Running | Completed | Failed | Cancelled

  datatype EncoderType = Software | Nvenc | Qsv | Amf | VideoToolbox

  /** Completed, Failed and Cancelled are final: nothing moves a task out of them. */
  predicate IsTerminal(s: TaskStatus) {
    s == Completed || s == Failed || s == Cancelled
  }

  /** One conversion job: an input file, the command it runs and its progress. */
  datatype ConversionTask = ConversionTask(
    id: nat,
    inputPath: string,
    outputPath: string,
    templateId: nat,
    actualCommand: string,
    status: TaskStatus,
    progress: real,
    totalDuration: real,
    currentTime: real,
    estimatedTimeRemaining: Option<real>,
    processingSpeed: Option<real>,
    logOutput: string,
    errorMessage: Option<string>,
    createdAt: int,
    startedAt: Option<int>,
    completedAt: Option<int>,
    inputFileSize: int,
    outputFileSize: Option<int>,
    batchId: Option<nat>)

  /** A group of conversion jobs sharing one template, with aggregate counters. */
  datatype BatchTask = BatchTask(
    id: nat,
    name: string,
    templateId: nat,
    totalFiles: int,
    completedFiles: int,
    failedFiles: int,
    status: TaskStatus,
    createdAt: int,
    completedAt: Option<int>)

  /** A transcoder argument template with `{placeholder}` tokens. */
  datatype CommandTemplate = CommandTemplate(
    id: nat,
    name: string,
    description: string,
    commandArgs: string,
    templateType: TemplateType,
    category: string,
    supportedInputFormats: seq<string>,
    outputExtension: string,
    requiresHardwareAcceleration: bool,
    requiredEncoder: Option<string>,
    createdAt: int,
    updatedAt: int,
    sortOrder: int)

  /** The two clock readings a new template takes, one for `CreatedAt` and one for `UpdatedAt`. */
  datatype Stamp = Stamp(created: int, updated: int)

  /** One catalogue entry of the capability detector, with its verdict. */
  datatype HardwareEncoder = HardwareEncoder(
    name: string,
    displayName: string,
    encoderType: EncoderType,
    isAvailable: bool,
    supportedCodecs: seq<string>,
    lastCheckedAt: int,
    unavailableReason: Option<string>)

  /** The settings the services read: tool paths and the hardware preference. */
  datatype Settings = Settings(
    ffmpegPath: string,
    ffprobePath: string,
    preferHardwareAcceleration: bool)

  datatype FFmpegInfo = FFmpegInfo(
    version: string,
    path: string,
    supportedFormats: seq<string>,
    supportedCodecs: seq<string>)

  datatype MediaInfo = MediaInfo(
    filePath: string,
    duration: real,
    format: string,
    videoCodec: Option<string>,
    audioCodec: Option<string>,
    width: int,
    height: int,
    frameRate: real,
    fileSize: int)

  /** One progress report parsed from a line of the transcoder's diagnostics. */
  datatype ConversionProgress = ConversionProgress(
    percentage: real,
    currentTime: real,
    totalDuration: real,
    speed: Option<real>,
    eta: Option<real>,
    rawOutput: string)

  datatype TaskProgressEvent = TaskProgressEvent(
    taskId: nat,
    progress: real,
    speed: Option<real>,
    eta: Option<real>)

  datatype TaskStatusEvent = TaskStatusEvent(
    taskId: nat,
    oldStatus: TaskStatus,
    newStatus: TaskStatus,
    errorMessage: Option<string>)

  /**
   * The records of a store keyed by id, in ascending id order (the
   * collection's natural order), looking only at ids below `n`.
   */
  function Values<V>(m: map<nat, V>, n: nat): (r: seq<V>)
    ensures |r| <= n
  {
    if n == 0 then [] else Values(m, n - 1) + (if n - 1 in m then [m[n - 1]] else [])
  }

  /** The enumeration lists exactly the records stored under ids below `n`. */
  lemma {:induction false} ValuesMembers<V>(m: map<nat, V>, n: nat, x: V)
    ensures x in Values(m, n) <==> exists k :: 0 <= k < n && k in m && m[k] == x
  {
    if n > 0 {
      ValuesMembers(m, n - 1, x);
      if n - 1 in m && m[n - 1] == x {
        assert x in Values(m, n);
      }
    }
  }

  /** When every id is below `n`, the enumeration lists exactly the stored records. */
  lemma ValuesAll<V>(m: map<nat, V>, n: nat)
    requires forall k :: k in m ==> k < n
    ensures forall x :: x in Values(m, n) <==> x in m.Values
  {
    forall x
      ensures x in Values(m, n) <==> x in m.Values
    {
      ValuesMembers(m, n, x);
    }
  }

  /** No record is listed twice when no record is stored under two ids. */
  lemma {:induction false} ValuesNoDuplicates<V>(m: map<nat, V>, n: nat)
    requires forall a, b :: a in m && b in m && m[a] == m[b] ==> a == b
    ensures Sequences.NoDuplicates(Values(m, n))
  {
    if n > 0 {
      ValuesNoDuplicates(m, n - 1);
      var prefix := Values(m, n - 1);
      if n - 1 in m {
        var x := m[n - 1];
        ValuesMembers(m, n - 1, x);
        assert x !in prefix;
        var r := prefix + [x];
        forall i, j | 0 <= i < j < |r| ensures r[i] != r[j] {
          if j == |prefix| { assert r[i] == prefix[i] && r[i] in prefix; }
          else { assert r[i] == prefix[i] && r[j] == prefix[j]; }
        }
      }
    }
  }

  /** Records stored at or above `n` do not take part in the enumeration. */
  lemma {:induction false} ValuesBeyond<V>(m: map<nat, V>, n: nat, k: nat, v: V)
    requires n <= k
    ensures Values(m[k := v], n) == Values(m, n)
  {
    if n > 0 {
      ValuesBeyond(m, n - 1, k, v);
    }
  }
}
