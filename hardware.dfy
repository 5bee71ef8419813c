/**
 * Encoder detection: which video encoders the transcoder was built with,
 * which of them work on this machine (a one-frame test encode for the
 * hardware ones), the cached detection result with its 30-minute lifetime,
 * and the recommendation of an encoder for a codec. The processes are
 * inputs: the outcome of each command line the service would run.
 */
module Hardware {
  import opened Wrappers
  import opened Text
  import opened Models
  import Probe

  // ---------------------------------------------------------------------------
  // The catalogue
  // ---------------------------------------------------------------------------

  /** One encoder the service knows about: its name, its display name and its kind. */
  datatype CatalogueEntry = CatalogueEntry(name: string, displayName: string, encoderType: EncoderType)

  /** The known encoders, in the order a detection run lists them. */
  const Catalogue: seq<CatalogueEntry> := [
    CatalogueEntry("h264_nvenc", "NVIDIA NVENC H.264", Nvenc),
    CatalogueEntry("hevc_nvenc", "NVIDIA NVENC H.265/HEVC", Nvenc),
    CatalogueEntry("av1_nvenc", "NVIDIA NVENC AV1", Nvenc),
    CatalogueEntry("h264_qsv", "Intel QuickSync H.264", Qsv),
    CatalogueEntry("hevc_qsv", "Intel QuickSync H.265/HEVC", Qsv),
    CatalogueEntry("av1_qsv", "Intel QuickSync AV1", Qsv),
    CatalogueEntry("h264_amf", "AMD AMF H.264", Amf),
    CatalogueEntry("hevc_amf", "AMD AMF H.265/HEVC", Amf),
    CatalogueEntry("h264_videotoolbox", "Apple VideoToolbox H.264", VideoToolbox),
    CatalogueEntry("hevc_videotoolbox", "Apple VideoToolbox H.265/HEVC", VideoToolbox),
    CatalogueEntry("libx264", "软件编码 H.264 (x264)", Software),
    CatalogueEntry("libx265", "软件编码 H.265 (x265)", Software),
    CatalogueEntry("libvpx-vp9", "软件编码 VP9 (libvpx)", Software),
    CatalogueEntry("libaom-av1", "软件编码 AV1 (libaom)", Software)
  ]

  /** The catalogue's names, in order. */
  function CatalogueNames(): (r: seq<string>)
    ensures |r| == |Catalogue|
    ensures forall i :: 0 <= i < |r| ==> r[i] == Catalogue[i].name
  {
    seq(|Catalogue|, i requires 0 <= i < |Catalogue| => Catalogue[i].name)
  }

  /** The catalogue has fourteen entries and no name twice, as the keys of a dictionary. */
  lemma CatalogueDistinct()
    ensures |Catalogue| == 14
    ensures forall i, j :: 0 <= i < j < |Catalogue| ==> Catalogue[i].name != Catalogue[j].name
  {
    var names := CatalogueNames();
    assert names == ["h264_nvenc", "hevc_nvenc", "av1_nvenc", "h264_qsv", "hevc_qsv", "av1_qsv",
                     "h264_amf", "hevc_amf", "h264_videotoolbox", "hevc_videotoolbox",
                     "libx264", "libx265", "libvpx-vp9", "libaom-av1"];
    forall i, j | 0 <= i < j < |Catalogue|
      ensures Catalogue[i].name != Catalogue[j].name
    {
      assert names[i] == Catalogue[i].name && names[j] == Catalogue[j].name;
      NamesDiffer(names, i, j);
    }
  }

  /** Two catalogue names differ at their first character, their length or a later character. */
  lemma NamesDiffer(names: seq<string>, i: nat, j: nat)
    requires names == ["h264_nvenc", "hevc_nvenc", "av1_nvenc", "h264_qsv", "hevc_qsv", "av1_qsv",
                       "h264_amf", "hevc_amf", "h264_videotoolbox", "hevc_videotoolbox",
                       "libx264", "libx265", "libvpx-vp9", "libaom-av1"]
    requires i < j < |names|
    ensures names[i] != names[j]
  {
  }

  // ---------------------------------------------------------------------------
  // The encoder listing (`-encoders`)
  // ---------------------------------------------------------------------------

  /** The arguments of the listing run. */
  const ListingArguments := "-encoders -hide_banner"

  /** A position where the multiline anchor `^` holds: the start or just after a line feed. */
  predicate IsLineStart(s: string, p: nat) {
    p == 0 || (p <= |s| && s[p - 1] == '\n')
  }

  /** The class `[\.\w]` of the flag characters. */
  predicate IsFlagChar(c: char) { c == '.' || IsWordChar(c) }

  /**
   * `\s*V[\.\w]{5}\s+(\S+)` tried at `p`: the span of the captured name.
   * Each part is greedy and none can give characters back to the next,
   * so the match, when there is one, is unique.
   */
  function MatchAt(s: string, p: nat): (r: Option<(nat, nat)>)
    requires p <= |s|
    ensures r.Some? ==> p + 7 <= r.value.0 < r.value.1 <= |s|
    ensures r.Some? ==> forall k :: r.value.0 <= k < r.value.1 ==> IsNonSpace(s[k])
    ensures r.Some? ==> r.value.1 == |s| || !IsNonSpace(s[r.value.1])
  {
    var v := RunEnd(s, p, IsWhiteSpace);
    if v + 6 <= |s| && s[v] == 'V' && (forall k :: v + 1 <= k < v + 6 ==> IsFlagChar(s[k])) then
      var n := RunEnd(s, v + 6, IsWhiteSpace);
      var e := RunEnd(s, n, IsNonSpace);
      if n > v + 6 && e > n then Some((n, e)) else None
    else None
  }

  /** A match of the listing pattern starts at `p`. */
  predicate MatchStarts(s: string, p: nat) {
    p <= |s| && IsLineStart(s, p) && MatchAt(s, p).Some?
  }

  /**
   * The captured names of `Regex.Matches` scanning from `p`: the leftmost
   * match, then the scan resumes where that match ends.
   */
  function EncoderMatches(s: string, p: nat): (r: seq<string>)
    decreases |s| - p
    ensures forall i :: 0 <= i < |r| ==> |r[i]| > 0 && forall k :: 0 <= k < |r[i]| ==> IsNonSpace(r[i][k])
  {
    if p >= |s| then []
    else if MatchStarts(s, p) then
      var span := MatchAt(s, p).value;
      [s[span.0..span.1]] + EncoderMatches(s, span.1)
    else EncoderMatches(s, p + 1)
  }

  /** The name captured by the match at `p`. */
  function CaptureAt(s: string, p: nat): string
    requires MatchStarts(s, p)
  {
    var span := MatchAt(s, p).value;
    s[span.0..span.1]
  }

  /** Every listed name was captured by a match starting at a line start. */
  lemma {:induction false} MatchesComeFromLines(s: string, p: nat, i: nat)
    requires i < |EncoderMatches(s, p)|
    decreases |s| - p
    ensures exists q :: p <= q < |s| && MatchStarts(s, q) && EncoderMatches(s, p)[i] == CaptureAt(s, q)
  {
    if MatchStarts(s, p) {
      var span := MatchAt(s, p).value;
      if i == 0 {
        assert EncoderMatches(s, p)[0] == CaptureAt(s, p);
      } else {
        MatchesComeFromLines(s, span.1, i - 1);
      }
    } else {
      MatchesComeFromLines(s, p + 1, i);
    }
  }

  /** The first matching line from `p` on is the first listed name. */
  lemma {:induction false} FirstMatchListedFirst(s: string, p: nat, q: nat)
    requires p <= q && MatchStarts(s, q)
    requires forall j :: p <= j < q ==> !MatchStarts(s, j)
    decreases q - p
    ensures |EncoderMatches(s, p)| > 0 && EncoderMatches(s, p)[0] == CaptureAt(s, q)
  {
    if p < q {
      FirstMatchListedFirst(s, p + 1, q);
    }
  }

  /** A line whose first non-blank mark is `A` (an audio encoder) contributes nothing. */
  lemma AudioLineIgnored()
    ensures EncoderMatches(" A..... aac", 0) == []
  {
    var s := " A..... aac";
    forall p | 0 <= p < |s|
      ensures !MatchStarts(s, p)
    {
      if p == 0 {
        assert RunEnd(s, 0, IsWhiteSpace) == 1 by {
          assert RunEnd(s, 1, IsWhiteSpace) == 1;
        }
      }
    }
    NoMatchFrom(s, 0);
  }

  /** Without any match from `p` on, the scan finds nothing. */
  lemma {:induction false} NoMatchFrom(s: string, p: nat)
    requires forall j :: p <= j < |s| ==> !MatchStarts(s, j)
    decreases |s| - p
    ensures EncoderMatches(s, p) == []
  {
    if p < |s| {
      NoMatchFrom(s, p + 1);
    }
  }

  /** A line of ffmpeg's listing for a video encoder. */
  const VideoLine := " V..... x264 H.264"

  /** The runs the pattern consumes on that line: one blank, the flags, one blank, the name. */
  lemma VideoLineRuns()
    ensures RunEnd(VideoLine, 0, IsWhiteSpace) == 1
    ensures RunEnd(VideoLine, 7, IsWhiteSpace) == 8
    ensures RunEnd(VideoLine, 8, IsNonSpace) == 12
  {
    assert RunEnd(VideoLine, 1, IsWhiteSpace) == 1;
    assert RunEnd(VideoLine, 8, IsWhiteSpace) == 8;
    assert RunEnd(VideoLine, 12, IsNonSpace) == 12;
    assert RunEnd(VideoLine, 11, IsNonSpace) == 12;
    assert RunEnd(VideoLine, 10, IsNonSpace) == 12;
    assert RunEnd(VideoLine, 9, IsNonSpace) == 12;
  }

  /** The pattern matches at the start of the line and captures the encoder name. */
  lemma VideoLineMatch()
    ensures MatchStarts(VideoLine, 0) && CaptureAt(VideoLine, 0) == "x264" && MatchAt(VideoLine, 0).value.1 == 12
  {
    VideoLineRuns();
    assert MatchAt(VideoLine, 0) == Some((8, 12));
    assert VideoLine[8..12] == "x264";
  }

  /** A video line contributes its name, and the rest of the line nothing. */
  lemma VideoLineListed()
    ensures EncoderMatches(VideoLine, 0) == ["x264"]
  {
    VideoLineMatch();
    forall j | 12 <= j < |VideoLine|
      ensures !MatchStarts(VideoLine, j)
    {
      assert VideoLine[j - 1] != '\n';
    }
    NoMatchFrom(VideoLine, 12);
  }

  /** `GetAllEncodersAsync`: the set of listed names; an empty set when the listing cannot be run. */
  method GetAllEncoders(listing: Probe.ToolRun) returns (names: set<string>)
    ensures names == Compiled(listing)
  {
    names := {};
    if listing.StartFailed? {
      return;
    }
    var matches := EncoderMatches(listing.output, 0);
    for i := 0 to |matches|
      invariant names == set k | 0 <= k < i :: matches[k]
    {
      names := names + {matches[i]};
    }
  }

  // ---------------------------------------------------------------------------
  // The functional test
  // ---------------------------------------------------------------------------

  /** The arguments of the one-frame test encode with the named encoder. */
  function TestArguments(encoderName: string): string {
    "-f lavfi -i nullsrc=s=256x256:d=0.1 -c:v " + encoderName + " -frames:v 1 -f null - -y"
  }

  /** How a test encode ended. */
  datatype TestRun =
    | TestThrew                             // the process could not be started or read
    | TimedOut                              // still running after 10 seconds; it is killed
    | TestExited(exitCode: int, stderr: string)

  /** The diagnostics that mean the hardware could not be initialised. */
  const FailurePhrases: seq<string> := [
    "Cannot load", "Failed to", "No capable devices found", "Error initializing",
    "Device creation failed", "not available", "Cannot open"
  ]

  /** A listed failure phrase, or both `hwaccel` and `failed`, appears in the diagnostics. */
  predicate HardwareError(stderr: string) {
    (exists i :: 0 <= i < |FailurePhrases| && Contains(stderr, FailurePhrases[i]))
    || (Contains(stderr, "hwaccel") && Contains(stderr, "failed"))
  }

  /** `TestEncoderAsync`: the test passes only on a clean exit that reports an encoded frame. */
  function TestPassed(run: TestRun): (r: bool)
    ensures r <==> run.TestExited? && run.exitCode == 0 && !HardwareError(run.stderr) && Contains(run.stderr, "frame=")
  {
    match run
    case TestThrew => false
    case TimedOut => false
    case TestExited(code, stderr) =>
      if code != 0 then false
      else if HardwareError(stderr) then false
      else Contains(stderr, "frame=")
  }

  /** A passing test showed none of the failure phrases. */
  lemma PassedTestIsClean(run: TestRun, phrase: string)
    requires TestPassed(run) && phrase in FailurePhrases + ["hwaccel"]
    requires phrase != "hwaccel" || Contains(run.stderr, "failed")
    ensures !Contains(run.stderr, phrase)
  {
    var phrases := FailurePhrases + ["hwaccel"];
    var i :| 0 <= i < |phrases| && phrases[i] == phrase;
    if i < |FailurePhrases| {
      assert FailurePhrases[i] == phrase;
    }
  }

  /** Time-outs, failed starts and failing exit codes never pass, whatever was written. */
  lemma FailedRunsFail(run: TestRun)
    requires run.TestThrew? || run.TimedOut? || (run.TestExited? && run.exitCode != 0)
    ensures !TestPassed(run)
  {
  }

  // ---------------------------------------------------------------------------
  // Codecs and candidates
  // ---------------------------------------------------------------------------

  /** `GetCodecsForEncoder`: the codecs an encoder produces, judged from its name, first rule first. */
  function GetCodecsForEncoder(encoderName: string): (r: seq<string>)
    ensures Contains(encoderName, "h264") || Contains(encoderName, "x264") ==> r == ["h264", "avc"]
    ensures r == ["hevc", "h265"] <==>
      !(Contains(encoderName, "h264") || Contains(encoderName, "x264"))
      && (Contains(encoderName, "hevc") || Contains(encoderName, "h265") || Contains(encoderName, "x265"))
    ensures r == ["av1"] <==>
      !(Contains(encoderName, "h264") || Contains(encoderName, "x264"))
      && !(Contains(encoderName, "hevc") || Contains(encoderName, "h265") || Contains(encoderName, "x265"))
      && Contains(encoderName, "av1")
    ensures r == ["vp9"] <==>
      !(Contains(encoderName, "h264") || Contains(encoderName, "x264"))
      && !(Contains(encoderName, "hevc") || Contains(encoderName, "h265") || Contains(encoderName, "x265"))
      && !Contains(encoderName, "av1") && Contains(encoderName, "vp9")
    ensures r == [] <==>
      !Contains(encoderName, "h264") && !Contains(encoderName, "x264") && !Contains(encoderName, "hevc")
      && !Contains(encoderName, "h265") && !Contains(encoderName, "x265") && !Contains(encoderName, "av1")
      && !Contains(encoderName, "vp9")
  {
    if Contains(encoderName, "h264") || Contains(encoderName, "x264") then ["h264", "avc"]
    else if Contains(encoderName, "hevc") || Contains(encoderName, "h265") || Contains(encoderName, "x265") then ["hevc", "h265"]
    else if Contains(encoderName, "av1") then ["av1"]
    else if Contains(encoderName, "vp9") then ["vp9"]
    else []
  }

  /** The encoders worth trying for a codec, best first; unknown codecs get the x264 encoder. */
  function Candidates(codec: string): (r: seq<string>)
    ensures |r| > 0
  {
    var c := ToLowerString(codec);
    if c == "h264" || c == "avc" then ["h264_nvenc", "h264_qsv", "h264_amf", "h264_videotoolbox", "libx264"]
    else if c == "h265" || c == "hevc" then ["hevc_nvenc", "hevc_qsv", "hevc_amf", "hevc_videotoolbox", "libx265"]
    else if c == "av1" then ["av1_nvenc", "av1_qsv", "libaom-av1"]
    else if c == "vp9" then ["libvpx-vp9"]
    else ["libx264"]
  }

  /**
   * The candidate table's rules: the codec is compared after lowering, `avc`
   * shares `h264`'s list and `h265` shares `hevc`'s, and every other codec
   * gets the x264 encoder alone.
   */
  lemma CandidateRules(codec: string)
    ensures Candidates(codec) == Candidates(ToLowerString(codec))
    ensures Candidates("avc") == Candidates("h264") && Candidates("h265") == Candidates("hevc")
    ensures Candidates("H264") == Candidates("h264")
    ensures var c := ToLowerString(codec);
      c != "h264" && c != "avc" && c != "h265" && c != "hevc" && c != "av1" && c != "vp9"
      ==> Candidates(codec) == ["libx264"]
  {
    LowerIdempotent(codec);
    CandidateAliases();
  }

  /** The aliases, and an upper-case spelling, of the table's codecs. */
  lemma CandidateAliases()
    ensures Candidates("avc") == Candidates("h264") && Candidates("h265") == Candidates("hevc")
    ensures Candidates("H264") == Candidates("h264")
  {
    assert ToLowerString("avc") == "avc" && ToLowerString("h264") == "h264";
    assert ToLowerString("h265") == "h265" && ToLowerString("hevc") == "hevc";
    assert ToLowerString("H264") == "h264";
  }

  /** Lowering twice is lowering once. */
  lemma LowerIdempotent(s: string)
    ensures ToLowerString(ToLowerString(s)) == ToLowerString(s)
  {
    var once := ToLowerString(s);
    assert forall i :: 0 <= i < |s| ==> ToLower(once[i]) == once[i];
  }

  /** Where each candidate list sits in the catalogue. */
  function CandidatePositions(codec: string): (r: seq<nat>)
  {
    var c := ToLowerString(codec);
    if c == "h264" || c == "avc" then [0, 3, 6, 8, 10]
    else if c == "h265" || c == "hevc" then [1, 4, 7, 9, 11]
    else if c == "av1" then [2, 5, 13]
    else if c == "vp9" then [12]
    else [10]
  }

  /**
   * Every candidate is a catalogue encoder, and the last candidate of every
   * list is a software encoder, which needs no test to be available.
   */
  lemma CandidatesFromCatalogue(codec: string)
    ensures var r := Candidates(codec);
      var positions := CandidatePositions(codec);
      && |positions| == |r|
      && (forall i :: 0 <= i < |r| ==> positions[i] < |Catalogue| && Catalogue[positions[i]].name == r[i])
      && Catalogue[positions[|r| - 1]].encoderType == Software
  {
  }

  // ---------------------------------------------------------------------------
  // Detection
  // ---------------------------------------------------------------------------

  const NotCompiled := "编码器不在 FFmpeg 编译中"
  const DriverMissing := "硬件加速不可用或驱动未安装"

  /** Thirty minutes, in 100-nanosecond ticks. */
  const CacheLifetime: int := 30 * 60 * 10_000_000

  /** A catalogue entry is available when it is built in and is software or passes its test. */
  predicate Available(entry: CatalogueEntry, compiled: set<string>, tests: (string, string) -> TestRun, program: string) {
    entry.name in compiled && (entry.encoderType == Software || TestPassed(tests(program, TestArguments(entry.name))))
  }

  /** The detection record of one catalogue entry. */
  function Detected(entry: CatalogueEntry, compiled: set<string>, tests: (string, string) -> TestRun,
                    program: string, now: int): (r: HardwareEncoder)
    ensures r.name == entry.name && r.displayName == entry.displayName && r.encoderType == entry.encoderType
    ensures r.isAvailable <==> Available(entry, compiled, tests, program)
    ensures r.unavailableReason == (if entry.name !in compiled then Some(NotCompiled)
                                    else if !r.isAvailable then Some(DriverMissing) else None)
    ensures r.supportedCodecs == GetCodecsForEncoder(entry.name) && r.lastCheckedAt == now
  {
    var isInList := entry.name in compiled;
    var isAvailable := isInList && (entry.encoderType == Software || TestPassed(tests(program, TestArguments(entry.name))));
    var reason := if !isInList then Some(NotCompiled) else if !isAvailable then Some(DriverMissing) else None;
    HardwareEncoder(entry.name, entry.displayName, entry.encoderType, isAvailable,
                    GetCodecsForEncoder(entry.name), now, reason)
  }

  /** The records of the first `n` catalogue entries. */
  function DetectedUpTo(entries: seq<CatalogueEntry>, n: nat, compiled: set<string>, tests: (string, string) -> TestRun,
                        program: string, now: int): (r: seq<HardwareEncoder>)
    requires n <= |entries|
    ensures |r| == n
    ensures forall i :: 0 <= i < n ==> r[i] == Detected(entries[i], compiled, tests, program, now)
  {
    if n == 0 then []
    else DetectedUpTo(entries, n - 1, compiled, tests, program, now) + [Detected(entries[n - 1], compiled, tests, program, now)]
  }

  /** The names tested among the first `n` catalogue entries: built-in hardware encoders only. */
  function TestedUpTo(entries: seq<CatalogueEntry>, n: nat, compiled: set<string>): (r: seq<string>)
    requires n <= |entries|
    ensures |r| <= n
  {
    if n == 0 then []
    else
      var e := entries[n - 1];
      TestedUpTo(entries, n - 1, compiled) + (if e.name in compiled && e.encoderType != Software then [e.name] else [])
  }

  /** Exactly the built-in hardware encoders of the catalogue are tested, and nothing else. */
  lemma {:induction false} TestedAreBuiltInHardware(entries: seq<CatalogueEntry>, n: nat, compiled: set<string>, name: string)
    requires n <= |entries|
    ensures name in TestedUpTo(entries, n, compiled) <==>
      exists i :: 0 <= i < n && entries[i].name == name && name in compiled && entries[i].encoderType != Software
  {
    if n > 0 {
      TestedAreBuiltInHardware(entries, n - 1, compiled, name);
      var e := entries[n - 1];
      if name in TestedUpTo(entries, n, compiled) && name !in TestedUpTo(entries, n - 1, compiled) {
        assert e.name == name;
      }
    }
  }

  /** The cached list is still good: not forced, not empty, and detected less than 30 minutes ago. */
  predicate CacheFresh(forceRefresh: bool, cached: seq<HardwareEncoder>, last: Option<int>, now: int) {
    !forceRefresh && |cached| > 0 && last.Some? && now - last.value < CacheLifetime
  }

  /** A detection run lists every catalogue entry once, in catalogue order, with its verdict. */
  lemma DetectionListsCatalogue(compiled: set<string>, tests: (string, string) -> TestRun, program: string, now: int)
    ensures var r := DetectedUpTo(Catalogue, |Catalogue|, compiled, tests, program, now);
      && |r| == 14
      && (forall i :: 0 <= i < |r| ==> r[i].name == Catalogue[i].name)
      && (forall i, j :: 0 <= i < j < |r| ==> r[i].name != r[j].name)
      && (forall i :: 0 <= i < |r| ==> (r[i].unavailableReason == None <==> r[i].isAvailable))
  {
    CatalogueDistinct();
  }

  /** A software encoder is available exactly when it is built in; no test is consulted. */
  lemma SoftwareNeedsNoTest(entry: CatalogueEntry, compiled: set<string>, tests: (string, string) -> TestRun,
                            program: string)
    requires entry.encoderType == Software
    ensures Available(entry, compiled, tests, program) <==> entry.name in compiled
  {
  }

  // ---------------------------------------------------------------------------
  // Recommendation
  // ---------------------------------------------------------------------------

  /** `FirstOrDefault(e => e.Name == name && e.IsAvailable)`. */
  function FirstAvailable(encoders: seq<HardwareEncoder>, name: string): (r: Option<HardwareEncoder>)
    ensures r.Some? ==> r.value in encoders && r.value.name == name && r.value.isAvailable
    ensures r.None? <==> forall i :: 0 <= i < |encoders| ==> !(encoders[i].name == name && encoders[i].isAvailable)
  {
    if encoders == [] then None
    else if encoders[0].name == name && encoders[0].isAvailable then Some(encoders[0])
    else
      var r := FirstAvailable(encoders[1..], name);
      assert r.None? ==> forall i :: 1 <= i < |encoders| ==> encoders[1..][i - 1] == encoders[i];
      r
  }

  /** The first available record of the candidate is a hardware one. */
  predicate HardwarePick(encoders: seq<HardwareEncoder>, candidate: string) {
    var e := FirstAvailable(encoders, candidate);
    e.Some? && e.value.encoderType != Software
  }

  /** Some record of the candidate is available. */
  predicate AvailablePick(encoders: seq<HardwareEncoder>, candidate: string) {
    FirstAvailable(encoders, candidate).Some?
  }

  /** The candidate is acceptable: hardware when `hardwareOnly`, else merely available. */
  predicate Acceptable(encoders: seq<HardwareEncoder>, candidate: string, hardwareOnly: bool) {
    if hardwareOnly then HardwarePick(encoders, candidate) else AvailablePick(encoders, candidate)
  }

  /** The first acceptable candidate at or after `from`, if any. */
  function FirstPick(encoders: seq<HardwareEncoder>, candidates: seq<string>, hardwareOnly: bool, from: nat): (r: Option<nat>)
    decreases |candidates| - from
    ensures r.Some? ==> from <= r.value < |candidates| && Acceptable(encoders, candidates[r.value], hardwareOnly)
    ensures r.Some? ==> forall j :: from <= j < r.value ==> !Acceptable(encoders, candidates[j], hardwareOnly)
    ensures r.None? ==> forall j :: from <= j < |candidates| ==> !Acceptable(encoders, candidates[j], hardwareOnly)
  {
    if from >= |candidates| then None
    else if Acceptable(encoders, candidates[from], hardwareOnly) then Some(from)
    else FirstPick(encoders, candidates, hardwareOnly, from + 1)
  }

  const DefaultEncoder := "libx264"

  /** `GetRecommendedEncoderAsync`'s choice among the detected records. */
  function Recommendation(encoders: seq<HardwareEncoder>, candidates: seq<string>, preferHardware: bool): string {
    var hardware := FirstPick(encoders, candidates, true, 0);
    var available := FirstPick(encoders, candidates, false, 0);
    if preferHardware && hardware.Some? then candidates[hardware.value]
    else if available.Some? then candidates[available.value]
    else DefaultEncoder
  }

  /**
   * With the preference set, the first candidate whose available record is
   * hardware wins; otherwise the first available candidate; when none is
   * available, the x264 encoder. The choice is always a candidate or x264.
   */
  lemma RecommendationRule(encoders: seq<HardwareEncoder>, candidates: seq<string>, preferHardware: bool, i: nat)
    requires i < |candidates|
    ensures (preferHardware && HardwarePick(encoders, candidates[i])
             && forall j :: 0 <= j < i ==> !HardwarePick(encoders, candidates[j]))
            ==> Recommendation(encoders, candidates, preferHardware) == candidates[i]
    ensures ((!preferHardware || forall j :: 0 <= j < |candidates| ==> !HardwarePick(encoders, candidates[j]))
             && AvailablePick(encoders, candidates[i])
             && forall j :: 0 <= j < i ==> !AvailablePick(encoders, candidates[j]))
            ==> Recommendation(encoders, candidates, preferHardware) == candidates[i]
    ensures (forall j :: 0 <= j < |candidates| ==> !AvailablePick(encoders, candidates[j]))
            ==> Recommendation(encoders, candidates, preferHardware) == DefaultEncoder
    ensures Recommendation(encoders, candidates, preferHardware) in candidates
            || Recommendation(encoders, candidates, preferHardware) == DefaultEncoder
  {
    var hardware := FirstPick(encoders, candidates, true, 0);
    var available := FirstPick(encoders, candidates, false, 0);
    if hardware.Some? && hardware.value != i && preferHardware && HardwarePick(encoders, candidates[i]) {
      assert Acceptable(encoders, candidates[i], true);
      assert hardware.value < i;
    }
    if available.Some? && available.value != i && AvailablePick(encoders, candidates[i]) {
      assert Acceptable(encoders, candidates[i], false);
      assert available.value < i;
    }
  }

  /** A recommended candidate has an available record, and with the preference a hardware one when any candidate has one. */
  lemma RecommendedIsAvailable(encoders: seq<HardwareEncoder>, candidates: seq<string>, preferHardware: bool)
    ensures var r := Recommendation(encoders, candidates, preferHardware);
      && (r != DefaultEncoder ==> AvailablePick(encoders, r))
      && (preferHardware && (exists j :: 0 <= j < |candidates| && HardwarePick(encoders, candidates[j]))
          ==> HardwarePick(encoders, r))
  {
  }

  // ---------------------------------------------------------------------------
  // The service
  // ---------------------------------------------------------------------------

  class HardwareDetectionService {
    /** The Encoders collection, in insertion order. */
    var encoders: seq<HardwareEncoder>
    /** When the last detection run finished. */
    var lastDetectionTime: Option<int>

    constructor(cached: seq<HardwareEncoder>)
      ensures encoders == cached && lastDetectionTime == None
    {
      encoders := cached;
      lastDetectionTime := None;
    }

    /**
     * `DetectEncodersAsync`: a fresh cache is returned untouched and nothing
     * is run; otherwise the listing is run once, each built-in hardware
     * encoder is tested once, and the cache becomes the new records.
     */
    method DetectEncoders(forceRefresh: bool, now: int, settings: Settings,
                          listing: (string, string) -> Probe.ToolRun, tests: (string, string) -> TestRun)
      returns (r: seq<HardwareEncoder>, tested: seq<string>)
      modifies this
      ensures encoders == r
      ensures CacheFresh(forceRefresh, old(encoders), old(lastDetectionTime), now) ==>
        r == old(encoders) && lastDetectionTime == old(lastDetectionTime) && tested == []
      ensures !CacheFresh(forceRefresh, old(encoders), old(lastDetectionTime), now) ==>
        var program := Probe.ToolPath(settings.ffmpegPath, "ffmpeg");
        var compiled := Compiled(listing(program, ListingArguments));
        && r == DetectedUpTo(Catalogue, |Catalogue|, compiled, tests, program, now)
        && tested == TestedUpTo(Catalogue, |Catalogue|, compiled)
        && lastDetectionTime == Some(now)
    {
      if !forceRefresh {
        if |encoders| > 0 && lastDetectionTime.Some? && now - lastDetectionTime.value < CacheLifetime {
          return encoders, [];
        }
      }
      if forceRefresh {
        encoders := [];
        lastDetectionTime := None;
      }
      var program := Probe.ToolPath(settings.ffmpegPath, "ffmpeg");
      var compiled := GetAllEncoders(listing(program, ListingArguments));
      r, tested := DetectAll(Catalogue, compiled, tests, program, now);
      encoders := r;
      lastDetectionTime := Some(now);
    }

    /** The detection loop over the catalogue entries, in order. */
    static method DetectAll(entries: seq<CatalogueEntry>, compiled: set<string>, tests: (string, string) -> TestRun,
                            program: string, now: int)
      returns (r: seq<HardwareEncoder>, tested: seq<string>)
      ensures r == DetectedUpTo(entries, |entries|, compiled, tests, program, now)
      ensures tested == TestedUpTo(entries, |entries|, compiled)
    {
      r := [];
      tested := [];
      for i := 0 to |entries|
        invariant r == DetectedUpTo(entries, i, compiled, tests, program, now)
        invariant tested == TestedUpTo(entries, i, compiled)
      {
        var record, wasTested := DetectOne(entries[i], compiled, tests, program, now);
        DetectedStep(entries, i, compiled, tests, program, now);
        if wasTested {
          tested := tested + [entries[i].name];
        }
        r := r + [record];
      }
    }

    /** One more entry appends its record, and its name when its test runs. */
    static lemma DetectedStep(entries: seq<CatalogueEntry>, i: nat, compiled: set<string>, tests: (string, string) -> TestRun,
                              program: string, now: int)
      requires i < |entries|
      ensures DetectedUpTo(entries, i + 1, compiled, tests, program, now)
           == DetectedUpTo(entries, i, compiled, tests, program, now) + [Detected(entries[i], compiled, tests, program, now)]
      ensures TestedUpTo(entries, i + 1, compiled)
           == TestedUpTo(entries, i, compiled)
              + (if entries[i].name in compiled && entries[i].encoderType != Software then [entries[i].name] else [])
    {
    }

    /** One pass of the detection loop: the entry's record, and whether its test was run. */
    static method DetectOne(entry: CatalogueEntry, compiled: set<string>, tests: (string, string) -> TestRun,
                            program: string, now: int) returns (record: HardwareEncoder, wasTested: bool)
      ensures record == Detected(entry, compiled, tests, program, now)
      ensures wasTested <==> entry.name in compiled && entry.encoderType != Software
    {
      var isInList := entry.name in compiled;
      var isAvailable := false;
      wasTested := false;
      if isInList {
        if entry.encoderType == Software {
          isAvailable := true;
        } else {
          wasTested := true;
          isAvailable := TestPassed(tests(program, TestArguments(entry.name)));
        }
      }
      var reason := if !isInList then Some(NotCompiled) else if !isAvailable then Some(DriverMissing) else None;
      record := HardwareEncoder(entry.name, entry.displayName, entry.encoderType, isAvailable,
                                GetCodecsForEncoder(entry.name), now, reason);
    }

    /** `IsEncoderAvailableAsync`: some record of the detection result has the name and is available. */
    method IsEncoderAvailable(encoderName: string, now: int, settings: Settings,
                              listing: (string, string) -> Probe.ToolRun, tests: (string, string) -> TestRun)
      returns (r: bool)
      modifies this
      ensures CacheFresh(false, old(encoders), old(lastDetectionTime), now) ==>
        encoders == old(encoders) && lastDetectionTime == old(lastDetectionTime)
      ensures !CacheFresh(false, old(encoders), old(lastDetectionTime), now) ==>
        var program := Probe.ToolPath(settings.ffmpegPath, "ffmpeg");
        encoders == DetectedUpTo(Catalogue, |Catalogue|, Compiled(listing(program, ListingArguments)), tests, program, now)
        && lastDetectionTime == Some(now)
      ensures r <==> exists i :: 0 <= i < |encoders| && encoders[i].name == encoderName && encoders[i].isAvailable
    {
      var found, _ := DetectEncoders(false, now, settings, listing, tests);
      r := FirstAvailable(found, encoderName).Some?;
    }

    /** `GetRecommendedEncoderAsync`: the two scans over the candidates, then the x264 fallback. */
    method GetRecommendedEncoder(codec: string, now: int, settings: Settings,
                                 listing: (string, string) -> Probe.ToolRun, tests: (string, string) -> TestRun)
      returns (r: string)
      modifies this
      ensures CacheFresh(false, old(encoders), old(lastDetectionTime), now) ==>
        encoders == old(encoders) && lastDetectionTime == old(lastDetectionTime)
      ensures !CacheFresh(false, old(encoders), old(lastDetectionTime), now) ==>
        var program := Probe.ToolPath(settings.ffmpegPath, "ffmpeg");
        encoders == DetectedUpTo(Catalogue, |Catalogue|, Compiled(listing(program, ListingArguments)), tests, program, now)
        && lastDetectionTime == Some(now)
      ensures r == Recommendation(encoders, Candidates(codec), settings.preferHardwareAcceleration)
    {
      var found, _ := DetectEncoders(false, now, settings, listing, tests);
      var candidates := Candidates(codec);
      r := Choose(found, candidates, settings.preferHardwareAcceleration);
    }
  }

  /** The two scans of the recommendation, with their early returns. */
  method Choose(encoders: seq<HardwareEncoder>, candidates: seq<string>, preferHardware: bool) returns (r: string)
    ensures r == Recommendation(encoders, candidates, preferHardware)
  {
    if preferHardware {
      for i := 0 to |candidates|
        invariant forall j :: 0 <= j < i ==> !HardwarePick(encoders, candidates[j])
      {
        var encoder := FirstAvailable(encoders, candidates[i]);
        if encoder.Some? && encoder.value.encoderType != Software {
          assert HardwarePick(encoders, candidates[i]);
          RecommendationRule(encoders, candidates, preferHardware, i);
          return encoder.value.name;
        }
      }
    }
    for i := 0 to |candidates|
      invariant forall j :: 0 <= j < i ==> !AvailablePick(encoders, candidates[j])
    {
      if FirstAvailable(encoders, candidates[i]).Some? {
        RecommendationRule(encoders, candidates, preferHardware, i);
        return candidates[i];
      }
    }
    return DefaultEncoder;
  }

  /** The built-in names of a listing run: none when it could not be started. */
  function Compiled(listing: Probe.ToolRun): set<string> {
    match listing
    case StartFailed => {}
    case Finished(_, output) =>
      var ms := EncoderMatches(output, 0);
      set i | 0 <= i < |ms| :: ms[i]
  }
}
