/**
 * Reading the tool's own reports: the version banner, the JSON a media
 * probe prints, and the format and codec listings. Each field is the first
 * match of its pattern; a missing field takes a fixed default, while a
 * field whose text does not convert makes the whole probe fail.
 */
module Probe {
  import opened Wrappers
  import opened Text
  import opened Models
  import Sequences

  /** What a finished helper process left behind, or that it never started. */
  datatype ToolRun = Finished(exitCode: int, output: string) | StartFailed

  /** The configured executable, or the bare name found on the search path. */
  function ToolPath(configured: string, fallback: string): (r: string)
    ensures configured == [] ==> r == fallback
    ensures configured != [] ==> r == configured
  {
    if configured == [] then fallback else configured
  }

  /** A key followed by optional blanks: the position after the blanks. */
  function AfterKey(s: string, i: nat, key: string): (r: nat)
    requires i + |key| <= |s|
    ensures i + |key| <= r <= |s|
    ensures forall k :: i + |key| <= k < r ==> IsWhiteSpace(s[k])
  {
    RunEnd(s, i + |key|, IsWhiteSpace)
  }

  predicate KeyAt(s: string, i: nat, key: string) {
    i + |key| <= |s| && s[i..i + |key|] == key
  }

  // ---------------------------------------------------------------------------
  // Version: `ffmpeg version (\S+)`
  // ---------------------------------------------------------------------------

  const VersionKey: string := "ffmpeg version "

  predicate VersionAt(s: string, i: nat) {
    KeyAt(s, i, VersionKey) && i + |VersionKey| < |s| && IsNonSpace(s[i + |VersionKey|])
  }

  /** `i` is where the regex engine finds its first match: a match, and none before it. */
  predicate FirstVersionAt(s: string, i: nat) {
    VersionAt(s, i) && forall j :: 0 <= j < i ==> !VersionAt(s, j)
  }

  /** `w` is the whole run of non-blank characters that starts at `start`. */
  predicate WordAt(s: string, start: nat, w: string) {
    && start + |w| <= |s| && s[start..start + |w|] == w
    && (start + |w| == |s| || !IsNonSpace(s[start + |w|]))
  }

  /** The run of non-blank characters that starts at `start`. */
  function WordFrom(s: string, start: nat): (w: string)
    requires start <= |s|
    ensures WordAt(s, start, w)
    ensures forall k :: 0 <= k < |w| ==> IsNonSpace(w[k])
    ensures start < |s| && IsNonSpace(s[start]) ==> |w| > 0
  {
    s[start..RunEnd(s, start, IsNonSpace)]
  }

  /** Where the regex engine's scan finds `ffmpeg version \S`, if anywhere. */
  function FirstVersion(s: string): (r: Option<nat>)
    ensures r.None? ==> forall i: nat :: !VersionAt(s, i)
    ensures r.Some? ==> FirstVersionAt(s, r.value)
    ensures r.Some? ==> forall i: nat :: FirstVersionAt(s, i) ==> i == r.value
  {
    var matchesAt := (j: nat) => VersionAt(s, j);
    var r := FirstWhere(0, |s| + 1, matchesAt);
    assert forall i: nat :: VersionAt(s, i) ==> i <= |s| && matchesAt(i);
    r
  }

  /** The word after the first `ffmpeg version ` that is followed by one, or "Unknown". */
  function Version(s: string): (r: string)
    ensures (forall j :: 0 <= j <= |s| ==> !VersionAt(s, j)) ==> r == "Unknown"
    ensures (exists j :: 0 <= j <= |s| && VersionAt(s, j)) ==>
      |r| > 0 && forall k :: 0 <= k < |r| ==> IsNonSpace(r[k])
    ensures forall i: nat :: FirstVersionAt(s, i) ==> WordAt(s, i + |VersionKey|, r)
  {
    match FirstVersion(s)
    case None => "Unknown"
    case Some(i) => WordFrom(s, i + |VersionKey|)
  }

  // ---------------------------------------------------------------------------
  // Probe fields
  // ---------------------------------------------------------------------------

  const DurationKey: string := "\"duration\":"
  const FormatKey: string := "\"format_name\":"
  const CodecKey: string := "\"codec_name\":"
  const WidthKey: string := "\"width\":"
  const HeightKey: string := "\"height\":"

  /** `"duration":\s*"?([\d.]+)"?`: where the digits start (after an optional quote). */
  function DurationDigits(s: string, i: nat): (r: nat)
    requires KeyAt(s, i, DurationKey)
    ensures r <= |s|
  {
    var w := AfterKey(s, i, DurationKey);
    if w < |s| && s[w] == '"' then w + 1 else w
  }

  predicate DurationAt(s: string, i: nat) {
    KeyAt(s, i, DurationKey) && RunEnd(s, DurationDigits(s, i), IsDigitOrDot) > DurationDigits(s, i)
  }

  /** The digits-and-dots text of the first duration field. */
  function DurationText(s: string): (r: Option<string>)
    ensures r.Some? ==> |r.value| > 0 && forall k :: 0 <= k < |r.value| ==> IsDigitOrDot(r.value[k])
    ensures r.None? <==> forall j :: 0 <= j <= |s| ==> !DurationAt(s, j)
  {
    var at := (j: nat) => DurationAt(s, j);
    match FirstWhere(0, |s| + 1, at)
    case None =>
      assert forall j :: 0 <= j <= |s| ==> !DurationAt(s, j) by {
        forall j | 0 <= j <= |s| ensures !DurationAt(s, j) {
          assert !at(j);
        }
      }
      None
    case Some(i) =>
      assert at(i);
      var d := DurationDigits(s, i);
      var e := RunEnd(s, d, IsDigitOrDot);
      assert forall k :: 0 <= k < e - d ==> s[d..e][k] == s[d + k];
      Some(s[d..e])
  }

  predicate IsNotQuote(c: char) { c != '"' }

  /** `<key>\s*"([^"]+)"` matches at `i`: a quoted, non-empty, closed string. */
  predicate QuotedAt(s: string, i: nat, key: string) {
    && KeyAt(s, i, key)
    && AfterKey(s, i, key) < |s| && s[AfterKey(s, i, key)] == '"'
    && AfterKey(s, i, key) + 1 < RunEnd(s, AfterKey(s, i, key) + 1, IsNotQuote) < |s|
  }

  /** The quoted text of the first match of a quoted field. */
  function QuotedText(s: string, key: string): (r: Option<string>)
    ensures r.Some? ==> |r.value| > 0 && forall k :: 0 <= k < |r.value| ==> r.value[k] != '"'
    ensures r.None? <==> forall j :: 0 <= j <= |s| ==> !QuotedAt(s, j, key)
  {
    var at := (j: nat) => QuotedAt(s, j, key);
    match FirstWhere(0, |s| + 1, at)
    case None =>
      assert forall j :: 0 <= j <= |s| ==> !QuotedAt(s, j, key) by {
        forall j | 0 <= j <= |s| ensures !QuotedAt(s, j, key) {
          assert !at(j);
        }
      }
      None
    case Some(i) =>
      assert at(i);
      var start := AfterKey(s, i, key) + 1;
      var e := RunEnd(s, start, IsNotQuote);
      assert forall k :: 0 <= k < e - start ==> s[start..e][k] == s[start + k];
      Some(s[start..e])
  }

  /** `<key>\s*(\d+)` matches at `i`. */
  predicate NumberAt(s: string, i: nat, key: string) {
    KeyAt(s, i, key) && RunEnd(s, AfterKey(s, i, key), IsDigit) > AfterKey(s, i, key)
  }

  /** The digits of the first match of a numeric field. */
  function NumberText(s: string, key: string): (r: Option<string>)
    ensures r.Some? ==> |r.value| > 0 && AllDigits(r.value)
    ensures r.None? <==> forall j :: 0 <= j <= |s| ==> !NumberAt(s, j, key)
  {
    var at := (j: nat) => NumberAt(s, j, key);
    match FirstWhere(0, |s| + 1, at)
    case None =>
      assert forall j :: 0 <= j <= |s| ==> !NumberAt(s, j, key) by {
        forall j | 0 <= j <= |s| ensures !NumberAt(s, j, key) {
          assert !at(j);
        }
      }
      None
    case Some(i) =>
      assert at(i);
      var d := AfterKey(s, i, key);
      var e := RunEnd(s, d, IsDigit);
      assert forall k :: 0 <= k < e - d ==> s[d..e][k] == s[d + k];
      Some(s[d..e])
  }

  /** A numeric field as an `int`: zero when missing, a failure when it overflows. */
  function IntField(s: string, key: string): (r: Option<int>)
    ensures NumberText(s, key).None? ==> r == Some(0)
    ensures NumberText(s, key).Some? ==> r == ParseInt32(NumberText(s, key).value)
  {
    match NumberText(s, key)
    case None => Some(0)
    case Some(t) => ParseInt32(t)
  }

  /** The duration as a number: zero when missing, a failure when the text is not a number. */
  function DurationField(s: string): (r: Option<real>)
    ensures DurationText(s).None? ==> r == Some(0.0)
    ensures DurationText(s).Some? ==> r == ParseDecimal(DurationText(s).value)
    ensures r.Some? ==> r.value >= 0.0
  {
    match DurationText(s)
    case None => Some(0.0)
    case Some(t) => ParseDecimal(t)
  }

  /**
   * The media record read from a successful probe's JSON. Audio codec and
   * frame rate are never read.
   */
  function ParseMediaInfo(filePath: string, output: string, fileSize: int): (r: Option<MediaInfo>)
    ensures r.Some? <==> DurationField(output).Some? && IntField(output, WidthKey).Some? && IntField(output, HeightKey).Some?
    ensures r.Some? ==>
      && r.value.filePath == filePath
      && r.value.duration == DurationField(output).value
      && r.value.format == QuotedText(output, FormatKey).GetOr("unknown")
      && r.value.videoCodec == QuotedText(output, CodecKey)
      && r.value.audioCodec.None?
      && r.value.width == IntField(output, WidthKey).value
      && r.value.height == IntField(output, HeightKey).value
      && r.value.frameRate == 0.0
      && r.value.fileSize == fileSize
  {
    var duration := DurationField(output);
    var width := IntField(output, WidthKey);
    var height := IntField(output, HeightKey);
    if duration.None? || width.None? || height.None? then None
    else
      Some(MediaInfo(filePath, duration.value, QuotedText(output, FormatKey).GetOr("unknown"),
                     QuotedText(output, CodecKey), None, width.value, height.value, 0.0, fileSize))
  }

  /**
   * `GetMediaInfoAsync` on the probe's outcome and the input file's size
   * (absent when the file cannot be read): nothing unless the probe exits
   * with code 0.
   */
  function GetMediaInfo(filePath: string, run: ToolRun, fileSize: Option<int>): (r: Option<MediaInfo>)
    ensures r.Some? ==> run.Finished? && run.exitCode == 0 && fileSize.Some?
    ensures r.Some? ==> r == ParseMediaInfo(filePath, run.output, fileSize.value)
    ensures run.Finished? && run.exitCode == 0 && fileSize.Some? ==> r == ParseMediaInfo(filePath, run.output, fileSize.value)
  {
    match run
    case StartFailed => None
    case Finished(code, output) =>
      if code != 0 || fileSize.None? then None else ParseMediaInfo(filePath, output, fileSize.value)
  }

  /** A probe whose JSON has none of the fields yields every default. */
  lemma ProbeDefaults(filePath: string, output: string, fileSize: int)
    requires DurationText(output).None?
    requires QuotedText(output, FormatKey).None? && QuotedText(output, CodecKey).None?
    requires NumberText(output, WidthKey).None? && NumberText(output, HeightKey).None?
    ensures ParseMediaInfo(filePath, output, fileSize)
         == Some(MediaInfo(filePath, 0.0, "unknown", None, None, 0, 0, 0.0, fileSize))
  {
  }

  /** A width or height beyond the 32-bit range makes the whole probe fail. */
  lemma ProbeOverflowFails(filePath: string, output: string, fileSize: int)
    requires NumberText(output, WidthKey).Some?
    requires DigitsValue(NumberText(output, WidthKey).value) > MaxInt32
    ensures ParseMediaInfo(filePath, output, fileSize).None?
  {
  }

  // ---------------------------------------------------------------------------
  // Listings: `^\s*[DE.]+\s+(\w+)` and `^\s*[DEVASIL.]+\s+(\w+)`, single-line mode
  // ---------------------------------------------------------------------------

  predicate IsFormatFlag(c: char) { c == 'D' || c == 'E' || c == '.' }

  predicate IsCodecFlag(c: char) {
    c == 'D' || c == 'E' || c == 'V' || c == 'A' || c == 'S' || c == 'I' || c == 'L' || c == '.'
  }

  /**
   * The names a listing pattern collects. Without multi-line mode `^` only
   * matches at the very start of the output, so there is at most one.
   */
  function ListingNames(s: string, isFlag: char -> bool): (r: seq<string>)
    ensures |r| <= 1
    ensures |r| == 1 ==> |r[0]| > 0 && forall k :: 0 <= k < |r[0]| ==> IsWordChar(r[0][k])
  {
    var w := RunEnd(s, 0, IsWhiteSpace);
    var f := RunEnd(s, w, isFlag);
    var g := RunEnd(s, f, IsWhiteSpace);
    var e := RunEnd(s, g, IsWordChar);
    if w < f && f < g && g < e then [s[g..e]] else []
  }

  /** A listing's distinct names, or none when the process could not be started. */
  function Listing(run: ToolRun, isFlag: char -> bool): (r: seq<string>)
    ensures |r| <= 1
    ensures run.StartFailed? ==> r == []
  {
    match run
    case StartFailed => []
    case Finished(_, output) => Sequences.Distinct(ListingNames(output, isFlag))
  }

  /**
   * `GetFFmpegInfoAsync`: nothing unless `-version` exits with code 0; the
   * listings are taken whatever their exit codes.
   */
  function GetFFmpegInfo(settings: Settings, versionRun: ToolRun, formatsRun: ToolRun, codecsRun: ToolRun)
    : (r: Option<FFmpegInfo>)
    ensures r.Some? <==> versionRun.Finished? && versionRun.exitCode == 0
    ensures r.Some? ==>
      && r.value.version == Version(versionRun.output)
      && r.value.path == ToolPath(settings.ffmpegPath, "ffmpeg")
      && r.value.supportedFormats == Listing(formatsRun, IsFormatFlag)
      && r.value.supportedCodecs == Listing(codecsRun, IsCodecFlag)
  {
    match versionRun
    case StartFailed => None
    case Finished(code, output) =>
      if code != 0 then None
      else
        Some(FFmpegInfo(Version(output), ToolPath(settings.ffmpegPath, "ffmpeg"),
                        Listing(formatsRun, IsFormatFlag), Listing(codecsRun, IsCodecFlag)))
  }

  /** Output that starts with a heading word (as the real listings do) yields no names. */
  lemma HeadingListingEmpty(s: string, isFlag: char -> bool)
    requires |s| > 0 && !IsWhiteSpace(s[0]) && !isFlag(s[0])
    ensures ListingNames(s, isFlag) == []
  {
  }
}
