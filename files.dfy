/**
 * The file-name logic of the file service: Windows path decomposition and
 * joining, the output path of a conversion, file-name templates with
 * placeholders, and the extension filter and order of a directory scan.
 * The clock, the random identifiers, the custom date formatter, the
 * directory listing and the host's invalid file-name characters are inputs.
 */
module Files {
  import opened Wrappers
  import opened Text
  import opened Sequences
  import Templates

  // ---------------------------------------------------------------------------
  // Paths (System.IO.Path on a Windows host)
  // ---------------------------------------------------------------------------

  predicate IsSeparator(c: char) { c == '\\' || c == '/' }

  predicate IsDot(c: char) { c == '.' }

  predicate IsDotOrSeparator(c: char) { c == '.' || IsSeparator(c) }

  /** No separator and no volume colon: text that can only be part of a file name. */
  predicate IsPlainName(s: string) {
    forall k :: 0 <= k < |s| ==> !IsSeparator(s[k]) && s[k] != ':'
  }

  /** The greatest position below `end` holding a character that satisfies `isStop`. */
  function ScanBack(s: string, end: nat, isStop: char -> bool): (r: Option<nat>)
    requires end <= |s|
    ensures r.Some? ==> r.value < end && isStop(s[r.value])
    ensures r.Some? ==> forall k :: r.value < k < end ==> !isStop(s[k])
    ensures r.None? ==> forall k :: 0 <= k < end ==> !isStop(s[k])
  {
    if end == 0 then None
    else if isStop(s[end - 1]) then Some(end - 1)
    else ScanBack(s, end - 1, isStop)
  }

  predicate IsNotSeparator(c: char) { !IsSeparator(c) }

  /** Extended syntax, `\\?\` or `\??\` written with backslashes only. */
  predicate IsExtended(p: string) {
    |p| >= 4 && p[0] == '\\' && (p[1] == '\\' || p[1] == '?') && p[2] == '?' && p[3] == '\\'
  }

  /** Device syntax: extended, or two separators, `.` or `?`, and a separator (`\\.\`, `//?/`). */
  predicate IsDevice(p: string) {
    || IsExtended(p)
    || (|p| >= 4 && IsSeparator(p[0]) && IsSeparator(p[1]) && (p[2] == '.' || p[2] == '?') && IsSeparator(p[3]))
  }

  /** A device path to a share: the device prefix followed by `UNC` and a separator. */
  predicate IsDeviceUnc(p: string) {
    |p| >= 8 && IsDevice(p) && p[4] == 'U' && p[5] == 'N' && p[6] == 'C' && IsSeparator(p[7])
  }

  /** A share path `\\server\share` (two separators, not device syntax) or its device form. */
  predicate IsUnc(p: string) {
    IsDeviceUnc(p) || (!IsDevice(p) && |p| >= 2 && IsSeparator(p[0]) && IsSeparator(p[1]))
  }

  /** The first separator at or after `i`, or the end. */
  function SeparatorFrom(p: string, i: nat): (r: nat)
    requires i <= |p|
    ensures i <= r <= |p| && (r == |p| || IsSeparator(p[r]))
    ensures forall k :: i <= k < r ==> !IsSeparator(p[k])
  {
    RunEnd(p, i, IsNotSeparator)
  }

  /**
   * The end of a share root `server\share` that begins at `start`: the second
   * separator from there (which the root does not include), or the end.
   */
  function UncRootEnd(p: string, start: nat): (r: nat)
    requires start <= |p|
    ensures start <= r <= |p| && (r == |p| || IsSeparator(p[r]))
    ensures forall a, b :: start <= a < b < r ==> !(IsSeparator(p[a]) && IsSeparator(p[b]))
    ensures r < |p| ==> exists m :: start <= m < r && IsSeparator(p[m])
  {
    var first := SeparatorFrom(p, start);
    if first == |p| then |p| else SeparatorFrom(p, first + 1)
  }

  /**
   * Length of the root of a path (`GetRootLength` on Windows): a share
   * (`\\server\share`, `\\?\UNC\server\share`), a device path with its first
   * component and separator (`\\?\C:\`, `\\.\pipe\`), a single leading
   * separator (`\dir`), or a drive letter and colon (`C:`), followed by a
   * separator (`C:\`) or not.
   */
  function RootLength(p: string): (r: nat)
    ensures r <= |p|
    ensures r > 0 <==> IsPathRooted(p)
    ensures |p| >= 2 && IsAsciiLetter(p[0]) && p[1] == ':' ==>
      r == (if |p| > 2 && IsSeparator(p[2]) then 3 else 2)
    ensures |p| >= 1 && IsSeparator(p[0]) && !IsDevice(p) && !(|p| >= 2 && IsSeparator(p[1])) ==> r == 1
  {
    if IsDevice(p) || (|p| >= 2 && IsSeparator(p[0]) && IsSeparator(p[1])) then LongRootLength(p)
    else if |p| > 0 && IsSeparator(p[0]) then 1
    else if |p| >= 2 && p[1] == ':' && IsAsciiLetter(p[0]) then
      (if |p| > 2 && IsSeparator(p[2]) then 3 else 2)
    else 0
  }

  /** The root of a path that begins with two separators, or with device syntax. */
  function LongRootLength(p: string): (r: nat)
    requires IsDevice(p) || (|p| >= 2 && IsSeparator(p[0]) && IsSeparator(p[1]))
    ensures 2 <= r <= |p|
  {
    if IsDeviceUnc(p) then UncRootEnd(p, 8)
    else if IsDevice(p) then
      var i := SeparatorFrom(p, 4);
      if i < |p| && i > 4 then i + 1 else i
    else UncRootEnd(p, 2)
  }

  /**
   * A share root runs from its prefix (`\\` or `\\?\UNC\`) to the second
   * separator after it; a device root is the prefix and the next component,
   * with its separator when that component is not empty.
   */
  lemma ShareAndDeviceRoots(p: string)
    ensures IsUnc(p) ==> RootLength(p) == UncRootEnd(p, if IsDeviceUnc(p) then 8 else 2)
    ensures IsDevice(p) && !IsDeviceUnc(p) ==>
      var r := RootLength(p);
      && 4 <= r
      && (forall k :: 4 <= k < r - 1 ==> !IsSeparator(p[k]))
      && (r > 5 ==> IsSeparator(p[r - 1]) || r == |p|)
  {
  }

  /**
   * A directory whose root is a drive, a single separator or nothing: not a
   * share or a device path, whose root's extent depends on what follows it.
   */
  predicate HasPlainRoot(q: string) {
    !IsDevice(q) && !(|q| >= 2 && IsSeparator(q[0]) && IsSeparator(q[1]))
  }

  /** `Path.IsPathRooted`: a leading separator or a drive letter with its colon. */
  predicate IsPathRooted(p: string) {
    (|p| >= 1 && IsSeparator(p[0])) || (|p| >= 2 && IsAsciiLetter(p[0]) && p[1] == ':')
  }

  /** Where the last path component begins: just after the last separator. */
  function NameStart(p: string): (r: nat)
    ensures r <= |p|
    ensures forall k :: r <= k < |p| ==> !IsSeparator(p[k])
    ensures r > 0 ==> IsSeparator(p[r - 1])
  {
    match ScanBack(p, |p|, IsSeparator)
    case None => 0
    case Some(i) => i + 1
  }

  /** `Path.GetFileName`: the text after the last separator and after the root. */
  function GetFileName(p: string): (r: string)
    ensures |r| <= |p| && r == p[|p| - |r|..]
    ensures forall k :: 0 <= k < |r| ==> !IsSeparator(r[k])
  {
    var start := if RootLength(p) < NameStart(p) then NameStart(p) else RootLength(p);
    p[start..]
  }

  /** `Path.GetFileNameWithoutExtension`: the file name up to its last dot. */
  function GetFileNameWithoutExtension(p: string): (r: string)
    ensures |r| <= |GetFileName(p)| && r == GetFileName(p)[..|r|]
    ensures forall k :: 0 <= k < |r| ==> !IsSeparator(r[k])
  {
    var name := GetFileName(p);
    match ScanBack(name, |name|, IsDot)
    case None => name
    case Some(i) => name[..i]
  }

  /**
   * `Path.GetExtension`: from the last dot of the last component to the
   * end; empty when there is no dot or the dot is the last character.
   */
  function GetExtension(p: string): (r: string)
    ensures r == [] || (r[0] == '.' && 2 <= |r| <= |p| && r == p[|p| - |r|..])
    ensures forall k :: 0 < k < |r| ==> r[k] != '.' && !IsSeparator(r[k])
  {
    match ScanBack(p, |p|, IsDotOrSeparator)
    case None => []
    case Some(i) => if p[i] == '.' && i < |p| - 1 then p[i..] else []
  }

  /**
   * `Path.Combine` of two parts: an empty part yields the other, a rooted
   * second part replaces the first, and otherwise the parts are joined by
   * one separator unless one is already there.
   */
  function Combine(a: string, b: string): (r: string)
    ensures a == [] ==> r == b
    ensures b == [] ==> r == a
    ensures b != [] && IsPathRooted(b) ==> r == b
    ensures a != [] && b != [] && !IsPathRooted(b) ==>
      |a| + |b| <= |r| <= |a| + |b| + 1 && r[..|a|] == a && r[|r| - |b|..] == b
  {
    if a == [] then b
    else if b == [] then a
    else if IsPathRooted(b) then b
    else if IsSeparator(a[|a| - 1]) || IsSeparator(b[0]) then a + b
    else a + "\\" + b
  }

  /**
   * The directory part of `p` (`Path.GetDirectoryName`, with a missing
   * directory read as empty) is empty: either `p` is no more than a root, or
   * it has no root and no separator at all.
   */
  predicate DirectoryPartEmpty(p: string) {
    |p| <= RootLength(p) || (RootLength(p) == 0 && NameStart(p) == 0)
  }

  lemma ScanBackFinds(s: string, end: nat, isStop: char -> bool, i: nat)
    requires i < end <= |s| && isStop(s[i])
    requires forall k :: i < k < end ==> !isStop(s[k])
    ensures ScanBack(s, end, isStop) == Some(i)
  {
  }

  /** Below a prefix that ends with a separator, a plain name is the whole file name. */
  lemma {:induction false} FileNameUnder(q: string, name: string)
    requires q == [] || IsSeparator(q[|q| - 1])
    requires HasPlainRoot(q)
    requires IsPlainName(name)
    ensures GetFileName(q + name) == name
  {
    var p := q + name;
    forall k | |q| <= k < |p| ensures !IsSeparator(p[k]) && p[k] != ':' {
      assert p[k] == name[k - |q|];
    }
    PlainRootUnder(q, name);
    if q == [] {
      assert p == name;
      assert ScanBack(p, |p|, IsSeparator).None?;
    } else {
      assert IsSeparator(p[|q| - 1]);
      ScanBackFinds(p, |p|, IsSeparator, |q| - 1);
      assert NameStart(p) == |q|;
      assert RootLength(p) <= |q|;
    }
    assert p[|q|..] == name;
  }

  /** Below a directory with a plain root, the root of a longer path lies within the directory. */
  lemma PlainRootUnder(q: string, name: string)
    requires q == [] || IsSeparator(q[|q| - 1])
    requires HasPlainRoot(q)
    requires IsPlainName(name)
    ensures RootLength(q + name) <= |q|
  {
    var p := q + name;
    forall k | |q| <= k < |p| ensures !IsSeparator(p[k]) && p[k] != ':' {
      assert p[k] == name[k - |q|];
    }
    if |q| >= 4 {
      assert p[..4] == q[..4];
    }
    assert !IsDevice(p);
  }

  // ---------------------------------------------------------------------------
  // Output paths
  // ---------------------------------------------------------------------------

  /** The suffix that is actually inserted: none when it is absent or empty. */
  function SuffixText(suffix: Option<string>): string {
    suffix.GetOr([])
  }

  /** The output file name: input stem, then the suffix, then `.` and the extension without its leading dots. */
  function OutputFileName(inputPath: string, extension: string, suffix: Option<string>): (r: string)
    ensures var stem := GetFileNameWithoutExtension(inputPath);
      r == stem + SuffixText(suffix) + "." + TrimStart(extension, '.')
  {
    var stem := GetFileNameWithoutExtension(inputPath);
    var ext := TrimStart(extension, '.');
    if suffix.None? || suffix.value == [] then
      assert stem + SuffixText(suffix) == stem;
      stem + "." + ext
    else stem + suffix.value + "." + ext
  }

  /** `GenerateOutputPath`: the output file name joined under the output directory. */
  function GenerateOutputPath(inputPath: string, outputDirectory: string, extension: string, suffix: Option<string>): string {
    Combine(outputDirectory, OutputFileName(inputPath, extension, suffix))
  }

  /** Leading dots of the requested extension make no difference: "mp4", ".mp4" and "..mp4" agree. */
  lemma ExtensionDotsIgnored(inputPath: string, outputDirectory: string, extension: string, suffix: Option<string>)
    ensures GenerateOutputPath(inputPath, outputDirectory, "." + extension, suffix)
         == GenerateOutputPath(inputPath, outputDirectory, extension, suffix)
  {
    assert ("." + extension)[1..] == extension;
  }

  /** A file name ending in a dot and a dot-free extension has the text before that dot as its stem. */
  lemma StemBeforeLastDot(p: string, base: string, ext: string)
    requires GetFileName(p) == base + "." + ext
    requires forall k :: 0 <= k < |ext| ==> ext[k] != '.'
    ensures GetFileNameWithoutExtension(p) == base
  {
    var name := base + "." + ext;
    forall k | |base| < k < |name| ensures !IsDot(name[k]) {
      assert name[k] == ext[k - |base| - 1];
    }
    ScanBackFinds(name, |name|, IsDot, |base|);
    assert name[..|base|] == base;
  }

  /** A path ending in a dot and an extension without dots or separators has that extension. */
  lemma ExtensionAfterLastDot(p: string, prefix: string, ext: string)
    requires p == prefix + "." + ext
    requires forall k :: 0 <= k < |ext| ==> ext[k] != '.' && !IsSeparator(ext[k])
    ensures GetExtension(p) == if ext == [] then [] else "." + ext
  {
    forall k | |prefix| < k < |p| ensures !IsDotOrSeparator(p[k]) {
      assert p[k] == ext[k - |prefix| - 1];
    }
    ScanBackFinds(p, |p|, IsDotOrSeparator, |prefix|);
    if ext != [] {
      assert p[|prefix|..] == "." + ext;
    }
  }

  /** What `Combine` puts before a second part that is not rooted. */
  function JoinPrefix(directory: string): (r: string)
    ensures r == [] || IsSeparator(r[|r| - 1])
    ensures directory != [] ==> |directory| <= |r| && r[..|directory|] == directory
  {
    if directory == [] then []
    else if IsSeparator(directory[|directory| - 1]) then directory
    else directory + "\\"
  }

  lemma CombineAsPrefix(directory: string, name: string)
    requires name != [] && !IsPathRooted(name) && !IsSeparator(name[0])
    ensures Combine(directory, name) == JoinPrefix(directory) + name
  {
  }

  /** Plain parts make a plain, unrooted file name. */
  lemma PlainFileName(base: string, ext: string)
    requires IsPlainName(base) && IsPlainName(ext)
    ensures IsPlainName(base + "." + ext) && !IsPathRooted(base + "." + ext)
  {
    var name := base + "." + ext;
    forall k | 0 <= k < |name| ensures !IsSeparator(name[k]) && name[k] != ':' {
      if k < |base| { assert name[k] == base[k]; }
      else if k > |base| { assert name[k] == ext[k - |base| - 1]; }
    }
  }

  /** A plain file name below a directory prefix decomposes into its stem and extension. */
  lemma PathParts(q: string, base: string, ext: string)
    requires q == [] || IsSeparator(q[|q| - 1])
    requires HasPlainRoot(q)
    requires IsPlainName(base) && IsPlainName(ext) && forall k :: 0 <= k < |ext| ==> ext[k] != '.'
    ensures GetFileName(q + (base + "." + ext)) == base + "." + ext
    ensures GetFileNameWithoutExtension(q + (base + "." + ext)) == base
    ensures GetExtension(q + (base + "." + ext)) == if ext == [] then [] else "." + ext
  {
    var name := base + "." + ext;
    PlainFileName(base, ext);
    FileNameUnder(q, name);
    StemBeforeLastDot(q + name, base, ext);
    PathExtension(q, base, ext);
  }

  lemma PathExtension(q: string, base: string, ext: string)
    requires IsPlainName(ext) && forall k :: 0 <= k < |ext| ==> ext[k] != '.'
    ensures GetExtension(q + (base + "." + ext)) == if ext == [] then [] else "." + ext
  {
    assert q + (base + "." + ext) == (q + base) + "." + ext;
    ExtensionAfterLastDot(q + (base + "." + ext), q + base, ext);
  }

  /**
   * The generated path decomposes back into its parts: its file name is the
   * output file name, its stem is the input stem followed by the suffix, its
   * extension is the requested one, and it lies under the output directory.
   * The directory, closed by its separator, must not have a share or a
   * device root: such a root runs on into the file name when the directory
   * stops short of its end (`\\server` and `\??`, for instance).
   */
  lemma OutputPathRoundTrip(inputPath: string, outputDirectory: string, extension: string, suffix: Option<string>)
    requires HasPlainRoot(JoinPrefix(outputDirectory))
    requires IsPlainName(GetFileNameWithoutExtension(inputPath)) && IsPlainName(SuffixText(suffix))
    requires var ext := TrimStart(extension, '.');
      IsPlainName(ext) && forall k :: 0 <= k < |ext| ==> ext[k] != '.'
    ensures var p := GenerateOutputPath(inputPath, outputDirectory, extension, suffix);
      var ext := TrimStart(extension, '.');
      && GetFileName(p) == OutputFileName(inputPath, extension, suffix)
      && GetFileNameWithoutExtension(p) == GetFileNameWithoutExtension(inputPath) + SuffixText(suffix)
      && GetExtension(p) == (if ext == [] then [] else "." + ext)
      && (outputDirectory != [] ==> |outputDirectory| <= |p| && p[..|outputDirectory|] == outputDirectory)
  {
    var stem := GetFileNameWithoutExtension(inputPath);
    var ext := TrimStart(extension, '.');
    var base := stem + SuffixText(suffix);
    var p := GenerateOutputPath(inputPath, outputDirectory, extension, suffix);
    var q := JoinPrefix(outputDirectory);
    var name := base + "." + ext;
    assert p == q + name && (outputDirectory != [] ==> |outputDirectory| <= |p| && p[..|outputDirectory|] == outputDirectory) by {
      PlainConcat(stem, SuffixText(suffix));
      OutputPathJoin(inputPath, outputDirectory, extension, suffix);
    }
    assert GetFileName(q + name) == name && GetFileNameWithoutExtension(q + name) == base
        && GetExtension(q + name) == (if ext == [] then [] else "." + ext) by {
      PlainConcat(stem, SuffixText(suffix));
      PathParts(q, base, ext);
    }
  }

  /** The generated path is the closed directory followed by the output file name. */
  lemma OutputPathJoin(inputPath: string, outputDirectory: string, extension: string, suffix: Option<string>)
    requires IsPlainName(GetFileNameWithoutExtension(inputPath) + SuffixText(suffix))
    requires IsPlainName(TrimStart(extension, '.'))
    ensures var p := GenerateOutputPath(inputPath, outputDirectory, extension, suffix);
      var base := GetFileNameWithoutExtension(inputPath) + SuffixText(suffix);
      && p == JoinPrefix(outputDirectory) + (base + "." + TrimStart(extension, '.'))
      && (outputDirectory != [] ==> |outputDirectory| <= |p| && p[..|outputDirectory|] == outputDirectory)
  {
    var base := GetFileNameWithoutExtension(inputPath) + SuffixText(suffix);
    var ext := TrimStart(extension, '.');
    var name := OutputFileName(inputPath, extension, suffix);
    assert name == base + "." + ext;
    PlainFileName(base, ext);
    CombineAsPrefix(outputDirectory, name);
    var q := JoinPrefix(outputDirectory);
    var p := GenerateOutputPath(inputPath, outputDirectory, extension, suffix);
    assert p == q + name;
    if outputDirectory != [] {
      assert p[..|outputDirectory|] == q[..|outputDirectory|];
    }
  }

  /** Two plain names joined make a plain name. */
  lemma PlainConcat(a: string, b: string)
    requires IsPlainName(a) && IsPlainName(b)
    ensures IsPlainName(a + b)
  {
    forall k | 0 <= k < |a + b| ensures !IsSeparator((a + b)[k]) && (a + b)[k] != ':' {
      if k >= |a| { assert (a + b)[k] == b[k - |a|]; }
    }
  }

  // ---------------------------------------------------------------------------
  // File-name templates
  // ---------------------------------------------------------------------------

  /** The local clock reading a name is formatted with. */
  datatype LocalTime = LocalTime(year: nat, month: nat, day: nat, hour: nat, minute: nat, second: nat, ticks: nat)

  /** `yyyyMMdd`. */
  function DateText(t: LocalTime): string {
    PadNumber(t.year, 4) + PadNumber(t.month, 2) + PadNumber(t.day, 2)
  }

  /** `HHmmss`. */
  function TimeText(t: LocalTime): string {
    PadNumber(t.hour, 2) + PadNumber(t.minute, 2) + PadNumber(t.second, 2)
  }

  /** `Guid.ToString("N")`: 32 lower-case hexadecimal digits. */
  predicate IsLowerHex(c: char) { IsDigit(c) || ('a' <= c <= 'f') }

  type GuidText = s: string | |s| == 32 && forall k :: 0 <= k < |s| ==> IsLowerHex(s[k])
    witness "00000000000000000000000000000000"

  const EmptyPathMessage := "The path is empty. (Parameter 'path')"
  const OverflowMessage := "Value was either too large or too small for an Int32."

  /** Windows' `Path.GetInvalidFileNameChars()`, in its order. */
  const WindowsInvalidFileNameChars: seq<char> :=
    ['"', '<', '>', '|'] + seq(32, (i: int) requires 0 <= i < 32 => i as char) + [':', '*', '?', '\\', '/']

  lemma WindowsInvalidKeepsUnderscore()
    ensures |WindowsInvalidFileNameChars| == 41
    ensures '_' !in WindowsInvalidFileNameChars
    ensures forall c :: IsSeparator(c) ==> c in WindowsInvalidFileNameChars
  {
    assert WindowsInvalidFileNameChars[39] == '\\' && WindowsInvalidFileNameChars[40] == '/';
  }

  /** The simple placeholders, replaced one after another in their fixed order, ignoring case. */
  function Placeholders(template: string, stem: string, inputExt: string, outputExt: string,
                        directoryName: string, now: LocalTime): string
  {
    LaterPlaceholders(ReplaceAll(template, "{filename}", stem, true), inputExt, outputExt, directoryName, now)
  }

  /** The simple placeholders after `{filename}`. */
  function LaterPlaceholders(s1: string, inputExt: string, outputExt: string,
                             directoryName: string, now: LocalTime): string
  {
    var s2 := ReplaceAll(s1, "{ext}", inputExt, true);
    var s3 := ReplaceAll(s2, "{outputext}", outputExt, true);
    var s4 := ReplaceAll(s3, "{dir}", directoryName, true);
    var s5 := ReplaceAll(s4, "{date}", DateText(now), true);
    var s6 := ReplaceAll(s5, "{time}", TimeText(now), true);
    var s7 := ReplaceAll(s6, "{datetime}", DateText(now) + "_" + TimeText(now), true);
    var s8 := ReplaceAll(s7, "{year}", PadNumber(now.year, 4), true);
    var s9 := ReplaceAll(s8, "{month}", PadNumber(now.month, 2), true);
    var s10 := ReplaceAll(s9, "{day}", PadNumber(now.day, 2), true);
    var s11 := ReplaceAll(s10, "{hour}", PadNumber(now.hour, 2), true);
    var s12 := ReplaceAll(s11, "{minute}", PadNumber(now.minute, 2), true);
    ReplaceAll(s12, "{second}", PadNumber(now.second, 2), true)
  }

  predicate IsNotCloseBrace(c: char) { c != '}' }

  /**
   * The end (just past the `}`) of a tag `{key:body}` starting at `i`, the
   * key matched ignoring case and the body a non-empty run of `isBodyChar`
   * characters.
   */
  function TagEnd(s: string, i: nat, key: string, isBodyChar: char -> bool): (r: Option<nat>)
    ensures r.Some? ==> i + |key| + 2 < r.value <= |s| && s[r.value - 1] == '}'
    ensures r.Some? ==> MatchesAt(s, i, "{" + key + ":", true)
    ensures r.Some? ==> forall k :: i + |key| + 2 <= k < r.value - 1 ==> isBodyChar(s[k])
  {
    var open := "{" + key + ":";
    if !MatchesAt(s, i, open, true) then None
    else
      var j := i + |open|;
      var e := RunEnd(s, j, isBodyChar);
      if j < e < |s| && s[e] == '}' then Some(e + 1) else None
  }

  /**
   * `Regex.Replace` with an evaluator for the tag pattern: the tags are found
   * left to right without overlapping and each is replaced by what the
   * evaluator makes of the matched text, the body and the number of earlier
   * matches; absent when the evaluator throws. Also gives the match count.
   */
  function ReplaceTags(s: string, i: nat, key: string, isBodyChar: char -> bool,
                       evaluate: (string, string, nat) -> Option<string>, count: nat): (r: Option<(string, nat)>)
    requires i <= |s|
    decreases |s| - i
    ensures r.Some? ==> r.value.1 >= count
  {
    if i == |s| then Some(([], count))
    else
      match TagEnd(s, i, key, isBodyChar)
      case Some(e) =>
        (match evaluate(s[i..e], s[i + |key| + 2..e - 1], count)
         case None => None
         case Some(text) =>
           match ReplaceTags(s, e, key, isBodyChar, evaluate, count + 1)
           case None => None
           case Some(rest) => Some((text + rest.0, rest.1)))
      case None =>
        match ReplaceTags(s, i + 1, key, isBodyChar, evaluate, count)
        case None => None
        case Some(rest) => Some(([s[i]] + rest.0, rest.1))
  }

  /** `{now:format}`: the custom formatting of the clock, or the tag itself when the format is refused. */
  function NowText(formatNow: string -> Option<string>): (string, string, nat) -> Option<string> {
    (matched: string, format: string, k: nat) => Some(formatNow(format).GetOr(matched))
  }

  /** `{random:N}`: the first N (at most 32) characters of a fresh identifier; absent when N overflows. */
  function RandomText(guid: nat -> GuidText): (string, string, nat) -> Option<string> {
    (matched: string, digits: string, k: nat) =>
      if !AllDigits(digits) then None
      else match ParseInt32(digits)
        case None => None
        case Some(n) => Some(guid(k)[..if n < 32 then n else 32])
  }

  /** `{counter:N}`: the clock's ticks modulo 10^min(N, 10), zero-padded to that many digits. */
  function CounterText(ticks: nat): (string, string, nat) -> Option<string> {
    (matched: string, digits: string, k: nat) =>
      if !AllDigits(digits) then None
      else match ParseInt32(digits)
        case None => None
        case Some(n) =>
          var d := if n < 10 then n else 10;
          Some(PadNumber(ticks % Pow10(d), d))
  }

  /**
   * The patterned placeholders, in their fixed order: `{now:…}`, `{random:N}`,
   * `{random}` (with the identifier after those used by `{random:N}`), then
   * `{counter:N}`; absent when a number overflows.
   */
  function ExpandTags(s: string, now: LocalTime, formatNow: string -> Option<string>,
                      guid: nat -> GuidText): Option<string>
  {
    match ReplaceTags(s, 0, "now", IsNotCloseBrace, NowText(formatNow), 0)
    case None => None
    case Some(a) =>
      match ReplaceTags(a.0, 0, "random", IsDigit, RandomText(guid), 0)
      case None => None
      case Some(b) =>
        var c := ReplaceAll(b.0, "{random}", guid(b.1)[..8], true);
        match ReplaceTags(c, 0, "counter", IsDigit, CounterText(now.ticks), 0)
        case None => None
        case Some(d) => Some(d.0)
  }

  /** Each invalid character in turn replaced by `_`. */
  function Sanitize(s: string, invalid: seq<char>): (r: string)
    ensures |r| == |s|
    ensures forall k :: 0 <= k < |s| ==> r[k] == if s[k] in invalid then '_' else s[k]
  {
    if invalid == [] then s
    else
      var before := invalid[..|invalid| - 1];
      assert invalid == before + [invalid[|invalid| - 1]];
      ReplaceChar(Sanitize(s, before), invalid[|invalid| - 1], '_')
  }

  /** What `FormatFileName` computes, as one expression. */
  function FormattedName(template: string, inputPath: string, extension: string, directoryName: string,
                         now: LocalTime, formatNow: string -> Option<string>, guid: nat -> GuidText,
                         invalid: seq<char>): Result<string, string>
  {
    var stem := GetFileNameWithoutExtension(inputPath);
    if IsBlank(template) then Success(stem)
    else if DirectoryPartEmpty(inputPath) then Failure(EmptyPathMessage)
    else
      var inputExt := TrimStart(GetExtension(inputPath), '.');
      var simple := Placeholders(template, stem, inputExt, TrimStart(extension, '.'), directoryName, now);
      match ExpandTags(simple, now, formatNow, guid)
      case None => Failure(OverflowMessage)
      case Some(expanded) => Success(Sanitize(expanded, invalid))
  }

  /**
   * `FormatFileName`: a blank template gives the input stem; otherwise the
   * placeholders are replaced in order and every invalid character becomes
   * `_`. `directoryName` is the name the file system gives the input's
   * directory; an input without a directory part is refused.
   */
  method FormatFileName(template: string, inputPath: string, extension: string, directoryName: string,
                        now: LocalTime, formatNow: string -> Option<string>, guid: nat -> GuidText,
                        invalid: seq<char>) returns (r: Result<string, string>)
    ensures r == FormattedName(template, inputPath, extension, directoryName, now, formatNow, guid, invalid)
    ensures IsBlank(template) ==> r == Success(GetFileNameWithoutExtension(inputPath))
    ensures !IsBlank(template) && r.Success? ==> forall k :: 0 <= k < |r.value| && r.value[k] in invalid ==> r.value[k] == '_'
  {
    var baseFileName := GetFileNameWithoutExtension(inputPath);
    if IsBlank(template) {
      return Success(baseFileName);
    }
    var inputExt := TrimStart(GetExtension(inputPath), '.');
    if DirectoryPartEmpty(inputPath) {
      return Failure(EmptyPathMessage);
    }
    var simple := ApplyPlaceholders(template, baseFileName, inputExt, TrimStart(extension, '.'), directoryName, now);
    var expanded := ExpandTags(simple, now, formatNow, guid);
    if expanded.None? {
      return Failure(OverflowMessage);
    }
    var name := SanitizeName(expanded.value, invalid);
    return Success(name);
  }

  /** The simple placeholders of `FormatFileName`, replaced one after another. */
  method ApplyPlaceholders(template: string, stem: string, inputExt: string, outputExt: string,
                           directoryName: string, now: LocalTime) returns (result: string)
    ensures result == Placeholders(template, stem, inputExt, outputExt, directoryName, now)
  {
    result := template;
    result := ReplaceAll(result, "{filename}", stem, true);
    result := ReplaceAll(result, "{ext}", inputExt, true);
    result := ReplaceAll(result, "{outputext}", outputExt, true);
    result := ReplaceAll(result, "{dir}", directoryName, true);
    result := ReplaceAll(result, "{date}", DateText(now), true);
    result := ReplaceAll(result, "{time}", TimeText(now), true);
    result := ReplaceAll(result, "{datetime}", DateText(now) + "_" + TimeText(now), true);
    result := ReplaceAll(result, "{year}", PadNumber(now.year, 4), true);
    result := ReplaceAll(result, "{month}", PadNumber(now.month, 2), true);
    result := ReplaceAll(result, "{day}", PadNumber(now.day, 2), true);
    result := ReplaceAll(result, "{hour}", PadNumber(now.hour, 2), true);
    result := ReplaceAll(result, "{minute}", PadNumber(now.minute, 2), true);
    result := ReplaceAll(result, "{second}", PadNumber(now.second, 2), true);
  }

  /** Every invalid character of `s` replaced by `_`, one character of the set at a time. */
  method SanitizeName(s: string, invalid: seq<char>) returns (name: string)
    ensures |name| == |s|
    ensures forall k :: 0 <= k < |s| ==> name[k] == if s[k] in invalid then '_' else s[k]
    ensures name == Sanitize(s, invalid)
  {
    name := s;
    for k := 0 to |invalid|
      invariant name == Sanitize(s, invalid[..k])
    {
      assert invalid[..k + 1][..k] == invalid[..k];
      name := ReplaceChar(name, invalid[k], '_');
    }
    assert invalid[..|invalid|] == invalid;
  }

  /** With `_` itself valid, a formatted name holds no invalid character at all. */
  lemma SanitizedIsValid(s: string, invalid: seq<char>)
    requires '_' !in invalid
    ensures forall k :: 0 <= k < |Sanitize(s, invalid)| ==> Sanitize(s, invalid)[k] !in invalid
  {
  }

  /** Sanitising changes nothing in a name that is already valid. */
  lemma SanitizeValid(s: string, invalid: seq<char>)
    requires forall k :: 0 <= k < |s| ==> s[k] !in invalid
    ensures Sanitize(s, invalid) == s
  {
  }

  /** `{random:N}` yields min(N, 32) characters of the identifier, and refuses an N beyond `int`. */
  lemma RandomTextWidth(guid: nat -> GuidText, matched: string, digits: string, k: nat)
    requires AllDigits(digits)
    ensures var n := DigitsValue(digits);
      var r := RandomText(guid)(matched, digits, k);
      && (n > MaxInt32 <==> r.None?)
      && (r.Some? ==> |r.value| == (if n < 32 then n else 32) && r.value == guid(k)[..|r.value|])
  {
    var n := DigitsValue(digits);
    if n <= MaxInt32 {
      assert ParseInt32(digits) == Some(n);
      var m := if n < 32 then n else 32;
      assert RandomText(guid)(matched, digits, k) == Some(guid(k)[..m]);
    } else {
      assert ParseInt32(digits) == None;
    }
  }

  /**
   * `{counter:N}` yields exactly min(N, 10) digits (one `0` when N is 0),
   * and refuses an N beyond `int`.
   */
  lemma CounterTextWidth(ticks: nat, matched: string, digits: string, k: nat)
    requires AllDigits(digits)
    ensures var n := DigitsValue(digits);
      var r := CounterText(ticks)(matched, digits, k);
      && (n > MaxInt32 <==> r.None?)
      && (r.Some? ==> AllDigits(r.value) && |r.value| == (if n == 0 then 1 else if n < 10 then n else 10))
  {
    var n := DigitsValue(digits);
    if n <= MaxInt32 {
      var d := if n < 10 then n else 10;
      if d > 0 {
        NatToStringLength(ticks % Pow10(d), d);
      }
    }
  }

  /** Text without `{` holds no tag, so the tag replacement copies it. */
  lemma {:induction false} ReplaceTagsAbsent(s: string, i: nat, key: string, isBodyChar: char -> bool,
                                evaluate: (string, string, nat) -> Option<string>, count: nat)
    requires i <= |s|
    requires forall k :: 0 <= k < |s| ==> s[k] != '{'
    decreases |s| - i
    ensures ReplaceTags(s, i, key, isBodyChar, evaluate, count) == Some((s[i..], count))
  {
    if i < |s| {
      assert FoldCase(s[i]) != '{';
      assert !MatchesAt(s, i, "{" + key + ":", true) by {
        assert s[i..][0] == s[i];
      }
      ReplaceTagsAbsent(s, i + 1, key, isBodyChar, evaluate, count);
      assert s[i..] == [s[i]] + s[i + 1..];
    }
  }

  /** Every placeholder starts with `{`, so text without `{` passes all of them unchanged. */
  lemma ExpansionOfBraceFree(s: string, stem: string, inputExt: string, outputExt: string,
                             directoryName: string, now: LocalTime,
                             formatNow: string -> Option<string>, guid: nat -> GuidText)
    requires forall k :: 0 <= k < |s| ==> s[k] != '{'
    ensures ReplaceAll(s, "{ext}", inputExt, true) == s
    ensures ExpandTags(s, now, formatNow, guid) == Some(s)
  {
    NoBraceNoMatch(s, "{ext}", true);
    ReplaceAbsent(s, "{ext}", inputExt, true);
    ReplaceTagsAbsent(s, 0, "now", IsNotCloseBrace, NowText(formatNow), 0);
    ReplaceTagsAbsent(s, 0, "random", IsDigit, RandomText(guid), 0);
    NoBraceNoMatch(s, "{random}", true);
    ReplaceAbsent(s, "{random}", guid(0)[..8], true);
    ReplaceTagsAbsent(s, 0, "counter", IsDigit, CounterText(now.ticks), 0);
  }

  /** Each simple placeholder leaves brace-free text alone. */
  lemma PlaceholdersOfBraceFree(s: string, stem: string, inputExt: string, outputExt: string,
                                directoryName: string, now: LocalTime)
    requires forall k :: 0 <= k < |s| ==> s[k] != '{'
    ensures ReplaceAll(s, "{filename}", stem, true) == s
    ensures LaterPlaceholders(s, inputExt, outputExt, directoryName, now) == s
    ensures Placeholders(s, stem, inputExt, outputExt, directoryName, now) == s
  {
    var needles := ["{filename}", "{ext}", "{outputext}", "{dir}", "{date}", "{time}", "{datetime}",
                    "{year}", "{month}", "{day}", "{hour}", "{minute}", "{second}"];
    forall i, r | 0 <= i < |needles|
      ensures ReplaceAll(s, needles[i], r, true) == s
    {
      NoBraceNoMatch(s, needles[i], true);
      ReplaceAbsent(s, needles[i], r, true);
    }
    assert ReplaceAll(s, needles[0], stem, true) == s;
    assert LaterPlaceholders(s, inputExt, outputExt, directoryName, now) == s;
  }

  /** A non-blank template without any `{` is only sanitised. */
  lemma BraceFreeTemplate(template: string, inputPath: string, extension: string, directoryName: string,
                          now: LocalTime, formatNow: string -> Option<string>, guid: nat -> GuidText,
                          invalid: seq<char>)
    requires !IsBlank(template) && !DirectoryPartEmpty(inputPath)
    requires forall k :: 0 <= k < |template| ==> template[k] != '{'
    ensures FormattedName(template, inputPath, extension, directoryName, now, formatNow, guid, invalid)
         == Success(Sanitize(template, invalid))
  {
    var stem := GetFileNameWithoutExtension(inputPath);
    var inputExt := TrimStart(GetExtension(inputPath), '.');
    PlaceholdersOfBraceFree(template, stem, inputExt, TrimStart(extension, '.'), directoryName, now);
    ExpansionOfBraceFree(template, stem, inputExt, TrimStart(extension, '.'), directoryName, now, formatNow, guid);
  }

  /** A template that is `{filename}` in some letter case is replaced by the stem as a whole. */
  lemma FileNameAlone(template: string, stem: string)
    requires |template| == |"{filename}"| && MatchesAt(template, 0, "{filename}", true)
    ensures !IsBlank(template)
    ensures ReplaceAll(template, "{filename}", stem, true) == stem
  {
    assert template[0..] == template;
    assert !IsWhiteSpace(template[0]) by {
      assert FoldCase(template[0]) == '{';
    }
    assert template[|"{filename}"|..] == [];
    assert ReplaceAll(template, "{filename}", stem, true) == stem + ReplaceAll([], "{filename}", stem, true);
  }

  /**
   * `{filename}` is recognised in any letter case: a template consisting of
   * it alone names the output after the input stem (when the stem holds no
   * further placeholder).
   */
  lemma FileNamePlaceholder(template: string, inputPath: string, extension: string, directoryName: string,
                            now: LocalTime, formatNow: string -> Option<string>, guid: nat -> GuidText,
                            invalid: seq<char>)
    requires |template| == |"{filename}"| && MatchesAt(template, 0, "{filename}", true)
    requires !DirectoryPartEmpty(inputPath)
    requires var stem := GetFileNameWithoutExtension(inputPath);
      forall k :: 0 <= k < |stem| ==> stem[k] != '{'
    ensures FormattedName(template, inputPath, extension, directoryName, now, formatNow, guid, invalid)
         == Success(Sanitize(GetFileNameWithoutExtension(inputPath), invalid))
  {
    var stem := GetFileNameWithoutExtension(inputPath);
    FileNameExpands(template, stem, TrimStart(GetExtension(inputPath), '.'), TrimStart(extension, '.'),
                    directoryName, now, formatNow, guid);
    FormattedExpansion(template, inputPath, extension, directoryName, now, formatNow, guid, invalid, stem);
  }

  /** A `{filename}` template expands to a brace-free stem through every placeholder. */
  lemma FileNameExpands(template: string, stem: string, inputExt: string, outputExt: string,
                        directoryName: string, now: LocalTime,
                        formatNow: string -> Option<string>, guid: nat -> GuidText)
    requires |template| == |"{filename}"| && MatchesAt(template, 0, "{filename}", true)
    requires forall k :: 0 <= k < |stem| ==> stem[k] != '{'
    ensures !IsBlank(template)
    ensures ExpandTags(Placeholders(template, stem, inputExt, outputExt, directoryName, now), now, formatNow, guid)
         == Some(stem)
  {
    FileNameAlone(template, stem);
    PlaceholdersOfBraceFree(stem, stem, inputExt, outputExt, directoryName, now);
    assert Placeholders(template, stem, inputExt, outputExt, directoryName, now) == stem;
    ExpansionOfBraceFree(stem, stem, inputExt, outputExt, directoryName, now, formatNow, guid);
  }

  /** Past the blank and directory checks, the formatted name is the sanitised expansion. */
  lemma FormattedExpansion(template: string, inputPath: string, extension: string, directoryName: string,
                           now: LocalTime, formatNow: string -> Option<string>, guid: nat -> GuidText,
                           invalid: seq<char>, expanded: string)
    requires !IsBlank(template) && !DirectoryPartEmpty(inputPath)
    requires var simple := Placeholders(template, GetFileNameWithoutExtension(inputPath),
                                        TrimStart(GetExtension(inputPath), '.'), TrimStart(extension, '.'),
                                        directoryName, now);
      ExpandTags(simple, now, formatNow, guid) == Some(expanded)
    ensures FormattedName(template, inputPath, extension, directoryName, now, formatNow, guid, invalid)
         == Success(Sanitize(expanded, invalid))
  {
  }

  // ---------------------------------------------------------------------------
  // Directory scans
  // ---------------------------------------------------------------------------

  /** The media extensions scanned for when none are requested, compared exactly. */
  const DefaultMediaExtensions: seq<string> :=
    [".mp4", ".avi", ".mkv", ".mov", ".wmv", ".flv", ".webm", ".m4v",
     ".mp3", ".wav", ".flac", ".aac", ".ogg", ".wma", ".m4a"]

  /** A requested extension gets a leading `.` when it lacks one. */
  function NormalizeExtension(e: string): (r: string)
    ensures |r| > 0 && r[0] == '.'
    ensures |e| > 0 && e[0] == '.' ==> r == e
    ensures (|e| == 0 || e[0] != '.') ==> r == "." + e
  {
    if |e| > 0 && e[0] == '.' then e else "." + e
  }

  /** Ordinal comparison ignoring case. */
  predicate EqualsIgnoreCase(a: string, b: string) {
    |a| == |b| && PrefixMatch(a, b, true)
  }

  /** The file's extension is one of the targets: exactly for the default set, ignoring case for a requested list. */
  predicate IsWanted(f: string, extensions: Option<seq<string>>) {
    match extensions
    case None => GetExtension(f) in DefaultMediaExtensions
    case Some(es) =>
      var targets := MapSeq(es, NormalizeExtension);
      exists t :: t in targets && EqualsIgnoreCase(GetExtension(f), t)
  }

  /**
   * The filter and order of `ScanMediaFiles` over a directory listing
   * (absent when the directory could not be read): the files whose extension
   * is wanted, in ordinal order.
   */
  function ScanMediaFiles(listing: Option<seq<string>>, extensions: Option<seq<string>>): (r: seq<string>)
    ensures listing.None? ==> r == []
    ensures SortedBy(r, LexLe)
    ensures listing.Some? ==> multiset(r) == multiset(Filter(listing.value, f => IsWanted(f, extensions)))
    ensures forall f :: f in r <==> listing.Some? && f in listing.value && IsWanted(f, extensions)
  {
    match listing
    case None => []
    case Some(names) =>
      var wanted := Filter(names, f => IsWanted(f, extensions));
      Templates.LexLePreorder();
      SortSorted(wanted, LexLe);
      forall f ensures f in Sort(wanted, LexLe) <==> f in wanted {
        SortMembers(wanted, LexLe, f);
      }
      Sort(wanted, LexLe)
  }

  lemma {:induction false} FilterSame<T(!new)>(s: seq<T>, p: T -> bool, q: T -> bool)
    requires forall x :: p(x) == q(x)
    ensures Filter(s, p) == Filter(s, q)
  {
    if s != [] {
      FilterSame(s[1..], p, q);
    }
  }

  /** Requesting "mp4" or ".mp4" scans for the same files. */
  lemma LeadingDotOptional(listing: Option<seq<string>>, es: seq<string>)
    ensures ScanMediaFiles(listing, Some(es)) == ScanMediaFiles(listing, Some(MapSeq(es, NormalizeExtension)))
  {
    var es2 := MapSeq(es, NormalizeExtension);
    assert MapSeq(es2, NormalizeExtension) == MapSeq(es, NormalizeExtension);
    if listing.Some? {
      FilterSame(listing.value, f => IsWanted(f, Some(es)), f => IsWanted(f, Some(es2)));
    }
  }

  /** A file matches a requested extension in any letter case, with or without the leading dot. */
  lemma RequestedExtensionIgnoresCase(f: string, e: string, es: seq<string>)
    requires e in es && EqualsIgnoreCase(GetExtension(f), NormalizeExtension(e))
    ensures IsWanted(f, Some(es))
  {
    var i :| 0 <= i < |es| && es[i] == e;
    assert MapSeq(es, NormalizeExtension)[i] == NormalizeExtension(e);
  }

  /** Upper-case "clip.MP4" is found when "mp4" is requested, but not by the default set. */
  lemma ExtensionCase()
    ensures IsWanted("clip.MP4", Some(["mp4"]))
    ensures !IsWanted("clip.MP4", None)
  {
    var f := "clip.MP4";
    ScanBackFinds(f, |f|, IsDotOrSeparator, 4);
    assert GetExtension(f) == ".MP4";
    assert EqualsIgnoreCase(".MP4", ".mp4");
    RequestedExtensionIgnoresCase(f, "mp4", ["mp4"]);
  }
}
