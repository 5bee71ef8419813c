/**
 * Reading progress out of the transcoder's diagnostic lines: the elapsed
 * media time from the first `time=HH:MM:SS.ff` token, the speed from the
 * first well-formed `speed=<n>x` token, a percentage capped at 100 and an
 * estimated time remaining.
 */
module Progress {
  import opened Wrappers
  import opened Text
  import opened Models

  // ---------------------------------------------------------------------------
  // The time token: `time=(\d{2}):(\d{2}):(\d{2}\.\d{2})`
  // ---------------------------------------------------------------------------

  /** The time pattern matches at position `i` of `line`: sixteen characters in all. */
  predicate TimeAt(line: string, i: nat) {
    && i + 16 <= |line|
    && line[i..i + 5] == "time="
    && IsDigit(line[i + 5]) && IsDigit(line[i + 6]) && line[i + 7] == ':'
    && IsDigit(line[i + 8]) && IsDigit(line[i + 9]) && line[i + 10] == ':'
    && IsDigit(line[i + 11]) && IsDigit(line[i + 12]) && line[i + 13] == '.'
    && IsDigit(line[i + 14]) && IsDigit(line[i + 15])
  }

  /** The leftmost match of the time pattern at or after `from`. */
  function FindTime(line: string, from: nat): (r: Option<nat>)
    decreases |line| - from
    ensures r.Some? ==> from <= r.value && TimeAt(line, r.value)
    ensures r.Some? ==> forall j :: from <= j < r.value ==> !TimeAt(line, j)
    ensures r.None? ==> forall j :: from <= j ==> !TimeAt(line, j)
  {
    if from + 16 > |line| then None
    else if TimeAt(line, from) then Some(from)
    else FindTime(line, from + 1)
  }

  function TwoDigits(c1: char, c2: char): (r: nat)
    requires IsDigit(c1) && IsDigit(c2)
    ensures r < 100
  {
    DigitValue(c1) * 10 + DigitValue(c2)
  }

  function Hours(line: string, i: nat): nat
    requires TimeAt(line, i)
  {
    TwoDigits(line[i + 5], line[i + 6])
  }

  function Minutes(line: string, i: nat): nat
    requires TimeAt(line, i)
  {
    TwoDigits(line[i + 8], line[i + 9])
  }

  /** The seconds group `SS.ff`, read exactly as the decimal it spells. */
  function Seconds(line: string, i: nat): (r: real)
    requires TimeAt(line, i)
    ensures 0.0 <= r < 100.0
  {
    TwoDigits(line[i + 11], line[i + 12]) as real + TwoDigits(line[i + 14], line[i + 15]) as real / 100.0
  }

  /** The elapsed media time of a match, in hundredths of a second. */
  function Hundredths(line: string, i: nat): (r: nat)
    requires TimeAt(line, i)
    ensures r as real / 100.0 == Hours(line, i) as real * 3600.0 + Minutes(line, i) as real * 60.0 + Seconds(line, i)
  {
    Hours(line, i) * 360000 + Minutes(line, i) * 6000
      + TwoDigits(line[i + 11], line[i + 12]) * 100 + TwoDigits(line[i + 14], line[i + 15])
  }

  // ---------------------------------------------------------------------------
  // The speed token: `speed=\s*([\d.]+)x`
  // ---------------------------------------------------------------------------

  /** Where the digits of a speed token starting at `i` begin (after the blanks). */
  function SpeedDigitsStart(line: string, i: nat): (r: nat)
    requires i + 6 <= |line|
    ensures i + 6 <= r <= |line|
  {
    RunEnd(line, i + 6, IsWhiteSpace)
  }

  /** Where the digits of a speed token starting at `i` end. */
  function SpeedDigitsEnd(line: string, i: nat): (r: nat)
    requires i + 6 <= |line|
    ensures SpeedDigitsStart(line, i) <= r <= |line|
  {
    RunEnd(line, SpeedDigitsStart(line, i), IsDigitOrDot)
  }

  /**
   * The speed pattern matches at `i`: `speed=`, blanks, a non-empty run of
   * digits and dots, and an `x` right after the run. Backtracking cannot help:
   * a shorter run of blanks is followed by a blank, a shorter run of digits by
   * a digit or dot, neither of which the next part of the pattern accepts.
   */
  predicate SpeedAt(line: string, i: nat) {
    && i + 6 <= |line|
    && line[i..i + 6] == "speed="
    && SpeedDigitsStart(line, i) < SpeedDigitsEnd(line, i) < |line|
    && line[SpeedDigitsEnd(line, i)] == 'x'
  }

  function FindSpeed(line: string, from: nat): (r: Option<nat>)
    decreases |line| - from
    ensures r.Some? ==> from <= r.value && SpeedAt(line, r.value)
    ensures r.Some? ==> forall j :: from <= j < r.value ==> !SpeedAt(line, j)
    ensures r.None? ==> forall j :: from <= j ==> !SpeedAt(line, j)
  {
    if from + 6 > |line| then None
    else if SpeedAt(line, from) then Some(from)
    else FindSpeed(line, from + 1)
  }

  /** The digits-and-dots text of the speed token at `i`. */
  function SpeedText(line: string, i: nat): (r: string)
    requires SpeedAt(line, i)
    ensures |r| > 0 && forall k :: 0 <= k < |r| ==> IsDigitOrDot(r[k])
  {
    line[SpeedDigitsStart(line, i)..SpeedDigitsEnd(line, i)]
  }

  /**
   * The processing speed of a line: the value of the first speed token,
   * absent when there is none or when its text is not a number.
   */
  function SpeedOf(line: string): (r: Option<real>)
    ensures r.Some? ==> r.value >= 0.0
    ensures r.Some? ==> exists i :: SpeedAt(line, i)
    ensures FindSpeed(line, 0).None? ==> r.None?
    ensures FindSpeed(line, 0).Some? ==> r == ParseDecimal(SpeedText(line, FindSpeed(line, 0).value))
  {
    match FindSpeed(line, 0)
    case None => None
    case Some(i) => ParseDecimal(SpeedText(line, i))
  }

  // ---------------------------------------------------------------------------
  // One line
  // ---------------------------------------------------------------------------

  function Min(a: real, b: real): (r: real)
    ensures r <= a && r <= b && (r == a || r == b)
  {
    if a <= b then a else b
  }

  /** The elapsed media time the first time token of the line spells, in seconds. */
  function ElapsedSeconds(line: string, i: nat): (r: real)
    requires TimeAt(line, i)
    ensures r >= 0.0
    ensures r == Hours(line, i) as real * 3600.0 + Minutes(line, i) as real * 60.0 + Seconds(line, i)
  {
    Hundredths(line, i) as real / 100.0
  }

  /**
   * Elapsed over total as a percentage, capped at 100; zero when the total
   * is not positive.
   */
  function Percentage(elapsed: real, total: real): (r: real)
    ensures elapsed >= 0.0 ==> 0.0 <= r
    ensures r <= 100.0
    ensures total <= 0.0 ==> r == 0.0
    ensures total > 0.0 && elapsed <= total ==> r == elapsed / total * 100.0
    ensures total > 0.0 && elapsed > total ==> r == 100.0
  {
    if total > 0.0 then
      var q := elapsed / total;
      assert q * total == elapsed;
      assert elapsed >= 0.0 ==> q >= 0.0;
      assert elapsed <= total ==> q <= 1.0;
      assert elapsed > total ==> q > 1.0;
      Min(q * 100.0, 100.0)
    else 0.0
  }

  /** The remaining media time over the speed, when both a positive speed and a positive total are known. */
  function Eta(elapsed: real, total: real, speed: Option<real>): (r: Option<real>)
    ensures r.Some? <==> speed.Some? && speed.value > 0.0 && total > 0.0
    ensures r.Some? ==> r.value * speed.value == total - elapsed
  {
    if speed.Some? && speed.value > 0.0 && total > 0.0 then Some((total - elapsed) / speed.value) else None
  }

  /** The progress record for the time token at `i`. */
  function ProgressAt(line: string, i: nat, totalDuration: real): (r: ConversionProgress)
    requires TimeAt(line, i)
    ensures 0.0 <= r.percentage <= 100.0
  {
    var elapsed := ElapsedSeconds(line, i);
    ConversionProgress(Percentage(elapsed, totalDuration), elapsed, totalDuration,
                       SpeedOf(line), Eta(elapsed, totalDuration, SpeedOf(line)), line)
  }

  /** `ParseProgress`: no record without a time token; otherwise the record of the first one. */
  function ParseProgress(line: string, totalDuration: real): (r: Option<ConversionProgress>)
    ensures r.None? <==> forall j :: !TimeAt(line, j)
    ensures r.Some? ==> FindTime(line, 0).Some? && r.value == ProgressAt(line, FindTime(line, 0).value, totalDuration)
  {
    match FindTime(line, 0)
    case None => None
    case Some(i) => Some(ProgressAt(line, i, totalDuration))
  }

  /** The elapsed time of a record is the first token's hours, minutes and seconds. */
  lemma ParseProgressTime(line: string, totalDuration: real)
    requires ParseProgress(line, totalDuration).Some?
    ensures var p := ParseProgress(line, totalDuration).value; var i := FindTime(line, 0).value;
      && p.currentTime == Hours(line, i) as real * 3600.0 + Minutes(line, i) as real * 60.0 + Seconds(line, i)
      && p.currentTime >= 0.0
  {
  }

  /**
   * The percentage of a record lies in [0, 100], is zero for a non-positive
   * total and is the elapsed fraction of the total up to the end.
   */
  lemma ParseProgressPercentage(line: string, totalDuration: real)
    requires ParseProgress(line, totalDuration).Some?
    ensures var p := ParseProgress(line, totalDuration).value;
      && 0.0 <= p.percentage <= 100.0
      && (totalDuration <= 0.0 ==> p.percentage == 0.0)
      && (totalDuration > 0.0 && p.currentTime <= totalDuration ==> p.percentage == p.currentTime / totalDuration * 100.0)
      && (totalDuration > 0.0 && p.currentTime > totalDuration ==> p.percentage == 100.0)
  {
    var i := FindTime(line, 0).value;
    assert ParseProgress(line, totalDuration).value == ProgressAt(line, i, totalDuration);
  }

  /** A record keeps the total it was given, the raw line, and the line's speed. */
  lemma ParseProgressEcho(line: string, totalDuration: real)
    requires ParseProgress(line, totalDuration).Some?
    ensures var p := ParseProgress(line, totalDuration).value;
      p.speed == SpeedOf(line) && p.totalDuration == totalDuration && p.rawOutput == line
  {
  }

  /**
   * A record carries an estimate exactly when a positive speed and a
   * positive total are known, and it is the estimate `Eta` computes from
   * the record's elapsed time.
   */
  lemma ParseProgressEta(line: string, totalDuration: real)
    requires ParseProgress(line, totalDuration).Some?
    ensures var p := ParseProgress(line, totalDuration).value;
      p.eta.Some? <==> SpeedOf(line).Some? && SpeedOf(line).value > 0.0 && totalDuration > 0.0
    ensures var p := ParseProgress(line, totalDuration).value;
      p.eta == Eta(p.currentTime, totalDuration, SpeedOf(line))
  {
    var i := FindTime(line, 0).value;
    var p := ProgressAt(line, i, totalDuration);
    assert ParseProgress(line, totalDuration).value == p;
    assert p.eta == Eta(p.currentTime, totalDuration, SpeedOf(line));
  }

  /** The estimate is not clamped: past the expected end it is negative. */
  lemma EtaNegativePastEnd(elapsed: real, total: real, speed: Option<real>)
    requires Eta(elapsed, total, speed).Some?
    requires elapsed > total
    ensures Eta(elapsed, total, speed).value < 0.0
  {
    var e := Eta(elapsed, total, speed).value;
    assert e * speed.value < 0.0;
  }

  // ---------------------------------------------------------------------------
  // The diagnostics stream
  // ---------------------------------------------------------------------------

  /** The handler for one received line: empty lines are dropped before parsing. */
  function HandleLine(line: string, totalDuration: real): (r: Option<ConversionProgress>)
    ensures line == [] ==> r.None?
    ensures line != [] ==> r == ParseProgress(line, totalDuration)
  {
    if line == [] then None else ParseProgress(line, totalDuration)
  }

  /** The progress records delivered for a stream of diagnostic lines, in order. */
  function ProgressEvents(lines: seq<string>, totalDuration: real): (r: seq<ConversionProgress>)
    ensures |r| <= |lines|
    ensures forall k :: 0 <= k < |r| ==> r[k].rawOutput in lines && r[k].rawOutput != []
    ensures forall k :: 0 <= k < |r| ==> 0.0 <= r[k].percentage <= 100.0
  {
    if lines == [] then []
    else
      var e := HandleLine(lines[0], totalDuration);
      (if e.Some? then [e.value] else []) + ProgressEvents(lines[1..], totalDuration)
  }

  /** Lines are handled one at a time: the records of two streams concatenate. */
  lemma {:induction false} ProgressEventsAppend(a: seq<string>, b: seq<string>, totalDuration: real)
    ensures ProgressEvents(a + b, totalDuration) == ProgressEvents(a, totalDuration) + ProgressEvents(b, totalDuration)
  {
    if a != [] {
      assert (a + b)[0] == a[0] && (a + b)[1..] == a[1..] + b;
      var e := HandleLine(a[0], totalDuration);
      var head := if e.Some? then [e.value] else [];
      assert ProgressEvents(a + b, totalDuration) == head + ProgressEvents(a[1..] + b, totalDuration);
      assert ProgressEvents(a, totalDuration) == head + ProgressEvents(a[1..], totalDuration);
      ProgressEventsAppend(a[1..], b, totalDuration);
    } else {
      assert a + b == b;
    }
  }

  /** Each record is the handler's result for one of the lines. */
  lemma {:induction false} ProgressEventsFromLines(lines: seq<string>, totalDuration: real, k: nat)
    requires k < |ProgressEvents(lines, totalDuration)|
    ensures exists j :: 0 <= j < |lines| && HandleLine(lines[j], totalDuration) == Some(ProgressEvents(lines, totalDuration)[k])
  {
    var e := HandleLine(lines[0], totalDuration);
    var rest := ProgressEvents(lines[1..], totalDuration);
    assert ProgressEvents(lines, totalDuration) == (if e.Some? then [e.value] else []) + rest;
    if e.Some? && k == 0 {
      assert HandleLine(lines[0], totalDuration) == Some(ProgressEvents(lines, totalDuration)[k]);
    } else {
      var k' := if e.Some? then k - 1 else k;
      assert ProgressEvents(lines, totalDuration)[k] == rest[k'];
      ProgressEventsFromLines(lines[1..], totalDuration, k');
      var j :| 0 <= j < |lines[1..]| && HandleLine(lines[1..][j], totalDuration) == Some(rest[k']);
      assert lines[1 + j] == lines[1..][j];
    }
  }

  /** A line without a time token produces no record. */
  lemma UntimedLineSilent(line: string, totalDuration: real)
    requires forall j :: !TimeAt(line, j)
    ensures ProgressEvents([line], totalDuration) == []
  {
    assert [line][1..] == [];
  }

  // ---------------------------------------------------------------------------
  // A worked example: `frame=100 time=00:01:02.50 speed=2.0x` of a 124 s input
  // ---------------------------------------------------------------------------

  const ExampleHead: string := "frame=100 "
  const ExampleStamp: string := "time=00:01:02.50"
  const ExampleTail: string := " speed=2.0x"

  lemma ExampleTime(line: string)
    requires line == ExampleHead + ExampleStamp + ExampleTail
    ensures FindTime(line, 0) == Some(10)
    ensures Hundredths(line, 10) == 6250
  {
    assert |ExampleHead| == 10 && |ExampleStamp| == 16;
    assert forall k :: 0 <= k < 16 ==> line[10 + k] == ExampleStamp[k];
    assert line[10..15] == ExampleStamp[..5];
    assert TimeAt(line, 10);
    forall j | 0 <= j < 10 ensures !TimeAt(line, j) {
      assert line[j] == ExampleHead[j] != 't';
      if j + 16 <= |line| { assert line[j..j + 5][0] == line[j]; }
    }
  }

  lemma ExampleSpeed(line: string)
    requires line == ExampleHead + ExampleStamp + ExampleTail
    ensures FindSpeed(line, 0) == Some(27)
    ensures SpeedText(line, 27) == "2.0"
  {
    var front := ExampleHead + ExampleStamp;
    assert line == front + ExampleTail;
    assert |front| == 26 && |ExampleTail| == 11;
    assert forall k :: 0 <= k < 11 ==> line[26 + k] == ExampleTail[k];
    assert forall k :: 0 <= k < 26 ==> line[k] == front[k];
    assert forall k :: 0 <= k < 26 ==> front[k] != 's';
    assert line[27..33] == ExampleTail[1..7];
    assert SpeedDigitsStart(line, 27) == 33;
    assert line[33] == '2' && line[34] == '.' && line[35] == '0' && line[36] == 'x';
    assert RunEnd(line, 36, IsDigitOrDot) == 36;
    assert RunEnd(line, 35, IsDigitOrDot) == 36;
    assert RunEnd(line, 34, IsDigitOrDot) == 36;
    assert SpeedDigitsEnd(line, 27) == 36;
    assert SpeedAt(line, 27);
    forall j | 0 <= j < 27 ensures !SpeedAt(line, j) {
      assert line[j] != 's';
      if j + 6 <= |line| { assert line[j..j + 6][0] == line[j]; }
    }
    assert line[33..36] == ExampleTail[7..10];
  }

  lemma ExampleSpeedValue()
    ensures ParseDecimal("2.0") == Some(2.0)
  {
    assert IndexOfChar("2.0", '.') == 1;
    assert DotCount("2.0") == 1;
    assert "2.0"[..1] == "2" && "2.0"[2..] == "0";
    assert DigitsValue("2") == 2;
    assert DigitsValue("0") == 0;
  }

  /** The worked example: 62.5 s of a 124 s input at double speed, 30.75 s to go. */
  lemma ExampleLine()
    ensures ParseProgress(ExampleHead + ExampleStamp + ExampleTail, 124.0)
         == Some(ConversionProgress(6250.0 / 124.0, 62.5, 124.0, Some(2.0), Some(30.75), ExampleHead + ExampleStamp + ExampleTail))
  {
    var line := ExampleHead + ExampleStamp + ExampleTail;
    ExampleTime(line);
    ExampleSpeed(line);
    ExampleSpeedValue();
    assert SpeedOf(line) == Some(2.0);
    assert ElapsedSeconds(line, 10) == 62.5;
  }
}
