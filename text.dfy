/**
 * Character classes, literal search and replacement, number formatting and
 * ordinal string order: the pieces of .NET string and regex behaviour the
 * services rely on, written out over `seq<char>`.
 */
module Text {
  import opened Wrappers

  // ---------------------------------------------------------------------------
  // Character classes
  // ---------------------------------------------------------------------------

  /** `char.IsWhiteSpace`, which is also the set the regex class `\s` matches. */
  predicate IsWhiteSpace(c: char) {
    ('\t' <= c <= '\r') || c == ' ' || c == '\U{0085}' || c == '\U{00A0}' || c == '\U{1680}'
    || ('\U{2000}' <= c <= '\U{200A}') || c == '\U{2028}' || c == '\U{2029}' || c == '\U{202F}'
    || c == '\U{205F}' || c == '\U{3000}'
  }

  predicate IsNonSpace(c: char) { !IsWhiteSpace(c) }

  /** The regex class `\d`, restricted to ASCII digits. */
  predicate IsDigit(c: char) { '0' <= c <= '9' }

  predicate IsDigitOrDot(c: char) { IsDigit(c) || c == '.' }

  predicate IsAsciiLetter(c: char) { ('a' <= c <= 'z') || ('A' <= c <= 'Z') }

  /** The regex class `\w`, restricted to ASCII letters, digits and underscore. */
  predicate IsWordChar(c: char) { IsAsciiLetter(c) || IsDigit(c) || c == '_' }

  /** Ordinal case folding of ASCII letters (to upper case, as ordinal comparison does). */
  function FoldCase(c: char): (r: char)
    ensures 'a' <= c <= 'z' ==> r as int == c as int - 32
    ensures !('a' <= c <= 'z') ==> r == c
  {
    if 'a' <= c <= 'z' then (c as int - 32) as char else c
  }

  predicate SameChar(a: char, b: char, ignoreCase: bool) {
    if ignoreCase then FoldCase(a) == FoldCase(b) else a == b
  }

  function ToLower(c: char): char {
    if 'A' <= c <= 'Z' then (c as int + 32) as char else c
  }

  /** `string.ToLower()` on the ASCII range. */
  function ToLowerString(s: string): (r: string)
    ensures |r| == |s|
    ensures forall i :: 0 <= i < |s| ==> r[i] == ToLower(s[i])
  {
    if s == [] then [] else [ToLower(s[0])] + ToLowerString(s[1..])
  }

  /** `string.IsNullOrWhiteSpace`. */
  predicate IsBlank(s: string) {
    forall i :: 0 <= i < |s| ==> IsWhiteSpace(s[i])
  }

  // ---------------------------------------------------------------------------
  // Literal search
  // ---------------------------------------------------------------------------

  /** `p` is a prefix of `s`, comparing case-insensitively when `ignoreCase`. */
  predicate PrefixMatch(s: string, p: string, ignoreCase: bool)
    ensures PrefixMatch(s, p, ignoreCase) ==> |p| <= |s|
  {
    |p| == 0 || (|s| > 0 && SameChar(s[0], p[0], ignoreCase) && PrefixMatch(s[1..], p[1..], ignoreCase))
  }

  /** An occurrence of `p` starts at position `i` of `s`. */
  predicate MatchesAt(s: string, i: nat, p: string, ignoreCase: bool) {
    i <= |s| && PrefixMatch(s[i..], p, ignoreCase)
  }

  lemma {:induction false} PrefixMatchOrdinal(s: string, p: string)
    ensures PrefixMatch(s, p, false) <==> |p| <= |s| && s[..|p|] == p
  {
    if |p| > 0 && |s| > 0 {
      PrefixMatchOrdinal(s[1..], p[1..]);
      if |p| <= |s| {
        assert s[..|p|] == [s[0]] + s[1..][..|p| - 1];
      }
    }
  }

  /** An ordinal occurrence at `i` is exactly a slice equal to `p`. */
  lemma MatchesAtOrdinal(s: string, i: nat, p: string)
    ensures MatchesAt(s, i, p, false) <==> i + |p| <= |s| && s[i..i + |p|] == p
  {
    if i <= |s| {
      PrefixMatchOrdinal(s[i..], p);
      if i + |p| <= |s| {
        assert s[i..][..|p|] == s[i..i + |p|];
      }
    }
  }

  /** The first occurrence of `p` in `s` at or after `from`. */
  function IndexOf(s: string, p: string, from: nat, ignoreCase: bool): (r: Option<nat>)
    decreases |s| - from
    ensures r.Some? ==> from <= r.value <= |s| && MatchesAt(s, r.value, p, ignoreCase)
    ensures r.Some? ==> forall j :: from <= j < r.value ==> !MatchesAt(s, j, p, ignoreCase)
    ensures r.None? ==> forall j :: from <= j ==> !MatchesAt(s, j, p, ignoreCase)
  {
    if from > |s| then None
    else if PrefixMatch(s[from..], p, ignoreCase) then Some(from)
    else IndexOf(s, p, from + 1, ignoreCase)
  }

  /** `string.Contains` (ordinal). */
  predicate Contains(s: string, p: string) {
    IndexOf(s, p, 0, false).Some?
  }

  lemma ContainsIff(s: string, p: string)
    ensures Contains(s, p) <==> exists j :: 0 <= j && MatchesAt(s, j, p, false)
  {
    if !Contains(s, p) {
      assert forall j :: 0 <= j ==> !MatchesAt(s, j, p, false);
    }
  }

  // ---------------------------------------------------------------------------
  // Replacement
  // ---------------------------------------------------------------------------

  /**
   * `string.Replace(needle, replacement[, comparison])`: every occurrence,
   * found left to right without overlapping, is replaced; the inserted text is
   * not searched again.
   */
  function ReplaceAll(s: string, needle: string, replacement: string, ignoreCase: bool): string
    requires |needle| > 0
    decreases |s|
  {
    if |s| == 0 then []
    else if PrefixMatch(s, needle, ignoreCase) then replacement + ReplaceAll(s[|needle|..], needle, replacement, ignoreCase)
    else [s[0]] + ReplaceAll(s[1..], needle, replacement, ignoreCase)
  }

  lemma MatchesAtShift(s: string, j: nat, p: string, ignoreCase: bool)
    requires |s| > 0
    ensures MatchesAt(s, j + 1, p, ignoreCase) <==> MatchesAt(s[1..], j, p, ignoreCase)
  {
    if j + 1 <= |s| {
      assert s[j + 1..] == s[1..][j..];
    }
  }

  lemma MatchesAtDrop(s: string, d: nat, j: nat, p: string, ignoreCase: bool)
    requires d <= |s|
    ensures MatchesAt(s, d + j, p, ignoreCase) <==> MatchesAt(s[d..], j, p, ignoreCase)
  {
    if d + j <= |s| {
      assert s[d + j..] == s[d..][j..];
    }
  }

  /** A string in which the needle never occurs is returned unchanged. */
  lemma {:induction false} ReplaceAbsent(s: string, needle: string, replacement: string, ignoreCase: bool)
    requires |needle| > 0
    requires forall j :: 0 <= j ==> !MatchesAt(s, j, needle, ignoreCase)
    ensures ReplaceAll(s, needle, replacement, ignoreCase) == s
    decreases |s|
  {
    if |s| > 0 {
      assert !MatchesAt(s, 0, needle, ignoreCase);
      assert s[0..] == s;
      forall j | 0 <= j
        ensures !MatchesAt(s[1..], j, needle, ignoreCase)
      {
        MatchesAtShift(s, j, needle, ignoreCase);
      }
      ReplaceAbsent(s[1..], needle, replacement, ignoreCase);
    }
  }

  /** A needle that starts with `{` never occurs, in either comparison, in text without `{`. */
  lemma NoBraceNoMatch(s: string, needle: string, ignoreCase: bool)
    requires |needle| > 0 && needle[0] == '{'
    requires forall k :: 0 <= k < |s| ==> s[k] != '{'
    ensures forall j :: 0 <= j ==> !MatchesAt(s, j, needle, ignoreCase)
  {
    forall j | 0 <= j && j < |s|
      ensures !SameChar(s[j], needle[0], ignoreCase)
    {
      assert FoldCase(s[j]) != '{';
    }
    forall j | 0 <= j
      ensures !MatchesAt(s, j, needle, ignoreCase)
    {
      if j < |s| {
        assert s[j..][0] == s[j];
      }
    }
  }

  /** No occurrence of `needle` starts before position `k` of `s` and ends after it. */
  predicate NoStraddle(s: string, k: nat, needle: string, ignoreCase: bool) {
    forall j :: 0 <= j < k < j + |needle| ==> !MatchesAt(s, j, needle, ignoreCase)
  }

  /**
   * Replacement distributes over a concatenation when no occurrence of the
   * needle crosses the seam.
   */
  lemma {:induction false} ReplaceConcat(x: string, y: string, needle: string, replacement: string, ignoreCase: bool)
    requires |needle| > 0
    requires NoStraddle(x + y, |x|, needle, ignoreCase)
    ensures ReplaceAll(x + y, needle, replacement, ignoreCase)
         == ReplaceAll(x, needle, replacement, ignoreCase) + ReplaceAll(y, needle, replacement, ignoreCase)
    decreases |x|
  {
    if |x| == 0 {
      assert x + y == y;
    } else {
      SeamPrefix(x, y, needle, ignoreCase);
      if PrefixMatch(x, needle, ignoreCase) {
        NoStraddleDrop(x, y, |needle|, needle, ignoreCase);
        ReplaceConcat(x[|needle|..], y, needle, replacement, ignoreCase);
        ReplacedFront(x, y, needle, replacement, ignoreCase);
      } else {
        NoStraddleDrop(x, y, 1, needle, ignoreCase);
        ReplaceConcat(x[1..], y, needle, replacement, ignoreCase);
        KeptFront(x, y, needle, replacement, ignoreCase);
      }
    }
  }

  /** A step of `ReplaceConcat` where both strings start with the needle. */
  lemma ReplacedFront(x: string, y: string, needle: string, replacement: string, ignoreCase: bool)
    requires |needle| > 0
    requires PrefixMatch(x, needle, ignoreCase) && PrefixMatch(x + y, needle, ignoreCase)
    requires ReplaceAll(x[|needle|..] + y, needle, replacement, ignoreCase)
          == ReplaceAll(x[|needle|..], needle, replacement, ignoreCase) + ReplaceAll(y, needle, replacement, ignoreCase)
    ensures ReplaceAll(x + y, needle, replacement, ignoreCase)
         == ReplaceAll(x, needle, replacement, ignoreCase) + ReplaceAll(y, needle, replacement, ignoreCase)
  {
    var restX := ReplaceAll(x[|needle|..], needle, replacement, ignoreCase);
    var restY := ReplaceAll(y, needle, replacement, ignoreCase);
    assert ReplaceAll(x + y, needle, replacement, ignoreCase) == replacement + (restX + restY) by {
      assert (x + y)[|needle|..] == x[|needle|..] + y;
      ReplaceMatched(x + y, needle, replacement, ignoreCase);
    }
    assert ReplaceAll(x, needle, replacement, ignoreCase) == replacement + restX by {
      ReplaceMatched(x, needle, replacement, ignoreCase);
    }
    ConcatAssoc(replacement, restX, restY);
  }

  /** A step of `ReplaceConcat` where neither string starts with the needle. */
  lemma KeptFront(x: string, y: string, needle: string, replacement: string, ignoreCase: bool)
    requires |needle| > 0 && |x| > 0
    requires !PrefixMatch(x, needle, ignoreCase) && !PrefixMatch(x + y, needle, ignoreCase)
    requires ReplaceAll(x[1..] + y, needle, replacement, ignoreCase)
          == ReplaceAll(x[1..], needle, replacement, ignoreCase) + ReplaceAll(y, needle, replacement, ignoreCase)
    ensures ReplaceAll(x + y, needle, replacement, ignoreCase)
         == ReplaceAll(x, needle, replacement, ignoreCase) + ReplaceAll(y, needle, replacement, ignoreCase)
  {
    var restX := ReplaceAll(x[1..], needle, replacement, ignoreCase);
    var restY := ReplaceAll(y, needle, replacement, ignoreCase);
    assert ReplaceAll(x + y, needle, replacement, ignoreCase) == [x[0]] + (restX + restY) by {
      assert (x + y)[0] == x[0] && (x + y)[1..] == x[1..] + y;
      ReplaceKept(x + y, needle, replacement, ignoreCase);
    }
    assert ReplaceAll(x, needle, replacement, ignoreCase) == [x[0]] + restX by {
      ReplaceKept(x, needle, replacement, ignoreCase);
    }
    ConcatAssoc([x[0]], restX, restY);
  }

  lemma ConcatAssoc<T>(a: seq<T>, b: seq<T>, c: seq<T>)
    ensures a + (b + c) == (a + b) + c
  {
  }

  lemma ReplaceMatched(s: string, needle: string, replacement: string, ignoreCase: bool)
    requires |needle| > 0 && PrefixMatch(s, needle, ignoreCase)
    ensures ReplaceAll(s, needle, replacement, ignoreCase)
         == replacement + ReplaceAll(s[|needle|..], needle, replacement, ignoreCase)
  {
  }

  lemma ReplaceKept(s: string, needle: string, replacement: string, ignoreCase: bool)
    requires |needle| > 0 && |s| > 0 && !PrefixMatch(s, needle, ignoreCase)
    ensures ReplaceAll(s, needle, replacement, ignoreCase) == [s[0]] + ReplaceAll(s[1..], needle, replacement, ignoreCase)
  {
  }

  /** Without a match across the seam, `x + y` starts with the needle exactly when `x` does. */
  lemma SeamPrefix(x: string, y: string, needle: string, ignoreCase: bool)
    requires |x| > 0
    requires NoStraddle(x + y, |x|, needle, ignoreCase)
    ensures PrefixMatch(x + y, needle, ignoreCase) <==> PrefixMatch(x, needle, ignoreCase)
    ensures (x + y)[0] == x[0]
  {
    if |needle| > |x| {
      assert (x + y)[0..] == x + y;
      assert !MatchesAt(x + y, 0, needle, ignoreCase);
    } else if PrefixMatch(x + y, needle, ignoreCase) {
      PrefixOfConcat(x, y, needle, ignoreCase);
    } else if PrefixMatch(x, needle, ignoreCase) {
      PrefixExtends(x, y, needle, ignoreCase);
    }
  }

  /** Dropping `n` characters of `x` keeps the seam free of straddling matches. */
  lemma NoStraddleDrop(x: string, y: string, n: nat, needle: string, ignoreCase: bool)
    requires n <= |x|
    requires NoStraddle(x + y, |x|, needle, ignoreCase)
    ensures (x + y)[n..] == x[n..] + y
    ensures NoStraddle(x[n..] + y, |x[n..]|, needle, ignoreCase)
  {
    var s := x + y;
    assert s[n..] == x[n..] + y;
    forall j | 0 <= j < |x[n..]| < j + |needle|
      ensures !MatchesAt(x[n..] + y, j, needle, ignoreCase)
    {
      MatchesAtDrop(s, n, j, needle, ignoreCase);
    }
  }

  /** A match at the front of `x + y` that fits inside `x` is a match of `x`. */
  lemma {:induction false} PrefixOfConcat(x: string, y: string, p: string, ignoreCase: bool)
    requires |p| <= |x|
    requires PrefixMatch(x + y, p, ignoreCase)
    ensures PrefixMatch(x, p, ignoreCase)
  {
    if |p| > 0 {
      assert (x + y)[1..] == x[1..] + y;
      PrefixOfConcat(x[1..], y, p[1..], ignoreCase);
    }
  }

  /** A match at the front of `x` is a match at the front of `x + y`. */
  lemma {:induction false} PrefixExtends(x: string, y: string, p: string, ignoreCase: bool)
    requires PrefixMatch(x, p, ignoreCase)
    ensures PrefixMatch(x + y, p, ignoreCase)
  {
    if |p| > 0 {
      assert (x + y)[1..] == x[1..] + y;
      PrefixExtends(x[1..], y, p[1..], ignoreCase);
    }
  }

  /** `string.Replace(char, char)`. */
  function ReplaceChar(s: string, c: char, d: char): (r: string)
    ensures |r| == |s|
    ensures forall i :: 0 <= i < |s| ==> r[i] == (if s[i] == c then d else s[i])
  {
    if s == [] then [] else [if s[0] == c then d else s[0]] + ReplaceChar(s[1..], c, d)
  }

  /** `string.TrimStart(c)`: drops every leading `c`. */
  function TrimStart(s: string, c: char): (r: string)
    ensures |r| <= |s| && r == s[|s| - |r|..]
    ensures r == [] || r[0] != c
    ensures forall i :: 0 <= i < |s| - |r| ==> s[i] == c
  {
    if s != [] && s[0] == c then TrimStart(s[1..], c) else s
  }

  // ---------------------------------------------------------------------------
  // Runs of characters (the greedy quantifiers of the regexes)
  // ---------------------------------------------------------------------------

  /** The end of the longest run of characters satisfying `p` that starts at `i`. */
  function RunEnd(s: string, i: nat, p: char -> bool): (r: nat)
    requires i <= |s|
    decreases |s| - i
    ensures i <= r <= |s|
    ensures forall k :: i <= k < r ==> p(s[k])
    ensures r == |s| || !p(s[r])
  {
    if i < |s| && p(s[i]) then RunEnd(s, i + 1, p) else i
  }

  /** The leftmost position in `[lo, hi)` where a pattern matches (the regex engine's scan). */
  function FirstWhere(lo: nat, hi: nat, matchesAt: nat -> bool): (r: Option<nat>)
    decreases hi - lo
    ensures r.Some? ==> lo <= r.value < hi && matchesAt(r.value)
    ensures r.Some? ==> forall j :: lo <= j < r.value ==> !matchesAt(j)
    ensures r.None? ==> forall j :: lo <= j < hi ==> !matchesAt(j)
  {
    if lo >= hi then None
    else if matchesAt(lo) then Some(lo)
    else FirstWhere(lo + 1, hi, matchesAt)
  }

  // ---------------------------------------------------------------------------
  // Numbers
  // ---------------------------------------------------------------------------

  function DigitValue(c: char): (r: nat)
    requires IsDigit(c)
    ensures r < 10
  {
    c as int - '0' as int
  }

  predicate AllDigits(s: string) {
    forall i :: 0 <= i < |s| ==> IsDigit(s[i])
  }

  /** The value of a decimal digit string (`int.Parse` without the range check). */
  function DigitsValue(s: string): nat
    requires AllDigits(s)
  {
    if s == [] then 0 else DigitsValue(s[..|s| - 1]) * 10 + DigitValue(s[|s| - 1])
  }

  function Pow10(n: nat): (r: nat)
    ensures r >= 1
  {
    if n == 0 then 1 else 10 * Pow10(n - 1)
  }

  lemma {:induction false} DigitsValueBound(s: string)
    requires AllDigits(s)
    ensures DigitsValue(s) < Pow10(|s|)
  {
    if s != [] {
      DigitsValueBound(s[..|s| - 1]);
    }
  }

  const MaxInt32: int := 0x7FFF_FFFF
  const MinInt32: int := -0x8000_0000

  predicate IsInt32(x: int) { MinInt32 <= x <= MaxInt32 }

  /**
   * `x + 1` on a 32-bit `int` in an unchecked context: the largest value wraps
   * to the smallest. (Every 32-bit value is one of the first two cases; the
   * result is always a 32-bit value.)
   */
  function Increment32(x: int): (r: int)
    ensures IsInt32(r)
    ensures MinInt32 <= x < MaxInt32 ==> r == x + 1
    ensures x == MaxInt32 ==> r == MinInt32
  {
    (x + 1 - MinInt32) % 0x1_0000_0000 + MinInt32
  }

  /** `int.Parse` of a digit string: absent when the value overflows `int`. */
  function ParseInt32(s: string): (r: Option<int>)
    requires AllDigits(s)
    ensures r.Some? ==> 0 <= r.value <= MaxInt32 && r.value == DigitsValue(s)
    ensures r.None? <==> DigitsValue(s) > MaxInt32
  {
    var v := DigitsValue(s);
    if v <= MaxInt32 then Some(v) else None
  }

  /** Number of dots in `s`. */
  function DotCount(s: string): nat {
    if s == [] then 0 else (if s[0] == '.' then 1 else 0) + DotCount(s[1..])
  }

  function IndexOfChar(s: string, c: char): (r: nat)
    ensures r <= |s|
    ensures r < |s| ==> s[r] == c
    ensures forall i :: 0 <= i < r ==> s[i] != c
  {
    if s == [] then 0 else if s[0] == c then 0 else 1 + IndexOfChar(s[1..], c)
  }

  /**
   * `double.Parse` of a run of digits and dots, exactly (no rounding): the
   * digits read as a whole number, scaled down by one power of ten per digit
   * after the dot; absent when the text has no digit or more than one dot,
   * which `double.Parse` rejects.
   */
  function ParseDecimal(s: string): (r: Option<real>)
    requires forall i :: 0 <= i < |s| ==> IsDigitOrDot(s[i])
    ensures r.Some? ==> r.value >= 0.0
    ensures r.Some? <==> DotCount(s) <= 1 && exists i :: 0 <= i < |s| && IsDigit(s[i])
    ensures r.Some? ==> r.value == Scaled(DigitsValue(WithoutDots(s)), FractionLength(s))
  {
    var d := IndexOfChar(s, '.');
    var whole := s[..d];
    var frac := if d < |s| then s[d + 1..] else [];
    DotCountSplit(s, d);
    if DotCount(s) <= 1 && |whole| + |frac| > 0 then
      DecimalSplit(s, d);
      Some(Scaled(DigitsValue(whole + frac), |frac|))
    else
      assert DotCount(s) <= 1 ==> forall i :: 0 <= i < |s| ==> !IsDigit(s[i]) by {
        if DotCount(s) <= 1 && |whole| + |frac| == 0 {
          assert |s| <= 1;
        }
      }
      None
  }

  /** The digits of a run of digits and dots, with the dots left out. */
  function WithoutDots(s: string): (r: string)
    requires forall i :: 0 <= i < |s| ==> IsDigitOrDot(s[i])
    ensures AllDigits(r)
  {
    if s == [] then []
    else
      var rest := WithoutDots(s[1..]);
      var head: string := if s[0] == '.' then [] else [s[0]];
      assert AllDigits(head + rest) by {
        forall i | 0 <= i < |head + rest| ensures IsDigit((head + rest)[i]) {
          if i < |head| { assert (head + rest)[i] == s[0] && IsDigitOrDot(s[0]); }
          else { assert (head + rest)[i] == rest[i - |head|]; }
        }
      }
      head + rest
  }

  /** The two sides of the only dot hold digits, and together they are the digits of the text. */
  lemma {:induction false} DecimalSplit(s: string, d: nat)
    requires forall i :: 0 <= i < |s| ==> IsDigitOrDot(s[i])
    requires d == IndexOfChar(s, '.') && DotCount(s) <= 1
    ensures var frac := if d < |s| then s[d + 1..] else [];
      && AllDigits(s[..d] + frac)
      && WithoutDots(s) == s[..d] + frac
      && FractionLength(s) == |frac|
  {
    var whole := s[..d];
    var frac := if d < |s| then s[d + 1..] else [];
    DotCountSplit(s, d);
    DotFreeDigits(s, d);
    DecimalDigits(s, d);
    forall i | 0 <= i < |whole + frac| ensures IsDigit((whole + frac)[i]) {
      if i < |whole| {
        assert (whole + frac)[i] == s[i] && s[i] != '.' && IsDigitOrDot(s[i]);
      } else {
        assert (whole + frac)[i] == frac[i - |whole|];
      }
    }
  }

  /** A whole number scaled down by `k` powers of ten. */
  function Scaled(n: nat, k: nat): (r: real)
    ensures r >= 0.0
    ensures r * Pow10(k) as real == n as real
  {
    n as real / Pow10(k) as real
  }


  /** The number of characters after the first dot, or 0 without a dot. */
  function FractionLength(s: string): nat {
    if s == [] then 0 else if s[0] == '.' then |s| - 1 else FractionLength(s[1..])
  }

  /** Splitting at the only dot: the digits are the whole part followed by the fraction. */
  lemma DecimalDigits(s: string, d: nat)
    requires forall i :: 0 <= i < |s| ==> IsDigitOrDot(s[i])
    requires d == IndexOfChar(s, '.') && DotCount(s) <= 1
    ensures WithoutDots(s) == s[..d] + (if d < |s| then s[d + 1..] else [])
    ensures FractionLength(s) == if d < |s| then |s| - d - 1 else 0
  {
    DigitsAroundDot(s, d);
    FractionAfterDot(s, d);
  }

  lemma {:induction false} DigitsAroundDot(s: string, d: nat)
    requires forall i :: 0 <= i < |s| ==> IsDigitOrDot(s[i])
    requires d == IndexOfChar(s, '.') && DotCount(s) <= 1
    ensures WithoutDots(s) == s[..d] + (if d < |s| then s[d + 1..] else [])
  {
    if s != [] {
      if s[0] == '.' {
        DotCountZero(s[1..]);
        WithoutDotsOfDigits(s[1..]);
      } else {
        var t := s[1..];
        assert forall i :: 0 <= i < |t| ==> IsDigitOrDot(t[i]) by {
          forall i | 0 <= i < |t| ensures IsDigitOrDot(t[i]) { assert t[i] == s[i + 1]; }
        }
        assert DotCount(t) == DotCount(s);
        DigitsAroundDot(t, d - 1);
        assert WithoutDots(s) == [s[0]] + WithoutDots(t);
        assert s[..d] == [s[0]] + t[..d - 1];
        if d < |s| { assert t[d - 1 + 1..] == s[d + 1..]; }
      }
    }
  }

  lemma {:induction false} FractionAfterDot(s: string, d: nat)
    requires d == IndexOfChar(s, '.')
    ensures FractionLength(s) == if d < |s| then |s| - d - 1 else 0
  {
    if s != [] && s[0] != '.' {
      FractionAfterDot(s[1..], d - 1);
    }
  }

  lemma {:induction false} WithoutDotsOfDigits(s: string)
    requires forall i :: 0 <= i < |s| ==> s[i] != '.' && IsDigitOrDot(s[i])
    ensures WithoutDots(s) == s
  {
    if s != [] {
      WithoutDotsOfDigits(s[1..]);
    }
  }

  lemma {:induction false} DotCountSplit(s: string, d: nat)
    requires d == IndexOfChar(s, '.')
    ensures d < |s| ==> DotCount(s) == 1 + DotCount(s[d + 1..])
    ensures d == |s| ==> DotCount(s) == 0
  {
    if s != [] && s[0] != '.' {
      DotCountSplit(s[1..], d - 1);
      if d < |s| {
        assert s[1..][d - 1 + 1..] == s[d + 1..];
      }
    }
  }

  lemma {:induction false} DotCountZero(s: string)
    requires DotCount(s) == 0
    ensures forall i :: 0 <= i < |s| ==> s[i] != '.'
  {
    if s != [] {
      DotCountZero(s[1..]);
      assert forall i :: 1 <= i < |s| ==> s[i] == s[1..][i - 1];
    }
  }

  lemma DotFreeDigits(s: string, d: nat)
    requires forall i :: 0 <= i < |s| ==> IsDigitOrDot(s[i])
    requires d == IndexOfChar(s, '.') && DotCount(s) <= 1
    ensures d < |s| ==> AllDigits(s[d + 1..])
  {
    if d < |s| {
      DotCountSplit(s, d);
      DotCountZero(s[d + 1..]);
    }
  }

  function DigitChar(d: nat): (c: char)
    requires d < 10
    ensures IsDigit(c) && DigitValue(c) == d
  {
    ('0' as int + d) as char
  }

  /** Decimal text of a natural number, without leading zeros. */
  function NatToString(n: nat): (r: string)
    ensures |r| > 0 && AllDigits(r)
    ensures DigitsValue(r) == n
    decreases n
  {
    if n < 10 then [DigitChar(n)]
    else
      var r := NatToString(n / 10) + [DigitChar(n % 10)];
      assert r[..|r| - 1] == NatToString(n / 10);
      r
  }

  /** A number below `10^d` needs at most `d` digits. */
  lemma {:induction false} NatToStringLength(n: nat, d: nat)
    requires 1 <= d && n < Pow10(d)
    ensures |NatToString(n)| <= d
  {
    if n >= 10 {
      assert d >= 2;
      NatToStringLength(n / 10, d - 1);
    }
  }

  /** `int.ToString()`: a leading minus sign for negative values. */
  function IntToString(i: int): (r: string)
    ensures i >= 0 ==> r == NatToString(i)
    ensures i < 0 ==> r == "-" + NatToString(-i)
  {
    if i >= 0 then NatToString(i) else "-" + NatToString(-i)
  }

  /** Reads back an optionally signed decimal numeral; anything else reads as 0. */
  function DecodeInt(s: string): int {
    if |s| > 0 && s[0] == '-' && AllDigits(s[1..]) then 0 - DigitsValue(s[1..])
    else if AllDigits(s) then DigitsValue(s)
    else 0
  }

  /** The decimal text of an integer reads back as that integer, so it names it uniquely. */
  lemma IntToStringRoundTrip(i: int)
    ensures DecodeInt(IntToString(i)) == i
  {
    if i >= 0 {
      assert IsDigit(IntToString(i)[0]);
    } else {
      assert IntToString(i)[1..] == NatToString(-i);
    }
  }

  function Zeros(n: nat): (r: string)
    ensures |r| == n && forall i :: 0 <= i < n ==> r[i] == '0'
  {
    if n == 0 then [] else "0" + Zeros(n - 1)
  }

  /** `n.ToString().PadLeft(width, '0')`. */
  function PadNumber(n: nat, width: nat): (r: string)
    ensures |r| == if |NatToString(n)| < width then width else |NatToString(n)|
    ensures AllDigits(r)
  {
    var s := NatToString(n);
    var z := if |s| < width then Zeros(width - |s|) else [];
    assert forall i :: 0 <= i < |z| ==> IsDigit(z[i]);
    z + s
  }

  // ---------------------------------------------------------------------------
  // Ordinal order of strings
  // ---------------------------------------------------------------------------

  /** `a` sorts before or equal to `b`, comparing character codes. */
  predicate LexLe(a: string, b: string) {
    |a| == 0 || (|b| > 0 && (a[0] < b[0] || (a[0] == b[0] && LexLe(a[1..], b[1..]))))
  }

  lemma {:induction false} LexLeTotal(a: string, b: string)
    ensures LexLe(a, b) || LexLe(b, a)
  {
    if |a| > 0 && |b| > 0 && a[0] == b[0] {
      LexLeTotal(a[1..], b[1..]);
    }
  }

  lemma {:induction false} LexLeTransitive(a: string, b: string, c: string)
    requires LexLe(a, b) && LexLe(b, c)
    ensures LexLe(a, c)
  {
    if |a| > 0 && a[0] == b[0] && b[0] == c[0] {
      LexLeTransitive(a[1..], b[1..], c[1..]);
    }
  }

  lemma {:induction false} LexLeAntisymmetric(a: string, b: string)
    requires LexLe(a, b) && LexLe(b, a)
    ensures a == b
  {
    if |a| > 0 {
      LexLeAntisymmetric(a[1..], b[1..]);
      assert a == [a[0]] + a[1..] && b == [b[0]] + b[1..];
    }
  }

  lemma LexLeReflexive(a: string)
    ensures LexLe(a, a)
  {
  }
}
