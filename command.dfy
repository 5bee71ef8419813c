/**
 * Turning a command template into the transcoder's argument string: an
 * ordered chain of literal, case-sensitive, replace-every-occurrence steps.
 */
module Command {
  import opened Wrappers
  import opened Text
  import opened Models

  /** The token an override with key `key` replaces. */
  function Placeholder(key: string): (r: string)
    ensures |r| == |key| + 2 && r[0] == '{' && r[|r| - 1] == '}'
    ensures r[1..|r| - 1] == key
  {
    "{" + key + "}"
  }

  /** `s` has no opening brace, so no placeholder can start in it. */
  predicate NoOpenBrace(s: string) {
    forall i :: 0 <= i < |s| ==> s[i] != '{'
  }

  /** `s` has no brace at all. */
  predicate BraceFree(s: string) {
    forall i :: 0 <= i < |s| ==> s[i] != '{' && s[i] != '}'
  }

  /** Ordinal `string.Replace(placeholder, value)`. */
  function Substitute(s: string, placeholder: string, value: string): string
    requires |placeholder| > 0
  {
    ReplaceAll(s, placeholder, value, false)
  }

  /** The caller's overrides, applied in their iteration order. */
  function ApplyOverrides(s: string, parameters: seq<(string, string)>): string
    decreases |parameters|
  {
    if parameters == [] then s
    else
      var last := parameters[|parameters| - 1];
      Substitute(ApplyOverrides(s, parameters[..|parameters| - 1]), Placeholder(last.0), last.1)
  }

  /** The three defaults, applied after every override. */
  function ApplyDefaults(s: string): string {
    Substitute(Substitute(Substitute(s, "{encoder}", "libx264"), "{audio_encoder}", "aac"), "{crf}", "23")
  }

  /** The command the chain of replacements produces. */
  function CommandFor(commandArgs: string, inputPath: string, outputPath: string,
                      parameters: Option<seq<(string, string)>>): string
  {
    var io := Substitute(Substitute(commandArgs, "{input}", inputPath), "{output}", outputPath);
    ApplyDefaults(ApplyOverrides(io, parameters.GetOr([])))
  }

  /**
   * `BuildCommand`: the input and output paths first, then each override in
   * turn, then the default encoder, audio encoder and quality.
   */
  method BuildCommand(template: CommandTemplate, inputPath: string, outputPath: string,
                      parameters: Option<seq<(string, string)>>) returns (command: string)
    ensures command == CommandFor(template.commandArgs, inputPath, outputPath, parameters)
  {
    command := Substitute(Substitute(template.commandArgs, "{input}", inputPath), "{output}", outputPath);
    ghost var io := command;
    if parameters.Some? {
      var ps := parameters.value;
      var i := 0;
      while i < |ps|
        invariant 0 <= i <= |ps|
        invariant command == ApplyOverrides(io, ps[..i])
      {
        var (key, value) := ps[i];
        assert ps[..i + 1][..i] == ps[..i];
        command := Substitute(command, Placeholder(key), value);
        i := i + 1;
      }
      assert ps[..|ps|] == ps;
    }
    command := Substitute(command, "{encoder}", "libx264");
    command := Substitute(command, "{audio_encoder}", "aac");
    command := Substitute(command, "{crf}", "23");
  }

  // ---------------------------------------------------------------------------
  // Single replacement steps
  // ---------------------------------------------------------------------------

  /** Text without an opening brace is left alone by every placeholder. */
  lemma Untouched(s: string, p: string, v: string)
    requires |p| > 0 && p[0] == '{'
    requires NoOpenBrace(s)
    ensures Substitute(s, p, v) == s
  {
    forall j | 0 <= j
      ensures !MatchesAt(s, j, p, false)
    {
      MatchesAtOrdinal(s, j, p);
      if j + |p| <= |s| {
        assert s[j..j + |p|][0] == s[j];
      }
    }
    ReplaceAbsent(s, p, v, false);
  }

  /** Every character of `{k}` after the first differs from `{`. */
  lemma PlaceholderTail(k: string, i: nat)
    requires BraceFree(k) && 0 < i < |k| + 2
    ensures Placeholder(k)[i] != '{'
    ensures i < |k| + 1 ==> Placeholder(k)[i] != '}'
  {
    if i < |k| + 1 {
      assert Placeholder(k)[i] == k[i - 1];
    }
  }

  /** No occurrence of `{k}` straddles a position holding an opening brace. */
  lemma NoStraddleAtBrace(s: string, pos: nat, k: string)
    requires pos < |s| && s[pos] == '{'
    requires BraceFree(k)
    ensures NoStraddle(s, pos, Placeholder(k), false)
  {
    var n := Placeholder(k);
    forall j | 0 <= j < pos < j + |n|
      ensures !MatchesAt(s, j, n, false)
    {
      MatchesAtOrdinal(s, j, n);
      PlaceholderTail(k, pos - j);
      if j + |n| <= |s| {
        assert s[j..j + |n|][pos - j] == s[pos];
      }
    }
  }

  /** No placeholder `{k}` occurs inside `{foo}`, nor crosses its end, for brace-free `k != foo`. */
  lemma NotInsidePlaceholder(foo: string, b: string, k: string, j: nat)
    requires BraceFree(foo) && BraceFree(k) && foo != k
    requires j < |Placeholder(foo)|
    ensures !MatchesAt(Placeholder(foo) + b, j, Placeholder(k), false)
  {
    var n := Placeholder(k);
    var p := Placeholder(foo);
    var s := p + b;
    MatchesAtOrdinal(s, j, n);
    if j == 0 {
      if |n| == |p| {
        assert n[1..|n| - 1] != p[1..|p| - 1];
        if j + |n| <= |s| {
          assert s[..|n|] == p;
        }
      } else if |n| < |p| {
        PlaceholderTail(foo, |n| - 1);
        if j + |n| <= |s| {
          assert s[..|n|][|n| - 1] == p[|n| - 1];
        }
      } else {
        PlaceholderTail(k, |p| - 1);
        if j + |n| <= |s| {
          assert s[..|n|][|p| - 1] == p[|p| - 1];
        }
      }
    } else {
      PlaceholderTail(foo, j);
      if j + |n| <= |s| {
        assert s[j..j + |n|][0] == p[j];
      }
    }
  }

  /**
   * The placeholder `{foo}` is left verbatim by the replacement of a
   * different brace-free key, and the text on either side is rewritten
   * independently.
   */
  lemma Intact(a: string, foo: string, b: string, k: string, v: string)
    requires BraceFree(foo) && BraceFree(k) && foo != k
    ensures Substitute(a + Placeholder(foo) + b, Placeholder(k), v)
         == Substitute(a, Placeholder(k), v) + Placeholder(foo) + Substitute(b, Placeholder(k), v)
  {
    var n := Placeholder(k);
    var p := Placeholder(foo);
    assert a + p + b == a + (p + b);
    assert (a + (p + b))[|a|] == '{';
    NoStraddleAtBrace(a + (p + b), |a|, k);
    ReplaceConcat(a, p + b, n, v, false);
    forall j | 0 <= j < |p| < j + |n|
      ensures !MatchesAt(p + b, j, n, false)
    {
      NotInsidePlaceholder(foo, b, k, j);
    }
    ReplaceConcat(p, b, n, v, false);
    forall j | 0 <= j
      ensures !MatchesAt(p, j, n, false)
    {
      if j < |p| {
        NotInsidePlaceholder(foo, [], k, j);
        assert p + [] == p;
      } else {
        MatchesAtOrdinal(p, j, n);
      }
    }
    ReplaceAbsent(p, n, v, false);
  }

  /** Splitting of the text around `{foo}` survives one replacement step. */
  lemma KeepThrough(s: string, foo: string, k: string, v: string)
    requires BraceFree(foo) && BraceFree(k) && foo != k
    requires exists a, b :: s == a + Placeholder(foo) + b
    ensures exists a, b :: Substitute(s, Placeholder(k), v) == a + Placeholder(foo) + b
  {
    var a, b :| s == a + Placeholder(foo) + b;
    Intact(a, foo, b, k, v);
  }

  /** The occurrence of `{k}` between two brace-free texts is replaced by `v`. */
  lemma ReplaceHere(a: string, k: string, b: string, v: string)
    requires NoOpenBrace(a) && NoOpenBrace(b) && BraceFree(k)
    ensures Substitute(a + Placeholder(k) + b, Placeholder(k), v) == a + v + b
  {
    var n := Placeholder(k);
    assert a + n + b == a + (n + b);
    assert (a + (n + b))[|a|] == '{';
    NoStraddleAtBrace(a + (n + b), |a|, k);
    ReplaceConcat(a, n + b, n, v, false);
    Untouched(a, n, v);
    PrefixMatchOrdinal(n + b, n);
    assert (n + b)[..|n|] == n;
    assert (n + b)[|n|..] == b;
    Untouched(b, n, v);
  }

  // ---------------------------------------------------------------------------
  // Properties of the whole chain
  // ---------------------------------------------------------------------------

  lemma {:induction false} OverridesUntouched(s: string, ps: seq<(string, string)>)
    requires NoOpenBrace(s)
    ensures ApplyOverrides(s, ps) == s
    decreases |ps|
  {
    if ps != [] {
      OverridesUntouched(s, ps[..|ps| - 1]);
      Untouched(s, Placeholder(ps[|ps| - 1].0), ps[|ps| - 1].1);
    }
  }

  /** A template without an opening brace is the command, whatever the arguments. */
  lemma {:induction false} NoPlaceholderUnchanged(commandArgs: string, inputPath: string, outputPath: string,
                                                   parameters: Option<seq<(string, string)>>)
    requires NoOpenBrace(commandArgs)
    ensures CommandFor(commandArgs, inputPath, outputPath, parameters) == commandArgs
  {
    var s := commandArgs;
    Untouched(s, "{input}", inputPath);
    Untouched(s, "{output}", outputPath);
    OverridesUntouched(s, parameters.GetOr([]));
    Untouched(s, "{encoder}", "libx264");
    Untouched(s, "{audio_encoder}", "aac");
    Untouched(s, "{crf}", "23");
  }

  /** The key set of a round of replacements: none of them is `foo` and all are brace-free. */
  predicate KeysAvoid(ps: seq<(string, string)>, foo: string) {
    forall i :: 0 <= i < |ps| ==> BraceFree(ps[i].0) && ps[i].0 != foo
  }

  lemma {:induction false} OverridesKeepPlaceholder(s: string, foo: string, ps: seq<(string, string)>)
    requires BraceFree(foo) && KeysAvoid(ps, foo)
    requires exists a, b :: s == a + Placeholder(foo) + b
    ensures exists a, b :: ApplyOverrides(s, ps) == a + Placeholder(foo) + b
    decreases |ps|
  {
    if ps != [] {
      var init := ps[..|ps| - 1];
      assert KeysAvoid(init, foo) by {
        forall i | 0 <= i < |init| ensures BraceFree(init[i].0) && init[i].0 != foo {
          assert init[i] == ps[i];
        }
      }
      OverridesKeepPlaceholder(s, foo, init);
      var last := ps[|ps| - 1];
      KeepThrough(ApplyOverrides(s, init), foo, last.0, last.1);
    }
  }

  /** The fixed keys the chain replaces besides the caller's overrides. */
  predicate IsBuiltinKey(k: string) {
    k == "input" || k == "output" || k == "encoder" || k == "audio_encoder" || k == "crf"
  }

  /** The built-in keys are brace-free, and their placeholders are the literals the chain searches for. */
  lemma BuiltinPlaceholders()
    ensures Placeholder("input") == "{input}" && Placeholder("output") == "{output}"
    ensures Placeholder("encoder") == "{encoder}" && Placeholder("audio_encoder") == "{audio_encoder}"
    ensures Placeholder("crf") == "{crf}"
    ensures BraceFree("input") && BraceFree("output") && BraceFree("encoder")
    ensures BraceFree("audio_encoder") && BraceFree("crf")
  {
    BuiltinKeysBraceFree();
  }

  /** The built-in keys hold no brace (proved apart: together with the literals above it is costly). */
  lemma BuiltinKeysBraceFree()
    ensures BraceFree("input") && BraceFree("output") && BraceFree("encoder")
    ensures BraceFree("audio_encoder") && BraceFree("crf")
  {
    assert BraceFree("input");
    assert BraceFree("output");
    assert BraceFree("encoder");
    assert BraceFree("audio_encoder");
  }

  /**
   * A placeholder that neither an override nor a built-in key names stays in
   * the command verbatim.
   */
  lemma UnknownPlaceholderSurvives(a: string, foo: string, b: string, inputPath: string,
                                   outputPath: string, parameters: Option<seq<(string, string)>>)
    requires BraceFree(foo) && !IsBuiltinKey(foo)
    requires KeysAvoid(parameters.GetOr([]), foo)
    ensures exists a', b' :: CommandFor(a + Placeholder(foo) + b, inputPath, outputPath, parameters)
                             == a' + Placeholder(foo) + b'
  {
    BuiltinPlaceholders();
    var s0 := a + Placeholder(foo) + b;
    KeepThrough(s0, foo, "input", inputPath);
    var s1 := Substitute(s0, "{input}", inputPath);
    KeepThrough(s1, foo, "output", outputPath);
    var s2 := Substitute(s1, "{output}", outputPath);
    OverridesKeepPlaceholder(s2, foo, parameters.GetOr([]));
    var s3 := ApplyOverrides(s2, parameters.GetOr([]));
    KeepThrough(s3, foo, "encoder", "libx264");
    var s4 := Substitute(s3, "{encoder}", "libx264");
    KeepThrough(s4, foo, "audio_encoder", "aac");
    var s5 := Substitute(s4, "{audio_encoder}", "aac");
    KeepThrough(s5, foo, "crf", "23");
  }

  /** Without overrides, `{crf}` between brace-free texts becomes the default `23`. */
  lemma DefaultQuality(a: string, b: string, inputPath: string, outputPath: string)
    requires NoOpenBrace(a) && NoOpenBrace(b)
    ensures CommandFor(a + "{crf}" + b, inputPath, outputPath, None) == a + "23" + b
  {
    BuiltinPlaceholders();
    Intact(a, "crf", b, "input", inputPath);
    Untouched(a, "{input}", inputPath);
    Untouched(b, "{input}", inputPath);
    Intact(a, "crf", b, "output", outputPath);
    Untouched(a, "{output}", outputPath);
    Untouched(b, "{output}", outputPath);
    Intact(a, "crf", b, "encoder", "libx264");
    Untouched(a, "{encoder}", "libx264");
    Untouched(b, "{encoder}", "libx264");
    Intact(a, "crf", b, "audio_encoder", "aac");
    Untouched(a, "{audio_encoder}", "aac");
    Untouched(b, "{audio_encoder}", "aac");
    ReplaceHere(a, "crf", b, "23");
  }

  /** The worked example: `-crf {crf}` with no overrides becomes `-crf 23`. */
  lemma DefaultQualityExample(inputPath: string, outputPath: string)
    ensures CommandFor("-crf {crf}", inputPath, outputPath, None) == "-crf 23"
  {
    assert "-crf {crf}" == "-crf " + "{crf}" + "";
    DefaultQuality("-crf ", "", inputPath, outputPath);
    assert "-crf " + "23" + "" == "-crf 23";
  }

  /**
   * An override for a default key wins: with the single override `k → v`,
   * the placeholder `{k}` becomes `v` and not the default.
   */
  lemma OverrideWins(a: string, k: string, b: string, v: string, inputPath: string, outputPath: string)
    requires NoOpenBrace(a) && NoOpenBrace(b) && NoOpenBrace(v)
    requires BraceFree(k) && k != "input" && k != "output"
    ensures CommandFor(a + Placeholder(k) + b, inputPath, outputPath, Some([(k, v)])) == a + v + b
  {
    BuiltinPlaceholders();
    Intact(a, k, b, "input", inputPath);
    Untouched(a, "{input}", inputPath);
    Untouched(b, "{input}", inputPath);
    Intact(a, k, b, "output", outputPath);
    Untouched(a, "{output}", outputPath);
    Untouched(b, "{output}", outputPath);
    var s2 := a + Placeholder(k) + b;
    var ps := [(k, v)];
    assert ps[..0] == [];
    assert ApplyOverrides(s2, ps) == Substitute(s2, Placeholder(k), v);
    ReplaceHere(a, k, b, v);
    var r := a + v + b;
    assert NoOpenBrace(r) by {
      forall i | 0 <= i < |r| ensures r[i] != '{' {
        if i < |a| { assert r[i] == a[i]; }
        else if i < |a| + |v| { assert r[i] == v[i - |a|]; }
        else { assert r[i] == b[i - |a| - |v|]; }
      }
    }
    Untouched(r, "{encoder}", "libx264");
    Untouched(r, "{audio_encoder}", "aac");
    Untouched(r, "{crf}", "23");
  }
}
