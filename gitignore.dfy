/**
 * The watch mode's `.gitignore` handling (scripts/build.ts): the file is
 * read once into a list of patterns, and a changed path is ignored when a
 * pattern names one of its `/`-separated parts or is a prefix of it.
 */
module Gitignore {
  import opened Wrappers
  import opened Strings

  /** `trimmed.replace(/\/$/, "")`: at most one `/`, and only at the very end, is removed. */
  function StripTrailingSlash(s: string): (r: string)
    ensures r + (if EndsWith(s, "/") then "/" else "") == s
  {
    if EndsWith(s, "/") then s[..|s| - 1] else s
  }

  /** The pattern a line contributes: none for a blank or `#` line, else the trimmed line without a trailing `/`. */
  function PatternOf(line: string): (r: Option<string>)
    ensures r.Some? <==> Trim(line) != "" && Trim(line)[0] != '#'
    ensures r.Some? ==> r.value + (if EndsWith(Trim(line), "/") then "/" else "") == Trim(line)
  {
    var trimmed := Trim(line);
    assert trimmed != "" ==> (StartsWith(trimmed, "#") <==> trimmed[0] == '#');
    if trimmed != "" && !StartsWith(trimmed, "#") then Some(StripTrailingSlash(trimmed)) else None
  }

  /** The patterns of the lines, in file order. */
  function Patterns(lines: seq<string>): (r: seq<string>)
    ensures |r| <= |lines|
  {
    if |lines| == 0 then []
    else
      var rest := Patterns(lines[1..]);
      match PatternOf(lines[0])
      case Some(p) => [p] + rest
      case None => rest
  }

  /** Patterns keep file order: the patterns of two runs of lines are those of each run, in turn. */
  lemma {:induction false} PatternsAppend(a: seq<string>, b: seq<string>)
    ensures Patterns(a + b) == Patterns(a) + Patterns(b)
  {
    if |a| == 0 {
      assert a + b == b;
    } else {
      assert (a + b)[1..] == a[1..] + b;
      PatternsAppend(a[1..], b);
    }
  }

  /** One more line adds its pattern, if any, at the end. */
  lemma PatternsSnoc(lines: seq<string>, i: nat)
    requires i < |lines|
    ensures Patterns(lines[..i + 1]) == Patterns(lines[..i]) + match PatternOf(lines[i]) case Some(p) => [p] case None => []
  {
    var x := lines[i];
    assert lines[..i + 1] == lines[..i] + [x];
    PatternsAppend(lines[..i], [x]);
    assert Patterns([x]) == match PatternOf(x) case Some(p) => [p] case None => [] by {
      assert [x][1..] == [];
    }
  }

  /** A string is a pattern exactly when some line yields it. */
  lemma {:induction false} PatternsMembership(lines: seq<string>, p: string)
    ensures p in Patterns(lines) <==> exists i :: 0 <= i < |lines| && PatternOf(lines[i]) == Some(p)
  {
    if |lines| > 0 {
      PatternsMembership(lines[1..], p);
      if PatternOf(lines[0]) != Some(p) {
        if p in Patterns(lines) {
          var i :| 1 <= i < |lines| && lines[1..][i - 1] == lines[i] && PatternOf(lines[1..][i - 1]) == Some(p);
        }
      }
    }
  }

  /**
   * What a kept line becomes: it was not blank after trimming and did not
   * start with `#`, and the pattern is that trimmed line less at most one
   * trailing `/`; so no pattern starts with `#`, and only a line that trims
   * to `/` gives the empty pattern.
   */
  lemma PatternShape(line: string)
    ensures var trimmed := Trim(line);
            PatternOf(line).Some? <==> trimmed != "" && trimmed[0] != '#'
    ensures var trimmed := Trim(line);
            PatternOf(line).Some? ==>
              var p := PatternOf(line).value;
              p + (if EndsWith(trimmed, "/") then "/" else "") == trimmed &&
              (|p| > 0 ==> p[0] != '#') &&
              (p == "" <==> trimmed == "/")
  {
    var trimmed := Trim(line);
    if trimmed != "" {
      assert StartsWith(trimmed, "#") <==> trimmed[0] == '#';
    }
    if PatternOf(line).Some? {
      var p := PatternOf(line).value;
      if |p| > 0 {
        assert p[0] == trimmed[0];
      }
    }
  }

  /**
   * Watch mode's reading of `.gitignore`: no patterns when the file cannot
   * be read, otherwise the patterns of its lines.
   */
  method ParseGitignore(file: Option<string>) returns (patterns: seq<string>)
    ensures file.None? ==> patterns == []
    ensures file.Some? ==> patterns == Patterns(Split(file.value, '\n'))
  {
    patterns := [];
    if file.Some? {
      patterns := ParseLines(Split(file.value, '\n'));
    }
  }

  /** The `forEach` over the lines: each kept line pushes its pattern, in order. */
  method ParseLines(lines: seq<string>) returns (patterns: seq<string>)
    ensures patterns == Patterns(lines)
  {
    patterns := [];
    for i := 0 to |lines|
      invariant patterns == Patterns(lines[..i])
    {
      var trimmed := Trim(lines[i]);
      PatternsSnoc(lines, i);
      if trimmed != "" && !StartsWith(trimmed, "#") {
        patterns := patterns + [StripTrailingSlash(trimmed)];
      }
    }
    assert lines[..|lines|] == lines;
  }

  /**
   * `isIgnored`: some pattern equals some part of the path, or is a prefix of
   * it. Since a split always has a part, the prefix test alone suffices.
   */
  function IsIgnored(patterns: seq<string>, filepath: string): (r: bool)
    ensures r <==> exists p :: p in patterns && (p in Split(filepath, '/') || StartsWith(filepath, p))
  {
    var parts := Split(filepath, '/');
    SomePartOrPrefix(patterns, filepath, parts);
    exists i, j | 0 <= i < |patterns| && 0 <= j < |parts| :: parts[j] == patterns[i] || StartsWith(filepath, patterns[i])
  }

  /** The `some` over patterns and parts, stated on the patterns themselves. */
  lemma SomePartOrPrefix(patterns: seq<string>, filepath: string, parts: seq<string>)
    requires |parts| > 0
    ensures (exists i, j | 0 <= i < |patterns| && 0 <= j < |parts| :: parts[j] == patterns[i] || StartsWith(filepath, patterns[i]))
            <==> exists p :: p in patterns && (p in parts || StartsWith(filepath, p))
  {
    if exists p :: p in patterns && (p in parts || StartsWith(filepath, p)) {
      var p :| p in patterns && (p in parts || StartsWith(filepath, p));
      var i :| 0 <= i < |patterns| && patterns[i] == p;
      var j := if p in parts then Find(parts, p) else 0;
      assert parts[j] == patterns[i] || StartsWith(filepath, patterns[i]);
    }
    if exists i, j | 0 <= i < |patterns| && 0 <= j < |parts| :: parts[j] == patterns[i] || StartsWith(filepath, patterns[i]) {
      var i, j :| 0 <= i < |patterns| && 0 <= j < |parts| && (parts[j] == patterns[i] || StartsWith(filepath, patterns[i]));
      var p := patterns[i];
      assert p in patterns && (parts[j] == p || StartsWith(filepath, p));
    }
  }

  /** An index at which `x` occurs in `s`. */
  function Find(s: seq<string>, x: string): (j: nat)
    requires x in s
    ensures j < |s| && s[j] == x
  {
    if s[0] == x then 0 else 1 + Find(s[1..], x)
  }

  /** With no patterns (no `.gitignore`, or only blank and comment lines) nothing is ignored. */
  lemma NothingIgnoredWithoutPatterns(filepath: string)
    ensures !IsIgnored([], filepath)
  {
  }

  /** A pattern naming one directory of a path ignores it, at any depth. */
  lemma SegmentIgnored(parts: seq<string>, k: nat, patterns: seq<string>)
    requires k < |parts| && forall m :: 0 <= m < |parts| ==> '/' !in parts[m]
    requires parts[k] in patterns
    ensures IsIgnored(patterns, Join(parts, '/'))
  {
    SplitJoin(parts, '/');
    var i :| 0 <= i < |patterns| && patterns[i] == parts[k];
    assert Split(Join(parts, '/'), '/')[k] == patterns[i];
  }

  /** The prefix test is textual: the pattern `dist` also ignores `distance.txt`. */
  lemma PrefixMatchIsTextual()
    ensures IsIgnored(["dist"], "distance.txt")
  {
    var parts := Split("distance.txt", '/');
    assert StartsWith("distance.txt", "dist");
    assert |parts| >= 1;
    assert parts[0] == ["dist"][0] || StartsWith("distance.txt", ["dist"][0]);
  }

  /** An empty pattern, which a `/` line produces, is a prefix of every path and ignores everything. */
  lemma EmptyPatternIgnoresAll(patterns: seq<string>, filepath: string)
    requires "" in patterns
    ensures IsIgnored(patterns, filepath)
  {
    var i :| 0 <= i < |patterns| && patterns[i] == "";
    var parts := Split(filepath, '/');
    assert StartsWith(filepath, patterns[i]);
    assert parts[0] == patterns[i] || StartsWith(filepath, patterns[i]);
  }

  /** A line `/` really yields the empty pattern. */
  lemma SlashLineYieldsEmptyPattern()
    ensures PatternOf("/") == Some("")
  {
    assert !IsWhitespace('/');
    assert Trim("/") == "/";
  }
}
