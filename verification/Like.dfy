/**
 LIKE patterns (persistence/search.py, `_escape_like_literal` and `_compile_text_pattern`; section 8.5 of SQL-92).
 */
module Like {

  const ESCAPE_CHAR := '\\'

  /** Python's `s.replace(old, new)` for a one-character `old`. */
  function Replace(s: string, from: char, to: string): string {
    if s == "" then "" else (if s[0] == from then to else [s[0]]) + Replace(s[1..], from, to)
  }

  /** The three replacements in the order of the source: backslash, percent, underscore. */
  function EscapeLiteral(s: string): string {
    Replace(Replace(Replace(s, '\\', "\\\\"), '%', "\\%"), '_', "\\_")
  }

  /** One pass that puts the escape character before each special character. */
  function EscapeChars(s: string): string {
    if s == "" then ""
    else (if s[0] in {'\\', '%', '_'} then [ESCAPE_CHAR, s[0]] else [s[0]]) + EscapeChars(s[1..])
  }

  lemma {:induction false} ReplaceConcat(a: string, b: string, from: char, to: string)
    ensures Replace(a + b, from, to) == Replace(a, from, to) + Replace(b, from, to)
  {
    if a == "" {
      assert a + b == b;
    } else {
      assert (a + b)[1..] == a[1..] + b;
      ReplaceConcat(a[1..], b, from, to);
    }
  }

  lemma {:induction false} ReplaceOne(c: char, from: char, to: string)
    ensures Replace([c], from, to) == if c == from then to else [c]
  {
  }

  /** The sequential replacements do not disturb each other: they equal a single pass. */
  lemma {:induction false} EscapeIsOnePass(s: string)
    ensures EscapeLiteral(s) == EscapeChars(s)
  {
    if s != "" {
      var c, rest := s[0], s[1..];
      EscapeIsOnePass(rest);
      assert s == [c] + rest;
      ReplaceConcat([c], rest, '\\', "\\\\");
      var c1, r1 := Replace([c], '\\', "\\\\"), Replace(rest, '\\', "\\\\");
      ReplaceConcat(c1, r1, '%', "\\%");
      var c2, r2 := Replace(c1, '%', "\\%"), Replace(r1, '%', "\\%");
      ReplaceConcat(c2, r2, '_', "\\_");
      ReplaceOne(c, '\\', "\\\\");
      EscapeOne(c, c1, c2);
    }
  }

  lemma EscapeOne(c: char, c1: string, c2: string)
    requires c1 == if c == '\\' then "\\\\" else [c]
    requires c2 == Replace(c1, '%', "\\%")
    ensures Replace(c2, '_', "\\_") == if c in {'\\', '%', '_'} then [ESCAPE_CHAR, c] else [c]
  {
    if c == '\\' {
      assert c1 == ['\\'] + ['\\'];
      ReplaceConcat(['\\'], ['\\'], '%', "\\%");
      ReplaceOne('\\', '%', "\\%");
      ReplaceConcat(['\\'], ['\\'], '_', "\\_");
      ReplaceOne('\\', '_', "\\_");
    } else {
      ReplaceOne(c, '%', "\\%");
      if c == '%' {
        assert c2 == ['\\'] + ['%'];
        ReplaceConcat(['\\'], ['%'], '_', "\\_");
        ReplaceOne('\\', '_', "\\_");
        ReplaceOne('%', '_', "\\_");
      } else {
        ReplaceOne(c, '_', "\\_");
      }
    }
  }

  /** LIKE with an escape character: `%` any string, `_` any character, an escaped character itself. */
  predicate Matches(s: string, pattern: string, escape: char)
    decreases |pattern|, |s|
  {
    if pattern == "" then s == ""
    else if pattern[0] == escape then
      |pattern| >= 2 && s != "" && s[0] == pattern[1] && Matches(s[1..], pattern[2..], escape)
    else if pattern[0] == '%' then
      Matches(s, pattern[1..], escape) || (s != "" && Matches(s[1..], pattern, escape))
    else
      s != "" && (pattern[0] == '_' || s[0] == pattern[0]) && Matches(s[1..], pattern[1..], escape)
  }

  lemma SplitHead(s: string, n: nat)
    requires 0 < n <= |s|
    ensures s[..n] == [s[0]] + s[1..][..n - 1] && s[n..] == s[1..][n - 1..]
  {
  }

  /** An escaped literal consumes exactly itself. */
  lemma {:induction false} LiteralThen(s: string, v: string, p: string)
    ensures Matches(s, EscapeChars(v) + p, ESCAPE_CHAR) <==>
            |v| <= |s| && s[..|v|] == v && Matches(s[|v|..], p, ESCAPE_CHAR)
  {
    if v == "" {
      assert EscapeChars(v) + p == p && s[0..] == s && s[..0] == "";
    } else {
      LiteralHead(s, v, p);
      if s != "" {
        LiteralThen(s[1..], v[1..], p);
        if |v| <= |s| {
          SplitHead(s, |v|);
          assert v == [v[0]] + v[1..];
        }
      }
    }
  }

  /** The escaped first character consumes exactly that character. */
  lemma LiteralHead(s: string, v: string, p: string)
    requires v != ""
    ensures Matches(s, EscapeChars(v) + p, ESCAPE_CHAR) <==>
            s != "" && s[0] == v[0] && Matches(s[1..], EscapeChars(v[1..]) + p, ESCAPE_CHAR)
  {
    var rest := EscapeChars(v[1..]) + p;
    if v[0] in {'\\', '%', '_'} {
      assert EscapeChars(v) + p == [ESCAPE_CHAR, v[0]] + rest;
      EscapedHead(s, v[0], rest);
    } else {
      assert EscapeChars(v) + p == [v[0]] + rest;
      PlainHead(s, v[0], rest);
    }
  }

  lemma EscapedHead(s: string, c: char, rest: string)
    ensures Matches(s, [ESCAPE_CHAR, c] + rest, ESCAPE_CHAR) <==> s != "" && s[0] == c && Matches(s[1..], rest, ESCAPE_CHAR)
  {
  }

  lemma PlainHead(s: string, c: char, rest: string)
    requires c !in {ESCAPE_CHAR, '%', '_'}
    ensures Matches(s, [c] + rest, ESCAPE_CHAR) <==> s != "" && s[0] == c && Matches(s[1..], rest, ESCAPE_CHAR)
  {
  }

  /** `%p` matches when some suffix matches `p`. */
  lemma {:induction false} PercentThen(s: string, p: string)
    ensures Matches(s, "%" + p, ESCAPE_CHAR) <==> exists k :: 0 <= k <= |s| && Matches(s[k..], p, ESCAPE_CHAR)
    decreases |s|
  {
    assert ("%" + p)[1..] == p && s[0..] == s;
    if s != "" {
      PercentThen(s[1..], p);
      forall k | 1 <= k <= |s| ensures s[k..] == s[1..][k - 1..] {
      }
      if exists k :: 0 <= k <= |s| && Matches(s[k..], p, ESCAPE_CHAR) {
        var k :| 0 <= k <= |s| && Matches(s[k..], p, ESCAPE_CHAR);
        if k > 0 {
          assert Matches(s[1..][k - 1..], p, ESCAPE_CHAR);
        }
      }
      if exists k :: 0 <= k <= |s[1..]| && Matches(s[1..][k..], p, ESCAPE_CHAR) {
        var k :| 0 <= k <= |s[1..]| && Matches(s[1..][k..], p, ESCAPE_CHAR);
        assert s[k + 1..] == s[1..][k..];
      }
    }
  }

  lemma PercentMatchesAll(s: string)
    ensures Matches(s, "%", ESCAPE_CHAR)
  {
  }

  datatype PatternOp = Contains | StartsWith | EndsWith

  /** The pattern the compiler sends as a parameter. */
  function PatternFor(op: PatternOp, v: string): string {
    match op
    case Contains => "%" + EscapeLiteral(v) + "%"
    case StartsWith => EscapeLiteral(v) + "%"
    case EndsWith => "%" + EscapeLiteral(v)
  }

  predicate OccursAt(s: string, v: string, k: int) {
    0 <= k <= |s| - |v| && s[k..k + |v|] == v
  }

  /** What the operator promises of a text. */
  ghost predicate Holds(op: PatternOp, s: string, v: string) {
    match op
    case Contains => exists k :: OccursAt(s, v, k)
    case StartsWith => OccursAt(s, v, 0)
    case EndsWith => OccursAt(s, v, |s| - |v|)
  }

  lemma ContainsCorrect(s: string, v: string)
    ensures Matches(s, "%" + (EscapeChars(v) + "%"), ESCAPE_CHAR) <==> exists k :: OccursAt(s, v, k)
  {
    var p := EscapeChars(v) + "%";
    PercentThen(s, p);
    forall k | 0 <= k <= |s| ensures Matches(s[k..], p, ESCAPE_CHAR) <==> OccursAt(s, v, k) {
      LiteralThen(s[k..], v, "%");
      if |v| <= |s[k..]| {
        PercentMatchesAll(s[k..][|v|..]);
        assert s[k..][..|v|] == s[k..k + |v|];
      }
    }
  }

  lemma StartsWithCorrect(s: string, v: string)
    ensures Matches(s, EscapeChars(v) + "%", ESCAPE_CHAR) <==> OccursAt(s, v, 0)
  {
    LiteralThen(s, v, "%");
    if |v| <= |s| {
      PercentMatchesAll(s[|v|..]);
    }
  }

  lemma LiteralExactly(s: string, v: string)
    ensures Matches(s, EscapeChars(v), ESCAPE_CHAR) <==> s == v
  {
    LiteralThen(s, v, "");
    assert EscapeChars(v) + "" == EscapeChars(v);
    if |v| <= |s| {
      assert s[..|v|] + s[|v|..] == s;
    }
  }

  lemma EndsWithCorrect(s: string, v: string)
    ensures Matches(s, "%" + EscapeChars(v), ESCAPE_CHAR) <==> OccursAt(s, v, |s| - |v|)
  {
    var p := EscapeChars(v);
    PercentThen(s, p);
    if |v| <= |s| {
      SuffixCase(s, v);
    }
    if Matches(s, "%" + p, ESCAPE_CHAR) {
      var k :| 0 <= k <= |s| && Matches(s[k..], p, ESCAPE_CHAR);
      LiteralExactly(s[k..], v);
    }
  }

  lemma SuffixCase(s: string, v: string)
    requires |v| <= |s|
    ensures OccursAt(s, v, |s| - |v|) <==> Matches(s[|s| - |v|..], EscapeChars(v), ESCAPE_CHAR)
  {
    LiteralExactly(s[|s| - |v|..], v);
    assert s[|s| - |v|..|s| - |v| + |v|] == s[|s| - |v|..];
  }

  /** For all texts and values, special characters included, the pattern means substring, prefix or suffix. */
  lemma PatternCorrect(op: PatternOp, s: string, v: string)
    ensures Matches(s, PatternFor(op, v), ESCAPE_CHAR) <==> Holds(op, s, v)
  {
    EscapeIsOnePass(v);
    match op
    case Contains =>
      ContainsCorrect(s, v);
      assert PatternFor(op, v) == "%" + (EscapeChars(v) + "%");
    case StartsWith => StartsWithCorrect(s, v);
    case EndsWith => EndsWithCorrect(s, v);
  }
}
