/**
 * The two pattern languages the configuration relies on, as the Spring
 * library documents them: `PatternMatchUtils.simpleMatch` (used by the login
 * filter's whitelist) and `AntPathMatcher` (used by the interceptor path
 * lists).
 */
module PathMatching {

  /**
   * `simpleMatch(pattern, str)`: `*` matches any run of characters, `/`
   * included; every other character matches itself.
   */
  predicate SimpleMatch(pattern: string, str: string): (r: bool)
    decreases |pattern| + |str|
    ensures r && NoStar(pattern) ==> |str| == |pattern|
  {
    if pattern == [] then str == []
    else if pattern[0] == '*' then SimpleMatch(pattern[1..], str) || (str != [] && SimpleMatch(pattern, str[1..]))
    else str != [] && pattern[0] == str[0] && SimpleMatch(pattern[1..], str[1..])
  }

  /** `simpleMatch(String[] patterns, str)`: some pattern matches. */
  predicate SimpleMatchAny(patterns: seq<string>, str: string): (r: bool)
    ensures patterns == [] ==> !r
    ensures (exists i :: 0 <= i < |patterns| && patterns[i] == str) ==> r
  {
    SimpleMatchSelf(str);
    exists i :: 0 <= i < |patterns| && SimpleMatch(patterns[i], str)
  }

  predicate NoStar(s: string)
  {
    forall i :: 0 <= i < |s| ==> s[i] != '*'
  }

  /** Every pattern matches its own text: a `*` also matches the character `*`. */
  lemma {:induction false} SimpleMatchSelf(pattern: string)
    ensures SimpleMatch(pattern, pattern)
  {
    if pattern != [] {
      SimpleMatchSelf(pattern[1..]);
      if pattern[0] == '*' {
        assert SimpleMatch(pattern, pattern[1..]);
      }
    }
  }

  /** A pattern without `*` matches exactly itself. */
  lemma {:induction false} SimpleMatchLiteral(pattern: string, str: string)
    requires NoStar(pattern)
    ensures SimpleMatch(pattern, str) <==> pattern == str
  {
    if pattern != [] && str != [] {
      SimpleMatchLiteral(pattern[1..], str[1..]);
      if pattern[0] == str[0] && pattern[1..] == str[1..] {
        assert pattern == [pattern[0]] + pattern[1..];
        assert str == [str[0]] + str[1..];
      }
    }
  }

  /** `*` alone matches every string. */
  lemma {:induction false} SimpleMatchStar(str: string)
    ensures SimpleMatch("*", str)
  {
    if str != [] {
      SimpleMatchStar(str[1..]);
    }
  }

  /** `prefix*` (with no other `*`) matches exactly the strings starting with `prefix`. */
  lemma {:induction false} SimpleMatchPrefix(prefix: string, str: string)
    requires NoStar(prefix)
    ensures SimpleMatch(prefix + "*", str) <==> |str| >= |prefix| && str[..|prefix|] == prefix
  {
    if prefix == [] {
      assert prefix + "*" == "*";
      SimpleMatchStar(str);
    } else {
      var p := prefix + "*";
      assert p[0] == prefix[0] && p[1..] == prefix[1..] + "*";
      if str != [] {
        SimpleMatchPrefix(prefix[1..], str[1..]);
        if |str| >= |prefix| && str[0] == prefix[0] && str[1..][..|prefix| - 1] == prefix[1..] {
          assert str[..|prefix|] == [str[0]] + str[1..][..|prefix| - 1];
          assert prefix == [prefix[0]] + prefix[1..];
        }
        if |str| >= |prefix| && str[..|prefix|] == prefix {
          assert str[1..][..|prefix| - 1] == str[..|prefix|][1..];
        }
      }
    }
  }

  predicate StartsWithSep(s: string) { |s| > 0 && s[0] == '/' }

  predicate EndsWithSep(s: string) { |s| > 0 && s[|s| - 1] == '/' }

  /** `s` cut at every `/` (empty pieces kept). */
  function Split(s: string): (pieces: seq<string>)
    decreases |s|
    ensures |pieces| >= 1
  {
    if s == [] then [""]
    else
      var rest := Split(s[1..]);
      if s[0] == '/' then [""] + rest else [[s[0]] + rest[0]] + rest[1..]
  }

  function NonEmpty(pieces: seq<string>): seq<string>
  {
    if pieces == [] then []
    else if pieces[0] == "" then NonEmpty(pieces[1..])
    else [pieces[0]] + NonEmpty(pieces[1..])
  }

  /** The path tokens `AntPathMatcher` compares: the pieces between separators, empty ones ignored. */
  function Tokens(s: string): seq<string>
  {
    NonEmpty(Split(s))
  }

  /**
   * Pattern tokens against path tokens: `**` matches any number of tokens,
   * any other pattern token matches one path token, with `*` matching any
   * run of characters inside it.
   */
  predicate TokensMatch(patterns: seq<string>, tokens: seq<string>)
    decreases |patterns| + |tokens|
  {
    if patterns == [] then tokens == []
    else if patterns[0] == "**" then
      TokensMatch(patterns[1..], tokens) || (tokens != [] && TokensMatch(patterns, tokens[1..]))
    else tokens != [] && SimpleMatch(patterns[0], tokens[0]) && TokensMatch(patterns[1..], tokens[1..])
  }

  /** The last pattern token is `**`, so the trailing `/` of the path is not compared. */
  predicate EndsWithDoubleStar(patterns: seq<string>)
  {
    patterns != [] && patterns[|patterns| - 1] == "**"
  }

  /**
   * A pattern without `**` whose one extra, last token is a lone `*` also
   * matches a path whose tokens are used up when that path ends with `/`.
   */
  predicate LoneStarAtEnd(patterns: seq<string>, tokens: seq<string>, path: string)
  {
    && "**" !in patterns
    && |patterns| == |tokens| + 1 && patterns[|tokens|] == "*"
    && EndsWithSep(path)
    && forall i :: 0 <= i < |tokens| ==> SimpleMatch(patterns[i], tokens[i])
  }

  /**
   * `AntPathMatcher.match(pattern, path)` for patterns built from literal
   * characters, `*` and `**`: both or neither start with `/`, and either
   * the tokens match and, unless the last pattern token is `**`, the pattern
   * ends with `/` exactly when the path does; or a lone trailing `*` meets a
   * used-up path ending with `/`.
   */
  predicate AntMatch(pattern: string, path: string): (r: bool)
    ensures pattern == path ==> r
  {
    TokensSelf(Tokens(pattern));
    var patterns := Tokens(pattern);
    var tokens := Tokens(path);
    && StartsWithSep(pattern) == StartsWithSep(path)
    && ((TokensMatch(patterns, tokens) && (EndsWithDoubleStar(patterns) || EndsWithSep(pattern) == EndsWithSep(path)))
        || LoneStarAtEnd(patterns, tokens, path))
  }

  /** Every token list matches itself: `**` also matches the token `**`. */
  lemma {:induction false} TokensSelf(ts: seq<string>)
    ensures TokensMatch(ts, ts)
  {
    if ts != [] {
      TokensSelf(ts[1..]);
      SimpleMatchSelf(ts[0]);
      if ts[0] == "**" {
        assert TokensMatch(ts, ts[1..]);
      }
    }
  }

  /** Some pattern of the list matches. */
  predicate AntMatchAny(patterns: seq<string>, path: string)
  {
    exists i :: 0 <= i < |patterns| && AntMatch(patterns[i], path)
  }

  // Facts about token lists used by the configuration.

  lemma {:induction false} DoubleStarMatchesAll(tokens: seq<string>)
    ensures TokensMatch(["**"], tokens)
  {
    if tokens != [] {
      DoubleStarMatchesAll(tokens[1..]);
    }
  }

  /** `[lit, **]` matches exactly the token lists that start with `lit`. */
  lemma LiteralThenDoubleStar(lit: string, tokens: seq<string>)
    requires lit != "**" && NoStar(lit)
    ensures TokensMatch([lit, "**"], tokens) <==> |tokens| >= 1 && tokens[0] == lit
  {
    if tokens != [] {
      SimpleMatchLiteral(lit, tokens[0]);
      DoubleStarMatchesAll(tokens[1..]);
      assert [lit, "**"][1..] == ["**"];
    }
  }

  /** A single non-`**` pattern token matches exactly one path token. */
  lemma SingleToken(p: string, tokens: seq<string>)
    requires p != "**"
    ensures TokensMatch([p], tokens) <==> |tokens| == 1 && SimpleMatch(p, tokens[0])
  {
    if tokens != [] {
      assert [p][1..] == [];
    }
  }

  /** Literal pattern tokens match exactly themselves. */
  lemma {:induction false} LiteralTokens(patterns: seq<string>, tokens: seq<string>)
    requires forall i :: 0 <= i < |patterns| ==> patterns[i] != "**" && NoStar(patterns[i])
    ensures TokensMatch(patterns, tokens) <==> patterns == tokens
  {
    if patterns != [] && tokens != [] {
      SimpleMatchLiteral(patterns[0], tokens[0]);
      LiteralTokens(patterns[1..], tokens[1..]);
      if patterns[0] == tokens[0] && patterns[1..] == tokens[1..] {
        assert patterns == [patterns[0]] + patterns[1..];
        assert tokens == [tokens[0]] + tokens[1..];
      }
    }
  }

  lemma {:induction false} NonEmptyAppend(a: seq<string>, b: seq<string>)
    ensures NonEmpty(a + b) == NonEmpty(a) + NonEmpty(b)
  {
    if a == [] {
      assert a + b == b;
    } else {
      assert (a + b)[0] == a[0] && (a + b)[1..] == a[1..] + b;
      NonEmptyAppend(a[1..], b);
    }
  }

  /** Splitting `/name/rest` yields an empty piece, `name`, and the pieces of `rest`. */
  lemma {:induction false} SplitFirstSegment(name: string, rest: string)
    requires forall i :: 0 <= i < |name| ==> name[i] != '/'
    ensures Split("/" + name + "/" + rest) == ["", name] + Split(rest)
  {
    var s := "/" + name + "/" + rest;
    assert s[1..] == name + "/" + rest;
    SplitWord(name, rest);
  }

  lemma {:induction false} SplitWord(name: string, rest: string)
    requires forall i :: 0 <= i < |name| ==> name[i] != '/'
    ensures Split(name + "/" + rest) == [name] + Split(rest)
  {
    if name == [] {
      assert name + "/" + rest == "/" + rest;
      assert ("/" + rest)[1..] == rest;
    } else {
      var s := name + "/" + rest;
      assert s[0] == name[0] && s[1..] == name[1..] + "/" + rest;
      SplitWord(name[1..], rest);
      assert [name[0]] + name[1..] == name;
    }
  }

  predicate NoSep(s: string)
  {
    forall i :: 0 <= i < |s| ==> s[i] != '/'
  }

  /** A string without `/` is a single piece. */
  lemma {:induction false} SplitNoSep(w: string)
    requires NoSep(w)
    ensures Split(w) == [w]
  {
    if w != [] {
      SplitNoSep(w[1..]);
      assert [w[0]] + w[1..] == w;
    }
  }

  /** `/w` has the one token `w`. */
  lemma OneSegment(w: string)
    requires w != [] && NoSep(w)
    ensures Tokens("/" + w) == [w]
  {
    assert ("/" + w)[1..] == w;
    SplitNoSep(w);
    assert Split("/" + w) == ["", w];
    assert NonEmpty([w]) == [w] + NonEmpty([]);
  }

  /** `/a/b` has the tokens `a` and `b`. */
  lemma TwoSegments(a: string, b: string)
    requires a != [] && NoSep(a) && b != [] && NoSep(b)
    ensures Tokens("/" + a + "/" + b) == [a, b]
  {
    SplitFirstSegment(a, b);
    SplitNoSep(b);
    assert ["", a] + [b] == [""] + [a, b];
    NonEmptyAppend([""], [a, b]);
  }

  /** `/dir/rest` has `dir` as its first token, whatever follows. */
  lemma FirstSegment(dir: string, rest: string)
    requires dir != [] && NoSep(dir)
    ensures var t := Tokens("/" + dir + "/" + rest); |t| >= 1 && t[0] == dir
  {
    SplitFirstSegment(dir, rest);
    NonEmptyAppend(["", dir], Split(rest));
    NonEmptyAppend([""], [dir]);
  }

  /** `*suffix` matches exactly the strings that end with `suffix`. */
  lemma {:induction false} SimpleMatchSuffix(suffix: string, str: string)
    requires NoStar(suffix)
    ensures SimpleMatch("*" + suffix, str) <==> |str| >= |suffix| && str[|str| - |suffix|..] == suffix
  {
    var p := "*" + suffix;
    assert p[1..] == suffix;
    SimpleMatchLiteral(suffix, str);
    if str != [] {
      SimpleMatchSuffix(suffix, str[1..]);
      if |str| > |suffix| {
        assert str[1..][|str[1..]| - |suffix|..] == str[|str| - |suffix|..];
      }
    }
  }

  // The pattern of every path: a leading `/` and a `**` token.
  lemma MatchEverything(path: string)
    ensures AntMatch("/**", path) <==> StartsWithSep(path)
  {
    OneSegment("**");
    DoubleStarMatchesAll(Tokens(path));
  }

  // `/dir/` followed by a `**` token matches the paths whose first token is `dir`.
  lemma MatchUnder(dir: string, path: string)
    requires dir != [] && NoSep(dir) && NoStar(dir) && dir != "**"
    ensures AntMatch("/" + dir + "/**", path) <==> StartsWithSep(path) && |Tokens(path)| >= 1 && Tokens(path)[0] == dir
  {
    assert "/" + dir + "/**" == "/" + dir + "/" + "**";
    TwoSegments(dir, "**");
    assert Tokens("/" + dir + "/**")[1] == "**";
    LiteralThenDoubleStar(dir, Tokens(path));
  }

  /**
   * `/w` with `w` free of `**` matches the one-token paths without a trailing
   * `/` whose token `w` simple-matches, and, when `w` is a lone `*`, also the
   * paths made of separators only.
   */
  lemma MatchOneSegment(w: string, path: string)
    requires w != [] && NoSep(w) && w != "**"
    ensures AntMatch("/" + w, path) <==>
              StartsWithSep(path) &&
              ((!EndsWithSep(path) && |Tokens(path)| == 1 && SimpleMatch(w, Tokens(path)[0]))
               || (w == "*" && EndsWithSep(path) && Tokens(path) == []))
  {
    OneSegment(w);
    SingleToken(w, Tokens(path));
  }

  /** `/a/b` with literal `a` and `b` matches the paths with exactly those tokens and no trailing `/`. */
  lemma MatchTwoSegments(a: string, b: string, path: string)
    requires a != [] && NoSep(a) && NoStar(a) && a != "**"
    requires b != [] && NoSep(b) && NoStar(b) && b != "**"
    ensures AntMatch("/" + a + "/" + b, path) <==> StartsWithSep(path) && !EndsWithSep(path) && Tokens(path) == [a, b]
  {
    TwoSegments(a, b);
    LiteralTokens([a, b], Tokens(path));
    assert ("/" + a + "/" + b)[|"/" + a + "/" + b| - 1] == b[|b| - 1];
  }

  /** `/` matches the paths that start and end with `/` and have no token. */
  lemma MatchRoot(path: string)
    ensures AntMatch("/", path) <==> StartsWithSep(path) && EndsWithSep(path) && Tokens(path) == []
  {
    RootHasNoTokens();
  }

  lemma RootHasNoTokens()
    ensures Tokens("/") == []
  {
    assert Split("/") == ["", ""] by { assert "/"[1..] == ""; }
  }

  lemma {:induction false} NonEmptyKeeps(pieces: seq<string>)
    requires forall i :: 0 <= i < |pieces| ==> pieces[i] != ""
    ensures NonEmpty(pieces) == pieces
  {
    if pieces != [] {
      NonEmptyKeeps(pieces[1..]);
      assert [pieces[0]] + pieces[1..] == pieces;
    }
  }

  /** `/a/b/c` has the tokens `a`, `b` and `c`. */
  lemma ThreeSegments(a: string, b: string, c: string)
    requires a != [] && NoSep(a) && b != [] && NoSep(b) && c != [] && NoSep(c)
    ensures Tokens("/" + a + "/" + b + "/" + c) == [a, b, c]
  {
    assert "/" + a + "/" + b + "/" + c == "/" + a + "/" + (b + "/" + c);
    SplitFirstSegment(a, b + "/" + c);
    SplitWord(b, c);
    SplitNoSep(c);
    assert ["", a] + ([b] + [c]) == [""] + [a, b, c];
    NonEmptyAppend([""], [a, b, c]);
    NonEmptyKeeps([a, b, c]);
  }

  /** `/a/` has the one token `a`. */
  lemma OneSegmentSlash(a: string)
    requires a != [] && NoSep(a)
    ensures Tokens("/" + a + "/") == [a]
  {
    assert "/" + a + "/" == "/" + a + "/" + "";
    SplitFirstSegment(a, "");
    assert ["", a] + [""] == [""] + [a] + [""];
    NonEmptyAppend([""] + [a], [""]);
    NonEmptyAppend([""], [a]);
  }

  /** `/a/b/` has the tokens `a` and `b`. */
  lemma TwoSegmentsSlash(a: string, b: string)
    requires a != [] && NoSep(a) && b != [] && NoSep(b)
    ensures Tokens("/" + a + "/" + b + "/") == [a, b]
  {
    assert "/" + a + "/" + b + "/" == "/" + a + "/" + (b + "/" + "");
    SplitFirstSegment(a, b + "/" + "");
    SplitWord(b, "");
    assert ["", a] + ([b] + [""]) == [""] + [a, b] + [""];
    NonEmptyAppend([""] + [a, b], [""]);
    NonEmptyAppend([""], [a, b]);
    NonEmptyKeeps([a, b]);
  }

  /**
   * A lone trailing `*` token also matches the directory itself when the path
   * ends with a separator (`/css/` for the pattern of `css` followed by a
   * lone star), but not without that separator.
   */
  lemma LoneStarMatchesDirectory(dir: string)
    requires dir != [] && NoSep(dir) && NoStar(dir)
    ensures AntMatch("/" + dir + "/" + "*", "/" + dir + "/")
    ensures !AntMatch("/" + dir + "/" + "*", "/" + dir)
  {
    TwoSegments(dir, "*");
    OneSegmentSlash(dir);
    OneSegment(dir);
    SimpleMatchSelf(dir);
    assert dir != "**" by { assert dir[0] != '*'; }
    var ps := [dir, "*"];
    assert ps[1..] == ["*"];
    assert !TokensMatch(ps[1..], []);
    assert ("/" + dir)[|"/" + dir| - 1] == dir[|dir| - 1];
  }

  /** The root pattern of a lone star matches `/`. */
  lemma LoneStarMatchesRoot()
    ensures AntMatch("/" + "*", "/")
  {
    OneSegment("*");
    RootHasNoTokens();
  }

  /**
   * With `**` between two literal tokens, the last literal still compares
   * the trailing separator: the pattern matches `/a/b` but not `/a/b/`.
   */
  lemma DoubleStarKeepsTrailingCheck(a: string, b: string)
    requires a != [] && NoSep(a) && NoStar(a)
    requires b != [] && NoSep(b) && NoStar(b)
    ensures AntMatch("/" + a + "/" + "**" + "/" + b, "/" + a + "/" + b)
    ensures !AntMatch("/" + a + "/" + "**" + "/" + b, "/" + a + "/" + b + "/")
  {
    ThreeSegments(a, "**", b);
    TwoSegments(a, b);
    TwoSegmentsSlash(a, b);
    assert a != "**" by { assert a[0] != '*'; }
    assert b != "**" by { assert b[0] != '*'; }
    SimpleMatchSelf(a);
    SimpleMatchSelf(b);
    var ps := [a, "**", b];
    assert ps[1..] == ["**", b] && ps[1..][1..] == [b];
    assert TokensMatch([b], [b]) by { assert [b][1..] == []; }
    assert TokensMatch(ps, [a, b]) by { assert [a, b][1..] == [b]; }
    var p := "/" + a + "/" + "**" + "/" + b;
    assert p[|p| - 1] == b[|b| - 1];
    assert ("/" + a + "/" + b)[|"/" + a + "/" + b| - 1] == b[|b| - 1];
  }

  lemma AntMatchAnyCons(patterns: seq<string>, path: string)
    requires patterns != []
    ensures AntMatchAny(patterns, path) <==> AntMatch(patterns[0], path) || AntMatchAny(patterns[1..], path)
  {
    if AntMatchAny(patterns[1..], path) {
      var i :| 0 <= i < |patterns[1..]| && AntMatch(patterns[1..][i], path);
      assert patterns[i + 1] == patterns[1..][i];
    }
    if AntMatchAny(patterns, path) && !AntMatch(patterns[0], path) {
      var i :| 0 <= i < |patterns| && AntMatch(patterns[i], path);
      assert patterns[1..][i - 1] == patterns[i];
    }
  }

  lemma AntMatchAnyThree(a: string, b: string, c: string, path: string)
    ensures AntMatchAny([a, b, c], path) <==> AntMatch(a, path) || AntMatch(b, path) || AntMatch(c, path)
  {
    var ps := [a, b, c];
    if AntMatch(a, path) { assert AntMatch(ps[0], path); }
    if AntMatch(b, path) { assert AntMatch(ps[1], path); }
    if AntMatch(c, path) { assert AntMatch(ps[2], path); }
  }

  lemma AntMatchAnyAppend(a: seq<string>, b: seq<string>, path: string)
    ensures AntMatchAny(a + b, path) <==> AntMatchAny(a, path) || AntMatchAny(b, path)
  {
    var ab := a + b;
    if AntMatchAny(a, path) {
      var i :| 0 <= i < |a| && AntMatch(a[i], path);
      assert ab[i] == a[i];
    }
    if AntMatchAny(b, path) {
      var i :| 0 <= i < |b| && AntMatch(b[i], path);
      assert ab[|a| + i] == b[i];
    }
    if AntMatchAny(ab, path) {
      var i :| 0 <= i < |ab| && AntMatch(ab[i], path);
      if i < |a| {
        assert ab[i] == a[i];
      } else {
        assert ab[i] == b[i - |a|];
      }
    }
  }
}
