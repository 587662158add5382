/**
 * The registration of the two interceptors and the two filters: their
 * order values and the path patterns each of them applies to.
 */
module WebConfig {
  import opened PathMatching
  import LoginCheckFilter

  // Ordering shared by interceptor and filter registrations.

  /** Registrations listed by non-decreasing order value. */
  ghost predicate OrderedBy<K>(rs: seq<K>, order: K -> int)
  {
    forall i, j :: 0 <= i < j < |rs| ==> order(rs[i]) <= order(rs[j])
  }

  lemma OrderedTail<K>(rs: seq<K>, order: K -> int)
    requires rs != [] && OrderedBy(rs, order)
    ensures OrderedBy(rs[1..], order)
  {
    forall i, j | 0 <= i < j < |rs[1..]|
      ensures order(rs[1..][i]) <= order(rs[1..][j])
    {
      assert rs[1..][i] == rs[i + 1] && rs[1..][j] == rs[j + 1];
    }
  }

  lemma OrderedCons<K>(first: K, rest: seq<K>, order: K -> int)
    requires OrderedBy(rest, order)
    requires forall x :: x in rest ==> order(first) <= order(x)
    ensures OrderedBy([first] + rest, order)
  {
    var s := [first] + rest;
    forall i, j | 0 <= i < j < |s|
      ensures order(s[i]) <= order(s[j])
    {
      assert s[j] == rest[j - 1];
      if i > 0 {
        assert s[i] == rest[i - 1];
      }
    }
  }

  /** An element not above the head of an ordered list can go in front of it. */
  lemma InsertFrontOrdered<K>(r: K, sorted: seq<K>, order: K -> int)
    requires sorted != [] && OrderedBy(sorted, order) && order(r) <= order(sorted[0])
    ensures OrderedBy([r] + sorted, order)
  {
    forall x | x in sorted ensures order(r) <= order(x) {
      var k :| 0 <= k < |sorted| && sorted[k] == x;
      if k > 0 {
        assert order(sorted[0]) <= order(sorted[k]);
      }
    }
    OrderedCons(r, sorted, order);
  }

  /** The head of an ordered list stays in front of the ordered insertion into its tail. */
  lemma InsertTailOrdered<K>(r: K, sorted: seq<K>, tail: seq<K>, order: K -> int)
    requires sorted != [] && OrderedBy(sorted, order) && order(sorted[0]) < order(r)
    requires multiset(tail) == multiset(sorted[1..]) + multiset{r} && OrderedBy(tail, order)
    ensures OrderedBy([sorted[0]] + tail, order)
  {
    forall x | x in tail ensures order(sorted[0]) <= order(x) {
      assert x in multiset(tail);
      if x != r {
        assert x in multiset(sorted[1..]);
        var k :| 0 <= k < |sorted[1..]| && sorted[1..][k] == x;
        assert sorted[1..][k] == sorted[k + 1];
      }
    }
    OrderedCons(sorted[0], tail, order);
  }

  /** `r` placed just before the first element whose order value is not lower than its own. */
  function Insert<K>(r: K, sorted: seq<K>, order: K -> int): (result: seq<K>)
    ensures multiset(result) == multiset(sorted) + multiset{r}
    ensures OrderedBy(sorted, order) ==> OrderedBy(result, order)
  {
    if sorted == [] then [r]
    else if order(r) <= order(sorted[0]) then
      assert OrderedBy(sorted, order) ==> OrderedBy([r] + sorted, order) by {
        if OrderedBy(sorted, order) {
          InsertFrontOrdered(r, sorted, order);
        }
      }
      [r] + sorted
    else
      var tail := Insert(r, sorted[1..], order);
      assert sorted == [sorted[0]] + sorted[1..];
      assert OrderedBy(sorted, order) ==> OrderedBy([sorted[0]] + tail, order) by {
        if OrderedBy(sorted, order) {
          OrderedTail(sorted, order);
          InsertTailOrdered(r, sorted, tail, order);
        }
      }
      [sorted[0]] + tail
  }

  /**
   * The registry's ordering of registrations: by order value, lower first;
   * registrations with the same value keep the order they were added in.
   */
  function SortByOrder<K>(rs: seq<K>, order: K -> int): (sorted: seq<K>)
    ensures OrderedBy(sorted, order)
    ensures multiset(sorted) == multiset(rs)
  {
    if rs == [] then []
    else
      assert rs == [rs[0]] + rs[1..];
      Insert(rs[0], SortByOrder(rs[1..], order), order)
  }

  /** A list that is already ordered is left as it is. */
  lemma {:induction false} SortOrdered<K>(rs: seq<K>, order: K -> int)
    requires OrderedBy(rs, order)
    ensures SortByOrder(rs, order) == rs
  {
    if rs != [] {
      OrderedTail(rs, order);
      SortOrdered(rs[1..], order);
      if |rs| > 1 {
        assert order(rs[0]) <= order(rs[1]);
        assert Insert(rs[0], rs[1..], order) == [rs[0]] + rs[1..];
      }
      assert [rs[0]] + rs[1..] == rs;
    }
  }

  // Interceptors (`addInterceptors`).

  datatype Interceptor = LogInterceptor | LoginCheckInterceptor

  /** `addInterceptor(...).order(n).addPathPatterns(...).excludePathPatterns(...)`. */
  datatype InterceptorRegistration =
    InterceptorRegistration(interceptor: Interceptor, order: int, includes: seq<string>, excludes: seq<string>)

  const LogInterceptorRegistration: InterceptorRegistration :=
    InterceptorRegistration(LogInterceptor, 1, ["/**"], ["/css/**", "/*.ico", "/error"])

  const LoginCheckInterceptorRegistration: InterceptorRegistration :=
    InterceptorRegistration(LoginCheckInterceptor, 2, ["/**"],
                            ["/", "/members/add", "/login", "/logout", "/css/**", "/*.ico", "/error"])

  /** The registrations in the order `addInterceptors` adds them. */
  const InterceptorRegistrations: seq<InterceptorRegistration> :=
    [LogInterceptorRegistration, LoginCheckInterceptorRegistration]

  function InterceptorOrder(r: InterceptorRegistration): int
  {
    r.order
  }

  /** An interceptor applies to a path that an include pattern matches and no exclude pattern matches. */
  predicate Applies(r: InterceptorRegistration, path: string): (b: bool)
    ensures (exists i :: 0 <= i < |r.excludes| && r.excludes[i] == path) ==> !b
  {
    AntMatchAny(r.includes, path) && !AntMatchAny(r.excludes, path)
  }

  function ApplyingTo(rs: seq<InterceptorRegistration>, path: string): (chain: seq<Interceptor>)
    ensures |chain| <= |rs|
    ensures forall j :: 0 <= j < |rs| && Applies(rs[j], path) ==> rs[j].interceptor in chain
    ensures forall x :: x in chain ==> exists j :: 0 <= j < |rs| && rs[j].interceptor == x && Applies(rs[j], path)
  {
    if rs == [] then []
    else if Applies(rs[0], path) then [rs[0].interceptor] + ApplyingTo(rs[1..], path)
    else ApplyingTo(rs[1..], path)
  }

  /** The interceptors that run for a request path, first to last. */
  function InterceptorChain(path: string): (chain: seq<Interceptor>)
    ensures LogInterceptor in chain <==> Applies(LogInterceptorRegistration, path)
    ensures LoginCheckInterceptor in chain <==> Applies(LoginCheckInterceptorRegistration, path)
  {
    OrderValuesDecide();
    assert InterceptorRegistrations[0].interceptor == LogInterceptor;
    assert InterceptorRegistrations[1].interceptor == LoginCheckInterceptor;
    ApplyingTo(SortByOrder(InterceptorRegistrations, InterceptorOrder), path)
  }

  /** The order values, not the order of the calls, decide the chain: adding the two the other way round gives the same list. */
  lemma OrderValuesDecide()
    ensures SortByOrder(InterceptorRegistrations, InterceptorOrder) == InterceptorRegistrations
    ensures SortByOrder([LoginCheckInterceptorRegistration, LogInterceptorRegistration], InterceptorOrder) == InterceptorRegistrations
  {
    SortOrdered(InterceptorRegistrations, InterceptorOrder);
    var swapped := [LoginCheckInterceptorRegistration, LogInterceptorRegistration];
    assert swapped[1..] == [LogInterceptorRegistration];
    assert SortByOrder(swapped[1..], InterceptorOrder) == [LogInterceptorRegistration];
  }

  /** Each pattern the logger excludes is one the login check excludes too. */
  lemma ExcludesNested()
    ensures forall i :: 0 <= i < |LogInterceptorRegistration.excludes| ==>
              LogInterceptorRegistration.excludes[i] in LoginCheckInterceptorRegistration.excludes
  {
    assert LogInterceptorRegistration.excludes[0] == LoginCheckInterceptorRegistration.excludes[4];
    assert LogInterceptorRegistration.excludes[1] == LoginCheckInterceptorRegistration.excludes[5];
    assert LogInterceptorRegistration.excludes[2] == LoginCheckInterceptorRegistration.excludes[6];
  }

  /** A path the logger skips is never gated. */
  lemma SkippedByLoggerNeverGated(path: string)
    ensures Applies(LoginCheckInterceptorRegistration, path) ==> Applies(LogInterceptorRegistration, path)
  {
    var log := LogInterceptorRegistration.excludes;
    var login := LoginCheckInterceptorRegistration.excludes;
    if AntMatchAny(log, path) {
      var i :| 0 <= i < |log| && AntMatch(log[i], path);
      ExcludesNested();
      var j :| 0 <= j < |login| && login[j] == log[i];
      assert AntMatch(login[j], path);
    }
  }

  /** Logging runs first: the chain is both interceptors in that order, the logger alone, or nothing. */
  lemma ChainShape(path: string)
    ensures Applies(LoginCheckInterceptorRegistration, path) ==> InterceptorChain(path) == [LogInterceptor, LoginCheckInterceptor]
    ensures Applies(LogInterceptorRegistration, path) && !Applies(LoginCheckInterceptorRegistration, path) ==>
              InterceptorChain(path) == [LogInterceptor]
    ensures !Applies(LogInterceptorRegistration, path) ==> InterceptorChain(path) == []
  {
    OrderValuesDecide();
    SkippedByLoggerNeverGated(path);
    BothInterceptorsApplying(path);
  }

  lemma BothInterceptorsApplying(path: string)
    ensures ApplyingTo(InterceptorRegistrations, path) ==
              (if Applies(LogInterceptorRegistration, path) then [LogInterceptor] else []) +
              (if Applies(LoginCheckInterceptorRegistration, path) then [LoginCheckInterceptor] else [])
  {
    var rs := InterceptorRegistrations;
    assert rs[1..] == [LoginCheckInterceptorRegistration];
    assert rs[1..][1..] == [];
    assert ApplyingTo(rs[1..], path) == if Applies(LoginCheckInterceptorRegistration, path) then [LoginCheckInterceptor] else [];
  }

  // The paths each exclude list covers.

  /** Separators and no token, as `/`. */
  predicate IsRoot(path: string)
  {
    StartsWithSep(path) && EndsWithSep(path) && Tokens(path) == []
  }

  /** Exactly these tokens, with a leading and no trailing `/`. */
  predicate IsExactly(path: string, tokens: seq<string>)
  {
    StartsWithSep(path) && !EndsWithSep(path) && Tokens(path) == tokens
  }

  /** Anything whose first token is `dir`, `dir` itself included. */
  predicate IsUnder(path: string, dir: string)
  {
    StartsWithSep(path) && |Tokens(path)| >= 1 && Tokens(path)[0] == dir
  }

  /** One token ending in `.ico`. */
  predicate IsIcoFile(path: string)
  {
    && StartsWithSep(path) && !EndsWithSep(path) && |Tokens(path)| == 1
    && |Tokens(path)[0]| >= 4 && Tokens(path)[0][|Tokens(path)[0]| - 4..] == ".ico"
  }

  lemma MatchesWord(w: string, path: string)
    requires w != [] && NoSep(w) && NoStar(w) && w != "**"
    ensures AntMatch("/" + w, path) <==> IsExactly(path, [w])
  {
    MatchOneSegment(w, path);
    assert w != "*" by { assert w[0] != '*'; }
    if |Tokens(path)| == 1 {
      SimpleMatchLiteral(w, Tokens(path)[0]);
    }
  }

  lemma MatchesIco(path: string)
    ensures AntMatch("/*.ico", path) <==> IsIcoFile(path)
  {
    assert "/*.ico" == "/" + "*.ico";
    MatchOneSegment("*.ico", path);
    if |Tokens(path)| == 1 {
      assert "*.ico" == "*" + ".ico";
      SimpleMatchSuffix(".ico", Tokens(path)[0]);
    }
  }

  lemma MatchesCss(path: string)
    ensures AntMatch("/css/**", path) <==> IsUnder(path, "css")
  {
    assert "/css/**" == "/" + "css" + "/**";
    MatchUnder("css", path);
  }

  lemma IncludesEverything(r: InterceptorRegistration, path: string)
    requires r.includes == ["/**"]
    ensures AntMatchAny(r.includes, path) <==> StartsWithSep(path)
  {
    AntMatchAnyCons(r.includes, path);
    assert r.includes[1..] == [];
    MatchEverything(path);
  }

  /** The one-word patterns of the configuration match exactly their own one-token path. */
  lemma MatchesSingleWordPages(path: string)
    ensures AntMatch("/error", path) <==> IsExactly(path, ["error"])
    ensures AntMatch("/login", path) <==> IsExactly(path, ["login"])
    ensures AntMatch("/logout", path) <==> IsExactly(path, ["logout"])
  {
    assert "/error" == "/" + "error";
    MatchesWord("error", path);
    assert "/login" == "/" + "login";
    MatchesWord("login", path);
    assert "/logout" == "/" + "logout";
    MatchesWord("logout", path);
  }

  /** The logger skips stylesheets, `.ico` files and `/error`. */
  lemma LogExcluded(path: string)
    ensures AntMatchAny(LogInterceptorRegistration.excludes, path) <==>
              IsUnder(path, "css") || IsIcoFile(path) || IsExactly(path, ["error"])
  {
    AntMatchAnyThree("/css/**", "/*.ico", "/error", path);
    MatchesCss(path);
    MatchesIco(path);
    MatchesSingleWordPages(path);
  }

  lemma MatchesRoot(path: string)
    ensures AntMatch("/", path) <==> IsRoot(path)
  {
    MatchRoot(path);
  }

  lemma MatchesMembersAdd(path: string)
    ensures AntMatch("/members/add", path) <==> IsExactly(path, ["members", "add"])
  {
    assert "/members/add" == "/" + "members" + "/" + "add";
    MatchTwoSegments("members", "add", path);
  }

  lemma PublicPagesExcluded(path: string)
    ensures AntMatchAny(["/", "/members/add", "/login", "/logout"], path) <==>
              IsRoot(path) || IsExactly(path, ["members", "add"]) || IsExactly(path, ["login"]) || IsExactly(path, ["logout"])
  {
    var ps := ["/", "/members/add", "/login", "/logout"];
    AntMatchAnyCons(ps, path);
    assert ps[1..] == ["/members/add", "/login", "/logout"];
    AntMatchAnyThree("/members/add", "/login", "/logout", path);
    MatchesRoot(path);
    MatchesMembersAdd(path);
    MatchesSingleWordPages(path);
  }

  /** The login check skips the public pages as well as everything the logger skips. */
  lemma LoginCheckExcluded(path: string)
    ensures AntMatchAny(LoginCheckInterceptorRegistration.excludes, path) <==>
              || IsRoot(path) || IsExactly(path, ["members", "add"]) || IsExactly(path, ["login"]) || IsExactly(path, ["logout"])
              || IsUnder(path, "css") || IsIcoFile(path) || IsExactly(path, ["error"])
  {
    var pages := ["/", "/members/add", "/login", "/logout"];
    assert LoginCheckInterceptorRegistration.excludes == pages + LogInterceptorRegistration.excludes;
    AntMatchAnyAppend(pages, LogInterceptorRegistration.excludes, path);
    PublicPagesExcluded(path);
    LogExcluded(path);
  }

  /** The logger runs on every path starting with `/` except stylesheets, `.ico` files and `/error`. */
  lemma LogAppliesExactly(path: string)
    ensures Applies(LogInterceptorRegistration, path) <==>
              StartsWithSep(path) && !(IsUnder(path, "css") || IsIcoFile(path) || IsExactly(path, ["error"]))
  {
    IncludesEverything(LogInterceptorRegistration, path);
    LogExcluded(path);
  }

  /** The login check runs on every path starting with `/` except the public pages and what the logger skips. */
  lemma LoginCheckAppliesExactly(path: string)
    ensures Applies(LoginCheckInterceptorRegistration, path) <==>
              && StartsWithSep(path)
              && !(|| IsRoot(path) || IsExactly(path, ["members", "add"]) || IsExactly(path, ["login"]) || IsExactly(path, ["logout"])
                   || IsUnder(path, "css") || IsIcoFile(path) || IsExactly(path, ["error"]))
  {
    IncludesEverything(LoginCheckInterceptorRegistration, path);
    LoginCheckExcluded(path);
  }

  lemma WordMatchesItself(w: string)
    requires w != [] && NoSep(w) && NoStar(w) && w != "**"
    ensures AntMatch("/" + w, "/" + w)
  {
    OneSegment(w);
    MatchesWord(w, "/" + w);
  }

  lemma TwoWordsMatchThemselves(a: string, b: string)
    requires a != [] && NoSep(a) && NoStar(a) && a != "**"
    requires b != [] && NoSep(b) && NoStar(b) && b != "**"
    ensures AntMatch("/" + a + "/" + b, "/" + a + "/" + b)
  {
    TwoSegments(a, b);
    MatchTwoSegments(a, b, "/" + a + "/" + b);
    assert ("/" + a + "/" + b)[|"/" + a + "/" + b| - 1] == b[|b| - 1];
  }

  lemma ExcludedBy(i: nat, uri: string)
    requires i < |LoginCheckInterceptorRegistration.excludes| && AntMatch(LoginCheckInterceptorRegistration.excludes[i], uri)
    ensures AntMatchAny(LoginCheckInterceptorRegistration.excludes, uri)
  {
  }

  lemma RootExcluded()
    ensures AntMatchAny(LoginCheckInterceptorRegistration.excludes, "/")
  {
    RootHasNoTokens();
    MatchesRoot("/");
    ExcludedBy(0, "/");
  }

  lemma MembersAddExcluded()
    ensures AntMatchAny(LoginCheckInterceptorRegistration.excludes, "/members/add")
  {
    TwoWordsMatchThemselves("members", "add");
    assert "/members/add" == "/" + "members" + "/" + "add";
    ExcludedBy(1, "/members/add");
  }

  lemma LoginPageExcluded()
    ensures AntMatchAny(LoginCheckInterceptorRegistration.excludes, "/login")
  {
    WordMatchesItself("login");
    assert "/login" == "/" + "login";
    ExcludedBy(2, "/login");
  }

  lemma LogoutPageExcluded()
    ensures AntMatchAny(LoginCheckInterceptorRegistration.excludes, "/logout")
  {
    WordMatchesItself("logout");
    assert "/logout" == "/" + "logout";
    ExcludedBy(3, "/logout");
  }

  lemma StylesheetExcluded(rest: string)
    ensures AntMatchAny(LoginCheckInterceptorRegistration.excludes, "/css/" + rest)
  {
    LoginCheckExcluded("/css/" + rest);
    assert "/css/" + rest == "/" + "css" + "/" + rest;
    FirstSegment("css", rest);
  }

  /** Everything the login filter's whitelist lets through is excluded from the login interceptor too. */
  lemma FilterWhitelistExcludedFromInterceptor(uri: string)
    requires !LoginCheckFilter.IsLoginCheckPath(uri)
    ensures !Applies(LoginCheckInterceptorRegistration, uri)
  {
    LoginCheckFilter.WhitelistedPaths(uri);
    if uri == "/" {
      RootExcluded();
    } else if uri == "/members/add" {
      MembersAddExcluded();
    } else if uri == "/login" {
      LoginPageExcluded();
    } else if uri == "/logout" {
      LogoutPageExcluded();
    } else {
      assert uri == "/css/" + uri[5..];
      StylesheetExcluded(uri[5..]);
    }
  }

  /** The filter gates `/error`, and the interceptor does not. */
  lemma GatesDifferOnError()
    ensures LoginCheckFilter.IsLoginCheckPath("/error") && !Applies(LoginCheckInterceptorRegistration, "/error")
  {
    assert LoginCheckFilter.IsLoginCheckPath("/error") by {
      LoginCheckFilter.WhitelistedPaths("/error");
    }
    assert AntMatchAny(LoginCheckInterceptorRegistration.excludes, "/error") by {
      assert "/error" == "/" + "error";
      OneSegment("error");
      LoginCheckExcluded("/error");
    }
  }

  /** The filter gates every top-level `.ico` file, and the interceptor gates none. */
  lemma GatesDifferOnIcons(name: string)
    requires NoSep(name) && |name| >= 4 && name[|name| - 4..] == ".ico"
    ensures LoginCheckFilter.IsLoginCheckPath("/" + name) && !Applies(LoginCheckInterceptorRegistration, "/" + name)
  {
    var uri := "/" + name;
    assert LoginCheckFilter.IsLoginCheckPath(uri) by {
      LoginCheckFilter.WhitelistedPaths(uri);
      assert uri[|uri| - 1] == 'o';
      if |uri| >= 5 {
        assert uri[4] == name[3];
      }
    }
    assert AntMatchAny(LoginCheckInterceptorRegistration.excludes, uri) by {
      OneSegment(name);
      LoginCheckExcluded(uri);
      assert uri[|uri| - 1] == name[|name| - 1];
    }
  }

  /** Example of `ChainShape` on a protected page: `/items` passes through both interceptors. */
  lemma ProtectedPageChain()
    ensures InterceptorChain("/items") == [LogInterceptor, LoginCheckInterceptor]
  {
    assert "/items" == "/" + "items";
    OneSegment("items");
    LoginCheckAppliesExactly("/items");
    ChainShape("/items");
  }

  /** Example of `ChainShape` on a public page: `/login` is logged but not gated. */
  lemma LoginPageChain()
    ensures InterceptorChain("/login") == [LogInterceptor]
  {
    assert "/login" == "/" + "login";
    OneSegment("login");
    LoginCheckAppliesExactly("/login");
    LogAppliesExactly("/login");
    ChainShape("/login");
  }

  /** Example of `ChainShape` on an excluded path: a stylesheet reaches neither interceptor. */
  lemma StylesheetChain()
    ensures InterceptorChain("/css/site.css") == []
  {
    assert "/css/site.css" == "/" + "css" + "/" + "site.css";
    FirstSegment("css", "site.css");
    LogAppliesExactly("/css/site.css");
    ChainShape("/css/site.css");
  }

  // Filters (`logFilter`, `loginCheckFilter`).

  datatype Filter = LogFilter | LoginCheckFilter

  /** `FilterRegistrationBean` with `setFilter`, `setOrder` and `addUrlPatterns`. */
  datatype FilterRegistration = FilterRegistration(filter: Filter, order: int, urlPatterns: seq<string>)

  const LogFilterRegistration: FilterRegistration := FilterRegistration(LogFilter, 1, ["/*"])
  const LoginCheckFilterRegistration: FilterRegistration := FilterRegistration(LoginCheckFilter, 2, ["/*"])

  function FilterOrder(r: FilterRegistration): int
  {
    r.order
  }

  // A servlet URL pattern: a prefix followed by `/` and `*` matches the
  // prefix and everything below it, `*.ext` matches by extension, anything
  // else matches exactly.
  predicate UrlPatternMatch(pattern: string, path: string): (r: bool)
    ensures pattern == path ==> r
  {
    if |pattern| >= 2 && pattern[|pattern| - 2..] == ['/', '*'] then
      var prefix := pattern[..|pattern| - 2];
      path == prefix || (|path| > |prefix| && path[..|prefix| + 1] == prefix + ['/'])
    else if |pattern| >= 2 && pattern[..2] == ['*', '.'] then
      |path| >= |pattern| - 1 && path[|path| - (|pattern| - 1)..] == pattern[1..]
    else
      path == pattern
  }

  predicate FilterApplies(r: FilterRegistration, path: string)
  {
    exists i :: 0 <= i < |r.urlPatterns| && UrlPatternMatch(r.urlPatterns[i], path)
  }

  function FiltersApplyingTo(rs: seq<FilterRegistration>, path: string): (chain: seq<Filter>)
    ensures |chain| <= |rs|
    ensures forall j :: 0 <= j < |rs| && FilterApplies(rs[j], path) ==> rs[j].filter in chain
    ensures forall x :: x in chain ==> exists j :: 0 <= j < |rs| && rs[j].filter == x && FilterApplies(rs[j], path)
  {
    if rs == [] then []
    else if FilterApplies(rs[0], path) then [rs[0].filter] + FiltersApplyingTo(rs[1..], path)
    else FiltersApplyingTo(rs[1..], path)
  }

  /** The filters a request path passes through, first to last, with both registrations active. */
  function FilterChain(path: string): (chain: seq<Filter>)
    ensures LogFilter in chain <==> FilterApplies(LogFilterRegistration, path)
    ensures LoginCheckFilter in chain <==> FilterApplies(LoginCheckFilterRegistration, path)
  {
    SortOrdered([LogFilterRegistration, LoginCheckFilterRegistration], FilterOrder);
    FiltersApplyingTo(SortByOrder([LogFilterRegistration, LoginCheckFilterRegistration], FilterOrder), path)
  }

  /** The pattern of both filters covers every request URI. */
  lemma CatchAllPattern(path: string)
    requires StartsWithSep(path)
    ensures UrlPatternMatch(LogFilterRegistration.urlPatterns[0], path)
    ensures FilterApplies(LogFilterRegistration, path) && FilterApplies(LoginCheckFilterRegistration, path)
  {
    var all := LogFilterRegistration.urlPatterns[0];
    assert all == ['/', '*'];
    assert all[|all| - 2..] == ['/', '*'];
    assert all[..|all| - 2] == [];
    assert path[..1] == [] + ['/'];
    assert LoginCheckFilterRegistration.urlPatterns[0] == all;
  }

  /** Both filters run on every request URI, the log filter first. */
  lemma FilterChainAlways(path: string)
    requires StartsWithSep(path)
    ensures FilterChain(path) == [LogFilter, LoginCheckFilter]
  {
    SortOrdered([LogFilterRegistration, LoginCheckFilterRegistration], FilterOrder);
    CatchAllPattern(path);
    BothFiltersApply(path);
  }

  lemma BothFiltersApply(path: string)
    requires FilterApplies(LogFilterRegistration, path) && FilterApplies(LoginCheckFilterRegistration, path)
    ensures FiltersApplyingTo([LogFilterRegistration, LoginCheckFilterRegistration], path) == [LogFilter, LoginCheckFilter]
  {
    var rs := [LogFilterRegistration, LoginCheckFilterRegistration];
    assert rs[1..] == [LoginCheckFilterRegistration];
    assert rs[1..][1..] == [];
    assert FiltersApplyingTo(rs[1..], path) == [LoginCheckFilter];
  }
}
