# Session login for a Spring MVC demo, modelled in Dafny

The application is a small shop back office with member sign-up and log-in.
This project models its session-authentication core:

- the in-memory member repository (`MemberRepository`) and the credential check (`LoginService`);
- the hand-written session store (`SessionManager`), keyed by an unguessable token carried in the `mySessionId` cookie;
- the four login/logout versions of `LoginController`:
  - a `memberId` cookie;
  - the hand-written store;
  - the container session, redirecting home;
  - the container session, redirecting to `redirectURL`;
- the two login gates:
  - the servlet filter `LoginCheckFilter` with its whitelist;
  - the Spring interceptor `LoginCheckInterceptor` with the include/exclude patterns that `WebConfig` registers;
- the `@Login` argument resolver and the `HomeController` versions that choose between the `home` and `loginHome` views;
- the two logging stages, `LogFilter` and `LogInterceptor`.

Modelling choices:

- Objects whose fields the program updates are classes with `modifies` frames: the repository, the session store, the servlet request/response and a trace of log lines.
- What only computes is a function. This covers path classification, gate decisions, credential checks and home-page selection.
- Each handler method is proved against the functions that specify it.
- The lemmas relate the versions to one another:
  - the two gates;
  - the three container-session home pages;
  - login followed by the home page, then logout followed by the home page.

The files follow the program's packages:

| file | models |
|---|---|
| `wrappers.dfy` | `Option` (Java `null` / `Optional`) |
| `members.dfy` | `Member`, `MemberRepository` |
| `login_service.dfy` | `LoginService` |
| `test_data.dfy` | `TestDataInit` |
| `numerals.dfy` | `String.valueOf(long)` and the `Long` conversion of `@CookieValue` |
| `http.dfy` | the servlet API pieces used: cookies, request, container session, response, log trace |
| `session.dfy` | `SessionManager` |
| `path_matching.dfy` | `PatternMatchUtils.simpleMatch` and the Ant-style matching of `AntPathMatcher` |
| `login_check_filter.dfy` | `LoginCheckFilter` |
| `login_check_interceptor.dfy` | `LoginCheckInterceptor` |
| `web_config.dfy` | `WebConfig`: interceptor and filter registrations, their order and path rules |
| `log_filter.dfy`, `log_interceptor.dfy` | `LogFilter`, `LogInterceptor` |
| `login_controller.dfy` | `LoginController` |
| `argument_resolver.dfy` | `LoginMemberArgumentResolver` |
| `home_controller.dfy` | `HomeController` |
| `login_flows.dfy` | login, home page and logout composed end to end |

Both gates append the request URI to `redirectURL` verbatim, without URL-encoding it (LoginCheckFilter.java:59, LoginCheckInterceptor.java:46). `Http.LoginRedirectLocation` models that form, and `LoginController.ReturnToRequestedPage` states the round trip for paths that need no encoding.

## Model

| member | source | states |
|---|---|---|
| Members.MemberRepository.Save | src/main/java/hello/login/domain/member/MemberRepository.java:17-24 | the counter goes up by one; the member comes back with that new id; the id was not in use before; the store gains exactly that entry; `findById` of the new id returns it; the repository invariant (keys are ids in 1..sequence) is kept |
| Members.SaveTwice | src/main/java/hello/login/domain/member/MemberRepository.java:17-24 | two successive saves hand out strictly increasing, distinct ids; both are found by id; the store gains exactly those two entries |
| Members.MemberRepository.FindById | src/main/java/hello/login/domain/member/MemberRepository.java:27-30 | a member is found exactly when the id is a key; it then carries that id; an id outside 1..sequence (never assigned) is not found |
| Members.MemberRepository.FindAll | src/main/java/hello/login/domain/member/MemberRepository.java:68-72 | the list holds exactly the stored members, each once, in ascending id order; it is a value, so changing it cannot change the store |
| Members.ValuesUpTo | src/main/java/hello/login/domain/member/MemberRepository.java:68-72 | the members stored under ids 1..n, strictly ascending by id, each taken from the store under its own id, none missing |
| Members.FirstWithLoginId | src/main/java/hello/login/domain/member/MemberRepository.java:62-64 | empty exactly when no element has the login id; otherwise an element with that login id that no earlier element shares |
| Members.FirstIsMinimal | src/main/java/hello/login/domain/member/MemberRepository.java:62-64 | in a list sorted by id, the first member with a login id has the smallest id among those with that login id |
| Members.FirstHasSmallestId | src/main/java/hello/login/domain/member/MemberRepository.java:60-72 | the first match over the id-ordered store has the smallest id of all stored members with that login id |
| Members.MemberRepository.FindByLoginId | src/main/java/hello/login/domain/member/MemberRepository.java:60-65 | a found member is stored and has the login id; empty exactly when no stored member has it; the one found has the smallest such id |
| Members.MemberRepository.ClearStore | src/main/java/hello/login/domain/member/MemberRepository.java:74-76 | the store is empty afterwards, no id is found, and the counter keeps its value, so later ids do not restart |
| Members.MemberRepository.constructor | src/main/java/hello/login/domain/member/MemberRepository.java:13-14 | an empty store with the counter at 0, satisfying the invariant |
| LoginService.Login | src/main/java/hello/login/domain/login/LoginService.java:22-38 | a returned member is stored with that login id and password; nothing is returned when no member has the login id, or when the member `findByLoginId` picks has another password; that member is returned when its password matches; with unique login ids, in addition, a member is returned exactly when a stored member has both; reading only, it cannot change the repository |
| TestData.Init | src/main/java/hello/login/TestDataInit.java:24-37 | the seeded repository holds exactly the test member under id 1, with the counter at 1 |
| TestData.SeededLogin | src/main/java/hello/login/TestDataInit.java:30-35 | with the seed data, ("test", "test!") logs the test member in and ("test", "wrong") is refused |
| TestData.SeedScenario | src/main/java/hello/login/TestDataInit.java:30-35 | seeding then logging in gives the member with id 1 for the right password and nothing for a wrong one |
| Numerals.Digits | src/main/java/hello/login/web/login/LoginController.java:78 | at least one character, all of them decimal digits |
| Numerals.DecimalString | src/main/java/hello/login/web/login/LoginController.java:78 | at least one character; it starts with `-` exactly for a negative value, otherwise with a digit; every later character is a digit |
| Numerals.ParseLong | src/main/java/hello/login/web/HomeController.java:36 | the text after an optional sign must be a non-empty run of digits, otherwise the conversion fails; for such text it succeeds exactly when the signed value fits in a `long`, and then yields that signed value |
| Numerals.LeadingZero | src/main/java/hello/login/web/HomeController.java:36 | a leading zero leaves a digit string's value unchanged |
| Numerals.ParseNonCanonical | src/main/java/hello/login/web/HomeController.java:36 | text with a plus sign or a leading zero converts to the same value as the canonical digits |
| Numerals.DigitsValueOfDigits | src/main/java/hello/login/web/login/LoginController.java:78 | reading back the digits of a natural number gives that number |
| Numerals.ParseDecimalString | src/main/java/hello/login/web/login/LoginController.java:78 | converting the decimal text of a `long` back to `Long` gives the same value |
| LoginController.IdCookieRoundTrip | src/main/java/hello/login/web/login/LoginController.java:78-80 | the `memberId` cookie value written for a saved member's id converts back to that id |
| LoginController.IdCookieValue | src/main/java/hello/login/web/login/LoginController.java:78 | the text is `null` exactly for a member without an id, so no id is written as `null` |
| Session.FirstNamed | src/main/java/hello/login/web/session/SessionManager.java:126-129 | empty exactly when no cookie has the name; otherwise a cookie with that name, with no earlier cookie of that name |
| Session.FindCookie | src/main/java/hello/login/web/session/SessionManager.java:115-130 | nothing when the request has no cookies; otherwise nothing exactly when no cookie has the name; a found cookie is one of the request's and has the name |
| Session.SessionToken | src/main/java/hello/login/web/session/SessionManager.java:90-98 | a token is presented only by a request cookie named `mySessionId` carrying it; a request with cookies none of which has that name presents none |
| Session.SessionIssued | src/main/java/hello/login/web/session/SessionManager.java:71-81 | an issued session adds exactly one key to the store, keeps every earlier key and its value |
| Session.FreshTokenExists | src/main/java/hello/login/web/session/SessionManager.java:74 | some token is not yet a key of the store, so a fresh one can always be chosen |
| Session.LengthBound | src/main/java/hello/login/web/session/SessionManager.java:74 | every key of a finite set of strings is shorter than the returned bound |
| Session.SessionManager.constructor | src/main/java/hello/login/web/session/SessionManager.java:62 | the store starts empty |
| Session.SessionManager.CreateSession | src/main/java/hello/login/web/session/SessionManager.java:71-81 | exactly one cookie is added, named `mySessionId`, with the default max-age; its value is a token not in the store before, and only that token; the store gains exactly the entry from that token to the value; every earlier entry is unchanged |
| Session.SessionManager.GetSession | src/main/java/hello/login/web/session/SessionManager.java:87-99 | nothing without a `mySessionId` cookie or for a token not in the store; a returned value is the one stored under the request's token |
| Session.SessionManager.Expire | src/main/java/hello/login/web/session/SessionManager.java:104-112 | only the request's token is removed; without a session cookie, or for a token already gone, the store is unchanged, so expiring twice is the same as once; afterwards `getSession` finds nothing |
| Session.RoundTrip | src/test/java/hello/login/web/session/SessionManagerTest.java:18-47 | for a manager in any state, a request carrying the cookie from `createSession(v)` gets `v` back, nothing after `expire`, and the store ends as it began |
| PathMatching.SimpleMatchLiteral | src/main/java/hello/login/web/filter/LoginCheckFilter.java:86-91 | a whitelist pattern without `*` matches exactly itself, so `/` matches only `/` |
| PathMatching.SimpleMatchPrefix | src/main/java/hello/login/web/filter/LoginCheckFilter.java:21 | `prefix*` matches exactly the strings that start with the prefix, `/` included |
| PathMatching.SimpleMatchSuffix | src/main/java/hello/login/WebConfig.java:46 | `*suffix` matches exactly the strings that end with the suffix |
| PathMatching.MatchEverything | src/main/java/hello/login/WebConfig.java:44 | `/**` matches exactly the paths that start with `/` |
| PathMatching.MatchUnder | src/main/java/hello/login/WebConfig.java:46 | `/dir/**` matches exactly the paths whose first token is `dir` |
| PathMatching.MatchOneSegment | src/main/java/hello/login/WebConfig.java:46 | `/w` matches exactly the one-token paths, with no trailing `/`, whose token simple-matches `w`; when `w` is a lone `*`, also the paths made of separators only |
| PathMatching.MatchTwoSegments | src/main/java/hello/login/WebConfig.java:52 | a literal `/a/b` matches exactly the paths with the tokens `a`, `b` and no trailing `/` |
| PathMatching.MatchRoot | src/main/java/hello/login/WebConfig.java:52 | `/` matches exactly the paths made of separators only |
| PathMatching.SimpleMatch | src/main/java/hello/login/web/filter/LoginCheckFilter.java:90 | a pattern without `*` matches only strings of its own length |
| PathMatching.SimpleMatchAny | src/main/java/hello/login/web/filter/LoginCheckFilter.java:90 | no pattern list matches nothing; a string listed among the patterns always matches |
| PathMatching.SimpleMatchSelf | src/main/java/hello/login/web/filter/LoginCheckFilter.java:21 | every pattern matches its own text |
| PathMatching.AntMatch | src/main/java/hello/login/WebConfig.java:44-53 | every pattern matches its own text |
| PathMatching.LoneStarMatchesDirectory | src/main/java/hello/login/WebConfig.java:44-53 | `/dir/` followed by a lone `*` matches `/dir/` but not `/dir` |
| PathMatching.LoneStarMatchesRoot | src/main/java/hello/login/WebConfig.java:44-53 | `/` followed by a lone `*` matches `/` |
| PathMatching.DoubleStarKeepsTrailingCheck | src/main/java/hello/login/WebConfig.java:44-53 | `/a/**/b` matches `/a/b` but not `/a/b/`: a last literal token after `**` still compares the trailing `/` |
| PathMatching.ThreeSegments | src/main/java/hello/login/WebConfig.java:44-53 | `/a/b/c` has exactly the tokens `a`, `b` and `c` |
| PathMatching.TokensSelf | src/main/java/hello/login/WebConfig.java:44-53 | every token list matches itself, `**` included |
| LoginCheckFilter.WhitelistedPaths | src/main/java/hello/login/web/filter/LoginCheckFilter.java:21 | a path is exempt from the check exactly when it is `/`, `/members/add`, `/login`, `/logout`, or starts with `/css/` |
| LoginCheckFilter.IsLoginCheckPath | src/main/java/hello/login/web/filter/LoginCheckFilter.java:86-91 | a URI listed in the whitelist is never a check path |
| LoginCheckFilter.Decide | src/main/java/hello/login/web/filter/LoginCheckFilter.java:38-66 | whitelisted exactly when the path is not a check path; passes exactly when it is one and the session holds a logged-in member; rejected exactly when it is one and no member is held, the redirect carrying the URI |
| LoginCheckFilter.WhitelistTransparency | src/main/java/hello/login/web/filter/LoginCheckFilter.java:38-69 | whitelisted paths pass whatever the session holds, even with no session |
| LoginCheckFilter.GateEnforcement | src/main/java/hello/login/web/filter/LoginCheckFilter.java:47-64 | example: `/items` requested without a logged-in member is sent to `/login?redirectURL=/items` |
| LoginCheckFilter.DoFilter | src/main/java/hello/login/web/filter/LoginCheckFilter.java:25-81 | the start and end lines are logged in every case; the session is neither created nor changed; a rejected request is redirected and the chain is not called; otherwise the chain is called once, no redirect is sent, and its outcome, a thrown exception included, is passed on unchanged |
| LoginCheckInterceptor.PreHandle | src/main/java/hello/login/web/interceptor/LoginCheckInterceptor.java:23-56 | the handler runs exactly when the session holds a logged-in member; otherwise the redirect to the login form carries the URI verbatim; a missing session is created empty (`getSession()`), an existing one is kept |
| LoginCheckInterceptor.RefusedTwice | src/main/java/hello/login/web/interceptor/LoginCheckInterceptor.java:31-52 | a request without a session is refused, and still refused when asked again with the session it was given |
| Http.LoggedInMember | src/main/java/hello/login/web/filter/LoginCheckFilter.java:44-47 | a member exactly when there is a session holding `loginMember`, and then that attribute |
| Http.LoginRedirectLocation | src/main/java/hello/login/web/interceptor/LoginCheckInterceptor.java:46 | the location is `/login?redirectURL=` followed by the request URI, unencoded |
| WebConfig.Insert | src/main/java/hello/login/WebConfig.java:38-50 | inserting a registration keeps the same elements plus one, and keeps an order-sorted list sorted |
| WebConfig.SortByOrder | src/main/java/hello/login/WebConfig.java:38-50 | the registrations sorted by order value: sorted, and a permutation of the input |
| WebConfig.SortOrdered | src/main/java/hello/login/WebConfig.java:38-50 | a list already sorted stays as it is, so registrations with equal order values keep their registration order |
| WebConfig.Applies | src/main/java/hello/login/WebConfig.java:44-53 | a path listed among a registration's excludes never gets that interceptor |
| WebConfig.ApplyingTo | src/main/java/hello/login/WebConfig.java:33-54 | at most one interceptor per registration; every applying registration's interceptor is in the chain, and only those |
| WebConfig.InterceptorChain | src/main/java/hello/login/WebConfig.java:33-54 | the log interceptor is in the chain exactly when its registration applies, and the login interceptor likewise |
| WebConfig.OrderValuesDecide | src/main/java/hello/login/WebConfig.java:33-54 | the order values decide the chain: the registrations as written are already sorted, and registering them the other way round gives the same list |
| WebConfig.ExcludesNested | src/main/java/hello/login/WebConfig.java:46-53 | every pattern the logger excludes is also excluded from the login check |
| WebConfig.SkippedByLoggerNeverGated | src/main/java/hello/login/WebConfig.java:44-53 | a path the login check applies to is also logged |
| WebConfig.ChainShape | src/main/java/hello/login/WebConfig.java:33-54 | the chain for any path is both interceptors, logger first; or the logger alone; or nothing |
| WebConfig.LogExcluded | src/main/java/hello/login/WebConfig.java:46 | the logger's excludes match exactly the paths under `css`, the one-token `.ico` paths and `/error` |
| WebConfig.LogAppliesExactly | src/main/java/hello/login/WebConfig.java:44-46 | the logger applies exactly to the paths starting with `/` that it does not exclude |
| WebConfig.PublicPagesExcluded | src/main/java/hello/login/WebConfig.java:52 | the four public patterns match exactly the root, `/members/add`, `/login` and `/logout` |
| WebConfig.LoginCheckExcluded | src/main/java/hello/login/WebConfig.java:52-53 | the login check's excludes match exactly the public pages plus what the logger excludes |
| WebConfig.LoginCheckAppliesExactly | src/main/java/hello/login/WebConfig.java:51-53 | the login check applies exactly to the paths starting with `/` that are neither public pages nor excluded from logging |
| WebConfig.FilterWhitelistExcludedFromInterceptor | src/main/java/hello/login/web/filter/LoginCheckFilter.java:21 | every path the filter's whitelist lets through is excluded from the login interceptor too |
| WebConfig.GatesDifferOnError | src/main/java/hello/login/WebConfig.java:52-53 | `/error` is gated by the filter but not by the interceptor |
| WebConfig.GatesDifferOnIcons | src/main/java/hello/login/WebConfig.java:53 | every top-level `.ico` file is gated by the filter but not by the interceptor |
| WebConfig.ProtectedPageChain | src/main/java/hello/login/WebConfig.java:33-54 | example: `/items` passes through the logger, then the login check |
| WebConfig.LoginPageChain | src/main/java/hello/login/WebConfig.java:33-54 | example: `/login` is logged but not gated |
| WebConfig.StylesheetChain | src/main/java/hello/login/WebConfig.java:46-53 | example: a stylesheet reaches neither interceptor |
| WebConfig.CatchAllPattern | src/main/java/hello/login/WebConfig.java:74-89 | the `/*` URL pattern of both filters covers every request URI |
| WebConfig.UrlPatternMatch | src/main/java/hello/login/WebConfig.java:74 | every URL pattern matches its own text |
| WebConfig.FiltersApplyingTo | src/main/java/hello/login/WebConfig.java:66-92 | at most one filter per registration; every applying registration's filter is in the chain, and only those |
| WebConfig.FilterChain | src/main/java/hello/login/WebConfig.java:66-92 | the log filter is in the chain exactly when a URL pattern of its registration matches, and the login filter likewise |
| WebConfig.FilterChainAlways | src/main/java/hello/login/WebConfig.java:66-92 | with both filter registrations active, every request URI passes through the log filter first, then the login filter |
| LogFilter.DoFilter | src/main/java/hello/login/web/filter/LogFilter.java:56-90 | one id per request: the REQUEST line, the chain call, then the RESPONSE line with the same id and URI, whether the chain returned or threw; the outcome is passed on unchanged |
| LogFilter.LoggedRequest | src/main/java/hello/login/web/filter/LogFilter.java:67-87 | on a fresh trace, the chain call sits between a REQUEST and a RESPONSE line with the same id and URI |
| LogInterceptor.PreHandle | src/main/java/hello/login/web/interceptor/LogInterceptor.java:74-109 | the id is stored under `logId` and nothing else among the attributes changes; the REQUEST line is logged; the request is never blocked |
| LogInterceptor.PostHandle | src/main/java/hello/login/web/interceptor/LogInterceptor.java:115-117 | one log line and no other change |
| LogInterceptor.LogIdOf | src/main/java/hello/login/web/interceptor/LogInterceptor.java:135 | the `logId` attribute when present, `null` otherwise |
| LogInterceptor.AfterCompletion | src/main/java/hello/login/web/interceptor/LogInterceptor.java:130-144 | the RESPONSE line with the stored id, then an error line exactly when there was an exception |
| LogInterceptor.HandlerCycle | src/main/java/hello/login/web/interceptor/LogInterceptor.java:74-144 | the RESPONSE line carries the id `preHandle` stored; `postHandle` is logged only when the handler returned; the error line is logged only when it threw |
| LoginController.RedirectURL | src/main/java/hello/login/web/login/LoginController.java:151 | the parameter when it is present and non-empty, otherwise `/`; never empty |
| LoginController.RedirectURLParameter | src/main/java/hello/login/web/login/LoginController.java:151 | a parameter is read back only from a location that starts with `/login?redirectURL=` |
| LoginController.UpToAmpersand | src/main/java/hello/login/web/login/LoginController.java:151 | a prefix of the text; the whole text when it has no character that would end or change a query value |
| LoginController.ReturnToRequestedPage | src/main/java/hello/login/web/login/LoginController.java:151-175 | a member sent to the login form by a gate, after logging in, goes back to the page they asked for, provided its path needs no encoding |
| LoginController.LoginV4 | src/main/java/hello/login/web/login/LoginController.java:147-177 | binding errors return the form before any credential check, changing nothing; failed credentials add `loginFail`, return the form and leave the session as it was; success stores the member under `loginMember` in the existing or a new session and redirects to `redirectURL`, `/` by default |
| LoginController.LoginV3 | src/main/java/hello/login/web/login/LoginController.java:114-143 | as `loginV4`, always redirecting to `/` on success |
| LoginController.LoginV2 | src/main/java/hello/login/web/login/LoginController.java:87-106 | on failure no cookie is added and nothing is stored; on success exactly one session is issued for the member and the view redirects to `/` |
| LoginController.LoginV1 | src/main/java/hello/login/web/login/LoginController.java:41-83 | on failure no cookie is added; on success exactly one `memberId` cookie holding the decimal id is added, and the view redirects to `/` |
| LoginController.BindingResult.Reject | src/main/java/hello/login/web/login/LoginController.java:164 | the error code is appended and earlier errors are kept |
| LoginController.ExpireCookie | src/main/java/hello/login/web/login/LoginController.java:210-215 | exactly one cookie is added, with the given name, no value and max-age 0 |
| LoginController.Logout | src/main/java/hello/login/web/login/LoginController.java:181-184 | the `memberId` cookie is expired and the view redirects to `/` |
| LoginController.LogoutV2 | src/main/java/hello/login/web/login/LoginController.java:188-194 | only the request's own session entry is removed, and the session is gone afterwards |
| LoginController.LogoutV3 | src/main/java/hello/login/web/login/LoginController.java:197-207 | an existing session is invalidated and none is created; the request ends with no session, so logging out twice equals once; the view redirects to `/` |
| LoginController.LoginLogoutScenario | src/main/java/hello/login/web/login/LoginController.java:147-207 | the seeded member is logged in while the session lives and gone after logout; the view redirects to the requested page |
| ArgumentResolver.SupportsParameter | src/main/java/hello/login/web/argumentresolver/LoginMemberArgumentResolver.java:23-35 | true exactly when the parameter has `@Login` and a type assignable to `Member` |
| ArgumentResolver.SupportedParameters | src/main/java/hello/login/web/argumentresolver/LoginMemberArgumentResolver.java:28-34 | the `/` handler's parameter is supported; without `@Login`, or on another type, it is not |
| ArgumentResolver.ResolveArgument | src/main/java/hello/login/web/argumentresolver/LoginMemberArgumentResolver.java:41-60 | `null` without a session; with one, the `loginMember` attribute, possibly `null`; it never creates a session |
| ArgumentResolver.ResolverAgreesWithGate | src/main/java/hello/login/web/argumentresolver/LoginMemberArgumentResolver.java:50-59 | the resolver injects a member exactly when the gates' `getSession(false)` check finds one |
| HomeController.PageFor | src/main/java/hello/login/web/HomeController.java:140-150 | `home` exactly when there is no member, otherwise `loginHome` with the member in the model |
| HomeController.HomeLogin | src/main/java/hello/login/web/HomeController.java:36-54 | `home` without the cookie or for an unknown id; otherwise `loginHome` with the stored member |
| HomeController.HomeLoginV2 | src/main/java/hello/login/web/HomeController.java:58-73 | `home` exactly when `getSession` finds nothing; `loginHome` with the member otherwise |
| HomeController.HomeLoginV3 | src/main/java/hello/login/web/HomeController.java:77-100 | `home` without a session or without `loginMember`; `loginHome` with the attribute otherwise; it never creates a session |
| HomeController.SessionAttributeArgument | src/main/java/hello/login/web/HomeController.java:115-118 | the attribute `@SessionAttribute` injects is the logged-in member the gates see |
| HomeController.HomeLoginV3Spring | src/main/java/hello/login/web/HomeController.java:115-129 | `home` exactly when no member is injected, `loginHome` exactly when one is; the model holds the injected member |
| HomeController.HomeLoginV3ArgumentResolver | src/main/java/hello/login/web/HomeController.java:140-151 | `home` exactly when no member is injected, otherwise `loginHome` with that member |
| HomeController.SessionVersionsAgree | src/main/java/hello/login/web/HomeController.java:77-151 | the three container-session versions show the same page for every request |
| LoginFlows.CookieLoginThenHome | src/main/java/hello/login/web/HomeController.java:36-54 | after a successful cookie login, the cookie converted back to `Long` shows that member's home page |
| LoginFlows.LoginV2Request | src/main/java/hello/login/web/login/LoginController.java:87-106 | a request carrying the cookies of a successful `loginV2` finds the logged-in member in the session store |
| LoginFlows.Presenting | src/main/java/hello/login/web/session/SessionManager.java:87-99 | for any earlier store and cookies without a `mySessionId` cookie, a request carrying the cookies of a response on which a session was just issued finds that session's value |
| LoginFlows.SessionLoginThenHome | src/main/java/hello/login/web/HomeController.java:58-73 | after `loginV2` the home page shows the member; after `logoutV2` it is the plain home page |
| LoginFlows.LogoutThenHome | src/main/java/hello/login/web/login/LoginController.java:188-194 | after `logoutV2` the same request shows the plain home page |
| LoginFlows.ContainerLoginThenHome | src/main/java/hello/login/web/HomeController.java:140-151 | after `loginV4` the `/` handler shows the member and the filter lets a protected page through; after `logoutV3` the plain page is shown and the filter redirects to the login form |

## Left out

- Logging text and its format are left out. Log lines are trace events that record the order of logging and which ids and URIs it carries.
- `UUID.randomUUID()` is left out:
  - the logging stages take the id as a parameter;
  - the session token is any string not yet in the store, since the model has no randomness.
- Concurrency is left out: `ConcurrentHashMap` is a plain map, and requests are handled one at a time.
- The `NullPointerException`s are left out. `ConcurrentHashMap` throws them for a `null` key or value, which arises with a session cookie without a value or with `createSession(null)`. The model treats a cookie without a value as no session.
- Members.MemberRepository.FindAll: `HashMap` gives no iteration order. The model fixes ascending id order, so `findByLoginId` picks the match with the smallest id.
- Members.MemberRepository.Save: does not model the wrap-around of the `long` counter after 2^63 - 1 saves. `save` also returns the same object with its id set, whereas the model returns the updated value; there is no aliasing of member objects.
- PathMatching.AntMatch: covers patterns made of literal characters, `*` within a token and `**` tokens, with leading and trailing separators. It includes two rules of the matcher: a lone trailing `*` also matches a used-up path ending with `/` (`LoneStarMatchesDirectory`), and the trailing `/` is left uncompared only when the last pattern token is `**` (`DoubleStarKeepsTrailingCheck`). `?`, `{var}` templates, token trimming and the matcher's caching are not modelled.
- WebConfig.Applies: matches the raw request URI, which is also what `LoginCheckFilter` matches. Spring matches the interceptor patterns against its lookup path instead: the context path stripped, `;` parameters removed, percent-escapes decoded and `//` collapsed. So `WebConfig.FilterWhitelistExcludedFromInterceptor` and the `WebConfig.GatesDiffer` lemmas compare the two gates only for URIs equal to their lookup path. For example, `/;jsessionid=X` is excluded from the interceptor but checked by the filter.
- URL encoding is not modelled. `LoginController.ReturnToRequestedPage` holds only for request paths without `&`, `#`, `%` and `+`.
- Bean validation (`@Valid`) is not modelled. The handler receives the binding result with its errors already recorded.
- Numerals.ParseLong: models only the decimal part of Spring's conversion of the `memberId` cookie to `Long`. That conversion also removes all whitespace, not only at the ends, so `"1 2"` becomes 12; it accepts hexadecimal forms (`0x`, `0X`, `#`), so `"0x1"` reaches `homeLogin` as 1; and `Long.valueOf` accepts decimal digits of other scripts (through `Character.digit`). Before converting, Spring also percent-decodes the cookie value, so a `memberId` cookie of `%31` reaches `homeLogin` as 1; `LoginFlows.CookieLoginThenHome` uses the raw text, which is the same for the decimal text `loginV1` writes. The model treats all of these as no id. Text Spring cannot convert at all raises a conversion error before `homeLogin` runs; the model also passes no id there.
- `HandlerExecutionChain` orchestration is not modelled. Running `afterCompletion` only for interceptors whose `preHandle` returned true, and in reverse order, is left out; `LogInterceptor.HandlerCycle` models one interceptor.
- WebConfig: the filter `@Bean` annotations are commented out in the source, so the filters are not registered in the running application. `WebConfig.FilterChainAlways` describes the chain they would form if registered.
- `LogFilter.init`, `LogFilter.destroy` and the entry log line of `LogFilter.doFilter` are left out: they only print.
- `HomeController.home` and `LoginController.loginForm` return constant views and are left out.
- `MemberController` (sign-up form), `SessionInfoController` (printing session details) and the item pages are left out: they are outside the login core.
- `SessionConst.java` is not part of this model. The code refers to the attribute name only as `SessionConst.LOGIN_MEMBER` (`HomeController.java:90` and `HomeController.java:119`). The value `loginMember` is assumed from the comment at `HomeController.java:104`.
- LoginService.Login: the contract fixes the result relative to `findByLoginId` for every store. Only the extra clause about any member with both credentials carries the unique-login-id hypothesis. Without uniqueness, a member with the right password but a larger id than another member with the same login id is not found, as in the code.
