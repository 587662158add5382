/**
 * The login versions followed by the matching home page version and the
 * login gate: what a member sees after logging in, and after logging out.
 */
module LoginFlows {
  import opened Wrappers
  import opened Members
  import opened Numerals
  import opened Http
  import opened Session
  import opened LoginService
  import opened LoginController
  import opened ArgumentResolver
  import opened HomeController
  import LoginCheckFilter

  /**
   * Cookie version: the `memberId` cookie set by a successful `login`,
   * converted back to a `Long` as `@CookieValue` does, shows that member's
   * home page.
   */
  method CookieLoginThenHome(form: LoginForm, repo: MemberRepository) returns (page: Page)
    requires repo.Valid() && repo.sequence <= LONG_MAX
    requires Login(repo, form.loginId, form.password).Some?
    ensures page == Page(LOGIN_HOME_VIEW, Login(repo, form.loginId, form.password))
  {
    var member := Login(repo, form.loginId, form.password).value;
    var k :| k in repo.store && repo.store[k] == member;
    var response := new Response();
    var bindingResult := new BindingResult([]);
    var view := LoginV1(form, bindingResult, response, repo);
    var cookie := response.cookies[0];
    IdCookieRoundTrip(k);
    var memberId := ParseLong(cookie.value.value);
    page := HomeLogin(memberId, repo);
  }

  /** `loginV2` on a fresh store and response, then a request carrying the cookies the response set. */
  method LoginV2Request(form: LoginForm, repo: MemberRepository)
    returns (member: Member, sessionManager: SessionManager<Member>, request: Request)
    requires repo.Valid()
    requires Login(repo, form.loginId, form.password).Some?
    ensures Login(repo, form.loginId, form.password) == Some(member)
    ensures fresh(sessionManager)
    ensures sessionManager.GetSession(request) == Some(member)
  {
    sessionManager := new SessionManager<Member>();
    var response := new Response();
    var bindingResult := new BindingResult([]);
    member := Login(repo, form.loginId, form.password).value;
    var view := LoginV2(form, bindingResult, response, repo, sessionManager);
    request := Presenting(sessionManager, map[], [], response.cookies, member);
  }

  /**
   * A request carrying the cookies of a response on which a session was just
   * issued finds that session's value, provided no earlier cookie of the
   * response already had the session cookie's name.
   */
  method Presenting<V>(sessionManager: SessionManager<V>, oldStore: map<string, V>, oldCookies: seq<Cookie>,
                       cookies: seq<Cookie>, value: V) returns (request: Request)
    requires SessionIssued(oldStore, sessionManager.sessionStore, oldCookies, cookies, value)
    requires forall i :: 0 <= i < |oldCookies| ==> oldCookies[i].name != SESSION_COOKIE_NAME
    ensures request.cookies == Some(cookies)
    ensures sessionManager.GetSession(request) == Some(value)
  {
    var cookie := cookies[|oldCookies|];
    request := new Request("/", Some(cookies), None);
    var found := FindCookie(request, SESSION_COOKIE_NAME);
    assert found.Some? by {
      assert cookies[|oldCookies|].name == SESSION_COOKIE_NAME;
    }
    assert found == Some(cookie) by {
      var k :| 0 <= k < |cookies| && cookies[k] == found.value && found.value.name == SESSION_COOKIE_NAME &&
               forall j :: 0 <= j < k ==> cookies[j].name != SESSION_COOKIE_NAME;
      assert k == |oldCookies|;
    }
    assert SessionToken(request) == cookie.value;
  }

  /**
   * Hand-rolled session version: a request carrying the cookies of a
   * successful `loginV2` shows the member's home page, and after `logoutV2`
   * the plain one.
   */
  method SessionLoginThenHome(form: LoginForm, repo: MemberRepository) returns (before: Page, after: Page)
    requires repo.Valid()
    requires Login(repo, form.loginId, form.password).Some?
    ensures before == Page(LOGIN_HOME_VIEW, old(Login(repo, form.loginId, form.password)))
    ensures after == Page(HOME_VIEW, None)
  {
    var member, sessionManager, request := LoginV2Request(form, repo);
    before := HomeLoginV2(request, sessionManager);
    after := LogoutThenHome(request, sessionManager);
  }

  /** `logoutV2` followed by the home page on the same request shows the plain home page. */
  method LogoutThenHome(request: Request, sessionManager: SessionManager<Member>) returns (after: Page)
    modifies sessionManager
    ensures after == Page(HOME_VIEW, None)
  {
    var logout := LogoutV2(request, sessionManager);
    after := HomeLoginV2(request, sessionManager);
  }

  /**
   * Container session version: after a successful `loginV4` the mapped `/`
   * handler shows the member and the login filter lets a protected page
   * through; after `logoutV3` the plain home page is shown and the filter
   * sends the member back to the login form.
   */
  method ContainerLoginThenHome(form: LoginForm, repo: MemberRepository, uri: string)
    returns (before: Page, beforeGate: LoginCheckFilter.GateDecision, after: Page, afterGate: LoginCheckFilter.GateDecision)
    requires repo.Valid()
    requires Login(repo, form.loginId, form.password).Some?
    requires LoginCheckFilter.IsLoginCheckPath(uri)
    ensures before == Page(LOGIN_HOME_VIEW, Login(repo, form.loginId, form.password))
    ensures beforeGate == LoginCheckFilter.Authenticated
    ensures after == Page(HOME_VIEW, None)
    ensures afterGate == LoginCheckFilter.Rejected(LoginRedirectLocation(uri))
  {
    var request := new Request("/login", None, None);
    var bindingResult := new BindingResult([]);
    var view := LoginV4(form, bindingResult, None, request, repo);
    before := HomeLoginV3ArgumentResolver(ResolveArgument(request));
    beforeGate := LoginCheckFilter.Decide(uri, request.session);
    var logout := LogoutV3(request);
    after := HomeLoginV3ArgumentResolver(ResolveArgument(request));
    afterGate := LoginCheckFilter.Decide(uri, request.session);
  }
}
