/** The login and logout handlers, in the four versions the application keeps side by side. */
module LoginController {
  import opened Wrappers
  import opened Members
  import opened Numerals
  import opened Http
  import opened Session
  import opened LoginService
  import opened TestData

  const LOGIN_FORM_VIEW: string := "login/loginForm"
  const HOME_REDIRECT: string := "redirect:/"
  /** The global error code a failed credential check records. */
  const LOGIN_FAIL: string := "loginFail"
  /** The cookie the first version keeps the member id in. */
  const MEMBER_ID_COOKIE: string := "memberId"

  /** The bound login form. */
  datatype LoginForm = LoginForm(loginId: string, password: string)

  /** The errors recorded while binding and validating the form, then by the handler. */
  class BindingResult {
    var errors: seq<string>

    constructor (errors: seq<string>)
      ensures this.errors == errors
    {
      this.errors := errors;
    }

    predicate HasErrors()
      reads this
    {
      errors != []
    }

    /** `reject(code, defaultMessage)`: a global error with that code. */
    method Reject(code: string)
      modifies this
      ensures errors == old(errors) + [code]
    {
      errors := errors + [code];
    }
  }

  /** `String.valueOf(loginMember.getId())`: the decimal id, or `"null"` for a member without one. */
  function IdCookieValue(id: Option<int>): (s: string)
    ensures id.None? <==> s == "null"
  {
    if id.Some? then DecimalString(id.value) else "null"
  }

  /** A saved member's cookie value reads back as its id (within the `Long` range). */
  lemma IdCookieRoundTrip(id: int)
    requires LONG_MIN <= id <= LONG_MAX
    ensures ParseLong(IdCookieValue(Some(id))) == Some(id)
  {
    ParseDecimalString(id);
  }

  /** `@RequestParam(defaultValue = "/") String redirectURL`: the default replaces a missing or empty parameter. */
  function RedirectURL(parameter: Option<string>): (url: string)
    ensures url != []
    ensures parameter.Some? && parameter.value != [] ==> url == parameter.value
    ensures parameter.None? || parameter.value == [] ==> url == "/"
  {
    if parameter.None? || parameter.value == [] then "/" else parameter.value
  }

  /** The characters that would change the meaning of a value put unencoded into a query string. */
  predicate QuerySafe(s: string)
  {
    forall i :: 0 <= i < |s| ==> s[i] != '&' && s[i] != '#' && s[i] != '%' && s[i] != '+'
  }

  /** The `redirectURL` parameter of a location the login gates build, as the servlet container reads it back. */
  function RedirectURLParameter(location: string): (parameter: Option<string>)
    ensures parameter.Some? ==> |location| >= |"/login?redirectURL="| && location[..|"/login?redirectURL="|] == "/login?redirectURL="
  {
    var prefix := "/login?redirectURL=";
    if |location| >= |prefix| && location[..|prefix|] == prefix then Some(UpToAmpersand(location[|prefix|..])) else None
  }

  function UpToAmpersand(s: string): (prefix: string)
    ensures |prefix| <= |s| && prefix == s[..|prefix|]
    ensures QuerySafe(s) ==> prefix == s
  {
    if s == [] then []
    else if s[0] == '&' then []
    else [s[0]] + UpToAmpersand(s[1..])
  }

  /**
   * A member sent to the login form by a gate comes back, after logging in,
   * to the page they asked for, as long as its URI needs no encoding.
   */
  lemma ReturnToRequestedPage(uri: string)
    requires uri != [] && QuerySafe(uri)
    ensures RedirectURL(RedirectURLParameter(LoginRedirectLocation(uri))) == uri
  {
  }

  /**
   * `loginV4`, the mapped `POST /login`: binding errors return the form
   * untouched; a failed check records `loginFail` and returns the form
   * without touching the session; success puts the member into the
   * session, created if need be, and redirects to `redirectURL`.
   */
  method LoginV4(form: LoginForm, bindingResult: BindingResult, redirectURL: Option<string>,
                 request: Request, repo: MemberRepository) returns (view: string)
    requires repo.Valid()
    modifies bindingResult, request`session
    ensures old(bindingResult.HasErrors()) ==>
              view == LOGIN_FORM_VIEW && bindingResult.errors == old(bindingResult.errors) && request.session == old(request.session)
    ensures !old(bindingResult.HasErrors()) && Login(repo, form.loginId, form.password).None? ==>
              && view == LOGIN_FORM_VIEW
              && bindingResult.errors == old(bindingResult.errors) + [LOGIN_FAIL]
              && request.session == old(request.session)
    ensures !old(bindingResult.HasErrors()) && Login(repo, form.loginId, form.password).Some? ==>
              && view == "redirect:" + RedirectURL(redirectURL)
              && bindingResult.errors == old(bindingResult.errors)
              && request.session ==
                   Some((if old(request.session).Some? then old(request.session).value else map[])
                          [LOGIN_MEMBER := Login(repo, form.loginId, form.password).value])
  {
    if bindingResult.HasErrors() {
      return LOGIN_FORM_VIEW;
    }
    var loginMember := Login(repo, form.loginId, form.password);
    if loginMember.None? {
      bindingResult.Reject(LOGIN_FAIL);
      return LOGIN_FORM_VIEW;
    }
    request.GetSession();
    request.SetSessionAttribute(LOGIN_MEMBER, loginMember.value);
    return "redirect:" + RedirectURL(redirectURL);
  }

  /** `loginV3`: as `loginV4`, always redirecting home. */
  method LoginV3(form: LoginForm, bindingResult: BindingResult, request: Request, repo: MemberRepository)
    returns (view: string)
    requires repo.Valid()
    modifies bindingResult, request`session
    ensures old(bindingResult.HasErrors()) ==>
              view == LOGIN_FORM_VIEW && bindingResult.errors == old(bindingResult.errors) && request.session == old(request.session)
    ensures !old(bindingResult.HasErrors()) && Login(repo, form.loginId, form.password).None? ==>
              && view == LOGIN_FORM_VIEW
              && bindingResult.errors == old(bindingResult.errors) + [LOGIN_FAIL]
              && request.session == old(request.session)
    ensures !old(bindingResult.HasErrors()) && Login(repo, form.loginId, form.password).Some? ==>
              && view == HOME_REDIRECT
              && bindingResult.errors == old(bindingResult.errors)
              && request.session ==
                   Some((if old(request.session).Some? then old(request.session).value else map[])
                          [LOGIN_MEMBER := Login(repo, form.loginId, form.password).value])
  {
    if bindingResult.HasErrors() {
      return LOGIN_FORM_VIEW;
    }
    var loginMember := Login(repo, form.loginId, form.password);
    if loginMember.None? {
      bindingResult.Reject(LOGIN_FAIL);
      return LOGIN_FORM_VIEW;
    }
    request.GetSession();
    request.SetSessionAttribute(LOGIN_MEMBER, loginMember.value);
    return HOME_REDIRECT;
  }

  /**
   * `loginV2`: on success one session is created in the hand-rolled store
   * for the member and its token handed out; otherwise nothing is stored
   * and no cookie is added.
   */
  method LoginV2(form: LoginForm, bindingResult: BindingResult, response: Response,
                 repo: MemberRepository, sessionManager: SessionManager<Member>) returns (view: string)
    requires repo.Valid()
    modifies bindingResult, response`cookies, sessionManager
    ensures old(bindingResult.HasErrors()) || Login(repo, form.loginId, form.password).None? ==>
              && view == LOGIN_FORM_VIEW
              && response.cookies == old(response.cookies)
              && sessionManager.sessionStore == old(sessionManager.sessionStore)
              && bindingResult.errors == old(bindingResult.errors) + (if old(bindingResult.HasErrors()) then [] else [LOGIN_FAIL])
    ensures !old(bindingResult.HasErrors()) && Login(repo, form.loginId, form.password).Some? ==>
              && view == HOME_REDIRECT
              && bindingResult.errors == old(bindingResult.errors)
              && SessionIssued(old(sessionManager.sessionStore), sessionManager.sessionStore,
                               old(response.cookies), response.cookies, Login(repo, form.loginId, form.password).value)
  {
    if bindingResult.HasErrors() {
      return LOGIN_FORM_VIEW;
    }
    var loginMember := Login(repo, form.loginId, form.password);
    if loginMember.None? {
      bindingResult.Reject(LOGIN_FAIL);
      return LOGIN_FORM_VIEW;
    }
    sessionManager.CreateSession(loginMember.value, response);
    return HOME_REDIRECT;
  }

  /** `login` (first version): on success the member id goes into a `memberId` browser-session cookie. */
  method LoginV1(form: LoginForm, bindingResult: BindingResult, response: Response, repo: MemberRepository)
    returns (view: string)
    requires repo.Valid()
    modifies bindingResult, response`cookies
    ensures old(bindingResult.HasErrors()) || Login(repo, form.loginId, form.password).None? ==>
              && view == LOGIN_FORM_VIEW
              && response.cookies == old(response.cookies)
              && bindingResult.errors == old(bindingResult.errors) + (if old(bindingResult.HasErrors()) then [] else [LOGIN_FAIL])
    ensures !old(bindingResult.HasErrors()) && Login(repo, form.loginId, form.password).Some? ==>
              && view == HOME_REDIRECT
              && bindingResult.errors == old(bindingResult.errors)
              && response.cookies ==
                   old(response.cookies) + [NewCookie(MEMBER_ID_COOKIE, IdCookieValue(Login(repo, form.loginId, form.password).value.id))]
  {
    if bindingResult.HasErrors() {
      return LOGIN_FORM_VIEW;
    }
    var loginMember := Login(repo, form.loginId, form.password);
    if loginMember.None? {
      bindingResult.Reject(LOGIN_FAIL);
      return LOGIN_FORM_VIEW;
    }
    response.AddCookie(NewCookie(MEMBER_ID_COOKIE, IdCookieValue(loginMember.value.id)));
    return HOME_REDIRECT;
  }

  /** `expireCookie`: a cookie of that name with no value and max-age 0, which makes the browser drop it. */
  method ExpireCookie(response: Response, cookieName: string)
    modifies response`cookies
    ensures response.cookies == old(response.cookies) + [Cookie(cookieName, None, 0)]
  {
    response.AddCookie(Cookie(cookieName, None, 0));
  }

  /** `logout` (first version): expires the `memberId` cookie. */
  method Logout(response: Response) returns (view: string)
    modifies response`cookies
    ensures view == HOME_REDIRECT
    ensures response.cookies == old(response.cookies) + [Cookie(MEMBER_ID_COOKIE, None, 0)]
  {
    ExpireCookie(response, MEMBER_ID_COOKIE);
    return HOME_REDIRECT;
  }

  /** `logoutV2`: the request's entry in the hand-rolled store is removed, and nothing else. */
  method LogoutV2(request: Request, sessionManager: SessionManager<Member>) returns (view: string)
    modifies sessionManager
    ensures view == HOME_REDIRECT
    ensures SessionToken(request).None? ==> sessionManager.sessionStore == old(sessionManager.sessionStore)
    ensures SessionToken(request).Some? ==>
              sessionManager.sessionStore == old(sessionManager.sessionStore) - {SessionToken(request).value}
    ensures sessionManager.GetSession(request).None?
  {
    sessionManager.Expire(request);
    return HOME_REDIRECT;
  }

  /**
   * `logoutV3`, the mapped `POST /logout`: an existing session is
   * invalidated, a missing one is not created; either way the request ends
   * with no session, so logging out twice is the same as once.
   */
  method LogoutV3(request: Request) returns (view: string)
    modifies request`session
    ensures view == HOME_REDIRECT
    ensures request.session == None
    ensures LoggedInMember(request.session).None?
  {
    if request.session.Some? {
      request.InvalidateSession();
    }
    return HOME_REDIRECT;
  }

  /** Logging in, then out, with the container session: the member is there in between and gone after. */
  method LoginLogoutScenario() returns (during: Option<Member>, after: Option<Member>, target: string)
    ensures during == Some(Tester.(id := Some(1)))
    ensures after == None
    ensures target == "redirect:" + "/items"
  {
    var repo, seeded := Init();
    SeededLogin(repo);
    var request := new Request("/login", None, None);
    var bindingResult := new BindingResult([]);
    var requested: string := "/items";
    assert RedirectURL(Some(requested)) == requested;
    target := LoginV4(LoginForm("test", "test!"), bindingResult, Some(requested), request, repo);
    during := LoggedInMember(request.session);
    var logout := LogoutV3(request);
    after := LoggedInMember(request.session);
  }
}
