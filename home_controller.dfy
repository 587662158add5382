/** The home page handlers: the plain home page for visitors, the member's home page once logged in. */
module HomeController {
  import opened Wrappers
  import opened Members
  import opened Http
  import opened Session
  import opened ArgumentResolver

  const HOME_VIEW: string := "home"
  const LOGIN_HOME_VIEW: string := "loginHome"

  /** The view name and the model's `member` attribute, if it was added. */
  datatype Page = Page(view: string, member: Option<Member>)

  /** The branch every version ends in: `home` for no member, else `loginHome` with the member in the model. */
  function PageFor(loginMember: Option<Member>): (page: Page)
    ensures page.view == HOME_VIEW <==> loginMember.None?
    ensures page.view == LOGIN_HOME_VIEW <==> loginMember.Some?
    ensures page.member == loginMember
  {
    if loginMember.None? then Page(HOME_VIEW, None) else Page(LOGIN_HOME_VIEW, loginMember)
  }

  /** `homeLogin`: the member whose id the `memberId` cookie holds; `home` without the cookie or for an unknown id. */
  function HomeLogin(memberId: Option<int>, repo: MemberRepository): (page: Page)
    reads repo
    ensures memberId.None? ==> page == Page(HOME_VIEW, None)
    ensures memberId.Some? && memberId.value !in repo.store ==> page == Page(HOME_VIEW, None)
    ensures memberId.Some? && memberId.value in repo.store ==> page == Page(LOGIN_HOME_VIEW, Some(repo.store[memberId.value]))
  {
    if memberId.None? then PageFor(None)
    else PageFor(repo.FindById(memberId.value))
  }

  /** `homeLoginV2`: whatever the hand-rolled session store holds for the request's `mySessionId` token. */
  function HomeLoginV2(request: Request, sessionManager: SessionManager<Member>): (page: Page)
    reads sessionManager
    ensures page.view == HOME_VIEW <==> sessionManager.GetSession(request).None?
    ensures page.view == LOGIN_HOME_VIEW <==> sessionManager.GetSession(request).Some?
    ensures page.member == sessionManager.GetSession(request)
  {
    PageFor(sessionManager.GetSession(request))
  }

  /** `homeLoginV3`: looks at the session with `getSession(false)`, so it never creates one. */
  function HomeLoginV3(request: Request): (page: Page)
    reads request
    ensures request.session.None? ==> page == Page(HOME_VIEW, None)
    ensures request.session.Some? && LOGIN_MEMBER !in request.session.value ==> page == Page(HOME_VIEW, None)
    ensures request.session.Some? && LOGIN_MEMBER in request.session.value ==>
              page == Page(LOGIN_HOME_VIEW, Some(request.session.value[LOGIN_MEMBER]))
  {
    if request.session.None? then PageFor(None)
    else if LOGIN_MEMBER !in request.session.value then PageFor(None)
    else PageFor(Some(request.session.value[LOGIN_MEMBER]))
  }

  /** `@SessionAttribute(name = "loginMember", required = false)`: the attribute, `null` without a session or attribute. */
  function SessionAttributeArgument(request: Request): (loginMember: Option<Member>)
    reads request
    ensures loginMember == LoggedInMember(request.session)
  {
    match request.session
    case None => None
    case Some(attributes) => if LOGIN_MEMBER in attributes then Some(attributes[LOGIN_MEMBER]) else None
  }

  /** `homeLoginV3Spring`: the member is handed in by Spring's `@SessionAttribute`. */
  function HomeLoginV3Spring(loginMember: Option<Member>): (page: Page)
    ensures page.view == HOME_VIEW <==> loginMember.None?
    ensures page.view == LOGIN_HOME_VIEW <==> loginMember.Some?
    ensures page.member == loginMember
  {
    PageFor(loginMember)
  }

  /** `homeLoginV3ArgumentResolver`, the mapped `/` handler: the member is handed in by the `@Login` resolver. */
  function HomeLoginV3ArgumentResolver(loginMember: Option<Member>): (page: Page)
    ensures page.view == HOME_VIEW <==> loginMember.None?
    ensures page.view == LOGIN_HOME_VIEW <==> loginMember.Some?
    ensures page.member == loginMember
  {
    PageFor(loginMember)
  }

  /** The three container-session versions show the same page for every request. */
  lemma SessionVersionsAgree(request: Request)
    ensures HomeLoginV3Spring(SessionAttributeArgument(request)) == HomeLoginV3(request)
    ensures HomeLoginV3ArgumentResolver(ResolveArgument(request)) == HomeLoginV3(request)
  {
  }
}
