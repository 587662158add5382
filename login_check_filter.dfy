/** The servlet filter that sends requests without a logged-in member to the login page. */
module LoginCheckFilter {
  import opened Wrappers
  import opened Http
  import opened PathMatching

  /** The paths that never need a login. */
  const Whitelist: seq<string> := ["/", "/members/add", "/login", "/logout", "/css/*"]

  /** `isLoginCheckPath`: no whitelist pattern matches the request URI. */
  predicate IsLoginCheckPath(requestURI: string): (r: bool)
    ensures requestURI in Whitelist ==> !r
  {
    !SimpleMatchAny(Whitelist, requestURI)
  }

  /**
   * The whitelist lets through exactly `/`, `/members/add`, `/login`,
   * `/logout` and everything below `/css/` (the `*` also crosses `/`).
   */
  lemma WhitelistedPaths(uri: string)
    ensures !IsLoginCheckPath(uri) <==>
              || uri == "/" || uri == "/members/add" || uri == "/login" || uri == "/logout"
              || (|uri| >= 5 && uri[..5] == "/css/")
  {
    SimpleMatchLiteral(Whitelist[0], uri);
    SimpleMatchLiteral(Whitelist[1], uri);
    SimpleMatchLiteral(Whitelist[2], uri);
    SimpleMatchLiteral(Whitelist[3], uri);
    assert Whitelist[4] == "/css/" + "*";
    SimpleMatchPrefix("/css/", uri);
  }

  datatype GateDecision = Whitelisted | Authenticated | Rejected(location: string)

  /** What `doFilter` decides for a request URI and the request's current session. */
  function Decide(requestURI: string, session: Option<SessionAttributes>): (d: GateDecision)
    ensures d.Whitelisted? <==> !IsLoginCheckPath(requestURI)
    ensures d.Authenticated? <==> IsLoginCheckPath(requestURI) && LoggedInMember(session).Some?
    ensures d.Rejected? <==> IsLoginCheckPath(requestURI) && LoggedInMember(session).None?
    ensures d.Rejected? ==> d.location == LoginRedirectLocation(requestURI)
  {
    if !IsLoginCheckPath(requestURI) then Whitelisted
    else if LoggedInMember(session).None? then Rejected(LoginRedirectLocation(requestURI))
    else Authenticated
  }

  /** Whitelisted paths pass whatever the session holds, even with no session at all. */
  lemma WhitelistTransparency(uri: string, session: Option<SessionAttributes>)
    requires uri == "/" || uri == "/members/add" || uri == "/login" || uri == "/logout" || (|uri| >= 5 && uri[..5] == "/css/")
    ensures Decide(uri, session) == Whitelisted
  {
    WhitelistedPaths(uri);
  }

  /** Example of `Decide` on `/items`: without a logged-in member it is redirected to the login form carrying its path. */
  lemma GateEnforcement(session: Option<SessionAttributes>)
    requires LoggedInMember(session).None?
    ensures Decide("/items", session) == Rejected("/login?redirectURL=/items")
  {
    WhitelistedPaths("/items");
  }

  /**
   * `doFilter`: logs start and end in every case; on a protected path it
   * looks at the session without creating one and either redirects (the
   * chain is not called) or calls the chain once; whatever the chain throws
   * is rethrown unchanged.
   */
  method DoFilter(request: Request, response: Response, trace: Trace, next: Outcome) returns (result: Outcome)
    modifies response`redirectLocation, trace
    ensures request.session == old(request.session)
    ensures var uri := request.requestURI;
            var d := Decide(uri, request.session);
            && (d.Whitelisted? ==>
                  trace.events == old(trace.events) + [GateFilterStarted(uri), ChainInvoked(uri), GateFilterFinished(uri)])
            && (d.Authenticated? ==>
                  trace.events == old(trace.events) + [GateFilterStarted(uri), GateChecking(uri), ChainInvoked(uri), GateFilterFinished(uri)])
            && (d.Rejected? ==>
                  trace.events == old(trace.events) + [GateFilterStarted(uri), GateChecking(uri), GateUnauthenticated(uri), GateFilterFinished(uri)])
    ensures Decide(request.requestURI, request.session).Rejected? ==>
              response.redirectLocation == Some(LoginRedirectLocation(request.requestURI)) && result == Completed
    ensures !Decide(request.requestURI, request.session).Rejected? ==>
              response.redirectLocation == old(response.redirectLocation) && result == next
  {
    var requestURI := request.requestURI;
    trace.Append(GateFilterStarted(requestURI));
    if IsLoginCheckPath(requestURI) {
      trace.Append(GateChecking(requestURI));
      var session := request.session;
      if session.None? || LOGIN_MEMBER !in session.value {
        trace.Append(GateUnauthenticated(requestURI));
        response.SendRedirect(LoginRedirectLocation(requestURI));
        trace.Append(GateFilterFinished(requestURI));
        return Completed;
      }
    }
    trace.Append(ChainInvoked(requestURI));
    result := next;
    trace.Append(GateFilterFinished(requestURI));
  }
}
