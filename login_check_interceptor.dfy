/** The Spring interceptor that does the same login check as the filter, with paths chosen at registration. */
module LoginCheckInterceptor {
  import opened Wrappers
  import opened Http

  /**
   * `preHandle`: the handler runs only when the session holds a logged-in
   * member; otherwise the client is sent to the login form with the
   * request URI. `getSession()` is called with create = true, so a request
   * without a session leaves with a new, empty one.
   */
  method PreHandle(request: Request, response: Response, trace: Trace) returns (proceed: bool)
    modifies request`session, response`redirectLocation, trace
    ensures proceed <==> LoggedInMember(old(request.session)).Some?
    ensures request.session == if old(request.session).Some? then old(request.session) else Some(map[])
    ensures proceed ==>
              && response.redirectLocation == old(response.redirectLocation)
              && trace.events == old(trace.events) + [GateInterceptorRun(request.requestURI)]
    ensures !proceed ==>
              && response.redirectLocation == Some(LoginRedirectLocation(request.requestURI))
              && trace.events == old(trace.events) + [GateInterceptorRun(request.requestURI), GateInterceptorUnauthenticated]
  {
    var requestURI := request.requestURI;
    trace.Append(GateInterceptorRun(requestURI));
    request.GetSession();
    var session := request.session;
    if session.None? || LOGIN_MEMBER !in session.value {
      trace.Append(GateInterceptorUnauthenticated);
      response.SendRedirect(LoginRedirectLocation(requestURI));
      return false;
    }
    return true;
  }

  /**
   * A request with no session is refused and still leaves holding a fresh
   * session with no attributes, so asking again is still refused.
   */
  method RefusedTwice(uri: string) returns (first: bool, second: bool)
    ensures !first && !second
  {
    var request := new Request(uri, None, None);
    var response := new Response();
    var trace := new Trace();
    first := PreHandle(request, response, trace);
    assert request.session == Some(map[]);
    second := PreHandle(request, response, trace);
  }
}
