/**
 * The parts of the servlet API the core touches: cookies, the request with
 * its container-managed session and attributes, the response, and an ordered
 * trace of log lines and chain calls.
 */
module Http {
  import opened Wrappers
  import opened Members

  /** The session attribute name under which the logged-in member is kept. */
  const LOGIN_MEMBER: string := "loginMember"

  /** The attributes of a container `HttpSession`. */
  type SessionAttributes = map<string, Member>

  /**
   * `getSession(false)` followed by `getAttribute(LOGIN_MEMBER)`: the
   * logged-in member, if there is a session and it holds one.
   */
  function LoggedInMember(session: Option<SessionAttributes>): (r: Option<Member>)
    ensures r.Some? <==> session.Some? && LOGIN_MEMBER in session.value
    ensures r.Some? ==> r.value == session.value[LOGIN_MEMBER]
  {
    if session.Some? && LOGIN_MEMBER in session.value then Some(session.value[LOGIN_MEMBER]) else None
  }

  /** The redirect both login gates send: the request URI appended verbatim, not URL-encoded. */
  function LoginRedirectLocation(requestURI: string): (location: string)
    ensures |location| == |"/login?redirectURL="| + |requestURI|
    ensures location[..|"/login?redirectURL="|] == "/login?redirectURL="
    ensures location[|"/login?redirectURL="|..] == requestURI
  {
    "/login?redirectURL=" + requestURI
  }

  /** A cookie; `maxAge` -1 is the servlet default (a browser-session cookie). */
  datatype Cookie = Cookie(name: string, value: Option<string>, maxAge: int)

  /** `new Cookie(name, value)`. */
  function NewCookie(name: string, value: string): Cookie
  {
    Cookie(name, Some(value), -1)
  }

  /** What a downstream stage (filter chain, handler) does: return or throw. */
  datatype Outcome = Completed | Threw(exception: string)

  /** Log lines, in the order they are written, plus the calls into the next stage. */
  datatype Event =
    | RequestLogged(id: string, uri: string)
    | ResponseLogged(id: string, uri: string)
    | ChainInvoked(uri: string)
    | GateFilterStarted(uri: string)
    | GateChecking(uri: string)
    | GateUnauthenticated(uri: string)
    | GateFilterFinished(uri: string)
    | GateInterceptorRun(uri: string)
    | GateInterceptorUnauthenticated
    | HandlerRequestLogged(id: string, uri: string, handler: string)
    | PostHandleLogged(modelAndView: string)
    | HandlerResponseLogged(logId: Option<string>, uri: string, handler: string)
    | ErrorLogged(exception: string)

  class Trace {
    var events: seq<Event>

    constructor ()
      ensures events == []
    {
      events := [];
    }

    method Append(e: Event)
      modifies this
      ensures events == old(events) + [e]
    {
      events := events + [e];
    }
  }

  class Request {
    const requestURI: string
    /** `getCookies()`: `null` when the request carries no cookie. */
    const cookies: Option<seq<Cookie>>
    /** The container session bound to this request, if any. */
    var session: Option<SessionAttributes>
    /** Request attributes (only string values are used). */
    var attributes: map<string, string>

    constructor (requestURI: string, cookies: Option<seq<Cookie>>, session: Option<SessionAttributes>)
      ensures this.requestURI == requestURI && this.cookies == cookies
      ensures this.session == session && attributes == map[]
    {
      this.requestURI := requestURI;
      this.cookies := cookies;
      this.session := session;
      attributes := map[];
    }

    /** `getSession()` (create = true): the existing session, or a new empty one. */
    method GetSession()
      modifies this`session
      ensures session == if old(session).Some? then old(session) else Some(map[])
    {
      if session.None? {
        session := Some(map[]);
      }
    }

    /** `session.setAttribute(name, value)` on the session just obtained. */
    method SetSessionAttribute(name: string, value: Member)
      requires session.Some?
      modifies this`session
      ensures session == Some(old(session).value[name := value])
    {
      session := Some(session.value[name := value]);
    }

    /** `session.invalidate()`: the session and all its attributes are gone. */
    method InvalidateSession()
      requires session.Some?
      modifies this`session
      ensures session == None
    {
      session := None;
    }

    /** `setAttribute(name, value)`. */
    method SetAttribute(name: string, value: string)
      modifies this`attributes
      ensures attributes == old(attributes)[name := value]
    {
      attributes := attributes[name := value];
    }
  }

  class Response {
    var cookies: seq<Cookie>
    var redirectLocation: Option<string>

    constructor ()
      ensures cookies == [] && redirectLocation == None
    {
      cookies := [];
      redirectLocation := None;
    }

    /** `addCookie(c)`. */
    method AddCookie(c: Cookie)
      modifies this`cookies
      ensures cookies == old(cookies) + [c]
    {
      cookies := cookies + [c];
    }

    /** `sendRedirect(location)`. */
    method SendRedirect(location: string)
      modifies this`redirectLocation
      ensures redirectLocation == Some(location)
    {
      redirectLocation := Some(location);
    }
  }
}
