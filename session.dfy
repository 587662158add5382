/** The hand-written session store keyed by an unguessable token. */
module Session {
  import opened Wrappers
  import opened Http

  const SESSION_COOKIE_NAME: string := "mySessionId"

  /** The first cookie of `cs` named `name`. */
  function FirstNamed(cs: seq<Cookie>, name: string): (r: Option<Cookie>)
    ensures r.None? <==> forall i :: 0 <= i < |cs| ==> cs[i].name != name
    ensures r.Some? ==> exists i :: 0 <= i < |cs| && cs[i] == r.value && r.value.name == name &&
                                    forall j :: 0 <= j < i ==> cs[j].name != name
  {
    if cs == [] then None
    else if cs[0].name == name then Some(cs[0])
    else
      var r := FirstNamed(cs[1..], name);
      assert forall i :: 1 <= i < |cs| ==> cs[i] == cs[1..][i - 1];
      r
  }

  /**
   * `findCookie`: `null` when the request has no cookies or none is named
   * `cookieName`; otherwise a cookie of the request with that name (the
   * sequential stream's `findAny` yields the first one).
   */
  function FindCookie(request: Request, cookieName: string): (r: Option<Cookie>)
    ensures request.cookies.None? ==> r.None?
    ensures request.cookies.Some? ==>
              (r.None? <==> forall i :: 0 <= i < |request.cookies.value| ==> request.cookies.value[i].name != cookieName)
    ensures r.Some? ==> request.cookies.Some? && r.value in request.cookies.value && r.value.name == cookieName
  {
    match request.cookies
    case None => None
    case Some(cs) => FirstNamed(cs, cookieName)
  }

  /** The token the request presents: the value of its `mySessionId` cookie. */
  function SessionToken(request: Request): (r: Option<string>)
    ensures r.Some? ==> request.cookies.Some? &&
                        exists i :: 0 <= i < |request.cookies.value| && request.cookies.value[i].name == SESSION_COOKIE_NAME &&
                                    request.cookies.value[i].value == r
    ensures request.cookies.Some? && (forall i :: 0 <= i < |request.cookies.value| ==> request.cookies.value[i].name != SESSION_COOKIE_NAME) ==>
              r.None?
  {
    match FindCookie(request, SESSION_COOKIE_NAME)
    case Some(Cookie(_, Some(token), _)) => Some(token)
    case _ => None
  }

  /** Some string is not a key of a finite map: one longer than every key. */
  lemma FreshTokenExists<V>(store: map<string, V>)
    ensures exists t :: t !in store
  {
    var n := LengthBound(store.Keys);
    var t := seq(n, _ => 'x');
    assert t !in store;
  }

  lemma LengthBound(keys: set<string>) returns (n: nat)
    ensures forall k :: k in keys ==> |k| < n
  {
    if keys == {} {
      n := 0;
    } else {
      var k :| k in keys;
      var m := LengthBound(keys - {k});
      n := if |k| + 1 > m then |k| + 1 else m;
    }
  }

  /**
   * A session for `value` was issued: exactly one cookie was added, named
   * `mySessionId`, with no max-age, whose value is a token that was not in
   * the store before and now maps to `value`; every other entry is as it was.
   */
  predicate SessionIssued<V(==)>(oldStore: map<string, V>, store: map<string, V>,
                                 oldCookies: seq<Cookie>, cookies: seq<Cookie>, value: V): (r: bool)
    ensures r ==> |store| == |oldStore| + 1 && oldStore.Keys < store.Keys
    ensures r ==> forall t :: t in oldStore ==> store[t] == oldStore[t]
  {
    && |cookies| == |oldCookies| + 1
    && cookies[..|oldCookies|] == oldCookies
    && cookies[|oldCookies|].name == SESSION_COOKIE_NAME
    && cookies[|oldCookies|].value.Some?
    && cookies[|oldCookies|].maxAge == -1
    && cookies[|oldCookies|].value.value !in oldStore
    && store == oldStore[cookies[|oldCookies|].value.value := value]
  }

  class SessionManager<V> {
    var sessionStore: map<string, V>

    constructor ()
      ensures sessionStore == map[]
    {
      sessionStore := map[];
    }

    /**
     * `createSession`: stores `value` under a token that was not yet in use
     * and hands the token, and only the token, to the client in a
     * `mySessionId` cookie.
     */
    method CreateSession(value: V, response: Response)
      modifies this, response`cookies
      ensures SessionIssued(old(sessionStore), sessionStore, old(response.cookies), response.cookies, value)
      ensures forall t :: t in old(sessionStore) ==> t in sessionStore && sessionStore[t] == old(sessionStore)[t]
    {
      FreshTokenExists(sessionStore);
      var sessionId: string :| sessionId !in sessionStore;
      sessionStore := sessionStore[sessionId := value];
      response.AddCookie(NewCookie(SESSION_COOKIE_NAME, sessionId));
    }

    /** `getSession`: the value stored under the request's token, or `null`. */
    function GetSession(request: Request): (r: Option<V>)
      reads this
      ensures SessionToken(request).None? ==> r.None?
      ensures SessionToken(request).Some? && SessionToken(request).value !in sessionStore ==> r.None?
      ensures r.Some? ==> SessionToken(request).Some? && SessionToken(request).value in sessionStore &&
                          r.value == sessionStore[SessionToken(request).value]
    {
      match SessionToken(request)
      case None => None
      case Some(token) => if token in sessionStore then Some(sessionStore[token]) else None
    }

    /**
     * `expire`: removes the entry of the request's token and nothing else; a
     * request without a session cookie, or whose token is already gone,
     * leaves the store as it was.
     */
    method Expire(request: Request)
      modifies this
      ensures SessionToken(request).None? ==> sessionStore == old(sessionStore)
      ensures SessionToken(request).Some? ==> sessionStore == old(sessionStore) - {SessionToken(request).value}
      ensures SessionToken(request).Some? && SessionToken(request).value !in old(sessionStore) ==>
                sessionStore == old(sessionStore)
      ensures GetSession(request).None?
    {
      var sessionCookie := FindCookie(request, SESSION_COOKIE_NAME);
      if sessionCookie.Some? && sessionCookie.value.value.Some? {
        sessionStore := sessionStore - {sessionCookie.value.value.value};
      }
    }
  }

  /**
   * Whatever the manager already holds, a client presenting the cookie
   * issued by `createSession(v)` gets `v` back, and nothing once the
   * session has expired; the store ends as it began.
   */
  method RoundTrip<V>(manager: SessionManager<V>, value: V) returns (found: Option<V>, expired: Option<V>)
    modifies manager
    ensures found == Some(value)
    ensures expired == None
    ensures manager.sessionStore == old(manager.sessionStore)
  {
    var response := new Response();
    manager.CreateSession(value, response);
    var request := new Request("/", Some(response.cookies), None);
    assert request.cookies.value[0].name == SESSION_COOKIE_NAME;
    found := manager.GetSession(request);
    manager.Expire(request);
    expired := manager.GetSession(request);
  }
}
