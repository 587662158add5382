/** The resolver that injects the logged-in member into `@Login Member` handler parameters. */
module ArgumentResolver {
  import opened Wrappers
  import opened Members
  import opened Http

  const LOGIN_ANNOTATION: string := "hello.login.web.argumentresolver.Login"
  const MEMBER_CLASS: string := "hello.login.domain.member.Member"

  /** What the resolver asks of a handler parameter: its annotations, its declared type and that type's supertypes. */
  datatype MethodParameter = MethodParameter(annotations: set<string>, parameterType: string, supertypes: set<string>)

  /** `Member.class.isAssignableFrom(type)`: the type is `Member` or a subtype of it. */
  predicate AssignableToMember(p: MethodParameter)
  {
    p.parameterType == MEMBER_CLASS || MEMBER_CLASS in p.supertypes
  }

  /** `supportsParameter`: the parameter carries `@Login` and its type is assignable to `Member`. */
  function SupportsParameter(p: MethodParameter): (supported: bool)
    ensures supported <==> LOGIN_ANNOTATION in p.annotations && AssignableToMember(p)
  {
    var hasLoginAnnotation := LOGIN_ANNOTATION in p.annotations;
    var hasMemberType := AssignableToMember(p);
    hasLoginAnnotation && hasMemberType
  }

  /** The parameter of the mapped `/` handler, `@Login Member loginMember`. */
  const HomeParameter: MethodParameter := MethodParameter({LOGIN_ANNOTATION}, MEMBER_CLASS, {"java.lang.Object"})

  /** The `/` handler's parameter is resolved here; a `Member` without `@Login`, or `@Login` on another type, is not. */
  lemma SupportedParameters()
    ensures SupportsParameter(HomeParameter)
    ensures !SupportsParameter(HomeParameter.(annotations := {}))
    ensures !SupportsParameter(MethodParameter({LOGIN_ANNOTATION}, "java.lang.String", {"java.lang.Object"}))
  {
  }

  /**
   * `resolveArgument`: `null` without a session, otherwise the session's
   * `loginMember` attribute, itself possibly `null`. Being a function that
   * only reads the request, it never creates a session.
   */
  function ResolveArgument(request: Request): (loginMember: Option<Member>)
    reads request
    ensures request.session.None? ==> loginMember.None?
    ensures request.session.Some? ==>
              (loginMember.Some? <==> LOGIN_MEMBER in request.session.value) &&
              (loginMember.Some? ==> loginMember.value == request.session.value[LOGIN_MEMBER])
  {
    var session := request.session;
    if session.None? then None
    else if LOGIN_MEMBER in session.value then Some(session.value[LOGIN_MEMBER])
    else None
  }

  /** The resolver injects a member exactly when the `getSession(false)` login check would let the request through. */
  lemma ResolverAgreesWithGate(request: Request)
    ensures ResolveArgument(request) == LoggedInMember(request.session)
  {
  }
}
