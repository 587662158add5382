/** The Spring interceptor that logs each handler call, carrying its id in a request attribute. */
module LogInterceptor {
  import opened Wrappers
  import opened Http

  /** The request attribute that carries the id from `preHandle` to `afterCompletion`. */
  const LOG_ID: string := "logId"

  /**
   * `preHandle`: stores the id (supplied by the caller in place of
   * `UUID.randomUUID()`) under `logId`, logs the request and never blocks it.
   */
  method PreHandle(request: Request, trace: Trace, uuid: string, handler: string) returns (proceed: bool)
    modifies request`attributes, trace
    ensures proceed
    ensures request.attributes == old(request.attributes)[LOG_ID := uuid]
    ensures trace.events == old(trace.events) + [HandlerRequestLogged(uuid, request.requestURI, handler)]
  {
    request.SetAttribute(LOG_ID, uuid);
    trace.Append(HandlerRequestLogged(uuid, request.requestURI, handler));
    return true;
  }

  /** `postHandle`: one log line, nothing else. */
  method PostHandle(request: Request, trace: Trace, modelAndView: string)
    modifies trace
    ensures trace.events == old(trace.events) + [PostHandleLogged(modelAndView)]
  {
    trace.Append(PostHandleLogged(modelAndView));
  }

  /** `request.getAttribute(LOG_ID)`: `null` when `preHandle` did not run. */
  function LogIdOf(attributes: map<string, string>): (logId: Option<string>)
    ensures logId.Some? <==> LOG_ID in attributes
    ensures logId.Some? ==> logId.value == attributes[LOG_ID]
  {
    if LOG_ID in attributes then Some(attributes[LOG_ID]) else None
  }

  /** `afterCompletion`: the RESPONSE line with the stored id, then an error line exactly when there was an exception. */
  method AfterCompletion(request: Request, trace: Trace, handler: string, ex: Option<string>)
    modifies trace
    ensures trace.events == old(trace.events) + [HandlerResponseLogged(LogIdOf(request.attributes), request.requestURI, handler)] +
              (if ex.Some? then [ErrorLogged(ex.value)] else [])
  {
    var logId := LogIdOf(request.attributes);
    trace.Append(HandlerResponseLogged(logId, request.requestURI, handler));
    if ex.Some? {
      trace.Append(ErrorLogged(ex.value));
    }
  }

  /**
   * One request through the interceptor as the dispatcher drives it:
   * `preHandle`, the handler, `postHandle` only when the handler returned,
   * and `afterCompletion` in every case. The RESPONSE line carries the id
   * `preHandle` stored, and an error line follows exactly when the handler threw.
   */
  method HandlerCycle(uri: string, uuid: string, handler: string, outcome: Outcome, modelAndView: string)
    returns (events: seq<Event>)
    ensures outcome.Completed? ==>
              events == [HandlerRequestLogged(uuid, uri, handler), PostHandleLogged(modelAndView),
                         HandlerResponseLogged(Some(uuid), uri, handler)]
    ensures outcome.Threw? ==>
              events == [HandlerRequestLogged(uuid, uri, handler), HandlerResponseLogged(Some(uuid), uri, handler),
                         ErrorLogged(outcome.exception)]
  {
    var request := new Request(uri, None, None);
    var trace := new Trace();
    var proceed := PreHandle(request, trace, uuid, handler);
    var ex: Option<string> := None;
    if proceed {
      if outcome.Completed? {
        PostHandle(request, trace, modelAndView);
      } else {
        ex := Some(outcome.exception);
      }
    }
    AfterCompletion(request, trace, handler, ex);
    events := trace.events;
  }
}
