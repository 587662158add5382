/** The servlet filter that logs every request before and after the rest of the chain. */
module LogFilter {
  import opened Wrappers
  import opened Http

  /**
   * `doFilter`: one id per request, supplied by the caller in place of
   * `UUID.randomUUID()`. The REQUEST line is written before the chain runs,
   * the RESPONSE line with the same id after it whether it returned or
   * threw, and a thrown exception is passed on unchanged.
   */
  method DoFilter(request: Request, trace: Trace, uuid: string, next: Outcome) returns (result: Outcome)
    modifies trace
    ensures trace.events == old(trace.events) +
              [RequestLogged(uuid, request.requestURI), ChainInvoked(request.requestURI), ResponseLogged(uuid, request.requestURI)]
    ensures result == next
  {
    var requestURI := request.requestURI;
    trace.Append(RequestLogged(uuid, requestURI));
    trace.Append(ChainInvoked(requestURI));
    result := next;
    trace.Append(ResponseLogged(uuid, requestURI));
  }

  /** The log lines of one request on a fresh trace: the chain call sits between two lines with the same id. */
  method LoggedRequest(uri: string, uuid: string, next: Outcome) returns (events: seq<Event>, result: Outcome)
    ensures |events| == 3 && events[1] == ChainInvoked(uri)
    ensures events[0].RequestLogged? && events[2].ResponseLogged?
    ensures events[0].id == events[2].id == uuid && events[0].uri == events[2].uri == uri
    ensures result == next
  {
    var request := new Request(uri, None, None);
    var trace := new Trace();
    result := DoFilter(request, trace, uuid, next);
    events := trace.events;
  }
}
