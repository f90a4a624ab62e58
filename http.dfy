/** The HTTP layer as seen by the scraper: the requests it sends, the
    responses it gets back, and a network that answers every request from the
    history of the requests sent before it (which stands for cookies and any
    other server-side state).  Sockets, redirects and cookies themselves are
    not modelled. */
module Http {
  import opened Common

  /** A response: its status code and its body (`response.text`, which is
      also what the HTML library is given). */
  datatype Response = Response(status: int, body: string)

  datatype Verb = GET | POST

  /** How a request leaves the program: through the module-level
      `requests.get` (optionally with a timeout in seconds), or through the
      logged-in `requests.Session`. */
  datatype Route = Anonymous(timeout: Option<int>) | ThroughSession

  datatype Request = Request(verb: Verb, url: string, headers: map<string, string>,
                             form: map<string, string>, route: Route)

  /** How the far side answers: given the requests already sent and the new
      one, it returns a response or makes the call raise. */
  type Responder = (seq<Request>, Request) -> Outcome<Response>

  /** `response.ok` of the requests library: false exactly for the 4xx and 5xx
      status codes. */
  predicate IsOk(r: Response)
  {
    !(400 <= r.status < 600)
  }

  /** The answer of the transport as a call returning `Optional[Response]`
      sees it: a response is present, an exception is passed on. */
  function Lift(o: Outcome<Response>): Outcome<Option<Response>>
  {
    match o
    case Returned(resp) => Returned(Some(resp))
    case Raised(e) => Raised(e)
  }

  /** The network.  `log` lists every request sent, in order. */
  class Network {
    const respond: Responder
    var log: seq<Request>

    constructor (respond: Responder)
      ensures this.respond == respond && log == []
    {
      this.respond := respond;
      log := [];
    }

    /** Sends one request: it is appended to the log and answered from the
        history before it. */
    method Send(req: Request) returns (r: Outcome<Response>)
      modifies this`log
      ensures log == old(log) + [req]
      ensures r == respond(old(log), req)
    {
      r := respond(log, req);
      log := log + [req];
    }
  }
}
