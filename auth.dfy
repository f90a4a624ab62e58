/** `CNC1Auth` (auth.py): a login handle for one site.  It is a two-state
    machine, unauthenticated and then authenticated, moved only by `Login`;
    `Get` sends requests through the logged-in session and refuses to do
    anything before login. */
module Auth {
  import opened Common
  import opened Text
  import opened Http

  const LoginUrl := "https://cnc1.ru/auth/?login=yes"

  const UserAgent := "Mozilla/5.0 (Windows NT 10.0; Win64; x64) AppleWebKit/537.36 (KHTML, like Gecko) Chrome/138.0.0.0 Safari/537.36"

  /** The headers sent with the login request. */
  const LoginHeaders: map<string, string> := map[
    "Content-Type" := "application/x-www-form-urlencoded; charset=UTF-8",
    "X-Requested-With" := "XMLHttpRequest",
    "User-Agent" := UserAgent,
    "Referer" := "https://cnc1.ru/?login=yes"
  ]

  /** The text whose presence in the response marks a failed login. */
  const FailureMarker := "Ошибка"

  /** The form posted by `login`. */
  function LoginPayload(username: string, password: string): map<string, string>
  {
    map[
      "backurl" := "/?login=yes",
      "AUTH_FORM" := "Y",
      "TYPE" := "AUTH",
      "POPUP_AUTH" := "Y",
      "AUTH_TYPE" := "login",
      "USER_LOGIN" := username,
      "USER_PASSWORD" := password,
      "Login" := "Y"
    ]
  }

  /** The names of the fields of the login form. */
  const FormFields: set<string> := {"backurl", "AUTH_FORM", "TYPE", "POPUP_AUTH", "AUTH_TYPE", "USER_LOGIN", "USER_PASSWORD", "Login"}

  /** The login form always has the same eight fields. */
  lemma LoginPayloadKeys(u: string, p: string)
    ensures LoginPayload(u, p).Keys == FormFields
    ensures |LoginPayload(u, p).Keys| == 8
  {
    FormFieldCount();
  }

  /** The eight field names are distinct. */
  lemma FormFieldCount()
    ensures |FormFields| == 8
  {
    assert "AUTH_FORM"[5] != "AUTH_TYPE"[5];
    assert "POPUP_AUTH"[0] != "USER_LOGIN"[0];
  }

  /** The credentials fill `USER_LOGIN` and `USER_PASSWORD`. */
  lemma LoginPayloadCredentials(u: string, p: string)
    ensures LoginPayload(u, p)["USER_LOGIN"] == u && LoginPayload(u, p)["USER_PASSWORD"] == p
  {
    assert "USER_LOGIN" != "Login" && "USER_PASSWORD" != "Login";
  }

  /** Every field other than the two credentials is the same whatever the
      credentials are. */
  lemma LoginPayloadRest(u: string, p: string, u': string, p': string)
    ensures LoginPayload(u, p) - {"USER_LOGIN", "USER_PASSWORD"}
            == LoginPayload(u', p') - {"USER_LOGIN", "USER_PASSWORD"}
  {
    var a, b := LoginPayload(u, p) - {"USER_LOGIN", "USER_PASSWORD"}, LoginPayload(u', p') - {"USER_LOGIN", "USER_PASSWORD"};
    LoginPayloadKeys(u, p);
    LoginPayloadKeys(u', p');
    assert a.Keys == b.Keys;
    forall k | k in a
      ensures a[k] == b[k]
    {
    }
  }

  /** The request `login` sends. */
  function LoginRequest(username: string, password: string): Request
  {
    Request(POST, LoginUrl, LoginHeaders, LoginPayload(username, password), ThroughSession)
  }

  /** The success test of `login`: status 200 and no failure marker in the
      body. */
  predicate LoginSucceeded(r: Response)
  {
    r.status == 200 && !Contains(r.body, FailureMarker)
  }

  /** `headers.setdefault("User-Agent", ...)`: a caller's own `User-Agent` is
      kept, a missing one is added, and every other header passes through. */
  function WithDefaultAgent(h: map<string, string>, agent: string): (r: map<string, string>)
    ensures r.Keys == h.Keys + {"User-Agent"}
    ensures forall k :: k in h ==> r[k] == h[k]
    ensures "User-Agent" !in h ==> r["User-Agent"] == agent
  {
    if "User-Agent" in h then h else h["User-Agent" := agent]
  }

  /** A Python `dict` of headers that a caller owns and `Get` may change. */
  class HeaderDict {
    var items: map<string, string>

    constructor (items: map<string, string>)
      ensures this.items == items
    {
      this.items := items;
    }
  }

  /** The `requests.Session` a handle owns; its cookie jar is not modelled. */
  class Session {
    constructor ()
    {
    }
  }

  class CNC1Auth {
    const username: string
    const password: string
    const session: Session
    /** The `User-Agent` of `HEADERS`, which `get` adds by default. */
    const userAgent: string
    var authenticated: bool

    /** A new handle holds the credentials and a fresh session, and is not
        logged in. */
    constructor (username: string, password: string)
      ensures this.username == username && this.password == password
      ensures userAgent == UserAgent && LoginHeaders["User-Agent"] == userAgent
      ensures fresh(session)
      ensures !authenticated
    {
      this.username := username;
      this.password := password;
      userAgent := UserAgent;
      session := new Session();
      authenticated := false;
    }

    /** `login()`: posts the login form once through the session.  It returns
        true, and the handle becomes authenticated, exactly when the answer
        passes `LoginSucceeded`; a failed attempt returns false and leaves the
        flag as it was, so an authenticated handle stays authenticated.  An
        exception from the POST propagates and changes nothing. */
    method Login(net: Network) returns (r: Outcome<bool>)
      modifies this`authenticated, net`log
      ensures net.log == old(net.log) + [LoginRequest(username, password)]
      ensures var reply := net.respond(old(net.log), LoginRequest(username, password));
              && authenticated == AfterLogin(old(authenticated), reply)
              && r == (match reply
                       case Raised(e) => Raised(e)
                       case Returned(resp) => Returned(LoginSucceeded(resp)))
    {
      var reply := net.Send(LoginRequest(username, password));
      match reply
      case Raised(e) =>
        r := Raised(e);
      case Returned(resp) =>
        if resp.status == 200 && !Contains(resp.body, FailureMarker) {
          authenticated := true;
          r := Returned(true);
        } else {
          r := Returned(false);
        }
    }

    /** `get(url, headers=...)`: before login it returns `None` and sends
        nothing.  After login it sets a default `User-Agent` in the caller's
        header dictionary (or in a fresh one when the caller gave none), sends
        the request through the session with those headers and returns the
        answer; an exception from the transport propagates. */
    method Get(url: string, headers: HeaderDict?, net: Network) returns (r: Outcome<Option<Response>>)
      modifies headers, net`log
      ensures !authenticated ==> r == Returned(None) && net.log == old(net.log)
      ensures !authenticated && headers != null ==> headers.items == old(headers.items)
      ensures authenticated ==>
        var sent := WithDefaultAgent(if headers == null then map[] else old(headers.items), userAgent);
        var req := Request(GET, url, sent, map[], ThroughSession);
        && net.log == old(net.log) + [req]
        && (headers != null ==> headers.items == sent)
        && r == Lift(net.respond(old(net.log), req))
    {
      if !authenticated {
        return Returned(None);
      }
      var h: map<string, string> := if headers == null then map[] else headers.items;
      h := WithDefaultAgent(h, userAgent);
      if headers != null {
        headers.items := h;
      }
      var reply := net.Send(Request(GET, url, h, map[], ThroughSession));
      r := Lift(reply);
    }

    /** `is_authenticated()` only reads the flag. */
    function IsAuthenticated(): bool
      reads this
    {
      authenticated
    }

    /** `get_session()`: the session when the handle is authenticated, and
        `None` otherwise. */
    function GetSession(): (s: Session?)
      reads this
      ensures s != null <==> authenticated
      ensures s != null ==> s == session
    {
      if authenticated then session else null
    }
  }

  /** The state machine of a handle: the flag after a login attempt given the
      flag before it and the answer of the POST. */
  function AfterLogin(was: bool, reply: Outcome<Response>): bool
  {
    match reply
    case Raised(_) => was
    case Returned(resp) => was || LoginSucceeded(resp)
  }

  /** The flag after a run of login attempts. */
  function AfterLogins(was: bool, replies: seq<Outcome<Response>>): bool
  {
    if replies == [] then was else AfterLogin(AfterLogins(was, replies[..|replies| - 1]), replies[|replies| - 1])
  }

  /** Any run of login attempts ends authenticated exactly when it started so
      or one of its attempts got a successful answer: the flag is never
      reset, and a failed attempt after a successful one changes nothing. */
  lemma {:induction false} AfterLoginsMonotone(was: bool, replies: seq<Outcome<Response>>)
    ensures AfterLogins(was, replies)
            <==> was || exists k :: 0 <= k < |replies| && replies[k].Returned? && LoginSucceeded(replies[k].value)
  {
    if replies != [] {
      var init := replies[..|replies| - 1];
      AfterLoginsMonotone(was, init);
      assert forall k :: 0 <= k < |init| ==> init[k] == replies[k];
    }
  }
}
