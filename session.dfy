/**
 * The session: the access token and the account's API base URL, and the
 * decision login makes on the reply to its form post. A login is accepted only
 * when the status is 200, the body decodes and the token is non-empty; every
 * other outcome is an error and leaves the session as it was.
 */
module HiveSession {
  import opened Wrappers
  import opened HiveResponse
  import opened HiveTransport

  const LoginURL: string := "https://api.hivehome.com/v5/login"
  const Scheme: string := "https://"

  /** The pieces of `s` between occurrences of `sep`, as strings.Split does for a one-character separator. */
  function Split(s: string, sep: char): (parts: seq<string>)
    ensures |parts| >= 1
    ensures forall i :: 0 <= i < |parts| ==> sep !in parts[i]
    ensures Join(parts, sep) == s
    decreases |s|
  {
    if s == [] then [[]]
    else
      var rest := Split(s[1..], sep);
      if s[0] == sep then
        assert Join([[]] + rest, sep) == [sep] + Join(rest, sep);
        [[]] + rest
      else
        var parts := [[s[0]] + rest[0]] + rest[1..];
        assert |rest| >= 2 ==> Join(rest, sep) == rest[0] + [sep] + Join(rest[1..], sep);
        parts
  }

  /** The pieces put back together with `sep` between them. */
  function Join(parts: seq<string>, sep: char): string
    decreases |parts|
  {
    if parts == [] then []
    else if |parts| == 1 then parts[0]
    else parts[0] + [sep] + Join(parts[1..], sep)
  }

  /** A join starts with its first piece, followed by the separator when more pieces follow. */
  lemma JoinHead(parts: seq<string>, sep: char)
    requires |parts| >= 1
    ensures parts[0] <= Join(parts, sep)
    ensures |parts| == 1 ==> Join(parts, sep) == parts[0]
    ensures |parts| >= 2 ==> |parts[0]| < |Join(parts, sep)| && Join(parts, sep)[|parts[0]|] == sep
  {
  }

  /** The first piece of a split is the text before the first separator, or all of it. */
  lemma SplitHead(s: string, sep: char)
    ensures var h := Split(s, sep)[0];
      h <= s && sep !in h && (|h| < |s| ==> s[|h|] == sep)
  {
    JoinHead(Split(s, sep), sep);
  }

  /** The base URL login derives from the endpoint header: the scheme and the host, without the port. */
  function BaseURLFromEndpoint(endpoint: string): (url: string)
    ensures Scheme <= url && |url| <= |Scheme| + |endpoint|
    ensures var host := url[|Scheme|..];
      host <= endpoint && ':' !in host && (|host| < |endpoint| ==> endpoint[|host|] == ':')
    ensures ':' !in endpoint ==> url == Scheme + endpoint
  {
    SplitHead(endpoint, ':');
    var host := Split(endpoint, ':')[0];
    assert (Scheme + host)[|Scheme|..] == host;
    Scheme + host
  }

  datatype LoginError =
    | Unreachable(cause: string)
    | Undecodable(cause: string)
    | BadStatus(status: string, reason: string)
    | InvalidToken

  const LoginFailure: string := "Unable to login: "

  /** The error text login returns: every text starts with the same prefix, followed by the cause when there is one. */
  function Message(e: LoginError): (m: string)
    ensures LoginFailure <= m
    ensures e.Unreachable? ==> m[|LoginFailure|..] == e.cause
    ensures e.Undecodable? ==> m[|LoginFailure|..] == e.cause
    ensures e.BadStatus? ==> m[|LoginFailure|..] == "Incorrect status code " + e.status + ": " + e.reason
    ensures e.InvalidToken? ==> m[|LoginFailure|..] == "Invalid session token returned"
  {
    match e
    case Unreachable(cause) => LoginFailure + cause
    case Undecodable(cause) => LoginFailure + cause
    case BadStatus(status, reason) => LoginFailure + ("Incorrect status code " + status + ": " + reason)
    case InvalidToken => LoginFailure + "Invalid session token returned"
  }

  /** `t` occurs in `s` starting at index `i`. */
  predicate OccursAt(s: string, t: string, i: nat)
  {
    i + |t| <= |s| && s[i..i + |t|] == t
  }

  ghost predicate Contains(s: string, t: string)
  {
    exists i: nat :: OccursAt(s, t, i)
  }

  /** A rejected status is reported with the status text and the reason the server gave. */
  lemma BadStatusMessage(status: string, reason: string)
    ensures Contains(Message(BadStatus(status, reason)), status)
    ensures Contains(Message(BadStatus(status, reason)), reason)
  {
    var m := Message(BadStatus(status, reason));
    var prefix := "Unable to login: Incorrect status code ";
    assert m == prefix + status + ": " + reason;
    assert OccursAt(m, status, |prefix|);
    assert OccursAt(m, reason, |m| - |reason|);
  }

  datatype Session = Session(token: string, baseURL: string)

  /** Token and base URL are set together: both empty before the first login, both set after. */
  predicate SessionConsistent(s: Session)
  {
    (s.token == "" <==> s.baseURL == "") && (s.baseURL != "" ==> Scheme <= s.baseURL)
  }

  /** The session after a login decision: replaced on success, kept on failure. */
  function Adopt(current: Session, d: Result<Session, LoginError>): Session
  {
    if d.Ok? then d.value else current
  }

  /** The form post login sends: the credentials, form-encoded, to the fixed login URL. */
  function LoginRequest(username: string, password: string): (req: Request)
    ensures req.verb == "POST" && req.url == LoginURL
    ensures req.headers == map[ContentHeader := FormValue]
    ensures req.payload.Form? && req.payload.username == username && req.payload.password == password
  {
    Request("POST", LoginURL, map[ContentHeader := FormValue], Form(username, password))
  }

  /** The reason a login body carries, or "" when it did not decode. */
  function ReasonOf(d: Decoded<LoginReply>): string
  {
    if d.Decoded? then d.value.error.reason else ""
  }

  /** What login makes of the reply to its form post. */
  function LoginDecision(r: Reply): (d: Result<Session, LoginError>)
    ensures d.Ok? <==>
      r.Response? && r.status == StatusOK && r.body.asLogin.Decoded? && r.body.asLogin.value.token != ""
    ensures d.Ok? ==>
      d.value.token == r.body.asLogin.value.token
      && d.value.baseURL == BaseURLFromEndpoint(HeaderValue(r.headers, EndpointHeader))
      && SessionConsistent(d.value)
    ensures r.Failed? ==> d == Err(Unreachable(r.cause))
    ensures r.Response? && r.status != StatusOK ==> d == Err(BadStatus(r.statusText, ReasonOf(r.body.asLogin)))
    ensures r.Response? && r.status == StatusOK && r.body.asLogin.DecodeError? ==> d == Err(Undecodable(r.body.asLogin.cause))
    ensures r.Response? && r.status == StatusOK && r.body.asLogin.Decoded? && r.body.asLogin.value.token == "" ==> d == Err(InvalidToken)
  {
    match r
    case Failed(cause) => Err(Unreachable(cause))
    case Response(status, statusText, headers, body) =>
      if body.asLogin.DecodeError? && status == StatusOK then Err(Undecodable(body.asLogin.cause))
      else if status != StatusOK then Err(BadStatus(statusText, ReasonOf(body.asLogin)))
      else if body.asLogin.value.token == "" then Err(InvalidToken)
      else Ok(Session(body.asLogin.value.token, BaseURLFromEndpoint(HeaderValue(headers, EndpointHeader))))
  }

  /** A rejected status is refused, and the error names the status text and the reason in the body. */
  lemma RejectedStatusNamesReason(r: Reply)
    requires r.Response? && r.status != StatusOK
    ensures var d := LoginDecision(r);
      && d.Err?
      && Contains(Message(d.error), r.statusText)
      && Contains(Message(d.error), ReasonOf(r.body.asLogin))
  {
    BadStatusMessage(r.statusText, ReasonOf(r.body.asLogin));
  }

  /** A login decision never breaks the session invariant. */
  lemma AdoptKeepsConsistent(current: Session, r: Reply)
    requires SessionConsistent(current)
    ensures SessionConsistent(Adopt(current, LoginDecision(r)))
  {
  }
}
