/**
 * The client object: its configuration, the session, the cached state and
 * the time of the last successful refresh. Requests go out with the current
 * token; a 401 reply makes the client log in again and send the request once
 * more, with whatever token it holds after that login. A refresh is skipped
 * within ten seconds of the last successful one, and only a successful fetch
 * and decode replaces the cached state.
 */
module HiveClient {
  import opened Wrappers
  import opened HiveResponse
  import opened HiveState
  import opened HiveTransport
  import opened HiveSession
  import opened HiveCommands

  datatype Config = Config(username: string, password: string, refreshInterval: Duration)

  const DefaultRefreshInterval: Duration := 60 * Second

  /** Seconds after a successful refresh during which another one is skipped. */
  const AvoidRetrySeconds: int := 10

  const NodesPath: string := "/omnia/nodes"

  /** The polling interval actually used: one below a nanosecond is replaced by the default. */
  function EffectiveRefreshInterval(d: Duration): (r: Duration)
    ensures r >= 1
    ensures r == d <==> d >= 1
    ensures r != d ==> r == DefaultRefreshInterval
  {
    if d < 1 then DefaultRefreshInterval else d
  }

  /**
   * The debounce test of getStatus, on epoch seconds: a refresh up to nine
   * seconds ago, or one stamped later than `now`, suppresses the next one; a
   * refresh ten or more seconds ago does not.
   */
  function RecentlyRefreshed(lastRefresh: Int64, now: Int64): (recent: bool)
    ensures lastRefresh <= now ==> (recent <==> now - lastRefresh < AvoidRetrySeconds)
    ensures lastRefresh > now ==> recent
    ensures lastRefresh == 0 && now >= AvoidRetrySeconds ==> !recent
  {
    lastRefresh > now - AvoidRetrySeconds
  }

  /** The node list a reply delivers, if it is a response whose body decodes as a node listing. */
  function NodesOf(r: Reply): Option<seq<NodeInfo>>
  {
    if r.Response? && r.body.asNodes.Decoded? then Some(r.body.asNodes.value.nodes) else None
  }

  /** The error a command returns: only a request that got no response fails. */
  function CommandError(r: Reply): (err: Option<string>)
    ensures err.Some? <==> r.Failed?
  {
    if r.Failed? then Some(r.cause) else None
  }

  function LoginFor(c: Config): Request
  {
    LoginRequest(c.username, c.password)
  }

  /** What one authenticated request does: the final reply, the requests sent, the replies left, the re-login decision if any. */
  datatype Exchange = Exchange(reply: Reply, sent: seq<Request>, rest: seq<Reply>, relogin: Option<Result<Session, LoginError>>)

  /** The token held after a login decision. */
  function TokenAfter(token: string, d: Result<Session, LoginError>): string
  {
    if d.Ok? then d.value.token else token
  }

  /**
   * The retry rule of getHTTP and putHTTP: `req` is sent with `token`; only a
   * 401 response leads to a login (request `login`) and one more sending of
   * `req`, which carries the token held after that login, whether it
   * succeeded or not. A request that got no response is never retried.
   */
  function Retry(req: Request, token: string, login: Request, script: seq<Reply>): (e: Exchange)
    ensures |e.sent| == (if IsUnauthorized(Next(script)) then 3 else 1)
    ensures e.sent[0] == req
    ensures e.rest == if |e.sent| == 3 then Rest(Rest(Rest(script))) else Rest(script)
    ensures !IsUnauthorized(Next(script)) ==> e.reply == Next(script) && e.relogin == None
    ensures Next(script).Failed? ==> e.reply == Next(script) && |e.sent| == 1
    ensures |e.sent| == 3 ==>
      e.relogin == Some(LoginDecision(Next(Rest(script))))
      && e.sent[1] == login
      && e.sent[2] == WithToken(req, TokenAfter(token, e.relogin.value))
      && e.reply == Next(Rest(Rest(script)))
  {
    var first := Next(script);
    if !IsUnauthorized(first) then
      Exchange(first, [req], Rest(script), None)
    else
      var d := LoginDecision(Next(Rest(script)));
      Exchange(Next(Rest(Rest(script))), [req, login, WithToken(req, TokenAfter(token, d))], Rest(Rest(Rest(script))), Some(d))
  }

  /** The session after an exchange: replaced only by a successful re-login. */
  function SessionAfter(current: Session, e: Exchange): Session
  {
    match e.relogin
    case None => current
    case Some(d) => Adopt(current, d)
  }

  /**
   * A PUT whose first answer is 401: the re-login is accepted, the request is
   * sent again with the new token and its JSON content type, and the caller
   * gets the reply to that second sending.
   */
  lemma PutRetryCarriesNewToken(url: string, oldToken: string, update: NodesReply, login: Request, first: Reply, accepted: Reply, last: Reply)
    requires IsUnauthorized(first)
    requires accepted.Response? && accepted.status == StatusOK
    requires accepted.body.asLogin.Decoded? && accepted.body.asLogin.value.token != ""
    ensures var e := Retry(PutRequest(url, oldToken, update), oldToken, login, [first, accepted, last]);
      && |e.sent| == 3
      && e.sent[2].headers[TokenHeader] == accepted.body.asLogin.value.token
      && e.sent[2].headers[ContentHeader] == JsonValue
      && e.sent[2].payload == NodesUpdate(update)
      && e.reply == last
      && e.rest == []
  {
  }

  class Hive {
    var config: Config
    var lastRefresh: Int64
    var token: string
    var baseURL: string
    var lastState: State
    /** The node list the cached state was derived from. */
    ghost var lastNodes: seq<NodeInfo>
    const upstream: Upstream

    ghost predicate Valid()
      reads this
    {
      SessionConsistent(CurrentSession()) && lastState == Reduce(lastNodes)
    }

    function CurrentSession(): Session
      reads this
    {
      Session(token, baseURL)
    }

    /** The exchange happened: the server saw its requests, used its replies, and the session followed. */
    twostate predicate Performed(e: Exchange)
      reads this, upstream
    {
      && upstream.received == old(upstream.received) + e.sent
      && upstream.script == e.rest
      && CurrentSession() == SessionAfter(old(CurrentSession()), e)
    }

    constructor (config: Config, upstream: Upstream)
      ensures Valid()
      ensures this.config == config && this.upstream == upstream
      ensures CurrentSession() == Session("", "") && lastRefresh == 0 && lastState == ZeroState
    {
      this.config := config;
      this.upstream := upstream;
      lastRefresh := 0;
      token := "";
      baseURL := "";
      lastState := ZeroState;
      lastNodes := [];
    }

    /** The snapshot readers get. */
    method GetState() returns (s: State)
      requires Valid()
      ensures s == lastState && s == Reduce(lastNodes)
    {
      s := lastState;
    }

    /** Posts the credentials; the session changes only when the reply is accepted. */
    method Login() returns (err: Option<LoginError>)
      requires Valid()
      modifies this`token, this`baseURL, upstream
      ensures Valid()
      ensures var d := LoginDecision(Next(old(upstream.script)));
        && err == (if d.Ok? then None else Some(d.error))
        && CurrentSession() == Adopt(old(CurrentSession()), d)
      ensures upstream.received == old(upstream.received) + [LoginFor(config)]
      ensures upstream.script == Rest(old(upstream.script))
    {
      var res := upstream.Exchange(LoginFor(config));
      match res
      case Failed(cause) =>
        return Some(Unreachable(cause));
      case Response(status, statusText, headers, body) =>
        if body.asLogin.DecodeError? && status == StatusOK {
          return Some(Undecodable(body.asLogin.cause));
        }
        if status != StatusOK {
          return Some(BadStatus(statusText, ReasonOf(body.asLogin)));
        }
        var reply := body.asLogin.value;
        if reply.token == "" {
          return Some(InvalidToken);
        }
        baseURL := Scheme + Split(HeaderValue(headers, EndpointHeader), ':')[0];
        token := reply.token;
        return None;
    }

    /** Sends `req`, and after a 401 logs in and sends it once more with the token then held. */
    method Send(req: Request) returns (res: Reply)
      requires Valid()
      modifies this`token, this`baseURL, upstream
      ensures Valid()
      ensures var e := Retry(req, old(token), LoginFor(config), old(upstream.script));
        res == e.reply && Performed(e)
    {
      res := upstream.Exchange(req);
      if res.Response? && res.status == StatusUnauthorized {
        var loginErr := Login();
        res := upstream.Exchange(WithToken(req, token));
      }
    }

    method GetHTTP(url: string) returns (res: Reply)
      requires Valid()
      modifies this`token, this`baseURL, upstream
      ensures Valid()
      ensures var e := Retry(GetRequest(url, old(token)), old(token), LoginFor(config), old(upstream.script));
        res == e.reply && Performed(e)
    {
      res := Send(GetRequest(url, token));
    }

    method PutHTTP(url: string, update: NodesReply) returns (res: Reply)
      requires Valid()
      modifies this`token, this`baseURL, upstream
      ensures Valid()
      ensures var e := Retry(PutRequest(url, old(token), update), old(token), LoginFor(config), old(upstream.script));
        res == e.reply && Performed(e)
    {
      res := Send(PutRequest(url, token, update));
    }

    /** The interval defaulting done when polling starts. */
    method StartPolling()
      modifies this`config
      ensures config == old(config).(refreshInterval := EffectiveRefreshInterval(old(config).refreshInterval))
    {
      if config.refreshInterval < 1 {
        config := config.(refreshInterval := DefaultRefreshInterval);
      }
    }

    /** One refresh at epoch second `now`. */
    method GetStatus(now: Int64)
      requires Valid()
      modifies this`token, this`baseURL, this`lastState, this`lastNodes, this`lastRefresh, upstream
      ensures Valid()
      ensures RecentlyRefreshed(old(lastRefresh), now) ==> unchanged(this, upstream)
      ensures !RecentlyRefreshed(old(lastRefresh), now) ==>
        var e := Retry(GetRequest(old(baseURL) + NodesPath, old(token)), old(token), LoginFor(config), old(upstream.script));
        && Performed(e)
        && match NodesOf(e.reply)
           case Some(nodes) => lastState == Reduce(nodes) && lastRefresh == now
           case None => lastState == old(lastState) && lastRefresh == old(lastRefresh)
    {
      if lastRefresh > now - AvoidRetrySeconds {
        return;
      }

      var res := GetHTTP(baseURL + NodesPath);
      if res.Failed? {
        return;
      }
      if res.body.asNodes.DecodeError? {
        return;
      }

      var state := NewStateFromNodes(res.body.asNodes.value.nodes);
      lastState := state;
      lastNodes := res.body.asNodes.value.nodes;
      lastRefresh := now;
    }

    /** Asks for target temperature `temp` on node `heatingNodeID`, as given: no clamping. */
    method SetTargetTemp(temp: Celsius, heatingNodeID: string) returns (err: Option<string>)
      requires Valid()
      modifies this`token, this`baseURL, upstream
      ensures Valid()
      ensures var e := Retry(PutRequest(CommandURL(heatingNodeID), old(token), TargetTempPayload(temp)), old(token), LoginFor(config), old(upstream.script));
        err == CommandError(e.reply) && Performed(e)
    {
      var res := PutHTTP(CommandURL(heatingNodeID), TargetTempPayload(temp));
      err := if res.Failed? then Some(res.cause) else None;
    }

    /** Boosts the hot water for `duration`, or returns it to its schedule. */
    method ToggleHotWater(on: bool, duration: Duration, hotWaterNodeID: string) returns (err: Option<string>)
      requires Valid()
      modifies this`token, this`baseURL, upstream
      ensures Valid()
      ensures var e := Retry(PutRequest(CommandURL(hotWaterNodeID), old(token), BoostPayload(on, duration)), old(token), LoginFor(config), old(upstream.script));
        err == CommandError(e.reply) && Performed(e)
    {
      var res := PutHTTP(CommandURL(hotWaterNodeID), BoostPayload(on, duration));
      err := if res.Failed? then Some(res.cause) else None;
    }

    /** Boosts the heating for `duration`, or returns it to its schedule: the hot-water payload, sent to the heating node. */
    method ToggleHeatingBoost(on: bool, duration: Duration, heatingNodeID: string) returns (err: Option<string>)
      requires Valid()
      modifies this`token, this`baseURL, upstream
      ensures Valid()
      ensures var e := Retry(PutRequest(CommandURL(heatingNodeID), old(token), BoostPayload(on, duration)), old(token), LoginFor(config), old(upstream.script));
        err == CommandError(e.reply) && Performed(e)
    {
      var res := PutHTTP(CommandURL(heatingNodeID), BoostPayload(on, duration));
      err := if res.Failed? then Some(res.cause) else None;
    }
  }

  /** Builds a client and logs in; a failed login yields no client. */
  method Connect(config: Config, upstream: Upstream) returns (h: Hive?, err: Option<LoginError>)
    modifies upstream
    ensures var d := LoginDecision(Next(old(upstream.script)));
      && (h != null <==> d.Ok?)
      && err == (if d.Ok? then None else Some(d.error))
      && (h != null ==>
            fresh(h) && h.Valid() && h.config == config && h.upstream == upstream
            && h.CurrentSession() == d.value && h.lastState == ZeroState && h.lastRefresh == 0)
    ensures upstream.received == old(upstream.received) + [LoginFor(config)]
    ensures upstream.script == Rest(old(upstream.script))
  {
    h := new Hive(config, upstream);
    err := h.Login();
    if err.Some? {
      h := null;
    }
  }
}
