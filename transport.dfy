/**
 * The HTTP exchanges of the client, as data. The network and the JSON
 * decoder are not modelled: a reply says what decoding its body into each
 * reply record gives, and the upstream service is a scripted server that
 * answers requests with the replies it was given, in order, and records every
 * request it receives.
 */
module HiveTransport {
  import opened Wrappers
  import opened HiveResponse

  const StatusOK: int := 200
  const StatusUnauthorized: int := 401

  // Request headers and their fixed values.
  const TokenHeader: string := "X-Omnia-Access-Token"
  const AcceptHeader: string := "Accept"
  const ClientHeader: string := "X-Omnia-Client"
  const ContentHeader: string := "Content-Type"
  const AcceptValue: string := "application/vnd.alertme.zoo-6.1+json"
  const ClientValue: string := "HiveKit"
  const JsonValue: string := "application/json"
  const FormValue: string := "application/x-www-form-urlencoded"

  /** The response header that names the account's API host, as host:port. */
  const EndpointHeader: string := "x-governess-endpoint"

  /** The outcome of decoding a body into a record of type T. */
  datatype Decoded<T> = Decoded(value: T) | DecodeError(cause: string)

  /** A response body, described by what it decodes to as a login reply and as a node listing. */
  datatype Body = Body(asLogin: Decoded<LoginReply>, asNodes: Decoded<NodesReply>)

  /** What sending a request gives: no response and an error, or a response. */
  datatype Reply =
    | Failed(cause: string)
    | Response(status: int, statusText: string, headers: map<string, string>, body: Body)

  /** The value of a response header, or "" when it is absent. */
  function HeaderValue(headers: map<string, string>, name: string): string
  {
    if name in headers then headers[name] else ""
  }

  datatype Payload =
    | NoPayload
    | Form(username: string, password: string)
    | NodesUpdate(update: NodesReply)

  datatype Request = Request(verb: string, url: string, headers: map<string, string>, payload: Payload)

  /** The headers of every authenticated request. */
  function AuthHeaders(token: string): map<string, string>
  {
    map[TokenHeader := token, AcceptHeader := AcceptValue, ClientHeader := ClientValue]
  }

  /** The GET of getHTTP: the token, the accepted media type and the client name, and no body. */
  function GetRequest(url: string, token: string): (req: Request)
    ensures req.verb == "GET" && req.url == url && req.payload == NoPayload
    ensures req.headers.Keys == {TokenHeader, AcceptHeader, ClientHeader}
    ensures TokenHeader in req.headers && req.headers[TokenHeader] == token
    ensures AcceptHeader in req.headers && req.headers[AcceptHeader] == AcceptValue
    ensures ClientHeader in req.headers && req.headers[ClientHeader] == ClientValue
    ensures ContentHeader !in req.headers
  {
    Request("GET", url, AuthHeaders(token), NoPayload)
  }

  /** The PUT of putHTTP: the headers of a GET plus the JSON content type, and the update as body. */
  function PutRequest(url: string, token: string, update: NodesReply): (req: Request)
    ensures req.verb == "PUT" && req.url == url && req.payload == NodesUpdate(update)
    ensures req.headers.Keys == {TokenHeader, AcceptHeader, ClientHeader, ContentHeader}
    ensures TokenHeader in req.headers && req.headers[TokenHeader] == token
    ensures AcceptHeader in req.headers && req.headers[AcceptHeader] == AcceptValue
    ensures ClientHeader in req.headers && req.headers[ClientHeader] == ClientValue
    ensures ContentHeader in req.headers && req.headers[ContentHeader] == JsonValue
  {
    Request("PUT", url, AuthHeaders(token)[ContentHeader := JsonValue], NodesUpdate(update))
  }

  /** The request with its access-token header replaced; nothing else changes. */
  function WithToken(req: Request, token: string): (r: Request)
    ensures TokenHeader in r.headers && r.headers[TokenHeader] == token
    ensures r.verb == req.verb && r.url == req.url && r.payload == req.payload
    ensures forall h :: h in req.headers && h != TokenHeader ==> h in r.headers && r.headers[h] == req.headers[h]
    ensures r.headers.Keys == req.headers.Keys + {TokenHeader}
  {
    req.(headers := req.headers[TokenHeader := token])
  }

  /** A response telling that the session token is no longer accepted. */
  predicate IsUnauthorized(r: Reply)
  {
    r.Response? && r.status == StatusUnauthorized
  }

  /** What the server answers when it has no scripted reply left. */
  const NoReply: string := "connection refused"

  /** The reply to the next request. */
  function Next(script: seq<Reply>): Reply
  {
    if script == [] then Failed(NoReply) else script[0]
  }

  /** The replies left after the next request. */
  function Rest(script: seq<Reply>): (rest: seq<Reply>)
    ensures |rest| == if script == [] then 0 else |script| - 1
  {
    if script == [] then [] else script[1..]
  }

  /** The upstream service: it answers with `script`, in order, and logs what it receives. */
  class Upstream {
    var script: seq<Reply>
    var received: seq<Request>

    constructor (script: seq<Reply>)
      ensures this.script == script && received == []
    {
      this.script := script;
      received := [];
    }

    method Exchange(req: Request) returns (r: Reply)
      modifies this
      ensures received == old(received) + [req]
      ensures r == Next(old(script)) && script == Rest(old(script))
    {
      received := received + [req];
      r := Next(script);
      script := Rest(script);
    }
  }
}
