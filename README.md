# Hive Home client — a Dafny model

This project models the core of a Go client for the Hive Home heating
service. The client logs in with a username and password, and gets back an
access token and the host of the account's API. It then polls the account's
node listing and reduces the nodes to a small `State`:
- heating relay on or off, and heating boosted;
- current and target temperature;
- hot water on or off, and hot water boosted.

It also sends three commands, each a one-node partial update:
- set the target temperature;
- boost the hot water, or return it to its schedule;
- boost the heating, or return it to its schedule.

What the model covers, module by module:

- `HiveResponse` (`response.dfy`): the wire records.
  - Every node attribute is an `Option`, because a Go nil pointer means the attribute is absent.
  - Every report record pairs a reported value with a target value of the same type.
  - Also here: the API strings and the set of attributes a payload carries.
- `HiveState` (`state.dfy`): the reducer.
  - A node has the heating role when both temperature attributes are present.
  - A node has the hot-water role when `SupportsHotWater` reports true.
  - The method `NewStateFromNodes` is a loop that overwrites fields the way the Go code does. It is proved equal to a left fold, `Reduce`.
  - The fold is characterised field by field as "the last node that writes the field wins" (`ReduceIsLastWrite`).
- `HiveTransport` (`transport.dfy`): requests and replies as data.
  - The upstream service is a class, `Upstream`. It answers with a script of replies, in order, and logs every request it receives. Once the script runs out, every request fails with a transport error.
  - JSON decoding is an oracle: a reply body states what it decodes to as a login reply and as a node listing.
- `HiveSession` (`session.dfy`): the login decision and the derivation of the base URL.
  - The base URL is `https://` followed by the endpoint header up to its first `:`. This uses a model of `strings.Split` that is proved to round-trip with a join.
- `HiveCommands` (`commands.dfy`): the command payloads and URLs.
  - Go's `int32(d.Minutes())` is modelled as truncation toward zero.
- `HiveClient` (`client.dfy`): the client.
  - The `Hive` class holds `config`, `lastRefresh`, `token`, `baseURL` and `lastState`.
  - `Login`, `Send`/`GetHTTP`/`PutHTTP`, `StartPolling`, `GetStatus` and the three commands are methods.
  - `Retry` is the pure specification of the rule "retry once after a 401". The request methods are proved against it.
  - `Connect` is a module-level method.

The model follows the code as it stands in these files:
- `State` has the six fields of `src/hive/state.go`. There are no node ids and no heating-mode enums.
- `TargetTemp` comes from the target attribute's reported value.
- `getStatus` decodes the body of any response it gets, whatever its status.
- A command returns an error only when no response arrived. It does not force a refresh.
- `hive.go` reads `heatingNodeID` and `hotWaterNodeID` from a `State` that has no such fields. So each command method takes the id of the node it addresses as a parameter.

## Model

| member | source | states |
|---|---|---|
| HiveResponse.PresentFields | src/hive/response.go:30-39 | the attributes a record carries are exactly those that are not nil; none is carried exactly when every attribute is nil |
| HiveResponse.ApiStringsDistinct | src/hive/response.go:3-8 | "OFF", "ON", "BOOST" and "HEAT" are pairwise distinct |
| HiveState.Step | src/hive/state.go:20-43 | a node with no role leaves the state unchanged; a node without the heating role leaves the four heating fields; a node without the hot-water role leaves the two hot-water fields; a heating node sets both temperatures from the reported values |
| HiveState.StepTable | src/hive/state.go:22-43 | each field after one node: the relay and boost flags change only when the node has the role and the attribute is present, and become reported == "ON" / "BOOST"; the temperatures become the reported values of a heating node |
| HiveState.Reduce | src/hive/state.go:17-47 | an empty node list gives the zero state |
| HiveState.FoldAppend | src/hive/state.go:19-45 | reducing a concatenation reduces the second part from the result of the first |
| HiveState.ReduceSnoc | src/hive/state.go:19-45 | last write wins: reducing `xs + [n]` applies `n` to the reduction of `xs` |
| HiveState.ReducePrefix | src/hive/state.go:19-45 | one more node of the list is applied to the reduced prefix |
| HiveState.ReduceIgnoresBystander | src/hive/state.go:19-45 | inserting a node with no role anywhere does not change the result |
| HiveState.BoostNodeSetsBothFlags | src/hive/state.go:30-43 | a last node in both roles whose mode reports BOOST sets both boost flags |
| HiveState.ThermostatScenario | src/hive/state.go:22-32 | one thermostat at 18.5 with target 21, relay ON and mode HEAT gives heating on, not boosted, 18.5 and 21, hot water off |
| HiveState.LastWrite | src/hive/state.go:19-45 | the reference reading: the value of the last write in a sequence, or the default when nothing is written |
| HiveState.StepField | src/hive/state.go:20-43 | one node overwrites a field exactly when it writes it |
| HiveState.FoldIsLastWrite | src/hive/state.go:19-45 | every field of a fold is the last write of that field by the nodes, or its starting value |
| HiveState.ReduceIsLastWrite | src/hive/state.go:19-45 | every field of the reducer's result is the value written by the last node that writes it, or zero |
| HiveState.NewStateFromNodes | src/hive/state.go:17-47 | the loop that overwrites fields node by node computes `Reduce(nodes)` |
| HiveTransport.GetRequest | src/hive/hive.go:295-303 | a GET to the URL with no body, carrying exactly three headers: the token, the Accept media type and the client name HiveKit |
| HiveTransport.PutRequest | src/hive/hive.go:317-327 | a PUT to the URL with the update as body, carrying exactly four headers: the token, the Accept media type, the client name HiveKit and the JSON content type |
| HiveTransport.WithToken | src/hive/hive.go:311 | resending sets the token header and keeps verb, URL, payload and every other header; no other header is added |
| HiveSession.Split | src/hive/hive.go:237 | splitting on a character gives at least one piece, no piece holds the separator, and joining the pieces gives the string back |
| HiveSession.SplitHead | src/hive/hive.go:237 | the first piece is a prefix without the separator, followed by the separator when shorter than the string |
| HiveSession.BaseURLFromEndpoint | src/hive/hive.go:237 | the base URL is the scheme and the header up to its first ':'; a header without ':' is used whole, so an empty one gives "https://" |
| HiveSession.Message | src/hive/hive.go:218-234 | every login error text starts with "Unable to login: ", followed by the cause, by the status and reason, or by the invalid-token text |
| HiveSession.LoginRequest | src/hive/hive.go:212-216 | the login is a form POST of exactly the username and password to the fixed login URL |
| HiveSession.BadStatusMessage | src/hive/hive.go:229-231 | the rejected-status message contains the status text and the reason |
| HiveSession.LoginDecision | src/hive/hive.go:216-240 | accepted if and only if a response came with status 200, the body decoded and the token is non-empty; then the session is that token and the derived base URL; no response, a non-200 status, an undecodable 200 body and an empty token each give their own error |
| HiveSession.RejectedStatusNamesReason | src/hive/hive.go:229-231 | a non-200 login is refused with an error whose text names the status and the server's reason |
| HiveSession.AdoptKeepsConsistent | src/hive/hive.go:233-238 | after any login outcome, token and base URL are both set or both empty, and a set base URL starts with the scheme |
| HiveCommands.WholeMinutes | src/hive/hive.go:139 | the whole minutes of a duration, truncated toward zero, for positive and negative durations |
| HiveCommands.CommandURL | src/hive/hive.go:119 | a command URL is the fixed nodes prefix followed by the node id |
| HiveCommands.TargetTempPayload | src/hive/hive.go:100-113 | one node with empty id and href and zero lastSeen, whose only attribute is the target temperature, with target value `temp` (not clamped) and a zero reported value |
| HiveCommands.TargetTempNotClamped | src/hive/hive.go:26-30 | a temperature outside 1 to 32 degrees is sent as it is |
| HiveCommands.BoostPayload | src/hive/hive.go:130-160 | one node with empty id and href and zero lastSeen: on gives only mode target BOOST and lock duration in whole minutes; off gives only mode target HEAT and schedule lock target false; every reported half is its zero value |
| HiveClient.EffectiveRefreshInterval | src/hive/hive.go:243-246 | an interval below 1 becomes 60 seconds; any other is kept |
| HiveClient.RecentlyRefreshed | src/hive/hive.go:260-263 | a refresh less than ten seconds before `now`, or stamped after it, suppresses the next; one ten or more seconds before does not; a client never refreshed is not suppressed once `now` is ten or more |
| HiveClient.CommandError | src/hive/hive.go:119-120 | a command fails if and only if no response arrived |
| HiveClient.Retry | src/hive/hive.go:306-314 | a second request is sent only after a 401 response, never after a transport error; it follows the re-login and carries the token held after it, accepted or not |
| HiveClient.PutRetryCarriesNewToken | src/hive/hive.go:335-343 | a PUT answered 401, then re-login with a new token: the resend carries the new token, the content type and the payload, and its reply is returned |
| HiveClient.Hive.constructor | src/hive/hive.go:67-71 | a new client has the configuration, an empty session, the zero state and no refresh yet |
| HiveClient.Hive.GetState | src/hive/hive.go:92-97 | returns the cached state, which is the reduction of the last node list fetched |
| HiveClient.Hive.Login | src/hive/hive.go:211-241 | posts the credentials once; the error is the login decision's; the session is replaced only when the decision accepts |
| HiveClient.Hive.Send | src/hive/hive.go:305-314 | performs exactly the exchange `Retry` describes, with the session after any re-login |
| HiveClient.Hive.GetHTTP | src/hive/hive.go:295-315 | a GET with the current token under the retry rule |
| HiveClient.Hive.PutHTTP | src/hive/hive.go:317-344 | a PUT with the current token and the payload under the retry rule |
| HiveClient.Hive.StartPolling | src/hive/hive.go:243-246 | the configured interval becomes the effective interval; nothing else in the configuration changes |
| HiveClient.Hive.GetStatus | src/hive/hive.go:256-293 | within ten seconds of the last refresh nothing changes and no request is sent; otherwise a fetch under the retry rule, and only a decoded listing replaces the state (with its reduction) and the refresh time (with `now`) |
| HiveClient.Hive.SetTargetTemp | src/hive/hive.go:100-121 | sends the target-temperature payload to the node's URL under the retry rule; fails only when no response arrived |
| HiveClient.Hive.ToggleHotWater | src/hive/hive.go:130-168 | sends the boost payload to the hot-water node's URL under the retry rule |
| HiveClient.Hive.ToggleHeatingBoost | src/hive/hive.go:171-209 | sends the same boost payload to the heating node's URL under the retry rule |
| HiveClient.Connect | src/hive/hive.go:67-81 | gives a client if and only if the login is accepted, holding the accepted session and the zero state |

## Left out

- HTTP, TLS and JSON are not modelled: the network is the scripted `Upstream`, and decoding is an outcome carried by the reply body. This includes form encoding, the insecure TLS transport, `json.Marshal` and the case where the URL does not parse in `http.NewRequest`.
- A body that partly decodes before an error is treated as not decoded. On a rejected login its reason is then taken to be empty.
- Response header names are compared exactly; Go's canonicalisation of header names is not modelled.
- Concurrency is not modelled: the ticker loop, the goroutines, the `sync.RWMutex` and the asynchronous call of the state-change handler. Each of `Login`, `GetStatus` and the request methods is one atomic method. `Connect` does not start polling, and `StartPolling` only fixes the interval.
- `HandleStateChange` and the handler field are left out, because they only register a callback for the concurrent dispatch.
- `SetTargetHeatMode` is left out, because it only prints. All logging is left out too.
- The clock is a parameter: `GetStatus` takes `now` in epoch seconds.
- HiveClient.Hive.GetStatus: `now - 10` is computed on unbounded integers, so a wrap-around of int64 at the extreme negative end is not modelled.
- HiveClient.RecentlyRefreshed: the same subtraction, done on unbounded integers; for `now` within ten of the smallest int64 Go's `now - 10` wraps and the test is false, while the model reports a recent refresh.
- HiveClient.Hive.SetTargetTemp: the temperature is a `real`, so a NaN or infinite float64 cannot be expressed. The error `json.Marshal` returns for such a value, with nothing sent, is not modelled. The other payloads hold only strings, booleans and integers, so marshalling them cannot fail.
- HiveClient.PutRetryCarriesNewToken: the resend is modelled as carrying the payload. In Go the retried request reuses a body buffer that the first sending has already read, so the resent body may be empty or the send may be refused. The scripted `Upstream` does not see request bodies as streams.
- HiveClient.Hive.PutHTTP: the same holds for the retry it performs; its contract assumes the resend carries the full payload.
- Temperatures are `real` and only copied. The float32/float64 conversion of the state fields is not modelled.
- HiveCommands.WholeMinutes: truncates the exact quotient. It does not model the rounding of the float64 in `Duration.Minutes()`. No int32 wrap-around arises, because every int64 count of nanoseconds is a number of minutes inside the int32 range.
- The command-line program and its HomeKit glue, `src/hivekit/main.go`, are not part of this model.
