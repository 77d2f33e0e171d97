# Session, fingerprint and token gate of the number-rental API

`api/index.js` is a serverless HTTP handler that sells temporary phone
numbers through an upstream provider. In front of the provider actions
(`getNumber`, `getOtp`, `cancelNumber`), it puts a gate with three parts:

- a **session** id, carried in a `sessionId` cookie;
- a **fingerprint**, the hash of the client's IP and User-Agent;
- a single-use **access token**, sent as `Authorization: Bearer …` and kept in a
  Redis store with a 15-minute expiry.

`getToken` mints a session when the request has none and issues a token pair.
`refreshToken` exchanges a two-hour refresh token, which the exchange does not
consume, for a new access token.

The Dafny model is split into modules:

- `Text`: the JavaScript string operations the code relies on (`trim`,
  `split`, `startsWith`, `replace`), as functions.
- `RequestFields`: `getIp`, `getUserAgent`, the fingerprint input and
  `getSessionIdFromReq`, as functions, plus the Bearer credential.
- `Store`: the Redis store as a class `KvStore`. It has a map from keys to
  (value, expiry) entries and a clock. `GET`, `SET … EX` and `DEL` are its
  methods.
- `Tokens`: `createTokens`, `consumeAccessToken` and `validateRefreshToken` as
  methods over a `KvStore`. Each is specified against the store's map. The
  key layout and lifetimes are proved as lemmas.
- `Provider`: how the handler reads the provider's `getNumber` reply.
- `Handler`: the handler as methods over a `KvStore`:
  - each path's route;
  - the gate;
  - outcome predicates (`GateOutcome`, `IssueOutcome`, `RefreshOutcome`),
    stating the replies in their order and the whole new store;
  - lemmas about those outcomes.
- `Flows`: sequences of handler calls on one store: replaying a request, and
  a refresh followed by a protected call.

Outside inputs are parameters. An `Env` value carries:

- the hash behind the fingerprint (SHA-256 in the code);
- the random session id and tokens a run would mint;
- the text the provider answers with.

JavaScript truthiness of header and query strings is `Truthy`: a missing or
empty string is false.

A protected call consumes the access token it presents and mints no new
one; the client asks `getToken` or `refreshToken` for the next. The refresh
token is never rotated or deleted (lines 73-75 and 118).

## Model

| member | source | states |
|---|---|---|
| Text.Trim | api/index.js:22 | `trim()` result has no whitespace at either end and is a contiguous piece of the input with only whitespace cut away |
| Text.TrimStart | api/index.js:22 | the result is a suffix of the input, everything cut is whitespace, and it does not start with whitespace |
| Text.TrimEnd | api/index.js:22 | the result is a prefix of the input, everything cut is whitespace, and it does not end with whitespace |
| Text.TrimFixedPoint | api/index.js:36 | trimming leaves a string unchanged exactly when it has no leading or trailing whitespace |
| Text.TrimIdempotent | api/index.js:36 | trimming twice is trimming once |
| Text.TrimChars | api/index.js:137 | every character of a trimmed string comes from the original |
| Text.Split | api/index.js:36 | `split(c)` gives at least one field, the first is the text before the first `c`, no field holds `c`, and every character comes from the input |
| Text.SplitJoin | api/index.js:159 | joining the fields of a split with the separator gives back the input |
| Text.JoinSplit | api/index.js:159 | splitting a join of separator-free fields gives back the fields |
| Text.SplitNoSeparator | api/index.js:22 | a string without the separator splits into itself alone |
| Text.SplitAtFirst | api/index.js:22 | a split cuts at the first separator and splits the rest the same way |
| Text.IndexOfChar | api/index.js:38 | the position is that of the first occurrence of the character, or the length when it does not occur |
| Text.IndexOf | api/index.js:137 | the first position where the pattern occurs, with no earlier occurrence, or none when it occurs nowhere |
| Text.StartsWith | api/index.js:38 | `startsWith(p)` holds exactly when the string is `p` followed by some rest |
| Text.ReplaceFirst | api/index.js:137 | `replace(pat, rep)` leaves a string without `pat` unchanged and otherwise replaces the first occurrence only |
| Text.ReplacePrefix | api/index.js:137 | `replace('Bearer ', '')` on a string starting with `Bearer ` removes exactly that prefix |
| RequestFields.GetIp | api/index.js:21-23 | the client IP is never empty, has no comma and is trimmed |
| RequestFields.GetIpTakesFirstForwarded | api/index.js:22 | with a forwarded list `client,rest`, the IP is the first field trimmed, or `unknown` when that field is blank (the socket address is not consulted) |
| RequestFields.GetIpSingleForwarded | api/index.js:22 | a non-empty forwarded header naming one address gives it trimmed, or `unknown` when it is blank |
| RequestFields.GetIpFallsBackToRemote | api/index.js:22 | without a forwarded header the socket's remote address is used, trimmed, or `unknown` when it is blank |
| RequestFields.GetIpUnknown | api/index.js:22 | with neither header nor remote address the IP is `unknown` |
| RequestFields.GetUserAgent | api/index.js:24-26 | the user agent is the header when it is non-empty, `unknown` otherwise, never empty |
| RequestFields.FingerprintInput | api/index.js:31 | the hash input is the IP, one bar character, then the user agent |
| RequestFields.FingerprintInputSeparator | api/index.js:31 | in the hash input (IP, bar, user agent) the first bar sits right after an IP without bars |
| RequestFields.FingerprintInputInjective | api/index.js:31 | for IPs without a bar character, equal fingerprint inputs come from equal IPs and user agents |
| RequestFields.FingerprintInputAmbiguous | api/index.js:31 | when the IP may contain a bar character, two different (IP, user agent) pairs give the same hash input |
| RequestFields.FingerprintSameClient | api/index.js:27-32 | requests that agree on IP and user agent have the same fingerprint |
| RequestFields.FingerprintSeparatesClients | api/index.js:27-32 | with a collision-free hash and bar-free IPs, equal fingerprints mean equal IPs and equal user agents |
| RequestFields.SessionValue | api/index.js:38 | the value of a `sessionId=` part is the text between the first and second `=`, holds no `=`, and uses only the part's characters |
| RequestFields.FindSessionId | api/index.js:37-40 | null exactly when no part starts with `sessionId=`; otherwise a value without `=` |
| RequestFields.FindSessionIdIsFirst | api/index.js:37-38 | the result is the value of the first part that starts with `sessionId=` |
| RequestFields.FindSessionIdAvoids | api/index.js:37-38 | a character in no part is in no session value |
| RequestFields.CookieParts | api/index.js:35-36 | the cookie's trimmed `;`-separated parts hold no `;` |
| RequestFields.GetSessionId | api/index.js:34-41 | null exactly when no cookie part starts with `sessionId=`; a found id holds neither `=` nor `;` |
| RequestFields.SessionCookieRoundTrip | api/index.js:45 | the cookie `setSessionCookie` writes for a plain id reads back as that id |
| RequestFields.SessionCookieAmongOthers | api/index.js:34-41 | a session part followed by other cookie parts still reads back as the id |
| RequestFields.BearerCredential | api/index.js:133-137 | a credential exists exactly when the header starts with `Bearer `, and is the trimmed rest |
| RequestFields.BearerRoundTrip | api/index.js:134-137 | `Bearer <token>` gives back a trimmed token |
| Store.Lookup | api/index.js:66 | `GET` answers a key's value exactly while the store's clock is below its expiry |
| Store.LookupAfterSet | api/index.js:58-59 | after `SET key v EX n` at time t the key reads `v` until t+n and other keys read as before |
| Store.ExpiryIsFinal | api/index.js:48-50 | as time passes a key only stops reading; it never starts reading or reads a different value |
| Store.KvStore.constructor | api/index.js:11-14 | a client connected to a store sees the entries it already holds, at its start time |
| Store.KvStore.Get | api/index.js:66 | `GET` returns the value of a key exactly while it is unexpired |
| Store.KvStore.Set | api/index.js:58 | `SET … EX` overwrites the key with the value and an expiry `ex` seconds from now, nothing else changes |
| Store.KvStore.Del | api/index.js:69 | `DEL` removes exactly that key |
| Store.KvStore.AdvanceTo | api/index.js:48-50 | time moves forward and the entries stay as they are |
| Tokens.AccessKey | api/index.js:56 | an access key starts with `token:` and is as long as its three fields plus prefix and two colons |
| Tokens.RefreshKey | api/index.js:57 | a refresh key starts with `refresh:` and is as long as its three fields plus prefix and two colons |
| Tokens.KeyspacesDisjoint | api/index.js:48-50 | no access key `token:…` equals a refresh key `refresh:…` |
| Tokens.AccessKeyInjective | api/index.js:65 | with colon-free fingerprints and tokens, an access key names exactly one (session, fingerprint, token) triple |
| Tokens.RefreshKeyInjective | api/index.js:77 | with colon-free fingerprints and tokens, a refresh key names exactly one (session, fingerprint, token) triple |
| Tokens.AccessKeyAmbiguous | api/index.js:48-50 | when fields may hold `:`, two different triples share one access key |
| Tokens.TruthyIsLive | api/index.js:67 | with only `'1'` stored, `!v` is false exactly for the live keys |
| Tokens.Issue | api/index.js:58-59 | issuing adds exactly the access and the refresh key, marked `'1'` with expiries 900 s and 7200 s away, and keeps every other entry |
| Tokens.IssueLifetimes | api/index.js:53-61 | after issuing, the access key reads `'1'` for 900 s, the refresh key for 7200 s, and every other key reads as before |
| Tokens.IssueKeepsMarks | api/index.js:58-59 | issuing keeps a store holding only `'1'` values |
| Tokens.ConsumeSparesRefresh | api/index.js:69 | deleting an access key leaves every refresh key reading as before |
| Tokens.ConsumedStaysDead | api/index.js:63-71 | a consumed access key never reads again, at any later time |
| Tokens.NewAccessSparesRefresh | api/index.js:119-121 | writing a new access key leaves every refresh key reading as before |
| Tokens.RefreshLiveUntilExpiry | api/index.js:73-80 | a live refresh key keeps reading the same until its own expiry |
| Tokens.CreateTokens | api/index.js:53-61 | returns the two tokens; the store gains exactly the access key (900 s) and the refresh key (7200 s) |
| Tokens.ConsumeAccessToken | api/index.js:64-71 | true exactly when the access key reads truthily; then exactly that key is deleted, otherwise nothing changes |
| Tokens.ValidateRefreshToken | api/index.js:76-80 | true exactly when the refresh key reads truthily; the store is not modified |
| Provider.ParseNumberReply | api/index.js:159-171 | a rented number exactly when the reply has three `:` fields with `ACCESS_NUMBER` first; the reply is then `ACCESS_NUMBER:id:number`, otherwise the whole reply is the error |
| Provider.ParseNumberReplyRoundTrip | api/index.js:159-165 | every colon-free id and number are read back as announced |
| Provider.ParseNumberReplyRejectsExtraField | api/index.js:160 | a reply with a fourth field is refused whole |
| Handler.IsProtected | api/index.js:126 | a missing path and the three provider paths are protected |
| Handler.Route | api/index.js:145-205 | every route answers 200; `health`; `getNumber` parses iff the reply does; `getOtp`/`cancelNumber` need an `id`; any other path is `Invalid path` |
| Handler.IssueTokensRoute | api/index.js:98-107 | `getToken` reuses the cookie's session or mints one and sets the cookie, issues both tokens, and answers with them and `expiresIn` 900 |
| Handler.RefreshRoute | api/index.js:110-123 | 400 without a token, 401 without a session, 403 for a dead refresh key, each with the store unchanged; otherwise one new access key and the refresh key kept |
| Handler.Gate | api/index.js:126-143 | rejects with 401 (no session), 401 (no Bearer), 403 (dead key) in that order, store unchanged; otherwise consumes exactly the presented access key |
| Handler.Handle | api/index.js:83-213 | each path does what its route says; protected paths reach their route only when admitted; the store keeps only `'1'` values |
| Handler.IssuedTokenAdmits | api/index.js:98-143 | an access token just issued by `getToken` admits the same client's protected call within 900 s |
| Handler.IssuedTokenBound | api/index.js:126-143 | a new access token does not admit a call from another session or another fingerprint that was not admitted before |
| Handler.GateRejectionKeepsStore | api/index.js:126-143 | the gate rejects exactly when the request is not admitted, and a rejection is a 401/403 with the store unchanged |
| Handler.GateReplayRejected | api/index.js:138-141 | a request the gate admitted is refused with 403 when it comes again, at the same time or later |
| Handler.GateSparesRefresh | api/index.js:138 | the gate never changes what a refresh key reads |
| Handler.RefreshRepeatable | api/index.js:73-80 | a successful refresh leaves refresh keys readable and the same refresh succeeds again |
| Handler.RefreshSparesRefresh | api/index.js:118-121 | the `refreshToken` route never changes what a refresh key reads |
| Handler.RefreshOutcomeEffect | api/index.js:110-123 | a refresh 4xx leaves the store as it was; a success makes the new access key read `'1'` |
| Flows.CallSession | api/index.js:34-41 | a call carrying `sessionId=<minted id>` has that session |
| Flows.CallBearer | api/index.js:133-137 | a call carrying `Bearer <token>` presents that token |
| Flows.SameClient | api/index.js:27-41 | a client's refresh and its next call share session and fingerprint, and the call presents the new token |
| Flows.NoCookieNoSession | api/index.js:35-40 | a request without a cookie has no session |
| Flows.SendTwice | api/index.js:126-143 | an admitted request reaches its route once and is refused with 403 when resent; a refused one is refused identically, store unchanged |
| Flows.RefreshThenCall | api/index.js:110-143 | after a successful refresh, a call with the new access token from the same client reaches its route and the refresh key still reads as before |

## Left out

- The OPTIONS short-circuit and the CORS headers (lines 84-91) are left out. They do not touch sessions, tokens or the store.
- The `Set-Cookie` attributes (line 45) are left out. A minted session is modelled as `Reply.setSession`, the id the cookie carries.
- The network calls to the provider (lines 155-156, 180-181, 195-196) are left out, with their URLs, the API key and the `id` put into the URL. The provider's reply text is an input (`Env.providerReply`).
- The environment variables (lines 7-9) and the REST connection details are left out. The store is local and has its own clock.
- Randomness (`randHex`, lines 17-19) is not modelled. Session ids and tokens are inputs, so distinct values and their hex length are not modelled.
- Tokens.AccessKeyInjective: the model's `hash` may return any string, so SHA-256 hex digests being colon-free appears as a precondition. Tokens are hex, and so colon-free, in the code.
- Handler.IssuedTokenBound: it requires colon-free fingerprints and tokens for the same reason.
- SHA-256 (line 31) is a parameter `hash`. Collision resistance is assumed only where FingerprintSeparatesClients states it as a precondition. Everywhere else fingerprints are compared as hash outputs.
- The store's own value encoding is not modelled. The stored `'1'` reads back as the string `"1"`.
- Query parameters given more than once (arrays) and a non-string provider reply are left out. Neither type is modelled.
- The `catch` block (lines 207-212) is left out. It answers a thrown error's message, and no modelled operation throws.
- The `health` body's message and timestamp (lines 147-151) are left out. There is no clock in the reply.
- The `success` field of the JSON bodies is left out. It is implied by each `Body` constructor.
- Handler.Route: the `getOtp`/`cancelNumber` body is the provider's reply, whatever the `id`. The request URL that the `id` is interpolated into is not modelled.
- Concurrent requests against the store are left out. Each handler call is atomic in the model.
- `IsPlainCookieChar` and minted session ids: the round-trip lemmas apply only to ids without `=`, `;` or whitespace, as hex ids are. Other ids are not covered.
