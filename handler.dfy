/**
 * The request handler: the two token endpoints, the gate in front of every
 * other path, and the original routes behind it.  The network calls to the
 * number provider are replaced by the reply text they return, `SHA-256` and
 * the random token generator by values the caller supplies.
 */
module Handler {
  import opened Wrappers
  import opened Text
  import opened RequestFields
  import opened Store
  import opened Tokens
  import opened Provider

  /** What the handler reads of a request: `req.query` and `req.headers` (the method is not OPTIONS). */
  datatype Request = Request(
    path: Option<string>,
    token: Option<string>,
    id: Option<string>,
    forwardedFor: Option<string>,
    remoteAddress: Option<string>,
    userAgent: Option<string>,
    cookie: Option<string>,
    authorization: Option<string>)

  /**
   * What one run of the handler takes from outside: the hash behind the
   * fingerprint, the random session id and tokens it would mint, and the
   * text the provider answers with.
   */
  datatype Env = Env(
    hash: string -> string,
    newSessionId: string,
    newAccess: string,
    newRefresh: string,
    providerReply: string)

  /** The JSON bodies the handler sends. */
  datatype Body =
    | Issued(accessToken: string, refreshToken: string, expiresIn: nat, sessionId: string)
    | Refreshed(accessToken: string, expiresIn: nat)
    | Failure(error: string)
    | Health
    | Number(id: string, number: string)
    | ProviderData(data: string)
    | InvalidPath

  /** A status, a body, and the session id a `Set-Cookie` header carries when one is minted. */
  datatype Reply = Reply(status: nat, body: Body, setSession: Option<string>)

  const GetTokenPath: string := "getToken"
  const RefreshTokenPath: string := "refreshToken"
  const HealthPath: string := "health"
  const GetNumberPath: string := "getNumber"
  const GetOtpPath: string := "getOtp"
  const CancelNumberPath: string := "cancelNumber"

  const RefreshRequired: string := "Refresh token required"
  const NoCookie: string := "No session (cookie) present"
  const InvalidRefresh: string := "Invalid or expired refresh token"
  const NoSession: string := "No session. Call ?path=getToken first."
  const MissingToken: string := "Missing token"
  const InvalidToken: string := "Invalid or expired token"
  const IdRequired: string := "ID required"

  /** `res.status(status).json({ success: false, error })`. */
  function Reject(status: nat, error: string): Reply {
    Reply(status, Failure(error), None)
  }

  function SessionOf(req: Request): Option<string> {
    GetSessionId(req.cookie)
  }

  /** `if (!sessionId)` fails: the cookie carries a non-empty session id. */
  predicate HasSession(req: Request) {
    Truthy(SessionOf(req))
  }

  function FingerprintOf(hash: string -> string, req: Request): string {
    Fingerprint(hash, req.forwardedFor, req.remoteAddress, req.userAgent)
  }

  /** Every path but `health`, `getToken` and `refreshToken` (a missing path included) is protected. */
  predicate IsProtected(path: Option<string>): (b: bool)
    ensures (path == None || path == Some(GetNumberPath) || path == Some(GetOtpPath) ||
             path == Some(CancelNumberPath)) ==> b
  {
    path != Some(HealthPath) && path != Some(GetTokenPath) && path != Some(RefreshTokenPath)
  }

  /** The access key a request with a session and a Bearer credential presents. */
  function PresentedKey(hash: string -> string, req: Request): string
    requires HasSession(req) && BearerCredential(req.authorization).Some?
  {
    AccessKey(SessionOf(req).value, FingerprintOf(hash, req), BearerCredential(req.authorization).value)
  }

  /** The gate lets the request through: session, Bearer credential, and a live access key. */
  predicate Admitted(entries: map<string, Entry>, now: int, hash: string -> string, req: Request) {
    && HasSession(req)
    && BearerCredential(req.authorization).Some?
    && Truthy(Lookup(entries, now, PresentedKey(hash, req)))
  }

  /**
   * The gate's outcome, from the store `before` to the store `after`: the
   * three rejections in their order, each leaving the store as it was, and
   * otherwise no rejection with exactly the presented access key consumed.
   */
  predicate GateOutcome(before: map<string, Entry>, now: int, after: map<string, Entry>,
                        hash: string -> string, req: Request, rejection: Option<Reply>)
  {
    if !HasSession(req) then
      rejection == Some(Reject(401, NoSession)) && after == before
    else if BearerCredential(req.authorization).None? then
      rejection == Some(Reject(401, MissingToken)) && after == before
    else if !Truthy(Lookup(before, now, PresentedKey(hash, req))) then
      rejection == Some(Reject(403, InvalidToken)) && after == before
    else
      rejection == None && after == before - {PresentedKey(hash, req)}
  }

  /** The `getToken` route: reuse the cookie's session or mint one, then issue both tokens. */
  predicate IssueOutcome(before: map<string, Entry>, now: int, after: map<string, Entry>,
                         req: Request, env: Env, reply: Reply)
  {
    var sid := if HasSession(req) then SessionOf(req).value else env.newSessionId;
    && reply == Reply(200, Issued(env.newAccess, env.newRefresh, AccessTtl, sid),
                      if HasSession(req) then None else Some(sid))
    && after == Issue(before, now, sid, FingerprintOf(env.hash, req), env.newAccess, env.newRefresh)
  }

  /**
   * The `refreshToken` route: the three rejections in their order, each
   * leaving the store as it was, and otherwise one new access key with the
   * refresh key left in place.
   */
  predicate RefreshOutcome(before: map<string, Entry>, now: int, after: map<string, Entry>,
                           req: Request, env: Env, reply: Reply)
  {
    if !Truthy(req.token) then
      reply == Reject(400, RefreshRequired) && after == before
    else if !HasSession(req) then
      reply == Reject(401, NoCookie) && after == before
    else
      var sid := SessionOf(req).value;
      var fp := FingerprintOf(env.hash, req);
      if !Truthy(Lookup(before, now, RefreshKey(sid, fp, req.token.value))) then
        reply == Reject(403, InvalidRefresh) && after == before
      else
        && reply == Reply(200, Refreshed(env.newAccess, AccessTtl), None)
        && after == before[AccessKey(sid, fp, env.newAccess) := Entry(Mark, now + AccessTtl)]
  }

  /**
   * The routes behind the gate.  Only `getNumber`, `getOtp` and
   * `cancelNumber` use the provider's reply; the last two need an `id`.
   */
  function Route(path: Option<string>, id: Option<string>, providerReply: string): (reply: Reply)
    ensures reply.status == 200 && reply.setSession == None
    ensures path == Some(HealthPath) ==> reply.body == Health
    ensures path == Some(GetNumberPath) ==>
            (reply.body.Number? <==> ParseNumberReply(providerReply).Acquired?)
    ensures path == Some(GetNumberPath) && reply.body.Number? ==>
            providerReply == AccessNumber + ":" + reply.body.id + ":" + reply.body.number
    ensures path == Some(GetNumberPath) && !reply.body.Number? ==> reply.body == Failure(providerReply)
    ensures path == Some(GetOtpPath) || path == Some(CancelNumberPath) ==>
            reply.body == if Truthy(id) then ProviderData(providerReply) else Failure(IdRequired)
    ensures path !in {Some(HealthPath), Some(GetNumberPath), Some(GetOtpPath), Some(CancelNumberPath)} ==>
            reply.body == InvalidPath
  {
    var body :=
      if path == Some(HealthPath) then Health
      else if path == Some(GetNumberPath) then
        match ParseNumberReply(providerReply)
        case Acquired(i, n) => Number(i, n)
        case Refused(raw) => Failure(raw)
      else if path == Some(GetOtpPath) || path == Some(CancelNumberPath) then
        if !Truthy(id) then Failure(IdRequired) else ProviderData(providerReply)
      else InvalidPath;
    Reply(200, body, None)
  }

  /** The `getToken` endpoint. */
  method IssueTokensRoute(store: KvStore, req: Request, env: Env) returns (reply: Reply)
    modifies store
    ensures IssueOutcome(old(store.entries), old(store.now), store.entries, req, env, reply)
    ensures store.now == old(store.now)
  {
    var sessionId := SessionOf(req);
    var setSession: Option<string> := None;
    var sid: string;
    if !Truthy(sessionId) {
      sid := env.newSessionId;
      setSession := Some(sid);
    } else {
      sid := sessionId.value;
    }
    var fingerprint := FingerprintOf(env.hash, req);
    var tokens := CreateTokens(store, sid, fingerprint, env.newAccess, env.newRefresh);
    reply := Reply(200, Issued(tokens.access, tokens.refresh, AccessTtl, sid), setSession);
  }

  /** The `refreshToken` endpoint. */
  method RefreshRoute(store: KvStore, req: Request, env: Env) returns (reply: Reply)
    modifies store
    ensures RefreshOutcome(old(store.entries), old(store.now), store.entries, req, env, reply)
    ensures store.now == old(store.now)
  {
    if !Truthy(req.token) {
      return Reject(400, RefreshRequired);
    }
    var sessionId := SessionOf(req);
    if !Truthy(sessionId) {
      return Reject(401, NoCookie);
    }
    var fingerprint := FingerprintOf(env.hash, req);
    var ok := ValidateRefreshToken(store, sessionId.value, fingerprint, req.token.value);
    if !ok {
      return Reject(403, InvalidRefresh);
    }
    var accessKey := AccessKey(sessionId.value, fingerprint, env.newAccess);
    store.Set(accessKey, Mark, AccessTtl);
    reply := Reply(200, Refreshed(env.newAccess, AccessTtl), None);
  }

  /** The check in front of every protected path. */
  method Gate(store: KvStore, req: Request, hash: string -> string) returns (rejection: Option<Reply>)
    modifies store
    ensures GateOutcome(old(store.entries), old(store.now), store.entries, hash, req, rejection)
    ensures store.now == old(store.now)
  {
    var sessionId := SessionOf(req);
    if !Truthy(sessionId) {
      return Some(Reject(401, NoSession));
    }
    var fingerprint := FingerprintOf(hash, req);
    var authHeader := OrEmpty(req.authorization);
    if authHeader == "" || !StartsWith(authHeader, BearerPrefix) {
      return Some(Reject(401, MissingToken));
    }
    ReplacePrefix(authHeader, BearerPrefix);
    var access := Trim(ReplaceFirst(authHeader, BearerPrefix, ""));
    var ok := ConsumeAccessToken(store, sessionId.value, fingerprint, access);
    if !ok {
      return Some(Reject(403, InvalidToken));
    }
    rejection := None;
  }

  /**
   * The handler.  Each path does what its route says; a protected path goes
   * through the gate first, and reaches its route only when admitted.
   */
  method Handle(store: KvStore, req: Request, env: Env) returns (reply: Reply)
    modifies store
    ensures store.now == old(store.now)
    ensures req.path == Some(GetTokenPath) ==>
            IssueOutcome(old(store.entries), old(store.now), store.entries, req, env, reply)
    ensures req.path == Some(RefreshTokenPath) ==>
            RefreshOutcome(old(store.entries), old(store.now), store.entries, req, env, reply)
    ensures req.path == Some(HealthPath) ==>
            reply == Reply(200, Health, None) && store.entries == old(store.entries)
    ensures IsProtected(req.path) ==>
            GateOutcome(old(store.entries), old(store.now), store.entries, env.hash, req,
                        if Admitted(old(store.entries), old(store.now), env.hash, req) then None else Some(reply))
    ensures IsProtected(req.path) && Admitted(old(store.entries), old(store.now), env.hash, req) ==>
            reply == Route(req.path, req.id, env.providerReply)
    ensures MarksOnly(old(store.entries)) ==> MarksOnly(store.entries)
  {
    if req.path == Some(GetTokenPath) {
      reply := IssueTokensRoute(store, req, env);
      return;
    }
    if req.path == Some(RefreshTokenPath) {
      reply := RefreshRoute(store, req, env);
      return;
    }
    if IsProtected(req.path) {
      var rejection := Gate(store, req, env.hash);
      if rejection.Some? {
        return rejection.value;
      }
    }
    reply := Route(req.path, req.id, env.providerReply);
  }

  /**
   * `getToken` hands out a working pair: a later protected call from the same
   * client with the session the reply names, presenting the new access token
   * before its 900 seconds are up, is admitted by the gate.
   */
  lemma IssuedTokenAdmits(before: map<string, Entry>, now: int, after: map<string, Entry>,
                          req: Request, env: Env, reply: Reply, call: Request, t: int)
    requires IssueOutcome(before, now, after, req, env, reply)
    requires reply.body.Issued? && reply.body.sessionId != "" && SessionOf(call) == Some(reply.body.sessionId)
    requires FingerprintOf(env.hash, call) == FingerprintOf(env.hash, req)
    requires BearerCredential(call.authorization) == Some(env.newAccess)
    requires now <= t < now + AccessTtl
    ensures Admitted(after, t, env.hash, call)
  {
    var sid := reply.body.sessionId;
    var fp := FingerprintOf(env.hash, req);
    IssueLifetimes(before, now, sid, fp, env.newAccess, env.newRefresh, t, "");
    assert PresentedKey(env.hash, call) == AccessKey(sid, fp, env.newAccess);
  }

  /**
   * The binding works the other way too: a call the gate turned away before
   * `getToken` ran, presenting the new access token from another session or
   * another fingerprint, is still turned away after it.  Fingerprints and
   * tokens are hex in the code, so they hold no `:`.
   */
  lemma IssuedTokenBound(before: map<string, Entry>, now: int, after: map<string, Entry>,
                         req: Request, env: Env, reply: Reply, call: Request, t: int)
    requires IssueOutcome(before, now, after, req, env, reply)
    requires reply.body.Issued? && HasSession(call) && BearerCredential(call.authorization) == Some(env.newAccess)
    requires ':' !in FingerprintOf(env.hash, call) && ':' !in FingerprintOf(env.hash, req) && ':' !in env.newAccess
    requires SessionOf(call) != Some(reply.body.sessionId) || FingerprintOf(env.hash, call) != FingerprintOf(env.hash, req)
    requires now <= t && !Admitted(before, t, env.hash, call)
    ensures !Admitted(after, t, env.hash, call)
  {
    var sid := reply.body.sessionId;
    var fp := FingerprintOf(env.hash, req);
    var key := PresentedKey(env.hash, call);
    assert key != AccessKey(sid, fp, env.newAccess) by {
      if key == AccessKey(sid, fp, env.newAccess) {
        AccessKeyInjective(SessionOf(call).value, FingerprintOf(env.hash, call), env.newAccess, sid, fp, env.newAccess);
      }
    }
    KeyspacesDisjoint(SessionOf(call).value, FingerprintOf(env.hash, call), env.newAccess, sid, fp, env.newRefresh);
    IssueLifetimes(before, now, sid, fp, env.newAccess, env.newRefresh, t, key);
  }

  /** A rejection by the gate leaves the store as it was. */
  lemma GateRejectionKeepsStore(before: map<string, Entry>, now: int, after: map<string, Entry>,
                                hash: string -> string, req: Request, rejection: Option<Reply>)
    requires GateOutcome(before, now, after, hash, req, rejection)
    ensures rejection.Some? <==> !Admitted(before, now, hash, req)
    ensures rejection.Some? ==> after == before && rejection.value.status in {401, 403}
  {
  }

  /**
   * Single use: once the gate has admitted a request, the same request is
   * turned away with 403 afterwards, at the same time or any later one.
   */
  lemma GateReplayRejected(before: map<string, Entry>, now: int, after: map<string, Entry>,
                           hash: string -> string, req: Request,
                           later: int, final: map<string, Entry>, rejection: Option<Reply>)
    requires GateOutcome(before, now, after, hash, req, None)
    requires GateOutcome(after, later, final, hash, req, rejection)
    ensures rejection == Some(Reject(403, InvalidToken)) && final == after
  {
    ConsumedStaysDead(before, PresentedKey(hash, req), later);
  }

  /** The gate never touches a refresh key. */
  lemma GateSparesRefresh(before: map<string, Entry>, now: int, after: map<string, Entry>,
                          hash: string -> string, req: Request, rejection: Option<Reply>,
                          s: string, f: string, refresh: string, t: int)
    requires GateOutcome(before, now, after, hash, req, rejection)
    ensures Lookup(after, t, RefreshKey(s, f, refresh)) == Lookup(before, t, RefreshKey(s, f, refresh))
  {
    if rejection.None? {
      var sid := SessionOf(req).value;
      var access := BearerCredential(req.authorization).value;
      ConsumeSparesRefresh(before, t, sid, FingerprintOf(hash, req), access, s, f, refresh);
    }
  }

  /**
   * Refresh validation does not consume: after a successful refresh the
   * same refresh request succeeds again, and every refresh key reads as before.
   */
  lemma RefreshRepeatable(before: map<string, Entry>, now: int, mid: map<string, Entry>,
                          req: Request, env: Env, first: Reply,
                          env2: Env, after: map<string, Entry>, second: Reply,
                          s: string, f: string, refresh: string)
    requires RefreshOutcome(before, now, mid, req, env, first)
    requires env2.hash == env.hash
    requires RefreshOutcome(mid, now, after, req, env2, second)
    ensures Lookup(mid, now, RefreshKey(s, f, refresh)) == Lookup(before, now, RefreshKey(s, f, refresh))
    ensures first.status == 200 ==> second == Reply(200, Refreshed(env2.newAccess, AccessTtl), None)
  {
    if first.status == 200 {
      var sid := SessionOf(req).value;
      var fp := FingerprintOf(env.hash, req);
      NewAccessSparesRefresh(before, now, now, sid, fp, env.newAccess, sid, fp, req.token.value);
      NewAccessSparesRefresh(before, now, now, sid, fp, env.newAccess, s, f, refresh);
    }
  }

  /** The `refreshToken` route never changes what a refresh key reads. */
  lemma RefreshSparesRefresh(before: map<string, Entry>, now: int, after: map<string, Entry>,
                             req: Request, env: Env, reply: Reply,
                             s: string, f: string, refresh: string, t: int)
    requires RefreshOutcome(before, now, after, req, env, reply)
    ensures Lookup(after, t, RefreshKey(s, f, refresh)) == Lookup(before, t, RefreshKey(s, f, refresh))
  {
    if reply.status == 200 {
      var sid := SessionOf(req).value;
      var fp := FingerprintOf(env.hash, req);
      NewAccessSparesRefresh(before, t, now, sid, fp, env.newAccess, s, f, refresh);
    }
  }

  /** A refresh rejection leaves the store as it was; a success adds one live access key. */
  lemma RefreshOutcomeEffect(before: map<string, Entry>, now: int, after: map<string, Entry>,
                             req: Request, env: Env, reply: Reply)
    requires RefreshOutcome(before, now, after, req, env, reply)
    ensures reply.status != 200 ==> after == before && reply.status in {400, 401, 403}
    ensures reply.status == 200 ==>
            HasSession(req) &&
            Lookup(after, now, AccessKey(SessionOf(req).value, FingerprintOf(env.hash, req), env.newAccess))
            == Some(Mark)
  {
  }
}
