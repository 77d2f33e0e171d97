/**
 * Runs of the handler over one store, from a client without a cookie to
 * its protected calls: what a client can rely on from the handler's
 * contract alone.
 */
module Flows {
  import opened Wrappers
  import opened Text
  import opened RequestFields
  import opened Store
  import opened Tokens
  import opened Provider
  import opened Handler

  /** A session id as `getToken` mints it: non-empty, and safe inside a cookie. */
  predicate IsMintedSessionId(sid: string) {
    sid != "" && forall k :: 0 <= k < |sid| ==> IsPlainCookieChar(sid[k])
  }

  /** The first request of a client: `getToken` with no cookie yet. */
  function Bootstrap(ip: string, ua: string): Request {
    Request(Some(GetTokenPath), None, None, Some(ip), None, Some(ua), None, None)
  }

  /** A later request of the same client, with its session cookie and an `authorization` header. */
  function Call(path: string, token: Option<string>, id: Option<string>, ip: string, ua: string,
                sid: string, access: string): Request
  {
    Request(Some(path), token, id, Some(ip), None, Some(ua), Some(SessionPrefix + sid), Some(BearerPrefix + access))
  }

  /** A later call carries the session its cookie names. */
  lemma CallSession(path: string, token: Option<string>, id: Option<string>,
                    ip: string, ua: string, sid: string, access: string)
    requires IsMintedSessionId(sid)
    ensures SessionOf(Call(path, token, id, ip, ua, sid, access)) == Some(sid)
    ensures HasSession(Call(path, token, id, ip, ua, sid, access))
  {
    SessionCookieRoundTrip(sid);
  }

  /** A later call presents its access token as the Bearer credential. */
  lemma CallBearer(path: string, token: Option<string>, id: Option<string>,
                   ip: string, ua: string, sid: string, access: string)
    requires IsTrimmed(access)
    ensures BearerCredential(Call(path, token, id, ip, ua, sid, access).authorization) == Some(access)
  {
    BearerRoundTrip(access);
  }

  /**
   * A client's refresh request and its next protected call meet what
   * `RefreshThenCall` asks of them: one session, one fingerprint (the one
   * its first request had), and the new access token as the credential.
   */
  lemma SameClient(hash: string -> string, ip: string, ua: string, sid: string,
                   refresh: string, stale: string, path: string, id: Option<string>, access2: string)
    requires IsTrimmed(access2)
    ensures SessionOf(Call(path, None, id, ip, ua, sid, access2))
            == SessionOf(Call(RefreshTokenPath, Some(refresh), None, ip, ua, sid, stale))
    ensures FingerprintOf(hash, Call(path, None, id, ip, ua, sid, access2))
            == FingerprintOf(hash, Call(RefreshTokenPath, Some(refresh), None, ip, ua, sid, stale))
            == FingerprintOf(hash, Bootstrap(ip, ua))
    ensures BearerCredential(Call(path, None, id, ip, ua, sid, access2).authorization) == Some(access2)
  {
    var call := Call(path, None, id, ip, ua, sid, access2);
    var renew := Call(RefreshTokenPath, Some(refresh), None, ip, ua, sid, stale);
    assert SessionOf(call) == SessionOf(renew) by {
      assert call.cookie == renew.cookie;
    }
    assert FingerprintOf(hash, call) == FingerprintOf(hash, renew) == FingerprintOf(hash, Bootstrap(ip, ua)) by {
      assert call.forwardedFor == renew.forwardedFor == Bootstrap(ip, ua).forwardedFor;
      assert call.remoteAddress == renew.remoteAddress == Bootstrap(ip, ua).remoteAddress;
      assert call.userAgent == renew.userAgent == Bootstrap(ip, ua).userAgent;
    }
    CallBearer(path, None, id, ip, ua, sid, access2);
  }

  /** A request without a cookie header carries no session. */
  lemma NoCookieNoSession(ip: string, ua: string)
    ensures !HasSession(Bootstrap(ip, ua))
  {
    SplitNoSeparator("", ';');
    TrimFixedPoint("");
  }

  /**
   * Single use through the whole handler: a protected request that gets
   * through once (and reaches its route) is refused with 403 when it is sent
   * again, at the same time or later.
   */
  method SendTwice(store: KvStore, req: Request, env: Env, env2: Env, later: int)
    returns (first: Reply, second: Reply)
    requires IsProtected(req.path) && env2.hash == env.hash && store.now <= later
    modifies store
    ensures Admitted(old(store.entries), old(store.now), env.hash, req) ==>
            first == Route(req.path, req.id, env.providerReply) && second == Reject(403, InvalidToken)
    ensures !Admitted(old(store.entries), old(store.now), env.hash, req) ==>
            first == second && first.status in {401, 403} && store.entries == old(store.entries)
  {
    ghost var before := store.entries;
    ghost var now := store.now;
    first := Handle(store, req, env);
    ghost var mid := store.entries;
    store.AdvanceTo(later);
    second := Handle(store, req, env2);
    if Admitted(before, now, env.hash, req) {
      GateReplayRejected(before, now, mid, env.hash, req, later, store.entries, Some(second));
    } else {
      GateRejectionKeepsStore(before, now, mid, env.hash, req, Some(first));
      assert !Admitted(mid, later, env.hash, req) by {
        if HasSession(req) && BearerCredential(req.authorization).Some? {
          ExpiryIsFinal(before, now, later, PresentedKey(env.hash, req));
        }
      }
    }
  }

  /**
   * A refresh followed by a protected call that presents the new access
   * token from the same session and client: when the refresh succeeds, the
   * call gets through to its route, and the refresh key still reads.
   */
  method RefreshThenCall(store: KvStore, renew: Request, call: Request, env: Env, env2: Env)
    returns (renewed: Reply, used: Reply)
    requires renew.path == Some(RefreshTokenPath) && IsProtected(call.path) && env2.hash == env.hash
    requires SessionOf(call) == SessionOf(renew) && FingerprintOf(env.hash, call) == FingerprintOf(env.hash, renew)
    requires BearerCredential(call.authorization) == Some(env.newAccess)
    modifies store
    ensures renewed.status == 200 ==> used == Route(call.path, call.id, env2.providerReply)
    ensures renewed.status != 200 ==> renewed.status in {400, 401, 403}
    ensures renewed.status == 200 ==>
            HasSession(renew) && renew.token.Some? &&
            Lookup(store.entries, store.now,
                   RefreshKey(SessionOf(renew).value, FingerprintOf(env.hash, renew), renew.token.value))
            == Lookup(old(store.entries), old(store.now),
                      RefreshKey(SessionOf(renew).value, FingerprintOf(env.hash, renew), renew.token.value))
  {
    ghost var before := store.entries;
    ghost var now := store.now;
    renewed := Handle(store, renew, env);
    ghost var mid := store.entries;
    RefreshOutcomeEffect(before, now, mid, renew, env, renewed);
    if renewed.status == 200 {
      ghost var sid := SessionOf(renew).value;
      ghost var fp := FingerprintOf(env.hash, renew);
      ghost var refresh := renew.token.value;
      RefreshSparesRefresh(before, now, mid, renew, env, renewed, sid, fp, refresh, now);
      assert PresentedKey(env.hash, call) == AccessKey(sid, fp, env.newAccess);
      assert Admitted(mid, now, env.hash, call);
      used := Handle(store, call, env2);
      GateSparesRefresh(mid, now, store.entries, env.hash, call, None, sid, fp, refresh, now);
    } else {
      used := Handle(store, call, env2);
    }
  }
}
