/**
 * The request-field parsers of the authentication layer: the client address
 * taken from `x-forwarded-for`, the user agent, the text the fingerprint hash
 * is computed over, the `sessionId` cookie and the `Bearer` credential.
 *
 * A header is `None` when the request does not carry it; JavaScript's `||`
 * treats a missing header and an empty one alike (`Text.Truthy`).
 */
module RequestFields {
  import opened Wrappers
  import opened Text

  const Unknown: string := "unknown"

  /**
   * `getIp`: the first comma-separated field of `x-forwarded-for`, or of the
   * socket's remote address when that header is missing or empty, trimmed;
   * `"unknown"` when that leaves nothing.
   */
  function GetIp(forwardedFor: Option<string>, remoteAddress: Option<string>): (ip: string)
    ensures ip != ""
    ensures ',' !in ip
    ensures IsTrimmed(ip)
  {
    var source := if Truthy(forwardedFor) then forwardedFor.value
                  else if Truthy(remoteAddress) then remoteAddress.value
                  else "";
    var first := Trim(Split(source, ',')[0]);
    assert ',' !in first by {
      forall x | x in first ensures x != ',' {
        TrimChars(Split(source, ',')[0], x);
      }
    }
    if first != "" then first else Unknown
  }

  /**
   * The client a proxy chain reports first wins: for a header
   * `client, proxy1, ...` the address is `client` trimmed, whatever the socket
   * says; a blank first field gives `"unknown"`, not the socket's address.
   */
  lemma GetIpTakesFirstForwarded(client: string, rest: string, remoteAddress: Option<string>)
    requires ',' !in client
    ensures GetIp(Some(client + "," + rest), remoteAddress)
            == if Trim(client) != "" then Trim(client) else Unknown
  {
    var header := client + "," + rest;
    assert header[..|client|] == client;
    assert forall k :: 0 <= k < |client| ==> header[k] == client[k];
    IndexOfCharIs(header, ',', |client|);
  }

  /** A forwarded header naming one address gives that address trimmed, or `"unknown"` when it is blank. */
  lemma GetIpSingleForwarded(client: string, remoteAddress: Option<string>)
    requires client != "" && ',' !in client
    ensures GetIp(Some(client), remoteAddress) == if Trim(client) != "" then Trim(client) else Unknown
  {
    SplitNoSeparator(client, ',');
  }

  /**
   * Without a forwarded header the socket's remote address is used, trimmed,
   * and `"unknown"` when it is blank.
   */
  lemma GetIpFallsBackToRemote(forwardedFor: Option<string>, address: string)
    requires !Truthy(forwardedFor)
    requires address != "" && ',' !in address
    ensures GetIp(forwardedFor, Some(address)) == if Trim(address) != "" then Trim(address) else Unknown
  {
    SplitNoSeparator(address, ',');
  }

  /** With neither a forwarded header nor a remote address the client is `"unknown"`. */
  lemma GetIpUnknown(forwardedFor: Option<string>, remoteAddress: Option<string>)
    requires !Truthy(forwardedFor) && !Truthy(remoteAddress)
    ensures GetIp(forwardedFor, remoteAddress) == Unknown
  {
    SplitNoSeparator("", ',');
    TrimFixedPoint("");
  }

  /** `getUserAgent`: the `user-agent` header, `"unknown"` when missing or empty. */
  function GetUserAgent(userAgent: Option<string>): (ua: string)
    ensures ua != ""
    ensures Truthy(userAgent) ==> ua == userAgent.value
    ensures !Truthy(userAgent) ==> ua == Unknown
  {
    if Truthy(userAgent) then userAgent.value else Unknown
  }

  /** The text `fingerprintFor` hashes: `ip + '|' + ua`. */
  function FingerprintInput(ip: string, ua: string): (s: string)
    ensures |s| == |ip| + 1 + |ua| && s[|ip|] == '|'
    ensures s[..|ip|] == ip && s[|ip| + 1..] == ua
  {
    ip + "|" + ua
  }

  /** In a fingerprint input the first `|` is the one after the address. */
  lemma FingerprintInputSeparator(ip: string, ua: string)
    requires '|' !in ip
    ensures IndexOfChar(FingerprintInput(ip, ua), '|') == |ip|
  {
    var s := FingerprintInput(ip, ua);
    assert s[..|ip|] == ip;
    assert s[|ip|] == '|';
  }

  /**
   * The fingerprint input names one (address, agent) pair as long as the
   * addresses contain no `|`.
   */
  lemma FingerprintInputInjective(ip1: string, ua1: string, ip2: string, ua2: string)
    requires '|' !in ip1 && '|' !in ip2
    requires FingerprintInput(ip1, ua1) == FingerprintInput(ip2, ua2)
    ensures ip1 == ip2 && ua1 == ua2
  {
    var s := FingerprintInput(ip1, ua1);
    FingerprintInputSeparator(ip1, ua1);
    FingerprintInputSeparator(ip2, ua2);
    assert ip1 == s[..|ip1|] == ip2;
    assert ua1 == s[|ip1| + 1..] == ua2;
  }

  /**
   * An address may contain `|` (the forwarded header is the client's own
   * text), and then two different pairs share one fingerprint input.
   */
  lemma FingerprintInputAmbiguous()
    ensures FingerprintInput("10.0.0.1|a", "b") == FingerprintInput("10.0.0.1", "a|b")
  {
  }

  /** `fingerprintFor`: the hash (a parameter of the model) of the request's fingerprint input. */
  function Fingerprint(hash: string -> string, forwardedFor: Option<string>,
                       remoteAddress: Option<string>, userAgent: Option<string>): string
  {
    hash(FingerprintInput(GetIp(forwardedFor, remoteAddress), GetUserAgent(userAgent)))
  }

  /** Requests that agree on the client address and the user agent have one fingerprint. */
  lemma FingerprintSameClient(hash: string -> string,
                              forwardedFor1: Option<string>, remoteAddress1: Option<string>, userAgent1: Option<string>,
                              forwardedFor2: Option<string>, remoteAddress2: Option<string>, userAgent2: Option<string>)
    requires GetIp(forwardedFor1, remoteAddress1) == GetIp(forwardedFor2, remoteAddress2)
    requires GetUserAgent(userAgent1) == GetUserAgent(userAgent2)
    ensures Fingerprint(hash, forwardedFor1, remoteAddress1, userAgent1)
            == Fingerprint(hash, forwardedFor2, remoteAddress2, userAgent2)
  {
  }

  /**
   * With a collision-free hash and addresses without `|`, one fingerprint
   * belongs to one (address, user agent) pair: a request from another address
   * or another user agent has another fingerprint.
   */
  lemma FingerprintSeparatesClients(hash: string -> string,
                                    forwardedFor1: Option<string>, remoteAddress1: Option<string>, userAgent1: Option<string>,
                                    forwardedFor2: Option<string>, remoteAddress2: Option<string>, userAgent2: Option<string>)
    requires forall x, y :: hash(x) == hash(y) ==> x == y
    requires '|' !in GetIp(forwardedFor1, remoteAddress1) && '|' !in GetIp(forwardedFor2, remoteAddress2)
    requires Fingerprint(hash, forwardedFor1, remoteAddress1, userAgent1)
             == Fingerprint(hash, forwardedFor2, remoteAddress2, userAgent2)
    ensures GetIp(forwardedFor1, remoteAddress1) == GetIp(forwardedFor2, remoteAddress2)
    ensures GetUserAgent(userAgent1) == GetUserAgent(userAgent2)
  {
    var ip1, ua1 := GetIp(forwardedFor1, remoteAddress1), GetUserAgent(userAgent1);
    var ip2, ua2 := GetIp(forwardedFor2, remoteAddress2), GetUserAgent(userAgent2);
    assert FingerprintInput(ip1, ua1) == FingerprintInput(ip2, ua2);
    FingerprintInputInjective(ip1, ua1, ip2, ua2);
  }

  const SessionPrefix: string := "sessionId="

  /**
   * `p.split('=')[1]` for a cookie part `p` that starts with `sessionId=`:
   * the text after the prefix up to the next `=`.
   */
  function SessionValue(p: string): (v: string)
    requires StartsWith(p, SessionPrefix)
    ensures '=' !in v
    ensures v == Split(p[|SessionPrefix|..], '=')[0]
    ensures forall x :: x in v ==> x in p
  {
    assert p == "sessionId" + ['='] + p[|SessionPrefix|..];
    SplitAtFirst("sessionId", '=', p[|SessionPrefix|..]);
    var v := Split(p, '=')[1];
    assert forall x :: x in v ==> x in p;
    v
  }

  /** The loop of `getSessionIdFromReq`: the value of the first part that starts with `sessionId=`. */
  function FindSessionId(parts: seq<string>): (r: Option<string>)
    ensures r.None? <==> forall i :: 0 <= i < |parts| ==> !StartsWith(parts[i], SessionPrefix)
    ensures r.Some? ==> '=' !in r.value
    decreases |parts|
  {
    if |parts| == 0 then None
    else if StartsWith(parts[0], SessionPrefix) then Some(SessionValue(parts[0]))
    else
      var r := FindSessionId(parts[1..]);
      assert forall i :: 1 <= i < |parts| ==> parts[i] == parts[1..][i - 1];
      r
  }

  /** The part `FindSessionId` reads is the first one carrying the prefix. */
  lemma {:induction false} FindSessionIdIsFirst(parts: seq<string>, i: nat)
    requires i < |parts| && StartsWith(parts[i], SessionPrefix)
    requires forall j :: 0 <= j < i ==> !StartsWith(parts[j], SessionPrefix)
    ensures FindSessionId(parts) == Some(SessionValue(parts[i]))
    decreases i
  {
    if i > 0 {
      assert !StartsWith(parts[0], SessionPrefix);
      assert parts[1..][i - 1] == parts[i];
      FindSessionIdIsFirst(parts[1..], i - 1);
    }
  }

  /** A character no part contains is not in the session id found either. */
  lemma {:induction false} FindSessionIdAvoids(parts: seq<string>, c: char)
    requires forall i :: 0 <= i < |parts| ==> c !in parts[i]
    requires FindSessionId(parts).Some?
    ensures c !in FindSessionId(parts).value
    decreases |parts|
  {
    if !StartsWith(parts[0], SessionPrefix) {
      FindSessionIdAvoids(parts[1..], c);
    }
  }

  /** `req.headers.cookie || ''`, split on `;`, each part trimmed. */
  function CookieParts(cookie: Option<string>): (parts: seq<string>)
    ensures forall i :: 0 <= i < |parts| ==> ';' !in parts[i]
  {
    var fields := Split(OrEmpty(cookie), ';');
    var parts := seq(|fields|, i requires 0 <= i < |fields| => Trim(fields[i]));
    forall i, x | 0 <= i < |parts| && x in parts[i] ensures x != ';' {
      TrimChars(fields[i], x);
    }
    parts
  }

  /**
   * `getSessionIdFromReq`: the session id a cookie header carries, `None`
   * (JavaScript's `null`) when no part is a `sessionId=` part.  The id may be
   * empty (`sessionId=`), which the handler treats like no session.
   */
  function GetSessionId(cookie: Option<string>): (r: Option<string>)
    ensures r.None? <==> forall i :: 0 <= i < |CookieParts(cookie)| ==> !StartsWith(CookieParts(cookie)[i], SessionPrefix)
    ensures r.Some? ==> '=' !in r.value && ';' !in r.value
  {
    var parts := CookieParts(cookie);
    var r := FindSessionId(parts);
    assert r.Some? ==> '=' !in r.value && ';' !in r.value by {
      if r.Some? {
        FindSessionIdAvoids(parts, ';');
      }
    }
    r
  }

  /** A character is none of `=`, `;` or whitespace, as the hex ids `getToken` mints are. */
  predicate IsPlainCookieChar(c: char) {
    c != '=' && c != ';' && !IsWhitespace(c)
  }

  /** The cookie part `sessionId=<id>` of a plain id has no `;`, is trimmed and reads back as `<id>`. */
  lemma SessionPart(sid: string)
    requires forall k :: 0 <= k < |sid| ==> IsPlainCookieChar(sid[k])
    ensures forall k :: 0 <= k < |SessionPrefix + sid| ==> (SessionPrefix + sid)[k] != ';'
    ensures IsTrimmed(SessionPrefix + sid)
    ensures StartsWith(SessionPrefix + sid, SessionPrefix)
    ensures SessionValue(SessionPrefix + sid) == sid
  {
    var p := SessionPrefix + sid;
    forall k | 0 <= k < |p| ensures p[k] != ';' {
      if k >= |SessionPrefix| { assert p[k] == sid[k - |SessionPrefix|]; }
    }
    assert IsTrimmed(p) by {
      if |sid| > 0 { assert p[|p| - 1] == sid[|sid| - 1]; }
    }
    assert p[..|SessionPrefix|] == SessionPrefix;
    assert p[|SessionPrefix|..] == sid;
    assert '=' !in sid by {
      forall k | 0 <= k < |sid| ensures sid[k] != '=' {
        assert IsPlainCookieChar(sid[k]);
      }
    }
    SplitNoSeparator(sid, '=');
  }

  /** The first cookie part is the text before the first `;`, trimmed. */
  lemma CookieHead(cookie: string, p: string)
    requires cookie != "" && |p| <= |cookie| && cookie[..|p|] == p
    requires forall k :: 0 <= k < |p| ==> p[k] != ';'
    requires |p| < |cookie| ==> cookie[|p|] == ';'
    ensures |CookieParts(Some(cookie))| >= 1 && CookieParts(Some(cookie))[0] == Trim(p)
  {
    assert forall k :: 0 <= k < |p| ==> cookie[k] == p[k];
    IndexOfCharIs(cookie, ';', |p|);
  }

  /** A cookie whose first part is a trimmed `sessionId=` part yields that part's value. */
  lemma SessionFromHead(cookie: string, p: string)
    requires cookie != "" && |p| <= |cookie| && cookie[..|p|] == p
    requires forall k :: 0 <= k < |p| ==> p[k] != ';'
    requires |p| < |cookie| ==> cookie[|p|] == ';'
    requires IsTrimmed(p) && StartsWith(p, SessionPrefix)
    ensures GetSessionId(Some(cookie)) == Some(SessionValue(p))
  {
    CookieHead(cookie, p);
    TrimFixedPoint(p);
    HeadPartSession(CookieParts(Some(cookie)), p);
  }

  /** A first part that is a `sessionId=` part decides the session. */
  lemma HeadPartSession(parts: seq<string>, p: string)
    requires |parts| >= 1 && parts[0] == p && StartsWith(p, SessionPrefix)
    ensures FindSessionId(parts) == Some(SessionValue(p))
  {
  }

  /** The cookie a browser sends back after `getToken`, `sessionId=<id>`, yields `<id>`. */
  lemma SessionCookieRoundTrip(sid: string)
    requires forall k :: 0 <= k < |sid| ==> IsPlainCookieChar(sid[k])
    ensures GetSessionId(Some(SessionPrefix + sid)) == Some(sid)
  {
    var p := SessionPrefix + sid;
    SessionPart(sid);
    assert p[..|p|] == p;
    SessionFromHead(p, p);
  }

  /** So does a cookie header in which other cookies follow it. */
  lemma SessionCookieAmongOthers(sid: string, others: string)
    requires forall k :: 0 <= k < |sid| ==> IsPlainCookieChar(sid[k])
    ensures GetSessionId(Some(SessionPrefix + sid + ";" + others)) == Some(sid)
  {
    var p := SessionPrefix + sid;
    SessionPart(sid);
    var cookie := p + ";" + others;
    assert cookie[..|p|] == p && cookie[|p|] == ';';
    SessionFromHead(cookie, p);
  }

  const BearerPrefix: string := "Bearer "

  /**
   * The credential of a protected call: `None` when the `authorization`
   * header is missing or does not start with `Bearer `, otherwise the header
   * with `Bearer ` replaced by nothing, trimmed.
   */
  function BearerCredential(authorization: Option<string>): (r: Option<string>)
    ensures r.Some? <==> authorization.Some? && StartsWith(authorization.value, BearerPrefix)
    ensures r.Some? ==> r.value == Trim(authorization.value[|BearerPrefix|..])
  {
    var header := OrEmpty(authorization);
    if header == "" || !StartsWith(header, BearerPrefix) then None
    else
      ReplacePrefix(header, BearerPrefix);
      Some(Trim(ReplaceFirst(header, BearerPrefix, "")))
  }

  /** A token written after `Bearer ` is read back unchanged. */
  lemma BearerRoundTrip(token: string)
    requires IsTrimmed(token)
    ensures BearerCredential(Some(BearerPrefix + token)) == Some(token)
  {
    assert (BearerPrefix + token)[|BearerPrefix|..] == token;
    TrimFixedPoint(token);
  }
}
