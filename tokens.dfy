/**
 * Access and refresh tokens over the TTL store.  An access token is the key
 * `token:<session>:<fingerprint>:<token>` and a refresh token the key
 * `refresh:<session>:<fingerprint>:<token>`, both holding `'1'`; the random
 * token values are inputs of the model.
 */
module Tokens {
  import opened Wrappers
  import opened Text
  import opened Store

  /** Lifetime of an access token, in seconds (15 minutes). */
  const AccessTtl: nat := 900
  /** Lifetime of a refresh token, in seconds (2 hours). */
  const RefreshTtl: nat := 7200
  /** The value every token key holds. */
  const Mark: string := "1"

  const AccessPrefix: string := "token:"
  const RefreshPrefix: string := "refresh:"

  function AccessKey(sessionId: string, fingerprint: string, token: string): (k: string)
    ensures StartsWith(k, AccessPrefix)
    ensures |k| == |AccessPrefix| + |sessionId| + |fingerprint| + |token| + 2
  {
    var k := AccessPrefix + sessionId + ":" + fingerprint + ":" + token;
    assert k[..|AccessPrefix|] == AccessPrefix;
    k
  }

  function RefreshKey(sessionId: string, fingerprint: string, token: string): (k: string)
    ensures StartsWith(k, RefreshPrefix)
    ensures |k| == |RefreshPrefix| + |sessionId| + |fingerprint| + |token| + 2
  {
    var k := RefreshPrefix + sessionId + ":" + fingerprint + ":" + token;
    assert k[..|RefreshPrefix|] == RefreshPrefix;
    k
  }

  /** The text after the last `:` of a key is its last field, when that field holds no `:`. */
  lemma LastField(a: string, t: string, b: string, u: string)
    requires ':' !in t && ':' !in u
    requires a + ":" + t == b + ":" + u
    ensures a == b && t == u
  {
    var k := a + ":" + t;
    assert k[|a|] == ':' && k[|b|] == (b + ":" + u)[|b|] == ':';
    assert forall i :: |b| < i < |k| ==> k[i] == u[i - |b| - 1];
    assert forall i :: |a| < i < |k| ==> k[i] == t[i - |a| - 1];
    assert |a| == |b|;
    assert a == k[..|a|] == b;
    assert t == k[|a| + 1..] == u;
  }

  /**
   * An access key names one (session, fingerprint, token) triple, as long as
   * fingerprints and tokens hold no `:` (the hex strings the code stores);
   * the session id, which the client chooses, may hold anything.
   */
  lemma AccessKeyInjective(s1: string, f1: string, t1: string, s2: string, f2: string, t2: string)
    requires ':' !in f1 && ':' !in t1 && ':' !in f2 && ':' !in t2
    requires AccessKey(s1, f1, t1) == AccessKey(s2, f2, t2)
    ensures s1 == s2 && f1 == f2 && t1 == t2
  {
    LastField(AccessPrefix + s1 + ":" + f1, t1, AccessPrefix + s2 + ":" + f2, t2);
    LastField(AccessPrefix + s1, f1, AccessPrefix + s2, f2);
    assert s1 == (AccessPrefix + s1)[|AccessPrefix|..];
    assert s2 == (AccessPrefix + s2)[|AccessPrefix|..];
  }

  /** A refresh key names one (session, fingerprint, token) triple in the same way. */
  lemma RefreshKeyInjective(s1: string, f1: string, t1: string, s2: string, f2: string, t2: string)
    requires ':' !in f1 && ':' !in t1 && ':' !in f2 && ':' !in t2
    requires RefreshKey(s1, f1, t1) == RefreshKey(s2, f2, t2)
    ensures s1 == s2 && f1 == f2 && t1 == t2
  {
    LastField(RefreshPrefix + s1 + ":" + f1, t1, RefreshPrefix + s2 + ":" + f2, t2);
    LastField(RefreshPrefix + s1, f1, RefreshPrefix + s2, f2);
    assert s1 == (RefreshPrefix + s1)[|RefreshPrefix|..];
    assert s2 == (RefreshPrefix + s2)[|RefreshPrefix|..];
  }

  /**
   * Without that condition the layout is ambiguous: a fingerprint or token
   * holding `:` can make two triples share one key.
   */
  lemma AccessKeyAmbiguous()
    ensures AccessKey("a:b", "c", "d") == AccessKey("a", "b", "c:d")
  {
  }

  /** An access key is never a refresh key: the two keyspaces are disjoint. */
  lemma KeyspacesDisjoint(s1: string, f1: string, t1: string, s2: string, f2: string, t2: string)
    ensures AccessKey(s1, f1, t1) != RefreshKey(s2, f2, t2)
  {
    assert AccessKey(s1, f1, t1)[0] == 't';
    assert RefreshKey(s2, f2, t2)[0] == 'r';
  }

  /** The store only ever holds the token mark, as everything this code writes is `'1'`. */
  predicate MarksOnly(entries: map<string, Entry>) {
    forall k :: k in entries ==> entries[k].value == Mark
  }

  /** Where only marks are stored, `!v` is false exactly for the live keys. */
  lemma TruthyIsLive(entries: map<string, Entry>, now: int, key: string)
    requires MarksOnly(entries)
    ensures Truthy(Lookup(entries, now, key)) <==> Lookup(entries, now, key).Some?
  {
  }

  /** The store after `createTokens`: one access key, then one refresh key, each with its TTL. */
  function Issue(entries: map<string, Entry>, now: int, sessionId: string, fingerprint: string,
                 access: string, refresh: string): (r: map<string, Entry>)
    ensures forall k :: k in r <==>
              k in entries || k == AccessKey(sessionId, fingerprint, access) || k == RefreshKey(sessionId, fingerprint, refresh)
    ensures r[AccessKey(sessionId, fingerprint, access)] == Entry(Mark, now + AccessTtl)
    ensures r[RefreshKey(sessionId, fingerprint, refresh)] == Entry(Mark, now + RefreshTtl)
    ensures forall k :: (k in entries && k != AccessKey(sessionId, fingerprint, access) &&
                         k != RefreshKey(sessionId, fingerprint, refresh)) ==> r[k] == entries[k]
  {
    KeyspacesDisjoint(sessionId, fingerprint, access, sessionId, fingerprint, refresh);
    entries[AccessKey(sessionId, fingerprint, access) := Entry(Mark, now + AccessTtl)]
           [RefreshKey(sessionId, fingerprint, refresh) := Entry(Mark, now + RefreshTtl)]
  }

  /**
   * After issuing at time `t`, the access key reads `'1'` until `t + 900`, the
   * refresh key until `t + 7200`, and every other key reads as before.
   */
  lemma IssueLifetimes(entries: map<string, Entry>, t: int, sessionId: string, fingerprint: string,
                       access: string, refresh: string, now: int, other: string)
    requires t <= now
    ensures Lookup(Issue(entries, t, sessionId, fingerprint, access, refresh), now,
                   AccessKey(sessionId, fingerprint, access))
            == if now < t + AccessTtl then Some(Mark) else None
    ensures Lookup(Issue(entries, t, sessionId, fingerprint, access, refresh), now,
                   RefreshKey(sessionId, fingerprint, refresh))
            == if now < t + RefreshTtl then Some(Mark) else None
    ensures other != AccessKey(sessionId, fingerprint, access)
            && other != RefreshKey(sessionId, fingerprint, refresh) ==>
            Lookup(Issue(entries, t, sessionId, fingerprint, access, refresh), now, other)
            == Lookup(entries, now, other)
  {
    KeyspacesDisjoint(sessionId, fingerprint, access, sessionId, fingerprint, refresh);
  }

  /** Issuing keeps the store holding only marks. */
  lemma IssueKeepsMarks(entries: map<string, Entry>, t: int, sessionId: string, fingerprint: string,
                        access: string, refresh: string)
    requires MarksOnly(entries)
    ensures MarksOnly(Issue(entries, t, sessionId, fingerprint, access, refresh))
  {
  }

  /** Deleting an access key leaves every refresh key reading as before. */
  lemma ConsumeSparesRefresh(entries: map<string, Entry>, now: int, sessionId: string,
                             fingerprint: string, access: string,
                             s: string, f: string, refresh: string)
    ensures Lookup(entries - {AccessKey(sessionId, fingerprint, access)}, now, RefreshKey(s, f, refresh))
            == Lookup(entries, now, RefreshKey(s, f, refresh))
  {
    KeyspacesDisjoint(sessionId, fingerprint, access, s, f, refresh);
  }

  /** A consumed access key never reads again, at any later time. */
  lemma ConsumedStaysDead(entries: map<string, Entry>, key: string, later: int)
    ensures Lookup(entries - {key}, later, key) == None
  {
  }

  /** Adding an access key leaves every refresh key reading as before. */
  lemma NewAccessSparesRefresh(entries: map<string, Entry>, now: int, t: int, sessionId: string,
                               fingerprint: string, access: string,
                               s: string, f: string, refresh: string)
    ensures Lookup(entries[AccessKey(sessionId, fingerprint, access) := Entry(Mark, t + AccessTtl)],
                   now, RefreshKey(s, f, refresh))
            == Lookup(entries, now, RefreshKey(s, f, refresh))
  {
    KeyspacesDisjoint(sessionId, fingerprint, access, s, f, refresh);
  }

  /** A live refresh key stays live, and so keeps validating, until its own expiry. */
  lemma RefreshLiveUntilExpiry(entries: map<string, Entry>, now: int, later: int, key: string)
    requires Lookup(entries, now, key).Some?
    requires now <= later < entries[key].expiresAt
    ensures Lookup(entries, later, key) == Lookup(entries, now, key)
  {
  }

  datatype TokenPair = TokenPair(access: string, refresh: string)

  /** `createTokens`: store both keys with their TTLs and hand back the two tokens. */
  method CreateTokens(store: KvStore, sessionId: string, fingerprint: string,
                      access: string, refresh: string) returns (tokens: TokenPair)
    modifies store
    ensures tokens == TokenPair(access, refresh)
    ensures store.entries == Issue(old(store.entries), old(store.now), sessionId, fingerprint, access, refresh)
    ensures store.now == old(store.now)
  {
    var accessKey := AccessKey(sessionId, fingerprint, access);
    var refreshKey := RefreshKey(sessionId, fingerprint, refresh);
    store.Set(accessKey, Mark, AccessTtl);
    store.Set(refreshKey, Mark, RefreshTtl);
    tokens := TokenPair(access, refresh);
  }

  /**
   * `consumeAccessToken`: true exactly when the access key reads (truthily);
   * then that key, and only it, is deleted.  A false answer changes nothing.
   */
  method ConsumeAccessToken(store: KvStore, sessionId: string, fingerprint: string, access: string)
    returns (ok: bool)
    modifies store
    ensures ok <==> Truthy(Lookup(old(store.entries), old(store.now), AccessKey(sessionId, fingerprint, access)))
    ensures store.entries == if ok then old(store.entries) - {AccessKey(sessionId, fingerprint, access)}
                             else old(store.entries)
    ensures store.now == old(store.now)
  {
    var key := AccessKey(sessionId, fingerprint, access);
    var v := store.Get(key);
    if !Truthy(v) {
      return false;
    }
    store.Del(key);
    ok := true;
  }

  /** `validateRefreshToken`: whether the refresh key reads, without touching the store. */
  method ValidateRefreshToken(store: KvStore, sessionId: string, fingerprint: string, refresh: string)
    returns (ok: bool)
    ensures ok <==> Truthy(Lookup(store.entries, store.now, RefreshKey(sessionId, fingerprint, refresh)))
  {
    var key := RefreshKey(sessionId, fingerprint, refresh);
    var v := store.Get(key);
    ok := Truthy(v);
  }
}
