/**
 * The Redis store the handler talks to, as a key-value map with expiries.
 * Time is the store's clock in seconds; a `SET ... EX n` issued at time `t`
 * keeps the key readable while the clock is below `t + n`.
 */
module Store {
  import opened Wrappers

  /** A stored value and the first instant at which it no longer reads. */
  datatype Entry = Entry(value: string, expiresAt: int)

  /** What `GET key` answers at time `now`: the value, or nothing once it has expired. */
  function Lookup(entries: map<string, Entry>, now: int, key: string): (r: Option<string>)
    ensures r.Some? <==> key in entries && now < entries[key].expiresAt
    ensures r.Some? ==> r.value == entries[key].value
  {
    if key in entries && now < entries[key].expiresAt then Some(entries[key].value) else None
  }

  /** A key written with a time-to-live reads back until exactly that many seconds have passed. */
  lemma LookupAfterSet(entries: map<string, Entry>, setAt: int, key: string, value: string,
                       ex: nat, now: int, other: string)
    ensures Lookup(entries[key := Entry(value, setAt + ex)], now, key)
            == if now < setAt + ex then Some(value) else None
    ensures other != key ==>
            Lookup(entries[key := Entry(value, setAt + ex)], now, other) == Lookup(entries, now, other)
  {
  }

  /** Time only takes keys away: a key that does not read now reads the same or not at all later. */
  lemma ExpiryIsFinal(entries: map<string, Entry>, now: int, later: int, key: string)
    requires now <= later
    ensures Lookup(entries, later, key) == None || Lookup(entries, later, key) == Lookup(entries, now, key)
  {
  }

  class KvStore {
    /** Every key ever written and not deleted, with its value and expiry. */
    var entries: map<string, Entry>
    /** The store's clock. */
    var now: int

    /** A client connected to a store that already holds `initial` at time `start`. */
    constructor (initial: map<string, Entry>, start: int)
      ensures entries == initial && now == start
    {
      entries := initial;
      now := start;
    }

    /** `GET key`. */
    method Get(key: string) returns (v: Option<string>)
      ensures v.Some? <==> key in entries && now < entries[key].expiresAt
      ensures v.Some? ==> v.value == entries[key].value
    {
      v := Lookup(entries, now, key);
    }

    /** `SET key value EX ex`: overwrites any earlier value and expiry. */
    method Set(key: string, value: string, ex: nat)
      requires ex > 0
      modifies this
      ensures entries == old(entries)[key := Entry(value, old(now) + ex)]
      ensures now == old(now)
    {
      entries := entries[key := Entry(value, now + ex)];
    }

    /** `DEL key`: removes the key whether or not it is present. */
    method Del(key: string)
      modifies this
      ensures entries == old(entries) - {key}
      ensures now == old(now)
    {
      entries := entries - {key};
    }

    /** The passage of time between requests. */
    method AdvanceTo(t: int)
      requires now <= t
      modifies this
      ensures now == t
      ensures entries == old(entries)
    {
      now := t;
    }
  }
}
