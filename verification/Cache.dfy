/** The in-memory key-value cache with TTLs (cache.rs). Time is one clock in seconds. */
module Cache {
  import opened Wrappers
  import opened Text

  datatype Entry = Entry(data: string, expiresAt: nat)

  type Entries = map<string, Entry>

  /** What a reader sees: an entry is served only while its expiry lies ahead. */
  function Live(e: Entries, key: string, now: nat): Option<string> {
    if key in e && e[key].expiresAt > now then Some(e[key].data) else None
  }

  /** A read evicts the entry it finds expired. */
  function AfterGet(e: Entries, key: string, now: nat): Entries {
    if key in e && e[key].expiresAt <= now then e - {key} else e
  }

  function AfterSet(e: Entries, key: string, value: string, ttl: nat, now: nat): Entries {
    e[key := Entry(value, now + ttl)]
  }

  function AfterDelByPrefix(e: Entries, prefix: string): Entries {
    map key | key in e && !(prefix <= key) :: e[key]
  }

  /** The live count at `key`; absent, expired and unreadable entries count as zero. */
  function Counter(e: Entries, key: string, now: nat): nat {
    match Live(e, key, now)
    case None => 0
    case Some(data) =>
      (match ParseDecimal(data)
       case Some(n) => n
       case None => 0)
  }

  /** The entry one increment leaves at `key`: only a fresh count gets a new expiry. */
  function Bumped(e: Entries, key: string, ttl: nat, now: nat): Entry {
    Entry(ToDecimal(Counter(e, key, now) + 1),
          if Live(e, key, now).Some? then e[key].expiresAt else now + ttl)
  }

  class InMemoryCacheStore {
    var entries: Entries

    constructor ()
      ensures entries == map[]
    {
      entries := map[];
    }

    method GetRaw(key: string, now: nat) returns (value: Option<string>)
      modifies this
      ensures value == Live(old(entries), key, now)
      ensures entries == AfterGet(old(entries), key, now)
    {
      if key !in entries {
        return None;
      }
      var entry := entries[key];
      if entry.expiresAt > now {
        return Some(entry.data);
      }
      entries := entries - {key};
      return None;
    }

    method SetRaw(key: string, value: string, ttl: nat, now: nat)
      modifies this
      ensures entries == AfterSet(old(entries), key, value, ttl, now)
    {
      entries := entries[key := Entry(value, now + ttl)];
    }

    method Del(key: string)
      modifies this
      ensures entries == old(entries) - {key}
    {
      entries := entries - {key};
    }

    method DelByPrefix(prefix: string)
      modifies this
      ensures entries == AfterDelByPrefix(old(entries), prefix)
    {
      entries := map key | key in entries && !(prefix <= key) :: entries[key];
    }

    method Incr(key: string, ttl: nat, now: nat) returns (count: nat)
      modifies this
      ensures count == Counter(old(entries), key, now) + 1
      ensures entries == old(entries)[key := Bumped(old(entries), key, ttl, now)]
    {
      if key !in entries {
        entries := entries[key := Entry("0", now + ttl)];
        ParseToDecimal(0);
      }
      var entry := entries[key];
      if entry.expiresAt <= now {
        entry := Entry("0", now + ttl);
        ParseToDecimal(0);
      }
      var parsed := ParseDecimal(entry.data);
      count := (match parsed case Some(n) => n case None => 0) + 1;
      entries := entries[key := Entry(ToDecimal(count), entry.expiresAt)];
    }
  }

  /** Counting at one key is not seen at any other; at the key itself the count grows by one
      until the entry expires: when it was to expire if it was live, and otherwise a full TTL from now. */
  lemma CounterAfterBump(e: Entries, key: string, ttl: nat, now: nat, other: string, later: nat)
    ensures var f := e[key := Bumped(e, key, ttl, now)];
            Counter(f, other, later)
            == if other != key then Counter(e, other, later)
               else if later < (if key in e && now < e[key].expiresAt then e[key].expiresAt else now + ttl)
                    then Counter(e, key, now) + 1
               else 0
  {
    ParseToDecimal(Counter(e, key, now) + 1);
  }
}
