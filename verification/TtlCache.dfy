/** The bounded cache with expiry of backend/app/core/cache.py. */
module TtlCache {
  import opened Text
  import opened ExpiringDictionary

  datatype Result<+T> = Ok(value: T) | ValueError(message: string)

  /** A key in the form that `__post_init__` leaves it: stripped and scoped. */
  datatype CacheKey = CacheKey(namespace: string, organization: Option<string>, parts: seq<string>)

  function StripOption(s: Option<string>): Option<string> {
    if s.Some? then Some(Strip(s.value)) else None
  }

  function MakeKey(namespace: string, organization: Option<string>, parts: seq<string>): Result<CacheKey> {
    if Strip(namespace) == "" then ValueError("cache namespace is required")
    else if organization.Some? && Strip(organization.value) == "" then
      ValueError("organization_id cannot be blank when provided")
    else Ok(CacheKey(Strip(namespace), StripOption(organization), parts))
  }

  /** The keys whose first two fields are the given ones, stripped. */
  function ScopeOf(namespace: string, organization: Option<string>): CacheKey -> bool {
    var ns, org := Strip(namespace), StripOption(organization);
    (k: CacheKey) => k.namespace == ns && k.organization == org
  }

  // ---------- the cache ----------

  class TTLCache<V> {
    const maxEntries: Capacity
    var entries: seq<Entry<CacheKey, V>>

    ghost predicate Valid()
      reads this
    {
      DistinctKeys(entries) && |entries| <= maxEntries
    }

    constructor (maxEntries: Capacity)
      ensures this.maxEntries == maxEntries && Valid() && entries == []
    {
      this.maxEntries := maxEntries;
      entries := [];
    }

    /** The constructor call as the source offers it: a bound below one is an error. */
    static method New(maxEntries: int) returns (r: Result<TTLCache<V>>)
      ensures r.Ok? <==> maxEntries >= 1
      ensures r.Ok? ==> fresh(r.value) && r.value.maxEntries == maxEntries && r.value.Valid() && r.value.entries == []
    {
      if maxEntries < 1 {
        return ValueError("max_entries must be positive");
      }
      var c := new TTLCache<V>(maxEntries);
      return Ok(c);
    }

    method GetValue(key: CacheKey, now: real) returns (r: Option<V>)
      requires Valid()
      modifies this
      ensures Valid()
      ensures r == Hit(old(entries), key, now)
      ensures entries == Next(old(entries), maxEntries, Get(key, now))
    {
      var entry := Lookup(entries, key);
      if entry.None? {
        return None;
      }
      if entry.value.expiresAt <= now {
        Pop(key);
        return None;
      }
      return Some(entry.value.value);
    }

    method SetValue(key: CacheKey, value: V, ttl: int, now: real) returns (r: Result<V>)
      requires Valid()
      modifies this
      ensures Valid()
      ensures r == if ttl < 1 then ValueError("ttl_seconds must be positive") else Ok(value)
      ensures entries == Next(old(entries), maxEntries, Set(key, value, ttl, now))
    {
      if ttl < 1 {
        return ValueError("ttl_seconds must be positive");
      }
      MakeRoom(now);
      PutFits(entries, Entry(key, value, now + ttl as real), maxEntries);
      entries := Put(entries, Entry(key, value, now + ttl as real));
      return Ok(value);
    }

    /** The first half of `set`: prunes, then evicts from a full dictionary. */
    method MakeRoom(now: real)
      requires Valid()
      modifies this
      ensures Valid() && |entries| < maxEntries
      ensures entries == Room(old(entries), maxEntries, now)
    {
      RoomFits(entries, maxEntries, now);
      PruneExpired(now);
      if |entries| >= maxEntries {
        Pop(entries[Oldest(entries)].key);
      }
    }

    /** `dict.pop(key, None)`. */
    method Pop(key: CacheKey)
      requires Valid()
      modifies this
      ensures Valid() && entries == Filter(old(entries), NotKey(key))
    {
      FilterDistinct(entries, NotKey(key));
      entries := Filter(entries, NotKey(key));
    }

    /** Visits a copy of the dictionary's items and pops what has expired. */
    method PruneExpired(now: real)
      requires Valid()
      modifies this
      ensures Valid()
      ensures entries == Filter(old(entries), LiveAt(now))
    {
      var items := entries;
      for i := 0 to |items|
        invariant Valid()
        invariant entries == Filter(items[..i], LiveAt(now)) + items[i..]
      {
        VisitNext(items, i, LiveAt(now));
        if items[i].expiresAt <= now {
          Pop(items[i].key);
        }
      }
      assert items[..|items|] == items;
    }

    method InvalidateNamespace(namespace: string, organization: Option<string>) returns (removed: int)
      requires Valid()
      modifies this
      ensures Valid()
      ensures entries == Next(old(entries), maxEntries, Invalidate(ScopeOf(namespace, organization)))
      ensures removed == |old(entries)| - |entries|
    {
      removed := PopPrefix(ScopeOf(namespace, organization));
    }

    /** Visits a copy of the keys, pops those in the scope and counts them. */
    method PopPrefix(scope: CacheKey -> bool) returns (removed: int)
      requires Valid()
      modifies this
      ensures Valid()
      ensures entries == Filter(old(entries), Outside(scope))
      ensures removed == |old(entries)| - |entries|
    {
      removed := 0;
      var items, keep := entries, Outside(scope);
      for i := 0 to |items|
        invariant Valid()
        invariant entries == Filter(items[..i], keep) + items[i..]
        invariant removed == |items| - |entries|
      {
        VisitNext(items, i, keep);
        if !keep(items[i]) {
          Pop(items[i].key);
          removed := removed + 1;
        }
        assert entries == Filter(items[..i + 1], keep) + items[i + 1..];
      }
      assert items[..|items|] == items;
    }

    method ClearAll()
      modifies this
      ensures Valid() && entries == Next(old(entries), maxEntries, Clear)
    {
      entries := [];
    }
  }

  /** A key needs a namespace that is not blank and, if it names an organization, one that is
      not blank either.  Two keys are one exactly when they agree in both up to outer whitespace
      and in their parts; no organization is none of them. */
  lemma SameKeyIff(ns: string, org: Option<string>, parts: seq<string>, ns': string, org': Option<string>,
                   parts': seq<string>)
    ensures MakeKey(ns, org, parts).Ok? <==> Strip(ns) != "" && (org == None || Strip(org.value) != "")
    ensures MakeKey(ns, org, parts).Ok? && MakeKey(ns', org', parts').Ok? ==>
              (MakeKey(ns, org, parts) == MakeKey(ns', org', parts') <==>
                && Strip(ns) == Strip(ns') && parts == parts'
                && (org == None <==> org' == None)
                && (org != None && org' != None ==> Strip(org.value) == Strip(org'.value)))
  {
  }

  /** An answer was stored under the asked organization's own key, or under none if none is
      asked: no other organization's value is ever answered. */
  lemma AnswersOwnScope<V>(t: seq<Event<CacheKey, V>>, cap: Capacity, ns: string, org: Option<string>,
                           parts: seq<string>, now: real, v: V) returns (i: nat)
    requires MakeKey(ns, org, parts).Ok? && Monotone(t, now)
    requires Hit(Run(t, cap), MakeKey(ns, org, parts).value, now) == Some(v)
    ensures i < |t| && t[i].Set? && t[i].value == v && t[i].now + t[i].ttl as real > now
    ensures t[i].key.namespace == Strip(ns) && t[i].key.parts == parts
    ensures t[i].key.organization == if org == None then None else Some(Strip(org.value))
  {
    var k := MakeKey(ns, org, parts).value;
    HitIff(t, cap, k, now, v);
    var j: int :| Governs(t, j, k) && t[j].value == v && t[j].now + t[j].ttl as real > now;
    i := j;
  }

  /** Invalidating a scope empties it and leaves every other scope's answers alone. */
  lemma InvalidationIsScoped<V>(t: seq<Event<CacheKey, V>>, cap: Capacity, ns: string, org: Option<string>,
                                ns': string, org': Option<string>, parts: seq<string>, now: real)
    requires MakeKey(ns', org', parts).Ok?
    ensures var k, e: Event<CacheKey, V> := MakeKey(ns', org', parts).value, Invalidate(ScopeOf(ns, org));
            Hit(Run(t + [e], cap), k, now) ==
              if Strip(ns) == Strip(ns') && StripOption(org) == StripOption(org') then None
              else Hit(Run(t, cap), k, now)
  {
    var k, e: Event<CacheKey, V> := MakeKey(ns', org', parts).value, Invalidate(ScopeOf(ns, org));
    assert (t + [e])[..|t + [e]| - 1] == t;
    RunIsBounded(t, cap);
    LookupNext(Run(t, cap), cap, e, k);
  }
}
