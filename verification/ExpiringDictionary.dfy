/** The rules of the bounded dictionary with expiry in backend/app/core/cache.py,
    for keys and values of any type. */
module ExpiringDictionary {
  import opened Text

  datatype Entry<K, V> = Entry(key: K, value: V, expiresAt: real)

  // ---------- the dictionary, in its order of insertion ----------

  ghost predicate DistinctKeys<K, V>(es: seq<Entry<K, V>>) {
    forall i, j | 0 <= i < j < |es| :: es[i].key != es[j].key
  }

  function Lookup<K(==), V>(es: seq<Entry<K, V>>, k: K): Option<Entry<K, V>> {
    if es == [] then None
    else if es[|es| - 1].key == k then Some(es[|es| - 1])
    else Lookup(es[..|es| - 1], k)
  }

  function Filter<K(==), V>(es: seq<Entry<K, V>>, p: Entry<K, V> -> bool): (r: seq<Entry<K, V>>)
    ensures |r| <= |es|
  {
    if es == [] then []
    else
      var rest := Filter(es[..|es| - 1], p);
      if p(es[|es| - 1]) then rest + [es[|es| - 1]] else rest
  }

  function LiveAt<K(==), V>(now: real): Entry<K, V> -> bool {
    (e: Entry<K, V>) => e.expiresAt > now
  }

  function NotKey<K(==), V>(k: K): Entry<K, V> -> bool {
    (e: Entry<K, V>) => e.key != k
  }

  function Outside<K, V>(scope: K -> bool): Entry<K, V> -> bool {
    (e: Entry<K, V>) => !scope(e.key)
  }

  function Replace<K(==), V>(es: seq<Entry<K, V>>, e: Entry<K, V>): (r: seq<Entry<K, V>>)
    ensures |r| == |es|
    ensures forall i | 0 <= i < |es| :: r[i].key == es[i].key
  {
    if es == [] then []
    else if es[|es| - 1].key == e.key then es[..|es| - 1] + [e]
    else Replace(es[..|es| - 1], e) + [es[|es| - 1]]
  }

  /** Dictionary assignment: a key that is present keeps its place. */
  function Put<K(==), V>(es: seq<Entry<K, V>>, e: Entry<K, V>): seq<Entry<K, V>> {
    if Lookup(es, e.key).Some? then Replace(es, e) else es + [e]
  }

  /** The first entry with the least expiry, as Python's `min` picks it. */
  function Oldest<K(==), V>(es: seq<Entry<K, V>>): (i: nat)
    requires es != []
    ensures i < |es|
  {
    var n := |es| - 1;
    if n == 0 then 0
    else
      var i := Oldest(es[..n]);
      if es[n].expiresAt < es[i].expiresAt then n else i
  }

  lemma {:induction false} OldestIsFirstLeast<K, V>(es: seq<Entry<K, V>>, j: nat)
    requires j < |es|
    ensures es[Oldest(es)].expiresAt <= es[j].expiresAt
    ensures j < Oldest(es) ==> es[Oldest(es)].expiresAt < es[j].expiresAt
  {
    var n := |es| - 1;
    if n > 0 {
      if j < n {
        OldestIsFirstLeast(es[..n], j);
      } else {
        OldestIsFirstLeast(es[..n], Oldest(es[..n]));
      }
    }
  }

  // ---------- operations on values ----------

  /** A capacity the constructor accepts. */
  type Capacity = n: int | n >= 1 witness 1

  /** The entry that a `set` at `now` would push out, if the cache is full then. */
  function Victim<K(==), V>(es: seq<Entry<K, V>>, cap: Capacity, now: real): Option<K> {
    var live := Filter(es, LiveAt(now));
    if |live| >= cap then Some(live[Oldest(live)].key) else None
  }

  function Room<K(==), V>(es: seq<Entry<K, V>>, cap: Capacity, now: real): seq<Entry<K, V>> {
    var live := Filter(es, LiveAt(now));
    match Victim(es, cap, now)
    case Some(k) => Filter(live, NotKey(k))
    case None => live
  }

  function Hit<K(==), V>(es: seq<Entry<K, V>>, k: K, now: real): Option<V> {
    var e := Lookup(es, k);
    if e.Some? && e.value.expiresAt > now then Some(e.value.value) else None
  }

  datatype Event<!K, V> =
    | Set(key: K, value: V, ttl: int, now: real)
    | Get(key: K, now: real)
    | Invalidate(scope: K -> bool)
    | Clear

  function Next<K(==), V>(es: seq<Entry<K, V>>, cap: Capacity, e: Event<K, V>): seq<Entry<K, V>> {
    match e
    case Set(k, v, ttl, now) =>
      if ttl < 1 then es else Put(Room(es, cap, now), Entry(k, v, now + ttl as real))
    case Get(k, now) =>
      var found := Lookup(es, k);
      if found.Some? && found.value.expiresAt <= now then Filter(es, NotKey(k)) else es
    case Invalidate(scope) => Filter(es, Outside(scope))
    case Clear => []
  }

  // ---------- facts about the dictionary ----------

  lemma {:induction false} LookupIsMember<K, V>(es: seq<Entry<K, V>>, k: K)
    ensures Lookup(es, k).Some? ==> Lookup(es, k).value in es && Lookup(es, k).value.key == k
    ensures Lookup(es, k).None? ==> forall e | e in es :: e.key != k
  {
    if es != [] {
      LookupIsMember(es[..|es| - 1], k);
      assert es == es[..|es| - 1] + [es[|es| - 1]];
    }
  }

  lemma {:induction false} FilterMember<K, V>(es: seq<Entry<K, V>>, p: Entry<K, V> -> bool, e: Entry<K, V>)
    ensures e in Filter(es, p) <==> e in es && p(e)
  {
    if es != [] {
      FilterMember(es[..|es| - 1], p, e);
      assert es == es[..|es| - 1] + [es[|es| - 1]];
    }
  }

  lemma {:induction false} FilterDistinct<K, V>(es: seq<Entry<K, V>>, p: Entry<K, V> -> bool)
    requires DistinctKeys(es)
    ensures DistinctKeys(Filter(es, p))
  {
    if es != [] {
      FilterDistinct(es[..|es| - 1], p);
      var rest := Filter(es[..|es| - 1], p);
      forall i | 0 <= i < |rest| ensures rest[i].key != es[|es| - 1].key {
        FilterMember(es[..|es| - 1], p, rest[i]);
      }
    }
  }

  /** Filtering a dictionary keeps exactly the bindings that pass. */
  lemma {:induction false} LookupFilter<K, V>(es: seq<Entry<K, V>>, p: Entry<K, V> -> bool, k: K)
    requires DistinctKeys(es)
    ensures Lookup(Filter(es, p), k) == if Lookup(es, k).Some? && p(Lookup(es, k).value) then Lookup(es, k) else None
  {
    if es != [] {
      var n := |es| - 1;
      LookupFilter(es[..n], p, k);
      var rest := Filter(es[..n], p);
      if p(es[n]) {
        assert (rest + [es[n]])[..|rest|] == rest;
      } else if es[n].key == k {
        LookupIsMember(es[..n], k);
      }
    }
  }

  lemma {:induction false} LookupReplace<K, V>(es: seq<Entry<K, V>>, e: Entry<K, V>, k: K)
    requires DistinctKeys(es) && Lookup(es, e.key).Some?
    ensures DistinctKeys(Replace(es, e))
    ensures Lookup(Replace(es, e), k) == if k == e.key then Some(e) else Lookup(es, k)
  {
    var n := |es| - 1;
    if es[n].key == e.key {
      assert (es[..n] + [e])[..n] == es[..n];
    } else {
      LookupReplace(es[..n], e, k);
      var rest := Replace(es[..n], e);
      assert (rest + [es[n]])[..n] == rest;
    }
  }

  lemma LookupPut<K, V>(es: seq<Entry<K, V>>, e: Entry<K, V>, k: K)
    requires DistinctKeys(es)
    ensures DistinctKeys(Put(es, e))
    ensures Lookup(Put(es, e), k) == if k == e.key then Some(e) else Lookup(es, k)
  {
    if Lookup(es, e.key).Some? {
      LookupReplace(es, e, k);
    } else {
      LookupIsMember(es, e.key);
      assert (es + [e])[..|es|] == es;
    }
  }

  lemma {:induction false} FilterAppend<K, V>(a: seq<Entry<K, V>>, b: seq<Entry<K, V>>, p: Entry<K, V> -> bool)
    ensures Filter(a + b, p) == Filter(a, p) + Filter(b, p)
  {
    if b == [] {
      assert a + b == a;
    } else {
      assert (a + b)[..|a + b| - 1] == a + b[..|b| - 1];
      FilterAppend(a, b[..|b| - 1], p);
    }
  }

  lemma {:induction false} FilterAll<K, V>(es: seq<Entry<K, V>>, p: Entry<K, V> -> bool)
    requires forall e | e in es :: p(e)
    ensures Filter(es, p) == es
  {
    if es != [] {
      FilterAll(es[..|es| - 1], p);
    }
  }

  /** Popping the key of the first entry not yet visited takes out that entry alone. */
  lemma PopNext<K, V>(kept: seq<Entry<K, V>>, e: Entry<K, V>, rest: seq<Entry<K, V>>)
    requires DistinctKeys(kept + [e] + rest)
    ensures Filter(kept + [e] + rest, NotKey(e.key)) == kept + rest
  {
    var all := kept + [e] + rest;
    forall x | x in kept ensures x.key != e.key {
      var i :| 0 <= i < |kept| && kept[i] == x;
      assert all[i] == x && all[|kept|] == e;
    }
    forall x | x in rest ensures x.key != e.key {
      var i :| 0 <= i < |rest| && rest[i] == x;
      assert all[|kept| + 1 + i] == x && all[|kept|] == e;
    }
    FilterAppend(kept + [e], rest, NotKey(e.key));
    FilterAppend(kept, [e], NotKey(e.key));
    FilterAll(kept, NotKey(e.key));
    FilterAll(rest, NotKey(e.key));
    assert Filter([e], NotKey(e.key)) == [];
  }

  /** One visit of a loop that pops what fails p. */
  lemma VisitNext<K, V>(items: seq<Entry<K, V>>, i: nat, p: Entry<K, V> -> bool)
    requires i < |items| && DistinctKeys(Filter(items[..i], p) + items[i..])
    ensures var now := Filter(items[..i], p) + items[i..];
            (if p(items[i]) then now else Filter(now, NotKey(items[i].key)))
            == Filter(items[..i + 1], p) + items[i + 1..]
    ensures p(items[i]) || |Filter(items[..i + 1], p) + items[i + 1..]| == |Filter(items[..i], p) + items[i..]| - 1
  {
    var kept := Filter(items[..i], p);
    assert items[..i + 1][..i] == items[..i];
    assert kept + items[i..] == kept + [items[i]] + items[i + 1..];
    if !p(items[i]) {
      PopNext(kept, items[i], items[i + 1..]);
    }
  }

  lemma {:induction false} FilterDrops<K, V>(es: seq<Entry<K, V>>, e: Entry<K, V>)
    requires e in es
    ensures |Filter(es, NotKey(e.key))| < |es|
  {
    if es[|es| - 1] != e {
      assert es == es[..|es| - 1] + [es[|es| - 1]];
      FilterDrops(es[..|es| - 1], e);
    }
  }

  /** Pruning and evicting always leave a free place. */
  lemma RoomFits<K, V>(es: seq<Entry<K, V>>, cap: Capacity, now: real)
    requires DistinctKeys(es) && |es| <= cap
    ensures DistinctKeys(Room(es, cap, now)) && |Room(es, cap, now)| < cap
  {
    var live := Filter(es, LiveAt(now));
    FilterDistinct(es, LiveAt(now));
    if |live| >= cap {
      FilterDrops(live, live[Oldest(live)]);
      FilterDistinct(live, NotKey(live[Oldest(live)].key));
    }
  }

  lemma PutFits<K, V>(es: seq<Entry<K, V>>, e: Entry<K, V>, cap: Capacity)
    requires DistinctKeys(es) && |es| < cap
    ensures DistinctKeys(Put(es, e)) && |Put(es, e)| <= cap
  {
    LookupPut(es, e, e.key);
  }

  // ---------- whole runs ----------

  function Run<K(==), V>(t: seq<Event<K, V>>, cap: Capacity): seq<Entry<K, V>> {
    if t == [] then [] else Next(Run(t[..|t| - 1], cap), cap, t[|t| - 1])
  }

  lemma BoundedStep<K, V>(es: seq<Entry<K, V>>, cap: Capacity, e: Event<K, V>)
    requires DistinctKeys(es) && |es| <= cap
    ensures DistinctKeys(Next(es, cap, e)) && |Next(es, cap, e)| <= cap
  {
    match e
    case Set(k, v, ttl, now) =>
      RoomFits(es, cap, now);
      PutFits(Room(es, cap, now), Entry(k, v, now + ttl as real), cap);
    case Get(k, now) => FilterDistinct(es, NotKey(k));
    case Invalidate(scope) => FilterDistinct(es, Outside(scope));
    case Clear =>
  }

  /** No run ever holds more entries than the capacity, or a key twice. */
  lemma {:induction false} RunIsBounded<K, V>(t: seq<Event<K, V>>, cap: Capacity)
    ensures DistinctKeys(Run(t, cap)) && |Run(t, cap)| <= cap
  {
    if t != [] {
      RunIsBounded(t[..|t| - 1], cap);
      BoundedStep(Run(t[..|t| - 1], cap), cap, t[|t| - 1]);
    }
  }

  // ---------- what a run promises, read off its events ----------

  predicate Stores<K(==), V>(e: Event<K, V>, k: K) {
    e.Set? && e.ttl >= 1 && e.key == k
  }

  predicate Overwrites<K(==), V>(e: Event<K, V>, k: K) {
    Stores(e, k) || e.Clear? || (e.Invalidate? && e.scope(k))
  }

  /** Event i is the last word of the run on key k. */
  ghost predicate Governs<K, V>(t: seq<Event<K, V>>, i: int, k: K) {
    0 <= i < |t| && Stores(t[i], k) && forall j | i < j < |t| :: !Overwrites(t[j], k)
  }

  function Expiry<K(==), V>(e: Event<K, V>): real
    requires e.Set?
  {
    e.now + e.ttl as real
  }

  predicate Timed<K(==), V>(e: Event<K, V>) {
    e.Set? || e.Get?
  }

  /** The clock never goes back, and stands at `now` or earlier throughout. */
  ghost predicate Monotone<K, V>(t: seq<Event<K, V>>, now: real) {
    && (forall i, j | 0 <= i <= j < |t| && Timed(t[i]) && Timed(t[j]) :: t[i].now <= t[j].now)
    && (forall i | 0 <= i < |t| && Timed(t[i]) :: t[i].now <= now)
  }

  /** Event j is a `set` that pushes key k out of the full cache. */
  predicate Evicts<K(==), V>(t: seq<Event<K, V>>, cap: Capacity, j: int, k: K) {
    0 <= j < |t| && t[j].Set? && t[j].ttl >= 1 && Victim(Run(t[..j], cap), cap, t[j].now) == Some(k)
  }

  ghost predicate EvictedAfter<K, V>(t: seq<Event<K, V>>, cap: Capacity, i: int, k: K) {
    exists j :: i < j && Evicts(t, cap, j, k)
  }

  // ---------- the refinement ----------

  /** The cache holds for k exactly what the run says it should. */
  ghost predicate Faithful<K, V>(t: seq<Event<K, V>>, cap: Capacity, k: K, now: real) {
    var found := Lookup(Run(t, cap), k);
    && (found.Some? ==> exists i :: Governs(t, i, k) && !EvictedAfter(t, cap, i, k)
                          && found.value == Entry(k, t[i].value, Expiry(t[i])))
    && (forall i :: Governs(t, i, k) && !EvictedAfter(t, cap, i, k) && Expiry(t[i]) > now ==>
          found == Some(Entry(k, t[i].value, Expiry(t[i]))))
  }

  lemma GovernsStep<K, V>(t: seq<Event<K, V>>, i: int, k: K)
    requires t != [] && i < |t| - 1
    ensures Governs(t, i, k) <==> Governs(t[..|t| - 1], i, k) && !Overwrites(t[|t| - 1], k)
  {
    var u := t[..|t| - 1];
    assert forall j | 0 <= j < |u| :: u[j] == t[j];
  }

  lemma EvictsEarlier<K, V>(t: seq<Event<K, V>>, cap: Capacity, j: int, k: K)
    requires t != [] && j < |t| - 1
    ensures Evicts(t[..|t| - 1], cap, j, k) == Evicts(t, cap, j, k)
  {
    if j >= 0 { assert t[..|t| - 1][..j] == t[..j]; }
  }

  lemma EvictedStep<K, V>(t: seq<Event<K, V>>, cap: Capacity, i: int, k: K)
    requires t != [] && i < |t| - 1
    ensures EvictedAfter(t, cap, i, k) <==> EvictedAfter(t[..|t| - 1], cap, i, k) || Evicts(t, cap, |t| - 1, k)
  {
    var u := t[..|t| - 1];
    if EvictedAfter(t, cap, i, k) {
      var j :| i < j && Evicts(t, cap, j, k);
      if j < |u| { EvictsEarlier(t, cap, j, k); }
    }
    if EvictedAfter(u, cap, i, k) {
      var j :| i < j && Evicts(u, cap, j, k);
      EvictsEarlier(t, cap, j, k);
    }
  }

  lemma GovernorIsUnique<K, V>(t: seq<Event<K, V>>, i: int, j: int, k: K)
    requires Governs(t, i, k) && Governs(t, j, k)
    ensures i == j
  {
    assert i < j ==> Overwrites(t[j], k);
    assert j < i ==> Overwrites(t[i], k);
  }

  /** What a step does to the binding of k. */
  lemma LookupNext<K, V>(es: seq<Entry<K, V>>, cap: Capacity, e: Event<K, V>, k: K)
    requires DistinctKeys(es)
    ensures Lookup(Next(es, cap, e), k) ==
              if Stores(e, k) then Some(Entry(k, e.value, Expiry(e)))
              else if Overwrites(e, k) then None
              else if e.Set? && e.ttl >= 1 && Victim(es, cap, e.now) == Some(k) then None
              else if Timed(e) && (e.Set? ==> e.ttl >= 1) && (e.Get? ==> e.key == k)
                      && Lookup(es, k).Some? && Lookup(es, k).value.expiresAt <= e.now then None
              else Lookup(es, k)
  {
    LookupIsMember(es, k);
    match e
    case Set(k', v, ttl, now) => if ttl >= 1 { LookupAfterSet(es, cap, e, k); }
    case Get(k', now) => LookupFilter(es, NotKey(k'), k);
    case Invalidate(scope) => LookupFilter(es, Outside(scope), k);
    case Clear =>
  }

  lemma LookupRoom<K, V>(es: seq<Entry<K, V>>, cap: Capacity, now: real, k: K)
    requires DistinctKeys(es)
    ensures DistinctKeys(Room(es, cap, now))
    ensures Lookup(Room(es, cap, now), k) ==
              if Victim(es, cap, now) == Some(k) then None
              else if Lookup(es, k).Some? && Lookup(es, k).value.expiresAt <= now then None
              else Lookup(es, k)
  {
    var live := Filter(es, LiveAt(now));
    LookupFilter(es, LiveAt(now), k);
    FilterDistinct(es, LiveAt(now));
    var v := Victim(es, cap, now);
    if v.Some? {
      LookupIsMember(live, k);
      LookupFilter(live, NotKey(v.value), k);
      FilterDistinct(live, NotKey(v.value));
    }
  }

  lemma LookupAfterSet<K, V>(es: seq<Entry<K, V>>, cap: Capacity, e: Event<K, V>, k: K)
    requires DistinctKeys(es) && e.Set? && e.ttl >= 1
    ensures Lookup(Next(es, cap, e), k) ==
              if e.key == k then Some(Entry(k, e.value, Expiry(e)))
              else if Victim(es, cap, e.now) == Some(k) then None
              else if Lookup(es, k).Some? && Lookup(es, k).value.expiresAt <= e.now then None
              else Lookup(es, k)
  {
    var room, entry := Room(es, cap, e.now), Entry(e.key, e.value, Expiry(e));
    SetIsPut(es, cap, e);
    LookupRoom(es, cap, e.now, k);
    LookupPut(room, entry, k);
  }

  lemma SetIsPut<K, V>(es: seq<Entry<K, V>>, cap: Capacity, e: Event<K, V>)
    requires e.Set? && e.ttl >= 1
    ensures Next(es, cap, e) == Put(Room(es, cap, e.now), Entry(e.key, e.value, Expiry(e)))
  {
  }

  lemma {:induction false} RunIsFaithful<K, V>(t: seq<Event<K, V>>, cap: Capacity, k: K, now: real)
    requires Monotone(t, now)
    ensures Faithful(t, cap, k, now)
  {
    if t != [] {
      var u, n := t[..|t| - 1], |t| - 1;
      RunIsFaithful(u, cap, k, now);
      if Lookup(Run(t, cap), k).Some? {
        FaithfulFound(t, cap, k, now);
      }
      forall i | Governs(t, i, k) && !EvictedAfter(t, cap, i, k) && Expiry(t[i]) > now
        ensures Lookup(Run(t, cap), k) == Some(Entry(k, t[i].value, Expiry(t[i])))
      {
        FaithfulKept(t, cap, k, now, i);
      }
    }
  }

  /** What a step leaves in the cache is governed and was not evicted. */
  lemma FaithfulFound<K, V>(t: seq<Event<K, V>>, cap: Capacity, k: K, now: real)
    requires t != [] && Faithful(t[..|t| - 1], cap, k, now) && Lookup(Run(t, cap), k).Some?
    ensures exists i :: Governs(t, i, k) && !EvictedAfter(t, cap, i, k)
              && Lookup(Run(t, cap), k).value == Entry(k, t[i].value, Expiry(t[i]))
  {
    var u, n := t[..|t| - 1], |t| - 1;
    RunIsBounded(u, cap);
    LookupNext(Run(u, cap), cap, t[n], k);
    if Stores(t[n], k) {
      assert Governs(t, n, k) && !EvictedAfter(t, cap, n, k);
    } else {
      var i :| Governs(u, i, k) && !EvictedAfter(u, cap, i, k)
               && Lookup(Run(u, cap), k).value == Entry(k, u[i].value, Expiry(u[i]));
      GovernsStep(t, i, k);
      EvictedStep(t, cap, i, k);
      assert Governs(t, i, k) && !EvictedAfter(t, cap, i, k);
    }
  }

  /** What the run says should be there, and is unexpired and not evicted, is there. */
  lemma FaithfulKept<K, V>(t: seq<Event<K, V>>, cap: Capacity, k: K, now: real, i: int)
    requires t != [] && Faithful(t[..|t| - 1], cap, k, now) && Monotone(t, now)
    requires Governs(t, i, k) && !EvictedAfter(t, cap, i, k) && Expiry(t[i]) > now
    ensures Lookup(Run(t, cap), k) == Some(Entry(k, t[i].value, Expiry(t[i])))
  {
    var u, n := t[..|t| - 1], |t| - 1;
    RunIsBounded(u, cap);
    LookupNext(Run(u, cap), cap, t[n], k);
    if i < n {
      GovernsStep(t, i, k);
      EvictedStep(t, cap, i, k);
      assert u[i] == t[i];
      assert Lookup(Run(u, cap), k) == Some(Entry(k, t[i].value, Expiry(t[i])));
      assert !Overwrites(t[n], k) && !Evicts(t, cap, n, k);
    }
  }

  /** The cache answers v for k exactly when the run's last word on k stored v, has
      not expired, and was not pushed out by a later `set` on the full cache. */
  lemma HitIff<K, V>(t: seq<Event<K, V>>, cap: Capacity, k: K, now: real, v: V)
    requires Monotone(t, now)
    ensures Hit(Run(t, cap), k, now) == Some(v) <==>
              exists i :: Governs(t, i, k) && t[i].value == v && t[i].now + t[i].ttl as real > now
                          && !EvictedAfter(t, cap, i, k)
  {
    RunIsFaithful(t, cap, k, now);
  }

  /** Without pressure nothing is lost: while every later `set` finds fewer unexpired
      entries than the capacity, a stored value is answered until it expires. */
  lemma HitUntilExpiry<K, V>(t: seq<Event<K, V>>, cap: Capacity, i: int, k: K, now: real)
    requires Monotone(t, now) && Governs(t, i, k) && now < t[i].now + t[i].ttl as real
    requires forall j | i < j < |t| && t[j].Set? && t[j].ttl >= 1 ::
               |Filter(Run(t[..j], cap), LiveAt(t[j].now))| < cap
    ensures Hit(Run(t, cap), k, now) == Some(t[i].value)
  {
    assert forall j :: i < j ==> !Evicts(t, cap, j, k);
    HitIff(t, cap, k, now, t[i].value);
  }

  // ---------- the order of eviction ----------

  ghost predicate UniformTtl<K, V>(t: seq<Event<K, V>>, ttl: int) {
    forall i | 0 <= i < |t| && t[i].Set? :: t[i].ttl == ttl
  }

  /** Whatever a `set` leaves of the old entries expires no earlier than its victim. */
  lemma VictimExpiresFirst<K, V>(es: seq<Entry<K, V>>, cap: Capacity, now: real, k: K, k': K)
    requires DistinctKeys(es) && Victim(es, cap, now) == Some(k) && Lookup(Room(es, cap, now), k').Some?
    ensures Lookup(es, k).Some? && Lookup(es, k').Some?
    ensures Lookup(es, k).value.expiresAt <= Lookup(es, k').value.expiresAt
  {
    var live := Filter(es, LiveAt(now));
    LookupRoom(es, cap, now, k');
    FilterDistinct(es, LiveAt(now));
    var victim := live[Oldest(live)];
    FilterMember(es, LiveAt(now), victim);
    LookupOfMember(es, victim);
    LookupFilter(es, LiveAt(now), k');
    LookupIsMember(live, k');
    var x :| 0 <= x < |live| && live[x] == Lookup(live, k').value;
    OldestIsFirstLeast(live, x);
  }

  lemma StoredByGovernor<K, V>(t: seq<Event<K, V>>, cap: Capacity, i: int, k: K, now: real)
    requires Monotone(t, now) && Governs(t, i, k) && Lookup(Run(t, cap), k).Some?
    ensures Lookup(Run(t, cap), k).value == Entry(k, t[i].value, Expiry(t[i]))
  {
    RunIsFaithful(t, cap, k, now);
    var j :| Governs(t, j, k) && Lookup(Run(t, cap), k).value == Entry(k, t[j].value, Expiry(t[j]));
    GovernorIsUnique(t, i, j, k);
  }

  lemma VictimExpiresBefore<K, V>(u: seq<Event<K, V>>, cap: Capacity, now: real, i: int, k: K, j: int, k': K)
    requires Monotone(u, now) && Governs(u, i, k) && Governs(u, j, k')
    requires Victim(Run(u, cap), cap, now) == Some(k) && Lookup(Room(Run(u, cap), cap, now), k').Some?
    ensures Expiry(u[i]) <= Expiry(u[j])
  {
    RunIsBounded(u, cap);
    VictimExpiresFirst(Run(u, cap), cap, now, k, k');
    StoredByGovernor(u, cap, i, k, now);
    StoredByGovernor(u, cap, j, k', now);
  }

  /** What a `set` leaves in the cache was governed, and had room, before it. */
  lemma SurvivorWasGoverned<K, V>(t: seq<Event<K, V>>, cap: Capacity, j: int, k: K)
    requires t != [] && t[|t| - 1].Set? && t[|t| - 1].ttl >= 1 && j < |t| - 1
    requires Governs(t, j, k) && Lookup(Run(t, cap), k).Some?
    ensures Governs(t[..|t| - 1], j, k)
    ensures Lookup(Room(Run(t[..|t| - 1], cap), cap, t[|t| - 1].now), k).Some?
  {
    GovernsStep(t, j, k);
    RunIsBounded(t[..|t| - 1], cap);
    SurvivorHadRoom(Run(t[..|t| - 1], cap), cap, t[|t| - 1], k);
  }

  /** With one time to live for all, whatever is in the cache after an eviction was
      stored no earlier than the entry that was evicted. */
  lemma EvictsEarliestStored<K, V>(t: seq<Event<K, V>>, cap: Capacity, ttl: int, i: int, k: K, j: int, k': K)
    requires t != [] && UniformTtl(t, ttl)
    requires var n, u := |t| - 1, t[..|t| - 1];
             && Evicts(t, cap, n, k) && Monotone(t, t[n].now) && Governs(u, i, k)
             && Governs(t, j, k') && Lookup(Run(t, cap), k').Some?
    ensures t[i].now <= t[j].now
  {
    assert t[..|t| - 1][i] == t[i];
    if j < |t| - 1 {
      assert t[..|t| - 1][j] == t[j];
      VictimExpiresBeforeKept(t, cap, i, k, j, k');
      SameTtl(t, ttl, i, j);
    } else {
      NoLaterThanLast(t, i);
    }
  }

  lemma VictimExpiresBeforeKept<K, V>(t: seq<Event<K, V>>, cap: Capacity, i: int, k: K, j: int, k': K)
    requires t != [] && Evicts(t, cap, |t| - 1, k) && Monotone(t, t[|t| - 1].now)
    requires Governs(t[..|t| - 1], i, k) && j < |t| - 1 && Governs(t, j, k') && Lookup(Run(t, cap), k').Some?
    ensures Expiry(t[i]) <= Expiry(t[j])
  {
    var u := t[..|t| - 1];
    assert u[i] == t[i] && u[j] == t[j];
    SurvivorWasGoverned(t, cap, j, k');
    MonotoneFront(t);
    VictimExpiresBefore(u, cap, t[|t| - 1].now, i, k, j, k');
  }

  lemma MonotoneFront<K, V>(t: seq<Event<K, V>>)
    requires t != [] && Timed(t[|t| - 1]) && Monotone(t, t[|t| - 1].now)
    ensures Monotone(t[..|t| - 1], t[|t| - 1].now)
  {
    var u := t[..|t| - 1];
    assert forall i | 0 <= i < |u| :: u[i] == t[i];
  }

  lemma SameTtl<K, V>(t: seq<Event<K, V>>, ttl: int, i: int, j: int)
    requires UniformTtl(t, ttl) && 0 <= i < |t| && 0 <= j < |t| && t[i].Set? && t[j].Set?
    requires Expiry(t[i]) <= Expiry(t[j])
    ensures t[i].now <= t[j].now
  {
  }

  lemma NoLaterThanLast<K, V>(t: seq<Event<K, V>>, i: int)
    requires 0 <= i < |t| && Timed(t[i]) && Timed(t[|t| - 1]) && Monotone(t, t[|t| - 1].now)
    ensures t[i].now <= t[|t| - 1].now
  {
  }

  lemma SurvivorHadRoom<K, V>(es: seq<Entry<K, V>>, cap: Capacity, e: Event<K, V>, k: K)
    requires DistinctKeys(es) && e.Set? && e.ttl >= 1 && !Stores(e, k) && Lookup(Next(es, cap, e), k).Some?
    ensures Lookup(Room(es, cap, e.now), k).Some?
  {
    LookupAfterSet(es, cap, e, k);
    LookupRoom(es, cap, e.now, k);
  }

  lemma {:induction false} LookupOfMember<K, V>(es: seq<Entry<K, V>>, e: Entry<K, V>)
    requires DistinctKeys(es) && e in es
    ensures Lookup(es, e.key) == Some(e)
  {
    if es[|es| - 1] != e {
      var i :| 0 <= i < |es| && es[i] == e;
      assert es[..|es| - 1][i] == e;
      LookupOfMember(es[..|es| - 1], e);
    }
  }
}
