/** The counting rule of the fixed-window limiter in backend/app/core/middleware.py,
    on calls that are already sorted into buckets. */
module FixedWindow {
  import opened Text
  import opened Counting

  /** One call: outside every bucket, or counted in bucket `key`. */
  datatype Hit = Unlimited | Hit(key: string, limit: int, seconds: int, now: real)

  datatype Bucket = Bucket(count: int, resetAt: real)

  type Buckets = map<string, Bucket>

  type Trace = seq<Hit>

  function Lookup(buckets: Buckets, k: string): Option<Bucket> {
    if k in buckets then Some(buckets[k]) else None
  }

  /** The bucket after counting one more call at `now`. */
  function Admit(b: Option<Bucket>, now: real, window: real): Bucket {
    if b.None? || now >= b.value.resetAt then Bucket(1, now + window)
    else Bucket(b.value.count + 1, b.value.resetAt)
  }

  function Counted(buckets: Buckets, h: Hit): Bucket
    requires h.Hit?
  {
    Admit(Lookup(buckets, h.key), h.now, h.seconds as real)
  }

  function Next(buckets: Buckets, h: Hit): Buckets {
    if h.Unlimited? then buckets else buckets[h.key := Counted(buckets, h)]
  }

  predicate Passes(buckets: Buckets, h: Hit) {
    h.Hit? ==> Counted(buckets, h).count <= h.limit
  }

  /** The buckets after a run that starts with none. */
  function Run(t: Trace): Buckets {
    if t == [] then map[] else Next(Run(t[..|t| - 1]), t[|t| - 1])
  }

  predicate On(t: Trace, k: string, i: int) {
    0 <= i < |t| && t[i].Hit? && t[i].key == k
  }

  /** Call i is counted in bucket k and let through. */
  predicate Forwards(t: Trace, k: string, i: int) {
    On(t, k, i) && Passes(Run(t[..i]), t[i])
  }

  /** The calls on bucket k that were let through in the instants [a, b). */
  function Forwarded(t: Trace, k: string, a: real, b: real): set<int> {
    set i | 0 <= i < |t| && Forwards(t, k, i) && a <= t[i].now < b
  }

  /** The clock never goes back and a bucket's calls share one limit and one window. */
  ghost predicate Orderly(t: Trace) {
    && (forall i, j | 0 <= i <= j < |t| && t[i].Hit? && t[j].Hit? :: t[i].now <= t[j].now)
    && (forall i, j | 0 <= i < |t| && 0 <= j < |t| && t[i].Hit? && t[j].Hit? && t[i].key == t[j].key ::
          t[i].limit == t[j].limit && t[i].seconds == t[j].seconds)
    && (forall i | 0 <= i < |t| && t[i].Hit? :: t[i].limit >= 1 && t[i].seconds >= 1)
  }

  // ---------- one key does not see the others ----------

  function Project(t: Trace, k: string): Trace {
    if t == [] then []
    else
      var rest, h := Project(t[..|t| - 1], k), t[|t| - 1];
      if h.Hit? && h.key == k then rest + [h] else rest
  }

  lemma {:induction false} ProjectionKeepsBucket(t: Trace, k: string)
    ensures Lookup(Run(t), k) == Lookup(Run(Project(t, k)), k)
  {
    if t != [] {
      ProjectionKeepsBucket(t[..|t| - 1], k);
      var rest := Project(t[..|t| - 1], k);
      if On(t, k, |t| - 1) {
        assert (rest + [t[|t| - 1]])[..|rest|] == rest;
      }
    }
  }

  // ---------- windows ----------

  /** The end of the window that call i is counted in. */
  function ResetAt(t: Trace, i: int): real
    requires 0 <= i < |t| && t[i].Hit?
  {
    Counted(Run(t[..i]), t[i]).resetAt
  }

  predicate ForwardsUntil(t: Trace, k: string, r: real, i: int) {
    Forwards(t, k, i) && ResetAt(t, i) == r
  }

  /** The calls on bucket k that were let through in the window that ends at r. */
  function InWindow(t: Trace, k: string, r: real): set<int> {
    set i | 0 <= i < |t| && ForwardsUntil(t, k, r, i)
  }

  ghost predicate Placed(t: Trace, k: string, resetAt: real, i: int) {
    On(t, k, i) ==>
      var r, w := ResetAt(t, i), t[i].seconds as real;
      r - w <= t[i].now < r && (r == resetAt || r + w <= resetAt)
  }

  /** Some call opened the stored window. */
  ghost predicate Opened(t: Trace, k: string, resetAt: real) {
    exists i :: On(t, k, i) && ResetAt(t, i) == resetAt
  }

  /** Every call lies in its window, and in the stored window or well before it. */
  ghost predicate AllPlaced(t: Trace, k: string, resetAt: real) {
    forall i :: Placed(t, k, resetAt, i)
  }

  ghost predicate Limited(t: Trace, k: string, limit: int) {
    limit >= 1 && forall i :: On(t, k, i) ==> t[i].limit == limit
  }

  /** What the stored bucket says about the run so far. */
  ghost predicate Summary(t: Trace, k: string, limit: int) {
    match Lookup(Run(t), k)
    case None => forall i :: !On(t, k, i)
    case Some(b) =>
      && b.count >= 1
      && Opened(t, k, b.resetAt)
      && AllPlaced(t, k, b.resetAt)
      && |InWindow(t, k, b.resetAt)| == if b.count <= limit then b.count else limit
  }

  lemma EarlierCall(t: Trace, k: string, i: int)
    requires t != [] && i < |t| - 1
    ensures On(t[..|t| - 1], k, i) == On(t, k, i)
    ensures Forwards(t[..|t| - 1], k, i) == Forwards(t, k, i)
    ensures On(t, k, i) ==> t[..|t| - 1][i] == t[i] && ResetAt(t[..|t| - 1], i) == ResetAt(t, i)
  {
    if i >= 0 { assert t[..|t| - 1][..i] == t[..i]; }
  }

  lemma PlacedStep(t: Trace, k: string, r: real, i: int)
    requires t != [] && i < |t| - 1
    ensures Placed(t[..|t| - 1], k, r, i) == Placed(t, k, r, i)
  {
    EarlierCall(t, k, i);
  }

  lemma OpenedStep(t: Trace, k: string, r: real)
    requires t != [] && Opened(t[..|t| - 1], k, r)
    ensures Opened(t, k, r)
  {
    var i :| On(t[..|t| - 1], k, i) && ResetAt(t[..|t| - 1], i) == r;
    EarlierCall(t, k, i);
  }

  lemma WindowStep(t: Trace, k: string, r: real)
    requires t != []
    ensures var u, n := t[..|t| - 1], |t| - 1;
            && n !in InWindow(u, k, r)
            && InWindow(t, k, r) == InWindow(u, k, r) + (if ForwardsUntil(t, k, r, n) then {n} else {})
  {
    forall i | i < |t| - 1 ensures ForwardsUntil(t[..|t| - 1], k, r, i) == ForwardsUntil(t, k, r, i) {
      EarlierCall(t, k, i);
    }
  }

  lemma {:induction false} SummaryHolds(t: Trace, k: string, limit: int)
    requires Orderly(t) && Limited(t, k, limit)
    ensures Summary(t, k, limit)
  {
    if t != [] {
      var u := t[..|t| - 1];
      forall i | On(u, k, i) ensures t[i].limit == limit { EarlierCall(t, k, i); }
      SummaryHolds(u, k, limit);
      if On(t, k, |t| - 1) {
        SummaryOwnKey(t, k, limit);
      } else {
        SummaryOtherKey(t, k, limit);
      }
    }
  }

  lemma SummaryOtherKey(t: Trace, k: string, limit: int)
    requires t != [] && !On(t, k, |t| - 1) && Summary(t[..|t| - 1], k, limit)
    ensures Summary(t, k, limit)
  {
    var u := t[..|t| - 1];
    var before := Lookup(Run(u), k);
    assert Lookup(Run(t), k) == before;
    if before.Some? {
      var r := before.value.resetAt;
      WindowStep(t, k, r);
      OpenedStep(t, k, r);
      forall i ensures Placed(t, k, r, i) {
        if i < |u| { PlacedStep(t, k, r, i); }
      }
    } else {
      forall i ensures !On(t, k, i) {
        if i < |u| { EarlierCall(t, k, i); }
      }
    }
  }

  /** What is placed with respect to one window stays so when another call is made in it. */
  lemma AllPlacedStep(t: Trace, k: string, r: real)
    requires t != [] && AllPlaced(t[..|t| - 1], k, r) && Placed(t, k, r, |t| - 1)
    ensures AllPlaced(t, k, r)
  {
    forall i ensures Placed(t, k, r, i) {
      if i < |t| - 1 { PlacedStep(t, k, r, i); }
    }
  }

  /** The same when the call opens a later window. */
  lemma AllPlacedLater(t: Trace, k: string, r: real, r': real)
    requires t != [] && Orderly(t) && On(t, k, |t| - 1) && Placed(t, k, r', |t| - 1)
    requires AllPlaced(t[..|t| - 1], k, r) && r + t[|t| - 1].seconds as real <= r'
    ensures AllPlaced(t, k, r')
  {
    forall i ensures Placed(t, k, r', i) {
      if i < |t| - 1 {
        PlacedStep(t, k, r, i);
        if On(t, k, i) { assert t[i].seconds == t[|t| - 1].seconds; }
      }
    }
  }

  /** The call that opens a new window starts its count. */
  lemma FreshWindow(t: Trace, k: string, limit: int)
    requires t != [] && On(t, k, |t| - 1) && Orderly(t) && t[|t| - 1].limit == limit
    requires Summary(t[..|t| - 1], k, limit)
    requires var b := Lookup(Run(t[..|t| - 1]), k); b.None? || t[|t| - 1].now >= b.value.resetAt
    ensures Summary(t, k, limit)
  {
    var n, u := |t| - 1, t[..|t| - 1];
    var before, b := Lookup(Run(u), k), Counted(Run(u), t[n]);
    assert Lookup(Run(t), k) == Some(b) && ResetAt(t, n) == b.resetAt;
    if before.Some? {
      AllPlacedLater(t, k, before.value.resetAt, b.resetAt);
    } else {
      forall i ensures Placed(t, k, b.resetAt, i) {
        if i < n { EarlierCall(t, k, i); }
      }
    }
    WindowStep(t, k, b.resetAt);
    forall i | On(u, k, i) ensures ResetAt(u, i) != b.resetAt {
      assert before.Some? && Placed(u, k, before.value.resetAt, i);
    }
    assert InWindow(u, k, b.resetAt) == {};
  }

  /** A call inside the stored window adds to its count. */
  lemma SameWindow(t: Trace, k: string, limit: int)
    requires t != [] && On(t, k, |t| - 1) && Orderly(t) && t[|t| - 1].limit == limit
    requires Summary(t[..|t| - 1], k, limit)
    requires var b := Lookup(Run(t[..|t| - 1]), k); b.Some? && t[|t| - 1].now < b.value.resetAt
    ensures Summary(t, k, limit)
  {
    var n, u := |t| - 1, t[..|t| - 1];
    var r := Lookup(Run(u), k).value.resetAt;
    assert Lookup(Run(t), k) == Some(Counted(Run(u), t[n])) && ResetAt(t, n) == r;
    assert Placed(t, k, r, n) by {
      var opener :| On(u, k, opener) && ResetAt(u, opener) == r;
      EarlierCall(t, k, opener);
      assert Placed(u, k, r, opener) && t[opener].seconds == t[n].seconds && t[opener].now <= t[n].now;
    }
    AllPlacedStep(t, k, r);
    WindowStep(t, k, r);
  }

  lemma SummaryOwnKey(t: Trace, k: string, limit: int)
    requires t != [] && On(t, k, |t| - 1) && Orderly(t) && t[|t| - 1].limit == limit
    requires Summary(t[..|t| - 1], k, limit)
    ensures Summary(t, k, limit)
  {
    var b := Lookup(Run(t[..|t| - 1]), k);
    if b.None? || t[|t| - 1].now >= b.value.resetAt { FreshWindow(t, k, limit); } else { SameWindow(t, k, limit); }
  }

  /** A window lets no more than the limit through. */
  lemma {:induction false} WindowCap(t: Trace, k: string, r: real, limit: int)
    requires Orderly(t) && Limited(t, k, limit)
    ensures |InWindow(t, k, r)| <= limit
  {
    if t != [] {
      var n := |t| - 1;
      forall i | On(t[..n], k, i) ensures t[i].limit == limit { EarlierCall(t, k, i); }
      WindowCap(t[..n], k, r, limit);
      WindowStep(t, k, r);
      if On(t, k, n) {
        SummaryHolds(t, k, limit);
        assert Lookup(Run(t), k).value.resetAt == ResetAt(t, n);
      }
    }
  }

  /** Two calls on one bucket are counted in one window, or in windows that end
      at least a whole window length apart. */
  lemma WindowsApart(t: Trace, k: string, limit: int, i: int, j: int)
    requires Orderly(t) && Limited(t, k, limit) && i <= j && On(t, k, i) && On(t, k, j)
    ensures var r, q, w := ResetAt(t, i), ResetAt(t, j), t[j].seconds as real;
            q - w <= t[j].now < q && (r == q || r + w <= q)
  {
    var u := t[..j + 1];
    assert u[..j] == t[..j] && u[..i] == t[..i];
    forall h | On(u, k, h) ensures u[h].limit == limit { assert On(t, k, h); }
    SummaryHolds(u, k, limit);
    assert Lookup(Run(u), k) == Some(Counted(Run(t[..j]), t[j]));
    assert Placed(u, k, ResetAt(t, j), i) && Placed(u, k, ResetAt(t, j), j);
  }

  // ---------- bounds over intervals ----------

  ghost predicate ShareWindow(t: Trace, k: string, w: set<int>) {
    && (forall i | i in w :: Forwards(t, k, i))
    && (forall i, j | i in w && j in w :: On(t, k, i) && On(t, k, j) && ResetAt(t, i) == ResetAt(t, j))
  }

  /** Forwarded calls that all fall in one window number at most the limit. */
  lemma OneWindow(t: Trace, k: string, limit: int, w: set<int>)
    requires Orderly(t) && Limited(t, k, limit) && ShareWindow(t, k, w)
    ensures |w| <= limit
  {
    if |w| > 0 {
      var i := Pick(w);
      var r := ResetAt(t, i);
      WindowCap(t, k, r, limit);
      SubsetSize(w, InWindow(t, k, r));
    }
  }

  predicate EndsBefore(t: Trace, k: string, a: real, c: real, i: int) {
    Forwards(t, k, i) && a <= t[i].now && ResetAt(t, i) < c
  }

  /** The forwarded calls from `a` on whose window ends before `c`. */
  function EndingBefore(t: Trace, k: string, a: real, c: real): set<int> {
    set i | 0 <= i < |t| && EndsBefore(t, k, a, c, i)
  }

  /** n window lengths, one after another. */
  function Span(n: nat, window: real): real {
    if n == 0 then 0.0 else Span(n - 1, window) + window
  }

  lemma {:induction false} SpanIsProduct(n: nat, window: real)
    ensures Span(n, window) == n as real * window
  {
    if n > 0 {
      SpanIsProduct(n - 1, window);
      assert n as real * window == (n - 1) as real * window + window;
    }
  }

  /** The interval [a, b) is no longer than n windows. */
  predicate WithinWindows(a: real, b: real, n: nat, window: real) {
    b - a <= n as real * window
  }

  lemma WithinSpan(a: real, b: real, n: nat, window: real)
    requires WithinWindows(a, b, n, window)
    ensures b <= a + Span(n, window)
  {
    SpanIsProduct(n, window);
  }

  /** Calls whose windows end in [c - w, c) share that window. */
  lemma LateCallsShareWindow(t: Trace, k: string, limit: int, c: real, i: int, j: int)
    requires Orderly(t) && Limited(t, k, limit) && On(t, k, i) && On(t, k, j)
    requires c - t[i].seconds as real <= ResetAt(t, i) < c
    requires c - t[i].seconds as real <= ResetAt(t, j) < c
    ensures ResetAt(t, i) == ResetAt(t, j)
  {
    if i <= j { WindowsApart(t, k, limit, i, j); } else { WindowsApart(t, k, limit, j, i); }
  }

  lemma LatestWindow(t: Trace, k: string, limit: int, window: real, a: real, c0: real, c: real)
    requires Orderly(t) && Limited(t, k, limit) && c == c0 + window
    requires forall i :: On(t, k, i) ==> t[i].seconds as real == window
    ensures |EndingBefore(t, k, a, c) - EndingBefore(t, k, a, c0)| <= limit
  {
    var late := EndingBefore(t, k, a, c) - EndingBefore(t, k, a, c0);
    forall i, j | i in late && j in late ensures On(t, k, i) && On(t, k, j) && ResetAt(t, i) == ResetAt(t, j) {
      assert EndsBefore(t, k, a, c, i) && EndsBefore(t, k, a, c, j);
      assert !EndsBefore(t, k, a, c0, i) && !EndsBefore(t, k, a, c0, j);
      LateCallsShareWindow(t, k, limit, c, i, j);
    }
    forall i | i in late ensures Forwards(t, k, i) { assert EndsBefore(t, k, a, c, i); }
    OneWindow(t, k, limit, late);
  }

  lemma NothingEndsBefore(t: Trace, k: string, limit: int, a: real)
    requires Orderly(t) && Limited(t, k, limit)
    ensures EndingBefore(t, k, a, a) == {}
  {
    forall i | On(t, k, i) ensures !EndsBefore(t, k, a, a, i) {
      WindowsApart(t, k, limit, i, i);
    }
  }

  lemma {:induction false} EndingBeforeCap(t: Trace, k: string, limit: int, window: real, a: real, n: nat)
    requires Orderly(t) && Limited(t, k, limit)
    requires forall i :: On(t, k, i) ==> t[i].seconds as real == window
    ensures |EndingBefore(t, k, a, a + Span(n, window))| <= n * limit
    decreases n
  {
    if n == 0 {
      NothingEndsBefore(t, k, limit, a);
    } else {
      EndingBeforeCap(t, k, limit, window, a, n - 1);
      EndingBeforeStep(t, k, limit, window, a, n);
      assert n * limit == (n - 1) * limit + limit;
    }
  }

  lemma OneWindowMore(t: Trace, k: string, limit: int, window: real, a: real, c0: real, c: real)
    requires Orderly(t) && Limited(t, k, limit) && c == c0 + window
    requires forall i :: On(t, k, i) ==> t[i].seconds as real == window
    ensures |EndingBefore(t, k, a, c)| <= |EndingBefore(t, k, a, c0)| + limit
  {
    LatestWindow(t, k, limit, window, a, c0, c);
    MoreThanBefore(EndingBefore(t, k, a, c0), EndingBefore(t, k, a, c), limit);
  }

  lemma EndingBeforeStep(t: Trace, k: string, limit: int, window: real, a: real, n: nat)
    requires n > 0 && Orderly(t) && Limited(t, k, limit)
    requires forall i :: On(t, k, i) ==> t[i].seconds as real == window
    ensures |EndingBefore(t, k, a, a + Span(n, window))| <= |EndingBefore(t, k, a, a + Span(n - 1, window))| + limit
  {
    OneWindowMore(t, k, limit, window, a, a + Span(n - 1, window), a + Span(n, window));
  }

  lemma SpanBound(t: Trace, k: string, a: real, b: real, n: nat, limit: int, seconds: int)
    requires Orderly(t) && Limited(t, k, limit)
    requires forall i :: On(t, k, i) ==> t[i].seconds == seconds
    requires b <= a + Span(n, seconds as real)
    ensures |Forwarded(t, k, a, b)| <= (n + 1) * limit
  {
    var c := a + Span(n + 1, seconds as real);
    EndingBeforeCap(t, k, limit, seconds as real, a, n + 1);
    forall i | i in Forwarded(t, k, a, b) ensures i in EndingBefore(t, k, a, c) {
      WindowsApart(t, k, limit, i, i);
    }
    SubsetSize(Forwarded(t, k, a, b), EndingBefore(t, k, a, c));
  }

  /** A bucket lets at most (n + 1) times its limit through in any half-open
      interval of at most n windows, however its calls are interleaved with others. */
  lemma IntervalBound(t: Trace, k: string, a: real, b: real, n: nat, limit: int, seconds: int)
    requires Orderly(t) && Limited(t, k, limit)
    requires forall i :: On(t, k, i) ==> t[i].seconds == seconds
    requires WithinWindows(a, b, n, seconds as real)
    ensures |Forwarded(t, k, a, b)| <= (n + 1) * limit
  {
    WithinSpan(a, b, n, seconds as real);
    SpanBound(t, k, a, b, n, limit, seconds);
  }

  /** The calls before call i that were let through less than a window length ago. */
  function RecentForwards(t: Trace, k: string, i: nat): set<int>
    requires i < |t| && t[i].Hit?
  {
    set j | 0 <= j < i && Forwards(t, k, j) && t[i].now - t[i].seconds as real < t[j].now
  }

  /** A call is turned away only when its bucket has already let its whole limit
      through within the last window length. */
  lemma RejectedOnlyWhenFull(t: Trace, k: string, i: nat)
    requires Orderly(t) && On(t, k, i) && !Forwards(t, k, i)
    ensures |RecentForwards(t, k, i)| >= t[i].limit
  {
    var u, r, limit := t[..i + 1], ResetAt(t, i), t[i].limit;
    assert u[..i] == t[..i];
    forall h | On(u, k, h) ensures u[h].limit == limit { assert On(t, k, h); }
    forall h | On(t, k, h) ensures t[h].limit == limit { }
    SummaryHolds(u, k, limit);
    assert Lookup(Run(u), k) == Some(Counted(Run(t[..i]), t[i]));
    WindowsApart(t, k, limit, i, i);
    forall j | j in InWindow(u, k, r) ensures j in RecentForwards(t, k, i) {
      assert u[..j] == t[..j];
      assert t[j].seconds == t[i].seconds;
      WindowsApart(t, k, limit, j, j);
    }
    SubsetSize(InWindow(u, k, r), RecentForwards(t, k, i));
  }

  /** The calls before call i that were let through in the window it is counted in. */
  function EarlierInWindow(t: Trace, k: string, i: nat): set<int>
    requires i < |t| && t[i].Hit?
  {
    set j | 0 <= j < i && ForwardsUntil(t, k, ResetAt(t, i), j)
  }

  lemma WindowUpTo(t: Trace, k: string, i: nat)
    requires On(t, k, i)
    ensures var u := t[..i + 1];
            && On(u, k, i) && ResetAt(u, i) == ResetAt(t, i) && Forwards(u, k, i) == Forwards(t, k, i)
            && InWindow(u, k, ResetAt(t, i)) ==
                 EarlierInWindow(t, k, i) + (if Forwards(t, k, i) then {i as int} else {})
  {
    var u, r := t[..i + 1], ResetAt(t, i);
    assert u[..i] == t[..i];
    forall j | 0 <= j <= i ensures ForwardsUntil(u, k, r, j) == ForwardsUntil(t, k, r, j) {
      assert u[..j] == t[..j] && u[j] == t[j];
    }
  }

  /** A call is turned away exactly when its window has already let its limit through. */
  lemma RejectedIffWindowFull(t: Trace, k: string, i: nat)
    requires Orderly(t) && On(t, k, i) && t[i].limit >= 1
    ensures !Forwards(t, k, i) <==> |EarlierInWindow(t, k, i)| == t[i].limit
    ensures |EarlierInWindow(t, k, i)| <= t[i].limit
    ensures Forwards(t, k, i) ==> Counted(Run(t[..i]), t[i]).count == |EarlierInWindow(t, k, i)| + 1
  {
    var u, r, limit := t[..i + 1], ResetAt(t, i), t[i].limit;
    forall h | On(u, k, h) ensures u[h].limit == limit { assert On(t, k, h); }
    assert u[..i] == t[..i];
    SummaryHolds(u, k, limit);
    assert Lookup(Run(u), k) == Some(Counted(Run(t[..i]), t[i]));
    WindowUpTo(t, k, i);
  }
}
