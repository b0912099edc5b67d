/** The fixed-window request limiter of backend/app/core/middleware.py. */
module RateLimiter {
  import opened Text
  import opened FixedWindow

  /** The limits read from the settings; each pair is (max requests, window in seconds). */
  datatype Settings = Settings(
    enabled: bool,
    loginMax: int, loginWindow: int,
    publicMax: int, publicWindow: int,
    uploadMax: int, uploadWindow: int,
    billingMax: int, billingWindow: int)
  {
    /** The ranges that the configuration enforces on these fields. */
    ghost predicate Valid() {
      && loginMax >= 1 && loginWindow >= 1 && publicMax >= 1 && publicWindow >= 1
      && uploadMax >= 1 && uploadWindow >= 1 && billingMax >= 1 && billingWindow >= 1
    }
  }

  datatype PolicyName =
    AuthLogin | PasswordReset | DemoRequests | BillingCheckout | PortalUpload | Portal | DocumentUpload
  {
    function Text(): string {
      match this
      case AuthLogin => "auth_login"
      case PasswordReset => "password_reset"
      case DemoRequests => "demo_requests"
      case BillingCheckout => "billing_checkout"
      case PortalUpload => "portal_upload"
      case Portal => "portal"
      case DocumentUpload => "document_upload"
    }
  }

  datatype Policy = Policy(name: PolicyName, maxRequests: int, windowSeconds: int)

  /** A request as the limiter sees it, with the instant at which it reads the clock. */
  datatype Call = Call(path: string, httpMethod: string, ip: Option<string>, authorization: string, now: real)

  datatype Decision =
    | Bypass
    | Forward(limit: int, remaining: int)
    | Reject(policy: PolicyName, retryAfter: int)

  // ---------- classification ----------

  function PolicyNameFor(path: string): Option<PolicyName> {
    if Contains(path, "/webhook") || Contains(path, "/webhooks") then None
    else if EndsWith(path, "/auth/login") then Some(AuthLogin)
    else if EndsWith(path, "/auth/request-password-reset") || EndsWith(path, "/auth/reset-password") then
      Some(PasswordReset)
    else if EndsWith(path, "/demo-requests") then Some(DemoRequests)
    else if EndsWith(path, "/billing/checkout-session") then Some(BillingCheckout)
    else if Contains(path, "/portal/") then
      if EndsWith(path, "/documents/upload") then Some(PortalUpload) else Some(Portal)
    else if EndsWith(path, "/documents") || Contains(path, "/documents/upload") then Some(DocumentUpload)
    else None
  }

  function PolicyNamed(s: Settings, name: PolicyName): Policy {
    match name
    case AuthLogin | PasswordReset => Policy(name, s.loginMax, s.loginWindow)
    case DemoRequests | Portal => Policy(name, s.publicMax, s.publicWindow)
    case BillingCheckout => Policy(name, s.billingMax, s.billingWindow)
    case PortalUpload | DocumentUpload => Policy(name, s.uploadMax, s.uploadWindow)
  }

  function CallPolicy(s: Settings, c: Call): Option<Policy> {
    if !s.enabled || Upper(c.httpMethod) == "OPTIONS" then None
    else
      match PolicyNameFor(c.path)
      case None => None
      case Some(name) => Some(PolicyNamed(s, name))
  }

  /** The last sixteen characters of the credential, or a fixed word without one. */
  function ActorHint(c: Call): string {
    if c.authorization == "" then "anonymous"
    else if |c.authorization| <= 16 then c.authorization
    else c.authorization[|c.authorization| - 16..]
  }

  function KeyTail(c: Call): string {
    (if c.ip.Some? && c.ip.value != "" then c.ip.value else "unknown") + ":" + ActorHint(c)
  }

  function BucketKey(p: Policy, c: Call): string {
    p.name.Text() + ":" + KeyTail(c)
  }

  /** The bucket that a call is counted in, if it is limited at all. */
  function KeyOf(s: Settings, c: Call): Option<string> {
    match CallPolicy(s, c)
    case None => None
    case Some(p) => Some(BucketKey(p, c))
  }

  /** Calls that share a bucket are held to the same limit and window, whatever
      their paths, addresses and credentials contain. */
  lemma KeyDeterminesPolicy(s: Settings, c: Call, d: Call)
    requires KeyOf(s, c).Some? && KeyOf(s, c) == KeyOf(s, d)
    ensures CallPolicy(s, c) == CallPolicy(s, d)
  {
    var p, q := CallPolicy(s, c).value, CallPolicy(s, d).value;
    assert BucketKey(p, c) == p.name.Text() + ":" + KeyTail(c);
    assert BucketKey(q, d) == q.name.Text() + ":" + KeyTail(d);
    KeyTextDeterminesName(p.name, KeyTail(c), q.name, KeyTail(d));
  }

  // ---------- who shares a bucket ----------

  /** The client as the key has it; an absent address counts as "unknown". */
  function AddressOf(c: Call): string {
    if c.ip.None? || c.ip.value == "" then "unknown" else c.ip.value
  }

  /** Both callers are anonymous, or their credentials agree or end in the same sixteen characters. */
  predicate SameCredential(c: Call, d: Call) {
    var a := if c.authorization == "" then "anonymous" else c.authorization;
    var b := if d.authorization == "" then "anonymous" else d.authorization;
    a == b || (|a| >= 16 && |b| >= 16 && a[|a| - 16..] == b[|b| - 16..])
  }

  predicate EndsWithoutColon(c: Call) {
    forall i | 0 <= i < |c.authorization| && |c.authorization| - 16 <= i :: c.authorization[i] != ':'
  }

  lemma HintIff(c: Call, d: Call)
    ensures ActorHint(c) == ActorHint(d) <==> SameCredential(c, d)
  {
  }

  lemma HintHasNoColon(c: Call)
    requires EndsWithoutColon(c)
    ensures !HasColon(ActorHint(c))
  {
  }

  /** Two limited calls are counted together exactly when they fall under one policy, come
      from one address and carry the same last characters of a credential, or none. */
  lemma SameBucketIff(s: Settings, c: Call, d: Call)
    requires KeyOf(s, c).Some? && KeyOf(s, d).Some? && EndsWithoutColon(c) && EndsWithoutColon(d)
    ensures KeyOf(s, c) == KeyOf(s, d) <==>
              PolicyNameFor(c.path) == PolicyNameFor(d.path) && AddressOf(c) == AddressOf(d) && SameCredential(c, d)
  {
    HintIff(c, d);
    assert KeyTail(c) == AddressOf(c) + ":" + ActorHint(c) && KeyTail(d) == AddressOf(d) + ":" + ActorHint(d);
    if KeyOf(s, c) == KeyOf(s, d) {
      KeyDeterminesPolicy(s, c, d);
      var p := CallPolicy(s, c).value;
      SameRest(p.name.Text(), KeyTail(c), KeyTail(d));
      HintHasNoColon(c);
      HintHasNoColon(d);
      LastColonFieldUnique(AddressOf(c), ActorHint(c), AddressOf(d), ActorHint(d));
    }
  }

  /** A colon in the credential can merge the buckets of two addresses. */
  lemma ColonMergesBuckets(s: Settings, c: Call, d: Call)
    requires KeyOf(s, c).Some? && d == c.(ip := Some("2001:db8"), authorization := "a")
    requires c.ip == Some("2001") && c.authorization == "db8:a"
    ensures KeyOf(s, c) == KeyOf(s, d) && AddressOf(c) != AddressOf(d)
  {
    assert "2001" + ":" + "db8:a" == "2001:db8" + ":" + "a";
    assert |AddressOf(c)| == 4 && |AddressOf(d)| == 8;
  }

  lemma KeyTextDeterminesName(m: PolicyName, x: string, n: PolicyName, y: string)
    requires m.Text() + ":" + x == n.Text() + ":" + y
    ensures m == n
  {
    NameTextHasNoColon(m);
    NameTextHasNoColon(n);
    ColonFieldUnique(m.Text(), x, n.Text(), y);
    NameTextInjective(m, n);
  }

  lemma NameTextHasNoColon(n: PolicyName)
    ensures !HasColon(n.Text())
  {
  }

  lemma NameTextInjective(m: PolicyName, n: PolicyName)
    requires m.Text() == n.Text()
    ensures m == n
  {
    assert "demo_requests"[0] != "portal_upload"[0];
  }

  // ---------- which calls are limited, and to what ----------

  /** Webhooks and preflights are never limited; every other call is exactly when its path
      is one of the listed kinds. */
  lemma LimitedIff(s: Settings, c: Call)
    ensures KeyOf(s, c).Some? <==>
              && s.enabled && Upper(c.httpMethod) != "OPTIONS" && !Contains(c.path, "/webhook")
              && (|| EndsWith(c.path, "/auth/login") || EndsWith(c.path, "/auth/request-password-reset")
                  || EndsWith(c.path, "/auth/reset-password") || EndsWith(c.path, "/demo-requests")
                  || EndsWith(c.path, "/billing/checkout-session") || Contains(c.path, "/portal/")
                  || EndsWith(c.path, "/documents") || Contains(c.path, "/documents/upload"))
  {
    if Contains(c.path, "/webhooks") {
      PluralContainsSingular(c.path);
    }
  }

  predicate ToldByEnding(path: string) {
    || EndsWith(path, "/auth/login") || EndsWith(path, "/auth/request-password-reset")
    || EndsWith(path, "/auth/reset-password") || EndsWith(path, "/demo-requests")
    || EndsWith(path, "/billing/checkout-session") || EndsWith(path, "/documents/upload")
  }

  lemma EndingIsContained(path: string, ending: string)
    requires EndsWith(path, ending)
    ensures Contains(path, ending)
  {
    assert MatchAt(path, ending, |path| - |ending|);
  }

  lemma NameByEnding(path: string, name: PolicyName)
    requires PolicyNameFor(path) == Some(name)
    ensures EndsWith(path, "/auth/login") ==> name == AuthLogin
    ensures EndsWith(path, "/auth/request-password-reset") || EndsWith(path, "/auth/reset-password") ==>
              name == PasswordReset
    ensures EndsWith(path, "/demo-requests") ==> name == DemoRequests
    ensures EndsWith(path, "/billing/checkout-session") ==> name == BillingCheckout
    ensures EndsWith(path, "/documents/upload") ==>
              name == if Contains(path, "/portal/") then PortalUpload else DocumentUpload
    ensures !ToldByEnding(path) ==> name == if Contains(path, "/portal/") then Portal else DocumentUpload
  {
    EndingsDiffer(path);
    if EndsWith(path, "/documents/upload") { EndingIsContained(path, "/documents/upload"); }
  }

  /** The policy by the kind of path.  No path is of two of the kinds told by their endings,
      so the order in which those are tried does not matter. */
  lemma PolicyByPath(s: Settings, c: Call, p: Policy)
    requires CallPolicy(s, c) == Some(p)
    ensures EndsWith(c.path, "/auth/login") ==> p == Policy(AuthLogin, s.loginMax, s.loginWindow)
    ensures EndsWith(c.path, "/auth/request-password-reset") || EndsWith(c.path, "/auth/reset-password") ==>
              p == Policy(PasswordReset, s.loginMax, s.loginWindow)
    ensures EndsWith(c.path, "/demo-requests") ==> p == Policy(DemoRequests, s.publicMax, s.publicWindow)
    ensures EndsWith(c.path, "/billing/checkout-session") ==>
              p == Policy(BillingCheckout, s.billingMax, s.billingWindow)
    ensures EndsWith(c.path, "/documents/upload") ==>
              p == Policy(if Contains(c.path, "/portal/") then PortalUpload else DocumentUpload,
                          s.uploadMax, s.uploadWindow)
    ensures !ToldByEnding(c.path) ==>
              p == if Contains(c.path, "/portal/") then Policy(Portal, s.publicMax, s.publicWindow)
                   else Policy(DocumentUpload, s.uploadMax, s.uploadWindow)
  {
    NameByEnding(c.path, p.name);
  }

  /** Two characters near the end tell the kinds apart. */
  lemma EndingsDiffer(path: string)
    ensures EndsWith(path, "/auth/login") ==> path[|path| - 2..] == "in"
    ensures EndsWith(path, "/auth/request-password-reset") ==> path[|path| - 2..] == "et"
    ensures EndsWith(path, "/auth/reset-password") ==> path[|path| - 2..] == "rd"
    ensures EndsWith(path, "/demo-requests") ==> path[|path| - 2..] == "ts"
    ensures EndsWith(path, "/billing/checkout-session") ==> path[|path| - 2..] == "on"
    ensures EndsWith(path, "/documents/upload") ==> path[|path| - 2..] == "ad"
  {
  }

  lemma PluralContainsSingular(path: string)
    requires Contains(path, "/webhooks")
    ensures Contains(path, "/webhook")
  {
    var i :| 0 <= i <= |path| && MatchAt(path, "/webhooks", i);
    assert path[i..i + |"/webhook"|] == path[i..i + |"/webhooks"|][..|"/webhook"|] == "/webhook";
    assert MatchAt(path, "/webhook", i);
  }

  // ---------- one request ----------

  /** A call as the counting rule sees it. */
  function HitOf(s: Settings, c: Call): Hit {
    match CallPolicy(s, c)
    case None => Unlimited
    case Some(p) => Hit(BucketKey(p, c), p.maxRequests, p.windowSeconds, c.now)
  }

  function Max(a: int, b: int): int { if a >= b then a else b }

  /** Python's `max(1, int(x))` for the positive values it is applied to. */
  function RetryAfter(b: Bucket, now: real): int {
    Max(1, (b.resetAt - now).Floor)
  }

  /** The answer to a call, given the buckets it meets. */
  function Decide(s: Settings, buckets: Buckets, c: Call): Decision {
    match CallPolicy(s, c)
    case None => Bypass
    case Some(p) =>
      var b := Counted(buckets, HitOf(s, c));
      if Passes(buckets, HitOf(s, c)) then Forward(p.maxRequests, p.maxRequests - b.count)
      else Reject(p.name, RetryAfter(b, c.now))
  }

  class RateLimitMiddleware {
    const settings: Settings
    var buckets: Buckets

    constructor (settings: Settings)
      ensures this.settings == settings && buckets == Run([])
    {
      this.settings := settings;
      buckets := map[];
    }

    method Dispatch(c: Call) returns (d: Decision)
      modifies this`buckets
      ensures buckets == Next(old(buckets), HitOf(settings, c))
      ensures d == Decide(settings, old(buckets), c)
    {
      var policy := CallPolicy(settings, c);
      if policy.None? {
        return Bypass;
      }
      var key := BucketKey(policy.value, c);
      var window := policy.value.windowSeconds as real;
      var count, resetAt := 0, c.now + window;
      if key in buckets {
        count, resetAt := buckets[key].count, buckets[key].resetAt;
      }
      if c.now >= resetAt {
        count, resetAt := 0, c.now + window;
      }
      count := count + 1;
      buckets := buckets[key := Bucket(count, resetAt)];
      if count > policy.value.maxRequests {
        return Reject(policy.value.name, Max(1, (resetAt - c.now).Floor));
      }
      return Forward(policy.value.maxRequests, Max(0, policy.value.maxRequests - count));
    }
  }

  // ---------- whole runs ----------

  function Hits(s: Settings, calls: seq<Call>): (t: Trace)
    ensures |t| == |calls| && forall i | 0 <= i < |t| :: t[i] == HitOf(s, calls[i])
  {
    seq(|calls|, i requires 0 <= i < |calls| => HitOf(s, calls[i]))
  }

  /** What the limiter answers to the i-th call of a run that starts with no buckets. */
  function DecisionAt(s: Settings, calls: seq<Call>, i: nat): Decision
    requires i < |calls|
  {
    Decide(s, Run(Hits(s, calls[..i])), calls[i])
  }

  predicate ForwardedOn(s: Settings, calls: seq<Call>, k: string, i: int) {
    0 <= i < |calls| && KeyOf(s, calls[i]) == Some(k) && DecisionAt(s, calls, i).Forward?
  }

  ghost predicate ClockNeverGoesBack(calls: seq<Call>) {
    forall i, j | 0 <= i <= j < |calls| :: calls[i].now <= calls[j].now
  }

  lemma HitsAreOrderly(s: Settings, calls: seq<Call>)
    requires s.Valid() && ClockNeverGoesBack(calls)
    ensures Orderly(Hits(s, calls))
  {
    var t := Hits(s, calls);
    forall i, j | 0 <= i < |t| && 0 <= j < |t| && t[i].Hit? && t[j].Hit? && t[i].key == t[j].key
      ensures t[i].limit == t[j].limit && t[i].seconds == t[j].seconds
    {
      KeyDeterminesPolicy(s, calls[i], calls[j]);
    }
    forall i | 0 <= i < |t| && t[i].Hit? ensures t[i].limit >= 1 && t[i].seconds >= 1 {
      PolicyLimits(s, calls[i]);
    }
  }

  lemma PolicyLimits(s: Settings, c: Call)
    requires s.Valid() && CallPolicy(s, c).Some?
    ensures CallPolicy(s, c).value.maxRequests >= 1 && CallPolicy(s, c).value.windowSeconds >= 1
  {
  }

  lemma SameForwards(s: Settings, calls: seq<Call>, k: string, i: int)
    ensures ForwardedOn(s, calls, k, i) == Forwards(Hits(s, calls), k, i)
    ensures On(Hits(s, calls), k, i) == (0 <= i < |calls| && KeyOf(s, calls[i]) == Some(k))
  {
    if 0 <= i < |calls| {
      assert Hits(s, calls[..i]) == Hits(s, calls)[..i];
    }
  }

  /** Interleaving a bucket's calls with any others changes none of its answers:
      a call gets what it would get after only the earlier calls of its own bucket. */
  lemma KeyIndependence(s: Settings, calls: seq<Call>, i: nat, k: string)
    requires i < |calls| && KeyOf(s, calls[i]) == Some(k)
    ensures DecisionAt(s, calls, i) == Decide(s, Run(Project(Hits(s, calls[..i]), k)), calls[i])
  {
    ProjectionKeepsBucket(Hits(s, calls[..i]), k);
  }

  /** The calls of a run that come from one address, in order. */
  function From(address: string, calls: seq<Call>): seq<Call> {
    if calls == [] then []
    else
      var front, last := From(address, calls[..|calls| - 1]), calls[|calls| - 1];
      if AddressOf(last) == address then front + [last] else front
  }

  predicate BucketIsFrom(s: Settings, k: string, address: string, c: Call) {
    KeyOf(s, c) == Some(k) ==> AddressOf(c) == address
  }

  lemma {:induction false} ProjectFrom(s: Settings, calls: seq<Call>, address: string, k: string)
    requires forall j | 0 <= j < |calls| :: BucketIsFrom(s, k, address, calls[j])
    ensures Project(Hits(s, From(address, calls)), k) == Project(Hits(s, calls), k)
  {
    if calls == [] {
      assert Hits(s, []) == [];
    } else {
      ProjectFrom(s, calls[..|calls| - 1], address, k);
      ProjectFromStep(s, calls, address, k);
    }
  }

  lemma ProjectFromStep(s: Settings, calls: seq<Call>, address: string, k: string)
    requires calls != [] && BucketIsFrom(s, k, address, calls[|calls| - 1])
    requires var front := calls[..|calls| - 1];
             Project(Hits(s, From(address, front)), k) == Project(Hits(s, front), k)
    ensures Project(Hits(s, From(address, calls)), k) == Project(Hits(s, calls), k)
  {
    var front, last := calls[..|calls| - 1], calls[|calls| - 1];
    ProjectSnoc(s, front, last, k);
    ProjectSnoc(s, From(address, front), last, k);
    assert calls == front + [last];
  }

  lemma OthersAreFromElsewhere(s: Settings, c: Call, d: Call)
    requires KeyOf(s, c).Some? && EndsWithoutColon(c) && EndsWithoutColon(d)
    ensures AddressOf(d) != AddressOf(c) ==> KeyOf(s, d) != KeyOf(s, c)
  {
    if KeyOf(s, d) == KeyOf(s, c) { SameBucketIff(s, d, c); }
  }

  lemma ProjectSnoc(s: Settings, calls: seq<Call>, c: Call, k: string)
    ensures Project(Hits(s, calls + [c]), k) ==
              Project(Hits(s, calls), k) + if KeyOf(s, c) == Some(k) then [HitOf(s, c)] else []
  {
    var t := Hits(s, calls + [c]);
    assert t[..|t| - 1] == Hits(s, calls);
  }

  /** Calls from other addresses change no answer: a call gets what it would get if its own
      address alone had called before it. */
  lemma OtherAddressesDoNotCount(s: Settings, calls: seq<Call>, i: nat)
    requires i < |calls| && forall j | 0 <= j <= i :: EndsWithoutColon(calls[j])
    ensures var own := From(AddressOf(calls[i]), calls[..i]);
            DecisionAt(s, calls, i) == DecisionAt(s, own + [calls[i]], |own|)
  {
    var c := calls[i];
    var own := From(AddressOf(c), calls[..i]);
    assert (own + [c])[..|own|] == own;
    if CallPolicy(s, c).Some? {
      var k := KeyOf(s, c).value;
      KeyIndependence(s, calls, i, k);
      KeyIndependence(s, own + [c], |own|, k);
      forall j | 0 <= j < i ensures BucketIsFrom(s, k, AddressOf(c), calls[j]) {
        OthersAreFromElsewhere(s, c, calls[j]);
      }
      ProjectFrom(s, calls[..i], AddressOf(c), k);
    }
  }

  lemma BucketSharesLimits(s: Settings, calls: seq<Call>, c: Call, i: int)
    requires KeyOf(s, c).Some? && On(Hits(s, calls), KeyOf(s, c).value, i)
    ensures var h, p := Hits(s, calls)[i], CallPolicy(s, c).value;
            h.limit == p.maxRequests && h.seconds == p.windowSeconds
  {
    KeyDeterminesPolicy(s, calls[i], c);
  }

  /** The calls on bucket k that were let through in the instants [a, b). */
  function ForwardedBetween(s: Settings, calls: seq<Call>, k: string, a: real, b: real): set<int> {
    set i | 0 <= i < |calls| && ForwardedOn(s, calls, k, i) && a <= calls[i].now < b
  }

  lemma SameForwardedSet(s: Settings, calls: seq<Call>, k: string, a: real, b: real)
    ensures ForwardedBetween(s, calls, k, a, b) == Forwarded(Hits(s, calls), k, a, b)
  {
    var t := Hits(s, calls);
    forall i | 0 <= i < |calls|
      ensures (ForwardedOn(s, calls, k, i) && a <= calls[i].now < b) == (Forwards(t, k, i) && a <= t[i].now < b)
    {
      SameForwards(s, calls, k, i);
      assert t[i].Hit? ==> t[i].now == calls[i].now;
    }
  }

  lemma OneBucketOneLimit(s: Settings, calls: seq<Call>, c: Call, k: string)
    requires s.Valid() && KeyOf(s, c) == Some(k)
    ensures Limited(Hits(s, calls), k, CallPolicy(s, c).value.maxRequests)
    ensures forall i :: On(Hits(s, calls), k, i) ==> Hits(s, calls)[i].seconds == CallPolicy(s, c).value.windowSeconds
  {
    PolicyLimits(s, c);
    forall i | On(Hits(s, calls), k, i)
      ensures Hits(s, calls)[i].limit == CallPolicy(s, c).value.maxRequests
      ensures Hits(s, calls)[i].seconds == CallPolicy(s, c).value.windowSeconds
    {
      BucketSharesLimits(s, calls, c, i);
    }
  }

  lemma SpanBound(s: Settings, calls: seq<Call>, c: Call, p: Policy, k: string, a: real, b: real, n: nat)
    requires s.Valid() && ClockNeverGoesBack(calls) && KeyOf(s, c) == Some(k) && CallPolicy(s, c) == Some(p)
    requires b <= a + Span(n, p.windowSeconds as real)
    ensures |ForwardedBetween(s, calls, k, a, b)| <= (n + 1) * p.maxRequests
  {
    var t := Hits(s, calls);
    HitsAreOrderly(s, calls);
    OneBucketOneLimit(s, calls, c, k);
    FixedWindow.SpanBound(t, k, a, b, n, p.maxRequests, p.windowSeconds);
    SameForwardedSet(s, calls, k, a, b);
  }

  /** In any half-open interval of at most n windows a bucket lets at most (n + 1)
      times its policy's limit through, whatever else runs in between. */
  lemma IntervalBound(s: Settings, calls: seq<Call>, c: Call, p: Policy, k: string, a: real, b: real, n: nat)
    requires s.Valid() && ClockNeverGoesBack(calls) && KeyOf(s, c) == Some(k) && CallPolicy(s, c) == Some(p)
    requires WithinWindows(a, b, n, p.windowSeconds as real)
    ensures |ForwardedBetween(s, calls, k, a, b)| <= (n + 1) * p.maxRequests
  {
    WithinSpan(a, b, n, p.windowSeconds as real);
    SpanBound(s, calls, c, p, k, a, b, n);
  }

  /** The calls before the i-th that its bucket let through less than a window ago. */
  function RecentlyForwarded(s: Settings, calls: seq<Call>, i: nat): set<int>
    requires i < |calls| && KeyOf(s, calls[i]).Some?
  {
    var since := calls[i].now - CallPolicy(s, calls[i]).value.windowSeconds as real;
    set j | 0 <= j < i && ForwardedOn(s, calls, KeyOf(s, calls[i]).value, j) && since < calls[j].now
  }

  lemma SameRecentSet(s: Settings, calls: seq<Call>, i: nat)
    requires i < |calls| && KeyOf(s, calls[i]).Some?
    ensures RecentlyForwarded(s, calls, i) == RecentForwards(Hits(s, calls), KeyOf(s, calls[i]).value, i)
  {
    var t, k := Hits(s, calls), KeyOf(s, calls[i]).value;
    forall j | 0 <= j < i
      ensures ForwardedOn(s, calls, k, j) == Forwards(t, k, j) && (Forwards(t, k, j) ==> t[j].now == calls[j].now)
    {
      SameForwards(s, calls, k, j);
    }
  }

  /** A call is turned away only when its bucket has already let its whole limit
      through less than one window length ago. */
  lemma RejectedOnlyWhenFull(s: Settings, calls: seq<Call>, i: nat)
    requires s.Valid() && ClockNeverGoesBack(calls)
    requires i < |calls| && DecisionAt(s, calls, i).Reject?
    ensures |RecentlyForwarded(s, calls, i)| >= CallPolicy(s, calls[i]).value.maxRequests
  {
    var k := KeyOf(s, calls[i]).value;
    HitsAreOrderly(s, calls);
    SameForwards(s, calls, k, i);
    FixedWindow.RejectedOnlyWhenFull(Hits(s, calls), k, i);
    SameRecentSet(s, calls, i);
  }

  /** The calls before the i-th that were let through in the window it is counted in. */
  function ForwardedInItsWindow(s: Settings, calls: seq<Call>, i: nat): set<int>
    requires i < |calls| && KeyOf(s, calls[i]).Some?
  {
    var t := Hits(s, calls);
    set j | 0 <= j < i && ForwardedOn(s, calls, KeyOf(s, calls[i]).value, j) && ResetAt(t, j) == ResetAt(t, i)
  }

  /** A limited call is turned away exactly when the window it is counted in has already
      let the whole limit of its bucket through. */
  lemma RejectedIffWindowFull(s: Settings, calls: seq<Call>, i: nat)
    requires s.Valid() && ClockNeverGoesBack(calls) && i < |calls| && KeyOf(s, calls[i]).Some?
    ensures DecisionAt(s, calls, i).Reject? <==>
              |ForwardedInItsWindow(s, calls, i)| == CallPolicy(s, calls[i]).value.maxRequests
  {
    var t, k := Hits(s, calls), KeyOf(s, calls[i]).value;
    HitsAreOrderly(s, calls);
    PolicyLimits(s, calls[i]);
    SameForwards(s, calls, k, i);
    SameWindowSet(s, calls, i);
    FixedWindow.RejectedIffWindowFull(t, k, i);
  }

  /** A call that passes is told what is left of its limit in the window it is counted in. */
  lemma RemainingIsExact(s: Settings, calls: seq<Call>, i: nat, limit: int, remaining: int)
    requires s.Valid() && ClockNeverGoesBack(calls)
    requires i < |calls| && DecisionAt(s, calls, i) == Forward(limit, remaining)
    ensures limit == CallPolicy(s, calls[i]).value.maxRequests
    ensures remaining == limit - |ForwardedInItsWindow(s, calls, i)| - 1
  {
    var t, k := Hits(s, calls), KeyOf(s, calls[i]).value;
    HitsAreOrderly(s, calls);
    PolicyLimits(s, calls[i]);
    SameForwards(s, calls, k, i);
    SameWindowSet(s, calls, i);
    assert Hits(s, calls[..i]) == t[..i];
    FixedWindow.RejectedIffWindowFull(t, k, i);
  }

  lemma SameWindowSet(s: Settings, calls: seq<Call>, i: nat)
    requires i < |calls| && KeyOf(s, calls[i]).Some?
    ensures ForwardedInItsWindow(s, calls, i) == EarlierInWindow(Hits(s, calls), KeyOf(s, calls[i]).value, i)
  {
    var t, k := Hits(s, calls), KeyOf(s, calls[i]).value;
    forall j | 0 <= j < i ensures ForwardedOn(s, calls, k, j) == Forwards(t, k, j) {
      SameForwards(s, calls, k, j);
    }
  }

  // ---------- the advice given with a rejection ----------

  /** The Retry-After header rounds down.  A client that comes back exactly when
      told, with no other call on its bucket in between, is let through if and only
      if what was left of the window was a whole number of seconds or under one. */
  lemma RetryAfterSufficesIff(s: Settings, buckets: Buckets, c: Call)
    requires s.Valid() && Decide(s, buckets, c).Reject?
    requires KeyOf(s, c).value in buckets && c.now < buckets[KeyOf(s, c).value].resetAt
    ensures var left := buckets[KeyOf(s, c).value].resetAt - c.now;
            var again := c.(now := c.now + Decide(s, buckets, c).retryAfter as real);
            Decide(s, Next(buckets, HitOf(s, c)), again).Forward? <==> left <= 1.0 || left == left.Floor as real
  {
    PolicyLimits(s, c);
    var k := KeyOf(s, c).value;
    var again := c.(now := c.now + Decide(s, buckets, c).retryAfter as real);
    assert KeyOf(s, again) == Some(k);
    assert Counted(buckets, HitOf(s, c)).resetAt == buckets[k].resetAt;
  }

  /** An eleventh login attempt with 1.5 seconds of its window left is told to come
      back in one second, and is turned away again when it does. */
  lemma RetryAfterCanFallShort(s: Settings, c: Call, buckets: Buckets)
    requires s.Valid() && s.enabled && s.loginMax == 10 && c.path == "/auth/login" && Upper(c.httpMethod) == "POST"
    requires KeyOf(s, c).Some? && buckets == map[KeyOf(s, c).value := Bucket(10, c.now + 1.5)]
    ensures Decide(s, buckets, c) == Reject(AuthLogin, 1)
    ensures Decide(s, Next(buckets, HitOf(s, c)), c.(now := c.now + 1.0)).Reject?
  {
    var left := (c.now + 1.5) - c.now;
    assert left == 1.5 && left.Floor == 1;
    PathIsLogin();
    RetryAfterSufficesIff(s, buckets, c);
  }

  lemma PathIsLogin()
    ensures PolicyNameFor("/auth/login") == Some(AuthLogin)
  {
    var path := "/auth/login";
    forall i ensures !MatchAt(path, "/webhook", i) && !MatchAt(path, "/webhooks", i) {
      if 0 <= i <= |path| - |"/webhook"| {
        assert path[i..i + |"/webhook"|][1] == path[i + 1] && "/webhook"[1] == 'w';
      }
      if 0 <= i <= |path| - |"/webhooks"| {
        assert path[i..i + |"/webhooks"|][1] == path[i + 1] && "/webhooks"[1] == 'w';
      }
    }
    assert path[0..] == path;
  }

  function Repeated(c: Call, n: nat): (calls: seq<Call>)
    ensures |calls| == n && forall i | 0 <= i < n :: calls[i] == c
  {
    if n == 0 then [] else Repeated(c, n - 1) + [c]
  }

  lemma HitsSnoc(s: Settings, calls: seq<Call>, c: Call)
    ensures Run(Hits(s, calls + [c])) == Next(Run(Hits(s, calls)), HitOf(s, c))
  {
    var t := Hits(s, calls + [c]);
    assert t[..|t| - 1] == Hits(s, calls);
  }

  lemma FirstCallOpens(s: Settings, c: Call, p: Policy, k: string)
    requires CallPolicy(s, c) == Some(p) && KeyOf(s, c) == Some(k)
    ensures Next(map[], HitOf(s, c)) == map[k := Bucket(1, c.now + p.windowSeconds as real)]
  {
  }

  lemma CallCounts(s: Settings, c: Call, p: Policy, k: string, b: Bucket)
    requires CallPolicy(s, c) == Some(p) && KeyOf(s, c) == Some(k) && c.now < b.resetAt
    ensures Next(map[k := b], HitOf(s, c)) == map[k := b.(count := b.count + 1)]
  {
  }

  /** Calls at one instant fill one window. */
  lemma {:induction false} BucketAfterRepeated(s: Settings, c: Call, p: Policy, k: string, n: nat)
    requires CallPolicy(s, c) == Some(p) && KeyOf(s, c) == Some(k) && p.windowSeconds >= 1 && n >= 1
    ensures Run(Hits(s, Repeated(c, n))) == map[k := Bucket(n, c.now + p.windowSeconds as real)]
  {
    HitsSnoc(s, Repeated(c, n - 1), c);
    if n == 1 {
      FirstCallOpens(s, c, p, k);
    } else {
      BucketAfterRepeated(s, c, p, k, n - 1);
      CallCounts(s, c, p, k, Bucket(n - 1, c.now + p.windowSeconds as real));
    }
  }

  lemma SameBucketAtAnyTime(s: Settings, c: Call, now: real)
    ensures CallPolicy(s, c.(now := now)) == CallPolicy(s, c) && KeyOf(s, c.(now := now)) == KeyOf(s, c)
  {
  }

  /** A call in a full bucket with less than two seconds of its window left. */
  lemma FullBucketRejects(s: Settings, c: Call, p: Policy, k: string, b: Bucket)
    requires CallPolicy(s, c) == Some(p) && KeyOf(s, c) == Some(k)
    requires b.count >= p.maxRequests && 0.0 < b.resetAt - c.now < 2.0
    ensures Decide(s, map[k := b], c) == Reject(p.name, 1)
  {
    assert (b.resetAt - c.now).Floor <= 1;
  }

  lemma TwoMoreDecisions(s: Settings, first: seq<Call>, last: Call, again: Call)
    ensures var calls, buckets := first + [last] + [again], Run(Hits(s, first));
            && DecisionAt(s, calls, |first|) == Decide(s, buckets, last)
            && DecisionAt(s, calls, |first| + 1) == Decide(s, Next(buckets, HitOf(s, last)), again)
  {
    var calls := first + [last] + [again];
    assert calls[..|first|] == first && calls[..|first| + 1] == first + [last];
    HitsSnoc(s, first, last);
  }

  lemma TwoLaterCalls(c: Call, n: nat, last: Call, again: Call)
    requires c.now <= last.now <= again.now
    ensures ClockNeverGoesBack(Repeated(c, n) + [last] + [again])
  {
  }

  lemma RejectedTwice(s: Settings, first: seq<Call>, last: Call, again: Call, p: Policy, k: string, full: Bucket)
    requires CallPolicy(s, last) == Some(p) && KeyOf(s, last) == Some(k)
    requires CallPolicy(s, again) == Some(p) && KeyOf(s, again) == Some(k)
    requires Run(Hits(s, first)) == map[k := full] && full.count >= p.maxRequests
    requires 0.0 < full.resetAt - last.now < 2.0 && 0.0 < full.resetAt - again.now < 2.0
    ensures DecisionAt(s, first + [last] + [again], |first|) == Reject(p.name, 1)
    ensures DecisionAt(s, first + [last] + [again], |first| + 1) == Reject(p.name, 1)
  {
    TwoMoreDecisions(s, first, last, again);
    FullBucketRejects(s, last, p, k, full);
    CallCounts(s, last, p, k, full);
    FullBucketRejects(s, again, p, k, full.(count := full.count + 1));
  }

  lemma RejectedWhenBack(s: Settings, c: Call, p: Policy, k: string, last: Call, again: Call)
    requires p.maxRequests >= 1 && CallPolicy(s, c) == Some(p) && KeyOf(s, c) == Some(k) && p.windowSeconds >= 2
    requires last == c.(now := c.now + p.windowSeconds as real - 1.5) && again == last.(now := last.now + 1.0)
    ensures var n, calls := p.maxRequests, Repeated(c, p.maxRequests) + [last] + [again];
            DecisionAt(s, calls, n) == Reject(p.name, 1) && DecisionAt(s, calls, n + 1) == Reject(p.name, 1)
  {
    var n := p.maxRequests;
    BucketAfterRepeated(s, c, p, k, n);
    SameBucketAtAnyTime(s, c, last.now);
    SameBucketAtAnyTime(s, last, again.now);
    RejectedTwice(s, Repeated(c, n), last, again, p, k, Bucket(n, c.now + p.windowSeconds as real));
  }

  /** Under every policy with a window of two seconds or longer some run rejects a client
      that obeys: it fills its limit at once, comes again 1.5 seconds before the window
      ends, is told to wait one second, waits exactly that, and is rejected again. */
  lemma ObedientClientRejected(s: Settings, c: Call, p: Policy) returns (calls: seq<Call>)
    requires s.Valid() && CallPolicy(s, c) == Some(p) && p.windowSeconds >= 2
    ensures |calls| == p.maxRequests + 2 && ClockNeverGoesBack(calls)
    ensures forall i | 0 <= i < |calls| :: calls[i] == c.(now := calls[i].now)
    ensures DecisionAt(s, calls, |calls| - 2) == Reject(p.name, 1)
    ensures calls[|calls| - 1].now == calls[|calls| - 2].now + 1.0
    ensures DecisionAt(s, calls, |calls| - 1).Reject?
  {
    var last := c.(now := c.now + p.windowSeconds as real - 1.5);
    var again := last.(now := last.now + 1.0);
    PolicyLimits(s, c);
    TwoLaterCalls(c, p.maxRequests, last, again);
    RejectedWhenBack(s, c, p, KeyOf(s, c).value, last, again);
    calls := Repeated(c, p.maxRequests) + [last] + [again];
  }
}
