/** The per-bucket permits of backend/app/core/middleware.py.  Each await point of
    `dispatch` is a step of its own, so requests interleave freely; the semaphore
    hands out whole permits. */
module ConcurrencyLimiter {
  import opened Text

  datatype BucketName =
    CoreReads | BackgroundPanelReads | DocumentWrites | InvoiceActions | WorkflowStatusMutations
  {
    function Text(): string {
      match this
      case CoreReads => "core_reads"
      case BackgroundPanelReads => "background_panel_reads"
      case DocumentWrites => "document_writes"
      case InvoiceActions => "invoice_actions"
      case WorkflowStatusMutations => "workflow_status_mutations"
    }

    function Capacity(): int {
      match this
      case CoreReads => 6
      case BackgroundPanelReads => 2
      case DocumentWrites => 6
      case InvoiceActions => 4
      case WorkflowStatusMutations => 6
    }
  }

  datatype Request = Request(path: string, httpMethod: string, organization: string, ip: Option<string>)

  // ---------- classification ----------

  const BACKGROUND_READ_MARKERS := [
    "/documents", "/submission-packets", "/payment-reconciliation", "/review-queue/loads/",
    "/packet-audit", "/staff-users", "/follow-ups", "/invoice-status"]

  const WORKFLOW_WRITE_MARKERS := [
    "/workflow-actions", "/advance-status", "/quick-status", "/submission-packets",
    "/payment-reconciliation", "/follow-ups", "/review-queue", "/carrier-profile",
    "/customer-accounts", "/brokers", "/drivers", "/staff-users"]

  const BYPASS_PREFIXES := [
    "/health", "/api/v1/health", "/api/v1/auth", "/openapi.json", "/docs", "/redoc"]

  predicate AnyMarker(path: string, markers: seq<string>) {
    exists i | 0 <= i < |markers| :: Contains(path, markers[i])
  }

  predicate AnyPrefix(path: string, prefixes: seq<string>) {
    exists i | 0 <= i < |prefixes| :: prefixes[i] <= path
  }

  predicate IsWriteMethod(m: string) {
    m == "POST" || m == "PATCH" || m == "PUT" || m == "DELETE"
  }

  function BucketFor(r: Request): Option<BucketName> {
    var path, m := r.path, Upper(r.httpMethod);
    if m == "OPTIONS" || !("/api/v1/" <= path) then None
    else if AnyPrefix(path, BYPASS_PREFIXES) then None
    else if
      || Contains(path, "/documents/upload")
      || Contains(path, "/driver/documents/upload")
      || (Contains(path, "/portal/") && Contains(path, "/documents/upload")) then Some(DocumentWrites)
    else if m == "GET" && Contains(path, "/documents/") && EndsWith(path, "/download") then Some(DocumentWrites)
    else if Contains(path, "/documents/") && IsWriteMethod(m) then Some(DocumentWrites)
    else if Contains(path, "/invoice") && !Contains(path, "/invoice-status") then Some(InvoiceActions)
    else if IsWriteMethod(m) && AnyMarker(path, WORKFLOW_WRITE_MARKERS) then Some(WorkflowStatusMutations)
    else if m == "GET" && AnyMarker(path, BACKGROUND_READ_MARKERS) then Some(BackgroundPanelReads)
    else if m == "GET" && "/api/v1/loads/" <= path then Some(CoreReads)
    else None
  }

  function KeyTail(r: Request): string {
    (if r.organization != "" then r.organization else "unknown-org")
      + ":" + (if r.ip.Some? && r.ip.value != "" then r.ip.value else "unknown-ip")
  }

  function SemaphoreKey(b: BucketName, r: Request): string {
    b.Text() + ":" + KeyTail(r)
  }

  /** The semaphore that a request waits on, if it is limited at all. */
  function KeyOf(r: Request): Option<string> {
    match BucketFor(r)
    case None => None
    case Some(b) => Some(SemaphoreKey(b, r))
  }

  /** The first letter of a bucket's name tells which it is. */
  function Initial(b: BucketName): char {
    match b
    case CoreReads => 'c'
    case BackgroundPanelReads => 'b'
    case DocumentWrites => 'd'
    case InvoiceActions => 'i'
    case WorkflowStatusMutations => 'w'
  }

  lemma TextShape(b: BucketName)
    ensures b.Text() != "" && b.Text()[0] == Initial(b) && !HasColon(b.Text())
  {
  }

  lemma InitialUnique(a: BucketName, b: BucketName)
    requires Initial(a) == Initial(b)
    ensures a == b
  {
  }

  lemma BucketTextUnique(a: BucketName, x: string, b: BucketName, y: string)
    requires a.Text() + ":" + x == b.Text() + ":" + y
    ensures a == b
  {
    TextShape(a);
    TextShape(b);
    ColonFieldUnique(a.Text(), x, b.Text(), y);
    InitialUnique(a, b);
  }

  /** Requests that share a semaphore are in the same bucket. */
  lemma KeyDeterminesBucket(r: Request, q: Request)
    requires KeyOf(r).Some? && KeyOf(r) == KeyOf(q)
    ensures BucketFor(r) == BucketFor(q)
  {
    BucketTextUnique(BucketFor(r).value, KeyTail(r), BucketFor(q).value, KeyTail(q));
  }

  /** Limited requests wait on one semaphore exactly when they are in one bucket and agree in
      organization and address, an absent one being "unknown-org" or "unknown-ip".  The
      organization header is an identifier, which holds no colon; the address may. */
  lemma SameSemaphoreIff(r: Request, q: Request)
    requires KeyOf(r).Some? && KeyOf(q).Some? && !HasColon(r.organization) && !HasColon(q.organization)
    ensures KeyOf(r) == KeyOf(q) <==>
              && BucketFor(r) == BucketFor(q)
              && (if r.organization == "" then "unknown-org" else r.organization)
                 == (if q.organization == "" then "unknown-org" else q.organization)
              && (if r.ip in {None, Some("")} then "unknown-ip" else r.ip.value)
                 == (if q.ip in {None, Some("")} then "unknown-ip" else q.ip.value)
  {
    if KeyOf(r) == KeyOf(q) {
      KeyDeterminesBucket(r, q);
      SameRest(BucketFor(r).value.Text(), KeyTail(r), KeyTail(q));
      ColonFieldUnique(
        if r.organization != "" then r.organization else "unknown-org",
        if r.ip.Some? && r.ip.value != "" then r.ip.value else "unknown-ip",
        if q.organization != "" then q.organization else "unknown-org",
        if q.ip.Some? && q.ip.value != "" then q.ip.value else "unknown-ip");
    }
  }

  /** Only the API's own paths are limited, and no preflight is; every upload of a document is
      a document write whatever its method, and the two buckets of reads hold GETs alone. */
  lemma Classified(r: Request)
    ensures BucketFor(r).Some? ==>
              "/api/v1/" <= r.path && !("/api/v1/auth" <= r.path) && Upper(r.httpMethod) != "OPTIONS"
    ensures "/api/v1/" <= r.path && !("/api/v1/auth" <= r.path) && !("/api/v1/health" <= r.path)
            && Upper(r.httpMethod) != "OPTIONS" && Contains(r.path, "/documents/upload") ==>
              BucketFor(r) == Some(DocumentWrites)
    ensures BucketFor(r) in {Some(CoreReads), Some(BackgroundPanelReads)} ==> Upper(r.httpMethod) == "GET"
    ensures BucketFor(r) == Some(WorkflowStatusMutations) ==> Upper(r.httpMethod) in {"POST", "PATCH", "PUT", "DELETE"}
    ensures BucketFor(r) == Some(InvoiceActions) ==> Contains(r.path, "/invoice")
  {
    if "/api/v1/" <= r.path { BypassedByPrefix(r.path); }
  }

  /** Of the prefixes that bypass the limiter two lie under the API's own. */
  lemma BypassedByPrefix(path: string)
    requires "/api/v1/" <= path
    ensures AnyPrefix(path, BYPASS_PREFIXES) <==> "/api/v1/auth" <= path || "/api/v1/health" <= path
  {
    var ps := BYPASS_PREFIXES;
    assert path[1] == "/api/v1/"[1];
    assert ps[1] == "/api/v1/health" && ps[2] == "/api/v1/auth";
    assert ps[0][1] == 'h' && ps[3][1] == 'o' && ps[4][1] == 'd' && ps[5][1] == 'r';
  }

  /** No request that changes data is put in a bucket of reads. */
  lemma WritesAvoidReadBuckets(r: Request)
    requires IsWriteMethod(Upper(r.httpMethod))
    ensures BucketFor(r) != Some(BackgroundPanelReads) && BucketFor(r) != Some(CoreReads)
  {
  }

  // ---------- permits ----------

  /** A semaphore: its free permits, which requests wait for or hold one, and which of
      the waiting were blocked on arrival. */
  datatype Sem = Sem(free: int, waiting: set<int>, running: set<int>, blocked: set<int>)

  type Semaphores = map<string, Sem>

  datatype Step =
    | Arrive(id: int, r: Request)    // reaches the semaphore and starts to wait
    | Acquire(id: int, r: Request)   // the wait ends with a permit
    | TimeOut(id: int, r: Request)   // the wait ends with a 429 answer
    | Finish(id: int, r: Request)    // the endpoint has answered or raised

  function Lookup(st: Semaphores, k: string): Option<Sem> {
    if k in st then Some(st[k]) else None
  }

  /** No permit is free but for those that earlier requests wait for.  A request that finds
      one takes it at once and cannot time out. */
  predicate Blocks(f: Sem) {
    f.free <= |f.waiting|
  }

  /** The semaphore that a request finds, or the one that is made for it. */
  function Found(s: Option<Sem>, b: BucketName): Sem {
    if s.Some? then s.value else Sem(b.Capacity(), {}, {}, {})
  }

  /** Whether a step can happen at its semaphore. */
  predicate EnabledAt(s: Option<Sem>, b: BucketName, e: Step) {
    var f := Found(s, b);
    match e
    case Arrive(id, _) => id !in f.waiting && id !in f.running
    case Acquire(id, _) => s.Some? && id in f.waiting && f.free > 0
    case TimeOut(id, _) => s.Some? && id in f.waiting && id in f.blocked
    case Finish(id, _) => s.Some? && id in f.running
  }

  function Joined(f: Sem, id: int): Sem {
    f.(waiting := f.waiting + {id}, blocked := if Blocks(f) then f.blocked + {id} else f.blocked)
  }

  function After(s: Option<Sem>, b: BucketName, e: Step): Sem {
    var f := Found(s, b);
    match e
    case Arrive(id, _) => Joined(f, id)
    case Acquire(id, _) => Sem(f.free - 1, f.waiting - {id}, f.running + {id}, f.blocked - {id})
    case TimeOut(id, _) => f.(waiting := f.waiting - {id}, blocked := f.blocked - {id})
    case Finish(id, _) => f.(free := f.free + 1, running := f.running - {id})
  }

  predicate Enabled(st: Semaphores, e: Step) {
    BucketFor(e.r).Some? ==> EnabledAt(Lookup(st, KeyOf(e.r).value), BucketFor(e.r).value, e)
  }

  function Next(st: Semaphores, e: Step): Semaphores {
    match KeyOf(e.r)
    case None => st
    case Some(k) => st[k := After(Lookup(st, k), BucketFor(e.r).value, e)]
  }

  class RequestConcurrencyLimitMiddleware {
    var semaphores: Semaphores

    constructor ()
      ensures semaphores == Run([])
    {
      semaphores := map[];
    }

    /** `dispatch` up to its wait; a request outside every bucket goes straight on. */
    method Enter(id: int, r: Request) returns (limited: bool)
      requires Enabled(semaphores, Arrive(id, r))
      modifies this
      ensures limited == BucketFor(r).Some?
      ensures semaphores == Next(old(semaphores), Arrive(id, r))
    {
      var bucket := BucketFor(r);
      if bucket.None? {
        return false;
      }
      var key := SemaphoreKey(bucket.value, r);
      ghost var before := semaphores;
      if key !in semaphores {
        semaphores := semaphores[key := Sem(bucket.value.Capacity(), {}, {}, {})];
      }
      var sem := semaphores[key];
      semaphores := semaphores[key := Joined(sem, id)];
      assert semaphores == before[key := Joined(Found(Lookup(before, key), bucket.value), id)];
      return true;
    }

    /** `dispatch` from the end of its wait: a request that got a permit may go on,
        one whose time ran out is turned away and holds nothing. */
    method EndWait(id: int, r: Request, timedOut: bool) returns (admitted: bool)
      requires BucketFor(r).Some?
      requires Enabled(semaphores, if timedOut then TimeOut(id, r) else Acquire(id, r))
      modifies this
      ensures admitted == !timedOut
      ensures semaphores == Next(old(semaphores), if timedOut then TimeOut(id, r) else Acquire(id, r))
    {
      var key := SemaphoreKey(BucketFor(r).value, r);
      var sem := semaphores[key];
      if timedOut {
        semaphores := semaphores[key := sem.(waiting := sem.waiting - {id}, blocked := sem.blocked - {id})];
        return false;
      }
      semaphores := semaphores[key := Sem(sem.free - 1, sem.waiting - {id}, sem.running + {id}, sem.blocked - {id})];
      return true;
    }

    /** The `finally` of `dispatch`, reached by an answer and by an exception alike. */
    method Release(id: int, r: Request)
      requires BucketFor(r).Some? && Enabled(semaphores, Finish(id, r))
      modifies this
      ensures semaphores == Next(old(semaphores), Finish(id, r))
    {
      var key := SemaphoreKey(BucketFor(r).value, r);
      var sem := semaphores[key];
      semaphores := semaphores[key := sem.(free := sem.free + 1, running := sem.running - {id})];
    }
  }

  // ---------- whole runs ----------

  type Trace = seq<Step>

  function Run(t: Trace): Semaphores {
    if t == [] then map[] else Next(Run(t[..|t| - 1]), t[|t| - 1])
  }

  /** A run in which every step could happen when it did. */
  ghost predicate Possible(t: Trace) {
    t != [] ==> Possible(t[..|t| - 1]) && Enabled(Run(t[..|t| - 1]), t[|t| - 1])
  }

  /** Each request arrives once. */
  ghost predicate ArrivesOnce(t: Trace) {
    forall i, j | 0 <= i < j < |t| && t[i].Arrive? && t[j].Arrive? :: t[i].id != t[j].id
  }

  predicate OnKey(e: Step, k: string) {
    KeyOf(e.r) == Some(k)
  }

  /** The requests with a step of the given kind on semaphore k, read off the run alone. */
  function Acquired(t: Trace, k: string): set<int> {
    set i | 0 <= i < |t| && t[i].Acquire? && OnKey(t[i], k) :: t[i].id
  }

  function Finished(t: Trace, k: string): set<int> {
    set i | 0 <= i < |t| && t[i].Finish? && OnKey(t[i], k) :: t[i].id
  }

  function Arrived(t: Trace): set<int> {
    set i | 0 <= i < |t| && t[i].Arrive? :: t[i].id
  }

  // ---------- permits are conserved ----------

  ghost predicate Conserved(s: Option<Sem>, b: BucketName) {
    s.Some? ==>
      && s.value.free >= 0
      && s.value.free + |s.value.running| == b.Capacity()
      && s.value.waiting !! s.value.running
  }

  lemma ConservedStep(s: Option<Sem>, b: BucketName, e: Step)
    requires Conserved(s, b) && EnabledAt(s, b, e)
    ensures Conserved(Some(After(s, b, e)), b)
  {
  }

  /** In every reachable state, free permits and requests in progress add up to the
      bucket's capacity: through waits, time-outs, answers and exceptions. */
  lemma {:induction false} PermitsConserved(t: Trace, r: Request)
    requires Possible(t) && KeyOf(r).Some?
    ensures Conserved(Lookup(Run(t), KeyOf(r).value), BucketFor(r).value)
  {
    if t != [] {
      PermitsConserved(t[..|t| - 1], r);
      var e := t[|t| - 1];
      if KeyOf(e.r) == KeyOf(r) {
        KeyDeterminesBucket(e.r, r);
        ConservedStep(Lookup(Run(t[..|t| - 1]), KeyOf(r).value), BucketFor(r).value, e);
      }
    }
  }

  /** In every run at most six core reads, two background reads, six document writes, four
      invoice actions and six workflow changes of one organization and address are in progress,
      and a waiting request can go on exactly while fewer than that are. */
  lemma AcquiresIff(t: Trace, id: int, r: Request, b: BucketName)
    requires Possible(t) && BucketFor(r) == Some(b) && KeyOf(r).value in Run(t)
    ensures var sem, permits := Run(t)[KeyOf(r).value],
                                if b.BackgroundPanelReads? then 2 else if b.InvoiceActions? then 4 else 6;
            && |sem.running| <= permits
            && (id in sem.waiting ==> (Enabled(Run(t), Acquire(id, r)) <==> |sem.running| < permits))
  {
    PermitsConserved(t, r);
  }

  // ---------- the semaphore remembers exactly the run's acquisitions ----------

  lemma AcquiredStep(t: Trace, k: string)
    requires t != []
    ensures var u, e := t[..|t| - 1], t[|t| - 1];
            Acquired(t, k) == Acquired(u, k) + (if e.Acquire? && OnKey(e, k) then {e.id} else {})
  {
    var u, n := t[..|t| - 1], |t| - 1;
    forall x | x in Acquired(u, k) ensures x in Acquired(t, k) {
      var i :| 0 <= i < n && u[i].Acquire? && OnKey(u[i], k) && u[i].id == x;
      assert t[i] == u[i];
    }
    assert t == u + [t[n]];
  }

  lemma FinishedStep(t: Trace, k: string)
    requires t != []
    ensures var u, e := t[..|t| - 1], t[|t| - 1];
            Finished(t, k) == Finished(u, k) + (if e.Finish? && OnKey(e, k) then {e.id} else {})
  {
    var u, n := t[..|t| - 1], |t| - 1;
    forall x | x in Finished(u, k) ensures x in Finished(t, k) {
      var i :| 0 <= i < n && u[i].Finish? && OnKey(u[i], k) && u[i].id == x;
      assert t[i] == u[i];
    }
    assert t == u + [t[n]];
  }

  lemma ArrivedStep(t: Trace)
    requires t != []
    ensures var u, e := t[..|t| - 1], t[|t| - 1];
            Arrived(t) == Arrived(u) + (if e.Arrive? then {e.id} else {})
  {
    var u, n := t[..|t| - 1], |t| - 1;
    forall x | x in Arrived(u) ensures x in Arrived(t) {
      var i :| 0 <= i < n && u[i].Arrive? && u[i].id == x;
      assert t[i] == u[i];
    }
    assert t == u + [t[n]];
  }

  /** What a semaphore must show, given who has arrived, acquired and finished. */
  ghost predicate Shows(f: Sem, arrived: set<int>, acquired: set<int>, finished: set<int>) {
    && acquired <= arrived && finished <= acquired
    && f.running == acquired - finished
    && f.waiting <= arrived && f.waiting !! acquired
  }

  ghost predicate Remembers(s: Option<Sem>, t: Trace, k: string) {
    if s.Some? then Shows(s.value, Arrived(t), Acquired(t, k), Finished(t, k))
    else Acquired(t, k) == {} && Finished(t, k) == {}
  }

  lemma ShowsArrive(f: Sem, b: BucketName, e: Step, arrived: set<int>, acquired: set<int>, finished: set<int>)
    requires Shows(f, arrived, acquired, finished) && e.Arrive? && e.id !in arrived
    ensures Shows(After(Some(f), b, e), arrived + {e.id}, acquired, finished)
  {
  }

  lemma ShowsAcquire(f: Sem, b: BucketName, e: Step, arrived: set<int>, acquired: set<int>, finished: set<int>)
    requires Shows(f, arrived, acquired, finished) && e.Acquire? && EnabledAt(Some(f), b, e)
    ensures Shows(After(Some(f), b, e), arrived, acquired + {e.id}, finished)
  {
  }

  lemma ShowsFinish(f: Sem, b: BucketName, e: Step, arrived: set<int>, acquired: set<int>, finished: set<int>)
    requires Shows(f, arrived, acquired, finished) && e.Finish? && EnabledAt(Some(f), b, e)
    ensures Shows(After(Some(f), b, e), arrived, acquired, finished + {e.id})
  {
  }

  lemma OwnStepShows(f: Sem, b: BucketName, e: Step, arrived: set<int>, acquired: set<int>, finished: set<int>)
    requires Shows(f, arrived, acquired, finished) && (e.Arrive? ==> e.id !in arrived)
    requires EnabledAt(Some(f), b, e)
    ensures Shows(After(Some(f), b, e),
                  arrived + (if e.Arrive? then {e.id} else {}),
                  acquired + (if e.Acquire? then {e.id} else {}),
                  finished + (if e.Finish? then {e.id} else {}))
  {
    assert arrived + {} == arrived && acquired + {} == acquired && finished + {} == finished;
    match e
    case Arrive(_, _) => ShowsArrive(f, b, e, arrived, acquired, finished);
    case Acquire(_, _) => ShowsAcquire(f, b, e, arrived, acquired, finished);
    case Finish(_, _) => ShowsFinish(f, b, e, arrived, acquired, finished);
    case TimeOut(_, _) =>
  }

  lemma NewSemaphoreShows(s: Option<Sem>, b: BucketName, t: Trace, k: string)
    requires Remembers(s, t, k)
    ensures Shows(Found(s, b), Arrived(t), Acquired(t, k), Finished(t, k))
  {
  }

  /** A step on its own semaphore. */
  lemma OwnStepIsShown(s: Option<Sem>, b: BucketName, t: Trace, k: string)
    requires t != [] && OnKey(t[|t| - 1], k) && Remembers(s, t[..|t| - 1], k) && EnabledAt(s, b, t[|t| - 1])
    requires t[|t| - 1].Arrive? ==> t[|t| - 1].id !in Arrived(t[..|t| - 1])
    ensures Remembers(Some(After(s, b, t[|t| - 1])), t, k)
  {
    var u, e, f := t[..|t| - 1], t[|t| - 1], Found(s, b);
    AcquiredStep(t, k);
    FinishedStep(t, k);
    ArrivedStep(t);
    NewSemaphoreShows(s, b, u, k);
    OwnStepShows(f, b, e, Arrived(u), Acquired(u, k), Finished(u, k));
  }

  lemma OtherStepIsShown(s: Option<Sem>, t: Trace, k: string)
    requires t != [] && !OnKey(t[|t| - 1], k) && Remembers(s, t[..|t| - 1], k)
    ensures Remembers(s, t, k)
  {
    AcquiredStep(t, k);
    FinishedStep(t, k);
    ArrivedStep(t);
  }

  lemma LookupNext(st: Semaphores, e: Step, k: string)
    ensures OnKey(e, k) ==>
              BucketFor(e.r).Some? && Lookup(Next(st, e), k) == Some(After(Lookup(st, k), BucketFor(e.r).value, e))
    ensures OnKey(e, k) && Enabled(st, e) ==> EnabledAt(Lookup(st, k), BucketFor(e.r).value, e)
    ensures !OnKey(e, k) ==> Lookup(Next(st, e), k) == Lookup(st, k)
  {
  }

  lemma LastArrivesOnce(t: Trace)
    requires t != [] && ArrivesOnce(t)
    ensures ArrivesOnce(t[..|t| - 1]) && (t[|t| - 1].Arrive? ==> t[|t| - 1].id !in Arrived(t[..|t| - 1]))
  {
  }

  lemma {:induction false} SemaphoreRemembersRun(t: Trace, k: string)
    requires Possible(t) && ArrivesOnce(t)
    ensures Remembers(Lookup(Run(t), k), t, k)
  {
    if t != [] {
      var u, e := t[..|t| - 1], t[|t| - 1];
      LastArrivesOnce(t);
      SemaphoreRemembersRun(u, k);
      LookupNext(Run(u), e, k);
      if OnKey(e, k) {
        OwnStepIsShown(Lookup(Run(u), k), BucketFor(e.r).value, t, k);
      } else {
        OtherStepIsShown(Lookup(Run(u), k), t, k);
      }
    }
  }

  /** The free permits of a semaphore follow from its acquisitions and finishes
      alone.  In particular a request that timed out gives nothing back. */
  lemma FreePermits(t: Trace, r: Request)
    requires Possible(t) && ArrivesOnce(t) && KeyOf(r).Some?
    ensures var k := KeyOf(r).value;
            k in Run(t) ==> Run(t)[k].free == BucketFor(r).value.Capacity() - |Acquired(t, k) - Finished(t, k)|
  {
    PermitsConserved(t, r);
    SemaphoreRemembersRun(t, KeyOf(r).value);
  }

  /** A request that waits while its semaphore serves nobody can get a permit. */
  lemma WaiterIsServed(t: Trace, id: int, r: Request)
    requires Possible(t) && KeyOf(r).Some? && KeyOf(r).value in Run(t)
    requires id in Run(t)[KeyOf(r).value].waiting && Run(t)[KeyOf(r).value].running == {}
    ensures Enabled(Run(t), Acquire(id, r))
  {
    PermitsConserved(t, r);
  }

  // ---------- a time-out means a full bucket ----------

  /** Request id arrived in step i and found its bucket's permits all held or waited for. */
  ghost predicate ArrivedFull(t: Trace, r: Request, i: int, id: int)
    requires KeyOf(r).Some?
  {
    && 0 <= i < |t| && t[i].Arrive? && t[i].id == id && KeyOf(t[i].r) == KeyOf(r)
    && var f := Found(Lookup(Run(t[..i]), KeyOf(r).value), BucketFor(r).value);
       |f.running| + |f.waiting| >= BucketFor(r).value.Capacity()
  }

  ghost predicate BlockedArrivedFull(t: Trace, r: Request)
    requires KeyOf(r).Some?
  {
    var s := Lookup(Run(t), KeyOf(r).value);
    s.Some? ==> forall id | id in s.value.blocked :: exists i :: ArrivedFull(t, r, i, id)
  }

  lemma ArrivedInPrefix(t: Trace, j: int, r: Request, i: int, id: int)
    requires 0 <= j <= |t| && KeyOf(r).Some? && ArrivedFull(t[..j], r, i, id)
    ensures i < j && ArrivedFull(t, r, i, id)
  {
    assert t[..j][..i] == t[..i];
  }

  lemma {:induction false} BlockedWereFull(t: Trace, r: Request)
    requires Possible(t) && KeyOf(r).Some?
    ensures BlockedArrivedFull(t, r)
  {
    if t != [] {
      var u, e := t[..|t| - 1], t[|t| - 1];
      BlockedWereFull(u, r);
      PermitsConserved(u, r);
      var s, before := Lookup(Run(t), KeyOf(r).value), Lookup(Run(u), KeyOf(r).value);
      if KeyOf(e.r) == KeyOf(r) { KeyDeterminesBucket(e.r, r); }
      if s.Some? {
        forall id | id in s.value.blocked ensures exists i :: ArrivedFull(t, r, i, id) {
          if before.Some? && id in before.value.blocked {
            var i :| ArrivedFull(u, r, i, id);
            ArrivedInPrefix(t, |t| - 1, r, i, id);
          } else {
            assert ArrivedFull(t, r, |t| - 1, id);
          }
        }
      }
    }
  }

  lemma TimedOutWasBlocked(st: Semaphores, id: int, r: Request)
    requires KeyOf(r).Some? && Enabled(st, TimeOut(id, r))
    ensures Lookup(st, KeyOf(r).value).Some? && id in Lookup(st, KeyOf(r).value).value.blocked
  {
  }

  /** A request is turned away only if it arrived when as many requests as its bucket has
      permits were in progress or waiting before it. */
  lemma TimeOutFoundBucketFull(t: Trace, j: int, id: int, r: Request) returns (i: int)
    requires Possible(t) && 0 <= j < |t| && t[j] == TimeOut(id, r) && KeyOf(r).Some?
    ensures i < j && ArrivedFull(t, r, i, id)
  {
    PossiblePrefix(t, j);
    BlockedWereFull(t[..j], r);
    TimedOutWasBlocked(Run(t[..j]), id, r);
    i :| ArrivedFull(t[..j], r, i, id);
    ArrivedInPrefix(t, j, r, i, id);
  }

  lemma {:induction false} PossiblePrefix(t: Trace, j: int)
    requires Possible(t) && 0 <= j < |t|
    ensures Possible(t[..j]) && Enabled(Run(t[..j]), t[j])
  {
    if j < |t| - 1 {
      PossiblePrefix(t[..|t| - 1], j);
      assert t[..|t| - 1][..j] == t[..j];
    }
  }

  // ---------- one key does not see the others ----------

  function Project(t: Trace, k: string): Trace {
    if t == [] then []
    else
      var rest, e := Project(t[..|t| - 1], k), t[|t| - 1];
      if OnKey(e, k) then rest + [e] else rest
  }

  /** A semaphore after a run is what the steps of its own requests make of it. */
  lemma {:induction false} KeyIndependence(t: Trace, k: string)
    ensures Lookup(Run(t), k) == Lookup(Run(Project(t, k)), k)
  {
    if t != [] {
      KeyIndependence(t[..|t| - 1], k);
      var rest := Project(t[..|t| - 1], k);
      if OnKey(t[|t| - 1], k) {
        assert (rest + [t[|t| - 1]])[..|rest|] == rest;
      }
    }
  }

  function WithoutBackgroundReads(t: Trace): Trace {
    if t == [] then []
    else
      var rest, e := WithoutBackgroundReads(t[..|t| - 1]), t[|t| - 1];
      if BucketFor(e.r) == Some(BackgroundPanelReads) then rest else rest + [e]
  }

  lemma {:induction false} DroppingReadsKeepsProjection(t: Trace, w: Request)
    requires KeyOf(w).Some? && BucketFor(w) != Some(BackgroundPanelReads)
    ensures Project(WithoutBackgroundReads(t), KeyOf(w).value) == Project(t, KeyOf(w).value)
  {
    if t != [] {
      DroppingReadsKeepsProjection(t[..|t| - 1], w);
      var rest, e := WithoutBackgroundReads(t[..|t| - 1]), t[|t| - 1];
      if BucketFor(e.r) == Some(BackgroundPanelReads) {
        if OnKey(e, KeyOf(w).value) { KeyDeterminesBucket(e.r, w); }
      } else {
        assert (rest + [e])[..|rest|] == rest;
      }
    }
  }

  /** Background panel reads never take a permit from a write: whatever reads are
      taken out of a run, the semaphore that a write meets is the same. */
  lemma BackgroundReadsNeverBlockWrites(t: Trace, w: Request)
    requires IsWriteMethod(Upper(w.httpMethod)) && KeyOf(w).Some?
    ensures Lookup(Run(t), KeyOf(w).value) == Lookup(Run(WithoutBackgroundReads(t)), KeyOf(w).value)
  {
    WritesAvoidReadBuckets(w);
    DroppingReadsKeepsProjection(t, w);
    KeyIndependence(t, KeyOf(w).value);
    KeyIndependence(WithoutBackgroundReads(t), KeyOf(w).value);
  }
}
