/** De-duplication and retry in `request` of frontend/src/lib/api-client.ts.  A
    runner performs a request, perhaps twice; callers with an equal key join the
    runner in flight.  Settling and the clean-up after it are separate steps. */
module RequestDedupe {
  import opened Text

  /** What a call is made with; an absent flag is `None`. */
  datatype Request = Request(
    path: string, httpMethod: string, organization: Option<string>, authMode: string,
    responseType: string, dedupe: Option<bool>, retry: Option<bool>)

  /** The fields that `dedupeKey` serialises. */
  datatype Key = Key(path: string, organization: Option<string>, authMode: string, responseType: string)

  datatype Error = ApiError(status: int) | NetworkError | Aborted | OtherError

  datatype Outcome = Value(value: int) | Failed(error: Error)

  function IsGet(q: Request): bool {
    Upper(q.httpMethod) == "GET"
  }

  /** The key to share under, for a GET that does not opt out. */
  function KeyOf(q: Request): Option<Key> {
    if IsGet(q) && q.dedupe != Some(false) then
      Some(Key(q.path, q.organization, q.authMode, q.responseType))
    else None
  }

  function MaxAttempts(q: Request): int {
    if q.retry == Some(false) then 1 else if IsGet(q) then 2 else 1
  }

  predicate ShouldRetry(e: Error) {
    match e
    case ApiError(status) => status in {429, 502, 503, 504}
    case NetworkError => true
    case Aborted => false
    case OtherError => false
  }

  predicate Temporary(o: Outcome) {
    || o == Failed(NetworkError)
    || (o.Failed? && o.error.ApiError? && (o.error.status == 429 || 502 <= o.error.status <= 504))
  }

  /** How an attempt ends, and how the pause after it would end. */
  datatype Attempt = Attempt(outcome: Outcome, pauseAborted: bool)

  predicate MayShare(q: Request) {
    Upper(q.httpMethod) == "GET" && (q.dedupe.None? || q.dedupe.value)
  }

  /** Requests share a key exactly when both are GETs that do not opt out and they ask for
      one path, for one organization, with one way to sign in and one type of answer. */
  lemma SharesKeyIff(q: Request, r: Request)
    ensures KeyOf(q).Some? && KeyOf(q) == KeyOf(r) <==>
              && MayShare(q) && MayShare(r)
              && q.path == r.path && q.organization == r.organization
              && q.authMode == r.authMode && q.responseType == r.responseType
  {
  }

  // ---------- runners ----------

  datatype Phase = Trying | Pausing | Settled(outcome: Outcome)

  datatype Runner = Runner(request: Request, attempts: int, phase: Phase, cleaned: bool)

  /** `inFlight` is the source's map; `joined` remembers which runner each caller got. */
  datatype Client = Client(inFlight: map<Key, int>, runners: map<int, Runner>, joined: map<int, int>)

  datatype Step =
    | Call(caller: int, request: Request, started: int)   // `started` names the runner, if one is made
    | End(runner: int, outcome: Outcome)                // an attempt ends
    | PauseEnds(runner: int, aborted: bool)
    | CleanUp(runner: int)

  function AfterAttempt(r: Runner, outcome: Outcome): Runner {
    if outcome.Failed? && r.attempts < MaxAttempts(r.request) && ShouldRetry(outcome.error)
    then r.(phase := Pausing)
    else r.(phase := Settled(outcome))
  }

  function AfterPause(r: Runner, aborted: bool): Runner {
    if aborted then r.(phase := Settled(Failed(Aborted)))
    else r.(phase := Trying, attempts := r.attempts + 1)
  }

  /** A runner taken through its attempts until it settles. */
  function Drive(r: Runner, attempts: seq<Attempt>): Runner
    decreases |attempts|
  {
    if r.phase != Trying || attempts == [] then r
    else
      var next := AfterAttempt(r, attempts[0].outcome);
      if next.phase == Pausing then Drive(AfterPause(next, attempts[0].pauseAborted), attempts[1..]) else next
  }

  /** The retry loop.  `attempts` is what the network would answer, one element for
      each attempt that could be made. */
  method RunAttempts(q: Request, attempts: seq<Attempt>) returns (outcome: Outcome, started: int)
    requires |attempts| == MaxAttempts(q)
    ensures 1 <= started <= MaxAttempts(q) <= 2
    ensures started == 2 <==>
              Upper(q.httpMethod) == "GET" && q.retry != Some(false) && !attempts[0].pauseAborted
              && Temporary(attempts[0].outcome)
    ensures forall i | 0 <= i < started - 1 ::
              attempts[i].outcome.Failed? && ShouldRetry(attempts[i].outcome.error) && !attempts[i].pauseAborted
    ensures var last := attempts[started - 1];
            var cut := started < MaxAttempts(q) && last.outcome.Failed? && ShouldRetry(last.outcome.error);
            outcome == (if cut then Failed(Aborted) else last.outcome) && (cut ==> last.pauseAborted)
    ensures Drive(Runner(q, 1, Trying, false), attempts) == Runner(q, started, Settled(outcome), false)
  {
    var maxAttempts := MaxAttempts(q);
    started := 0;
    outcome := Failed(OtherError);
    while started < maxAttempts
      invariant 0 <= started < maxAttempts
      invariant Drive(Runner(q, started + 1, Trying, false), attempts[started..])
                  == Drive(Runner(q, 1, Trying, false), attempts)
      invariant forall i | 0 <= i < started ::
                  attempts[i].outcome.Failed? && ShouldRetry(attempts[i].outcome.error) && !attempts[i].pauseAborted
    {
      started := started + 1;
      var now := attempts[started - 1];
      match now.outcome {
        case Value(v) => return now.outcome, started;
        case Failed(e) =>
          if started >= maxAttempts || !ShouldRetry(e) {
            return now.outcome, started;
          }
          if now.pauseAborted {
            return Failed(Aborted), started;
          }
      }
    }
  }

  predicate Joins(c: Client, q: Request) {
    KeyOf(q).Some? && KeyOf(q).value in c.inFlight
  }

  predicate Enabled(c: Client, e: Step) {
    match e
    case Call(caller, q, started) => caller !in c.joined && started !in c.runners
    case End(r, _) => r in c.runners && c.runners[r].phase == Trying
    case PauseEnds(r, _) => r in c.runners && c.runners[r].phase == Pausing
    case CleanUp(r) =>
      r in c.runners && c.runners[r].phase.Settled? && KeyOf(c.runners[r].request).Some? && !c.runners[r].cleaned
  }

  function Next(c: Client, e: Step): Client
    requires Enabled(c, e)
  {
    match e
    case Call(caller, q, started) =>
      if Joins(c, q) then c.(joined := c.joined[caller := c.inFlight[KeyOf(q).value]])
      else
        Client(
          if KeyOf(q).Some? then c.inFlight[KeyOf(q).value := started] else c.inFlight,
          c.runners[started := Runner(q, 1, Trying, false)],
          c.joined[caller := started])
    case End(r, outcome) => c.(runners := c.runners[r := AfterAttempt(c.runners[r], outcome)])
    case PauseEnds(r, aborted) => c.(runners := c.runners[r := AfterPause(c.runners[r], aborted)])
    case CleanUp(r) =>
      c.(inFlight := c.inFlight - {KeyOf(c.runners[r].request).value},
         runners := c.runners[r := c.runners[r].(cleaned := true)])
  }

  class ApiClient {
    var inFlightGetRequests: map<Key, int>
    ghost var runners: map<int, Runner>
    ghost var joined: map<int, int>

    ghost function State(): Client
      reads this
    {
      Client(inFlightGetRequests, runners, joined)
    }

    constructor ()
      ensures State() == START
    {
      inFlightGetRequests, runners, joined := map[], map[], map[];
    }

    /** `request` up to the promise it hands back; `started` stands for the promise of a new runner. */
    method StartOrJoin(caller: int, q: Request, started: int) returns (promise: int)
      requires Enabled(State(), Call(caller, q, started))
      modifies this
      ensures State() == Next(old(State()), Call(caller, q, started))
      ensures joined[caller] == promise
    {
      var key := KeyOf(q);
      if key.Some? && key.value in inFlightGetRequests {
        promise := inFlightGetRequests[key.value];
        joined := joined[caller := promise];
        return;
      }
      promise := started;
      runners := runners[started := Runner(q, 1, Trying, false)];
      joined := joined[caller := started];
      if key.Some? {
        inFlightGetRequests := inFlightGetRequests[key.value := started];
      }
    }

    /** The `finally` handler of a shared promise. */
    method Forget(r: int, key: Key)
      requires Enabled(State(), CleanUp(r)) && KeyOf(runners[r].request) == Some(key)
      modifies this
      ensures State() == Next(old(State()), CleanUp(r))
    {
      inFlightGetRequests := inFlightGetRequests - {key};
      runners := runners[r := runners[r].(cleaned := true)];
    }
  }

  /** When an attempt ends, its runner pauses for another exactly when it is a GET's first, the
      request allows a retry and the failure is a temporary one; otherwise it is settled with
      what the attempt gave.  A pause leads to one more attempt unless it is aborted. */
  lemma AttemptEnds(c: Client, r: int, outcome: Outcome, aborted: bool)
    requires Inv(c) && r in c.runners
    ensures var was := c.runners[r];
            Enabled(c, End(r, outcome)) ==>
              Next(c, End(r, outcome)).runners[r].phase ==
                if Upper(was.request.httpMethod) == "GET" && was.request.retry != Some(false)
                   && was.attempts == 1 && Temporary(outcome) then Pausing
                else Settled(outcome)
    ensures var was := c.runners[r];
            Enabled(c, PauseEnds(r, aborted)) ==>
              Next(c, PauseEnds(r, aborted)).runners[r] ==
                if aborted then Runner(was.request, 1, Settled(Failed(Aborted)), was.cleaned)
                else Runner(was.request, 2, Trying, was.cleaned)
  {
  }

  // ---------- what every step keeps ----------

  predicate Shares(c: Client, r: int, k: Key) {
    r in c.runners && !c.runners[r].cleaned && KeyOf(c.runners[r].request) == Some(k)
  }

  /** The map names exactly the runners that share a key and are not cleaned up. */
  ghost predicate MapIsExact(c: Client) {
    && (forall k | k in c.inFlight :: Shares(c, c.inFlight[k], k))
    && (forall r, k :: Shares(c, r, k) ==> k in c.inFlight && c.inFlight[k] == r)
  }

  ghost predicate RunnerOk(r: Runner) {
    && 1 <= r.attempts <= MaxAttempts(r.request)
    && (r.phase == Pausing ==> r.attempts < MaxAttempts(r.request))
    && (r.cleaned ==> r.phase.Settled?)
  }

  ghost predicate Inv(c: Client) {
    && MapIsExact(c)
    && (forall r | r in c.runners :: RunnerOk(c.runners[r]))
    && (forall x | x in c.joined :: c.joined[x] in c.runners)
  }

  lemma CallKeepsMap(c: Client, e: Step)
    requires Inv(c) && e.Call? && Enabled(c, e)
    ensures MapIsExact(Next(c, e))
  {
    var c' := Next(c, e);
    forall r, k | Shares(c', r, k) ensures k in c'.inFlight && c'.inFlight[k] == r {
      if r != e.started || Joins(c, e.request) { assert Shares(c, r, k); }
    }
    forall k | k in c'.inFlight ensures Shares(c', c'.inFlight[k], k) {
      if k in c.inFlight { assert Shares(c, c.inFlight[k], k); }
    }
  }

  lemma RunnerStepKeepsMap(c: Client, e: Step)
    requires Inv(c) && !e.Call? && Enabled(c, e)
    ensures MapIsExact(Next(c, e))
  {
    var c' := Next(c, e);
    forall r, k | Shares(c', r, k) ensures k in c'.inFlight && c'.inFlight[k] == r {
      assert Shares(c, r, k);
      if e.CleanUp? { assert Shares(c, e.runner, KeyOf(c.runners[e.runner].request).value); }
    }
    forall k | k in c'.inFlight ensures Shares(c', c'.inFlight[k], k) {
      assert Shares(c, c.inFlight[k], k);
    }
  }

  lemma StepKeepsInv(c: Client, e: Step)
    requires Inv(c) && Enabled(c, e)
    ensures Inv(Next(c, e))
  {
    if e.Call? { CallKeepsMap(c, e); } else { RunnerStepKeepsMap(c, e); }
  }

  // ---------- whole runs ----------

  const START := Client(map[], map[], map[])

  /** The run `t` of enabled steps leads from state c to state d. */
  ghost predicate Leads(c: Client, t: seq<Step>, d: Client)
    decreases |t|
  {
    if t == [] then d == c else Enabled(c, t[0]) && Leads(Next(c, t[0]), t[1..], d)
  }

  lemma {:induction false} RunKeepsInv(c: Client, t: seq<Step>, d: Client)
    requires Inv(c) && Leads(c, t, d)
    ensures Inv(d)
    decreases |t|
  {
    if t != [] {
      StepKeepsInv(c, t[0]);
      RunKeepsInv(Next(c, t[0]), t[1..], d);
    }
  }

  /** A request is performed at most once, a GET that may retry at most twice. */
  lemma AttemptsBounded(t: seq<Step>, c: Client, r: int)
    requires Leads(START, t, c) && r in c.runners
    ensures var q := c.runners[r].request;
            c.runners[r].attempts <= if IsGet(q) && q.retry != Some(false) then 2 else 1
  {
    RunKeepsInv(START, t, c);
  }

  /** At most one runner holds a key, and the map holds that runner until its own
      clean-up, which therefore never removes a newer runner's entry. */
  lemma OneRunnerPerKey(t: seq<Step>, c: Client, r: int, k: Key)
    requires Leads(START, t, c)
    ensures Shares(c, r, k) <==> k in c.inFlight && c.inFlight[k] == r
    ensures Enabled(c, CleanUp(r)) ==>
              var own := KeyOf(c.runners[r].request).value;
              own in c.inFlight && c.inFlight[own] == r
              && Next(c, CleanUp(r)).inFlight == map x | x in c.inFlight && c.inFlight[x] != r :: c.inFlight[x]
  {
    RunKeepsInv(START, t, c);
    if Enabled(c, CleanUp(r)) {
      var own := KeyOf(c.runners[r].request).value;
      assert Shares(c, r, own);
      forall x | x in c.inFlight && c.inFlight[x] == r ensures x == own {
        assert Shares(c, r, x);
      }
    }
  }

  /** A caller keeps its runner for good, and a runner's outcome never changes once
      it is settled: all callers that joined a runner get that one outcome. */
  lemma {:induction false} OutcomeIsFinal(c: Client, t: seq<Step>, d: Client, caller: int, outcome: Outcome)
    requires Leads(c, t, d) && caller in c.joined && c.joined[caller] in c.runners
    requires c.runners[c.joined[caller]].phase == Settled(outcome)
    ensures caller in d.joined && d.joined[caller] == c.joined[caller]
    ensures d.joined[caller] in d.runners && d.runners[d.joined[caller]].phase == Settled(outcome)
    decreases |t|
  {
    if t != [] {
      OutcomeIsFinal(Next(c, t[0]), t[1..], d, caller, outcome);
    }
  }

  /** Whoever joins a runner instead of starting one asked for what that runner asks for. */
  lemma JoinedRunnerAgrees(t: seq<Step>, c: Client, e: Step)
    requires Leads(START, t, c) && e.Call? && Enabled(c, e)
    requires Next(c, e).joined[e.caller] != e.started
    ensures var r := Next(c, e).joined[e.caller];
            r in c.runners && !c.runners[r].cleaned && SameRequest(c.runners[r].request, e.request)
  {
    RunKeepsInv(START, t, c);
    var k := KeyOf(e.request).value;
    assert Shares(c, c.inFlight[k], k);
    SharesKeyIff(c.runners[c.inFlight[k]].request, e.request);
  }

  predicate SameRequest(q: Request, r: Request) {
    && MayShare(q) && MayShare(r)
    && q.path == r.path && q.organization == r.organization
    && q.authMode == r.authMode && q.responseType == r.responseType
  }

  /** A call joins exactly when a runner not yet cleaned up makes an equal request. */
  lemma JoinsIff(t: seq<Step>, c: Client, e: Step)
    requires Leads(START, t, c) && e.Call? && Enabled(c, e)
    ensures Next(c, e).joined[e.caller] != e.started <==>
              exists r | r in c.runners :: !c.runners[r].cleaned && SameRequest(c.runners[r].request, e.request)
  {
    RunKeepsInv(START, t, c);
    if r :| r in c.runners && !c.runners[r].cleaned && SameRequest(c.runners[r].request, e.request) {
      SharesKeyIff(c.runners[r].request, e.request);
      assert Shares(c, r, KeyOf(e.request).value);
      assert c.inFlight[KeyOf(e.request).value] == r;
    }
    if Next(c, e).joined[e.caller] != e.started { JoinedRunnerAgrees(t, c, e); }
  }

  /** Two GETs with equal keys made while the first is in flight share one runner,
      and so, by `OutcomeIsFinal`, one outcome; any other call gets its own. */
  lemma JoinersShareRunner(t: seq<Step>, c: Client, e: Step)
    requires Leads(START, t, c) && e.Call? && Enabled(c, e)
    ensures var d := Next(c, e);
            if exists r, k :: KeyOf(e.request) == Some(k) && Shares(c, r, k)
            then d.runners == c.runners && Shares(c, d.joined[e.caller], KeyOf(e.request).value)
            else d.joined[e.caller] == e.started
                 && d.runners == c.runners[e.started := Runner(e.request, 1, Trying, false)]
  {
    RunKeepsInv(START, t, c);
    if Joins(c, e.request) {
      assert Shares(c, c.inFlight[KeyOf(e.request).value], KeyOf(e.request).value);
    }
  }
}
