/** The request slots of frontend/src/lib/api-client.ts.  A finishing request frees
    its slot and wakes a waiter, which takes a slot only when it resumes; newcomers
    can run in between, so waking and resuming are separate steps. */
module RequestSlots {
  import opened Counting

  /** `active` and `queued` are the source's variables; the other two say where the
      requests are that have been woken, or hold a slot. */
  datatype Slots = Slots(active: int, queued: seq<int>, woken: set<int>, running: set<int>)

  datatype Step = Enter(id: int) | Resume(id: int) | Finish(id: int)

  function Limit(mobileSafari: bool): int {
    if mobileSafari then 2 else 4
  }

  function Max(a: int, b: int): int { if a >= b then a else b }

  predicate Admits(s: Slots, limit: int) {
    s.active < limit
  }

  function Next(s: Slots, limit: int, e: Step): Slots {
    match e
    case Enter(id) =>
      if Admits(s, limit) then s.(active := s.active + 1, running := s.running + {id})
      else s.(queued := s.queued + [id])
    case Resume(id) =>
      s.(active := s.active + 1, running := s.running + {id}, woken := s.woken - {id})
    case Finish(id) =>
      var freed := s.(active := Max(0, s.active - 1), running := s.running - {id});
      if s.queued == [] then freed
      else freed.(queued := s.queued[1..], woken := s.woken + {s.queued[0]})
  }

  /** Newcomers are new; a waiter resumes once woken; a request finishes while it runs. */
  predicate Enabled(s: Slots, e: Step) {
    match e
    case Enter(id) => id !in s.queued && id !in s.woken && id !in s.running
    case Resume(id) => id in s.woken
    case Finish(id) => id in s.running
  }

  class ApiRequestSlots {
    const limit: int
    var activeApiRequests: int
    var queuedApiRequests: seq<int>
    ghost var woken: set<int>
    ghost var running: set<int>

    ghost function State(): Slots
      reads this
    {
      Slots(activeApiRequests, queuedApiRequests, woken, running)
    }

    constructor (mobileSafari: bool)
      ensures limit == (if mobileSafari then 2 else 4)
      ensures State() == Slots(0, [], {}, {}) == Run([], limit)
    {
      limit := Limit(mobileSafari);
      activeApiRequests, queuedApiRequests, woken, running := 0, [], {}, {};
    }

    /** `withApiRequestSlot` up to its await, or to the start of the runner. */
    method Arrive(id: int) returns (admitted: bool)
      requires Enabled(State(), Enter(id))
      modifies this
      ensures State() == Next(old(State()), limit, Enter(id))
      ensures admitted == (id in running)
    {
      if activeApiRequests >= limit {
        queuedApiRequests := queuedApiRequests + [id];
        return false;
      }
      activeApiRequests := activeApiRequests + 1;
      running := running + {id};
      return true;
    }

    /** A woken waiter goes on after its await. */
    method ContinueAfterWake(id: int)
      requires Enabled(State(), Resume(id))
      modifies this
      ensures State() == Next(old(State()), limit, Resume(id))
    {
      woken := woken - {id};
      activeApiRequests := activeApiRequests + 1;
      running := running + {id};
    }

    /** The `finally` block. */
    method Leave(id: int)
      requires Enabled(State(), Finish(id))
      modifies this
      ensures State() == Next(old(State()), limit, Finish(id))
    {
      running := running - {id};
      activeApiRequests := Max(0, activeApiRequests - 1);
      if |queuedApiRequests| > 0 {
        var next := queuedApiRequests[0];
        queuedApiRequests := queuedApiRequests[1..];
        woken := woken + {next};
      }
    }
  }

  // ---------- whole runs ----------

  type Trace = seq<Step>

  function Run(t: Trace, limit: int): Slots {
    if t == [] then Slots(0, [], {}, {}) else Next(Run(t[..|t| - 1], limit), limit, t[|t| - 1])
  }

  ghost predicate Possible(t: Trace, limit: int) {
    t != [] ==> Possible(t[..|t| - 1], limit) && Enabled(Run(t[..|t| - 1], limit), t[|t| - 1])
  }

  /** How many newcomers were let in while a woken waiter had yet to resume. */
  function Overtakes(t: Trace, limit: int): nat {
    if t == [] then 0
    else
      var s, e := Run(t[..|t| - 1], limit), t[|t| - 1];
      Overtakes(t[..|t| - 1], limit) + (if e.Enter? && Admits(s, limit) && s.woken != {} then 1 else 0)
  }

  /** How many of them were let in since running and woken requests last were within the limit. */
  function RecentOvertakes(t: Trace, limit: int): nat {
    if t == [] || WithinLimit(Run(t, limit), limit) then 0
    else
      var s, e := Run(t[..|t| - 1], limit), t[|t| - 1];
      RecentOvertakes(t[..|t| - 1], limit) + (if e.Enter? && Admits(s, limit) && s.woken != {} then 1 else 0)
  }

  predicate WithinLimit(s: Slots, limit: int) {
    |s.running| + |s.woken| <= limit
  }

  /** The requests that had to queue, in the order they did. */
  function QueuedInOrder(t: Trace, limit: int): seq<int> {
    if t == [] then []
    else
      var s, e, rest := Run(t[..|t| - 1], limit), t[|t| - 1], QueuedInOrder(t[..|t| - 1], limit);
      if e.Enter? && !Admits(s, limit) then rest + [e.id] else rest
  }

  /** The requests that were woken, in the order they were. */
  function WokenInOrder(t: Trace, limit: int): seq<int> {
    if t == [] then []
    else
      var s, e, rest := Run(t[..|t| - 1], limit), t[|t| - 1], WokenInOrder(t[..|t| - 1], limit);
      if e.Finish? && s.queued != [] then rest + [s.queued[0]] else rest
  }

  // ---------- what every step keeps ----------

  /** The counter counts the running requests, and no request waits for a slot
      while fewer than `limit` are taken or about to be. */
  ghost predicate Inv(s: Slots, limit: int) {
    && s.active == |s.running|
    && (s.queued != [] ==> |s.running| + |s.woken| >= limit)
    && s.woken !! s.running
    && (forall i | 0 <= i < |s.queued| :: s.queued[i] !in s.running && s.queued[i] !in s.woken)
    && (forall i, j | 0 <= i < j < |s.queued| :: s.queued[i] != s.queued[j])
  }

  lemma FinishKeepsInv(s: Slots, limit: int, id: int)
    requires limit >= 1 && Inv(s, limit) && id in s.running
    ensures Inv(Next(s, limit, Finish(id)), limit)
    ensures s.active >= 1
  {
    assert |s.running - {id}| == |s.running| - 1;
    if s.queued != [] {
      var s', q := Next(s, limit, Finish(id)), s.queued[0];
      assert q !in s.woken && q !in s.running;
      assert |s'.woken| == |s.woken| + 1;
      forall i | 0 <= i < |s'.queued| ensures s'.queued[i] !in s'.woken && s'.queued[i] !in s'.running {
        assert s'.queued[i] == s.queued[i + 1] != q;
      }
    }
  }

  lemma EnterKeepsInv(s: Slots, limit: int, id: int)
    requires limit >= 1 && Inv(s, limit) && Enabled(s, Enter(id))
    ensures Inv(Next(s, limit, Enter(id)), limit)
  {
    if Admits(s, limit) {
      assert |s.running + {id}| == |s.running| + 1;
    }
  }

  lemma ResumeKeepsInv(s: Slots, limit: int, id: int)
    requires limit >= 1 && Inv(s, limit) && id in s.woken
    ensures Inv(Next(s, limit, Resume(id)), limit)
  {
    assert |s.running + {id}| == |s.running| + 1 && |s.woken - {id}| == |s.woken| - 1;
  }

  lemma StepKeepsInv(s: Slots, limit: int, e: Step)
    requires limit >= 1 && Inv(s, limit) && Enabled(s, e)
    ensures Inv(Next(s, limit, e), limit)
  {
    match e
    case Finish(id) => FinishKeepsInv(s, limit, id);
    case Enter(id) => EnterKeepsInv(s, limit, id);
    case Resume(id) => ResumeKeepsInv(s, limit, id);
  }

  lemma {:induction false} RunKeepsInv(t: Trace, limit: int)
    requires limit >= 1 && Possible(t, limit)
    ensures Inv(Run(t, limit), limit)
  {
    if t != [] {
      RunKeepsInv(t[..|t| - 1], limit);
      StepKeepsInv(Run(t[..|t| - 1], limit), limit, t[|t| - 1]);
    }
  }

  /** No wake-up is lost: while a request is queued, the slots are all taken by
      running requests and by woken ones that have yet to resume. */
  lemma NoLostWakeup(t: Trace, limit: int)
    requires limit >= 1 && Possible(t, limit)
    ensures var s := Run(t, limit);
            s.active == |s.running| && (s.queued != [] ==> |s.running| + |s.woken| >= limit)
  {
    RunKeepsInv(t, limit);
  }

  /** In every run a newcomer starts at once exactly when fewer than `limit` requests are
      running, whoever is queued or woken; otherwise it is the last in the queue. */
  lemma NewcomerRunsIff(t: Trace, limit: int, id: int)
    requires limit >= 1 && Possible(t, limit) && Enabled(Run(t, limit), Enter(id))
    ensures var s, s' := Run(t, limit), Run(t + [Enter(id)], limit);
            && (id in s'.running <==> |s.running| < limit)
            && (id in s'.running ==> s' == Slots(s.active + 1, s.queued, s.woken, s.running + {id}))
            && (id !in s'.running ==> s' == Slots(s.active, s.queued + [id], s.woken, s.running))
  {
    RunKeepsInv(t, limit);
    assert (t + [Enter(id)])[..|t|] == t;
  }

  /** A request that ends wakes the one that has queued longest, if any is queued; a woken
      request runs as soon as it resumes, however many others do. */
  lemma EndsAndWakes(t: Trace, limit: int, id: int)
    requires limit >= 1 && Possible(t, limit)
    ensures var s := Run(t, limit);
            id in s.running ==>
              var s' := Run(t + [Finish(id)], limit);
              && s'.running == s.running - {id} && s'.active == |s'.running|
              && (s.queued == [] ==> s'.queued == [] && s'.woken == s.woken)
              && (s.queued != [] ==> [s.queued[0]] + s'.queued == s.queued && s'.woken == s.woken + {s.queued[0]})
    ensures var s := Run(t, limit);
            id in s.woken ==>
              Run(t + [Resume(id)], limit) == Slots(|s.running| + 1, s.queued, s.woken - {id}, s.running + {id})
  {
    RunKeepsInv(t, limit);
    var s := Run(t, limit);
    assert (t + [Finish(id)])[..|t|] == t && (t + [Resume(id)])[..|t|] == t;
    if id in s.running {
      StepKeepsInv(s, limit, Finish(id));
    }
  }

  /** Waiters are woken in the order they queued, each once and none left out. */
  lemma {:induction false} WokenFirstComeFirstServed(t: Trace, limit: int)
    ensures QueuedInOrder(t, limit) == WokenInOrder(t, limit) + Run(t, limit).queued
  {
    if t != [] {
      WokenFirstComeFirstServed(t[..|t| - 1], limit);
      var s := Run(t[..|t| - 1], limit);
      if t[|t| - 1].Finish? && s.queued != [] {
        assert s.queued == [s.queued[0]] + s.queued[1..];
      }
    }
  }

  /** The slots taken or promised never exceed the limit by more than the number of
      newcomers that overtook a woken waiter since they were last within it. */
  lemma {:induction false} SlotsBoundedByRecentOvertakes(t: Trace, limit: int)
    requires limit >= 1 && Possible(t, limit)
    ensures var s := Run(t, limit); |s.running| + |s.woken| <= limit + RecentOvertakes(t, limit)
    ensures RecentOvertakes(t, limit) <= Overtakes(t, limit)
  {
    if t != [] {
      SlotsBoundedByRecentOvertakes(t[..|t| - 1], limit);
      RunKeepsInv(t[..|t| - 1], limit);
    }
  }

  /** In particular the limit is exact in a run without such newcomers. */
  lemma SlotsBoundedByOvertakes(t: Trace, limit: int)
    requires limit >= 1 && Possible(t, limit)
    ensures var s := Run(t, limit); |s.running| + |s.woken| <= limit + Overtakes(t, limit)
  {
    SlotsBoundedByRecentOvertakes(t, limit);
  }

  /** From a state within the limit, a step stays within it unless it lets a
      newcomer in although running and woken requests already fill the limit. */
  lemma StaysWithinLimitIff(s: Slots, limit: int, e: Step)
    requires limit >= 1 && Inv(s, limit) && Enabled(s, e) && WithinLimit(s, limit)
    ensures WithinLimit(Next(s, limit, e), limit) <==>
              !(e.Enter? && Admits(s, limit) && |s.running| + |s.woken| == limit)
  {
  }

  lemma Extend(t: Trace, limit: int, e: Step, s: Slots) returns (u: Trace)
    requires Possible(t, limit) && Enabled(Run(t, limit), e) && Next(Run(t, limit), limit, e) == s
    ensures Possible(u, limit) && Run(u, limit) == s
  {
    u := t + [e];
    assert u[..|t|] == t;
  }

  /** Three requests can run under a limit of two: the third queues, the first ends
      and wakes it, and a fourth slips in before it resumes. */
  lemma LimitCanBeExceeded()
    ensures exists t: Trace :: Possible(t, 2) && Run(t, 2).running == {2, 3, 4}
  {
    var t := Extend([], 2, Enter(1), Slots(1, [], {}, {1}));
    t := Extend(t, 2, Enter(2), Slots(2, [], {}, {1, 2}));
    t := Extend(t, 2, Enter(3), Slots(2, [3], {}, {1, 2}));
    t := Extend(t, 2, Finish(1), Slots(1, [], {3}, {2}));
    t := Extend(t, 2, Enter(4), Slots(2, [], {3}, {2, 4}));
    t := Extend(t, 2, Resume(3), Slots(3, [], {}, {2, 3, 4}));
  }

  // ---------- every request is served ----------

  /** How much is left to do when nobody new arrives. */
  function Work(s: Slots): nat {
    3 * |s.queued| + 2 * |s.woken| + |s.running|
  }

  /** Without newcomers every step uses up work, and while anything is left some
      step can happen: queued requests never wait for ever. */
  lemma DrainsCompletely(t: Trace, limit: int, e: Step)
    requires limit >= 1 && Possible(t, limit)
    ensures var s := Run(t, limit);
            && (!e.Enter? && Enabled(s, e) ==> Work(Next(s, limit, e)) < Work(s))
            && (Work(s) > 0 ==> exists f: Step :: !f.Enter? && Enabled(s, f))
  {
    var s := Run(t, limit);
    RunKeepsInv(t, limit);
    if |s.woken| > 0 {
      var id := Pick(s.woken);
      assert Enabled(s, Resume(id));
    } else if Work(s) > 0 {
      var id := Pick(s.running);
      assert Enabled(s, Finish(id));
    }
  }
}
