/** How often the offline queue of frontend/src/lib/driver-mobile.ts gets a document
    accepted by the server, over the runs of `UploadQueueRuns`. */
module UploadDeliveries {
  import opened UploadQueue
  import opened UploadQueueRuns

  // ---------- how often a document is accepted ----------

  ghost predicate AcceptedOnce(s: Store) {
    forall id: int :: s.sent[id] <= 1
  }

  /** The server accepts a document in the step. */
  predicate Delivers(e: Step) {
    e.PassSends? || (e.PassFails? && e.accepted)
  }

  /** A step keeps every document accepted at most once exactly when it does not deliver
      one that has been accepted before. */
  lemma AcceptedOnceIff(s: Store, e: Step)
    requires AcceptedOnce(s) && Enabled(s, e)
    ensures AcceptedOnce(Next(s, e)) <==> !(Delivers(e) && Current(s, e.p).id in s.sent)
  {
    if Delivers(e) {
      var id := Current(s, e.p).id;
      assert Next(s, e).sent == s.sent + multiset{id};
      assert Next(s, e).sent[id] == s.sent[id] + 1;
    }
  }

  /** The server accepts the document, but the pass sees a failure: the answer is lost on
      the way, or a callback throws. */
  predicate LosesAnswer(e: Step) {
    e.PassFails? && e.accepted
  }

  /** The documents whose answers the step, or the run, loses, as often as it does. */
  function LostIn(s: Store, e: Step): multiset<int>
    requires Enabled(s, e)
  {
    if LosesAnswer(e) then multiset{Current(s, e.p).id} else multiset{}
  }

  function Lost(a: Store, t: seq<Step>): multiset<int>
    decreases |t|
  {
    if t == [] || !Enabled(a, t[0]) then multiset{} else LostIn(a, t[0]) + Lost(Next(a, t[0]), t[1..])
  }

  /** From the given place on, no document was accepted more often than answers to it were
      lost, or than it has attempts on record. */
  ghost predicate Behind(q: Queue, from: int, sent: multiset<int>, lost: multiset<int>) {
    forall i | 0 <= i < |q| && from <= i :: sent[q[i].id] <= lost[q[i].id] && sent[q[i].id] <= q[i].attempts
  }

  ghost predicate WalkBehind(w: Walk, s: Store, lost: multiset<int>) {
    Sound(w.items, s.payloads) && Behind(w.items, w.next, s.sent, lost)
  }

  ghost predicate WithinLimits(sent: multiset<int>, lost: multiset<int>) {
    forall id: int :: sent[id] <= lost[id] + 1 && sent[id] <= MAX_RETRY_ATTEMPTS
  }

  ghost predicate OnlyKnown(ids: multiset<int>, payloads: map<int, string>) {
    forall id | id in ids :: id in payloads
  }

  /** How acceptances, lost answers and attempts are related while passes do not overlap. */
  ghost predicate Tallied(s: Store, lost: multiset<int>) {
    && Inv(s) && WithinLimits(s.sent, lost)
    && OnlyKnown(s.sent, s.payloads) && OnlyKnown(lost, s.payloads)
    && Behind(s.stored, 0, s.sent, lost)
    && (forall p | p in s.passes :: WalkBehind(s.passes[p], s, lost))
    && (forall p, q | p in s.passes && q in s.passes :: p == q)
  }

  lemma {:induction false} WithoutKeepsBehind(q: Queue, id: int, sent: multiset<int>, lost: multiset<int>)
    requires Behind(q, 0, sent, lost)
    ensures Behind(Without(q, id), 0, sent + multiset{id}, lost) && Behind(Without(q, id), 0, sent, lost)
  {
    if q != [] {
      var rest := Without(q[1..], id);
      forall i | 0 <= i < |q[1..]| ensures q[1..][i] == q[i + 1] {
      }
      WithoutKeepsBehind(q[1..], id, sent, lost);
      if q[0].id != id {
        assert forall i | 0 <= i < |[q[0]] + rest| :: ([q[0]] + rest)[i] == if i == 0 then q[0] else rest[i - 1];
      }
    }
  }

  lemma BumpKeepsBehind(q: Queue, id: int, m: string, sent: multiset<int>, lost: multiset<int>,
                        payloads: map<int, string>)
    requires Behind(q, 0, sent, lost) && Sound(q, payloads)
    ensures Behind(Bump(q, id, m), 0, sent, lost)
    ensures Behind(Bump(q, id, m), 0, sent + multiset{id}, lost + multiset{id})
  {
    BumpSound(q, id, m, payloads);
  }

  lemma FreshFrontBehind(it: Item, q: Queue, sent: multiset<int>, lost: multiset<int>)
    requires Behind(q, 0, sent, lost) && sent[it.id] == 0
    ensures Behind([it] + q, 0, sent, lost)
  {
    assert forall i | 1 <= i < |[it] + q| :: ([it] + q)[i] == q[i - 1];
  }

  lemma PassKeepsBehind(s: Store, e: Step, lost: multiset<int>)
    requires Tallied(s, lost) && Enabled(s, e) && (e.PassSends? || e.PassFails?)
    ensures Behind(Next(s, e).stored, 0, Next(s, e).sent, lost + LostIn(s, e))
  {
    var id := Current(s, e.p).id;
    assert lost + multiset{} == lost;
    if e.PassSends? {
      WithoutKeepsBehind(s.stored, id, s.sent, lost);
    } else {
      BumpKeepsBehind(s.stored, id, e.message, s.sent, lost, s.payloads);
    }
  }

  lemma StoredStaysBehind(s: Store, e: Step, lost: multiset<int>)
    requires Tallied(s, lost) && Enabled(s, e) && Orderly(s, e)
    ensures Behind(Next(s, e).stored, 0, Next(s, e).sent, lost + LostIn(s, e))
  {
    if e.PassSends? || e.PassFails? {
      PassKeepsBehind(s, e, lost);
    } else {
      assert lost + multiset{} == lost;
      if e.RemoveItem? { WithoutKeepsBehind(s.stored, e.id, s.sent, lost); }
      if e.EnqueueWrite? { FreshFrontBehind(Item(e.id, e.payload, 0, ""), s.stored, s.sent, lost); }
    }
  }

  lemma WalkStaysBehind(s: Store, e: Step, lost: multiset<int>, p: int)
    requires Tallied(s, lost) && Enabled(s, e) && Orderly(s, e) && p in Next(s, e).passes
    ensures WalkBehind(Next(s, e).passes[p], Next(s, e), lost + LostIn(s, e))
  {
    if e.PassSends? {
      assert e.p == p;
      var w, id := Next(s, e).passes[p], Current(s, p).id;
      forall i | w.next <= i < |w.items| ensures w.items[i].id != id {
      }
    }
  }

  lemma LimitsStay(s: Store, e: Step, lost: multiset<int>)
    requires Tallied(s, lost) && Enabled(s, e)
    ensures WithinLimits(Next(s, e).sent, lost + LostIn(s, e))
    ensures OnlyKnown(Next(s, e).sent, Next(s, e).payloads) && OnlyKnown(lost + LostIn(s, e), Next(s, e).payloads)
  {
    if e.PassSends? || e.PassFails? {
      var it := Current(s, e.p);
      assert WalkBehind(s.passes[e.p], s, lost);
      assert s.sent[it.id] <= lost[it.id] && s.sent[it.id] <= it.attempts < MAX_RETRY_ATTEMPTS && it.id in s.payloads;
    }
  }

  lemma TalliedStep(s: Store, e: Step, lost: multiset<int>)
    requires Tallied(s, lost) && Enabled(s, e) && Orderly(s, e)
    ensures Tallied(Next(s, e), lost + LostIn(s, e))
  {
    StepKeepsInv(s, e);
    LimitsStay(s, e, lost);
    StoredStaysBehind(s, e, lost);
    forall p | p in Next(s, e).passes ensures WalkBehind(Next(s, e).passes[p], Next(s, e), lost + LostIn(s, e)) {
      WalkStaysBehind(s, e, lost, p);
    }
  }

  lemma {:induction false} OrderlyRunTallies(a: Store, t: seq<Step>, b: Store, lost: multiset<int>)
    requires Tallied(a, lost) && Leads(a, t, b) && AllOrderly(a, t)
    ensures Tallied(b, lost + Lost(a, t))
    decreases |t|
  {
    if t != [] {
      TalliedStep(a, t[0], lost);
      OrderlyRunTallies(Next(a, t[0]), t[1..], b, lost + LostIn(a, t[0]));
      assert lost + LostIn(a, t[0]) + Lost(Next(a, t[0]), t[1..]) == lost + Lost(a, t);
    }
  }

  /** With one pass at a time and fresh writes, whatever the network does: a document is
      accepted at most five times, at most once more than answers to it were lost, and no
      more often than that while it is stored. */
  lemma AcceptancesBounded(t: seq<Step>, b: Store)
    requires Leads(EMPTY, t, b) && AllOrderly(EMPTY, t)
    ensures forall id: int :: b.sent[id] <= 5 && b.sent[id] <= Lost(EMPTY, t)[id] + 1
    ensures forall i | 0 <= i < |b.stored| :: b.sent[b.stored[i].id] <= Lost(EMPTY, t)[b.stored[i].id]
  {
    OrderlyRunTallies(EMPTY, t, b, multiset{});
    assert multiset{} + Lost(EMPTY, t) == Lost(EMPTY, t);
  }

  lemma {:induction false} NothingLost(a: Store, t: seq<Step>)
    requires forall i | 0 <= i < |t| :: !LosesAnswer(t[i])
    ensures Lost(a, t) == multiset{}
    decreases |t|
  {
    if t != [] && Enabled(a, t[0]) {
      NothingLost(Next(a, t[0]), t[1..]);
    }
  }

  /** In particular, when no answer is lost no document is ever accepted twice, and an
      accepted one is no longer stored. */
  lemma AcceptedAtMostOnce(t: seq<Step>, b: Store)
    requires Leads(EMPTY, t, b) && AllOrderly(EMPTY, t) && forall i | 0 <= i < |t| :: !LosesAnswer(t[i])
    ensures forall id: int :: b.sent[id] <= 1
    ensures Accepted(b) !! Ids(b.stored)
  {
    AcceptancesBounded(t, b);
    NothingLost(EMPTY, t);
    forall id | id in Ids(b.stored) ensures id !in Accepted(b) {
      var i :| 0 <= i < |b.stored| && b.stored[i].id == id;
      assert b.sent[b.stored[i].id] <= Lost(EMPTY, t)[b.stored[i].id];
    }
  }

  // ---------- accepted documents of which a copy is left ----------

  predicate Ahead(s: Store, p: int, id: int) {
    p in s.passes && exists i | s.passes[p].next <= i < |s.passes[p].items| :: s.passes[p].items[i].id == id
  }

  predicate InReader(s: Store, r: int, id: int) {
    r in s.readers && id in Ids(s.readers[r])
  }

  /** The document is stored, in the list of an enqueue under way, or ahead in a pass. */
  ghost predicate InHand(s: Store, id: int) {
    id in Ids(s.stored) || (exists r :: InReader(s, r, id)) || (exists p :: Ahead(s, p, id))
  }

  ghost predicate NoCopies(s: Store) {
    forall id | id in s.sent :: !InHand(s, id)
  }

  /** What every run keeps besides: passes and acceptances are of known documents. */
  ghost predicate Known(s: Store) {
    Inv(s) && OnlyKnown(s.sent, s.payloads) && forall p | p in s.passes :: Sound(s.passes[p].items, s.payloads)
  }

  lemma KnownStep(s: Store, e: Step)
    requires Known(s) && Enabled(s, e)
    ensures Known(Next(s, e))
  {
    StepKeepsInv(s, e);
    if Delivers(e) { assert Current(s, e.p).id in s.payloads; }
  }

  /** The step delivers a document of which an enqueue or another pass still has a copy, or
      which the failure it reports leaves in the list. */
  ghost predicate LeavesCopy(s: Store, e: Step)
    requires Enabled(s, e)
  {
    && Delivers(e)
    && var id := Current(s, e.p).id;
       || (exists r :: InReader(s, r, id))
       || (exists p :: p != e.p && Ahead(s, p, id))
       || (e.PassFails? && id in Ids(s.stored))
  }

  /** Of other documents a step makes no copies. */
  lemma CopiesOfOthers(s: Store, e: Step, id: int)
    requires Known(s) && Enabled(s, e) && InHand(Next(s, e), id) && id in s.payloads
    ensures InHand(s, id)
  {
    var s' := Next(s, e);
    if id in Ids(s'.stored) {
      IdsAfter(s, e);
      if e.EnqueueWrite? && id in Ids(s.readers[e.e]) { assert InReader(s, e.e, id); }
    } else if r :| InReader(s', r, id) {
      if r in s.readers && s'.readers[r] == s.readers[r] { assert InReader(s, r, id); }
    } else {
      var p :| Ahead(s', p, id);
      AheadBefore(s, e, p, id);
    }
  }

  lemma AheadBefore(s: Store, e: Step, p: int, id: int)
    requires Enabled(s, e) && Ahead(Next(s, e), p, id)
    ensures Ahead(s, p, id) || id in Ids(s.stored)
  {
    var w := Next(s, e).passes[p];
    var i :| w.next <= i < |w.items| && w.items[i].id == id;
    if e.BeginPass? && e.p == p {
      assert s.stored[i].id == id;
    } else {
      assert s.passes[p].items[i].id == id;
    }
  }

  /** Of the document it delivers a step leaves a copy just as LeavesCopy says. */
  lemma CopiesOfDelivered(s: Store, e: Step)
    requires Known(s) && Enabled(s, e) && Delivers(e)
    ensures InHand(Next(s, e), Current(s, e.p).id) <==> LeavesCopy(s, e)
  {
    var s', id := Next(s, e), Current(s, e.p).id;
    IdsAfter(s, e);
    assert id in Ids(s'.stored) <==> e.PassFails? && id in Ids(s.stored);
    assert forall r :: InReader(s', r, id) <==> InReader(s, r, id);
    forall p ensures Ahead(s', p, id) <==> p != e.p && Ahead(s, p, id) {
      if p == e.p {
        CurrentIsPassed(s, e);
      } else {
        assert p in s'.passes <==> p in s.passes;
        assert p in s.passes ==> s'.passes[p] == s.passes[p];
      }
    }
  }

  lemma CurrentIsPassed(s: Store, e: Step)
    requires Known(s) && Enabled(s, e) && Delivers(e)
    ensures !Ahead(Next(s, e), e.p, Current(s, e.p).id)
  {
    if e.PassSends? {
      var w := s.passes[e.p];
      assert forall i | w.next < i < |w.items| :: w.items[i].id != w.items[w.next].id;
    }
  }

  /** From a store without copies of accepted documents, a step makes one exactly when it
      delivers a document and leaves a copy of it; until then it delivers none twice. */
  lemma NoCopiesIff(s: Store, e: Step)
    requires Known(s) && NoCopies(s) && Enabled(s, e)
    ensures NoCopies(Next(s, e)) <==> !LeavesCopy(s, e)
    ensures Delivers(e) ==> Current(s, e.p).id !in s.sent
  {
    if Delivers(e) {
      var id := Current(s, e.p).id;
      assert Ahead(s, e.p, id);
      CopiesOfDelivered(s, e);
      assert id in Next(s, e).sent;
    }
    if !LeavesCopy(s, e) {
      forall id | id in Next(s, e).sent ensures !InHand(Next(s, e), id) {
        if id in s.sent && InHand(Next(s, e), id) { CopiesOfOthers(s, e, id); }
      }
    }
  }

  ghost predicate LeavesNoCopy(a: Store, t: seq<Step>)
    decreases |t|
  {
    t != [] && Enabled(a, t[0]) ==> !LeavesCopy(a, t[0]) && LeavesNoCopy(Next(a, t[0]), t[1..])
  }

  lemma {:induction false} RunWithoutCopies(a: Store, t: seq<Step>, b: Store)
    requires Known(a) && NoCopies(a) && AcceptedOnce(a) && Leads(a, t, b) && LeavesNoCopy(a, t)
    ensures NoCopies(b) && AcceptedOnce(b)
    decreases |t|
  {
    if t != [] {
      KnownStep(a, t[0]);
      NoCopiesIff(a, t[0]);
      AcceptedOnceIff(a, t[0]);
      RunWithoutCopies(Next(a, t[0]), t[1..], b);
    }
  }

  /** However passes, enqueues and removals are interleaved: as long as no delivery leaves a
      copy, no document is accepted twice and none that was accepted can be sent again. */
  lemma WithoutCopiesOnce(t: seq<Step>, b: Store)
    requires Leads(EMPTY, t, b) && LeavesNoCopy(EMPTY, t)
    ensures forall id: int :: b.sent[id] <= 1
    ensures forall id | id in b.sent :: !InHand(b, id)
  {
    RunWithoutCopies(EMPTY, t, b);
  }

  // ---------- documents that are accepted again ----------

  /** A pass over one document whose answer gets lost. */
  lemma LostAnswer(t: seq<Step>, s: Store, n: nat, after: Store) returns (t': seq<Step>)
    requires Leads(EMPTY, t, s) && AllOrderly(EMPTY, t) && s.passes == map[] && n < MAX_RETRY_ATTEMPTS
    requires s.stored == [Item(10, "a", n, "")]
    requires after == s.(stored := [Item(10, "a", n + 1, "")], sent := s.sent + multiset{10})
    ensures Leads(EMPTY, t', after) && AllOrderly(EMPTY, t')
  {
    var begun := s.(passes := map[0 := Walk(s.stored, 0)]);
    Extend(EMPTY, t, s, BeginPass(0), begun);
    var e := PassFails(0, "", true);
    assert Bump(s.stored, 10, "") == after.stored by {
      assert s.stored[1..] == [];
    }
    assert Next(begun, e) == after;
    Extend(EMPTY, t + [BeginPass(0)], begun, e, after);
    t' := t + [BeginPass(0)] + [e];
  }

  lemma {:induction false} LostAnswers(n: nat) returns (t: seq<Step>, b: Store)
    requires n <= MAX_RETRY_ATTEMPTS
    ensures Leads(EMPTY, t, b) && AllOrderly(EMPTY, t)
    ensures b.stored == [Item(10, "a", n, "")] && b.passes == map[] && b.sent[10] == n
  {
    if n == 0 {
      t, b := OneStored();
    } else {
      var s;
      t, s := LostAnswers(n - 1);
      b := s.(stored := [Item(10, "a", n, "")], sent := s.sent + multiset{10});
      t := LostAnswer(t, s, n - 1, b);
    }
  }

  /** The bound of five is met with one pass at a time: an upload that is accepted although
      the pass sees a failure is repeated by the next pass, until its attempts are used up. */
  lemma LostAnswersUploadAgain(n: nat)
    requires n <= 5
    ensures exists t: seq<Step>, b: Store :: Leads(EMPTY, t, b) && AllOrderly(EMPTY, t) && b.sent[10] == n
  {
    var t, b := LostAnswers(n);
  }

  /** Two passes that overlap upload one document twice. */
  lemma OverlappingPassesUploadTwice()
    ensures exists t: seq<Step>, b: Store :: Leads(EMPTY, t, b) && !AcceptedOnce(b)
  {
    var t, s := OneStored();
    BothBegin(t, s);
  }

  lemma BothBegin(t: seq<Step>, s: Store)
    requires Leads(EMPTY, t, s)
    requires s == EMPTY.(stored := [Item(10, "a", 0, "")], added := {10}, payloads := map[10 := "a"])
    ensures exists t: seq<Step>, b: Store :: Leads(EMPTY, t, b) && !AcceptedOnce(b)
  {
    var q := s.stored;
    var s1 := s.(passes := map[0 := Walk(q, 0)]);
    Extend(EMPTY, t, s, BeginPass(0), s1);
    var s2 := s.(passes := map[0 := Walk(q, 0), 1 := Walk(q, 0)]);
    Extend(EMPTY, t + [BeginPass(0)], s1, BeginPass(1), s2);
    BothSend(t + [BeginPass(0)] + [BeginPass(1)], s2);
  }

  lemma BothSend(t: seq<Step>, s: Store)
    requires Leads(EMPTY, t, s)
    requires var q := [Item(10, "a", 0, "")];
             s == EMPTY.(stored := q, passes := map[0 := Walk(q, 0), 1 := Walk(q, 0)], added := {10},
                         payloads := map[10 := "a"])
    ensures exists t: seq<Step>, b: Store :: Leads(EMPTY, t, b) && !AcceptedOnce(b)
  {
    var s1 := Next(s, PassSends(0));
    Extend(EMPTY, t, s, PassSends(0), s1);
    assert At(s1, 1) && Current(s1, 1) == s.stored[0];
    var s2 := Next(s1, PassSends(1));
    Extend(EMPTY, t + [PassSends(0)], s1, PassSends(1), s2);
    assert s2.sent[10] == 2;
  }
}
