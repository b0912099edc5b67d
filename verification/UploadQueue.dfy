/** The offline upload queue of frontend/src/lib/driver-mobile.ts: the stored list and
    what one pass over it does. */
module UploadQueue {
  import opened Text

  const MAX_QUEUE_ITEMS := 12
  const MAX_RETRY_ATTEMPTS := 5

  datatype Item = Item(id: int, payload: string, attempts: nat, lastError: string)

  type Queue = seq<Item>

  /** How an attempt to upload ends.  A callback can still throw after the server has
      accepted the document; the item is then treated as refused. */
  datatype Outcome = Sent | SentButThrew(message: string) | Refused(message: string)

  ghost predicate DistinctIds(q: Queue) {
    forall i, j | 0 <= i < j < |q| :: q[i].id != q[j].id
  }

  predicate Eligible(it: Item) {
    it.attempts < MAX_RETRY_ATTEMPTS
  }

  function Ids(q: Queue): set<int> {
    set i | 0 <= i < |q| :: q[i].id
  }

  function Without(q: Queue, id: int): (r: Queue)
    ensures |r| <= |q|
  {
    if q == [] then [] else if q[0].id == id then Without(q[1..], id) else [q[0]] + Without(q[1..], id)
  }

  function Bumped(it: Item, message: string): Item {
    it.(attempts := it.attempts + 1, lastError := message)
  }

  function Bump(q: Queue, id: int, message: string): (r: Queue)
    ensures |r| == |q|
  {
    if q == [] then []
    else [if q[0].id == id then Bumped(q[0], message) else q[0]] + Bump(q[1..], id, message)
  }

  /** What `writeQueue` stores. */
  function Kept(q: Queue): Queue {
    if |q| <= MAX_QUEUE_ITEMS then q else q[..MAX_QUEUE_ITEMS]
  }

  // ---------- one pass ----------

  /** What the network and the callbacks would do with each item. */
  type Oracle = int -> Outcome

  /** The queue after a pass that nobody interrupts: exhausted items are skipped, sent
      ones leave, and the first failure ends the pass. */
  function Pass(q: Queue, o: Oracle): (r: Queue)
    ensures |r| <= |q|
  {
    if q == [] then []
    else if !Eligible(q[0]) then [q[0]] + Pass(q[1..], o)
    else
      match o(q[0].id)
      case Sent => Pass(q[1..], o)
      case SentButThrew(m) => [Bumped(q[0], m)] + q[1..]
      case Refused(m) => [Bumped(q[0], m)] + q[1..]
  }

  /** How many uploads a pass reports as synced. */
  function Synced(q: Queue, o: Oracle): nat {
    if q == [] then 0
    else if !Eligible(q[0]) then Synced(q[1..], o)
    else
      match o(q[0].id)
      case Sent => 1 + Synced(q[1..], o)
      case SentButThrew(_) => 1
      case Refused(_) => 0
  }

  /** A pass before its i-th item: `done` are the exhausted items it has skipped. */
  ghost predicate Midway(q: Queue, o: Oracle, i: nat, done: Queue, stored: Queue, synced: int) {
    && i <= |q| && stored == done + q[i..] && DistinctIds(stored) && |stored| <= MAX_QUEUE_ITEMS
    && Pass(q, o) == done + Pass(q[i..], o)
    && Synced(q, o) == synced + Synced(q[i..], o)
  }

  class DriverUploadQueue {
    var stored: Queue

    ghost predicate Valid()
      reads this
    {
      DistinctIds(stored) && |stored| <= MAX_QUEUE_ITEMS
    }

    constructor ()
      ensures Valid() && stored == []
    {
      stored := [];
    }

    method WriteQueue(q: Queue)
      modifies this
      ensures stored == Kept(q)
    {
      stored := if |q| > MAX_QUEUE_ITEMS then q[..MAX_QUEUE_ITEMS] else q;
    }

    /** `processDriverUploadQueue` when no other writer runs during its awaits. */
    method ProcessQueue(online: bool, o: Oracle) returns (synced: int, remaining: int)
      requires Valid()
      modifies this
      ensures Valid()
      ensures stored == if online then Pass(old(stored), o) else old(stored)
      ensures synced == if online then Synced(old(stored), o) else 0
      ensures remaining == |stored|
    {
      if !online {
        return 0, |stored|;
      }
      var queue := stored;
      synced := 0;
      PassKeepsDistinct(queue, o);
      ghost var done := [];
      assert queue[0..] == queue && [] + queue == queue;
      for i := 0 to |queue|
        invariant Midway(queue, o, i, done, stored, synced)
      {
        var item := queue[i];
        if item.attempts >= MAX_RETRY_ATTEMPTS {
          MidwaySkips(queue, o, i, done, stored, synced);
          done := done + [item];
          continue;
        }
        var outcome := o(item.id);
        if outcome.Sent? {
          MidwaySends(queue, o, i, done, stored, synced);
          synced := synced + 1;
          WriteQueue(Without(stored, item.id));
        } else {
          MidwayFails(queue, o, i, done, stored, synced);
          synced := if outcome.SentButThrew? then synced + 1 else synced;
          WriteQueue(Bump(stored, item.id, outcome.message));
          return synced, |stored|;
        }
      }
      return synced, |stored|;
    }

    method Remove(id: int)
      requires Valid()
      modifies this
      ensures Valid()
      ensures stored == Without(old(stored), id)
    {
      WithoutKeepsDistinct(stored, id);
      WriteQueue(Without(stored, id));
    }
  }

  // ---------- one item of a pass ----------

  lemma MidwaySkips(q: Queue, o: Oracle, i: nat, done: Queue, stored: Queue, synced: int)
    requires i < |q| && Midway(q, o, i, done, stored, synced) && !Eligible(q[i])
    ensures Midway(q, o, i + 1, done + [q[i]], stored, synced)
  {
    PassFrom(q, i, o);
    assert q[i..] == [q[i]] + q[i + 1..];
    Assoc(done, [q[i]], q[i + 1..]);
    Assoc(done, [q[i]], Pass(q[i + 1..], o));
  }

  lemma MidwaySends(q: Queue, o: Oracle, i: nat, done: Queue, stored: Queue, synced: int)
    requires i < |q| && Midway(q, o, i, done, stored, synced) && Eligible(q[i]) && o(q[i].id).Sent?
    ensures Midway(q, o, i + 1, done, Kept(Without(stored, q[i].id)), synced + 1)
  {
    PassFrom(q, i, o);
    assert q[i..] == [q[i]] + q[i + 1..];
    WithoutMiddle(done, q[i], q[i + 1..]);
  }

  lemma MidwayFails(q: Queue, o: Oracle, i: nat, done: Queue, stored: Queue, synced: int)
    requires i < |q| && Midway(q, o, i, done, stored, synced) && Eligible(q[i]) && !o(q[i].id).Sent?
    ensures Kept(Bump(stored, q[i].id, o(q[i].id).message)) == Pass(q, o)
    ensures Synced(q, o) == synced + if o(q[i].id).SentButThrew? then 1 else 0
  {
    PassFrom(q, i, o);
    assert q[i..] == [q[i]] + q[i + 1..];
    BumpMiddle(done, q[i], q[i + 1..], o(q[i].id).message);
  }

  // ---------- facts about the list ----------

  /** The pass from place i on, in terms of the pass from the next place on. */
  lemma PassFrom(q: Queue, i: nat, o: Oracle)
    requires i < |q|
    ensures var r, it := q[i + 1..], q[i];
            if !Eligible(it) then Pass(q[i..], o) == [it] + Pass(r, o) && Synced(q[i..], o) == Synced(r, o)
            else if o(it.id).Sent? then Pass(q[i..], o) == Pass(r, o) && Synced(q[i..], o) == 1 + Synced(r, o)
            else Pass(q[i..], o) == [Bumped(it, o(it.id).message)] + r
                 && Synced(q[i..], o) == if o(it.id).SentButThrew? then 1 else 0
  {
    assert q[i..][0] == q[i] && q[i..][1..] == q[i + 1..];
  }

  lemma {:induction false} WithoutIsOthers(q: Queue, id: int)
    requires id !in Ids(q)
    ensures Without(q, id) == q
  {
    if q != [] {
      forall x | x in Ids(q[1..]) ensures x in Ids(q) {
        var i :| 0 <= i < |q[1..]| && q[1..][i].id == x;
        assert q[i + 1].id == x;
      }
      assert q[0].id in Ids(q);
      WithoutIsOthers(q[1..], id);
    }
  }

  lemma {:induction false} WithoutAppend(a: Queue, b: Queue, id: int)
    ensures Without(a + b, id) == Without(a, id) + Without(b, id)
  {
    if a == [] {
      assert a + b == b;
    } else {
      assert (a + b)[1..] == a[1..] + b;
      WithoutAppend(a[1..], b, id);
    }
  }

  lemma {:induction false} BumpIsOthers(q: Queue, id: int, m: string)
    requires id !in Ids(q)
    ensures Bump(q, id, m) == q
  {
    if q != [] {
      forall x | x in Ids(q[1..]) ensures x in Ids(q) {
        var i :| 0 <= i < |q[1..]| && q[1..][i].id == x;
        assert q[i + 1].id == x;
      }
      assert q[0].id in Ids(q);
      BumpIsOthers(q[1..], id, m);
    }
  }

  lemma {:induction false} BumpAppend(a: Queue, b: Queue, id: int, m: string)
    ensures Bump(a + b, id, m) == Bump(a, id, m) + Bump(b, id, m)
  {
    if a == [] {
      assert a + b == b;
    } else {
      assert (a + b)[1..] == a[1..] + b;
      BumpAppend(a[1..], b, id, m);
    }
  }

  /** What stays after a removal was there before, in a list without repeated ids still. */
  lemma {:induction false} WithoutKeepsDistinct(q: Queue, id: int)
    requires DistinctIds(q)
    ensures DistinctIds(Without(q, id)) && Ids(Without(q, id)) <= Ids(q)
  {
    if q != [] {
      WithoutKeepsDistinct(q[1..], id);
      HeadOutside(q);
      if q[0].id != id { ConsDistinct(q[0], Without(q[1..], id)); }
    }
  }

  /** The same of a pass. */
  lemma {:induction false} PassKeepsDistinct(q: Queue, o: Oracle)
    requires DistinctIds(q)
    ensures DistinctIds(Pass(q, o)) && Ids(Pass(q, o)) <= Ids(q)
  {
    if q != [] {
      PassKeepsDistinct(q[1..], o);
      HeadOutside(q);
      if !Eligible(q[0]) {
        ConsDistinct(q[0], Pass(q[1..], o));
      } else if !o(q[0].id).Sent? {
        ConsDistinct(Bumped(q[0], o(q[0].id).message), q[1..]);
      }
    }
  }

  lemma HeadOutside(q: Queue)
    requires q != [] && DistinctIds(q)
    ensures DistinctIds(q[1..]) && q[0].id !in Ids(q[1..]) && Ids(q) == {q[0].id} + Ids(q[1..])
  {
    assert q == [q[0]] + q[1..];
    IdsCons(q[0], q[1..]);
  }

  lemma IdsCons(it: Item, q: Queue)
    ensures Ids([it] + q) == {it.id} + Ids(q)
  {
    var r := [it] + q;
    assert r[0] == it;
    forall x | x in Ids(q) ensures x in Ids(r) {
      var i :| 0 <= i < |q| && q[i].id == x;
      assert r[i + 1].id == x;
    }
  }

  lemma ConsDistinct(it: Item, q: Queue)
    requires DistinctIds(q) && it.id !in Ids(q)
    ensures DistinctIds([it] + q) && Ids([it] + q) == {it.id} + Ids(q)
  {
    IdsCons(it, q);
  }

  lemma MiddleIsAlone(a: Queue, it: Item, b: Queue)
    requires DistinctIds(a + ([it] + b))
    ensures it.id !in Ids(a) && it.id !in Ids(b) && DistinctIds(a + b)
  {
    var q := a + ([it] + b);
    assert q[|a|] == it;
    forall i | 0 <= i < |a| ensures a[i].id != it.id { assert q[i] == a[i]; }
    forall i | 0 <= i < |b| ensures b[i].id != it.id { assert q[|a| + 1 + i] == b[i]; }
    forall i, j | 0 <= i < j < |a + b| ensures (a + b)[i].id != (a + b)[j].id {
      assert (a + b)[i] == q[if i < |a| then i else i + 1];
      assert (a + b)[j] == q[if j < |a| then j else j + 1];
    }
  }

  lemma WithoutMiddle(a: Queue, it: Item, b: Queue)
    requires DistinctIds(a + ([it] + b))
    ensures Without(a + ([it] + b), it.id) == a + b && DistinctIds(a + b)
  {
    MiddleIsAlone(a, it, b);
    WithoutAppend(a, [it] + b, it.id);
    WithoutIsOthers(a, it.id);
    WithoutIsOthers(b, it.id);
    assert ([it] + b)[1..] == b;
  }

  lemma BumpMiddle(a: Queue, it: Item, b: Queue, m: string)
    requires DistinctIds(a + ([it] + b))
    ensures Bump(a + ([it] + b), it.id, m) == a + ([Bumped(it, m)] + b)
  {
    MiddleIsAlone(a, it, b);
    BumpAppend(a, [it] + b, it.id, m);
    BumpIsOthers(a, it.id, m);
    BumpIsOthers(b, it.id, m);
    assert ([it] + b)[1..] == b;
  }

  // ---------- what a pass does to each item ----------

  predicate FailsAt(q: Queue, o: Oracle, i: int)
    requires 0 <= i < |q|
  {
    q[i].attempts < 5 && !o(q[i].id).Sent?
  }

  /** The first item that is tried and not sent is the f-th, or there is none. */
  ghost predicate FirstFailure(q: Queue, o: Oracle, f: int) {
    && 0 <= f <= |q|
    && (forall i | 0 <= i < f :: !FailsAt(q, o, i))
    && (f < |q| ==> FailsAt(q, o, f))
  }

  /** The items that have failed five times, in order. */
  function Exhausted(q: Queue): (r: Queue)
    ensures |r| <= |q|
  {
    if q == [] then [] else (if q[0].attempts >= 5 then [q[0]] else []) + Exhausted(q[1..])
  }

  /** The failed item with its failure counted, and all that comes after it. */
  function FromFailure(q: Queue, o: Oracle, f: int): Queue
    requires 0 <= f <= |q| && (f < |q| ==> FailsAt(q, o, f))
  {
    if f == |q| then []
    else [Item(q[f].id, q[f].payload, q[f].attempts + 1, o(q[f].id).message)] + q[f + 1..]
  }

  lemma FailureInTail(q: Queue, o: Oracle, f: int)
    requires f > 0 && FirstFailure(q, o, f)
    ensures FirstFailure(q[1..], o, f - 1) && FromFailure(q[1..], o, f - 1) == FromFailure(q, o, f)
    ensures !FailsAt(q, o, 0)
  {
    forall i | 0 <= i < f - 1 ensures !FailsAt(q[1..], o, i) {
      assert !FailsAt(q, o, i + 1);
    }
    assert f < |q| ==> q[1..][f - 1] == q[f] && q[1..][f - 1 + 1..] == q[f + 1..];
  }

  /** An item that does not fail leaves the list if it is eligible, and stays otherwise. */
  lemma PassSucceeds(q: Queue, o: Oracle, exhausted: Queue, rest: Queue)
    requires q != [] && !FailsAt(q, o, 0) && Pass(q[1..], o) == exhausted + rest
    ensures var stays := if q[0].attempts >= 5 then [q[0]] else [];
            Pass(q, o) == stays + exhausted + rest && Synced(q, o) == Synced(q[1..], o) + 1 - |stays|
  {
    if q[0].attempts >= 5 {
      assert Pass(q, o) == [q[0]] + Pass(q[1..], o);
      Assoc([q[0]], exhausted, rest);
    } else {
      assert o(q[0].id).Sent? && [] + exhausted == exhausted;
    }
  }

  lemma ExhaustedCons(q: Queue, f: int)
    requires 0 < f <= |q|
    ensures Exhausted(q[..f]) == (if q[0].attempts >= 5 then [q[0]] else []) + Exhausted(q[1..][..f - 1])
  {
    assert q[..f][1..] == q[1..][..f - 1];
  }

  lemma PassFailsAtOnce(q: Queue, o: Oracle)
    requires FirstFailure(q, o, 0)
    ensures Pass(q, o) == FromFailure(q, o, 0)
    ensures Synced(q, o) == if q != [] && o(q[0].id).SentButThrew? then 1 else 0
  {
  }

  /** Before the first failure a pass leaves the items that have failed five times and sends
      the others; it counts the failure with its message, and what comes after it stays. */
  lemma {:induction false} PassOutcome(q: Queue, o: Oracle, f: int)
    requires FirstFailure(q, o, f)
    ensures Pass(q, o) == Exhausted(q[..f]) + FromFailure(q, o, f)
    ensures Synced(q, o) == f - |Exhausted(q[..f])| + if f < |q| && o(q[f].id).SentButThrew? then 1 else 0
  {
    if f == 0 {
      PassFailsAtOnce(q, o);
      assert Exhausted([]) + FromFailure(q, o, 0) == FromFailure(q, o, 0);
    } else {
      var r := q[1..];
      FailureInTail(q, o, f);
      PassOutcome(r, o, f - 1);
      PassSucceeds(q, o, Exhausted(r[..f - 1]), FromFailure(r, o, f - 1));
      ExhaustedCons(q, f);
    }
  }

  lemma {:induction false} FindFailure(q: Queue, o: Oracle) returns (f: int)
    ensures FirstFailure(q, o, f)
  {
    if q == [] || FailsAt(q, o, 0) {
      f := 0;
    } else {
      var r := q[1..];
      var g := FindFailure(r, o);
      f := g + 1;
      forall i | 0 <= i < f ensures !FailsAt(q, o, i) {
        if i > 0 { assert !FailsAt(r, o, i - 1); }
      }
      assert f < |q| ==> FailsAt(r, o, g);
    }
  }

  // ---------- progress over passes ----------

  /** Passes run one after another on a queue that nobody else changes. */
  function Passes(q: Queue, os: seq<Oracle>): Queue
    decreases |os|
  {
    if os == [] then q else Passes(Pass(q, os[0]), os[1..])
  }

  /** How many failures the queue can still take before everything left is exhausted. */
  function Left(q: Queue): nat {
    if q == [] then 0
    else (if Eligible(q[0]) then MAX_RETRY_ATTEMPTS - q[0].attempts else 0) + Left(q[1..])
  }

  /** The pass uploads, or tries to upload, the item at place p. */
  ghost predicate Attempts(q: Queue, o: Oracle, p: int) {
    0 <= p < |q| && Eligible(q[p]) && forall i | 0 <= i < p && Eligible(q[i]) :: o(q[i].id).Sent?
  }

  ghost predicate AttemptsId(q: Queue, o: Oracle, id: int) {
    exists p :: Attempts(q, o, p) && q[p].id == id
  }

  lemma AttemptsTail(q: Queue, o: Oracle, p: int)
    requires 0 < p < |q| && Attempts(q[1..], o, p - 1) && (Eligible(q[0]) ==> o(q[0].id).Sent?)
    ensures Attempts(q, o, p)
  {
    forall i | 0 <= i < p && Eligible(q[i]) ensures o(q[i].id).Sent? {
      if i > 0 { assert q[1..][i - 1] == q[i]; }
    }
  }

  /** A pass that does not reach an eligible item keeps it, no further back, and
      leaves fewer failures ahead of it. */
  lemma {:induction false} PassedOver(q: Queue, o: Oracle, p: int) returns (p': int)
    requires 0 <= p < |q| && Eligible(q[p]) && !Attempts(q, o, p)
    ensures 0 <= p' <= p && p' < |Pass(q, o)| && Pass(q, o)[p'] == q[p]
    ensures Left(Pass(q, o)[..p']) < Left(q[..p])
  {
    assert p > 0;
    assert q[..p][1..] == q[1..][..p - 1];
    if Eligible(q[0]) && !o(q[0].id).Sent? {
      p' := p;
      var m := o(q[0].id).message;
      assert Pass(q, o) == [Bumped(q[0], m)] + q[1..];
      assert ([Bumped(q[0], m)] + q[1..])[..p] == [Bumped(q[0], m)] + q[1..][..p - 1];
      assert ([Bumped(q[0], m)] + q[1..][..p - 1])[1..] == q[1..][..p - 1];
    } else {
      if Attempts(q[1..], o, p - 1) { AttemptsTail(q, o, p); }
      var r := PassedOver(q[1..], o, p - 1);
      if Eligible(q[0]) {
        p' := r;
      } else {
        p' := r + 1;
        var rest := Pass(q[1..], o);
        assert ([q[0]] + rest)[..r + 1] == [q[0]] + rest[..r];
        assert ([q[0]] + rest[..r])[1..] == rest[..r];
      }
    }
  }

  /** An eligible item is attempted within one pass more than the failures that the
      items ahead of it can still take. */
  lemma {:induction false} AttemptedWithin(q: Queue, os: seq<Oracle>, p: int) returns (n: int)
    requires 0 <= p < |q| && Eligible(q[p]) && |os| > Left(q[..p])
    ensures 0 <= n <= Left(q[..p]) && AttemptsId(Passes(q, os[..n]), os[n], q[p].id)
    decreases |os|
  {
    if Attempts(q, os[0], p) {
      n := 0;
      assert AttemptsId(q, os[0], q[p].id);
    } else {
      var p' := PassedOver(q, os[0], p);
      var m := AttemptedWithin(Pass(q, os[0]), os[1..], p');
      n := m + 1;
      assert os[..n][1..] == os[1..][..m] && os[..n][0] == os[0] && os[n] == os[1..][m];
    }
  }

  lemma {:induction false} LeftIsBounded(q: Queue)
    ensures Left(q) <= MAX_RETRY_ATTEMPTS * |q|
  {
    if q != [] {
      LeftIsBounded(q[1..]);
    }
  }

  /** With p items ahead of it, an eligible item is attempted within 5p + 1 passes,
      whatever the network does. */
  lemma NobodyStarves(q: Queue, os: seq<Oracle>, p: int)
    requires 0 <= p < |q| && q[p].attempts < 5 && |os| >= 5 * p + 1
    ensures exists n :: 0 <= n <= 5 * p && AttemptsId(Passes(q, os[..n]), os[n], q[p].id)
  {
    LeftIsBounded(q[..p]);
    var n := AttemptedWithin(q, os, p);
  }

  /** Every pass that meets an eligible item uses up a failure or sends an item. */
  lemma {:induction false} PassUsesUp(q: Queue, o: Oracle)
    ensures Left(q) == 0 ==> Pass(q, o) == q
    ensures Left(q) > 0 ==> Left(Pass(q, o)) < Left(q)
  {
    if q != [] {
      PassUsesUp(q[1..], o);
      if !Eligible(q[0]) {
        assert ([q[0]] + Pass(q[1..], o))[1..] == Pass(q[1..], o);
      } else if !o(q[0].id).Sent? {
        var m := o(q[0].id).message;
        assert ([Bumped(q[0], m)] + q[1..])[1..] == q[1..];
      }
    }
  }

  /** After that many passes nothing is left to try: what remains is exhausted. */
  lemma {:induction false} EventuallyNothingToTry(q: Queue, os: seq<Oracle>)
    requires |os| >= Left(q)
    ensures forall it | it in Passes(q, os) :: !Eligible(it)
    decreases |os|
  {
    if os == [] {
      NothingLeft(q);
    } else {
      PassUsesUp(q, os[0]);
      EventuallyNothingToTry(Pass(q, os[0]), os[1..]);
    }
  }

  lemma {:induction false} NothingLeft(q: Queue)
    requires Left(q) == 0
    ensures forall it | it in q :: !Eligible(it)
  {
    if q != [] {
      NothingLeft(q[1..]);
      assert q == [q[0]] + q[1..];
    }
  }
}
