/** Every writer of the offline upload queue of frontend/src/lib/driver-mobile.ts at
    once: enqueues that wait for a file between their read and their write, removals,
    and passes that wait for the network between items. */
module UploadQueueRuns {
  import opened Text
  import opened UploadQueue

  /** A pass: the items it read at its start, and how far it has come. */
  datatype Walk = Walk(items: Queue, next: nat)

  /** `stored` is the browser's list.  The last four fields record the run: ids ever
      queued, ids removed on request, ids the server accepted, as often as it did, and
      each id's document. */
  datatype Store = Store(
    stored: Queue, readers: map<int, Queue>, passes: map<int, Walk>,
    added: set<int>, removed: set<int>, sent: multiset<int>, payloads: map<int, string>)

  const EMPTY := Store([], map[], map[], {}, {}, multiset{}, map[])

  datatype Step =
    | EnqueueRead(e: int)
    | EnqueueWrite(e: int, id: int, payload: string)
    | EnqueueFails(e: int)
    | RemoveItem(id: int)
    | BeginPass(p: int)
    | PassSkips(p: int)
    | PassSends(p: int)
    | PassFails(p: int, message: string, accepted: bool)
    | EndPass(p: int)

  predicate At(s: Store, p: int) {
    p in s.passes && s.passes[p].next < |s.passes[p].items|
  }

  function Current(s: Store, p: int): Item
    requires At(s, p)
  {
    s.passes[p].items[s.passes[p].next]
  }

  predicate Enabled(s: Store, e: Step) {
    match e
    case EnqueueRead(e) => e !in s.readers
    case EnqueueWrite(e, id, _) => e in s.readers && id !in s.added
    case EnqueueFails(e) => e in s.readers
    case RemoveItem(_) => true
    case BeginPass(p) => p !in s.passes
    case PassSkips(p) => At(s, p) && !Eligible(Current(s, p))
    case PassSends(p) => At(s, p) && Eligible(Current(s, p))
    case PassFails(p, _, _) => At(s, p) && Eligible(Current(s, p))
    case EndPass(p) => p in s.passes && s.passes[p].next >= |s.passes[p].items|
  }

  function Next(s: Store, e: Step): Store
    requires Enabled(s, e)
  {
    match e
    case EnqueueRead(e) =>
      if |s.stored| >= MAX_QUEUE_ITEMS then s else s.(readers := s.readers[e := s.stored])
    case EnqueueWrite(e, id, payload) =>
      s.(stored := Kept([Item(id, payload, 0, "")] + s.readers[e]), readers := s.readers - {e},
         added := s.added + {id}, payloads := s.payloads[id := payload])
    case EnqueueFails(e) => s.(readers := s.readers - {e})
    case RemoveItem(id) => s.(stored := Kept(Without(s.stored, id)), removed := s.removed + {id})
    case BeginPass(p) => s.(passes := s.passes[p := Walk(s.stored, 0)])
    case PassSkips(p) => s.(passes := s.passes[p := Walk(s.passes[p].items, s.passes[p].next + 1)])
    case PassSends(p) =>
      var id := Current(s, p).id;
      s.(stored := Kept(Without(s.stored, id)), sent := s.sent + multiset{id},
         passes := s.passes[p := Walk(s.passes[p].items, s.passes[p].next + 1)])
    case PassFails(p, message, accepted) =>
      var id := Current(s, p).id;
      s.(stored := Kept(Bump(s.stored, id, message)), sent := if accepted then s.sent + multiset{id} else s.sent,
         passes := s.passes - {p})
    case EndPass(p) => s.(passes := s.passes - {p})
  }

  // ---------- what every step keeps ----------

  /** A list of distinct known documents. */
  ghost predicate Sound(q: Queue, payloads: map<int, string>) {
    && DistinctIds(q)
    && forall i | 0 <= i < |q| :: q[i].id in payloads && payloads[q[i].id] == q[i].payload
  }

  ghost predicate Inv(s: Store) {
    && |s.stored| <= MAX_QUEUE_ITEMS && Sound(s.stored, s.payloads)
    && s.added == s.payloads.Keys
    && forall e | e in s.readers :: |s.readers[e]| < MAX_QUEUE_ITEMS && Sound(s.readers[e], s.payloads)
  }

  lemma {:induction false} WithoutSound(q: Queue, id: int, payloads: map<int, string>)
    requires Sound(q, payloads)
    ensures Sound(Without(q, id), payloads)
    ensures forall it :: it in Without(q, id) <==> it in q && it.id != id
  {
    if q != [] {
      var rest := Without(q[1..], id);
      WithoutSound(q[1..], id, payloads);
      assert q == [q[0]] + q[1..];
      forall i | 0 <= i < |rest| ensures rest[i].id != q[0].id {
        assert rest[i] in q[1..];
      }
    }
  }

  lemma {:induction false} BumpSound(q: Queue, id: int, m: string, payloads: map<int, string>)
    requires Sound(q, payloads)
    ensures Sound(Bump(q, id, m), payloads)
    ensures forall i | 0 <= i < |q| :: Bump(q, id, m)[i] == if q[i].id == id then Bumped(q[i], m) else q[i]
  {
    if q != [] {
      BumpSound(q[1..], id, m, payloads);
    }
  }

  lemma WithoutIds(q: Queue, id: int, payloads: map<int, string>)
    requires Sound(q, payloads)
    ensures Ids(Without(q, id)) == Ids(q) - {id}
  {
    WithoutSound(q, id, payloads);
    var r := Without(q, id);
    forall x | x in Ids(q) && x != id ensures x in Ids(r) {
      var i :| 0 <= i < |q| && q[i].id == x;
      assert q[i] in r;
      var j :| 0 <= j < |r| && r[j] == q[i];
      assert r[j].id == x;
    }
    forall x | x in Ids(r) ensures x in Ids(q) && x != id {
      var j :| 0 <= j < |r| && r[j].id == x;
      assert r[j] in r;
      var i :| 0 <= i < |q| && q[i] == r[j];
      assert q[i].id == x;
    }
  }

  lemma BumpIds(q: Queue, id: int, m: string, payloads: map<int, string>)
    requires Sound(q, payloads)
    ensures Ids(Bump(q, id, m)) == Ids(q)
  {
    BumpSound(q, id, m, payloads);
    var r := Bump(q, id, m);
    forall x | x in Ids(q) ensures x in Ids(r) {
      var i :| 0 <= i < |q| && q[i].id == x;
      assert r[i].id == x;
    }
    forall x | x in Ids(r) ensures x in Ids(q) {
      var i :| 0 <= i < |r| && r[i].id == x;
      assert q[i].id == x;
    }
  }

  lemma FrontSound(it: Item, q: Queue, payloads: map<int, string>)
    requires Sound(q, payloads) && it.id !in payloads
    ensures Sound([it] + q, payloads[it.id := it.payload])
    ensures Ids([it] + q) == {it.id} + Ids(q)
  {
    var r := [it] + q;
    forall x | x in Ids(q) ensures x in Ids(r) {
      var i :| 0 <= i < |q| && q[i].id == x;
      assert r[i + 1].id == x;
    }
    assert r[0].id == it.id;
  }

  lemma StepKeepsInv(s: Store, e: Step)
    requires Inv(s) && Enabled(s, e)
    ensures Inv(Next(s, e))
  {
    match e
    case EnqueueWrite(e, id, payload) => FrontSound(Item(id, payload, 0, ""), s.readers[e], s.payloads);
    case RemoveItem(id) => WithoutSound(s.stored, id, s.payloads);
    case PassSends(p) => WithoutSound(s.stored, Current(s, p).id, s.payloads);
    case PassFails(p, m, _) => BumpSound(s.stored, Current(s, p).id, m, s.payloads);
    case _ =>
  }

  /** How a step changes the set of stored ids. */
  lemma IdsAfter(s: Store, e: Step)
    requires Inv(s) && Enabled(s, e)
    ensures Ids(Next(s, e).stored) ==
              match e
              case EnqueueWrite(e, id, _) => {id} + Ids(s.readers[e])
              case RemoveItem(id) => Ids(s.stored) - {id}
              case PassSends(p) => Ids(s.stored) - {Current(s, p).id}
              case _ => Ids(s.stored)
  {
    match e
    case EnqueueWrite(e, id, payload) => FrontSound(Item(id, payload, 0, ""), s.readers[e], s.payloads);
    case RemoveItem(id) => WithoutIds(s.stored, id, s.payloads);
    case PassSends(p) => WithoutIds(s.stored, Current(s, p).id, s.payloads);
    case PassFails(p, m, _) => BumpIds(s.stored, Current(s, p).id, m, s.payloads);
    case _ =>
  }

  /** An enqueue starts unless twelve items are stored, and stores its document before all
      those it has read; a pass takes the items as they are stored when it begins. */
  lemma NewestComesFirst(s: Store, e: Step)
    requires Inv(s) && Enabled(s, e)
    ensures e.EnqueueRead? ==>
              Next(s, e) == if |s.stored| >= 12 then s else s.(readers := s.readers[e.e := s.stored])
    ensures e.EnqueueWrite? ==> Next(s, e).stored == [Item(e.id, e.payload, 0, "")] + s.readers[e.e]
    ensures e.BeginPass? ==> Next(s, e) == s.(passes := s.passes[e.p := Walk(s.stored, 0)])
  {
    match e
    case EnqueueWrite(r, _, _) => assert |s.readers[r]| < 12;
    case _ =>
  }

  /** The ids that the server has accepted at least once. */
  function Accepted(s: Store): set<int> {
    set id | id in s.sent
  }

  /** Every id accounted for: still stored, removed on request, or accepted. */
  function Accounted(s: Store): set<int> {
    Ids(s.stored) + s.removed + Accepted(s)
  }

  /** A step loses no stored document exactly when it is not an enqueue that overwrites
      one which was not in the list it had read. */
  lemma LosesNothingIff(s: Store, e: Step)
    requires Inv(s) && Enabled(s, e)
    ensures Ids(s.stored) <= Accounted(Next(s, e)) <==>
              !(e.EnqueueWrite? && !(Ids(s.stored) <= Ids(s.readers[e.e]) + s.removed + Accepted(s)))
  {
    IdsAfter(s, e);
    if e.EnqueueWrite? { KnownIds(s.stored, s.payloads); }
  }

  lemma KnownIds(q: Queue, payloads: map<int, string>)
    requires Sound(q, payloads)
    ensures Ids(q) <= payloads.Keys
  {
    forall x | x in Ids(q) ensures x in payloads {
      var i :| 0 <= i < |q| && q[i].id == x;
    }
  }

  /** A step brings no document back exactly when it is not an enqueue whose list still
      holds one that has left since. */
  lemma BringsNothingBackIff(s: Store, e: Step)
    requires Inv(s) && Enabled(s, e)
    ensures Ids(Next(s, e).stored) <= Ids(s.stored) + (if e.EnqueueWrite? then {e.id} else {}) <==>
              !(e.EnqueueWrite? && !(Ids(s.readers[e.e]) <= Ids(s.stored)))
  {
    IdsAfter(s, e);
    if e.EnqueueWrite? { KnownIds(s.readers[e.e], s.payloads); }
  }

  /** What a pass writes after an await changes its own item alone: whatever other
      writers did to the rest of the list meanwhile stays, in its order. */
  lemma PassKeepsOthers(s: Store, e: Step)
    requires Inv(s) && Enabled(s, e) && (e.PassSends? || e.PassFails?)
    ensures var id, after := Current(s, e.p).id, Next(s, e).stored;
            && (forall it: Item | it.id != id :: it in after <==> it in s.stored)
            && (e.PassSends? ==> after == Without(s.stored, id))
            && (e.PassFails? ==> |after| == |s.stored| && forall i | 0 <= i < |after| ::
                  after[i] == if s.stored[i].id != id then s.stored[i]
                              else Item(id, s.stored[i].payload, s.stored[i].attempts + 1, e.message))
  {
    var id := Current(s, e.p).id;
    if e.PassSends? {
      WithoutSound(s.stored, id, s.payloads);
    } else {
      BumpSound(s.stored, id, e.message, s.payloads);
      var after := Bump(s.stored, id, e.message);
      forall it: Item | it.id != id ensures it in after <==> it in s.stored {
        if it in s.stored { var i :| 0 <= i < |s.stored| && s.stored[i] == it; assert after[i] == it; }
        if it in after { var i :| 0 <= i < |after| && after[i] == it; assert s.stored[i] == it; }
      }
    }
  }

  // ---------- whole runs ----------

  /** The run `t` of enabled steps leads from store a to store b. */
  ghost predicate Leads(a: Store, t: seq<Step>, b: Store)
    decreases |t|
  {
    if t == [] then b == a else Enabled(a, t[0]) && Leads(Next(a, t[0]), t[1..], b)
  }

  /** An enqueue writes against the list it read. */
  predicate FreshWrite(s: Store, e: Step) {
    e.EnqueueWrite? && e.e in s.readers ==> s.readers[e.e] == s.stored
  }

  /** Every enqueue does. */
  ghost predicate WritesAreFresh(a: Store, t: seq<Step>)
    decreases |t|
  {
    t != [] && Enabled(a, t[0]) ==>
      && FreshWrite(a, t[0])
      && WritesAreFresh(Next(a, t[0]), t[1..])
  }

  /** The step is not the start of a second pass, nor an enqueue that writes against a list
      it did not read. */
  predicate Orderly(s: Store, e: Step) {
    (e.BeginPass? ==> s.passes == map[]) && FreshWrite(s, e)
  }

  ghost predicate AllOrderly(a: Store, t: seq<Step>)
    decreases |t|
  {
    t != [] && Enabled(a, t[0]) ==> Orderly(a, t[0]) && AllOrderly(Next(a, t[0]), t[1..])
  }

  lemma {:induction false} RunKeepsInv(a: Store, t: seq<Step>, b: Store)
    requires Inv(a) && Leads(a, t, b)
    ensures Inv(b)
    decreases |t|
  {
    if t != [] {
      StepKeepsInv(a, t[0]);
      RunKeepsInv(Next(a, t[0]), t[1..], b);
    }
  }

  /** In every run at all the list stays within its bound, names no document twice and
      never mixes up a document's content. */
  lemma ListStaysSound(t: seq<Step>, b: Store)
    requires Leads(EMPTY, t, b)
    ensures |b.stored| <= 12
    ensures forall i, j | 0 <= i < j < |b.stored| :: b.stored[i].id != b.stored[j].id
    ensures forall i | 0 <= i < |b.stored| ::
              b.stored[i].id in b.payloads && b.payloads[b.stored[i].id] == b.stored[i].payload
  {
    RunKeepsInv(EMPTY, t, b);
  }

  /** No loss: when every enqueue writes against the list it read, a document that was
      ever queued is stored still, was removed on request, or was accepted. */
  lemma {:induction false} NothingIsLost(a: Store, t: seq<Step>, b: Store)
    requires Inv(a) && a.added <= Accounted(a) && Leads(a, t, b) && WritesAreFresh(a, t)
    ensures b.added <= Accounted(b)
    decreases |t|
  {
    if t != [] {
      StepKeepsInv(a, t[0]);
      IdsAfter(a, t[0]);
      NothingIsLost(Next(a, t[0]), t[1..], b);
    }
  }

  // ---------- a pass on its own ----------

  /** The steps of a pass over q that nobody interrupts, after its beginning. */
  function PassSteps(q: Queue, o: Oracle, p: int): seq<Step> {
    if q == [] then [EndPass(p)]
    else if !Eligible(q[0]) then [PassSkips(p)] + PassSteps(q[1..], o, p)
    else
      match o(q[0].id)
      case Sent => [PassSends(p)] + PassSteps(q[1..], o, p)
      case SentButThrew(m) => [PassFails(p, m, true)]
      case Refused(m) => [PassFails(p, m, false)]
  }

  /** The store while such a pass is before place i, having skipped `done`. */
  ghost predicate Walking(s: Store, p: int, q: Queue, i: int, done: Queue) {
    && 0 <= i <= |q| && p in s.passes && s.passes[p] == Walk(q, i)
    && s.stored == done + q[i..] && DistinctIds(s.stored) && |s.stored| <= MAX_QUEUE_ITEMS
  }

  lemma SkipIsAStep(s: Store, p: int, q: Queue, i: int, done: Queue)
    requires i < |q| && Walking(s, p, q, i, done) && !Eligible(q[i])
    ensures Enabled(s, PassSkips(p)) && Walking(Next(s, PassSkips(p)), p, q, i + 1, done + [q[i]])
  {
    assert done + q[i..] == done + [q[i]] + q[i + 1..];
  }

  lemma SendIsAStep(s: Store, p: int, q: Queue, i: int, done: Queue)
    requires i < |q| && Walking(s, p, q, i, done) && Eligible(q[i])
    ensures Enabled(s, PassSends(p)) && Walking(Next(s, PassSends(p)), p, q, i + 1, done)
  {
    assert q[i..] == [q[i]] + q[i + 1..];
    WithoutMiddle(done, q[i], q[i + 1..]);
  }

  lemma FailIsAStep(s: Store, p: int, q: Queue, i: int, done: Queue, m: string, accepted: bool)
    requires i < |q| && Walking(s, p, q, i, done) && Eligible(q[i])
    ensures Enabled(s, PassFails(p, m, accepted))
    ensures Next(s, PassFails(p, m, accepted)).stored == done + ([Bumped(q[i], m)] + q[i + 1..])
  {
    assert q[i..] == [q[i]] + q[i + 1..];
    BumpMiddle(done, q[i], q[i + 1..], m);
  }

  lemma OneStepOn(s: Store, e: Step, t: seq<Step>, b: Store)
    requires Enabled(s, e) && Leads(Next(s, e), t, b)
    ensures Leads(s, [e] + t, b)
  {
    assert ([e] + t)[1..] == t;
  }

  lemma {:induction false} RestIsARun(s: Store, p: int, q: Queue, i: int, done: Queue, o: Oracle) returns (b: Store)
    requires Walking(s, p, q, i, done)
    ensures Leads(s, PassSteps(q[i..], o, p), b) && b.stored == done + Pass(q[i..], o)
    decreases |q| - i
  {
    if i == |q| {
      b := Next(s, EndPass(p));
      OneStepOn(s, EndPass(p), [], b);
      assert [EndPass(p)] + [] == [EndPass(p)];
      return;
    }
    var it, rest := q[i], q[i + 1..];
    assert q[i..][0] == it && q[i..][1..] == rest;
    if !Eligible(it) {
      SkipIsAStep(s, p, q, i, done);
      b := RestIsARun(Next(s, PassSkips(p)), p, q, i + 1, done + [it], o);
      OneStepOn(s, PassSkips(p), PassSteps(rest, o, p), b);
      Assoc(done, [it], Pass(rest, o));
    } else if o(it.id).Sent? {
      SendIsAStep(s, p, q, i, done);
      b := RestIsARun(Next(s, PassSends(p)), p, q, i + 1, done, o);
      OneStepOn(s, PassSends(p), PassSteps(rest, o, p), b);
    } else {
      var e := PassFails(p, o(it.id).message, o(it.id).SentButThrew?);
      FailIsAStep(s, p, q, i, done, e.message, e.accepted);
      b := Next(s, e);
      OneStepOn(s, e, [], b);
      assert [e] + [] == [e];
    }
  }

  /** A pass that nobody interrupts makes of the list what its steps make of it, one by one. */
  lemma PassIsARun(s: Store, p: int, o: Oracle) returns (b: Store)
    requires Inv(s) && p !in s.passes
    ensures Leads(s, [BeginPass(p)] + PassSteps(s.stored, o, p), b) && b.stored == Pass(s.stored, o)
  {
    var s1 := Next(s, BeginPass(p));
    assert [] + s.stored[0..] == s.stored;
    b := RestIsARun(s1, p, s.stored, 0, [], o);
    assert s.stored[0..] == s.stored && [] + Pass(s.stored, o) == Pass(s.stored, o);
    OneStepOn(s, BeginPass(p), PassSteps(s.stored, o, p), b);
  }

  // ---------- runs that break the rules ----------

  lemma {:induction false} Extend(a: Store, t: seq<Step>, b: Store, e: Step, c: Store)
    requires Leads(a, t, b) && Enabled(b, e) && Next(b, e) == c
    ensures Leads(a, t + [e], c)
    ensures AllOrderly(a, t) && Orderly(b, e) ==> AllOrderly(a, t + [e])
    decreases |t|
  {
    if t == [] {
      assert [e][1..] == [];
    } else {
      assert (t + [e])[1..] == t[1..] + [e];
      Extend(Next(a, t[0]), t[1..], b, e, c);
    }
  }

  lemma BothRead() returns (t: seq<Step>, b: Store)
    ensures Leads(EMPTY, t, b) && b == EMPTY.(readers := map[0 := [], 1 := []])
  {
    var s1 := EMPTY.(readers := map[0 := []]);
    Extend(EMPTY, [], EMPTY, EnqueueRead(0), s1);
    t, b := [] + [EnqueueRead(0)] + [EnqueueRead(1)], EMPTY.(readers := map[0 := [], 1 := []]);
    Extend(EMPTY, [] + [EnqueueRead(0)], s1, EnqueueRead(1), b);
  }

  /** Two enqueues that both read before either writes lose the first document. */
  lemma StaleEnqueueLoses()
    ensures exists t: seq<Step>, b: Store :: Leads(EMPTY, t, b) && !(b.added <= Accounted(b))
  {
    var t, s := BothRead();
    var first, second := EnqueueWrite(0, 10, "a"), EnqueueWrite(1, 11, "b");
    var s1 := s.(stored := [Item(10, "a", 0, "")], readers := map[1 := []], added := {10}, payloads := map[10 := "a"]);
    Extend(EMPTY, t, s, first, s1);
    var s2 := Next(s1, second);
    Extend(EMPTY, t + [first], s1, second, s2);
    assert s2.stored == [Item(11, "b", 0, "")] && 10 !in Accounted(s2) && 10 in s2.added;
  }

  lemma OneStored() returns (t: seq<Step>, b: Store)
    ensures Leads(EMPTY, t, b) && AllOrderly(EMPTY, t)
    ensures b == EMPTY.(stored := [Item(10, "a", 0, "")], added := {10}, payloads := map[10 := "a"])
  {
    var s1 := EMPTY.(readers := map[0 := []]);
    Extend(EMPTY, [], EMPTY, EnqueueRead(0), s1);
    b := EMPTY.(stored := [Item(10, "a", 0, "")], added := {10}, payloads := map[10 := "a"]);
    t := [] + [EnqueueRead(0)] + [EnqueueWrite(0, 10, "a")];
    Extend(EMPTY, [] + [EnqueueRead(0)], s1, EnqueueWrite(0, 10, "a"), b);
  }

  /** An enqueue that read before a removal and writes after it brings the document back. */
  lemma StaleEnqueueBringsBack()
    ensures exists t: seq<Step>, b: Store, id: int :: Leads(EMPTY, t, b) && id in b.removed && id in Ids(b.stored)
  {
    var t, s := OneStored();
    var q := s.stored;
    var s1 := s.(readers := map[1 := q]);
    Extend(EMPTY, t, s, EnqueueRead(1), s1);
    var s2 := s1.(stored := [], removed := {10});
    assert Without(q, 10) == [] by { assert q[1..] == []; }
    Extend(EMPTY, t + [EnqueueRead(1)], s1, RemoveItem(10), s2);
    var s3 := Next(s2, EnqueueWrite(1, 11, "b"));
    Extend(EMPTY, t + [EnqueueRead(1)] + [RemoveItem(10)], s2, EnqueueWrite(1, 11, "b"), s3);
    assert s3.stored == [Item(11, "b", 0, "")] + q && s3.stored[1].id == 10;
  }
}
