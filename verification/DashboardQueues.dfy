/** The operational queues of backend/app/api/v1/dashboard.py: loads in order of priority,
    counted by queue, with the first few of each queue as examples. */
module DashboardQueues {
  import opened Text

  /** A load with its queue and its priority. */
  datatype Entry<Q> = Entry(load: int, queue: Q, priority: int)

  const MAX_EXAMPLES := 5

  // ---------- the order ----------

  /** Put an entry that came first before those of no higher priority. */
  function Insert<Q>(e: Entry<Q>, sorted: seq<Entry<Q>>): seq<Entry<Q>> {
    if sorted == [] || sorted[0].priority <= e.priority then [e] + sorted
    else [sorted[0]] + Insert(e, sorted[1..])
  }

  /** `sorted` by priority, highest first; it keeps the order of equals. */
  function Prioritized<Q>(es: seq<Entry<Q>>): seq<Entry<Q>> {
    if es == [] then [] else Insert(es[0], Prioritized(es[1..]))
  }

  function OfPriority<Q>(es: seq<Entry<Q>>, p: int): (r: seq<Entry<Q>>)
    ensures |r| <= |es|
  {
    if es == [] then [] else (if es[0].priority == p then [es[0]] else []) + OfPriority(es[1..], p)
  }

  function InQueue<Q(==)>(es: seq<Entry<Q>>, q: Q): (r: seq<Entry<Q>>)
    ensures |r| <= |es|
  {
    if es == [] then [] else (if es[0].queue == q then [es[0]] else []) + InQueue(es[1..], q)
  }

  ghost predicate Descending<Q(!new)>(es: seq<Entry<Q>>) {
    forall i, j | 0 <= i < j < |es| :: es[i].priority >= es[j].priority
  }

  /** r has the entries of es, highest priority first and equals in their order. */
  ghost predicate IsStableOrder<Q(!new)>(es: seq<Entry<Q>>, r: seq<Entry<Q>>) {
    Descending(r) && forall p: int :: OfPriority(r, p) == OfPriority(es, p)
  }

  lemma {:induction false} InsertDescends<Q(!new)>(e: Entry<Q>, sorted: seq<Entry<Q>>)
    requires Descending(sorted)
    ensures Descending(Insert(e, sorted)) && |Insert(e, sorted)| == |sorted| + 1
    ensures Insert(e, sorted)[0].priority ==
              if sorted == [] || sorted[0].priority <= e.priority then e.priority else sorted[0].priority
  {
    if sorted == [] || sorted[0].priority <= e.priority {
      DescendingFrom(e, sorted);
    } else {
      InsertDescends(e, sorted[1..]);
      DescendingFrom(sorted[0], Insert(e, sorted[1..]));
    }
  }

  lemma OfPriorityCons<Q>(e: Entry<Q>, es: seq<Entry<Q>>, p: int)
    ensures OfPriority([e] + es, p) == (if e.priority == p then [e] else []) + OfPriority(es, p)
  {
    assert ([e] + es)[1..] == es;
  }

  lemma Swap<T>(a: seq<T>, b: seq<T>, c: seq<T>)
    requires a == [] || b == []
    ensures a + (b + c) == b + (a + c)
  {
    assert [] + (a + c) == a + c && [] + (b + c) == b + c && [] + c == c;
  }

  lemma {:induction false} InsertIsStable<Q>(e: Entry<Q>, sorted: seq<Entry<Q>>, p: int)
    ensures OfPriority(Insert(e, sorted), p) == OfPriority([e] + sorted, p)
  {
    if sorted != [] && sorted[0].priority > e.priority {
      var first, rest := sorted[0], sorted[1..];
      InsertIsStable(e, rest, p);
      OfPriorityCons(first, Insert(e, rest), p);
      OfPriorityCons(e, rest, p);
      OfPriorityCons(e, sorted, p);
      Swap(if first.priority == p then [first] else [], if e.priority == p then [e] else [], OfPriority(rest, p));
    }
  }

  lemma DescendingFrom<Q(!new)>(first: Entry<Q>, rest: seq<Entry<Q>>)
    requires Descending(rest) && (rest != [] ==> first.priority >= rest[0].priority)
    ensures Descending([first] + rest)
  {
  }

  lemma {:induction false} PrioritizedIsStable<Q(!new)>(es: seq<Entry<Q>>)
    ensures IsStableOrder(es, Prioritized(es)) && |Prioritized(es)| == |es|
  {
    if es != [] {
      PrioritizedIsStable(es[1..]);
      var rest := Prioritized(es[1..]);
      InsertDescends(es[0], rest);
      forall p: int ensures OfPriority(Prioritized(es), p) == OfPriority(es, p) {
        InsertIsStable(es[0], rest, p);
        OfPriorityCons(es[0], rest, p);
      }
    }
  }

  lemma {:induction false} OfPriorityMember<Q(!new)>(es: seq<Entry<Q>>, p: int, i: int)
    requires 0 <= i < |OfPriority(es, p)|
    ensures exists j: int :: 0 <= j < |es| && es[j].priority == p && es[j] == OfPriority(es, p)[i]
  {
    if es[0].priority == p && i == 0 {
      assert es[0] == OfPriority(es, p)[0];
    } else {
      var k := if es[0].priority == p then i - 1 else i;
      OfPriorityMember(es[1..], p, k);
      var j: int :| 0 <= j < |es[1..]| && es[1..][j].priority == p && es[1..][j] == OfPriority(es[1..], p)[k];
      assert es[j + 1] == OfPriority(es, p)[i];
    }
  }

  lemma TopAtLeast<Q(!new)>(a: seq<Entry<Q>>, b: seq<Entry<Q>>)
    requires a != [] && Descending(b) && OfPriority(a, a[0].priority) == OfPriority(b, a[0].priority)
    ensures b != [] && b[0].priority >= a[0].priority
  {
    OfPriorityMember(b, a[0].priority, 0);
  }

  lemma OfPriorityTail<Q(!new)>(es: seq<Entry<Q>>, p: int)
    requires es != []
    ensures OfPriority(es[1..], p) == if es[0].priority == p then OfPriority(es, p)[1..] else OfPriority(es, p)
  {
  }

  /** A stable order is unique. */
  lemma {:induction false} StableOrderIsUnique<Q(!new)>(a: seq<Entry<Q>>, b: seq<Entry<Q>>)
    requires Descending(a) && Descending(b) && forall p: int :: OfPriority(a, p) == OfPriority(b, p)
    ensures a == b
  {
    if a == [] {
      if b != [] { TopAtLeast(b, a); }
    } else {
      TopAtLeast(a, b);
      TopAtLeast(b, a);
      var p := a[0].priority;
      assert OfPriority(a, p)[0] == a[0] && OfPriority(b, p)[0] == b[0];
      forall q: int ensures OfPriority(a[1..], q) == OfPriority(b[1..], q) {
        assert OfPriority(a, q) == OfPriority(b, q);
        OfPriorityTail(a, q);
        OfPriorityTail(b, q);
      }
      StableOrderIsUnique(a[1..], b[1..]);
    }
  }

  lemma {:induction false} QueueOfPriority<Q(!new)>(es: seq<Entry<Q>>, q: Q, p: int)
    ensures OfPriority(InQueue(es, q), p) == InQueue(OfPriority(es, p), q)
  {
    if es != [] {
      QueueOfPriority(es[1..], q, p);
      var e, queued, ranked := es[0], InQueue(es[1..], q), OfPriority(es[1..], p);
      assert ([e] + queued)[1..] == queued && ([e] + ranked)[1..] == ranked;
      assert [] + queued == queued && [] + ranked == ranked;
      assert [] + OfPriority(queued, p) == OfPriority(queued, p) && [] + InQueue(ranked, q) == InQueue(ranked, q);
    }
  }

  lemma {:induction false} QueueDescending<Q(!new)>(es: seq<Entry<Q>>, q: Q)
    requires Descending(es)
    ensures Descending(InQueue(es, q))
    ensures InQueue(es, q) != [] ==> InQueue(es, q)[0].priority <= es[0].priority
  {
    if es != [] {
      QueueDescending(es[1..], q);
      if es[0].queue == q { DescendingFrom(es[0], InQueue(es[1..], q)); }
    }
  }

  /** Sorting all loads and then picking a queue orders that queue as sorting it alone. */
  lemma QueueOfPrioritized<Q(!new)>(es: seq<Entry<Q>>, q: Q)
    ensures InQueue(Prioritized(es), q) == Prioritized(InQueue(es, q))
    ensures |InQueue(Prioritized(es), q)| == |InQueue(es, q)|
  {
    var a, b := InQueue(Prioritized(es), q), Prioritized(InQueue(es, q));
    PrioritizedIsStable(es);
    PrioritizedIsStable(InQueue(es, q));
    QueueDescending(Prioritized(es), q);
    forall p: int ensures OfPriority(a, p) == OfPriority(b, p) {
      QueueOfPriority(Prioritized(es), q, p);
      QueueOfPriority(es, q, p);
      assert OfPriority(Prioritized(es), p) == OfPriority(es, p);
    }
    StableOrderIsUnique(a, b);
  }

  // ---------- the sum of a table ----------

  ghost function Total<K(!new)>(m: map<K, int>): int
    decreases |m|
  {
    if m == map[] then 0
    else
      var k :| k in m;
      m[k] + Total(m - {k})
  }

  lemma {:induction false} TotalWithout<K(!new)>(m: map<K, int>, k: K)
    requires k in m
    ensures Total(m) == m[k] + Total(m - {k})
    decreases |m|
  {
    var first :| first in m && Total(m) == m[first] + Total(m - {first});
    if first != k {
      assert |m - {first}| < |m| && |m - {k}| < |m| by { Smaller(m, first); Smaller(m, k); }
      TotalWithout(m - {first}, k);
      TotalWithout(m - {k}, first);
      assert m - {first} - {k} == m - {k} - {first};
    }
  }

  lemma Smaller<K>(m: map<K, int>, k: K)
    requires k in m
    ensures |m - {k}| == |m| - 1
  {
    assert (m - {k}).Keys == m.Keys - {k};
  }

  function Get<K(==)>(m: map<K, int>, k: K): int {
    if k in m then m[k] else 0
  }

  lemma TotalAfter<K(!new)>(m: map<K, int>, k: K, v: int)
    ensures Total(m[k := v]) == Total(m) - Get(m, k) + v
  {
    TotalWithout(m[k := v], k);
    if k in m {
      TotalWithout(m, k);
      assert m[k := v] - {k} == m - {k};
    } else {
      assert m[k := v] - {k} == m;
    }
  }

  // ---------- the loop ----------

  /** The first five of a list, or all of it. */
  function Top<Q>(es: seq<Entry<Q>>): (r: seq<Entry<Q>>)
    ensures r <= es && |r| == if |es| < 5 then |es| else 5
  {
    if |es| < MAX_EXAMPLES then es else es[..MAX_EXAMPLES]
  }

  lemma TopSnoc<Q(!new)>(es: seq<Entry<Q>>, e: Entry<Q>)
    ensures Top(es + [e]) == if |Top(es)| < MAX_EXAMPLES then Top(es) + [e] else Top(es)
  {
  }

  /** What the loop knows of the loads it has seen. */
  ghost predicate Counted<Q(!new)>(counts: map<Q, int>, seen: seq<Entry<Q>>) {
    && (forall q | q in counts :: counts[q] == |InQueue(seen, q)| > 0)
    && (forall q | q !in counts :: InQueue(seen, q) == [])
    && Total(counts) == |seen|
  }

  ghost predicate Exemplified<Q(!new)>(none: Q, examples: map<Q, seq<Entry<Q>>>, seen: seq<Entry<Q>>) {
    && (forall q | q in examples :: q != none && InQueue(seen, q) != [] && examples[q] == Top(InQueue(seen, q)))
    && (forall q | q !in examples && q != none :: InQueue(seen, q) == [])
  }

  lemma {:induction false} InQueueSnoc<Q(!new)>(es: seq<Entry<Q>>, e: Entry<Q>, q: Q)
    ensures InQueue(es + [e], q) == InQueue(es, q) + if e.queue == q then [e] else []
  {
    if es == [] {
      assert [] + [e] == [e] && [e][1..] == [];
    } else {
      assert (es + [e])[1..] == es[1..] + [e];
      InQueueSnoc(es[1..], e, q);
      Assoc(if es[0].queue == q then [es[0]] else [], InQueue(es[1..], q), if e.queue == q then [e] else []);
    }
  }

  lemma CountNext<Q(!new)>(counts: map<Q, int>, seen: seq<Entry<Q>>, e: Entry<Q>)
    requires Counted(counts, seen)
    ensures Counted(counts[e.queue := Get(counts, e.queue) + 1], seen + [e])
  {
    var name := e.queue;
    TotalAfter(counts, name, Get(counts, name) + 1);
    forall q ensures InQueue(seen + [e], q) == InQueue(seen, q) + if name == q then [e] else [] {
      InQueueSnoc(seen, e, q);
    }
  }

  /** A load is added to its queue's examples while they are fewer than five. */
  function ExamplesAfter<Q(==)>(none: Q, examples: map<Q, seq<Entry<Q>>>, e: Entry<Q>): map<Q, seq<Entry<Q>>> {
    var shown := if e.queue in examples then examples[e.queue] else [];
    if e.queue != none && |shown| < MAX_EXAMPLES then examples[e.queue := shown + [e]] else examples
  }

  lemma ExampleNext<Q(!new)>(none: Q, examples: map<Q, seq<Entry<Q>>>, seen: seq<Entry<Q>>, e: Entry<Q>)
    requires Exemplified(none, examples, seen)
    ensures Exemplified(none, ExamplesAfter(none, examples, e), seen + [e])
  {
    var after, name := ExamplesAfter(none, examples, e), e.queue;
    forall q ensures InQueue(seen + [e], q) == InQueue(seen, q) + if name == q then [e] else [] {
      InQueueSnoc(seen, e, q);
    }
    if name != none {
      TopSnoc(InQueue(seen, name), e);
      assert after[name] == Top(InQueue(seen, name) + [e]);
    }
    forall q | q != name ensures InQueue(seen + [e], q) == InQueue(seen, q) {
    }
  }

  /** The loop has seen the first i loads. */
  ghost predicate Seen<Q(!new)>(none: Q, counts: map<Q, int>, examples: map<Q, seq<Entry<Q>>>, es: seq<Entry<Q>>,
                                i: int)
  {
    0 <= i <= |es| && Counted(counts, es[..i]) && Exemplified(none, examples, es[..i])
  }

  lemma SeeNone<Q(!new)>(none: Q, es: seq<Entry<Q>>)
    ensures Seen(none, map[], map[], es, 0)
  {
    assert es[..0] == [];
  }

  lemma SeeNext<Q(!new)>(none: Q, counts: map<Q, int>, examples: map<Q, seq<Entry<Q>>>, es: seq<Entry<Q>>, i: int)
    requires i < |es| && Seen(none, counts, examples, es, i)
    ensures var e := es[i];
            Seen(none, counts[e.queue := Get(counts, e.queue) + 1], ExamplesAfter(none, examples, e), es, i + 1)
  {
    var e, seen, next := es[i], es[..i], es[..i + 1];
    assert next == seen + [e];
    assert Counted(counts[e.queue := Get(counts, e.queue) + 1], next) by { CountNext(counts, seen, e); }
    assert Exemplified(none, ExamplesAfter(none, examples, e), next) by { ExampleNext(none, examples, seen, e); }
  }

  /** Counts and examples are right for these loads; no examples are kept for `none`. */
  ghost predicate Aggregates<Q(!new)>(none: Q, loads: seq<Entry<Q>>, counts: map<Q, int>,
                                      examples: map<Q, seq<Entry<Q>>>)
  {
    && Total(counts) == |loads|
    && (forall q :: q in counts <==> InQueue(loads, q) != [])
    && (forall q | q in counts :: counts[q] == |InQueue(loads, q)|)
    && (forall q :: q in examples <==> q != none && InQueue(loads, q) != [])
    && (forall q | q in examples :: examples[q] == Top(Prioritized(InQueue(loads, q))))
  }

  lemma InOriginalTerms<Q(!new)>(none: Q, loads: seq<Entry<Q>>, counts: map<Q, int>, examples: map<Q, seq<Entry<Q>>>)
    requires Seen(none, counts, examples, Prioritized(loads), |Prioritized(loads)|)
    ensures Aggregates(none, loads, counts, examples)
  {
    PrioritizedIsStable(loads);
    assert Prioritized(loads)[..|Prioritized(loads)|] == Prioritized(loads);
    forall q
      ensures InQueue(Prioritized(loads), q) == Prioritized(InQueue(loads, q))
      ensures |InQueue(Prioritized(loads), q)| == |InQueue(loads, q)|
    {
      QueueOfPrioritized(loads, q);
    }
  }

  method CountSorted<Q(!new, ==)>(none: Q, prioritized: seq<Entry<Q>>)
    returns (counts: map<Q, int>, examples: map<Q, seq<Entry<Q>>>)
    ensures Seen(none, counts, examples, prioritized, |prioritized|)
  {
    counts, examples := map[], map[];
    SeeNone(none, prioritized);
    for i := 0 to |prioritized|
      invariant Seen(none, counts, examples, prioritized, i)
    {
      SeeNext(none, counts, examples, prioritized, i);
      var name := prioritized[i].queue;
      counts := counts[name := Get(counts, name) + 1];
      examples := ExamplesAfter(none, examples, prioritized[i]);
    }
  }

  method Aggregate<Q(!new, ==)>(none: Q, loads: seq<Entry<Q>>)
    returns (counts: map<Q, int>, examples: map<Q, seq<Entry<Q>>>)
    ensures Aggregates(none, loads, counts, examples)
  {
    counts, examples := CountSorted(none, Prioritized(loads));
    InOriginalTerms(none, loads, counts, examples);
  }

  // ---------- the dashboard ----------

  /** What the queue service may leave out about a load. */
  datatype Evaluation = Evaluation(load: int, queue: Option<string>, priorityScore: Option<int>)

  function ToEntry(e: Evaluation): Entry<string> {
    Entry(e.load,
          if e.queue.Some? && e.queue.value != "" then e.queue.value else "none",
          if e.priorityScore.Some? then e.priorityScore.value else 0)
  }

  /** The loads as they are counted and ranked: without a queue name under "none", without a
      score at 0. */
  predicate AreReadings(evaluated: seq<Evaluation>, loads: seq<Entry<string>>) {
    |loads| == |evaluated| && forall i | 0 <= i < |loads| :: IsReading(evaluated[i], loads[i])
  }

  predicate IsReading(e: Evaluation, load: Entry<string>) {
    && load.load == e.load
    && (e.queue == None || e.queue == Some("") ==> load.queue == "none")
    && (e.queue != None && e.queue != Some("") ==> e.queue == Some(load.queue))
    && (e.priorityScore == None ==> load.priority == 0)
    && (e.priorityScore != None ==> e.priorityScore == Some(load.priority))
  }

  lemma ReadingsAreUnique(evaluated: seq<Evaluation>, loads: seq<Entry<string>>, others: seq<Entry<string>>)
    requires AreReadings(evaluated, loads) && AreReadings(evaluated, others)
    ensures loads == others
  {
    forall i | 0 <= i < |loads| ensures loads[i] == others[i] {
      assert IsReading(evaluated[i], loads[i]) && IsReading(evaluated[i], others[i]);
    }
  }

  /** The queue counts and examples of `get_dashboard`, before one count is replaced:
      the counts add up to the number of loads, and each named queue shows its first
      five loads, or all it has, in the order of priority. */
  method OperationalQueues(evaluated: seq<Evaluation>)
    returns (counts: map<string, int>, examples: map<string, seq<Entry<string>>>)
    ensures exists loads :: AreReadings(evaluated, loads)
    ensures forall loads | AreReadings(evaluated, loads) :: Aggregates("none", loads, counts, examples)
  {
    var read := seq(|evaluated|, i requires 0 <= i < |evaluated| => ToEntry(evaluated[i]));
    counts, examples := Aggregate("none", read);
    assert AreReadings(evaluated, read);
    forall loads | AreReadings(evaluated, loads) ensures Aggregates("none", loads, counts, examples) {
      ReadingsAreUnique(evaluated, read, loads);
    }
  }

  /** With one queue's count replaced by a number from elsewhere, the counts still add up
      to the number of loads exactly when that number is the count it replaces. */
  lemma ReplacedAddsUpIff<Q(!new)>(none: Q, loads: seq<Entry<Q>>, counts: map<Q, int>,
                                   examples: map<Q, seq<Entry<Q>>>, q: Q, n: int)
    requires Aggregates(none, loads, counts, examples)
    ensures Total(counts[q := n]) == |loads| <==> n == |InQueue(loads, q)|
  {
    TotalAfter(counts, q, n);
  }
}
