/** Sales requests under backend/app/api/v1/demo_requests.py: a table that answers a
    repeated request with the one on file and stores, for each client address, only so
    many requests per window. */
module DemoRequests {
  import opened Text
  import opened Counting

  /** Instants are counted in microseconds, the resolution of the stored timestamps. */
  const SECOND := 1000000

  datatype Config = Config(duplicateSeconds: int, windowSeconds: int, maxPerIp: int)

  predicate ValidConfig(c: Config) {
    60 <= c.duplicateSeconds <= 86400 && 60 <= c.windowSeconds <= 86400 && 1 <= c.maxPerIp <= 100
  }

  /** A client address, where one is known, is never empty. */
  type Ip = s: string | s != "" witness "0"

  datatype Person = Person(fullName: string, email: string, company: string)

  datatype Row = Row(at: int, who: Person, ip: Option<Ip>, status: string)

  type Table = seq<Row>

  datatype Event =
    | Submit(now: int, who: Person, ip: Option<Ip>)
    | SetStatus(id: int, status: string)

  datatype Answer = Stored(id: int) | Duplicate(id: int) | TooMany

  // ---------- one request ----------

  predicate SameRequest(a: Person, b: Person) {
    a.fullName == b.fullName && Lower(a.email) == Lower(b.email) && Lower(a.company) == Lower(b.company)
  }

  /** The addresses agree, or one of them is unknown. */
  predicate Meet(a: Option<Ip>, b: Option<Ip>) {
    a.None? || b.None? || a == b
  }

  /** The row is selected by `_find_recent_duplicate`. */
  predicate Repeats(r: Row, who: Person, ip: Option<Ip>, cutoff: int) {
    && r.at >= cutoff
    && SameRequest(r.who, who)
    && (ip.Some? ==> r.ip == ip || r.ip.None?)
  }

  function FindRepeat(rows: Table, who: Person, ip: Option<Ip>, cutoff: int): (r: Option<int>)
    ensures r.Some? ==> 0 <= r.value < |rows| && Repeats(rows[r.value], who, ip, cutoff)
    ensures forall i | 0 <= i < |rows| && Repeats(rows[i], who, ip, cutoff) :: r.Some? && i <= r.value
  {
    if rows == [] then None
    else if Repeats(rows[|rows| - 1], who, ip, cutoff) then Some(|rows| - 1)
    else FindRepeat(rows[..|rows| - 1], who, ip, cutoff)
  }

  /** The rows that the rate limit counts. */
  function Recent(rows: Table, ip: Option<Ip>, cutoff: int): set<int> {
    set i | 0 <= i < |rows| && rows[i].ip == ip && rows[i].at >= cutoff
  }

  predicate OverLimit(rows: Table, c: Config, now: int, ip: Option<Ip>) {
    ip.Some? && |Recent(rows, ip, now - c.windowSeconds * SECOND)| >= c.maxPerIp
  }

  function Decide(rows: Table, c: Config, now: int, who: Person, ip: Option<Ip>): Answer {
    var duplicate := FindRepeat(rows, who, ip, now - c.duplicateSeconds * SECOND);
    if duplicate.Some? then Duplicate(duplicate.value)
    else if OverLimit(rows, c, now, ip) then TooMany
    else Stored(|rows|)
  }

  function NewRow(now: int, who: Person, ip: Option<Ip>): Row {
    Row(now, who.(email := Lower(who.email)), ip, "new")
  }

  // ---------- statuses ----------

  const STATUSES := {"new", "contacted", "scheduled", "converted", "lost"}

  function Clean(status: string): string {
    Lower(Strip(status))
  }

  predicate Accepted(status: string) {
    Clean(status) in STATUSES || Clean(status) == "closed"
  }

  /** `normalize_demo_request_status`. */
  function Normal(status: string): string {
    if Clean(status) == "closed" then "lost" else Clean(status)
  }

  function Next(rows: Table, c: Config, e: Event): Table {
    match e
    case Submit(now, who, ip) =>
      if Decide(rows, c, now, who, ip).Stored? then rows + [NewRow(now, who, ip)] else rows
    case SetStatus(id, status) =>
      if 0 <= id < |rows| && Accepted(status) then rows[id := rows[id].(status := Normal(status))] else rows
  }

  class DemoRequestTable {
    const config: Config
    var rows: Table

    constructor (config: Config)
      ensures this.config == config && rows == []
    {
      this.config := config;
      rows := [];
    }

    /** `create_demo_request`. */
    method Create(now: int, who: Person, ip: Option<Ip>) returns (answer: Answer)
      modifies this
      ensures rows == Next(old(rows), config, Submit(now, who, ip))
      ensures answer == Decide(old(rows), config, now, who, ip)
    {
      var duplicate := FindRepeat(rows, who, ip, now - config.duplicateSeconds * SECOND);
      if duplicate.Some? {
        return Duplicate(duplicate.value);
      }
      if ip.Some? {
        var count := |Recent(rows, ip, now - config.windowSeconds * SECOND)|;
        if count >= config.maxPerIp {
          return TooMany;
        }
      }
      rows := rows + [NewRow(now, who, ip)];
      answer := Stored(|rows| - 1);
    }

    /** The status part of `update_demo_request_pipeline`. */
    method SetRowStatus(id: int, status: string) returns (ok: bool)
      modifies this
      ensures rows == Next(old(rows), config, SetStatus(id, status))
      ensures ok <==> 0 <= id < |old(rows)| && Accepted(status)
    {
      ok := 0 <= id < |rows| && Accepted(status);
      if ok {
        rows := rows[id := rows[id].(status := Normal(status))];
      }
    }
  }

  // ---------- whole runs ----------

  function Run(c: Config, t: seq<Event>): Table {
    if t == [] then [] else Next(Run(c, t[..|t| - 1]), c, t[|t| - 1])
  }

  /** The clock never goes back from one submission to a later one. */
  ghost predicate Orderly(t: seq<Event>) {
    forall i, j | 0 <= i < j < |t| && t[i].Submit? && t[j].Submit? :: t[i].now <= t[j].now
  }

  ghost predicate Ordered(rows: Table) {
    forall i, j | 0 <= i < j < |rows| :: rows[i].at <= rows[j].at
  }

  /** Equal requests whose addresses meet are more than the duplicate window apart. */
  ghost predicate Spaced(rows: Table, c: Config) {
    forall i, j | 0 <= i < j < |rows| && SameRequest(rows[i].who, rows[j].who) && Meet(rows[i].ip, rows[j].ip) ::
      rows[j].at - rows[i].at > c.duplicateSeconds * SECOND
  }

  /** The row found fewer than the allowed number of rows from its address before it. */
  ghost predicate InRation(rows: Table, c: Config, j: int)
    requires 0 <= j < |rows|
  {
    rows[j].ip.Some? ==> !OverLimit(rows[..j], c, rows[j].at, rows[j].ip)
  }

  ghost predicate Rationed(rows: Table, c: Config) {
    forall j | 0 <= j < |rows| :: InRation(rows, c, j)
  }

  ghost predicate Inv(rows: Table, c: Config) {
    Ordered(rows) && Spaced(rows, c) && Rationed(rows, c)
  }

  ghost predicate NoneAfter(rows: Table, now: int) {
    forall i | 0 <= i < |rows| :: rows[i].at <= now
  }

  lemma StoredKeepsInv(rows: Table, c: Config, now: int, who: Person, ip: Option<Ip>)
    requires Inv(rows, c) && NoneAfter(rows, now) && Decide(rows, c, now, who, ip).Stored?
    ensures Inv(rows + [NewRow(now, who, ip)], c)
  {
    var row := NewRow(now, who, ip);
    var after := rows + [row];
    LowerIdempotent(who.email);
    forall i | 0 <= i < |rows| && SameRequest(rows[i].who, row.who) && Meet(rows[i].ip, ip)
      ensures now - rows[i].at > c.duplicateSeconds * SECOND
    {
      assert !Repeats(rows[i], who, ip, now - c.duplicateSeconds * SECOND);
    }
    forall j | 0 <= j < |after| ensures InRation(after, c, j) {
      assert after[..j] == rows[..j];
      if j == |rows| { assert rows[..j] == rows; } else { assert InRation(rows, c, j); }
    }
  }

  lemma StatusKeepsInv(rows: Table, c: Config, id: int, status: string)
    requires Inv(rows, c) && 0 <= id < |rows|
    ensures Inv(rows[id := rows[id].(status := status)], c)
  {
    var after := rows[id := rows[id].(status := status)];
    assert forall i | 0 <= i < |rows| ::
        after[i].at == rows[i].at && after[i].who == rows[i].who && after[i].ip == rows[i].ip;
    forall j | 0 <= j < |after| ensures InRation(after, c, j) {
      var cutoff := after[j].at - c.windowSeconds * SECOND;
      assert InRation(rows, c, j);
      assert Recent(after[..j], after[j].ip, cutoff) == Recent(rows[..j], rows[j].ip, cutoff);
    }
  }

  lemma {:induction false} NoRowAfter(c: Config, t: seq<Event>, now: int)
    requires forall i | 0 <= i < |t| && t[i].Submit? :: t[i].now <= now
    ensures NoneAfter(Run(c, t), now)
  {
    if t != [] {
      NoRowAfter(c, t[..|t| - 1], now);
    }
  }

  lemma {:induction false} RunKeepsInv(c: Config, t: seq<Event>)
    requires Orderly(t)
    ensures Inv(Run(c, t), c)
  {
    if t != [] {
      var front, e := t[..|t| - 1], t[|t| - 1];
      var rows := Run(c, front);
      RunKeepsInv(c, front);
      match e
      case Submit(now, who, ip) =>
        NoRowAfter(c, front, now);
        if Decide(rows, c, now, who, ip).Stored? { StoredKeepsInv(rows, c, now, who, ip); }
      case SetStatus(id, status) =>
        if 0 <= id < |rows| && Accepted(status) { StatusKeepsInv(rows, c, id, Normal(status)); }
    }
  }

  lemma BeforeSubmit(c: Config, t: seq<Event>, e: Event)
    requires Orderly(t + [e]) && e.Submit?
    ensures Inv(Run(c, t), c) && NoneAfter(Run(c, t), e.now)
    ensures Run(c, t + [e]) == Next(Run(c, t), c, e)
  {
    assert (t + [e])[..|t|] == t && (t + [e])[|t|] == e;
    assert forall i | 0 <= i < |t| :: (t + [e])[i] == t[i];
    RunKeepsInv(c, t);
    NoRowAfter(c, t, e.now);
  }

  /** The requests on file from one address in the closed interval [a, b]. */
  function Within(rows: Table, ip: Ip, a: int, b: int): set<int> {
    set i | 0 <= i < |rows| && rows[i].ip == Some(ip) && a <= rows[i].at <= b
  }

  /** In any run, every closed interval as long as the window holds at most the allowed
      number of requests from one known address. */
  lemma IntervalBound(c: Config, t: seq<Event>, ip: Ip, a: int)
    requires ValidConfig(c) && Orderly(t)
    ensures |Within(Run(c, t), ip, a, a + c.windowSeconds * SECOND)| <= c.maxPerIp
  {
    RunKeepsInv(c, t);
    InvBounds(Run(c, t), c, ip, a);
  }

  lemma InvBounds(rows: Table, c: Config, ip: Ip, a: int)
    requires ValidConfig(c) && Inv(rows, c)
    ensures |Within(rows, ip, a, a + c.windowSeconds * SECOND)| <= c.maxPerIp
  {
    var b := a + c.windowSeconds * SECOND;
    var s := Within(rows, ip, a, b);
    if |s| > 0 {
      var j := Latest(s, |rows|);
      BehindLatest(rows, c, ip, a, s, j);
      UnionSize(Recent(rows[..j], Some(ip), rows[j].at - c.windowSeconds * SECOND), {j}, s);
    }
  }

  lemma BehindLatest(rows: Table, c: Config, ip: Ip, a: int, s: set<int>, j: int)
    requires Rationed(rows, c) && s == Within(rows, ip, a, a + c.windowSeconds * SECOND)
    requires j in s && forall i | i in s :: i <= j
    ensures s <= Recent(rows[..j], Some(ip), rows[j].at - c.windowSeconds * SECOND) + {j}
    ensures |Recent(rows[..j], Some(ip), rows[j].at - c.windowSeconds * SECOND)| < c.maxPerIp
  {
    assert InRation(rows, c, j);
  }

  lemma {:induction false} Latest(s: set<int>, n: nat) returns (j: int)
    requires |s| > 0 && forall i | i in s :: 0 <= i < n
    ensures j in s && forall i | i in s :: i <= j
    decreases n
  {
    if n - 1 in s {
      j := n - 1;
    } else {
      var some := Pick(s);
      j := Latest(s, n - 1);
    }
  }

  /** Two requests on file with the same name, e-mail and company, whose addresses agree
      or are unknown, are more than the duplicate window apart. */
  lemma {:induction false} RepeatsAreApart(c: Config, t: seq<Event>, i: int, j: int)
    requires Orderly(t) && 0 <= i < j < |Run(c, t)|
    requires var rows := Run(c, t); SameRequest(rows[i].who, rows[j].who) && Meet(rows[i].ip, rows[j].ip)
    ensures Run(c, t)[j].at - Run(c, t)[i].at > c.duplicateSeconds * SECOND
  {
    RunKeepsInv(c, t);
  }

  /** A request is refused exactly when it is no repeat and the window that ends with it
      already holds the allowed number from its address. */
  lemma RefusedIff(c: Config, t: seq<Event>, e: Event)
    requires ValidConfig(c) && Orderly(t + [e]) && e.Submit?
    ensures var rows := Run(c, t);
            Decide(rows, c, e.now, e.who, e.ip).TooMany? <==>
              && (forall i | 0 <= i < |rows| :: !Repeats(rows[i], e.who, e.ip, e.now - c.duplicateSeconds * SECOND))
              && e.ip.Some?
              && |Within(rows, e.ip.value, e.now - c.windowSeconds * SECOND, e.now)| == c.maxPerIp
  {
    BeforeSubmit(c, t, e);
    RefusedFrom(Run(c, t), c, e);
  }

  lemma RefusedFrom(rows: Table, c: Config, e: Event)
    requires ValidConfig(c) && Inv(rows, c) && e.Submit? && NoneAfter(rows, e.now)
    ensures Decide(rows, c, e.now, e.who, e.ip).TooMany? <==>
              && (forall i | 0 <= i < |rows| :: !Repeats(rows[i], e.who, e.ip, e.now - c.duplicateSeconds * SECOND))
              && e.ip.Some?
              && |Within(rows, e.ip.value, e.now - c.windowSeconds * SECOND, e.now)| == c.maxPerIp
  {
    if e.ip.Some? { FullWindow(rows, c, e.now, e.ip.value); }
    var found := FindRepeat(rows, e.who, e.ip, e.now - c.duplicateSeconds * SECOND);
  }

  lemma FullWindow(rows: Table, c: Config, now: int, ip: Ip)
    requires ValidConfig(c) && Inv(rows, c) && NoneAfter(rows, now)
    ensures OverLimit(rows, c, now, Some(ip)) <==> |Within(rows, ip, now - c.windowSeconds * SECOND, now)| == c.maxPerIp
  {
    var a := now - c.windowSeconds * SECOND;
    InvBounds(rows, c, ip, a);
    assert Recent(rows, Some(ip), a) == Within(rows, ip, a, now);
  }

  /** A request is a repeat exactly when a row no older than the duplicate window has its
      name, and its e-mail and company up to case, from its address or with either unknown. */
  lemma DuplicateIff(rows: Table, c: Config, now: int, who: Person, ip: Option<Ip>)
    ensures Decide(rows, c, now, who, ip).Duplicate? <==>
              exists i | 0 <= i < |rows| ::
                && rows[i].at >= now - c.duplicateSeconds * 1000000
                && rows[i].who.fullName == who.fullName
                && Lower(rows[i].who.email) == Lower(who.email)
                && Lower(rows[i].who.company) == Lower(who.company)
                && (ip == None || rows[i].ip == None || rows[i].ip == ip)
  {
    var cutoff := now - c.duplicateSeconds * 1000000;
    var found := FindRepeat(rows, who, ip, cutoff);
    if i :| 0 <= i < |rows| && Repeats(rows[i], who, ip, cutoff) {
      assert found.Some?;
    }
  }

  /** In every run a submission leaves the stored rows alone and adds at most one: the request
      as made but for its e-mail, in lower case, under the status "new". */
  lemma SubmitAddsNew(c: Config, t: seq<Event>, e: Event)
    requires e.Submit?
    ensures var rows, after := Run(c, t), Run(c, t + [e]);
            var row := Row(e.now, Person(e.who.fullName, Lower(e.who.email), e.who.company), e.ip, "new");
            after == if Decide(rows, c, e.now, e.who, e.ip).Stored? then rows + [row] else rows
  {
    assert (t + [e])[..|t|] == t;
  }

  predicate IsStatus(s: string) {
    s == "new" || s == "contacted" || s == "scheduled" || s == "converted" || s == "lost"
  }

  /** In every run a status change touches the named row's status alone, and only for a known
      status, in any case and padding; "closed" is stored as "lost". */
  lemma SetStatusStores(c: Config, t: seq<Event>, id: int, status: string)
    ensures var rows, after, s := Run(c, t), Run(c, t + [SetStatus(id, status)]), Lower(Strip(status));
            if 0 <= id < |rows| && (IsStatus(s) || s == "closed")
            then after == rows[id := Row(rows[id].at, rows[id].who, rows[id].ip, if s == "closed" then "lost" else s)]
            else after == rows
  {
    assert (t + [SetStatus(id, status)])[..|t|] == t;
    StatusesAreFive(Lower(Strip(status)));
  }

  lemma StatusesAreFive(s: string)
    ensures s in STATUSES <==> IsStatus(s)
  {
  }

  /** The row that answers a request: the same request, no older than the window. */
  ghost predicate Answers(r: Row, c: Config, e: Event)
    requires e.Submit?
  {
    SameRequest(r.who, e.who) && e.now - c.duplicateSeconds * SECOND <= r.at <= e.now && Meet(r.ip, e.ip)
  }

  /** Unless refused, a request is on file afterwards under the answered id: stored now,
      or stored before and, of all such rows, one of the latest. */
  lemma OnFileUnlessRefused(c: Config, t: seq<Event>, e: Event)
    requires ValidConfig(c) && Orderly(t + [e]) && e.Submit?
    ensures var rows, answer, after := Run(c, t), Decide(Run(c, t), c, e.now, e.who, e.ip), Run(c, t + [e]);
            if answer.TooMany? then after == rows
            else if answer.Stored? then
              |after| == |rows| + 1 && answer.id == |rows| && after[..|rows|] == rows && Answers(after[answer.id], c, e)
            else
              && after == rows && 0 <= answer.id < |rows| && Answers(rows[answer.id], c, e)
              && forall i | 0 <= i < |rows| && Answers(rows[i], c, e) :: rows[i].at <= rows[answer.id].at
  {
    BeforeSubmit(c, t, e);
    if Decide(Run(c, t), c, e.now, e.who, e.ip).Stored? {
      LowerIdempotent(e.who.email);
    } else {
      AnsweredFrom(Run(c, t), c, e);
    }
  }

  lemma AnsweredFrom(rows: Table, c: Config, e: Event)
    requires Inv(rows, c) && e.Submit? && NoneAfter(rows, e.now)
    ensures var answer := Decide(rows, c, e.now, e.who, e.ip);
            answer.Duplicate? ==>
              && 0 <= answer.id < |rows| && Answers(rows[answer.id], c, e)
              && forall i | 0 <= i < |rows| && Answers(rows[i], c, e) :: rows[i].at <= rows[answer.id].at
  {
    var cutoff := e.now - c.duplicateSeconds * SECOND;
    var found := FindRepeat(rows, e.who, e.ip, cutoff);
    if found.Some? {
      forall i | 0 <= i < |rows| && Answers(rows[i], c, e) ensures rows[i].at <= rows[found.value].at {
        assert Repeats(rows[i], e.who, e.ip, cutoff);
      }
    }
  }

  // ---------- the listing's numbers ----------

  /** The row counts as status s: an empty stored status counts as new. */
  predicate CountsAs(r: Row, s: string) {
    StatusKey(r) == s
  }

  function StatusKey(r: Row): string {
    Normal(if r.status == "" then "new" else r.status)
  }

  function GroupKey(g: Group): string {
    Normal(if g.status == "" then "new" else g.status)
  }

  function WithStatus(rows: Table, s: string): set<int> {
    set i | 0 <= i < |rows| && CountsAs(rows[i], s)
  }

  function Having(rows: Table, raw: string): set<int> {
    set i | 0 <= i < |rows| && rows[i].status == raw
  }

  datatype Group = Group(status: string, count: int)

  /** What the database answers to a count grouped by status. */
  ghost predicate IsGrouping(groups: seq<Group>, rows: Table) {
    && (forall g, h | 0 <= g < h < |groups| :: groups[g].status != groups[h].status)
    && (forall g | 0 <= g < |groups| :: groups[g].count == |Having(rows, groups[g].status)|)
    && (forall i | 0 <= i < |rows| :: exists g | 0 <= g < |groups| :: groups[g].status == rows[i].status)
  }

  /** The rows that the first groups account for, among those that count as s. */
  ghost function CountedSoFar(rows: Table, groups: seq<Group>, s: string): set<int> {
    set i | 0 <= i < |rows| && CountsAs(rows[i], s)
            && exists g | 0 <= g < |groups| :: groups[g].status == rows[i].status
  }

  lemma OneMoreGroup(rows: Table, groups: seq<Group>, g: Group, s: string)
    requires forall h | 0 <= h < |groups| :: groups[h].status != g.status
    ensures CountedSoFar(rows, groups, s) !! Having(rows, g.status)
    ensures CountedSoFar(rows, groups + [g], s) ==
              CountedSoFar(rows, groups, s) + if GroupKey(g) == s then Having(rows, g.status) else {}
  {
    forall i | 0 <= i < |rows|
      ensures (exists h | 0 <= h < |groups + [g]| :: (groups + [g])[h].status == rows[i].status) <==>
                (exists h | 0 <= h < |groups| :: groups[h].status == rows[i].status) || rows[i].status == g.status
    {
      if h :| 0 <= h < |groups| && groups[h].status == rows[i].status {
        assert (groups + [g])[h].status == rows[i].status;
      }
      assert (groups + [g])[|groups|].status == g.status;
    }
  }

  lemma CountOneMore(rows: Table, groups: seq<Group>, g: Group, s: string)
    requires forall h | 0 <= h < |groups| :: groups[h].status != g.status
    requires g.count == |Having(rows, g.status)|
    ensures |CountedSoFar(rows, groups + [g], s)| ==
              |CountedSoFar(rows, groups, s)| + if GroupKey(g) == s then g.count else 0
  {
    OneMoreGroup(rows, groups, g, s);
  }

  /** Each status holds the number of its rows among the first groups. */
  ghost predicate Tallied(metrics: map<string, int>, rows: Table, groups: seq<Group>) {
    forall s | s in metrics :: metrics[s] == |CountedSoFar(rows, groups, s)|
  }

  function Tally(metrics: map<string, int>, g: Group): map<string, int> {
    var key := GroupKey(g);
    if key in metrics then metrics[key := metrics[key] + g.count] else metrics
  }

  lemma TallyOneMore(metrics: map<string, int>, rows: Table, groups: seq<Group>, i: int)
    requires IsGrouping(groups, rows) && 0 <= i < |groups| && Tallied(metrics, rows, groups[..i])
    ensures Tally(metrics, groups[i]).Keys == metrics.Keys
    ensures Tallied(Tally(metrics, groups[i]), rows, groups[..i + 1])
  {
    var g := groups[i];
    assert groups[..i + 1] == groups[..i] + [g];
    forall s | s in metrics ensures Tally(metrics, g)[s] == |CountedSoFar(rows, groups[..i + 1], s)| {
      CountOneMore(rows, groups[..i], g, s);
    }
  }

  lemma AllCounted(rows: Table, groups: seq<Group>, s: string)
    requires IsGrouping(groups, rows)
    ensures CountedSoFar(rows, groups, s) == WithStatus(rows, s)
  {
  }

  lemma NothingTallied(metrics: map<string, int>, rows: Table)
    requires forall s | s in metrics :: metrics[s] == 0
    ensures Tallied(metrics, rows, [])
  {
    assert forall s | s in metrics :: CountedSoFar(rows, [], s) == {};
  }

  lemma EverythingTallied(metrics: map<string, int>, rows: Table, groups: seq<Group>)
    requires IsGrouping(groups, rows) && Tallied(metrics, rows, groups)
    ensures forall s | s in metrics :: metrics[s] == |WithStatus(rows, s)|
  {
    forall s | s in metrics ensures metrics[s] == |WithStatus(rows, s)| {
      AllCounted(rows, groups, s);
    }
  }

  method TallyGroups(statuses: set<string>, groups: seq<Group>, ghost rows: Table) returns (metrics: map<string, int>)
    requires IsGrouping(groups, rows)
    ensures metrics.Keys == statuses
    ensures forall s | s in metrics :: metrics[s] == |WithStatus(rows, s)|
  {
    metrics := map s | s in statuses :: 0;
    NothingTallied(metrics, rows);
    assert groups[..0] == [];
    for i := 0 to |groups|
      invariant metrics.Keys == statuses && Tallied(metrics, rows, groups[..i])
    {
      TallyOneMore(metrics, rows, groups, i);
      var key := GroupKey(groups[i]);
      if key in metrics {
        metrics := metrics[key := metrics[key] + groups[i].count];
      }
    }
    assert groups[..|groups|] == groups;
    EverythingTallied(metrics, rows, groups);
  }

  /** The metrics of `list_demo_requests`: each status is reported with the number of
      rows that count as it, however many spellings they are stored under. */
  method Metrics(groups: seq<Group>, ghost rows: Table) returns (metrics: map<string, int>)
    requires IsGrouping(groups, rows)
    ensures metrics.Keys == STATUSES
    ensures forall s | s in metrics :: metrics[s] == |WithStatus(rows, s)|
  {
    metrics := TallyGroups(STATUSES, groups, rows);
  }

  /** The rows that the listing's status filter selects. */
  function Selected(rows: Table, filter: string): set<int> {
    if Normal(filter) == "lost" then Having(rows, "lost") + Having(rows, "closed") else Having(rows, Normal(filter))
  }

  /** Rows are stored under one of the accepted spellings, as every run leaves them. */
  ghost predicate StatusesKnown(rows: Table) {
    forall i | 0 <= i < |rows| :: rows[i].status in STATUSES || rows[i].status == "closed"
  }

  predicate LowerCaseWord(s: string) {
    s != "" && forall i | 0 <= i < |s| :: 'a' <= s[i] <= 'z'
  }

  lemma WordIsClean(s: string)
    requires LowerCaseWord(s)
    ensures Clean(s) == s
  {
    assert Strip(s) == s;
    assert forall i | 0 <= i < |s| :: LowerAscii(s[i]) == s[i];
  }

  lemma KnownIsClean(s: string)
    requires s in STATUSES || s == "closed"
    ensures Clean(s) == s
  {
    assert LowerCaseWord(s);
    WordIsClean(s);
  }

  lemma {:induction false} RunKeepsStatuses(c: Config, t: seq<Event>)
    ensures StatusesKnown(Run(c, t))
  {
    if t != [] {
      RunKeepsStatuses(c, t[..|t| - 1]);
    }
  }

  /** The number of rows a filter lists is the number that the metrics report for it. */
  lemma FilterAgreesWithMetric(rows: Table, filter: string)
    requires StatusesKnown(rows) && Accepted(filter)
    ensures Selected(rows, filter) == WithStatus(rows, Normal(filter))
  {
    forall i | 0 <= i < |rows|
      ensures i in Selected(rows, filter) <==> CountsAs(rows[i], Normal(filter))
    {
      KnownCountsAs(rows[i], Normal(filter));
    }
  }

  lemma {:induction false} RunStoresNoAlias(c: Config, t: seq<Event>)
    ensures forall i | 0 <= i < |Run(c, t)| :: IsStatus(Run(c, t)[i].status)
  {
    if t != [] {
      var front := t[..|t| - 1];
      RunStoresNoAlias(c, front);
      assert t == front + [t[|t| - 1]];
      if t[|t| - 1].Submit? {
        SubmitAddsNew(c, front, t[|t| - 1]);
      } else {
        SetStatusStores(c, front, t[|t| - 1].id, t[|t| - 1].status);
      }
    }
  }

  /** After any run a row counts as the status it is stored with. */
  lemma CountsAsStored(c: Config, t: seq<Event>, s: string)
    requires IsStatus(s)
    ensures WithStatus(Run(c, t), s) == set i | 0 <= i < |Run(c, t)| && Run(c, t)[i].status == s
  {
    RunStoresNoAlias(c, t);
    var rows := Run(c, t);
    forall i | 0 <= i < |rows| ensures CountsAs(rows[i], s) <==> rows[i].status == s {
      KnownCountsAs(rows[i], s);
      NoStatusIsClosed(rows[i].status);
      NoStatusIsClosed(s);
    }
  }

  lemma NoStatusIsClosed(s: string)
    requires IsStatus(s)
    ensures s != "closed"
  {
    assert "contacted"[1] != "closed"[1] && "converted"[1] != "closed"[1];
  }

  lemma KnownCountsAs(r: Row, s: string)
    requires r.status in STATUSES || r.status == "closed"
    ensures s != "closed" ==>
              (CountsAs(r, s) <==> if s == "lost" then r.status == "lost" || r.status == "closed" else r.status == s)
    ensures !CountsAs(r, "closed")
  {
    KnownIsClean(r.status);
  }

  lemma SomeStatus(r: Row)
    requires r.status in STATUSES || r.status == "closed"
    ensures var k := StatusKey(r);
            k == "new" || k == "contacted" || k == "scheduled" || k == "converted" || k == "lost"
  {
    KnownCountsAs(r, if r.status == "closed" then "lost" else r.status);
  }

  function StatusKeys(rows: Table): (keys: seq<string>)
    ensures |keys| == |rows| && forall i | 0 <= i < |rows| :: keys[i] == StatusKey(rows[i])
  {
    seq(|rows|, i requires 0 <= i < |rows| => StatusKey(rows[i]))
  }

  lemma ClassIsStatus(rows: Table, s: string)
    ensures Class(StatusKeys(rows), s) == WithStatus(rows, s)
  {
  }

  lemma StatusesDiffer()
    ensures "new" != "contacted" && "new" != "scheduled" && "new" != "converted" && "new" != "lost"
    ensures "contacted" != "scheduled" && "contacted" != "converted" && "contacted" != "lost"
    ensures "scheduled" != "converted" && "scheduled" != "lost" && "converted" != "lost"
  {
    assert "contacted"[0] != "scheduled"[0] && "contacted"[3] != "converted"[3] && "scheduled"[0] != "converted"[0];
  }

  /** The metrics account for every row once. */
  lemma MetricsAddUp(rows: Table)
    requires StatusesKnown(rows)
    ensures |WithStatus(rows, "new")| + |WithStatus(rows, "contacted")| + |WithStatus(rows, "scheduled")|
            + |WithStatus(rows, "converted")| + |WithStatus(rows, "lost")| == |rows|
  {
    var keys := StatusKeys(rows);
    forall i | 0 <= i < |keys|
      ensures keys[i] == "new" || keys[i] == "contacted" || keys[i] == "scheduled" || keys[i] == "converted"
              || keys[i] == "lost"
    {
      SomeStatus(rows[i]);
    }
    StatusesDiffer();
    ClassesAddUp(keys, "new", "contacted", "scheduled", "converted", "lost");
    ClassIsStatus(rows, "new");
    ClassIsStatus(rows, "contacted");
    ClassIsStatus(rows, "scheduled");
    ClassIsStatus(rows, "converted");
    ClassIsStatus(rows, "lost");
  }

  function Class<T(==)>(keys: seq<T>, s: T): set<int> {
    set i | 0 <= i < |keys| && keys[i] == s
  }

  lemma ClassGrows<T>(keys: seq<T>, s: T)
    requires keys != []
    ensures var front, last := keys[..|keys| - 1], keys[|keys| - 1];
            |Class(keys, s)| == |Class(front, s)| + if last == s then 1 else 0
  {
    var front, last := keys[..|keys| - 1], keys[|keys| - 1];
    assert Class(keys, s) == Class(front, s) + if last == s then {|front|} else {};
  }

  lemma {:induction false} ClassesAddUp<T>(keys: seq<T>, a: T, b: T, c: T, d: T, e: T)
    requires a != b && a != c && a != d && a != e && b != c && b != d && b != e && c != d && c != e && d != e
    requires forall i | 0 <= i < |keys| :: keys[i] == a || keys[i] == b || keys[i] == c || keys[i] == d || keys[i] == e
    ensures |Class(keys, a)| + |Class(keys, b)| + |Class(keys, c)| + |Class(keys, d)| + |Class(keys, e)| == |keys|
  {
    if keys != [] {
      ClassesAddUp(keys[..|keys| - 1], a, b, c, d, e);
      ClassGrows(keys, a);
      ClassGrows(keys, b);
      ClassGrows(keys, c);
      ClassGrows(keys, d);
      ClassGrows(keys, e);
    }
  }
}
