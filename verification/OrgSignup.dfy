/** The slug search of a signup, `_build_unique_org_slug` in backend/app/api/v1/auth.py,
    and the slugs that any run of signups gives out. */
module OrgSignup {
  import opened Text
  import opened Counting
  import opened OrgSlugs

  function Digit(n: int): char
    requires 0 <= n < 10
  {
    '0' + n as char
  }

  function Decimal(n: nat): (r: string)
    ensures r != ""
  {
    if n < 10 then [Digit(n)] else Decimal(n / 10) + [Digit(n % 10)]
  }

  function BaseSlug(name: string): string {
    if Slugify(name) == "" then "org" else Slugify(name)
  }

  /** The k-th slug that is looked up: base, base-2, base-3, ... */
  function Candidate(base: string, k: nat): string {
    if k <= 1 then base else base + "-" + Decimal(k)
  }

  /** How `get_by_slug` normalises what it is asked for. */
  function LookupForm(slug: string): string {
    LowerText(Strip(slug))
  }

  lemma {:induction false} DecimalInjective(m: nat, n: nat)
    requires Decimal(m) == Decimal(n)
    ensures m == n
  {
    var a, b := Decimal(m), Decimal(n);
    if m < 10 || n < 10 {
      DecimalLength(m);
      DecimalLength(n);
      assert a[0] == b[0];
    } else {
      assert a[|a| - 1] == b[|b| - 1];
      assert a[..|a| - 1] == Decimal(m / 10) && b[..|b| - 1] == Decimal(n / 10);
      DecimalInjective(m / 10, n / 10);
    }
  }

  /** The number that the digits stand for. */
  function ValueOf(digits: string): int {
    if digits == "" then 0
    else 10 * ValueOf(digits[..|digits| - 1]) + (digits[|digits| - 1] as int - '0' as int)
  }

  lemma {:induction false} DecimalReads(n: nat)
    ensures var r := Decimal(n);
            ValueOf(r) == n && (n > 0 ==> r[0] != '0') && forall i | 0 <= i < |r| :: '0' <= r[i] <= '9'
  {
    if n < 10 {
      assert [Digit(n)][..0] == "";
    } else {
      var front, last := Decimal(n / 10), [Digit(n % 10)];
      DecimalReads(n / 10);
      assert (front + last)[..|front|] == front;
    }
  }

  /** The k-th candidate is the base itself or the base, a dash and k in decimal digits. */
  lemma CandidateIsNumbered(base: string, k: nat)
    requires 1 <= k
    ensures Candidate(base, 1) == base
    ensures k >= 2 ==>
              var c := Candidate(base, k);
              && |c| > |base| + 1 && c[..|base| + 1] == base + "-" && c[|base| + 1] != '0'
              && ValueOf(c[|base| + 1..]) == k && forall i | |base| + 1 <= i < |c| :: '0' <= c[i] <= '9'
  {
    DecimalReads(k);
    var digits := Decimal(k);
    assert (base + "-" + digits)[|base| + 1..] == digits;
  }

  /** The base is the name's words joined by dashes, or "org" for a name without any. */
  lemma BaseIsItsWords(name: string)
    ensures BaseSlug(name) == if Words(name) == [] then "org" else Join(Words(name))
  {
    SlugIsItsWords(name);
    SlugifyGivesSlugs(name);
  }

  lemma DecimalLength(n: nat)
    ensures |Decimal(n)| == 1 <==> n < 10
  {
  }

  lemma CandidateInjective(base: string, j: nat, k: nat)
    requires 1 <= j && 1 <= k && Candidate(base, j) == Candidate(base, k)
    ensures j == k
  {
    if j > 1 && k > 1 {
      var a, b := base + "-" + Decimal(j), base + "-" + Decimal(k);
      assert a[|base| + 1..] == Decimal(j) && b[|base| + 1..] == Decimal(k);
      DecimalInjective(j, k);
    } else {
      assert |Candidate(base, j)| == |Candidate(base, k)|;
    }
  }

  lemma {:induction false} DecimalDigits(n: nat)
    ensures forall i | 0 <= i < |Decimal(n)| :: IsWordChar(Decimal(n)[i])
  {
    if n >= 10 {
      DecimalDigits(n / 10);
    }
  }

  /** Every candidate is a slug and already in the form that the lookup normalises to. */
  lemma CandidateIsSlug(name: string, k: nat)
    ensures var c := Candidate(BaseSlug(name), k); IsSlug(c) && c != "" && LookupForm(c) == c
  {
    var base := BaseSlug(name);
    SlugifyGivesSlugs(name);
    DecimalDigits(k);
    var c := Candidate(base, k);
    NumberedIsSlug(base, Decimal(k));
    LookupKeepsSlug(c);
  }

  lemma NumberedIsSlug(base: string, digits: string)
    requires IsSlug(base) && base != "" && digits != "" && forall i | 0 <= i < |digits| :: IsWordChar(digits[i])
    ensures IsSlug(base + "-" + digits)
  {
  }

  lemma LookupKeepsSlug(s: string)
    requires IsSlug(s) && s != ""
    ensures LookupForm(s) == s
  {
    assert Strip(s) == s;
    LowerKeepsSlug(s);
  }

  /** `slug` is the first of the candidates that is not taken, and k its number. */
  ghost predicate FirstFree(base: string, taken: set<string>, slug: string, k: int) {
    && 1 <= k && slug == Candidate(base, k) && slug !in taken
    && forall j | 1 <= j < k :: Candidate(base, j) in taken
  }

  /** `slug` is the first free candidate, found within `lookups` lookups. */
  ghost predicate IsFirstFree(base: string, taken: set<string>, slug: string, lookups: int) {
    exists k | 1 <= k <= lookups :: FirstFree(base, taken, slug, k)
  }

  /** The candidates before the k-th. */
  function Tried(base: string, k: nat): set<string>
    requires 1 <= k
  {
    if k == 1 then {} else Tried(base, k - 1) + {Candidate(base, k - 1)}
  }

  lemma {:induction false} TriedFrom(base: string, k: nat, c: string)
    requires 1 <= k && c in Tried(base, k)
    ensures exists j: int :: 1 <= j < k && Candidate(base, j) == c
  {
    if k > 1 && c != Candidate(base, k - 1) {
      TriedFrom(base, k - 1, c);
    }
  }

  lemma {:induction false} TriedSize(base: string, k: nat)
    requires 1 <= k
    ensures |Tried(base, k)| == k - 1
  {
    if k > 1 {
      TriedSize(base, k - 1);
      if Candidate(base, k - 1) in Tried(base, k - 1) {
        TriedFrom(base, k - 1, Candidate(base, k - 1));
        var j: int :| 1 <= j < k - 1 && Candidate(base, j) == Candidate(base, k - 1);
        CandidateInjective(base, j, k - 1);
        assert false;
      }
    }
  }

  function SlugSet(slugs: seq<string>): (r: set<string>)
    ensures forall s :: s in r <==> s in slugs
  {
    set i | 0 <= i < |slugs| :: slugs[i]
  }

  lemma {:induction false} SlugSetSize(slugs: seq<string>)
    ensures |SlugSet(slugs)| <= |slugs|
  {
    if slugs != [] {
      var front, last := slugs[..|slugs| - 1], slugs[|slugs| - 1];
      SlugSetSize(front);
      UnionSize(SlugSet(front), {last}, SlugSet(slugs));
    }
  }

  /** The candidates before the k-th are all taken. */
  ghost predicate TakenBefore(base: string, taken: set<string>, k: int) {
    1 <= k && Tried(base, k) <= taken && forall j | 1 <= j < k :: Candidate(base, j) in taken
  }

  lemma TakenIsBounded(base: string, taken: set<string>, k: int)
    requires TakenBefore(base, taken, k)
    ensures k <= |taken| + 1
  {
    TriedSize(base, k);
    SubsetSize(Tried(base, k), taken);
  }

  lemma OneMoreOf(base: string, taken: set<string>, k: int)
    requires TakenBefore(base, taken, k) && Candidate(base, k) in taken
    ensures TakenBefore(base, taken, k + 1)
  {
    assert Tried(base, k + 1) == Tried(base, k) + {Candidate(base, k)};
  }

  lemma OneMoreTaken(name: string, taken: set<string>, k: int)
    requires TakenBefore(BaseSlug(name), taken, k)
    requires LookupForm(Candidate(BaseSlug(name), k)) in taken
    ensures TakenBefore(BaseSlug(name), taken, k + 1)
  {
    CandidateIsSlug(name, k);
    OneMoreOf(BaseSlug(name), taken, k);
  }

  lemma SearchEnds(name: string, slugs: seq<string>, k: int)
    requires TakenBefore(BaseSlug(name), SlugSet(slugs), k)
    requires LookupForm(Candidate(BaseSlug(name), k)) !in slugs
    ensures IsFirstFree(BaseSlug(name), SlugSet(slugs), Candidate(BaseSlug(name), k), |slugs| + 1)
  {
    CandidateIsSlug(name, k);
    TakenIsBounded(BaseSlug(name), SlugSet(slugs), k);
    SlugSetSize(slugs);
    assert FirstFree(BaseSlug(name), SlugSet(slugs), Candidate(BaseSlug(name), k), k);
  }

  class OrganizationTable {
    var slugs: seq<string>

    ghost predicate Valid()
      reads this
    {
      forall i, j | 0 <= i < j < |slugs| :: slugs[i] != slugs[j]
    }

    constructor ()
      ensures Valid() && slugs == []
    {
      slugs := [];
    }

    /** `get_by_slug(slug) is not None`. */
    predicate Exists(slug: string)
      reads this
    {
      LookupForm(slug) in slugs
    }

    /** The search ends after at most one lookup more than there are organizations. */
    method BuildUniqueSlug(name: string) returns (candidate: string)
      ensures IsFirstFree(BaseSlug(name), SlugSet(slugs), candidate, |slugs| + 1)
    {
      var base := BaseSlug(name);
      candidate := base;
      var counter := 2;
      ghost var taken := SlugSet(slugs);
      while Exists(candidate)
        invariant 2 <= counter && candidate == Candidate(base, counter - 1)
        invariant TakenBefore(base, taken, counter - 1)
        decreases |taken| + 2 - counter
      {
        OneMoreTaken(name, taken, counter - 1);
        TakenIsBounded(base, taken, counter);
        candidate := base + "-" + Decimal(counter);
        counter := counter + 1;
      }
      SearchEnds(name, slugs, counter - 1);
    }

    /** The part of `signup` that names the new organization. */
    method AddOrganization(name: string) returns (slug: string)
      requires Valid()
      modifies this
      ensures Valid()
      ensures slugs == old(slugs) + [slug]
      ensures IsFirstFree(BaseSlug(name), SlugSet(old(slugs)), slug, |old(slugs)| + 1)
    {
      slug := BuildUniqueSlug(name);
      slugs := slugs + [slug];
    }
  }

  // ---------- runs of signups ----------

  /** The slugs that signups with these names get, starting with no organization. */
  ghost predicate GivenOut(names: seq<string>, slugs: seq<string>) {
    |names| == |slugs| &&
    forall i | 0 <= i < |slugs| :: IsFirstFree(BaseSlug(names[i]), SlugSet(slugs[..i]), slugs[i], i + 1)
  }

  lemma GivenAt(names: seq<string>, slugs: seq<string>, i: int) returns (k: int)
    requires GivenOut(names, slugs) && 0 <= i < |slugs|
    ensures 1 <= k <= i + 1 && FirstFree(BaseSlug(names[i]), SlugSet(slugs[..i]), slugs[i], k)
  {
    assert IsFirstFree(BaseSlug(names[i]), SlugSet(slugs[..i]), slugs[i], i + 1);
    k :| 1 <= k <= i + 1 && FirstFree(BaseSlug(names[i]), SlugSet(slugs[..i]), slugs[i], k);
  }

  lemma LaterDiffers(names: seq<string>, slugs: seq<string>, i: int, j: int)
    requires GivenOut(names, slugs) && 0 <= i < j < |slugs|
    ensures slugs[i] != slugs[j]
  {
    var k := GivenAt(names, slugs, j);
    assert slugs[..j][i] in slugs[..j];
  }

  /** No two organizations ever get one slug, and each is found under its own. */
  lemma SlugsStayDistinct(names: seq<string>, slugs: seq<string>, i: int, j: int)
    requires GivenOut(names, slugs) && 0 <= i < |slugs| && 0 <= j < |slugs|
    ensures slugs[i] == slugs[j] <==> i == j
    ensures LookupForm(slugs[i]) == slugs[i]
  {
    if i < j { LaterDiffers(names, slugs, i, j); }
    if j < i { LaterDiffers(names, slugs, j, i); }
    var k := GivenAt(names, slugs, i);
    CandidateIsSlug(names[i], k);
  }

  lemma NumbersGrow(base: string, before: set<string>, after: set<string>, slug: string, ki: int,
                    later: string, kj: int)
    requires FirstFree(base, before, slug, ki) && FirstFree(base, after, later, kj)
    requires before <= after && slug in after
    ensures ki < kj
    ensures kj == ki + 1 <==> Candidate(base, ki + 1) !in after
  {
  }

  /** Namesakes are numbered upwards in the order of their signups, and a number is skipped
      between two of them only if another organization's slug has taken it. */
  lemma NamesakesCountUp(names: seq<string>, slugs: seq<string>, base: string, i: int, j: int, ki: int, kj: int)
    requires GivenOut(names, slugs) && 0 <= i < j < |slugs| && BaseSlug(names[i]) == BaseSlug(names[j]) == base
    requires FirstFree(base, SlugSet(slugs[..i]), slugs[i], ki)
    requires FirstFree(base, SlugSet(slugs[..j]), slugs[j], kj)
    ensures ki < kj
    ensures forall k | ki < k < kj :: Candidate(base, k) in slugs[..j]
    ensures kj == ki + 1 <==> Candidate(base, ki + 1) !in slugs[..j]
  {
    PrefixSlugs(slugs, i, j);
    NumbersGrow(base, SlugSet(slugs[..i]), SlugSet(slugs[..j]), slugs[i], ki, slugs[j], kj);
  }

  lemma PrefixSlugs(slugs: seq<string>, i: int, j: int)
    requires 0 <= i < j < |slugs|
    ensures SlugSet(slugs[..i]) <= SlugSet(slugs[..j]) && slugs[i] in SlugSet(slugs[..j])
  {
    assert slugs[..j][i] == slugs[i];
    assert slugs[..j] == slugs[..i] + slugs[i..j];
  }

  lemma NumberedSoFar(base: string, given: seq<string>, slug: string, k: int)
    requires forall j | 1 <= j <= |given| :: given[j - 1] == Candidate(base, j)
    requires FirstFree(base, SlugSet(given), slug, k)
    ensures k == |given| + 1
  {
    forall j | 1 <= j <= |given|
      ensures Candidate(base, j) in given && Candidate(base, j) != Candidate(base, |given| + 1)
    {
      assert given[j - 1] == Candidate(base, j);
      if Candidate(base, j) == Candidate(base, |given| + 1) { CandidateInjective(base, j, |given| + 1); }
    }
    assert Candidate(base, |given| + 1) !in given by {
      forall i | 0 <= i < |given| ensures given[i] != Candidate(base, |given| + 1) {
        assert given[i] == Candidate(base, i + 1);
      }
    }
  }

  lemma NextNamesake(names: seq<string>, slugs: seq<string>, base: string, i: int)
    requires GivenOut(names, slugs) && 0 <= i < |slugs| && BaseSlug(names[i]) == base
    requires forall j | 1 <= j <= i :: slugs[..i][j - 1] == Candidate(base, j)
    ensures slugs[i] == Candidate(base, i + 1)
  {
    var k := GivenAt(names, slugs, i);
    NumberedSoFar(base, slugs[..i], slugs[i], k);
  }

  /** In particular, in a run of signups that all have one base slug none is skipped. */
  lemma {:induction false} NamesakesAloneSkipNone(names: seq<string>, slugs: seq<string>, base: string, i: int)
    requires GivenOut(names, slugs) && forall j | 0 <= j < |names| :: BaseSlug(names[j]) == base
    requires 0 <= i < |slugs|
    ensures slugs[i] == Candidate(base, i + 1)
    decreases i
  {
    forall j | 1 <= j <= i ensures slugs[..i][j - 1] == Candidate(base, j) {
      NamesakesAloneSkipNone(names, slugs, base, j - 1);
    }
    NextNamesake(names, slugs, base, i);
  }

  lemma OneMoreSignup(names: seq<string>, slugs: seq<string>, name: string, slug: string, k: int)
    requires GivenOut(names, slugs) && k <= |slugs| + 1 && FirstFree(BaseSlug(name), SlugSet(slugs), slug, k)
    ensures GivenOut(names + [name], slugs + [slug])
  {
    var ns, ss := names + [name], slugs + [slug];
    forall i | 0 <= i < |ss| ensures IsFirstFree(BaseSlug(ns[i]), SlugSet(ss[..i]), ss[i], i + 1) {
      if i < |slugs| {
        assert ss[..i] == slugs[..i] && ns[i] == names[i] && ss[i] == slugs[i];
      } else {
        assert ss[..i] == slugs && ns[i] == name && ss[i] == slug;
      }
    }
  }

  lemma ThreeAreFree(base: string, given: seq<string>)
    requires given == [Candidate(base, 1), Candidate(base, 2)]
    ensures FirstFree(Candidate(base, 2), SlugSet(given[..1]), Candidate(base, 2), 1)
    ensures FirstFree(base, SlugSet(given), Candidate(base, 3), 3)
  {
    ThreeDiffer(base);
    assert given[0] == Candidate(base, 1) && given[1] == Candidate(base, 2);
  }

  lemma SecondIsItsOwnBase(name: string)
    ensures BaseSlug(Candidate(BaseSlug(name), 2)) == Candidate(BaseSlug(name), 2)
  {
    CandidateIsSlug(name, 2);
    SlugIsFixed(Candidate(BaseSlug(name), 2));
  }

  lemma TwoSignups(name: string)
    ensures var base := BaseSlug(name);
            GivenOut([name, Candidate(base, 2)], [Candidate(base, 1), Candidate(base, 2)])
  {
    var base := BaseSlug(name);
    var first, second := Candidate(base, 1), Candidate(base, 2);
    SecondIsItsOwnBase(name);
    ThreeAreFree(base, [first, second]);
    OneMoreSignup([], [], name, first, 1);
    assert [] + [name] == [name] && [] + [first] == [first] && [first, second][..1] == [first];
    OneMoreSignup([name], [first], second, second, 1);
    assert [name] + [second] == [name, second] && [first] + [second] == [first, second];
  }

  /** Whatever the name: between two signups of it another organization can be named like
      its second slug, and then the second of the two gets number 3. */
  lemma TakenNumberIsSkipped(name: string)
    ensures var base := BaseSlug(name);
            GivenOut([name, Candidate(base, 2), name], [Candidate(base, 1), Candidate(base, 2), Candidate(base, 3)])
  {
    var base := BaseSlug(name);
    var names, slugs := [name, Candidate(base, 2)], [Candidate(base, 1), Candidate(base, 2)];
    TwoSignups(name);
    ThreeAreFree(base, slugs);
    OneMoreSignup(names, slugs, name, Candidate(base, 3), 3);
    assert names + [name] == [name, Candidate(base, 2), name];
    assert slugs + [Candidate(base, 3)] == [Candidate(base, 1), Candidate(base, 2), Candidate(base, 3)];
  }

  lemma ThreeDiffer(base: string)
    ensures Candidate(base, 1) != Candidate(base, 2) && Candidate(base, 1) != Candidate(base, 3)
    ensures Candidate(base, 2) != Candidate(base, 3)
  {
    if Candidate(base, 1) == Candidate(base, 2) { CandidateInjective(base, 1, 2); }
    if Candidate(base, 1) == Candidate(base, 3) { CandidateInjective(base, 1, 3); }
    if Candidate(base, 2) == Candidate(base, 3) { CandidateInjective(base, 2, 3); }
  }
}
