/** Strings as the source's languages see them: membership tests, prefixes,
    Python's whitespace and the letters that lower-casing can turn into ASCII. */
module Text {

  datatype Option<+T> = None | Some(value: T)

  predicate MatchAt(s: string, p: string, i: int) {
    0 <= i <= |s| - |p| && s[i..i + |p|] == p
  }

  /** Python's `p in s` (and JavaScript's `includes`). */
  predicate Contains(s: string, p: string) {
    exists i | 0 <= i <= |s| :: MatchAt(s, p, i)
  }

  predicate EndsWith(s: string, p: string) {
    |p| <= |s| && s[|s| - |p|..] == p
  }

  predicate HasColon(s: string) {
    ':' in s
  }

  /** In `name:rest` a name without a colon can be read back. */
  lemma ColonFieldUnique(a: string, x: string, b: string, y: string)
    requires !HasColon(a) && !HasColon(b)
    requires a + ":" + x == b + ":" + y
    ensures a == b && x == y
  {
    var l, r := a + ":" + x, b + ":" + y;
    assert l[|a|] == ':' && r[|b|] == ':';
    assert |a| == |b|;
    assert a == l[..|a|] == r[..|b|] == b;
    assert x == l[|a| + 1..] == r[|b| + 1..] == y;
  }

  /** What follows one name can be read back. */
  lemma SameRest(name: string, x: string, y: string)
    requires name + ":" + x == name + ":" + y
    ensures x == y
  {
    assert (name + ":" + x)[|name| + 1..] == x && (name + ":" + y)[|name| + 1..] == y;
  }

  /** In `rest:field` a field without a colon can be read back. */
  lemma LastColonFieldUnique(a: string, x: string, b: string, y: string)
    requires !HasColon(x) && !HasColon(y)
    requires a + ":" + x == b + ":" + y
    ensures a == b && x == y
  {
    var l, r := a + ":" + x, b + ":" + y;
    assert l[|a|] == ':' && r[|b|] == ':';
    assert |a| == |b|;
    assert a == l[..|a|] == r[..|b|] == b;
    assert x == l[|a| + 1..] == r[|b| + 1..] == y;
  }

  /** Concatenation is associative, with the terms that the verifier should look at. */
  lemma Assoc<T>(a: seq<T>, b: seq<T>, c: seq<T>)
    ensures a + (b + c) == a + b + c
  {
  }

  // ---------- whitespace ----------

  /** Python's `str.isspace`. */
  predicate IsSpace(c: char) {
    || '\t' <= c <= '\r'
    || '\U{1C}' <= c <= ' '
    || c == '\U{85}' || c == '\U{A0}' || c == '\U{1680}'
    || '\U{2000}' <= c <= '\U{200A}'
    || c == '\U{2028}' || c == '\U{2029}' || c == '\U{202F}' || c == '\U{205F}' || c == '\U{3000}'
  }

  /** `str.strip()`: nothing but outer whitespace goes. */
  function Strip(s: string): (r: string)
    ensures r == "" || (!IsSpace(r[0]) && !IsSpace(r[|r| - 1]))
    ensures |r| <= |s|
    ensures (r == s) <==> (s == "" || (!IsSpace(s[0]) && !IsSpace(s[|s| - 1])))
  {
    if s == "" then s
    else if IsSpace(s[0]) then Strip(s[1..])
    else if IsSpace(s[|s| - 1]) then Strip(s[..|s| - 1])
    else s
  }

  predicate All(p: char -> bool, s: string) {
    forall k | 0 <= k < |s| :: p(s[k])
  }

  lemma WrapLeft(p: char -> bool, s: string, a: string, r: string, b: string)
    requires s != "" && p(s[0]) && s[1..] == a + r + b && All(p, a)
    ensures s == [s[0]] + a + r + b && All(p, [s[0]] + a)
  {
    assert s == [s[0]] + s[1..];
  }

  lemma WrapRight(p: char -> bool, s: string, a: string, r: string, b: string)
    requires s != "" && p(s[|s| - 1]) && s[..|s| - 1] == a + r + b && All(p, b)
    ensures s == a + r + (b + [s[|s| - 1]]) && All(p, b + [s[|s| - 1]])
  {
    assert s == s[..|s| - 1] + [s[|s| - 1]];
  }

  /** Only outer whitespace goes; the rest stays in one piece. */
  lemma {:induction false} StripIsMiddle(s: string) returns (a: string, b: string)
    ensures s == a + Strip(s) + b && All(IsSpace, a) && All(IsSpace, b)
  {
    if s != "" && IsSpace(s[0]) {
      a, b := StripIsMiddle(s[1..]);
      WrapLeft(IsSpace, s, a, Strip(s), b);
      a := [s[0]] + a;
    } else if s != "" && IsSpace(s[|s| - 1]) {
      a, b := StripIsMiddle(s[..|s| - 1]);
      WrapRight(IsSpace, s, a, Strip(s), b);
      b := b + [s[|s| - 1]];
    } else {
      a, b := "", "";
    }
  }

  // ---------- case ----------

  /** `str.lower()` on ASCII letters; other characters stay. */
  function LowerAscii(c: char): char {
    if 'A' <= c <= 'Z' then c - 'A' + 'a' else c
  }

  function Lower(s: string): (r: string)
    ensures |r| == |s|
    ensures forall i | 0 <= i < |s| :: r[i] == LowerAscii(s[i])
  {
    seq(|s|, i requires 0 <= i < |s| => LowerAscii(s[i]))
  }

  lemma LowerIdempotent(s: string)
    ensures Lower(Lower(s)) == Lower(s)
  {
    assert forall i | 0 <= i < |s| :: LowerAscii(LowerAscii(s[i])) == LowerAscii(s[i]);
  }

  function UpperAscii(c: char): char {
    if 'a' <= c <= 'z' then c - 'a' + 'A' else c
  }

  function Upper(s: string): (r: string)
    ensures |r| == |s|
    ensures forall i | 0 <= i < |s| :: r[i] == UpperAscii(s[i])
  {
    seq(|s|, i requires 0 <= i < |s| => UpperAscii(s[i]))
  }

  /** The two cases of a letter are two characters that turn into each other; no other
      character changes. */
  lemma CasesArePaired(c: char)
    ensures 'a' <= c <= 'z' ==> 'A' <= UpperAscii(c) <= 'Z' && LowerAscii(UpperAscii(c)) == c
    ensures 'A' <= c <= 'Z' ==> 'a' <= LowerAscii(c) <= 'z' && UpperAscii(LowerAscii(c)) == c
    ensures !('a' <= c <= 'z') ==> UpperAscii(c) == c
    ensures !('A' <= c <= 'Z') ==> LowerAscii(c) == c
  {
  }

  /** Full lower-casing as far as it can yield an ASCII letter: besides A to Z only the
      Kelvin sign and the dotted capital I do, the latter followed by a combining dot. */
  function LowerChar(c: char): (r: string)
    ensures 1 <= |r| <= 2
  {
    if c == '\U{212A}' then "k"
    else if c == '\U{130}' then "i\U{307}"
    else [LowerAscii(c)]
  }

  function LowerText(s: string): string {
    if s == "" then "" else LowerChar(s[0]) + LowerText(s[1..])
  }
}

/** Counting with finite sets. */
module Counting {

  lemma SubsetSize<T>(a: set<T>, b: set<T>)
    requires a <= b
    ensures |a| <= |b|
  {
    assert b == a + (b - a);
  }

  lemma UnionSize<T>(a: set<T>, b: set<T>, c: set<T>)
    requires c <= a + b
    ensures |c| <= |a| + |b|
  {
    SubsetSize(c, a + b);
    assert a + b == a + (b - a);
    SubsetSize(b - a, b);
  }

  lemma MoreThanBefore<T>(a: set<T>, b: set<T>, n: int)
    requires |b - a| <= n
    ensures |b| <= |a| + n
  {
    UnionSize(a, b - a, b);
  }

  lemma Pick<T>(s: set<T>) returns (x: T)
    requires |s| > 0
    ensures x in s
  {
    x :| x in s;
  }
}

/** JavaScript's notion of outer whitespace, which differs from Python's. */
module BrowserText {
  import opened Text

  predicate IsBlank(c: char) {
    || '\t' <= c <= '\r'
    || c == ' ' || c == '\U{A0}' || c == '\U{1680}'
    || '\U{2000}' <= c <= '\U{200A}'
    || c == '\U{2028}' || c == '\U{2029}' || c == '\U{202F}' || c == '\U{205F}' || c == '\U{3000}' || c == '\U{FEFF}'
  }

  /** `String.prototype.trim`. */
  function Trim(s: string): (r: string)
    ensures r == "" || (!IsBlank(r[0]) && !IsBlank(r[|r| - 1]))
    ensures (r == s) <==> (s == "" || (!IsBlank(s[0]) && !IsBlank(s[|s| - 1])))
  {
    if s == "" then s
    else if IsBlank(s[0]) then Trim(s[1..])
    else if IsBlank(s[|s| - 1]) then Trim(s[..|s| - 1])
    else s
  }

  /** Only outer whitespace goes; the rest stays in one piece. */
  lemma {:induction false} TrimIsMiddle(s: string) returns (a: string, b: string)
    ensures s == a + Trim(s) + b && All(IsBlank, a) && All(IsBlank, b)
  {
    if s != "" && IsBlank(s[0]) {
      a, b := TrimIsMiddle(s[1..]);
      WrapLeft(IsBlank, s, a, Trim(s), b);
      a := [s[0]] + a;
    } else if s != "" && IsBlank(s[|s| - 1]) {
      a, b := TrimIsMiddle(s[..|s| - 1]);
      WrapRight(IsBlank, s, a, Trim(s), b);
      b := b + [s[|s| - 1]];
    } else {
      a, b := "", "";
    }
  }
}
