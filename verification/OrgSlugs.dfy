/** Organization slugs: backend/app/utils/text_utils.py turns a name into one, and
    backend/app/api/v1/auth.py searches for a free variant at signup. */
module OrgSlugs {
  import opened Text

  predicate IsWordChar(c: char) {
    'a' <= c <= 'z' || '0' <= c <= '9'
  }

  function SkipSpaces(s: string): (r: string)
    ensures |r| <= |s|
  {
    if s != "" && IsSpace(s[0]) then SkipSpaces(s[1..]) else s
  }

  /** Every run of whitespace becomes one blank. */
  function CollapseSpaces(s: string): string
    decreases |s|
  {
    if s == "" then ""
    else if IsSpace(s[0]) then " " + CollapseSpaces(SkipSpaces(s[1..]))
    else [s[0]] + CollapseSpaces(s[1..])
  }

  function NormalizeWhitespace(s: string): string {
    Strip(CollapseSpaces(s))
  }

  function SkipOthers(s: string): (r: string)
    ensures |r| <= |s| && (r == "" || IsWordChar(r[0]))
  {
    if s != "" && !IsWordChar(s[0]) then SkipOthers(s[1..]) else s
  }

  /** Every run of other characters becomes one dash. */
  function Dashes(s: string): string
    decreases |s|
  {
    if s == "" then ""
    else if !IsWordChar(s[0]) then "-" + Dashes(SkipOthers(s[1..]))
    else [s[0]] + Dashes(s[1..])
  }

  function StripDashes(s: string): string {
    if s == "" then s
    else if s[0] == '-' then StripDashes(s[1..])
    else if s[|s| - 1] == '-' then StripDashes(s[..|s| - 1])
    else s
  }

  function Slugify(name: string): string {
    StripDashes(Dashes(LowerText(NormalizeWhitespace(name))))
  }

  // ---------- what a slug is: the name's words joined with dashes ----------

  function Flush(word: string): seq<string> {
    if word == "" then [] else [word]
  }

  /** The words of `word + s`, where `word` is the part of a word read so far. */
  function Scan(word: string, s: string): seq<string>
    decreases |s|
  {
    if s == "" then Flush(word)
    else if IsWordChar(s[0]) then Scan(word + [s[0]], s[1..])
    else Flush(word) + Scan("", s[1..])
  }

  /** The maximal runs of letters and digits of the lower-cased name. */
  function Words(name: string): seq<string> {
    Scan("", LowerText(name))
  }

  function Join(words: seq<string>): string {
    if words == [] then ""
    else if |words| == 1 then words[0]
    else words[0] + "-" + Join(words[1..])
  }

  predicate IsWord(w: string) {
    w != "" && forall i | 0 <= i < |w| :: IsWordChar(w[i])
  }

  ghost predicate AllWords(words: seq<string>) {
    forall i | 0 <= i < |words| :: IsWord(words[i])
  }

  lemma {:induction false} ScanSkipsOthers(s: string)
    ensures Scan("", SkipOthers(s)) == Scan("", s)
  {
    if s != "" && !IsWordChar(s[0]) {
      ScanSkipsOthers(s[1..]);
    }
  }

  function Trailing(s: string): string {
    if s != "" && !IsWordChar(s[|s| - 1]) then "-" else ""
  }

  lemma JoinTwo(word: string, rest: seq<string>)
    requires rest != []
    ensures Join([word] + rest) == word + "-" + Join(rest)
  {
    assert ([word] + rest)[1..] == rest;
  }

  lemma AcrossGap(word: string, s: string, rest: seq<string>)
    requires word != "" && s != "" && !IsWordChar(s[0]) && SkipOthers(s[1..]) != ""
    requires rest != [] && Dashes(SkipOthers(s[1..])) == Join(rest) + Trailing(SkipOthers(s[1..]))
    ensures word + Dashes(s) == Join([word] + rest) + Trailing(s)
  {
    var y := SkipOthers(s[1..]);
    TrailingAfterSkip(s);
    JoinTwo(word, rest);
    Assoc(word, "-", Join(rest) + Trailing(y));
    Assoc(word + "-", Join(rest), Trailing(y));
  }

  lemma TrailingAfterSkip(s: string)
    requires s != "" && !IsWordChar(s[0]) && SkipOthers(s[1..]) != ""
    ensures Trailing(SkipOthers(s[1..])) == Trailing(s)
  {
    SkipKeepsEnd(s[1..]);
  }

  /** Everything that Dashes keeps, in terms of words. */
  lemma {:induction false} DashesAreJoins(word: string, s: string)
    requires word != ""
    ensures Scan(word, s) != []
    ensures word + Dashes(s) == Join(Scan(word, s)) + Trailing(s)
    decreases |s|, 1
  {
    if s == "" {
      assert word + Dashes(s) == word;
    } else if IsWordChar(s[0]) {
      DashesAreJoins(word + [s[0]], s[1..]);
      Assoc(word, [s[0]], Dashes(s[1..]));
      assert Trailing(s[1..]) == Trailing(s);
    } else {
      var y := SkipOthers(s[1..]);
      ScanSkipsOthers(s[1..]);
      if y == "" {
        LastGap(word, s);
      } else {
        DashesFromWord(y);
        AcrossGap(word, s, Scan("", y));
      }
    }
  }

  lemma LastGap(word: string, s: string)
    requires word != "" && s != "" && !IsWordChar(s[0]) && SkipOthers(s[1..]) == ""
    ensures word + Dashes(s) == word + "-" && Trailing(s) == "-" && Scan(word, s) == [word]
  {
    ScanSkipsOthers(s[1..]);
    SkipKeepsEnd(s[1..]);
    assert "-" + "" == "-";
    assert [word] + [] == [word];
    if |s| > 1 { assert s[|s| - 1] == s[1..][|s| - 2]; }
  }

  lemma DashesFromWord(y: string)
    requires y != "" && IsWordChar(y[0])
    ensures Scan("", y) != [] && Dashes(y) == Join(Scan("", y)) + Trailing(y)
    decreases |y|, 0
  {
    DashesAreJoins([y[0]], y[1..]);
    assert "" + [y[0]] == [y[0]];
    assert Trailing(y[1..]) == Trailing(y);
  }

  lemma {:induction false} SkipKeepsEnd(s: string)
    ensures var y := SkipOthers(s);
            if y == "" then forall i | 0 <= i < |s| :: !IsWordChar(s[i])
            else s != "" && y[|y| - 1] == s[|s| - 1]
  {
    if s != "" && !IsWordChar(s[0]) {
      SkipKeepsEnd(s[1..]);
      assert forall i | 0 < i < |s| :: s[i] == s[1..][i - 1];
    }
  }

  lemma {:induction false} ScanGivesWords(word: string, s: string)
    requires forall i | 0 <= i < |word| :: IsWordChar(word[i])
    ensures AllWords(Scan(word, s))
    decreases |s|
  {
    if s != "" {
      if IsWordChar(s[0]) {
        ScanGivesWords(word + [s[0]], s[1..]);
      } else {
        ScanGivesWords("", s[1..]);
      }
    }
  }

  /** The text is a slug: words with one dash between them. */
  predicate IsSlug(s: string) {
    && (forall i | 0 <= i < |s| :: IsWordChar(s[i]) || s[i] == '-')
    && (s != "" ==> s[0] != '-' && s[|s| - 1] != '-')
    && (forall i | 0 <= i < |s| - 1 :: s[i] == '-' ==> s[i + 1] != '-')
  }

  lemma {:induction false} JoinIsSlug(words: seq<string>)
    requires AllWords(words)
    ensures IsSlug(Join(words)) && (words != [] ==> Join(words) != "")
  {
    if |words| > 1 {
      JoinIsSlug(words[1..]);
    }
  }

  lemma StripDashesOff(a: string, s: string, b: string)
    requires IsSlug(s) && (a == "" || a == "-") && (b == "" || b == "-")
    ensures StripDashes(a + s + b) == s
  {
    var t := a + s + b;
    assert StripDashes(s) == s;
    if b == "-" {
      assert (s + b)[..|s| + 1 - 1] == s;
      assert StripDashes(s + b) == s by {
        if s == "" { assert (s + b)[1..] == s; } else { assert (s + b)[0] == s[0]; }
      }
    } else {
      assert s + b == s;
    }
    if a == "-" { assert t[1..] == s + b; } else { assert t == s + b; }
  }

  lemma StrippedDashes(s: string)
    ensures StripDashes(Dashes(s)) == Join(Scan("", s))
  {
    ScanGivesWords("", s);
    JoinIsSlug(Scan("", s));
    var y := SkipOthers(s);
    ScanSkipsOthers(s);
    if y == "" {
      NothingButOthers(s);
    } else {
      DashesFromWord(y);
      DashesWhole(s);
      StripDashesOff(if IsWordChar(s[0]) then "" else "-", Join(Scan("", y)), Trailing(s));
    }
  }

  lemma NothingButOthers(s: string)
    requires SkipOthers(s) == ""
    ensures StripDashes(Dashes(s)) == ""
  {
    assert "-" + "" == "-" && "-"[1..] == "";
  }

  lemma DashesWhole(s: string)
    requires SkipOthers(s) != "" && Dashes(SkipOthers(s)) == Join(Scan("", s)) + Trailing(SkipOthers(s))
    ensures Dashes(s) == (if IsWordChar(s[0]) then "" else "-") + Join(Scan("", s)) + Trailing(s)
  {
    var y, joined := SkipOthers(s), Join(Scan("", s));
    if IsWordChar(s[0]) {
      assert "" + joined == joined;
    } else {
      TrailingAfterSkip(s);
      Assoc("-", joined, Trailing(y));
    }
  }

  // ---------- whitespace and case do not matter to the words ----------

  lemma {:induction false} LowerAppend(a: string, b: string)
    ensures LowerText(a + b) == LowerText(a) + LowerText(b)
  {
    if a == "" {
      assert a + b == b;
    } else {
      LowerAppend(a[1..], b);
      assert (a + b)[1..] == a[1..] + b;
      Assoc(LowerChar(a[0]), LowerText(a[1..]), LowerText(b));
    }
  }

  lemma LowerSpace(c: char)
    requires IsSpace(c)
    ensures LowerChar(c) == [c] && !IsWordChar(c)
  {
  }

  lemma {:induction false} SpacesAreSkipped(s: string)
    ensures Scan("", LowerText(SkipSpaces(s))) == Scan("", LowerText(s))
  {
    if s != "" && IsSpace(s[0]) {
      LowerSpace(s[0]);
      SpacesAreSkipped(s[1..]);
      assert LowerText(s)[1..] == LowerText(s[1..]);
    }
  }

  lemma {:induction false} CollapseKeepsWords(word: string, s: string)
    ensures Scan(word, LowerText(CollapseSpaces(s))) == Scan(word, LowerText(s))
    decreases |s|
  {
    if s != "" {
      var low := LowerText(s[1..]);
      if IsSpace(s[0]) {
        var t := SkipSpaces(s[1..]);
        LowerSpace(s[0]);
        LowerSpace(' ');
        CollapseKeepsWords("", t);
        SpacesAreSkipped(s[1..]);
        assert LowerText(s)[1..] == low;
        var c := " " + CollapseSpaces(t);
        assert c[1..] == CollapseSpaces(t);
        assert LowerText(c)[1..] == LowerText(CollapseSpaces(t));
      } else {
        var p, c := LowerChar(s[0]), [s[0]] + CollapseSpaces(s[1..]);
        assert c[1..] == CollapseSpaces(s[1..]);
        ScanStep(word, p, LowerText(CollapseSpaces(s[1..])));
        ScanStep(word, p, low);
        CollapseKeepsWords(After(word, p), s[1..]);
      }
    }
  }

  /** The word part that is open after reading p. */
  function After(word: string, p: string): string
    decreases |p|
  {
    if p == "" then word
    else if IsWordChar(p[0]) then After(word + [p[0]], p[1..])
    else After("", p[1..])
  }

  /** The words completed while reading p. */
  function Closed(word: string, p: string): seq<string>
    decreases |p|
  {
    if p == "" then []
    else if IsWordChar(p[0]) then Closed(word + [p[0]], p[1..])
    else Flush(word) + Closed("", p[1..])
  }

  lemma {:induction false} ScanStep(word: string, p: string, s: string)
    ensures Scan(word, p + s) == Closed(word, p) + Scan(After(word, p), s)
    decreases |p|
  {
    if p == "" {
      assert p + s == s;
    } else {
      assert (p + s)[1..] == p[1..] + s;
      if IsWordChar(p[0]) {
        ScanStep(word + [p[0]], p[1..], s);
      } else {
        ScanStep("", p[1..], s);
      }
    }
  }

  lemma {:induction false} StripKeepsWords(s: string)
    ensures Scan("", LowerText(Strip(s))) == Scan("", LowerText(s))
    decreases |s|
  {
    if s == "" {
    } else if IsSpace(s[0]) {
      LowerSpace(s[0]);
      StripKeepsWords(s[1..]);
      assert LowerText(s)[1..] == LowerText(s[1..]);
    } else if IsSpace(s[|s| - 1]) {
      var front, last := s[..|s| - 1], [s[|s| - 1]];
      assert s == front + last;
      LowerSpace(last[0]);
      LowerAppend(front, last);
      assert last[1..] == "" && LowerText(last) == last;
      StripKeepsWords(front);
      ScanStep("", LowerText(front), last);
      ScanStep("", LowerText(front), "");
      assert LowerText(front) + "" == LowerText(front);
      var open := After("", LowerText(front));
      assert Scan(open, last) == Flush(open) + Scan("", "");
      assert Scan(open, last) == Scan(open, "");
    }
  }

  /** A slug is the words of the lower-cased name, in order, joined with dashes. */
  lemma SlugIsItsWords(name: string)
    ensures Slugify(name) == Join(Words(name))
  {
    StrippedDashes(LowerText(NormalizeWhitespace(name)));
    StripKeepsWords(CollapseSpaces(name));
    CollapseKeepsWords("", name);
  }

  // ---------- slugs are stable ----------

  lemma {:induction false} LowerKeepsSlug(s: string)
    requires forall i | 0 <= i < |s| :: IsWordChar(s[i]) || s[i] == '-'
    ensures LowerText(s) == s
  {
    if s != "" {
      LowerKeepsSlug(s[1..]);
    }
  }

  lemma {:induction false} WordIsRead(word: string, w: string, s: string)
    requires forall i | 0 <= i < |w| :: IsWordChar(w[i])
    ensures Scan(word, w + s) == Scan(word + w, s)
    decreases |w|
  {
    if w == "" {
      assert w + s == s && word + w == word;
    } else {
      assert (w + s)[1..] == w[1..] + s;
      WordIsRead(word + [w[0]], w[1..], s);
      assert word + [w[0]] + w[1..] == word + w;
    }
  }

  /** The words can be read back from the slug. */
  lemma {:induction false} JoinReadsBack(words: seq<string>)
    requires AllWords(words)
    ensures Scan("", Join(words)) == words
  {
    if words != [] {
      var w, rest := words[0], words[1..];
      assert "" + w == w;
      if rest == [] {
        WordIsRead("", w, "");
        assert w + "" == w;
      } else {
        var tail := "-" + Join(rest);
        WordIsRead("", w, tail);
        assert w + "-" + Join(rest) == w + tail;
        assert tail[1..] == Join(rest);
        JoinReadsBack(rest);
        assert words == [w] + rest;
      }
    }
  }

  lemma SlugifyGivesSlugs(name: string)
    ensures IsSlug(Slugify(name))
    ensures Words(name) != [] ==> Slugify(name) != ""
  {
    SlugIsItsWords(name);
    ScanGivesWords("", LowerText(name));
    JoinIsSlug(Words(name));
  }

  /** Word characters with single dashes between or around them. */
  predicate SingleDashes(s: string) {
    && (forall i | 0 <= i < |s| :: IsWordChar(s[i]) || s[i] == '-')
    && (forall i | 0 <= i < |s| - 1 :: s[i] == '-' ==> s[i + 1] != '-')
  }

  lemma SingleDashesTail(s: string)
    requires s != "" && SingleDashes(s)
    ensures SingleDashes(s[1..])
  {
    var r := s[1..];
    assert forall i | 0 <= i < |r| :: r[i] == s[i + 1];
    forall i | 0 <= i < |r| - 1 ensures r[i] == '-' ==> r[i + 1] != '-' {
      assert r[i] == s[i + 1] && r[i + 1] == s[(i + 1) + 1];
    }
  }

  lemma {:induction false} DashesKeepSlug(s: string)
    requires SingleDashes(s) && (s == "" || s[|s| - 1] != '-')
    ensures Dashes(s) == s
  {
    if s != "" {
      SingleDashesTail(s);
      DashesKeepSlug(s[1..]);
      if s[0] == '-' {
        assert s[0 + 1] != '-' && s[1..][0] == s[1];
        assert SkipOthers(s[1..]) == s[1..];
      }
    }
  }

  /** The slugs are exactly the texts that slugify leaves as they are, so slugify is
      idempotent and every slug is some name's. */
  lemma SlugsAreTheFixpoints(s: string)
    ensures Slugify(s) == s <==> IsSlug(s)
    ensures Slugify(Slugify(s)) == Slugify(s)
  {
    SlugifyGivesSlugs(s);
    if IsSlug(s) { SlugIsFixed(s); }
    SlugIsFixed(Slugify(s));
  }

  lemma SlugIsFixed(s: string)
    requires IsSlug(s)
    ensures Slugify(s) == s
  {
    SlugIsItsWords(s);
    LowerKeepsSlug(s);
    StrippedDashes(s);
    DashesKeepSlug(s);
    if s == "" { assert Dashes(s) == s; }
  }

  // ---------- the words of a name, character by character ----------

  predicate AsciiLetterOrDigit(c: char) {
    'a' <= c <= 'z' || 'A' <= c <= 'Z' || '0' <= c <= '9'
  }

  /** Any other character, but for the two that lower-case to an ASCII letter, ends a word. */
  lemma SeparatorSplits(a: string, c: char, b: string)
    requires !AsciiLetterOrDigit(c) && c != '\U{212A}' && c != '\U{130}'
    ensures Words(a + [c] + b) == Words(a) + Words(b)
  {
    var open, rest := After("", LowerText(a)), [c] + LowerText(b);
    assert a + [c] + b == a + ([c] + b) && ([c] + b)[1..] == b && rest[1..] == LowerText(b);
    LowerAppend(a, [c] + b);
    ScanStep("", LowerText(a), rest);
    ScanStep("", LowerText(a), "");
    assert LowerText(a) + "" == LowerText(a);
    assert Scan(open, rest) == Flush(open) + Scan("", LowerText(b));
    Assoc(Closed("", LowerText(a)), Flush(open), Scan("", LowerText(b)));
  }

  lemma {:induction false} LowerOfAscii(s: string)
    requires forall i | 0 <= i < |s| :: AsciiLetterOrDigit(s[i])
    ensures LowerText(s) == Lower(s)
  {
    if s != "" {
      LowerOfAscii(s[1..]);
      assert Lower(s) == [LowerAscii(s[0])] + Lower(s[1..]);
    }
  }

  /** Letters and digits alone are one word, in lower case. */
  lemma LettersAreOneWord(w: string)
    requires w != "" && forall i | 0 <= i < |w| :: AsciiLetterOrDigit(w[i])
    ensures Words(w) == [Lower(w)]
    ensures forall i | 0 <= i < |w| :: 'a' <= Lower(w)[i] <= 'z' || '0' <= Lower(w)[i] <= '9'
  {
    LowerOfAscii(w);
    WordIsRead("", Lower(w), "");
    assert Lower(w) + "" == Lower(w) && "" + Lower(w) == Lower(w);
  }

  /** Two names get one slug exactly when they have the same words. */
  lemma SameSlugIff(a: string, b: string)
    ensures Slugify(a) == Slugify(b) <==> Words(a) == Words(b)
  {
    SlugIsItsWords(a);
    SlugIsItsWords(b);
    ScanGivesWords("", LowerText(a));
    ScanGivesWords("", LowerText(b));
    JoinReadsBack(Words(a));
    JoinReadsBack(Words(b));
  }
}
