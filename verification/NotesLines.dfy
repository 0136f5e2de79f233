/** What the draft of the release notes says, line by line and word by word. */
module NotesLines {
  import opened Prelude
  import opened ReleaseNotes

  // -------------------------------------------------------------------------------------- words

  /** The length of the word in front. */
  function WordLength(s: string): (n: nat)
    ensures n <= |s| && forall i :: 0 <= i < n ==> !IsWhite(s[i])
    ensures n < |s| ==> IsWhite(s[n])
  {
    if s == "" || IsWhite(s[0]) then 0 else 1 + WordLength(s[1..])
  }

  /** The words of a text, what stands between white space. */
  function Words(s: string): seq<string>
    decreases |s|
  {
    if s == "" then []
    else if IsWhite(s[0]) then Words(s[1..])
    else [s[..WordLength(s)]] + Words(s[WordLength(s)..])
  }

  /** The text with every backtick replaced by an apostrophe. */
  function Unticked(s: string): string { seq(|s|, i requires 0 <= i < |s| => if s[i] == '`' then '\'' else s[i]) }

  lemma {:induction false} QuotedIs(s: string)
    ensures Quoted(s) == Unticked(s)
  {
    if s != "" { QuotedIs(s[1..]); }
  }

  lemma {:induction false} WordsDrop(s: string)
    ensures Words(DropWhite(s)) == Words(s)
  {
    hide IsWhite;
    if s != "" && IsWhite(s[0]) { WordsDrop(s[1..]); }
  }

  lemma {:induction false} SqueezedWord(s: string)
    ensures Squeezed(s) == s[..WordLength(s)] + Squeezed(s[WordLength(s)..])
  {
    hide IsWhite;
    if s == "" || IsWhite(s[0]) {
      assert s[..0] == "" && s[0..] == s;
    } else {
      SqueezedWord(s[1..]);
      var n := WordLength(s[1..]);
      assert s[..1 + n] == [s[0]] + s[1..][..n] && s[1 + n..] == s[1..][n..];
    }
  }

  lemma {:induction false} EndOfSum(p: string, q: string)
    requires q != "" && !IsWhite(q[0])
    ensures DropWhiteEnd(p + q) == p + DropWhiteEnd(q) && DropWhiteEnd(q) != ""
  {
    hide IsWhite;
    if IsWhite(q[|q| - 1]) {
      assert (p + q)[..|p + q| - 1] == p + q[..|q| - 1];
      EndOfSum(p, q[..|q| - 1]);
    }
  }

  lemma EndOfWord(w: string)
    requires w == "" || !IsWhite(w[|w| - 1])
    ensures DropWhiteEnd(w) == w && (w != "" ==> DropWhiteEnd(w + " ") == w)
  {
    hide IsWhite;
    SpaceIsWhite();
    assert (w + " ")[..|w + " "| - 1] == w;
  }

  lemma SpaceIsWhite()
    ensures IsWhite(' ')
  {}

  /** Squeezing and trimming leave the words, one space between them. */
  lemma {:induction false} SqueezedWords(s: string)
    requires s == "" || !IsWhite(s[0])
    ensures DropWhiteEnd(Squeezed(s)) == Joined(Words(s), " ")
    decreases |s|
  {
    hide IsWhite, DropWhite, DropWhiteEnd;
    if s == "" {
      EndOfWord("");
    } else {
      var n := WordLength(s);
      var w, t := s[..n], s[n..];
      assert n >= 1;
      SqueezedWord(s);
      WordsOfRest(t);
      if t == "" {
        EndOfWord(w);
        assert Squeezed(s) == w + "" == w;
      } else {
        var r := DropWhite(t);
        assert Squeezed(t) == " " + Squeezed(r);
        SqueezedWords(r);
        assert Squeezed(s) == w + " " + Squeezed(r);
        if r == "" {
          EndOfWord(w);
          assert w + " " + "" == w + " ";
        } else {
          FirstStays(r);
          EndOfSum(w + " ", Squeezed(r));
          assert Words(r) != [];
          assert Words(s) == [w] + Words(r) && Words(s)[1..] == Words(r);
        }
      }
    }
  }

  lemma WordsOfRest(t: string)
    requires t == "" || IsWhite(t[0])
    ensures Words(t) == Words(DropWhite(t))
    ensures t != "" ==> |DropWhite(t)| < |t| && (DropWhite(t) == "" || !IsWhite(DropWhite(t)[0]))
    ensures t == "" ==> Words(t) == []
  {
    WordsDrop(t);
    WhiteIsDropped(t);
  }

  lemma FirstStays(r: string)
    requires r != "" && !IsWhite(r[0])
    ensures Squeezed(r) != "" && !IsWhite(Squeezed(r)[0])
  {}

  lemma SqueezedDrop(s: string)
    ensures DropWhite(Squeezed(s)) == Squeezed(DropWhite(s))
  {
    hide IsWhite;
    SpaceIsWhite();
    WhiteIsDropped(s);
    var d := DropWhite(s);
    if s != "" && IsWhite(s[0]) {
      assert Squeezed(s) == " " + Squeezed(d);
      assert Squeezed(s)[1..] == Squeezed(d);
      assert DropWhite(Squeezed(s)) == DropWhite(Squeezed(d));
    }
    if d != "" { FirstStays(d); }
  }

  /** A cleaned text is the words of the text, its backticks replaced, with one space between them. */
  lemma CleaningMeans(s: string)
    ensures CleanMarkdownText(s) == Joined(Words(Unticked(s)), " ")
  {
    hide IsWhite, Squeezed, DropWhite, DropWhiteEnd, Words, Unticked;
    var q := Unticked(s);
    QuotedIs(s);
    SqueezedDrop(q);
    WhiteIsDropped(q);
    SqueezedWords(DropWhite(q));
    WordsDrop(q);
  }

  // -------------------------------------------------------------------------------------- lines

  /** The lines of the draft. */
  function Lines(cs: seq<GitCommit>, rangeLabel: string): seq<string> {
    Head(rangeLabel) + Sections(cs, Names(cs))
  }

  /** The commit is listed at line `j`, behind the heading of its category at line `i`, and between the two
      there is nothing but other commits and an empty line. */
  ghost predicate ListedUnder(lines: seq<string>, category: string, c: GitCommit, i: int, j: int) {
    && 0 <= i < j < |lines|
    && lines[i] == "## " + category
    && lines[j] == "- " + CleanMarkdownText(c.subject) + " (`" + c.shortHash + "`)"
    && forall k :: i < k < j ==> lines[k] == "" || "- " <= lines[k]
  }

  lemma ListedInside(a: seq<string>, b: seq<string>, d: seq<string>, category: string, c: GitCommit, i: int, j: int)
    requires ListedUnder(b, category, c, i, j)
    ensures ListedUnder(a + b + d, category, c, |a| + i, |a| + j)
  {
    hide CleanMarkdownText;
    var t := a + b + d;
    assert forall k :: 0 <= k < |b| ==> t[|a| + k] == b[k];
    forall k | |a| + i < k < |a| + j
      ensures t[k] == "" || "- " <= t[k]
    {
      assert t[k] == b[k - |a|];
    }
  }

  lemma {:induction false} EntryIsThere(cs: seq<GitCommit>, c: GitCommit) returns (k: nat)
    requires c in cs
    ensures k < |Entries(cs)| && Entries(cs)[k] == "- " + CleanMarkdownText(c.subject) + " (`" + c.shortHash + "`)"
  {
    hide CleanMarkdownText;
    var init, last := cs[..|cs| - 1], cs[|cs| - 1];
    assert cs == init + [last];
    if c in init { k := EntryIsThere(init, c); } else { k := |Entries(init)|; }
  }

  lemma {:induction false} EntriesAreEntries(cs: seq<GitCommit>)
    ensures forall k :: 0 <= k < |Entries(cs)| ==> "- " <= Entries(cs)[k]
  {
    hide CleanMarkdownText;
    if cs != [] { EntriesAreEntries(cs[..|cs| - 1]); }
  }

  lemma {:induction false} IsOfItsCategory(cs: seq<GitCommit>, c: GitCommit)
    requires c in cs
    ensures c in Of(cs, CategoryFor(c)) && CategoryFor(c) in Names(cs)
  {
    hide CategoryFor;
    var init, last := cs[..|cs| - 1], cs[|cs| - 1];
    assert cs == init + [last];
    if c in init { IsOfItsCategory(init, c); }
  }

  lemma ListedInSection(cs: seq<GitCommit>, c: GitCommit)
    requires c in cs
    ensures exists i, j :: ListedUnder(Section(cs, CategoryFor(c)), CategoryFor(c), c, i, j)
  {
    hide CategoryFor, CleanMarkdownText, Entries, Of;
    IsOfItsCategory(cs, c);
    var of := Of(cs, CategoryFor(c));
    var k := EntryIsThere(of, c);
    EntriesAreEntries(of);
    var t := Section(cs, CategoryFor(c));
    assert forall m :: 0 <= m < |Entries(of)| ==> t[2 + m] == Entries(of)[m];
    forall m | 0 < m < 2 + k
      ensures t[m] == "" || "- " <= t[m]
    {
      if m >= 2 { assert t[m] == Entries(of)[m - 2]; }
    }
    assert ListedUnder(t, CategoryFor(c), c, 0, 2 + k);
  }

  lemma {:induction false} SectionIsThere(cs: seq<GitCommit>, names: seq<string>, name: string)
    returns (a: seq<string>, d: seq<string>)
    requires name in names
    ensures Sections(cs, names) == a + Section(cs, name) + d
  {
    hide Section;
    var init, last := names[..|names| - 1], names[|names| - 1];
    assert names == init + [last];
    if name in init {
      var b;
      a, b := SectionIsThere(cs, init, name);
      d := b + Section(cs, last);
    } else {
      a, d := Sections(cs, init), [];
    }
  }

  /** The draft is these lines, trimmed, and a line end; the first are the title and the range; and every
      commit is listed under the heading of its category. */
  lemma EveryCommitUnderItsHeading(cs: seq<GitCommit>, rangeLabel: string)
    ensures Draft(cs, rangeLabel) == Trim(Joined(Lines(cs, rangeLabel), "\n")) + "\n"
    ensures Lines(cs, rangeLabel)[..4]
            == ["# Release notes", "", "Changes in `" + CleanMarkdownText(rangeLabel) + "`.", ""]
    ensures forall c :: c in cs ==> exists i, j :: ListedUnder(Lines(cs, rangeLabel), CategoryFor(c), c, i, j)
  {
    hide CategoryFor, CleanMarkdownText, Section, Sections, Names, ListedUnder, Trim, Joined;
    forall c | c in cs
      ensures exists i, j :: ListedUnder(Lines(cs, rangeLabel), CategoryFor(c), c, i, j)
    {
      var name := CategoryFor(c);
      IsOfItsCategory(cs, c);
      ListedInSection(cs, c);
      var i, j :| ListedUnder(Section(cs, name), name, c, i, j);
      var a, d := SectionIsThere(cs, Names(cs), name);
      var head := Head(rangeLabel);
      assert head + (a + Section(cs, name) + d) == (head + a) + Section(cs, name) + d;
      ListedInside(head + a, Section(cs, name), d, name, c, i, j);
      assert ListedUnder(Lines(cs, rangeLabel), name, c, |head + a| + i, |head + a| + j);
    }
  }

  // ------------------------------------------------------------------------------------- counting

  /** The pattern stands nowhere in the part, not even where the pattern behind it would complete it. */
  ghost predicate FreeOf(part: string, pat: string) {
    forall j :: 0 <= j < |part| ==> !Matches(part + pat, j, pat)
  }

  /** The string is these parts with the pattern between them, found from the left. */
  ghost predicate SplitInto(s: string, pat: string, parts: seq<string>) {
    && parts != [] && Joined(parts, pat) == s
    && (forall k :: 0 <= k < |parts| - 1 ==> FreeOf(parts[k], pat))
    && !Includes(parts[|parts| - 1], pat)
  }

  /** The pattern occurs once less often than the string has parts. */
  lemma {:induction false} OccurrencesAreSplits(s: string, pat: string)
    requires pat != ""
    ensures exists parts :: SplitInto(s, pat, parts) && |parts| == Occurrences(s, pat) + 1
    decreases |s|
  {
    hide FreeOf, SplitInto;
    if |s| < |pat| {
      TooShort(s, pat);
      assert SplitInto(s, pat, [s]);
    } else if s[..|pat|] == pat {
      OccurrencesAreSplits(s[|pat|..], pat);
      var parts :| SplitInto(s[|pat|..], pat, parts) && |parts| == Occurrences(s[|pat|..], pat) + 1;
      PatternMore(s, pat, parts);
    } else {
      OccurrencesAreSplits(s[1..], pat);
      var parts :| SplitInto(s[1..], pat, parts) && |parts| == Occurrences(s[1..], pat) + 1;
      OneCharMore(s, pat, parts);
      assert |[[s[0]] + parts[0]] + parts[1..]| == |parts|;
    }
  }

  lemma TooShort(s: string, pat: string)
    requires |s| < |pat|
    ensures SplitInto(s, pat, [s])
  {}

  lemma PatternMore(s: string, pat: string, parts: seq<string>)
    requires |s| >= |pat| > 0 && s[..|pat|] == pat && SplitInto(s[|pat|..], pat, parts)
    ensures SplitInto(s, pat, [""] + parts)
  {
    hide Includes;
    var more := [""] + parts;
    assert more[1..] == parts && s == "" + pat + s[|pat|..];
    assert FreeOf("", pat);
    assert forall k :: 1 <= k < |more| ==> more[k] == parts[k - 1];
  }

  lemma OneCharMore(s: string, pat: string, parts: seq<string>)
    requires |s| >= |pat| > 0 && s[..|pat|] != pat && SplitInto(s[1..], pat, parts)
    ensures parts != [] && SplitInto(s, pat, [[s[0]] + parts[0]] + parts[1..])
  {
    hide Includes, FreeOf;
    var first := [s[0]] + parts[0];
    var more := [first] + parts[1..];
    assert forall k :: 1 <= k < |parts| ==> more[k] == parts[k];
    if |parts| == 1 {
      assert first == s;
      NowhereInLonger(s, pat);
    } else {
      assert more[1..] == parts[1..];
      var rest := Joined(parts[1..], pat);
      assert s[1..] == parts[0] + pat + rest;
      assert s == first + pat + rest;
      StillFree(s[0], parts[0], pat, rest);
    }
  }

  lemma OneFurther(s: string, j: nat, n: nat)
    requires 1 <= j && j + n <= |s|
    ensures s[j..j + n] == s[1..][j - 1..j - 1 + n]
  {
    var here, there := s[j..j + n], s[1..][j - 1..j - 1 + n];
    assert forall i :: 0 <= i < n ==> here[i] == there[i];
  }

  lemma NotAt(s: string, j: nat, pat: string)
    requires !Includes(s, pat)
    ensures !Matches(s, j, pat)
  {}

  lemma NowhereInLonger(s: string, pat: string)
    requires |s| >= |pat| > 0 && s[..|pat|] != pat && !Includes(s[1..], pat)
    ensures !Includes(s, pat)
  {
    forall j: nat
      ensures !Matches(s, j, pat)
    {
      if j > 0 && j + |pat| <= |s| {
        OneFurther(s, j, |pat|);
        NotAt(s[1..], j - 1, pat);
      }
    }
  }

  lemma StillFree(c: char, part: string, pat: string, rest: string)
    requires FreeOf(part, pat) && |pat| > 0 && ([c] + part + pat + rest)[..|pat|] != pat
    ensures FreeOf([c] + part, pat)
  {
    var t := [c] + part + pat;
    assert t[1..] == part + pat;
    forall j: nat | j < |[c] + part|
      ensures !Matches(t, j, pat)
    {
      if j == 0 {
        assert ([c] + part + pat + rest)[..|pat|] == t[..|pat|];
      } else if j + |pat| <= |t| {
        OneFurther(t, j, |pat|);
        assert !Matches(part + pat, j - 1, pat);
      }
    }
  }
}
