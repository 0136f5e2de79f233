/** The release-notes workflow: one step drafts the notes, an independent one reviews them.
    Text is characters; letter case is ASCII only. */
module ReleaseNotes {
  import opened Prelude

  datatype GitCommit = GitCommit(shortHash: string, subject: string, body: string)

  datatype Problem = NoHeading | NoCategory | Miscounted(shortHash: string, occurrences: nat)

  const TICK := '`'
  const QUOTE := '\''
  const TITLE := "# Release notes"

  // ---------------------------------------------------------------------------- plain strings

  /** White space, the line feed included. */
  predicate IsWhite(c: char) { c == '\n' || IsSpace(c) }

  function Quoted(s: string): (r: string)
    ensures TICK !in r && |r| == |s|
  {
    if s == "" then "" else [if s[0] == TICK then QUOTE else s[0]] + Quoted(s[1..])
  }

  function DropWhite(s: string): string {
    if s != "" && IsWhite(s[0]) then DropWhite(s[1..]) else s
  }

  /** Every run of white space becomes one space. */
  function Squeezed(s: string): string
    decreases |s|
  {
    if s == "" then ""
    else if IsWhite(s[0]) then WhiteIsDropped(s); " " + Squeezed(DropWhite(s))
    else [s[0]] + Squeezed(s[1..])
  }

  lemma {:induction false} WhiteIsDropped(s: string)
    ensures |DropWhite(s)| <= |s|
    ensures s != "" && IsWhite(s[0]) ==> |DropWhite(s)| < |s|
    ensures forall c :: c in DropWhite(s) ==> c in s
    ensures DropWhite(s) == "" || !IsWhite(DropWhite(s)[0])
  {
    if s != "" && IsWhite(s[0]) { WhiteIsDropped(s[1..]); }
  }

  function DropWhiteEnd(s: string): string {
    if s != "" && IsWhite(s[|s| - 1]) then DropWhiteEnd(s[..|s| - 1]) else s
  }

  function Trim(s: string): string { DropWhiteEnd(DropWhite(s)) }

  function CleanMarkdownText(s: string): string { Trim(Squeezed(Quoted(s))) }

  predicate Matches(s: string, i: nat, pat: string) { i + |pat| <= |s| && s[i..i + |pat|] == pat }

  ghost predicate Includes(s: string, pat: string) { exists i :: 0 <= i && Matches(s, i, pat) }

  /** How often `pat` is found when the search goes on behind each find. */
  function Occurrences(s: string, pat: string): nat
    requires pat != ""
    decreases |s|
  {
    if |s| < |pat| then 0
    else if s[..|pat|] == pat then 1 + Occurrences(s[|pat|..], pat)
    else Occurrences(s[1..], pat)
  }

  // ----------------------------------------------------------------------------- the category

  function Lower(s: string): (r: string)
    ensures |r| == |s|
  {
    if s == "" then "" else [if 'A' <= s[0] <= 'Z' then s[0] - 'A' + 'a' else s[0]] + Lower(s[1..])
  }

  function Letters(s: string): (n: nat)
    ensures n <= |s|
  {
    if s != "" && 'a' <= s[0] <= 'z' then 1 + Letters(s[1..]) else 0
  }

  function UpTo(s: string, c: char): (n: nat)
    ensures n <= |s|
    ensures n < |s| ==> s[n] == c
  {
    if s == "" || s[0] == c then 0 else 1 + UpTo(s[1..], c)
  }

  /** Behind an optional parenthesised scope; a parenthesis that is not closed is no scope. */
  function AfterScope(s: string): string {
    if s != "" && s[0] == '(' && UpTo(s[1..], ')') < |s[1..]| then s[1..][UpTo(s[1..], ')') + 1..] else s
  }

  predicate Header(s: string, kind: string) {
    StartsWith(s, kind) && StartsWith(AfterScope(s[|kind|..]), ":")
  }

  predicate BreakingHeader(s: string) {
    Letters(s) > 0 && StartsWith(AfterScope(s[Letters(s)..]), "!:")
  }

  /** No scope, or a parenthesised one. */
  predicate IsScope(scope: string) {
    scope == "" || (|scope| >= 2 && scope[0] == '(' && scope[|scope| - 1] == ')' && ')' !in scope[..|scope| - 1])
  }

  lemma {:induction false} UpToIs(s: string, c: char, n: nat)
    requires n < |s| && s[n] == c && c !in s[..n]
    ensures UpTo(s, c) == n
  {
    if n > 0 {
      assert s[0] in s[..n];
      assert s[1..][..n - 1] == s[..n][1..];
      UpToIs(s[1..], c, n - 1);
    }
  }

  lemma {:induction false} BeforeUpTo(s: string, c: char)
    ensures c !in s[..UpTo(s, c)]
  {
    if s != "" && s[0] != c {
      BeforeUpTo(s[1..], c);
      assert s[..UpTo(s, c)] == [s[0]] + s[1..][..UpTo(s[1..], c)];
    }
  }

  lemma SkippedScope(s: string) returns (scope: string)
    ensures IsScope(scope) && s == scope + AfterScope(s)
  {
    var n := if s == "" then 0 else UpTo(s[1..], ')');
    if s != "" && s[0] == '(' && n < |s[1..]| {
      scope := s[..n + 2];
      BeforeUpTo(s[1..], ')');
      assert scope[..n + 1] == ['('] + s[1..][..n];
      assert scope[n + 1] == s[1..][n];
    } else {
      scope := "";
    }
  }

  /** Skipping the scope is the only way to read an optional scope in front of `mark`. */
  lemma AfterScopeMeans(s: string, mark: string)
    requires mark != "" && mark[0] != '('
    ensures StartsWith(AfterScope(s), mark) <==> exists scope, rest :: IsScope(scope) && s == scope + mark + rest
  {
    hide AfterScope, IsScope;
    var skipped := SkippedScope(s);
    var t := AfterScope(s);
    if StartsWith(t, mark) {
      assert t == mark + t[|mark|..];
      assert s == skipped + mark + t[|mark|..];
    }
    if scope, rest :| IsScope(scope) && s == scope + mark + rest {
      ScopeIsSkipped(scope, mark + rest);
      assert s == scope + (mark + rest);
      assert (mark + rest)[..|mark|] == mark;
    }
  }

  lemma ScopeIsSkipped(scope: string, rest: string)
    requires IsScope(scope) && rest != "" && rest[0] != '('
    ensures AfterScope(scope + rest) == rest
  {
    if scope != "" {
      var t := (scope + rest)[1..];
      var n := |scope| - 2;
      assert t[..n] == scope[1..|scope| - 1];
      assert forall i :: 0 <= i < n ==> t[i] == scope[..|scope| - 1][i + 1];
      UpToIs(t, ')', n);
      assert t[n + 1..] == rest;
    }
  }

  /** A header names its kind, an optional scope, and a colon. */
  lemma HeaderMeans(s: string, kind: string)
    ensures Header(s, kind) <==> exists scope, rest :: IsScope(scope) && s == kind + (scope + ":" + rest)
  {
    hide AfterScope, IsScope;
    if Header(s, kind) {
      AfterScopeMeans(s[|kind|..], ":");
      var scope, rest :| IsScope(scope) && s[|kind|..] == scope + ":" + rest;
      assert s == kind + (scope + ":" + rest);
    }
    if scope, rest :| IsScope(scope) && s == kind + (scope + ":" + rest) {
      AfterScopeMeans(scope + ":" + rest, ":");
      assert s[|kind|..] == scope + ":" + rest;
    }
  }

  function CategoryFor(c: GitCommit): string {
    var header := Lower(c.subject);
    if BreakingHeader(header) || Occurrences(Lower(c.body), "breaking change:") > 0 then "Breaking changes"
    else if Header(header, "feat") then "Features"
    else if Header(header, "fix") then "Fixes"
    else if Header(header, "perf") then "Performance"
    else if Header(header, "docs") then "Documentation"
    else if Header(header, "test") then "Tests"
    else if Header(header, "build") || Header(header, "ci") then "Build and CI"
    else "Other changes"
  }

  lemma {:induction false} LowerAt(s: string, i: nat)
    requires i < |s|
    ensures Lower(s)[i] == if 'A' <= s[i] <= 'Z' then s[i] - 'A' + 'a' else s[i]
  {
    if i > 0 { LowerAt(s[1..], i - 1); }
  }

  /** One or more small letters. */
  predicate IsKind(kind: string) { kind != "" && forall i :: 0 <= i < |kind| ==> 'a' <= kind[i] <= 'z' }

  lemma {:induction false} LettersIs(s: string, n: nat)
    requires n <= |s| && (forall i :: 0 <= i < n ==> 'a' <= s[i] <= 'z')
    requires n < |s| ==> !('a' <= s[n] <= 'z')
    ensures Letters(s) == n
  {
    if n > 0 { LettersIs(s[1..], n - 1); }
  }

  lemma {:induction false} LettersAre(s: string)
    ensures forall i :: 0 <= i < Letters(s) ==> 'a' <= s[i] <= 'z'
  {
    if s != "" && 'a' <= s[0] <= 'z' {
      LettersAre(s[1..]);
      assert forall i :: 1 <= i < Letters(s) ==> s[i] == s[1..][i - 1];
    }
  }

  /** A breaking header names any kind, an optional scope, and an exclamation mark before the colon. */
  lemma BreakingHeaderMeans(s: string)
    ensures BreakingHeader(s)
            <==> exists kind, scope, rest :: IsKind(kind) && IsScope(scope) && s == kind + (scope + "!:" + rest)
  {
    hide AfterScope, IsScope;
    var n := Letters(s);
    LettersAre(s);
    AfterScopeMeans(s[n..], "!:");
    if BreakingHeader(s) {
      var scope, rest :| IsScope(scope) && s[n..] == scope + "!:" + rest;
      assert s == s[..n] + (scope + "!:" + rest) && IsKind(s[..n]);
    }
    if kind, scope, rest :| IsKind(kind) && IsScope(scope) && s == kind + (scope + "!:" + rest) {
      KindIsTheLetters(kind, scope, rest);
      assert s[n..] == scope + "!:" + rest;
    }
  }

  lemma KindIsTheLetters(kind: string, scope: string, rest: string)
    requires IsKind(kind) && IsScope(scope)
    ensures Letters(kind + (scope + "!:" + rest)) == |kind|
  {
    var s := kind + (scope + "!:" + rest);
    assert forall i :: 0 <= i < |kind| ==> s[i] == kind[i];
    assert s[|kind|] == (scope + "!:" + rest)[0];
    LettersIs(s, |kind|);
  }

  lemma {:induction false} FoundExactlyWhen(s: string, pat: string)
    requires pat != ""
    ensures Occurrences(s, pat) > 0 <==> exists a, b :: s == a + pat + b
    decreases |s|
  {
    if |s| >= |pat| {
      if s[..|pat|] == pat {
        assert s == "" + pat + s[|pat|..];
      } else {
        FoundExactlyWhen(s[1..], pat);
        if a, b :| s[1..] == a + pat + b {
          assert s == ([s[0]] + a) + pat + b;
        }
        if a, b :| s == a + pat + b {
          StartsWithFirst(pat, b);
          assert s[1..] == a[1..] + pat + b;
        }
      }
    }
  }

  lemma StartsWithFirst(pat: string, b: string)
    ensures ("" + pat + b)[..|pat|] == pat
  {}

  /** The subject, in small letters, names that kind, an optional scope, and a colon. */
  ghost predicate OfKind(c: GitCommit, kind: string) {
    exists scope, rest :: IsScope(scope) && Lower(c.subject) == kind + (scope + ":" + rest)
  }

  /** The subject has an exclamation mark before the colon, or the body speaks of a breaking change. */
  ghost predicate Breaking(c: GitCommit) {
    || (exists kind, scope, rest :: IsKind(kind) && IsScope(scope) && Lower(c.subject) == kind + (scope + "!:" + rest))
    || (exists a, b :: Lower(c.body) == a + "breaking change:" + b)
  }

  /** Which commit goes under which heading. */
  lemma CategoryMeans(c: GitCommit)
    ensures CategoryFor(c)
            == if Breaking(c) then "Breaking changes"
               else if OfKind(c, "feat") then "Features"
               else if OfKind(c, "fix") then "Fixes"
               else if OfKind(c, "perf") then "Performance"
               else if OfKind(c, "docs") then "Documentation"
               else if OfKind(c, "test") then "Tests"
               else if OfKind(c, "build") || OfKind(c, "ci") then "Build and CI"
               else "Other changes"
  {
    hide Header, BreakingHeader, Occurrences, IsScope, Lower, IsKind;
    var h := Lower(c.subject);
    BreakingHeaderMeans(h);
    FoundExactlyWhen(Lower(c.body), "breaking change:");
    HeaderMeans(h, "feat");
    HeaderMeans(h, "fix");
    HeaderMeans(h, "perf");
    HeaderMeans(h, "docs");
    HeaderMeans(h, "test");
    HeaderMeans(h, "build");
    HeaderMeans(h, "ci");
  }

  // -------------------------------------------------------------------------------- the draft

  /** The categories in the order in which they first appear. */
  function Names(cs: seq<GitCommit>): seq<string> {
    if cs == [] then []
    else
      var names, name := Names(cs[..|cs| - 1]), CategoryFor(cs[|cs| - 1]);
      if name in names then names else names + [name]
  }

  /** The commits of one category, in order. */
  function Of(cs: seq<GitCommit>, name: string): seq<GitCommit> {
    if cs == [] then []
    else
      var c := cs[|cs| - 1];
      Of(cs[..|cs| - 1], name) + (if CategoryFor(c) == name then [c] else [])
  }

  function Entry(c: GitCommit): string {
    "- " + CleanMarkdownText(c.subject) + " (`" + c.shortHash + "`)"
  }

  function Entries(cs: seq<GitCommit>): seq<string> {
    if cs == [] then [] else Entries(cs[..|cs| - 1]) + [Entry(cs[|cs| - 1])]
  }

  function Section(cs: seq<GitCommit>, name: string): seq<string> {
    ["## " + name, ""] + Entries(Of(cs, name)) + [""]
  }

  function Sections(cs: seq<GitCommit>, names: seq<string>): seq<string> {
    if names == [] then [] else Sections(cs, names[..|names| - 1]) + Section(cs, names[|names| - 1])
  }

  function Head(rangeLabel: string): seq<string> {
    [TITLE, "", "Changes in `" + CleanMarkdownText(rangeLabel) + "`.", ""]
  }

  function Draft(cs: seq<GitCommit>, rangeLabel: string): string {
    Trim(Joined(Head(rangeLabel) + Sections(cs, Names(cs)), "\n")) + "\n"
  }

  lemma NamesOneMore(cs: seq<GitCommit>, c: GitCommit)
    ensures Names(cs + [c]) == if CategoryFor(c) in Names(cs) then Names(cs) else Names(cs) + [CategoryFor(c)]
    ensures forall name :: Of(cs + [c], name) == Of(cs, name) + (if CategoryFor(c) == name then [c] else [])
  {
  }

  lemma {:induction false} NamedExactly(cs: seq<GitCommit>, name: string)
    ensures name in Names(cs) <==> Of(cs, name) != []
  {
    hide CategoryFor;
    if cs != [] { NamedExactly(cs[..|cs| - 1], name); }
  }

  lemma SectionsOneMore(cs: seq<GitCommit>, names: seq<string>, name: string)
    ensures Sections(cs, names + [name]) == Sections(cs, names) + Section(cs, name)
  {
  }

  lemma EntriesOneMore(cs: seq<GitCommit>, c: GitCommit)
    ensures Entries(cs + [c]) == Entries(cs) + [Entry(c)]
  {
  }

  /** The categories are collected in a map that remembers the order of insertion. */
  method Group(cs: seq<GitCommit>) returns (order: seq<string>, entries: map<string, seq<GitCommit>>)
    ensures order == Names(cs)
    ensures forall name :: name in entries <==> name in order
    ensures forall name :: name in entries ==> entries[name] == Of(cs, name)
  {
    hide CategoryFor, Names, Of;
    order, entries := [], map[];
    NothingGrouped();
    for i := 0 to |cs|
      invariant order == Names(cs[..i])
      invariant forall name :: name in entries <==> name in order
      invariant forall name :: name in entries ==> entries[name] == Of(cs[..i], name)
    {
      var commit := cs[i];
      assert cs[..i + 1] == cs[..i] + [commit];
      NamesOneMore(cs[..i], commit);
      var category := CategoryFor(commit);
      NamedExactly(cs[..i], category);
      var known := if category in entries then entries[category] else [];
      if category !in entries { order := order + [category]; }
      entries := entries[category := known + [commit]];
    }
    assert cs[..|cs|] == cs;
  }

  lemma NothingGrouped()
    ensures Names([]) == [] && forall name :: Of([], name) == []
  {
  }

  method DraftReleaseNotes(cs: seq<GitCommit>, rangeLabel: string) returns (notes: string)
    ensures notes == Draft(cs, rangeLabel)
  {
    hide CategoryFor, Names, Of, Entries, Sections, Entry, Head, Joined, Trim;
    var order, entries := Group(cs);
    var lines := Head(rangeLabel);
    NothingListed(cs);
    for i := 0 to |order|
      invariant lines == Head(rangeLabel) + Sections(cs, order[..i])
    {
      var name := order[i];
      assert order[..i + 1] == order[..i] + [name];
      SectionsOneMore(cs, order[..i], name);
      var commits := entries[name];
      var listed := lines + ["## " + name, ""];
      for j := 0 to |commits|
        invariant listed == lines + ["## " + name, ""] + Entries(commits[..j])
      {
        assert commits[..j + 1] == commits[..j] + [commits[j]];
        EntriesOneMore(commits[..j], commits[j]);
        listed := listed + [Entry(commits[j])];
      }
      assert commits[..|commits|] == commits;
      lines := listed + [""];
    }
    assert order[..|order|] == order;
    notes := Trim(Joined(lines, "\n")) + "\n";
  }

  lemma NothingListed(cs: seq<GitCommit>)
    ensures Entries([]) == [] && Sections(cs, []) == []
  {
  }

  // ------------------------------------------------------------------------------- the review

  function Marker(hash: string): string { "`" + hash + "`" }

  function Complaints(notes: string, cs: seq<GitCommit>): seq<Problem> {
    if cs == [] then []
    else
      var hash := cs[|cs| - 1].shortHash;
      var n := Occurrences(notes, Marker(hash));
      Complaints(notes, cs[..|cs| - 1]) + (if n != 1 then [Miscounted(hash, n)] else [])
  }

  ghost function Review(notes: string, cs: seq<GitCommit>): seq<Problem> {
    (if StartsWith(notes, TITLE + "\n") then [] else [NoHeading])
    + (if Includes(notes, "\n## ") then [] else [NoCategory])
    + Complaints(notes, cs)
  }

  method Find(s: string, pat: string) returns (found: bool)
    ensures found <==> Includes(s, pat)
  {
    var i := 0;
    while i + |pat| <= |s| && s[i..i + |pat|] != pat
      invariant forall j :: 0 <= j < i ==> !Matches(s, j, pat)
      decreases |s| - i
    {
      i := i + 1;
    }
    found := i + |pat| <= |s|;
    assert found ==> Matches(s, i, pat);
  }

  method ReviewReleaseNotes(notes: string, cs: seq<GitCommit>) returns (problems: seq<Problem>)
    ensures problems == Review(notes, cs)
  {
    hide Includes, Occurrences, StartsWith;
    problems := [];
    if !StartsWith(notes, TITLE + "\n") { problems := problems + [NoHeading]; }
    var found := Find(notes, "\n## ");
    if !found { problems := problems + [NoCategory]; }
    ghost var first := problems;
    for i := 0 to |cs|
      invariant problems == first + Complaints(notes, cs[..i])
    {
      assert cs[..i + 1][..i] == cs[..i];
      var n := Occurrences(notes, Marker(cs[i].shortHash));
      if n != 1 { problems := problems + [Miscounted(cs[i].shortHash, n)]; }
    }
    assert cs[..|cs|] == cs;
  }

  // ------------------------------------------------------------------- counting markers by line

  predicate Plain(s: string) { TICK !in s && '\n' !in s }

  lemma {:induction false} OccursInPlain(t: string, rest: string, hash: string)
    requires TICK !in t
    ensures Occurrences(t + rest, Marker(hash)) == Occurrences(rest, Marker(hash))
  {
    if t == "" {
      assert t + rest == rest;
    } else {
      OccursInPlain(t[1..], rest, hash);
      assert (t + rest)[1..] == t[1..] + rest;
      assert (t + rest)[0] == t[0] && Marker(hash)[0] == TICK;
    }
  }

  lemma OccursNowhere(t: string, hash: string)
    requires TICK !in t
    ensures Occurrences(t, Marker(hash)) == 0
  {
    OccursInPlain(t, "", hash);
    assert t + "" == t;
  }

  lemma MarkerPrefixes(text: string, rest: string, hash: string)
    requires TICK !in text && TICK !in hash
    ensures StartsWith("`" + text + "`" + rest, Marker(hash)) <==> text == hash
  {
    var s, m := "`" + text + "`" + rest, Marker(hash);
    assert m[|hash| + 1] == TICK && s[|text| + 1] == TICK;
    assert forall i :: 0 <= i < |hash| ==> m[i + 1] == hash[i];
    assert forall i :: 0 <= i < |text| ==> s[i + 1] == text[i];
    if text == hash {
      assert s[..|m|] == m;
    }
  }

  /** The only place where a marker can be found is the span between the two backticks. */
  lemma OccursInSpan(text: string, rest: string, hash: string)
    requires TICK !in text && TICK !in rest && TICK !in hash
    ensures Occurrences("`" + text + "`" + rest, Marker(hash)) == if text == hash then 1 else 0
  {
    var s, m := "`" + text + "`" + rest, Marker(hash);
    MarkerPrefixes(text, rest, hash);
    if text == hash {
      assert s[|m|..] == rest;
      OccursNowhere(rest, hash);
    } else {
      assert s[1..] == text + ("`" + rest);
      OccursInPlain(text, "`" + rest, hash);
      var t := "`" + rest;
      assert t[1..] == rest;
      OccursNowhere(rest, hash);
      assert m[|hash| + 1] == TICK;
      assert |m| <= |t| ==> t[..|m|][|hash| + 1] == rest[|hash|];
    }
  }

  lemma OccursInLine(before: string, text: string, after: string, hash: string)
    requires TICK !in before && TICK !in text && TICK !in after && TICK !in hash
    ensures Occurrences(before + "`" + text + "`" + after, Marker(hash)) == if text == hash then 1 else 0
  {
    hide Occurrences;
    assert before + "`" + text + "`" + after == before + ("`" + text + "`" + after);
    OccursInPlain(before, "`" + text + "`" + after, hash);
    OccursInSpan(text, after, hash);
  }

  /** A pattern without a line end is found in the lines one by one. */
  lemma {:induction false} OccursByLine(line: string, rest: string, pat: string)
    requires pat != "" && '\n' !in pat
    ensures Occurrences(line + "\n" + rest, pat) == Occurrences(line, pat) + Occurrences(rest, pat)
    decreases |line|
  {
    var s := line + "\n" + rest;
    if line == "" {
      assert s[0] == '\n' && s[1..] == rest;
      assert pat[0] in pat;
    } else if StartsWith(line, pat) {
      assert s[..|pat|] == pat;
      assert s[|pat|..] == line[|pat|..] + "\n" + rest;
      OccursByLine(line[|pat|..], rest, pat);
    } else {
      NoPrefixAcross(line, rest, pat);
      assert s[1..] == line[1..] + "\n" + rest;
      OccursByLine(line[1..], rest, pat);
      if |line| < |pat| { assert Occurrences(line[1..], pat) == 0; }
    }
  }

  lemma NoPrefixAcross(line: string, rest: string, pat: string)
    requires '\n' !in pat && !StartsWith(line, pat)
    ensures !StartsWith(line + "\n" + rest, pat)
  {
    var s := line + "\n" + rest;
    assert |pat| <= |line| ==> s[..|pat|] == line[..|pat|];
    assert s[|line|] == '\n' && (|pat| > |line| ==> pat[|line|] in pat);
  }

  function Cat(lines: seq<string>): string {
    if lines == [] then "" else lines[0] + "\n" + Cat(lines[1..])
  }

  function OccursIn(lines: seq<string>, hash: string): nat {
    if lines == [] then 0 else Occurrences(lines[0], Marker(hash)) + OccursIn(lines[1..], hash)
  }

  lemma {:induction false} OccursInLines(lines: seq<string>, hash: string)
    requires '\n' !in hash
    ensures Occurrences(Cat(lines), Marker(hash)) == OccursIn(lines, hash)
  {
    hide Occurrences;
    if lines == [] {
      OccursNowhere("", hash);
    } else {
      OccursByLine(lines[0], Cat(lines[1..]), Marker(hash));
      OccursInLines(lines[1..], hash);
    }
  }

  lemma {:induction false} OccursInBoth(a: seq<string>, b: seq<string>, hash: string)
    ensures OccursIn(a + b, hash) == OccursIn(a, hash) + OccursIn(b, hash)
  {
    hide Occurrences;
    if a == [] {
      assert a + b == b;
    } else {
      OccursInBoth(a[1..], b, hash);
      assert (a + b)[1..] == a[1..] + b;
    }
  }

  lemma OccursInOne(line: string, hash: string)
    ensures OccursIn([line], hash) == Occurrences(line, Marker(hash))
  {
  }

  // ---------------------------------------------------------------------- cleaned-up text

  lemma {:induction false} SqueezedIsOneLine(s: string)
    ensures forall c :: c in Squeezed(s) ==> c == ' ' || (c in s && !IsWhite(c))
    decreases |s|
  {
    if s == "" {
    } else if IsWhite(s[0]) {
      WhiteIsDropped(s);
      SqueezedIsOneLine(DropWhite(s));
    } else {
      SqueezedIsOneLine(s[1..]);
    }
  }

  lemma {:induction false} EndIsDropped(s: string)
    ensures forall c :: c in DropWhiteEnd(s) ==> c in s
    ensures !IsWhite(if s == "" then 'x' else s[|s| - 1]) ==> DropWhiteEnd(s) == s
  {
    if s != "" && IsWhite(s[|s| - 1]) { EndIsDropped(s[..|s| - 1]); }
  }

  /** Cleaned text holds neither a backtick nor a line end. */
  lemma CleanedIsPlain(s: string)
    ensures Plain(CleanMarkdownText(s))
  {
    hide IsWhite;
    var q := Quoted(s);
    SqueezedIsOneLine(q);
    WhiteIsDropped(Squeezed(q));
    EndIsDropped(DropWhite(Squeezed(q)));
    LineEndIsWhite();
  }

  lemma LineEndIsWhite()
    ensures IsWhite('\n') && !IsWhite('#') && !IsWhite(')') && !IsWhite('.')
  {
  }

  lemma TrimsLastLineEnd(s: string)
    requires s != "" && !IsWhite(s[0]) && !IsWhite(s[|s| - 1])
    ensures Trim(s + "\n") == s
  {
    hide IsWhite;
    LineEndIsWhite();
    var t := s + "\n";
    assert DropWhite(t) == t;
    assert t[..|t| - 1] == s;
    EndIsDropped(s);
  }

  // -------------------------------------------------------------------- the lines of a draft

  predicate PlainHash(hash: string) { hash != "" && Plain(hash) }

  ghost predicate PlainHashes(cs: seq<GitCommit>) { forall c :: c in cs ==> PlainHash(c.shortHash) }

  function Count(cs: seq<GitCommit>, hash: string): nat {
    if cs == [] then 0 else Count(cs[..|cs| - 1], hash) + (if cs[|cs| - 1].shortHash == hash then 1 else 0)
  }

  lemma OccursInEntry(c: GitCommit, hash: string)
    requires PlainHash(c.shortHash) && PlainHash(hash)
    ensures Occurrences(Entry(c), Marker(hash)) == if c.shortHash == hash then 1 else 0
  {
    hide Occurrences, CleanMarkdownText;
    CleanedIsPlain(c.subject);
    var before := "- " + CleanMarkdownText(c.subject) + " (";
    OccursInLine(before, c.shortHash, ")", hash);
    assert Entry(c) == before + "`" + c.shortHash + "`" + ")";
  }

  lemma {:induction false} OccursInEntries(cs: seq<GitCommit>, hash: string)
    requires PlainHashes(cs) && PlainHash(hash)
    ensures OccursIn(Entries(cs), hash) == Count(cs, hash)
  {
    hide Entry, PlainHash, OccursIn, Occurrences;
    if cs == [] {
      NoLines(hash);
    } else {
      var init, c := cs[..|cs| - 1], cs[|cs| - 1];
      OccursInEntries(init, hash);
      OccursInBoth(Entries(init), [Entry(c)], hash);
      OccursInOne(Entry(c), hash);
      OccursInEntry(c, hash);
    }
  }

  lemma NoLines(hash: string)
    ensures OccursIn([], hash) == 0
  {
  }

  lemma CategoryIsPlain(c: GitCommit)
    ensures TICK !in CategoryFor(c) && !IsWhite('#')
  {
    hide Occurrences, Header, BreakingHeader, Lower;
  }

  lemma {:induction false} NamesArePlain(cs: seq<GitCommit>, name: string)
    requires name in Names(cs)
    ensures TICK !in name
  {
    hide CategoryFor;
    if cs != [] {
      CategoryIsPlain(cs[|cs| - 1]);
      if name in Names(cs[..|cs| - 1]) { NamesArePlain(cs[..|cs| - 1], name); }
    }
  }

  lemma {:induction false} OfIsPart(cs: seq<GitCommit>, name: string)
    ensures forall c :: c in Of(cs, name) ==> c in cs
  {
    hide CategoryFor;
    if cs != [] { OfIsPart(cs[..|cs| - 1], name); }
  }

  lemma OccursInSection(cs: seq<GitCommit>, name: string, hash: string)
    requires PlainHashes(cs) && PlainHash(hash) && TICK !in name
    ensures OccursIn(Section(cs, name), hash) == Count(Of(cs, name), hash)
  {
    hide Occurrences, OccursIn, Of, Entries, Count, PlainHash;
    var title := "## " + name;
    OfIsPart(cs, name);
    OccursInEntries(Of(cs, name), hash);
    OccursInBoth([title, ""] + Entries(Of(cs, name)), [""], hash);
    OccursInBoth([title, ""], Entries(Of(cs, name)), hash);
    OccursInBoth([title], [""], hash);
    assert [title] + [""] == [title, ""];
    OccursInOne(title, hash);
    OccursInOne("", hash);
    OccursNowhere(title, hash);
    OccursNowhere("", hash);
  }

  /** The commits with one hash, category by category. */
  function CountBy(cs: seq<GitCommit>, names: seq<string>, hash: string): nat {
    if names == [] then 0
    else CountBy(cs, names[..|names| - 1], hash) + Count(Of(cs, names[|names| - 1]), hash)
  }

  lemma {:induction false} OccursInSections(cs: seq<GitCommit>, names: seq<string>, hash: string)
    requires PlainHashes(cs) && PlainHash(hash) && forall name :: name in names ==> TICK !in name
    ensures OccursIn(Sections(cs, names), hash) == CountBy(cs, names, hash)
  {
    hide Occurrences, OccursIn, Of, Section, Count, PlainHash;
    if names == [] {
      NoLines(hash);
    } else {
      var init, name := names[..|names| - 1], names[|names| - 1];
      OccursInSections(cs, init, hash);
      OccursInBoth(Sections(cs, init), Section(cs, name), hash);
      OccursInSection(cs, name, hash);
    }
  }

  ghost predicate NoDuplicates(names: seq<string>) {
    forall i, j :: 0 <= i < j < |names| ==> names[i] != names[j]
  }

  lemma CountOneMore(cs: seq<GitCommit>, c: GitCommit, hash: string)
    ensures Count(cs + [c], hash) == Count(cs, hash) + (if c.shortHash == hash then 1 else 0)
  {
  }

  lemma {:induction false} CountByOneMore(cs: seq<GitCommit>, c: GitCommit, names: seq<string>, hash: string)
    requires NoDuplicates(names)
    ensures CountBy(cs + [c], names, hash)
            == CountBy(cs, names, hash) + (if CategoryFor(c) in names && c.shortHash == hash then 1 else 0)
  {
    hide CategoryFor, Of, Count;
    if names != [] {
      var init, name := names[..|names| - 1], names[|names| - 1];
      CountByOneMore(cs, c, init, hash);
      NamesOneMore(cs, c);
      CountOneMore(Of(cs, name), c, hash);
      assert name !in init;
      assert Of(cs, name) + [] == Of(cs, name);
    }
  }

  /** Grouping loses and repeats nothing: each commit is in exactly one category. */
  lemma {:induction false} GroupingConserves(cs: seq<GitCommit>, names: seq<string>, hash: string)
    requires NoDuplicates(names) && forall c :: c in cs ==> CategoryFor(c) in names
    ensures CountBy(cs, names, hash) == Count(cs, hash)
  {
    hide CategoryFor, CountBy;
    if cs == [] {
      NothingCounted(names, hash);
    } else {
      var init, c := cs[..|cs| - 1], cs[|cs| - 1];
      assert cs == init + [c];
      GroupingConserves(init, names, hash);
      CountByOneMore(init, c, names, hash);
      CountOneMore(init, c, hash);
    }
  }

  lemma {:induction false} NothingCounted(names: seq<string>, hash: string)
    ensures CountBy([], names, hash) == 0
  {
    if names != [] { NothingCounted(names[..|names| - 1], hash); }
  }

  lemma {:induction false} NamesAreDistinct(cs: seq<GitCommit>)
    ensures NoDuplicates(Names(cs)) && forall c :: c in cs ==> CategoryFor(c) in Names(cs)
  {
    hide CategoryFor;
    if cs != [] {
      NamesAreDistinct(cs[..|cs| - 1]);
      assert cs == cs[..|cs| - 1] + [cs[|cs| - 1]];
    }
  }

  lemma OccursInHead(rangeLabel: string, hash: string)
    requires PlainHash(hash)
    ensures OccursIn(Head(rangeLabel), hash) == if CleanMarkdownText(rangeLabel) == hash then 1 else 0
  {
    hide Occurrences, OccursIn, CleanMarkdownText;
    CleanedIsPlain(rangeLabel);
    var line := "Changes in `" + CleanMarkdownText(rangeLabel) + "`.";
    assert line == "Changes in " + "`" + CleanMarkdownText(rangeLabel) + "`" + ".";
    OccursInLine("Changes in ", CleanMarkdownText(rangeLabel), ".", hash);
    OccursInBoth([TITLE], [""] + ([line] + [""]), hash);
    OccursInBoth([""], [line] + [""], hash);
    OccursInBoth([line], [""], hash);
    assert Head(rangeLabel) == [TITLE] + ([""] + ([line] + [""]));
    OccursInOne(TITLE, hash);
    OccursInOne("", hash);
    OccursInOne(line, hash);
    OccursNowhere(TITLE, hash);
    OccursNowhere("", hash);
  }

  function Lines(cs: seq<GitCommit>, rangeLabel: string): seq<string> {
    Head(rangeLabel) + Sections(cs, Names(cs))
  }

  lemma OccursInLinesOf(cs: seq<GitCommit>, rangeLabel: string, hash: string)
    requires PlainHashes(cs) && PlainHash(hash)
    ensures OccursIn(Lines(cs, rangeLabel), hash)
            == Count(cs, hash) + (if CleanMarkdownText(rangeLabel) == hash then 1 else 0)
  {
    hide OccursIn, Head, Names, Sections, Count, CountBy, PlainHash, CategoryFor, CleanMarkdownText, NoDuplicates;
    OccursInBoth(Head(rangeLabel), Sections(cs, Names(cs)), hash);
    OccursInHead(rangeLabel, hash);
    forall name | name in Names(cs)
      ensures TICK !in name
    {
      NamesArePlain(cs, name);
    }
    OccursInSections(cs, Names(cs), hash);
    NamesAreDistinct(cs);
    GroupingConserves(cs, Names(cs), hash);
  }

  // ------------------------------------------------------------------ the draft and its review

  lemma {:induction false} JoinIsCat(lines: seq<string>)
    ensures Joined(lines + [""], "\n") == Cat(lines)
  {
    if lines == [] {
      assert lines + [""] == [""];
    } else {
      JoinIsCat(lines[1..]);
      assert (lines + [""])[1..] == lines[1..] + [""];
    }
  }

  lemma {:induction false} CatAppend(a: seq<string>, b: seq<string>)
    ensures Cat(a + b) == Cat(a) + Cat(b)
  {
    if a == [] {
      assert a + b == b;
    } else {
      CatAppend(a[1..], b);
      assert (a + b)[1..] == a[1..] + b;
    }
  }

  predicate ClosesEntry(line: string) { line != "" && line[|line| - 1] == ')' }

  /** The last line is empty and the one before it is an entry. */
  lemma LinesEnd(cs: seq<GitCommit>, rangeLabel: string)
    requires cs != []
    ensures var lines := Lines(cs, rangeLabel);
            |lines| > 6 && lines[|lines| - 1] == "" && ClosesEntry(lines[|lines| - 2])
            && lines[..4] == Head(rangeLabel) && lines[4] == "## " + Names(cs)[0]
    ensures Names(cs) != []
  {
    hide CategoryFor, CleanMarkdownText, Section, Head, Of, NoDuplicates, Entry;
    var names := Names(cs);
    NamesAreDistinct(cs);
    assert cs[0] in cs;
    var name := names[|names| - 1];
    NamedExactly(cs, name);
    var of := Of(cs, name);
    var entry := Entry(of[|of| - 1]);
    EntryCloses(of[|of| - 1]);
    SectionEnds(cs, name, entry);
    assert |Head(rangeLabel)| == 4 by { HeadHasFour(rangeLabel); }
    FirstSection(cs, names);
    assert Sections(cs, names) == Sections(cs, names[..|names| - 1]) + Section(cs, name);
  }

  lemma EntryCloses(c: GitCommit)
    ensures ClosesEntry(Entry(c))
  {
  }

  lemma HeadHasFour(rangeLabel: string)
    ensures |Head(rangeLabel)| == 4 && Head(rangeLabel)[0] == TITLE
  {
  }

  lemma SectionEnds(cs: seq<GitCommit>, name: string, entry: string)
    requires Of(cs, name) != [] && entry == Entry(Of(cs, name)[|Of(cs, name)| - 1])
    ensures var lines := Section(cs, name);
            |lines| > 2 && lines[|lines| - 1] == "" && lines[|lines| - 2] == entry && lines[0] == "## " + name
  {
    hide CategoryFor, Entry, Of;
    var es := Entries(Of(cs, name));
    assert es[|es| - 1] == entry;
  }

  lemma {:induction false} FirstSection(cs: seq<GitCommit>, names: seq<string>)
    requires names != []
    ensures Sections(cs, names) != [] && Sections(cs, names)[0] == "## " + names[0]
  {
    hide Of, Entries;
    if |names| > 1 { FirstSection(cs, names[..|names| - 1]); }
  }

  /** Trimming only takes the last line end off, and it is put back: the draft is its lines. */
  lemma DraftIsItsLines(cs: seq<GitCommit>, rangeLabel: string)
    requires cs != []
    ensures var lines := Lines(cs, rangeLabel); |lines| > 6 && Draft(cs, rangeLabel) == Cat(lines[..|lines| - 1])
  {
    hide Sections, Names, IsWhite, Trim, CleanMarkdownText, Joined;
    var lines := Lines(cs, rangeLabel);
    LinesEnd(cs, rangeLabel);
    LineEndIsWhite();
    var init := lines[..|lines| - 1];
    assert lines == init + [""];
    JoinIsCat(init);
    var body, last := init[..|init| - 1], init[|init| - 1];
    assert init == body + [last];
    CatAppend(body, [last]);
    CatOne(last);
    assert body[0] == lines[..4][0] == TITLE;
    var s := Cat(body) + last;
    assert Cat(init) == s + "\n";
    assert s[0] == '#' && s[|s| - 1] == ')';
    TrimsLastLineEnd(s);
  }

  lemma CatOne(line: string)
    ensures Cat([line]) == line + "\n"
  {
  }

  /** A hash occurs once for each of its commits, and once more if the range has its name. */
  lemma OccurrencesInDraft(cs: seq<GitCommit>, rangeLabel: string, hash: string)
    requires cs != [] && PlainHashes(cs) && PlainHash(hash)
    ensures Occurrences(Draft(cs, rangeLabel), Marker(hash))
            == Count(cs, hash) + (if CleanMarkdownText(rangeLabel) == hash then 1 else 0)
  {
    hide *;
    var lines := Lines(cs, rangeLabel);
    HashIsPlain(hash);
    DraftIsItsLines(cs, rangeLabel);
    LinesEnd(cs, rangeLabel);
    OccursInLinesOf(cs, rangeLabel, hash);
    OccursInLines(lines[..|lines| - 1], hash);
    OccursInBoth(lines[..|lines| - 1], [""], hash);
    assert lines == lines[..|lines| - 1] + [""];
    OccursInOne("", hash);
    OccursNowhere("", hash);
  }

  lemma HashIsPlain(hash: string)
    requires PlainHash(hash)
    ensures TICK !in hash && '\n' !in hash
  {
  }

  lemma DraftHasItsHeadings(cs: seq<GitCommit>, rangeLabel: string)
    requires cs != []
    ensures StartsWith(Draft(cs, rangeLabel), TITLE + "\n") && Includes(Draft(cs, rangeLabel), "\n## ")
  {
    hide Draft, Lines, Sections, Names, CleanMarkdownText;
    var lines := Lines(cs, rangeLabel);
    DraftIsItsLines(cs, rangeLabel);
    LinesEnd(cs, rangeLabel);
    var init := lines[..|lines| - 1];
    var head, name, rest := lines[..4], Names(cs)[0], init[5..];
    assert init == head + (["## " + name] + rest);
    CatAppend(head, ["## " + name] + rest);
    CatAppend(["## " + name], rest);
    CatOne("## " + name);
    HeadEnds(rangeLabel);
    HeadingFound(Cat(head), name, "\n" + Cat(rest));
    assert Cat(init) == Cat(head) + ("## " + name + "\n" + Cat(rest));
    assert "## " + name + "\n" + Cat(rest) == "## " + name + ("\n" + Cat(rest));
  }

  lemma HeadEnds(rangeLabel: string)
    ensures var h := Cat(Head(rangeLabel)); h != "" && h[|h| - 1] == '\n' && StartsWith(h, TITLE + "\n")
  {
    hide CleanMarkdownText;
    var head := Head(rangeLabel);
    CatAppend(head[..3], [""]);
    assert head == head[..3] + [""];
    CatOne("");
    assert Cat(head) == head[0] + "\n" + Cat(head[1..]);
  }

  lemma HeadingFound(head: string, name: string, rest: string)
    requires head != "" && head[|head| - 1] == '\n' && StartsWith(head, TITLE + "\n")
    ensures var s := head + ("## " + name + rest); Includes(s, "\n## ") && StartsWith(s, TITLE + "\n")
  {
    var s := head + ("## " + name + rest);
    var i := |head| - 1;
    assert s[i..i + 4] == "\n## ";
    assert Matches(s, i, "\n## ");
    assert s[..|TITLE + "\n"|] == head[..|TITLE + "\n"|];
  }

  ghost predicate DistinctHashes(cs: seq<GitCommit>) {
    forall i, j :: 0 <= i < j < |cs| ==> cs[i].shortHash != cs[j].shortHash
  }

  lemma {:induction false} CountPositive(cs: seq<GitCommit>, hash: string)
    ensures Count(cs, hash) > 0 <==> exists c :: c in cs && c.shortHash == hash
  {
    if cs != [] {
      CountPositive(cs[..|cs| - 1], hash);
      assert cs == cs[..|cs| - 1] + [cs[|cs| - 1]];
    }
  }

  ghost predicate AllOnce(cs: seq<GitCommit>) { forall c :: c in cs ==> Count(cs, c.shortHash) == 1 }

  lemma {:induction false} DistinctExactlyOnce(cs: seq<GitCommit>)
    ensures DistinctHashes(cs) <==> AllOnce(cs)
  {
    if cs != [] {
      var init, c := cs[..|cs| - 1], cs[|cs| - 1];
      assert cs == init + [c];
      DistinctExactlyOnce(init);
      CountPositive(init, c.shortHash);
      DistinctOneMore(init, c);
      OnceOneMore(init, c);
    }
  }

  lemma DistinctOneMore(init: seq<GitCommit>, c: GitCommit)
    ensures DistinctHashes(init + [c])
            <==> DistinctHashes(init) && forall d :: d in init ==> d.shortHash != c.shortHash
  {
    var cs := init + [c];
    if DistinctHashes(cs) {
      assert forall i :: 0 <= i < |init| ==> cs[i] == init[i];
      assert cs[|init|] == c;
      forall d | d in init
        ensures d.shortHash != c.shortHash
      {
        var i :| 0 <= i < |init| && init[i] == d;
        assert cs[i].shortHash != cs[|init|].shortHash;
      }
    }
  }

  lemma OnceOneMore(init: seq<GitCommit>, c: GitCommit)
    ensures AllOnce(init + [c]) <==> AllOnce(init) && Count(init, c.shortHash) == 0
  {
    hide Count;
    var cs := init + [c];
    CountOneMore(init, c, c.shortHash);
    CountPositive(init, c.shortHash);
    assert c in cs;
    forall d | d in init
      ensures Count(cs, d.shortHash) == Count(init, d.shortHash) + (if c.shortHash == d.shortHash then 1 else 0)
      ensures d in cs
    {
      CountOneMore(init, c, d.shortHash);
    }
    if AllOnce(init + [c]) {
      forall d | d in init
        ensures Count(init, d.shortHash) == 1
      {
        CountPositive(init, d.shortHash);
      }
    }
  }

  lemma {:induction false} NoComplaintsExactlyWhen(notes: string, cs: seq<GitCommit>)
    ensures Complaints(notes, cs) == [] <==> forall c :: c in cs ==> Occurrences(notes, Marker(c.shortHash)) == 1
  {
    hide Occurrences;
    if cs != [] {
      NoComplaintsExactlyWhen(notes, cs[..|cs| - 1]);
      assert cs == cs[..|cs| - 1] + [cs[|cs| - 1]];
    }
  }

  /** A draft passes its review exactly when the short hashes are distinct and none of
      them is the name of the range: whatever the subjects, the bodies and the categories are. */
  lemma DraftPassesReviewExactlyWhen(cs: seq<GitCommit>, rangeLabel: string)
    requires cs != [] && PlainHashes(cs)
    ensures Review(Draft(cs, rangeLabel), cs) == []
            <==> DistinctHashes(cs) && forall c :: c in cs ==> c.shortHash != CleanMarkdownText(rangeLabel)
  {
    hide Occurrences, Draft, Count, CleanMarkdownText, DistinctHashes, Complaints, StartsWith, Includes;
    DraftHasItsHeadings(cs, rangeLabel);
    NoComplaintsExactlyWhen(Draft(cs, rangeLabel), cs);
    DistinctExactlyOnce(cs);
    forall c | c in cs
      ensures Occurrences(Draft(cs, rangeLabel), Marker(c.shortHash))
              == Count(cs, c.shortHash) + (if CleanMarkdownText(rangeLabel) == c.shortHash then 1 else 0)
      ensures Count(cs, c.shortHash) > 0
    {
      OccurrencesInDraft(cs, rangeLabel, c.shortHash);
      CountPositive(cs, c.shortHash);
    }
  }
}
