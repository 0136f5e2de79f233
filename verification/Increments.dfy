/** Collapsing as checkpoints arrive against collapsing them all at once: the same, whatever arrives
    next, exactly for the histories whose view survives the collapse. What arrives next can always
    bring a view that did not survive to light. */
module Increments {
  import opened Prelude
  import opened Texts
  import opened Sections
  import opened Checkpoints
  import opened CollapseView
  import opened Pipeline
  import opened VolatileTail
  import opened Completeness
  import Rereading

  /** It makes no difference whether the history was collapsed before this message came. */
  predicate Incremental(h: seq<Message>, c: Message) { Collapse(Collapse(h) + [c]) == Collapse(h + [c]) }

  // ------------------------------------------------------------------------------ names of sections

  /** The names that headings give: no blank at either end, or one blank alone. */
  predicate NameOk(n: string) {
    n != "" && Dots(n) && ((!IsSpace(n[0]) && !IsSpace(n[|n| - 1])) || |n| == 1)
  }

  predicate KeyOk(k: Key) { k.Named? ==> NameOk(k.name) }

  lemma HeadingsAreOk(line: string)
    ensures KeyOk(KeyOfLine(line))
  {
    hide IsSpace, TrimStart, TrimEnd, LastDot, Dots, EndsLine;
    if HeadingName(line).Some? {
      var rest := TrimStart(line[2..]);
      if rest != "" {
        assert !IsSpace(rest[0]) && TrimEnd(rest) != "";
      } else {
        assert |LastDot(line[3..])| == 1;
      }
    }
  }

  /** A heading for that name, with a space or a tab behind the hashes. */
  function HeadingLine(n: string, tab: bool): string { "##" + (if tab then "\t" else " ") + n }

  lemma HeadingOf(n: string, tab: bool)
    requires NameOk(n)
    ensures KeyOfLine(HeadingLine(n, tab)) == Named(n)
  {
    hide TrimEnd;
    var line := HeadingLine(n, tab);
    assert line[2..][1..] == n && line[3..] == n && IsSpace(line[2..][0]);
    assert TrimStart(line[2..]) == TrimStart(n);
    if IsSpace(n[0]) {
      assert n[1..] == "" && TrimStart(n) == TrimStart("") == "";
      assert LastDot(n) == [n[0]] == n;
    } else {
      assert TrimStart(n) == n && TrimEnd(n) == n;
    }
    assert HeadingName(line) == Some(n);
  }

  /** A section of two lines under that key. */
  function Marker(k: Key, tab: bool): Section {
    Section(k, [match k case Preamble => "p" case Named(n) => HeadingLine(n, tab), "x"])
  }

  lemma MarkerIsRobust(k: Key, tab: bool)
    requires KeyOk(k)
    ensures Robust(Marker(k, tab)) && |Marker(k, tab).body| == 2
  {
    hide HeadingName, HeadingLine, KeyOk;
    match k
    case Preamble => PlainLine();
    case Named(n) => NamedMarker(n, tab);
  }

  lemma PlainLine()
    ensures KeyOfLine("p") == Preamble
  {}

  lemma NamedMarker(n: string, tab: bool)
    requires KeyOk(Named(n))
    ensures KeyOfLine(HeadingLine(n, tab)) == Named(n) && HeadingLine(n, tab) != "" && HeadingLine(n, tab)[0] == '#'
  {
    HeadingOf(n, tab);
  }

  ghost predicate NamesOk(v: View) { forall n :: n in v.bodies ==> NameOk(n) }

  lemma {:induction false} ParsedNames(t: Text)
    ensures forall s :: s in ParseLines(t) ==> KeyOk(s.key)
    decreases |t|
  {
    hide KeyOfLine, KeyOk, TrimText;
    if t != [] {
      var k := NextCut(t, 1);
      HeadingsAreOk(t[0]);
      ParsedNames(t[k..]);
    }
  }

  lemma {:induction false} AbsorbedNames(v: View, ss: seq<Section>)
    requires NamesOk(v) && forall s :: s in ss ==> KeyOk(s.key)
    ensures NamesOk(AbsorbAll(v, ss))
  {
    hide NameOk;
    if ss != [] {
      AbsorbedNames(v, ss[..|ss| - 1]);
      assert ss[|ss| - 1] in ss;
    }
  }

  lemma {:induction false} NamesOfView(ms: seq<Message>)
    ensures NamesOk(NewestView(ms))
  {
    hide AbsorbAll, IsCheckpointText, ParseLines, NameOk, KeyOk;
    if ms != [] {
      var m := ms[|ms| - 1];
      NamesOfView(ms[..|ms| - 1]);
      if IsCheckpoint(m) {
        ParsedNames(AfterPrefix(m.content));
        AbsorbedNames(NewestView(ms[..|ms| - 1]), ParseCheckpoint(m.content));
      }
    }
  }

  // -------------------------------------------------------- telling two views apart by one section

  /** Both views are written as the same text once these sections have come. */
  ghost predicate Alike(v: View, w: View, ss: seq<Section>) {
    Glue(Listing(AbsorbAll(v, ss)), []) == Glue(Listing(AbsorbAll(w, ss)), [])
  }

  /** Whatever one section comes next, or none. */
  ghost predicate AlwaysAlike(v: View, w: View) {
    Alike(v, w, []) && forall k, tab :: KeyOk(k) ==> Alike(v, w, [Marker(k, tab)])
  }

  lemma AbsorbOne(v: View, s: Section)
    ensures AbsorbAll(v, [s]) == Absorb(v, s) && AbsorbAll(v, []) == v
  {
    assert [s][..0] == [];
  }

  /** They hold as many lines under every key. */
  lemma SameLines(v: View, w: View, k: Key)
    requires WellFormed(v) && WellFormed(w) && AlwaysAlike(v, w) && KeyOk(k)
    ensures LinesUnder(v, k) == LinesUnder(w, k) && Lines(Listing(v)) == Lines(Listing(w))
  {
    hide WellFormed, Listing, Lines, LinesUnder, Marker, Absorb, AbsorbAll, KeyOk, Glue, Robust;
    var m := Marker(k, false);
    MarkerIsRobust(k, false);
    RobustIsTrimmed(m);
    AbsorbOne(v, m);
    AbsorbOne(w, m);
    assert Alike(v, w, [m]);
    GlueLength(Listing(v));
    GlueLength(Listing(w));
    GlueLength(Listing(Absorb(v, m)));
    GlueLength(Listing(Absorb(w, m)));
    AbsorbLines(v, m);
    AbsorbLines(w, m);
    MarkerKey(k, false);
  }

  lemma MarkerKey(k: Key, tab: bool)
    ensures Marker(k, tab).key == k
  {}

  lemma RobustIsTrimmed(s: Section)
    requires Robust(s)
    ensures Trimmed(s.body)
  {}

  lemma {:induction false} GlueOfSum(a: seq<Section>, b: seq<Section>)
    ensures Glue(a + b, []) == Glue(a, []) + Glue(b, [])
  {
    if a == [] {
      assert a + b == b;
    } else {
      assert (a + b)[1..] == a[1..] + b;
      GlueOfSum(a[1..], b);
      RestIsGlue(a[1..] + b);
      RestIsGlue(a[1..]);
    }
  }

  lemma RestIsGlue(ss: seq<Section>)
    ensures Rest(ss, []) == Glue(ss, [])
  {}

  /** Each section of a listing is what the view holds under its key, and each key stands once. */
  lemma ListedAt(v: View, i: nat)
    requires WellFormed(v) && NamesOk(v) && i < |Listing(v)|
    ensures var s := Listing(v)[i];
            && |s.body| >= 1 && LinesUnder(v, s.key) == |s.body| && KeyOk(s.key)
            && (s.key == Preamble ==> i == 0)
            && forall j :: 0 <= j < i ==> Listing(v)[j].key != s.key
  {
    hide NameOk;
  }

  lemma ListedSomewhere(v: View, k: Key) returns (j: nat)
    requires WellFormed(v) && LinesUnder(v, k) > 0
    ensures j < |Listing(v)| && Listing(v)[j].key == k && (k == Preamble ==> j == 0)
  {
    match k
    case Preamble => j := 0;
    case Named(n) =>
      var i :| 0 <= i < |v.order| && v.order[i] == n;
      j := if v.preamble == EMPTY then i else i + 1;
  }

  /** Another body under a listed name takes its place. */
  lemma {:induction false} NamedInPlace(order: seq<string>, bodies: map<string, Text>, i: nat, b: Text)
    requires i < |order| && forall j, k :: 0 <= j < k < |order| ==> order[j] != order[k]
    requires forall n :: n in order ==> n in bodies
    ensures NamedListing(order, bodies[order[i] := b])
            == NamedListing(order, bodies)[i := Section(Named(order[i]), b)]
  {
    var after := bodies[order[i] := b];
    var was, now := NamedListing(order, bodies), NamedListing(order, after);
    forall j | 0 <= j < |order|
      ensures now[j] == was[i := Section(Named(order[i]), b)][j]
    {
      assert order[j] in order;
      if j != i { assert order[j] != order[i]; }
    }
  }

  lemma ListedInPlace(v: View, i: nat, n: string, b: Text)
    requires WellFormed(v) && i < |Listing(v)| && Listing(v)[i].key == Named(n)
    ensures Listing(Absorb(v, Section(Named(n), b))) == Listing(v)[i := Section(Named(n), b)]
  {
    hide NamedListing, WellFormed, Trimmed;
    OrderParts(v);
    var head := if v.preamble == EMPTY then [] else [Section(Preamble, v.preamble)];
    var named, at := NamedListing(v.order, v.bodies), i - |head|;
    NamedInPlace(v.order, v.bodies, at, b);
    InsideSum(head, named, i, Section(Named(n), b));
  }

  lemma InsideSum(a: seq<Section>, b: seq<Section>, i: nat, s: Section)
    requires |a| <= i < |a| + |b|
    ensures (a + b)[i := s] == a + b[i - |a| := s]
  {}

  /** At the first place where two listings name different sections, a heading for one of them
      that is not the line the other has there tells the views apart. */
  lemma NoOtherName(v: View, w: View, i: nat, n: string)
    requires WellFormed(v) && WellFormed(w) && NamesOk(v) && NamesOk(w) && AlwaysAlike(v, w)
    requires i < |Listing(v)| && i < |Listing(w)| && Listing(v)[..i] == Listing(w)[..i]
    requires Listing(v)[i].key == Named(n)
    ensures Listing(w)[i].key == Named(n)
  {
    hide WellFormed, NamesOk, Listing, LinesUnder, AlwaysAlike, Marker, Absorb, AbsorbAll, HeadingLine, KeyOk, Glue;
    var a, b := Listing(v), Listing(w);
    ListedAt(v, i);
    ListedAt(w, i);
    if b[i].key != Named(n) {
      AlikeSameLines(v, w, Named(n));
      var j := ListedSomewhere(w, Named(n));
      NotEarlier(a, b, i, j);
      var tab := HeadingLine(n, false) == b[i].body[0];
      TwoHeadings(n);
      MarkerParts(n, tab);
      var m := Marker(Named(n), tab);
      ListedInPlace(v, i, n, m.body);
      ListedInPlace(w, j, n, m.body);
      assert a[i := m][..i] == a[..i] && b[j := m][..i] == b[..i];
      DifferAt(a[i := m], b[j := m], i);
      AlikeAfter(v, w, Named(n), tab);
    }
  }

  lemma NotEarlier(a: seq<Section>, b: seq<Section>, i: nat, j: nat)
    requires i < |a| && j < |b| && i <= |b| && a[..i] == b[..i]
    requires a[i].key == b[j].key && forall k :: 0 <= k < i ==> a[k].key != a[i].key
    ensures j >= i
  {
    forall k | 0 <= k < i
      ensures b[k].key != a[i].key
    {
      assert a[..i][k] == b[..i][k];
    }
  }

  lemma DifferAt(a: seq<Section>, b: seq<Section>, i: nat)
    requires i < |a| && i < |b| && a[..i] == b[..i]
    requires |a[i].body| >= 1 && |b[i].body| >= 1 && a[i].body[0] != b[i].body[0]
    ensures Glue(a, []) != Glue(b, [])
  {
    hide Glue;
    LineAt(a, i);
    LineAt(b, i);
  }

  lemma AlikeSameLines(v: View, w: View, k: Key)
    requires WellFormed(v) && WellFormed(w) && AlwaysAlike(v, w) && KeyOk(k)
    ensures LinesUnder(v, k) == LinesUnder(w, k) && Lines(Listing(v)) == Lines(Listing(w))
  {
    SameLines(v, w, k);
  }

  lemma AlikeAfter(v: View, w: View, k: Key, tab: bool)
    requires AlwaysAlike(v, w) && KeyOk(k)
    ensures Glue(Listing(Absorb(v, Marker(k, tab))), []) == Glue(Listing(Absorb(w, Marker(k, tab))), [])
  {
    hide Absorb, AbsorbAll, Marker, KeyOk, Listing, Glue;
    AbsorbOne(v, Marker(k, tab));
    AbsorbOne(w, Marker(k, tab));
    assert Alike(v, w, [Marker(k, tab)]);
  }

  lemma TwoHeadings(n: string)
    ensures HeadingLine(n, true) != HeadingLine(n, false)
  {
    assert HeadingLine(n, true)[2] == '\t' && HeadingLine(n, false)[2] == ' ';
  }

  lemma MarkerParts(n: string, tab: bool)
    ensures Marker(Named(n), tab) == Section(Named(n), [HeadingLine(n, tab), "x"])
  {}

  /** The line at which a section of a listing starts. */
  lemma LineAt(ss: seq<Section>, i: nat)
    requires i < |ss| && |ss[i].body| >= 1
    ensures var g, at := Glue(ss, []), |Glue(ss[..i], [])|;
            at + |ss[i].body| <= |g| && g[at..at + |ss[i].body|] == ss[i].body && g[at] == ss[i].body[0]
  {
    assert ss == ss[..i] + ss[i..] && ss[i..] == [ss[i]] + ss[i + 1..];
    GlueOfSum(ss[..i], ss[i..]);
    GlueOfSum([ss[i]], ss[i + 1..]);
    GlueOfOne(ss[i]);
  }

  lemma GlueOfOne(s: Section)
    ensures Glue([s], []) == s.body
  {
    assert [s][1..] == [] && s.body + [] == s.body;
  }

  /** So their listings agree from the front. */
  lemma {:induction false} SameUpTo(v: View, w: View, i: nat)
    requires WellFormed(v) && WellFormed(w) && NamesOk(v) && NamesOk(w) && AlwaysAlike(v, w)
    requires i <= |Listing(v)|
    ensures i <= |Listing(w)| && Listing(v)[..i] == Listing(w)[..i]
  {
    hide WellFormed, NamesOk, Listing, LinesUnder, AlwaysAlike, KeyOk, Lines, Glue;
    if i > 0 {
      var a, b, j := Listing(v), Listing(w), i - 1;
      SameUpTo(v, w, j);
      ListedAt(v, j);
      AlikeSameLines(v, w, a[j].key);
      LongerHasMore(a, b, j);
      ListedAt(w, j);
      SameKeyAt(v, w, j);
      SameBodyAt(v, w, j);
      assert a[..i] == a[..j] + [a[j]] && b[..i] == b[..j] + [b[j]];
    }
  }

  lemma LongerHasMore(a: seq<Section>, b: seq<Section>, j: nat)
    requires j < |a| && |a[j].body| >= 1 && j <= |b| && a[..j] == b[..j] && Lines(a) == Lines(b)
    ensures j < |b|
  {
    hide Lines;
    LinesFrom(a, j);
    LinesFrom(b, j);
  }

  lemma LinesFrom(ss: seq<Section>, j: nat)
    requires j <= |ss|
    ensures Lines(ss) == Lines(ss[..j]) + Lines(ss[j..])
    ensures j == |ss| ==> Lines(ss[j..]) == 0
    ensures j < |ss| ==> Lines(ss[j..]) >= |ss[j].body|
  {
    assert ss == ss[..j] + ss[j..];
    LinesConcat(ss[..j], ss[j..]);
    if j < |ss| {
      assert ss[j..] == [ss[j]] + ss[j + 1..];
      LinesConcat([ss[j]], ss[j + 1..]);
      LinesOfOne(ss[j]);
    }
  }

  lemma SameKeyAt(v: View, w: View, j: nat)
    requires WellFormed(v) && WellFormed(w) && NamesOk(v) && NamesOk(w) && AlwaysAlike(v, w)
    requires j < |Listing(v)| && j < |Listing(w)| && Listing(v)[..j] == Listing(w)[..j]
    ensures Listing(v)[j].key == Listing(w)[j].key
  {
    hide WellFormed, NamesOk, Listing, LinesUnder, AlwaysAlike, KeyOk;
    ListedAt(v, j);
    ListedAt(w, j);
    match Listing(v)[j].key
    case Named(n) => NoOtherName(v, w, j, n);
    case Preamble =>
      AlikeSameLines(v, w, Preamble);
      var at := ListedSomewhere(w, Preamble);
  }

  lemma SameBodyAt(v: View, w: View, j: nat)
    requires WellFormed(v) && WellFormed(w) && NamesOk(v) && NamesOk(w) && AlwaysAlike(v, w)
    requires j < |Listing(v)| && j < |Listing(w)| && Listing(v)[..j] == Listing(w)[..j]
    requires Listing(v)[j].key == Listing(w)[j].key
    ensures Listing(v)[j] == Listing(w)[j]
  {
    hide WellFormed, NamesOk, Listing, LinesUnder, AlwaysAlike, KeyOk, Glue, Lines;
    ListedAt(v, j);
    ListedAt(w, j);
    AlikeSameLines(v, w, Listing(v)[j].key);
    LineAt(Listing(v), j);
    LineAt(Listing(w), j);
    AlikeNow(v, w);
  }

  lemma AlikeNow(v: View, w: View)
    requires AlwaysAlike(v, w)
    ensures Glue(Listing(v), []) == Glue(Listing(w), [])
  {
    hide Listing, Glue;
    AbsorbNothing(v);
    AbsorbNothing(w);
  }

  /** Two views that no section tells apart are one. */
  lemma AlikeIsEqual(v: View, w: View)
    requires WellFormed(v) && WellFormed(w) && NamesOk(v) && NamesOk(w) && AlwaysAlike(v, w)
    ensures v == w
  {
    hide *;
    AlikeBackwards(v, w);
    SameUpTo(v, w, |Listing(v)|);
    SameUpTo(w, v, |Listing(w)|);
    assert Listing(v)[..|Listing(v)|] == Listing(v) && Listing(w)[..|Listing(w)|] == Listing(w);
    ListingRebuilds(v);
    ListingRebuilds(w);
  }

  lemma AlikeBackwards(v: View, w: View)
    requires AlwaysAlike(v, w)
    ensures AlwaysAlike(w, v)
  {
    hide Listing, Glue, AbsorbAll, Marker, KeyOk;
    forall k, tab | KeyOk(k)
      ensures Alike(w, v, [Marker(k, tab)])
    {
      assert Alike(v, w, [Marker(k, tab)]);
    }
  }

  // ----------------------------------------------------------------------------- exactly for which

  lemma AgreesOn(h: seq<Message>, ss: seq<Section>)
    requires |Indices(h)| >= 2 && AllRobust(ss) && PreambleOnlyFirst(ss)
    requires Incremental(h, CheckpointMessage(ss))
    ensures Alike(NewestView(h), NewestView(Collapse(h)), ss)
  {
    hide *;
    var c, h' := CheckpointMessage(ss), Collapse(h);
    WrittenCheckpoint(ss);
    CollapseIsLossless(h);
    ViewAppends(h, c);
    ViewAppends(h', c);
    CollapseAtEnd(h, c);
    CollapseAtEnd(h', c);
    IncrementalIs(h, c);
    SameContent(DropCheckpoints(h), c, Render(NewestView(h + [c])), Render(NewestView(h' + [c])));
    SameRendering(NewestView(h + [c]), NewestView(h' + [c]));
    AlikeIs(NewestView(h), NewestView(h'), ss);
  }

  lemma IncrementalIs(h: seq<Message>, c: Message)
    ensures Incremental(h, c) <==> Collapse(Collapse(h) + [c]) == Collapse(h + [c])
  {}

  lemma AlikeIs(v: View, w: View, ss: seq<Section>)
    ensures Alike(v, w, ss) <==> Glue(Listing(AbsorbAll(v, ss)), []) == Glue(Listing(AbsorbAll(w, ss)), [])
  {}

  lemma SameContent(d: seq<Message>, c: Message, x: Text, y: Text)
    requires d + [c.(content := x)] == d + [c.(content := y)]
    ensures x == y
  {
    assert (d + [c.(content := x)])[|d|] == (d + [c.(content := y)])[|d|];
  }

  lemma SameRendering(v: View, w: View)
    requires Render(v) == Render(w)
    ensures Glue(Listing(v), []) == Glue(Listing(w), [])
  {
    hide Listing, Glue;
    assert Render(v)[1..] == Glue(Listing(v), []) && Render(w)[1..] == Glue(Listing(w), []);
  }

  ghost predicate IncrementalForAll(h: seq<Message>) { forall c :: Incremental(h, c) }

  lemma AllAreAlike(h: seq<Message>)
    requires |Indices(h)| >= 2 && IncrementalForAll(h)
    ensures AlwaysAlike(NewestView(h), NewestView(Collapse(h)))
  {
    hide Incremental, Alike, Robust, Marker, KeyOk, Indices, CheckpointMessage, NewestView;
    assert Incremental(h, CheckpointMessage([]));
    AgreesOn(h, []);
    forall k, tab | KeyOk(k)
      ensures Alike(NewestView(h), NewestView(Collapse(h)), [Marker(k, tab)])
    {
      MarkerIsRobust(k, tab);
      assert Incremental(h, CheckpointMessage([Marker(k, tab)]));
      AgreesOn(h, [Marker(k, tab)]);
    }
  }

  lemma OtherMessagesAreIncremental(h: seq<Message>, c: Message)
    requires !IsCheckpoint(c)
    ensures Incremental(h, c)
  {
    hide IsCheckpoint, Collapse;
    CollapseIsLossless(h);
    CollapseAppends(h, [c]);
    CollapseAppends(Collapse(h), [c]);
  }

  /** Collapsing as messages arrive gives the same as collapsing at once, whatever the next message
      is, if and only if there is nothing to collapse or the newest bodies are legible side by
      side. */
  lemma CollapseIsIncrementalExactlyWhen(h: seq<Message>)
    ensures (forall c :: Incremental(h, c)) <==> |Indices(h)| < 2 || Legible(Listing(NewestView(h)))
  {
    hide *;
    if |Indices(h)| < 2 || Legible(Listing(NewestView(h))) {
      forall c
        ensures Incremental(h, c)
      {
        if IsCheckpoint(c) { CollapseIsIncremental(h, c); } else { OtherMessagesAreIncremental(h, c); }
        IncrementalIs(h, c);
      }
    } else if forall c :: Incremental(h, c) {
      ForAllIs(h);
      AllAreAlike(h);
      NewestViewWellFormed(h);
      NewestViewWellFormed(Collapse(h));
      NamesOfView(h);
      NamesOfView(Collapse(h));
      AlikeIsEqual(NewestView(h), NewestView(Collapse(h)));
      CollapseKeepsTheViewExactlyWhen(h);
    }
  }

  lemma ForAllIs(h: seq<Message>)
    ensures IncrementalForAll(h) <==> forall c :: Incremental(h, c)
  {
    hide Incremental;
  }

  // --------------------------------------------------------------------------------- a case of it

  const FIRST := Section(Named("A"), ["## A", "x", "##"])
  const SECOND := Section(Named("B"), ["## B", "y"])

  /** Two checkpoints, the first of which ends with two hashes. Alone it reads back as it was
      written; with another body behind it, it is cut. */
  lemma HashesAtTheEnd()
    ensures var h := [CheckpointMessage([FIRST]), CheckpointMessage([SECOND])];
            && ParseCheckpoint(h[0].content) == [FIRST] && ParseCheckpoint(h[1].content) == [SECOND]
            && exists c :: !Incremental(h, c)
  {
    hide *;
    var c, d := CheckpointMessage([FIRST]), CheckpointMessage([SECOND]);
    Rereading.PrintsACheckpoint([FIRST]);
    Rereading.PrintsACheckpoint([SECOND]);
    EachIsLegible();
    CheckpointRoundTrip([FIRST]);
    CheckpointRoundTrip([SECOND]);
    ViewOfNothing();
    ViewAppends([], c);
    ViewAppends([c], d);
    assert [] + [c] == [c] && [c] + [d] == [c, d];
    BothTogether();
    TwoIndices(c, d);
    CollapseIsIncrementalExactlyWhen([c, d]);
  }

  lemma EachIsLegible()
    ensures AllTrimmed([FIRST]) && Legible([FIRST]) && AllTrimmed([SECOND]) && Legible([SECOND])
  {
    hide KeyOfLine;
    PlainHeadings();
    assert "x"[0] == 'x' && "y"[0] == 'y';
    assert Legible([FIRST]) && Legible([SECOND]);
  }

  lemma PlainHeadings()
    ensures KeyOfLine("## A") == Named("A") && KeyOfLine("## B") == Named("B")
  {
    HeadingOf("A", false);
    HeadingOf("B", false);
    assert HeadingLine("A", false) == "## A" && HeadingLine("B", false) == "## B";
  }

  lemma BothTogether()
    ensures !Legible(Listing(AbsorbAll(AbsorbAll(NOTHING, [FIRST]), [SECOND])))
  {
    hide Legible, Listing;
    AbsorbOne(NOTHING, FIRST);
    AbsorbOne(Absorb(NOTHING, FIRST), SECOND);
    var v := View(EMPTY, ["A", "B"], map["A" := FIRST.body, "B" := SECOND.body]);
    assert Absorb(Absorb(NOTHING, FIRST), SECOND) == v;
    ListingOfBoth(v);
    CutInside([FIRST, SECOND]);
  }

  lemma ListingOfBoth(v: View)
    requires v == View(EMPTY, ["A", "B"], map["A" := FIRST.body, "B" := SECOND.body])
    ensures Listing(v) == [FIRST, SECOND]
  {
    assert NamedListing(v.order, v.bodies) == [FIRST, SECOND];
  }

  lemma CutInside(ss: seq<Section>)
    requires |ss| == 2 && ss[0] == FIRST
    ensures !Legible(ss)
  {
    assert CutsBefore(ss[0].body[2], false);
  }

  lemma TwoIndices(c: Message, d: Message)
    requires IsCheckpoint(c) && IsCheckpoint(d)
    ensures |Indices([c, d])| == 2
  {
    hide IsCheckpoint;
    assert [c][..0] == [] && Indices([]) == [];
    assert |Indices([c])| == 1;
    assert [c, d][..1] == [c];
    assert Indices([c, d]) == Indices([c]) + [1];
  }
}
