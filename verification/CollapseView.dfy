/** Collapsing keeps the newest body of every section exactly when the bodies are legible side by
    side: no other text reads back as the same view, because the lines do not suffice. */
module CollapseView {
  import opened Prelude
  import opened Texts
  import opened Sections
  import opened Checkpoints

  // -------------------------------------------------------------------------- counting lines

  function Lines(ss: seq<Section>): nat {
    if ss == [] then 0 else Lines(ss[..|ss| - 1]) + |ss[|ss| - 1].body|
  }

  lemma {:induction false} LinesConcat(a: seq<Section>, b: seq<Section>)
    ensures Lines(a + b) == Lines(a) + Lines(b)
  {
    if b == [] {
      assert a + b == a;
    } else {
      assert (a + b)[..|a + b| - 1] == a + b[..|b| - 1];
      LinesConcat(a, b[..|b| - 1]);
    }
  }

  lemma LinesOfOne(s: Section)
    ensures Lines([s]) == |s.body|
  {
    assert [s][..0] == [];
  }

  lemma {:induction false} GlueLength(ss: seq<Section>)
    ensures |Glue(ss, [])| == Lines(ss)
  {
    if ss != [] {
      GlueLength(ss[1..]);
      assert ss == [ss[0]] + ss[1..];
      LinesConcat([ss[0]], ss[1..]);
      LinesOfOne(ss[0]);
    }
  }

  /** A block gives a section of no more lines than it has. */
  lemma BlockLines(key: Key, block: Text)
    ensures Lines(BlockSection(key, block)) <= |block|
  {
    TrimShape(block);
    LinesOfOne(Section(key, TrimText(block)));
  }

  lemma {:induction false} ParsedLines(t: Text)
    ensures Lines(ParseLines(t)) <= |t|
    decreases |t|
  {
    hide BlockSection, KeyOfLine;
    if t != [] {
      var k := NextCut(t, 1);
      BlockLines(KeyOfLine(t[0]), t[..k]);
      ParsedLines(t[k..]);
      LinesConcat(BlockSection(KeyOfLine(t[0]), t[..k]), ParseLines(t[k..]));
    }
  }

  /** An empty line in front adds nothing. */
  lemma ParsedBehindAnEmptyLine(g: Text)
    requires g != [] && !Blank(g[0])
    ensures Lines(ParseLines([""] + g)) <= |g|
    ensures NextCut([""] + g, 1) == 1 ==> ParseLines([""] + g) == ParseLines(g)
    ensures NextCut([""] + g, 1) > 1 ==>
              ParseLines([""] + g) != [] && ParseLines([""] + g)[0].key == Preamble
  {
    var t := [""] + g;
    var k := NextCut(t, 1);
    if k == 1 {
      ParseSkip(t);
      assert t[1..] == g;
      ParsedLines(g);
    } else {
      assert t[1] == g[0];
      PartSection(t, k, 1);
      FewerLines(t[..k], 1);
      ParsedLines(t[k..]);
      LinesConcat([Section(KeyOfLine(t[0]), TrimText(t[..k]))], ParseLines(t[k..]));
      LinesOfOne(Section(KeyOfLine(t[0]), TrimText(t[..k])));
    }
  }

  // ------------------------------------------------------------------------ absorbing loses lines

  ghost predicate Distinct(ss: seq<Section>) { forall i, j :: 0 <= i < j < |ss| ==> ss[i].key != ss[j].key }

  lemma NamedSnoc(order: seq<string>, n: string, bodies: map<string, Text>)
    requires n in bodies
    ensures Lines(NamedListing(order + [n], bodies)) == Lines(NamedListing(order, bodies)) + |bodies[n]|
  {
    NamedListingSnoc(order, n, bodies);
    LinesConcat(NamedListing(order, bodies), [Section(Named(n), bodies[n])]);
    LinesOfOne(Section(Named(n), bodies[n]));
  }

  /** Another body under a name that is not listed, or in the place of the one that is. */
  lemma {:induction false} NamedChanges(order: seq<string>, bodies: map<string, Text>, n: string, b: Text)
    requires forall i, j :: 0 <= i < j < |order| ==> order[i] != order[j]
    requires forall m :: m in order ==> m in bodies
    ensures n !in order ==> NamedListing(order, bodies[n := b]) == NamedListing(order, bodies)
    ensures n in order ==>
              Lines(NamedListing(order, bodies[n := b])) + |bodies[n]| == Lines(NamedListing(order, bodies)) + |b|
  {
    hide NamedListing;
    if order == [] {
      NothingNamed(bodies);
      NothingNamed(bodies[n := b]);
    } else {
      var front, m := order[..|order| - 1], order[|order| - 1];
      assert order == front + [m];
      assert m !in front;
      NamedChanges(front, bodies, n, b);
      NamedSnoc(front, m, bodies);
      NamedSnoc(front, m, bodies[n := b]);
      NamedListingSnoc(front, m, bodies);
      NamedListingSnoc(front, m, bodies[n := b]);
    }
  }

  lemma NothingNamed(bodies: map<string, Text>)
    ensures NamedListing([], bodies) == []
  {}

  lemma ListingLines(v: View)
    ensures Lines(Listing(v))
            == (if v.preamble == EMPTY then 0 else |v.preamble|) + Lines(NamedListing(v.order, v.bodies))
  {
    hide NamedListing;
    var p := if v.preamble == EMPTY then [] else [Section(Preamble, v.preamble)];
    LinesConcat(p, NamedListing(v.order, v.bodies));
    LinesOfOne(Section(Preamble, v.preamble));
  }

  /** The lines a view holds under a key. */
  function LinesUnder(v: View, k: Key): nat {
    match k
    case Preamble => if v.preamble == EMPTY then 0 else |v.preamble|
    case Named(n) => if n in v.bodies then |v.bodies[n]| else 0
  }

  predicate Holds(v: View, k: Key) {
    match k case Preamble => v.preamble != EMPTY case Named(n) => n in v.bodies
  }

  lemma OrderParts(v: View)
    requires WellFormed(v)
    ensures forall i, j :: 0 <= i < j < |v.order| ==> v.order[i] != v.order[j]
    ensures forall n :: n in v.order <==> n in v.bodies
    ensures forall n :: n in v.bodies ==> |v.bodies[n]| >= 1
    ensures v.preamble == EMPTY || |v.preamble| >= 1
  {}

  /** A section takes the place of the lines under its key. */
  lemma AbsorbLines(v: View, s: Section)
    requires WellFormed(v) && Trimmed(s.body)
    ensures Lines(Listing(Absorb(v, s))) + LinesUnder(v, s.key) == Lines(Listing(v)) + |s.body|
    ensures Holds(v, s.key) <==> LinesUnder(v, s.key) > 0
  {
    hide WellFormed, NamedListing, Listing;
    OrderParts(v);
    ListingLines(v);
    ListingLines(Absorb(v, s));
    assert s.body != EMPTY;
    match s.key
    case Preamble =>
    case Named(n) =>
      NamedChanges(v.order, v.bodies, n, s.body);
      if n !in v.bodies { NamedSnoc(v.order, n, v.bodies[n := s.body]); }
  }

  lemma {:induction false} Held(ss: seq<Section>, k: Key)
    requires AllTrimmed(ss)
    ensures Holds(AbsorbAll(NOTHING, ss), k) <==> exists i :: 0 <= i < |ss| && ss[i].key == k
  {
    hide Trimmed;
    if ss != [] {
      var front := ss[..|ss| - 1];
      assert forall i :: 0 <= i < |front| ==> front[i] == ss[i];
      Held(front, k);
      NotEmpty(ss[|ss| - 1].body);
      assert ss[|ss| - 1].key == k ==> exists i :: 0 <= i < |ss| && ss[i].key == k;
    }
  }

  lemma NotEmpty(b: Text)
    requires Trimmed(b)
    ensures b != EMPTY
  {}

  /** The view lists at most the lines that were absorbed, and fewer when a key comes twice. */
  lemma {:induction false} AbsorbedLines(ss: seq<Section>)
    requires AllTrimmed(ss)
    ensures WellFormed(AbsorbAll(NOTHING, ss))
    ensures Lines(Listing(AbsorbAll(NOTHING, ss))) <= Lines(ss)
    ensures Lines(Listing(AbsorbAll(NOTHING, ss))) == Lines(ss) ==> Distinct(ss)
  {
    hide Trimmed, WellFormed, Listing, Absorb;
    if ss == [] {
      NothingListed();
    } else {
      var front, s := ss[..|ss| - 1], ss[|ss| - 1];
      assert forall i :: 0 <= i < |front| ==> front[i] == ss[i];
      AbsorbedLines(front);
      AbsorbLines(AbsorbAll(NOTHING, front), s);
      Held(front, s.key);
      AbsorbKeepsForm(NOTHING, ss) by { NothingListed(); }
    }
  }

  lemma NothingListed()
    ensures AbsorbAll(NOTHING, []) == NOTHING && WellFormed(NOTHING) && Listing(NOTHING) == []
  {}

  lemma OneMoreListed(v: View, s: Section)
    requires WellFormed(v) && Trimmed(s.body) && !Holds(v, s.key)
    requires s.key == Preamble ==> v.order == []
    ensures Listing(Absorb(v, s)) == Listing(v) + [s]
  {
    hide Trimmed, NamedListing, WellFormed;
    OrderParts(v);
    NotEmpty(s.body);
    match s.key
    case Preamble =>
      NothingNamed(v.bodies);
    case Named(n) =>
      NamedChanges(v.order, v.bodies, n, s.body);
      NamedListingSnoc(v.order, n, v.bodies[n := s.body]);
  }

  /** Sections under distinct keys, the preamble in front, are listed as they came. */
  lemma {:induction false} DistinctAreListed(ss: seq<Section>)
    requires AllTrimmed(ss) && Distinct(ss) && PreambleOnlyFirst(ss)
    ensures Listing(AbsorbAll(NOTHING, ss)) == ss
  {
    hide Trimmed, WellFormed, Listing, Absorb;
    NothingListed();
    if ss != [] {
      var front, s := ss[..|ss| - 1], ss[|ss| - 1];
      assert ss == front + [s];
      assert forall i :: 0 <= i < |front| ==> front[i] == ss[i];
      DistinctAreListed(front);
      Held(front, s.key);
      AbsorbedLines(front);
      OneMoreListed(AbsorbAll(NOTHING, front), s);
    }
  }

  // ------------------------------------------------------------------- a preamble further down

  /** A section without a name starts with a line that is no heading. */
  predicate NamelessByItsStart(s: Section) { s.key == Preamble && s.body != [] ==> KeyOfLine(s.body[0]) == Preamble }

  /** So does every section of a text that starts at a cut, although its body is trimmed. */
  lemma {:induction false} NamelessParts(t: Text)
    requires t != [] ==> CutsBefore(t[0], |t| == 1)
    ensures forall s :: s in ParseLines(t) ==> NamelessByItsStart(s)
    decreases |t|
  {
    hide KeyOfLine, CutsBefore, ParseLines, TrimText;
    if t == [] {
      NothingParsed();
    } else {
      var k := NextCut(t, 1);
      CutIsInk(t[0], |t| == 1);
      PartSection(t, k, 0);
      if k < |t| { LaterCut(t, k); }
      NamelessParts(t[k..]);
      if KeyOfLine(t[0]) == Preamble { NamelessStart(t[..k], |t| == 1); }
    }
  }

  lemma LaterCut(t: Text, k: nat)
    requires 1 <= |t| && k == NextCut(t, 1) < |t|
    ensures CutsBefore(t[k..][0], |t[k..]| == 1)
  {}

  lemma CutIsInk(line: string, isLast: bool)
    requires CutsBefore(line, isLast)
    ensures !Blank(line)
  {
    assert line[0] == '#';
  }

  lemma NamelessStart(block: Text, isLast: bool)
    requires block != [] && CutsBefore(block[0], isLast) && KeyOfLine(block[0]) == Preamble
    ensures TrimText(block) != [] && KeyOfLine(TrimText(block)[0]) == Preamble
  {
    var line := block[0];
    assert line[0] == '#' && !Blank(line);
    assert TrimTextStart(block) == [TrimStart(line)] + block[1..] && TrimStart(line) == line;
    assert TrimTextStart(block) == block;
    assert !AllBlank(block);
    TrimEndKeepsStart(block);
    var r := TrimTextEnd(block);
    if |r| > 1 {
      assert r[0] == r[..|r| - 1][0] == block[..|r| - 1][0] == line;
    } else {
      TrimOneLine(block);
      NamelessLine(line);
    }
  }

  /** A line that starts like a heading and is none is none either with the blanks at its end taken
      off. */
  lemma NamelessLine(line: string)
    requires KeyOfLine(line) == Preamble && (TwoHashesAndSpace(line) || line == "##")
    ensures KeyOfLine(TrimEnd(line)) == Preamble
  {
    hide *;
    TwoHashes();
    if line == "##" {
    } else {
      HashesAnd(line);
      var s := line[2..];
      TrimEndOfSum("##", s);
      if !Blank(s) {
        TrimsCommute(s);
        NamelessWhen(line);
        var t := "##" + TrimEnd(s);
        assert t[2..] == TrimEnd(s) && TrimEnd(TrimEnd(s)) == TrimEnd(s);
        assert TrimEnd(TrimEnd(TrimStart(s))) == TrimEnd(TrimStart(s));
        NamelessIf(t);
      }
    }
  }

  lemma TwoHashes()
    ensures KeyOfLine("##") == Preamble && TrimEnd("##") == "##"
  {}

  lemma HashesAnd(line: string)
    requires TwoHashesAndSpace(line)
    ensures |line| >= 2 && line == "##" + line[2..]
  {
    assert line[..2] == "##";
  }

  lemma NamelessWhen(line: string)
    requires TwoHashesAndSpace(line) && KeyOfLine(line) == Preamble && !Blank(line[2..])
    ensures !Dots(TrimEnd(TrimStart(line[2..])))
  {
    hide TrimStart, TrimEnd, LastDot, Dots, IsSpace;
    var rest := TrimStart(line[2..]);
    assert rest != "" && !IsSpace(rest[0]);
    assert TrimEnd(rest) != "" by { assert !Blank(rest); }
  }

  lemma NamelessIf(line: string)
    requires |line| >= 2 && !Blank(line[2..]) && !Dots(TrimEnd(TrimStart(line[2..])))
    ensures KeyOfLine(line) == Preamble
  {
    hide TrimStart, TrimEnd, LastDot, Dots, Blank;
  }

  lemma {:induction false} PreambleIs(ss: seq<Section>, i: nat)
    requires i < |ss| && ss[i].key == Preamble && Distinct(ss)
    ensures AbsorbAll(NOTHING, ss).preamble == ss[i].body
  {
    var front := ss[..|ss| - 1];
    if i < |front| {
      assert forall j :: 0 <= j < |front| ==> front[j] == ss[j];
      PreambleIs(front, i);
      assert ss[|ss| - 1].key != ss[i].key;
    }
  }

  // ------------------------------------------------------------------------------- the converse

  lemma ParseOfRender(v: View)
    ensures IsCheckpointText(Render(v)) && ParseCheckpoint(Render(v)) == ParseLines([""] + Glue(Listing(v), []))
  {
    PrefixedText(Glue(Listing(v), []));
  }

  lemma FirstOfGlue(v: View)
    requires WellFormed(v) && Listing(v) != []
    ensures var g := Glue(Listing(v), []);
            g != [] && !Blank(g[0]) && (v.preamble != EMPTY ==> g[0] == v.preamble[0])
  {
    ListingTrimmed(v);
    var b := Listing(v)[0].body;
    assert Trimmed(b);
    assert !Blank(b[0]) by { assert !IsSpace(b[0][0]); }
  }

  /** A text that reads back as the view it was rendered from reads back section by section. */
  lemma OnlyItsListing(v: View)
    requires WellFormed(v) && AbsorbAll(NOTHING, ParseCheckpoint(Render(v))) == v
    requires IsCheckpointText(Render(v))
    ensures ParseCheckpoint(Render(v)) == Listing(v)
  {
    hide *;
    var ls := Listing(v);
    var g := Glue(ls, []);
    var ps := ParseLines([""] + g);
    ParseOfRender(v);
    ParseTrimmed([""] + g);
    if ls == [] {
      NothingToRead(v);
    } else {
      FirstOfGlue(v);
      GlueLength(ls);
      ParsedBehindAnEmptyLine(g);
      AbsorbedLines(ps);
      assert Distinct(ps);
      NothingFurtherDown(v, g, ps);
      DistinctAreListed(ps);
    }
  }

  lemma NothingToRead(v: View)
    requires Listing(v) == []
    ensures ParseLines([""] + Glue(Listing(v), [])) == []
  {
    assert [""] + Glue([], []) == [""];
    GlueNil([""], []);
  }

  /** A preamble that is not read first cannot be the one that is written first. */
  lemma NothingFurtherDown(v: View, g: Text, ps: seq<Section>)
    requires WellFormed(v) && g != [] && !Blank(g[0]) && ps == ParseLines([""] + g) && AllTrimmed(ps)
    requires Distinct(ps) && AbsorbAll(NOTHING, ps) == v
    requires v.preamble != EMPTY ==> g[0] == v.preamble[0]
    ensures PreambleOnlyFirst(ps)
  {
    hide HeadingName, ParseLines, AbsorbAll, TrimText, WellFormed, Distinct, BlockSection;
    forall i | 1 <= i < |ps|
      ensures ps[i].key.Named?
    {
      if ps[i].key == Preamble {
        assert Trimmed(ps[i].body);
        PreambleIs(ps, i);
        NotEmpty(ps[i].body);
        ParsedBehindAnEmptyLine(g);
        DistinctAt(ps, i);
        CutInFront(g);
        NamelessParts(g);
        assert ps[i] in ps && NamelessByItsStart(ps[i]);
        PartSection(g, NextCut(g, 1), 0);
        assert false;
      }
    }
  }

  lemma DistinctAt(ps: seq<Section>, i: nat)
    requires Distinct(ps) && 1 <= i < |ps|
    ensures ps[0].key != ps[i].key
  {}

  lemma CutInFront(g: Text)
    requires g != [] && NextCut([""] + g, 1) == 1
    ensures CutsBefore(g[0], |g| == 1)
  {
    assert ([""] + g)[1] == g[0];
  }

  /** Collapsing keeps the newest body of every section if and only if there is nothing to collapse
      or the newest bodies are legible side by side. */
  lemma CollapseKeepsTheViewExactlyWhen(ms: seq<Message>)
    ensures NewestView(Collapse(ms)) == NewestView(ms)
            <==> |Indices(ms)| < 2 || Legible(Listing(NewestView(ms)))
  {
    hide *;
    if |Indices(ms)| < 2 || Legible(Listing(NewestView(ms))) {
      CollapseKeepsTheView(ms);
    } else if NewestView(Collapse(ms)) == NewestView(ms) {
      ViewOfCollapsed(ms);
      NewestViewWellFormed(ms);
      RenderedCheckpoint(NewestView(ms));
      OnlyItsListing(NewestView(ms));
    }
  }
}
