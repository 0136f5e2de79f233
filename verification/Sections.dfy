/** `## Heading` sections: how the volatile blob is split, how a state checkpoint is
    printed, and how a replayed checkpoint is parsed again. */
module Sections {
  import opened Prelude
  import opened Texts

  /** Text before the first heading has no name (the engine files it under `_preamble`). */
  datatype Key = Preamble | Named(name: string)

  datatype Section = Section(key: Key, body: Text)

  const PREFIX := "[SYSTEM] [State checkpoint]"

  predicate TwoHashesAndSpace(line: string) {
    |line| >= 3 && line[0] == '#' && line[1] == '#' && IsSpace(line[2])
  }

  /** Every character is one that a dot matches. */
  predicate Dots(s: string) { forall i :: 0 <= i < |s| ==> !EndsLine(s[i]) }

  /** The last of the characters that a dot matches. */
  function LastDot(s: string): (r: string)
    ensures |r| <= 1
  {
    if s == "" then "" else if EndsLine(s[|s| - 1]) then LastDot(s[..|s| - 1]) else [s[|s| - 1]]
  }

  /** The name matched by `^##\s+(.+?)\s*$`, in which the dot matches no line terminator. When only
      blanks follow the hashes the greedy `\s+` gives back as many as it takes for the dot to match
      one, so two blanks or more can name a section by a blank. */
  function HeadingName(line: string): (name: Option<string>)
    ensures name.Some? ==> TwoHashesAndSpace(line) && name.value != ""
  {
    if !TwoHashesAndSpace(line) then None
    else
      var rest := TrimStart(line[2..]);
      var name := if rest != "" then TrimEnd(rest) else LastDot(line[3..]);
      if name != "" && Dots(name) then Some(name) else None
  }

  function KeyOfLine(line: string): Key {
    match HeadingName(line) case Some(n) => Named(n) case None => Preamble
  }

  // ------------------------------------------------------------------ splitting the blob

  /** Index of the first heading after line 0, or the number of lines. */
  function NextHeading(t: Text, i: nat): (k: nat)
    requires i <= |t|
    ensures i <= k <= |t|
    ensures forall j :: i <= j < k ==> HeadingName(t[j]).None?
    ensures k < |t| ==> HeadingName(t[k]).Some?
    decreases |t| - i
  {
    if i == |t| || HeadingName(t[i]).Some? then i else NextHeading(t, i + 1)
  }

  /** One block of lines as a section, unless it is blank. */
  function BlockSection(key: Key, block: Text): (r: seq<Section>)
    ensures |r| <= 1
  {
    var body := TrimText(block);
    if body == EMPTY then [] else [Section(key, body)]
  }

  /** The sections of a blob: its maximal runs of lines between headings. */
  function SplitSections(t: Text): seq<Section>
    decreases |t|
  {
    if t == [] then []
    else
      var k := NextHeading(t, 1);
      BlockSection(KeyOfLine(t[0]), t[..k]) + SplitSections(t[k..])
  }

  /** The engine's one pass over the lines, with a current key and a buffer. */
  method SplitVolatileSections(blob: Text) returns (out: seq<Section>)
    requires |blob| >= 1
    ensures out == SplitSections(blob)
  {
    hide HeadingName, BlockSection, SplitSections, NextHeading, TwoHashesAndSpace, TrimText;
    out := [];
    var curKey := Preamble;
    var buf: Text := [];
    ghost var start := 0;
    assert blob[0..] == blob;
    for i := 0 to |blob|
      invariant start <= i && buf == blob[start..i]
      invariant start == i ==> i == 0 && curKey == Preamble
      invariant start < i ==> curKey == KeyOfLine(blob[start])
      invariant forall j :: start < j < i ==> HeadingName(blob[j]).None?
      invariant out + SplitSections(blob[start..]) == SplitSections(blob)
    {
      var m := HeadingName(blob[i]);
      if m.Some? {
        SplitAt(blob, start, i);
        out := out + BlockSection(curKey, buf);
        curKey, buf, start := Named(m.value), [blob[i]], i;
      } else {
        buf := buf + [blob[i]];
      }
    }
    SplitAt(blob, start, |blob|);
    out := out + BlockSection(curKey, buf);
  }

  /** The block that ends at a heading, or with the text, comes off the front. */
  lemma SplitAt(t: Text, start: nat, i: nat)
    requires start <= i <= |t|
    requires forall j :: start < j < i ==> HeadingName(t[j]).None?
    requires i < |t| ==> HeadingName(t[i]).Some?
    ensures start == i ==> BlockSection(Preamble, t[start..i]) == []
    ensures start < i ==>
              SplitSections(t[start..])
              == BlockSection(KeyOfLine(t[start]), t[start..i]) + SplitSections(t[i..])
    ensures i == |t| ==> SplitSections(t[i..]) == []
  {
    if start == i {
      assert t[start..i] == [] && TrimText([]) == EMPTY;
    } else {
      var u, k := t[start..], i - start;
      NextHeadingIs(u, 1, k);
      assert u[..k] == t[start..i] && u[k..] == t[i..];
    }
  }

  lemma NextHeadingIs(t: Text, i: nat, k: nat)
    requires i <= k <= |t|
    requires forall j :: i <= j < k ==> HeadingName(t[j]).None?
    requires k < |t| ==> HeadingName(t[k]).Some?
    ensures NextHeading(t, i) == k
  {}

  // ---------------------------------------------------------------- printing a checkpoint

  /** Section bodies one after another with the lines of `gap` between them. */
  function Glue(ss: seq<Section>, gap: Text): Text
    decreases |ss|, 0
  {
    if ss == [] then [] else ss[0].body + Rest(ss[1..], gap)
  }

  function Rest(ss: seq<Section>, gap: Text): Text
    decreases |ss|, 1
  {
    if ss == [] then [] else gap + Glue(ss, gap)
  }

  /** What the engine writes: the marker line, then the bodies joined by a blank line. */
  function Print(ss: seq<Section>): Text { [PREFIX] + Glue(ss, [""]) }

  // ----------------------------------------------------------------- parsing a checkpoint

  /** Does the split at `\n(?=##\s)` cut before line `j`? The blank after the hashes may be
      the line's own newline, which every line but the last one has. */
  predicate CutsBefore(line: string, isLast: bool) {
    TwoHashesAndSpace(line) || (line == "##" && !isLast)
  }

  function NextCut(t: Text, i: nat): (k: nat)
    requires i <= |t|
    ensures i <= k <= |t|
    ensures forall j :: i <= j < k ==> !CutsBefore(t[j], j == |t| - 1)
    ensures k < |t| ==> CutsBefore(t[k], k == |t| - 1)
    decreases |t| - i
  {
    if i == |t| || CutsBefore(t[i], i == |t| - 1) then i else NextCut(t, i + 1)
  }

  /** The parts of a checkpoint text in order, each filed under its heading; a part whose
      first line is no heading is preamble, and a blank one is skipped. */
  function ParseLines(t: Text): seq<Section>
    decreases |t|
  {
    if t == [] then []
    else
      var k := NextCut(t, 1);
      BlockSection(KeyOfLine(t[0]), t[..k]) + ParseLines(t[k..])
  }

  lemma NothingParsed()
    ensures ParseLines([]) == []
  {}

  predicate IsCheckpointText(content: Text) {
    StartsWith(TrimTextStart(content)[0], PREFIX)
  }

  /** `content.trimStart().slice(PREFIX.length)` */
  function AfterPrefix(content: Text): (r: Text)
    requires IsCheckpointText(content)
    ensures |r| >= 1
  {
    var t := TrimTextStart(content);
    [t[0][|PREFIX|..]] + t[1..]
  }

  function ParseCheckpoint(content: Text): seq<Section>
    requires IsCheckpointText(content)
  {
    ParseLines(AfterPrefix(content))
  }

  // -------------------------------------------------------------------------- round trip

  predicate AllTrimmed(ss: seq<Section>) { forall i :: 0 <= i < |ss| ==> Trimmed(ss[i].body) }

  /** No cut inside the body: only its first line may start a part. */
  predicate Unbroken(b: Text, isLast: bool) {
    forall k :: 1 <= k < |b| ==> !CutsBefore(b[k], isLast && k == |b| - 1)
  }

  /** A list of sections that survives being glued together and parsed: every body is filed
      under the key of its first line and has no cut inside, and every body after the first
      starts with a cut. */
  predicate Legible(ss: seq<Section>) {
    forall i :: 0 <= i < |ss| ==>
      var b, isLast := ss[i].body, i == |ss| - 1;
      && |b| >= 1
      && ss[i].key == KeyOfLine(b[0])
      && Unbroken(b, isLast)
      && (i >= 1 ==> CutsBefore(b[0], isLast && |b| == 1))
  }

  /** Lines that may stand between two bodies, or before the first one. */
  predicate IsGap(gap: Text) { gap == [] || gap == [""] }

  /** Where the first part ends when the first body is unbroken and the next one starts a
      part of its own. */
  lemma CutAfterBody(t: Text, lead: Text, b: Text, gap: Text, k: nat)
    requires |b| >= 1 && IsGap(lead) && IsGap(gap)
    requires |lead| + |b| + |gap| == k <= |t| && t[..k] == lead + b + gap
    requires k == |t| ==> gap == []
    requires Unbroken(b, k == |t|)
    requires lead != [] ==> !CutsBefore(b[0], |t| == 2)
    requires k < |t| ==> CutsBefore(t[k], k == |t| - 1)
    ensures NextCut(t, 1) == k
  {
    hide *;
    GapCases(lead);
    GapCases(gap);
    forall i | 1 <= i < k
      ensures !CutsBefore(t[i], i == |t| - 1)
    {
      assert t[i] == (lead + b + gap)[i];
      if |lead| < i < |lead| + |b| {
        UnbrokenAt(b, k == |t|, i - |lead|);
      } else {
        EmptyLineNeverCuts(i == |t| - 1);
      }
    }
    NextCutIs(t, 1, k);
  }

  lemma EmptyLineNeverCuts(isLast: bool)
    ensures !CutsBefore("", isLast)
  {}

  lemma UnbrokenAt(b: Text, isLast: bool, j: nat)
    requires Unbroken(b, isLast) && 1 <= j < |b|
    ensures !CutsBefore(b[j], isLast && j == |b| - 1)
  {}

  lemma NextCutIs(t: Text, i: nat, k: nat)
    requires i <= k <= |t|
    requires forall j :: i <= j < k ==> !CutsBefore(t[j], j == |t| - 1)
    requires k < |t| ==> CutsBefore(t[k], k == |t| - 1)
    ensures NextCut(t, i) == k
  {}

  /** A first part made of one body and its gap gives that body's section. */
  lemma ParseFirst(t: Text, lead: Text, b: Text, gap: Text, k: nat)
    requires IsGap(lead) && IsGap(gap) && Trimmed(b)
    requires |lead| + |b| + |gap| == k <= |t| && t[..k] == lead + b + gap
    requires NextCut(t, 1) == k
    ensures ParseLines(t) == [Section(KeyOfLine(t[0]), b)] + ParseLines(t[k..])
  {
    TrimRemovesPadding(lead, b, gap);
    assert b != EMPTY;
  }

  /** A blank first line followed by a cut contributes nothing. */
  lemma ParseSkip(t: Text)
    requires |t| >= 2 && t[0] == "" && CutsBefore(t[1], |t| == 2)
    ensures ParseLines(t) == ParseLines(t[1..])
  {
    assert NextCut(t, 1) == 1;
    assert t[..1] == [""];
    TrimShape(t[..1]);
    assert AllBlank(t[..1]);
  }

  lemma GlueStarts(ss: seq<Section>, gap: Text)
    requires |ss| >= 1 && AllTrimmed(ss)
    ensures |Glue(ss, gap)| >= |ss[0].body|
    ensures Glue(ss, gap)[0] == ss[0].body[0]
    ensures |Glue(ss, gap)| == 1 ==> |ss| == 1 && |ss[0].body| == 1
    ensures |ss| == 1 ==> Glue(ss, gap) == ss[0].body
  {
    assert Trimmed(ss[0].body);
    if |ss| > 1 {
      assert Rest(ss[1..], gap) == gap + (ss[1..][0].body + Rest(ss[1..][1..], gap));
      assert Trimmed(ss[1].body);
    }
  }

  predicate StartsPart(ss: seq<Section>)
    requires AllTrimmed(ss)
  {
    ss != [] ==>
      assert Trimmed(ss[0].body);
      CutsBefore(ss[0].body[0], |ss| == 1 && |ss[0].body| == 1)
  }

  /** Legibility, one section at a time. */
  lemma LegibleUncons(ss: seq<Section>)
    requires |ss| >= 1 && AllTrimmed(ss)
    ensures AllTrimmed(ss[1..]) && Trimmed(ss[0].body) && |ss[0].body| >= 1
    ensures Legible(ss) <==>
            && ss[0].key == KeyOfLine(ss[0].body[0])
            && Unbroken(ss[0].body, |ss| == 1)
            && StartsPart(ss[1..])
            && Legible(ss[1..])
  {
  }

  /** The text of the sections after the first, as the second part sees it. */
  lemma TailText(lead: Text, ss: seq<Section>, gap: Text)
    requires |ss| >= 1 && AllTrimmed(ss)
    ensures var t := lead + Glue(ss, gap);
            var sep := if |ss| == 1 then [] else gap;
            var k := |lead| + |ss[0].body| + |sep|;
            && k <= |t| && t[..k] == lead + ss[0].body + sep && t[k..] == Glue(ss[1..], gap)
            && (k == |t| <==> |ss| == 1)
            && (|ss| > 1 ==> t[k] == ss[1].body[0]
                             && (k == |t| - 1 <==> |ss| == 2 && |ss[1].body| == 1))
            && (ss[0].body != [] ==> t[|lead|] == ss[0].body[0])
            && (|t| == |lead| + 1 <==> |ss| == 1 && |ss[0].body| == 1)
  {
    var t := lead + Glue(ss, gap);
    var sep := if |ss| == 1 then [] else gap;
    assert Trimmed(ss[0].body);
    if |ss| > 1 {
      assert AllTrimmed(ss[1..]) by {
        assert forall i :: 1 <= i < |ss| ==> ss[i] == ss[1..][i - 1];
      }
      GlueStarts(ss[1..], gap);
      assert Rest(ss[1..], gap) == gap + Glue(ss[1..], gap);
      assert t == (lead + ss[0].body + sep) + Glue(ss[1..], gap);
    } else {
      assert ss[1..] == [];
      assert t == lead + ss[0].body;
    }
  }

  /** Every legible list of sections is read back as it was written ... */
  lemma {:induction false} LegibleRoundTrips(lead: Text, ss: seq<Section>, gap: Text)
    requires IsGap(lead) && IsGap(gap) && AllTrimmed(ss) && Legible(ss)
    requires lead == [] ==> StartsPart(ss)
    ensures ParseLines(lead + Glue(ss, gap)) == ss
    decreases |ss|, |lead|
  {
    hide *;
    GapCases(lead);
    GapCases([]);
    if ss == [] {
      GlueNil(lead, gap);
      return;
    }
    var t := lead + Glue(ss, gap);
    LegibleUncons(ss);
    TailText(lead, ss, gap);
    var b := ss[0].body;
    if lead == [""] && CutsBefore(b[0], |t| == 2) {
      StartsPartIs(ss);
      ParseSkip(t);
      assert t[1..] == [] + Glue(ss, gap);
      LegibleRoundTrips([], ss, gap);
    } else {
      FirstOfLegible(lead, ss, gap);
      StartsPartIs(ss[1..]);
      LegibleRoundTrips([], ss[1..], gap);
      assert [] + Glue(ss[1..], gap) == Glue(ss[1..], gap);
      assert ss == [ss[0]] + ss[1..];
    }
  }

  lemma FirstOfLegible(lead: Text, ss: seq<Section>, gap: Text)
    requires IsGap(lead) && IsGap(gap) && AllTrimmed(ss) && Legible(ss) && ss != []
    requires ss[0].body != []
    requires lead == [""] ==> !CutsBefore(ss[0].body[0], |lead + Glue(ss, gap)| == 2)
    ensures ParseLines(lead + Glue(ss, gap)) == [ss[0]] + ParseLines(Glue(ss[1..], gap))
  {
    hide *;
    var t, b := lead + Glue(ss, gap), ss[0].body;
    GapCases(lead);
    LegibleUncons(ss);
    TailText(lead, ss, gap);
    SepIsGap(ss, gap);
    StartsPartIs(ss[1..]);
    var sep := if |ss| == 1 then [] else gap;
    OnePart(t, lead, ss[0], sep, |lead| + |b| + |sep|);
  }

  lemma OnePart(t: Text, lead: Text, s: Section, sep: Text, k: nat)
    requires IsGap(lead) && IsGap(sep) && Trimmed(s.body) && |s.body| >= 1
    requires |lead| + |s.body| + |sep| == k <= |t| && t[..k] == lead + s.body + sep
    requires k == |t| ==> sep == []
    requires lead == [""] ==> !CutsBefore(s.body[0], |t| == 2)
    requires Unbroken(s.body, k == |t|) && s.key == KeyOfLine(s.body[0])
    requires k < |t| ==> CutsBefore(t[k], k == |t| - 1)
    ensures ParseLines(t) == [s] + ParseLines(t[k..])
  {
    hide *;
    GapCases(lead);
    var b := s.body;
    CutAfterBody(t, lead, b, sep, k);
    ParseFirst(t, lead, b, sep, k);
    FirstLineAfterLead(t, lead, b, sep, k);
    FirstCutAfterLead(t, lead, b[0]);
  }

  lemma FirstLineAfterLead(t: Text, lead: Text, b: Text, sep: Text, k: nat)
    requires IsGap(lead) && |b| >= 1
    requires |lead| + |b| + |sep| == k <= |t| && t[..k] == lead + b + sep
    ensures t[|lead|] == b[0]
    ensures lead == [""] ==> t[0] == ""
    ensures lead == [] || lead == [""]
  {
  }

  lemma GapCases(gap: Text)
    ensures IsGap(gap) <==> gap == [] || gap == [""]
  {}

  lemma SepIsGap(ss: seq<Section>, gap: Text)
    requires IsGap(gap)
    ensures IsGap(if |ss| == 1 then [] else gap)
  {}

  lemma StartsPartIs(ss: seq<Section>)
    requires AllTrimmed(ss)
    ensures ss == [] ==> StartsPart(ss) && Legible(ss)
    ensures ss != [] ==>
              && Trimmed(ss[0].body) && |ss[0].body| >= 1
              && !Blank(ss[0].body[0])
              && (StartsPart(ss) <==> CutsBefore(ss[0].body[0], |ss| == 1 && |ss[0].body| == 1))
  {
  }

  lemma GlueNil(lead: Text, gap: Text)
    requires IsGap(lead)
    ensures ParseLines(lead + Glue([], gap)) == []
  {
  }

  /** ... and nothing else is. */
  lemma {:induction false} OnlyLegibleRoundTrips(lead: Text, ss: seq<Section>, gap: Text)
    requires IsGap(lead) && IsGap(gap) && AllTrimmed(ss)
    requires ParseLines(lead + Glue(ss, gap)) == ss
    ensures Legible(ss)
    decreases |ss|, |lead|
  {
    hide *;
    GapCases(lead);
    GapCases([]);
    StartsPartIs(ss);
    if ss == [] { return; }
    var t := lead + Glue(ss, gap);
    LegibleUncons(ss);
    TailText(lead, ss, gap);
    var b := ss[0].body;
    if lead == [""] && CutsBefore(b[0], |t| == 2) {
      ParseSkip(t);
      assert t[1..] == [] + Glue(ss, gap);
      OnlyLegibleRoundTrips([], ss, gap);
    } else {
      var sep := if |ss| == 1 then [] else gap;
      var k := |lead| + |b| + |sep|;
      SepIsGap(ss, gap);
      StartsPartIs(ss[1..]);
      FirstPartIsFirstSection(t, lead, ss, sep, k);
      assert t[k..] == [] + Glue(ss[1..], gap);
      OnlyLegibleRoundTrips([], ss[1..], gap);
      UnbrokenFromText(t, lead, b, sep, k);
    }
  }

  lemma UnbrokenFromText(t: Text, lead: Text, b: Text, sep: Text, k: nat)
    requires |lead| + |b| + |sep| == k <= |t| && t[..k] == lead + b + sep
    requires k == |t| ==> sep == []
    requires 1 <= |t| && NextCut(t, 1) == k
    ensures Unbroken(b, k == |t|)
  {
    forall j | 1 <= j < |b|
      ensures !CutsBefore(b[j], k == |t| && j == |b| - 1)
    {
      var i := |lead| + j;
      assert t[i] == (lead + b + sep)[i] == b[j];
      assert i < NextCut(t, 1);
    }
  }

  /** When the parse gives the sections back, the first part ends exactly where the first
      body (and its gap) ends. */
  lemma FirstPartIsFirstSection(t: Text, lead: Text, ss: seq<Section>, sep: Text, k: nat)
    requires IsGap(lead) && IsGap(sep) && |ss| >= 1 && Trimmed(ss[0].body)
    requires |lead| + |ss[0].body| + |sep| == k <= |t| && t[..k] == lead + ss[0].body + sep
    requires k < |t| ==> !Blank(t[k])
    requires lead == [""] ==> !CutsBefore(ss[0].body[0], |t| == 2)
    requires ParseLines(t) == ss
    ensures NextCut(t, 1) == k
    ensures ss[0].key == KeyOfLine(ss[0].body[0])
    ensures ParseLines(t[k..]) == ss[1..]
  {
    hide *;
    var b := ss[0].body;
    TrimmedInk(b, lead);
    var c := NextCut(t, 1);
    FirstLineAfterLead(t, lead, b, sep, k);
    FirstCutAfterLead(t, lead, b[0]);
    assert t[..c][..|lead|] == lead by { assert t[..c][..|lead|] == t[..k][..|lead|]; }
    PartSection(t, c, |lead|);
    assert TrimText(t[..c]) == b;
    PartLength(t, lead, b, sep, c, k);
  }

  lemma FirstCutAfterLead(t: Text, lead: Text, first: string)
    requires IsGap(lead) && |lead| < |t| && t[|lead|] == first
    requires lead == [""] ==> t[0] == "" && !CutsBefore(first, |t| == 2)
    ensures NextCut(t, 1) > |lead|
    ensures KeyOfLine(t[0]) == KeyOfLine(first)
  {
  }

  lemma PartLength(t: Text, lead: Text, b: Text, sep: Text, c: nat, k: nat)
    requires IsGap(lead) && IsGap(sep) && |b| >= 1 && !Blank(b[0]) && AllBlank(lead)
    requires |lead| + |b| + |sep| == k <= |t| && t[..k] == lead + b + sep
    requires k < |t| ==> !Blank(t[k])
    requires |lead| < c == NextCut(t, 1) && TrimText(t[..c]) == b
    ensures c == k
  {
    hide *;
    var part := t[..c];
    FirstLineAfterLead(t, lead, b, sep, k);
    LeadOfPart(t, lead, b, sep, c, k);
    if c < |lead| + |b| {
      FewerLines(part, |lead|);
    } else if k < c {
      MoreLines(part, |lead|, k);
    } else {
      CutIsNoGap(t, c);
      SepCases(t, lead, b, sep, k);
    }
  }

  lemma LeadOfPart(t: Text, lead: Text, b: Text, sep: Text, c: nat, k: nat)
    requires |lead| < c <= |t| && |lead| <= k <= |t| && t[..k] == lead + b + sep
    ensures t[..c][..|lead|] == lead && t[..c][|lead|] == t[|lead|] && |t[..c]| == c
    ensures k < c ==> t[..c][k] == t[k]
  {
    assert t[..c][..|lead|] == t[..k][..|lead|];
  }

  lemma CutIsNoGap(t: Text, c: nat)
    requires |t| >= 1 && c == NextCut(t, 1)
    ensures c < |t| ==> t[c] != ""
  {}

  lemma SepCases(t: Text, lead: Text, b: Text, sep: Text, k: nat)
    requires IsGap(sep) && |lead| + |b| + |sep| == k <= |t| && t[..k] == lead + b + sep
    ensures |sep| == 0 || (|sep| == 1 && t[k - 1] == "")
  {
  }

  lemma TrimmedInk(b: Text, lead: Text)
    requires Trimmed(b) && IsGap(lead)
    ensures |b| >= 1 && !Blank(b[0]) && AllBlank(lead)
  {}

  lemma PartSection(t: Text, c: nat, i: nat)
    requires t != [] && c == NextCut(t, 1) && i < c && !Blank(t[i])
    ensures ParseLines(t) == [Section(KeyOfLine(t[0]), TrimText(t[..c]))] + ParseLines(t[c..])
  {
    assert !Blank(t[..c][i]);
    TrimShape(t[..c]);
  }

  lemma FewerLines(t: Text, first: nat)
    requires first < |t| && AllBlank(t[..first]) && !Blank(t[first])
    ensures |TrimText(t)| <= |t| - first
  {
    MoreLinesExact(t, first);
  }

  lemma MoreLines(t: Text, first: nat, later: nat)
    requires first < later < |t| && AllBlank(t[..first]) && !Blank(t[first]) && !Blank(t[later])
    ensures |TrimText(t)| >= later + 1 - first
  {
    MoreLinesExact(t, first);
  }

  lemma MoreLinesExact(t: Text, first: nat)
    requires first < |t| && AllBlank(t[..first]) && !Blank(t[first])
    ensures |TrimText(t)| == LastInked(t) + 1 - first
  {
    TrimSpan(t, first, LastInked(t));
  }

  /** The last line that is not blank. */
  function LastInked(t: Text): (k: nat)
    requires !AllBlank(t)
    ensures k < |t| && !Blank(t[k]) && AllBlank(t[k + 1..])
    ensures forall j :: 0 <= j < |t| && !Blank(t[j]) ==> j <= k
  {
    var n := |t| - 1;
    if !Blank(t[n]) then n
    else
      assert !AllBlank(t[..n]) by {
        if AllBlank(t[..n]) {
          assert forall i :: 0 <= i < n ==> t[i] == t[..n][i];
        }
      }
      var k := LastInked(t[..n]);
      assert forall j :: 0 <= j < n ==> t[j] == t[..n][j];
      k
  }

  /** Exactly the legible lists survive a checkpoint: printing and parsing undo each other
      if and only if no body is broken by a stray `##` line or filed under another name. */
  lemma CheckpointRoundTrip(ss: seq<Section>)
    requires AllTrimmed(ss)
    ensures IsCheckpointText(Print(ss))
    ensures ParseCheckpoint(Print(ss)) == ss <==> Legible(ss)
  {
    PrefixedText(Glue(ss, [""]));
    if Legible(ss) {
      LegibleRoundTrips([""], ss, [""]);
    }
    if ParseCheckpoint(Print(ss)) == ss {
      OnlyLegibleRoundTrips([""], ss, [""]);
    }
  }

  lemma PrefixedText(t: Text)
    ensures IsCheckpointText([PREFIX] + t)
    ensures AfterPrefix([PREFIX] + t) == [""] + t
  {
    var c := [PREFIX] + t;
    assert PREFIX[0] == '[';
    assert c[0] == PREFIX && !Blank(c[0]) by { assert !IsSpace(PREFIX[0]); }
    assert TrimTextStart(c) == [TrimStart(c[0])] + c[1..];
    assert TrimStart(PREFIX) == PREFIX;
    assert PREFIX[|PREFIX|..] == "";
    assert c[1..] == t;
  }

  // ------------------------------------------------------- sections that always survive

  /** A section that survives next to any others: nothing in it can be taken for a cut. */
  predicate Robust(s: Section) {
    && Trimmed(s.body)
    && s.key == KeyOfLine(s.body[0])
    && (forall k :: 1 <= k < |s.body| ==> !CutsBefore(s.body[k], false))
  }

  predicate AllRobust(ss: seq<Section>) { forall i :: 0 <= i < |ss| ==> Robust(ss[i]) }

  predicate PreambleOnlyFirst(ss: seq<Section>) {
    forall i :: 1 <= i < |ss| ==> ss[i].key.Named?
  }

  lemma RobustIsLegible(ss: seq<Section>)
    requires AllRobust(ss) && PreambleOnlyFirst(ss)
    ensures AllTrimmed(ss) && Legible(ss)
  {
  }

  /** Splitting and parsing only ever produce trimmed bodies. */
  lemma {:induction false} SplitTrimmed(t: Text)
    ensures AllTrimmed(SplitSections(t))
    decreases |t|
  {
    if t != [] {
      var k := NextHeading(t, 1);
      TrimShape(t[..k]);
      SplitTrimmed(t[k..]);
    }
  }

  lemma {:induction false} ParseTrimmed(t: Text)
    ensures AllTrimmed(ParseLines(t))
    decreases |t|
  {
    if t != [] {
      var k := NextCut(t, 1);
      TrimShape(t[..k]);
      ParseTrimmed(t[k..]);
    }
  }

  /** Only the text before the first heading is preamble. */
  lemma {:induction false} SplitPreambleFirst(t: Text)
    ensures PreambleOnlyFirst(SplitSections(t))
    ensures t != [] && HeadingName(t[0]).Some? ==>
              forall i :: 0 <= i < |SplitSections(t)| ==> SplitSections(t)[i].key.Named?
    decreases |t|
  {
    if t != [] {
      var k := NextHeading(t, 1);
      SplitPreambleFirst(t[k..]);
    }
  }

  lemma PlainHeading()
    ensures HeadingName("## A") == Some("A")
  {
  }

  /** A text without a second heading is one section. */
  lemma OneSection(blob: Text)
    requires Trimmed(blob)
    requires forall j :: 1 <= j < |blob| ==> HeadingName(blob[j]).None?
    ensures SplitSections(blob) == [Section(KeyOfLine(blob[0]), blob)]
  {
    hide HeadingName, TrimText;
    NextHeadingIs(blob, 1, |blob|);
    TrimRemovesPadding([], blob, []);
    assert [] + blob + [] == blob && blob[..|blob|] == blob && blob[|blob|..] == [];
    assert blob != EMPTY;
  }

  /** A stray `##` line inside a section is plain text to the writer and a cut to the reader:
      the section comes back without its second half. */
  lemma StrayHashesBreakTheRoundTrip()
    ensures var blob := ["## A", "x", "##", "y"];
            var ss := SplitSections(blob);
            ss == [Section(Named("A"), blob)] && !Legible(ss)
            && IsCheckpointText(Print(ss)) && ParseCheckpoint(Print(ss)) != ss
  {
    hide HeadingName, TrimText, SplitSections, ParseCheckpoint, Print, TrimTextStart;
    var blob := ["## A", "x", "##", "y"];
    var ss := [Section(Named("A"), blob)];
    PlainHeading();
    assert Trimmed(blob);
    assert forall j :: 1 <= j < |blob| ==> !TwoHashesAndSpace(blob[j]);
    OneSection(blob);
    assert !Unbroken(blob, true) by { assert CutsBefore(blob[2], true && 2 == |blob| - 1); }
    assert !Legible(ss) by { assert ss[0].body == blob; }
    CheckpointRoundTrip(ss);
  }
}
