/** The texts as the strings they stand for: what trimming, cutting, printing, merging and the tail
    are, character by character. */
module AsStrings {
  import opened Prelude
  import opened Texts
  import opened Sections
  import opened Checkpoints
  import opened Sanitizer
  import Pipeline
  import ReplayKeeps
  import opened VolatileTail

  /** The string a text stands for. */
  function Str(t: Text): string { Joined(t, "\n") }

  /** The texts of these strings' lines, and the lines of this string. */
  function Strs(ts: seq<Text>): seq<string> { if ts == [] then [] else [Str(ts[0])] + Strs(ts[1..]) }

  lemma StrCons(line: string, t: Text)
    requires t != []
    ensures Str([line] + t) == line + "\n" + Str(t)
  {
    assert ([line] + t)[1..] == t;
  }

  lemma {:induction false} StrConcat(a: Text, b: Text)
    requires a != [] && b != []
    ensures Str(a + b) == Str(a) + "\n" + Str(b)
  {
    if |a| == 1 {
      StrCons(a[0], b);
      assert a == [a[0]];
    } else {
      StrConcat(a[1..], b);
      assert a + b == [a[0]] + (a[1..] + b) && a == [a[0]] + a[1..];
      StrCons(a[0], a[1..] + b);
      StrCons(a[0], a[1..]);
    }
  }

  lemma {:induction false} LengthIs(t: Text)
    ensures TextLen(t) == |Str(t)|
  {
    if |t| > 1 { LengthIs(t[1..]); }
  }

  // ---------------------------------------------------------------------------------- trimming

  predicate White(s: string) { forall i :: 0 <= i < |s| ==> IsSpace(s[i]) || s[i] == '\n' }

  predicate WhiteChar(c: char) { IsSpace(c) || c == '\n' }

  /** No line holds a line feed. */
  predicate Lines(t: Text) { forall i :: 0 <= i < |t| ==> '\n' !in t[i] }

  lemma WhiteConcat(a: string, b: string)
    requires White(a) && White(b)
    ensures White(a + b)
  {
    hide IsSpace;
  }

  lemma BlankIsWhite(s: string)
    requires Blank(s)
    ensures White(s)
  {
    hide IsSpace;
  }

  lemma {:induction false} LineStart(s: string) returns (a: string)
    ensures s == a + TrimStart(s) && Blank(a)
  {
    hide IsSpace;
    if s != "" && IsSpace(s[0]) {
      var b := LineStart(s[1..]);
      a := [s[0]] + b;
    } else {
      a := "";
    }
  }

  lemma {:induction false} LineEnd(s: string) returns (b: string)
    ensures s == TrimEnd(s) + b && Blank(b)
  {
    hide IsSpace;
    if s != "" && IsSpace(s[|s| - 1]) {
      var c := LineEnd(s[..|s| - 1]);
      b := c + [s[|s| - 1]];
    } else {
      b := "";
    }
  }

  lemma {:induction false} StartTrimmed(t: Text) returns (a: string)
    ensures White(a) && Str(t) == a + Str(TrimTextStart(t))
  {
    hide IsSpace, Blank, White, TrimStart;
    BlankIsWhite("") by { NothingIsBlank(); }
    if t == [] {
      a := "";
    } else if Blank(t[0]) {
      BlankIsWhite(t[0]);
      var b := StartTrimmed(t[1..]);
      if |t| == 1 {
        assert t[1..] == [];
        a := t[0];
      } else {
        WhiteLineFeed();
        WhiteConcat(t[0], "\n");
        WhiteConcat(t[0] + "\n", b);
        a := t[0] + "\n" + b;
      }
    } else {
      a := LineStart(t[0]);
      BlankIsWhite(a);
      assert t == [t[0]] + t[1..];
      if |t| > 1 {
        StrCons(t[0], t[1..]);
        StrCons(TrimStart(t[0]), t[1..]);
      }
    }
  }

  lemma NothingIsBlank()
    ensures Blank("")
  {}

  lemma WhiteLineFeed()
    ensures White("\n")
  {}

  lemma {:induction false} EndTrimmed(t: Text) returns (b: string)
    ensures White(b) && Str(t) == Str(TrimTextEnd(t)) + b
  {
    hide IsSpace, Blank, White, TrimEnd;
    BlankIsWhite("") by { NothingIsBlank(); }
    if t == [] {
      b := "";
    } else {
      var front, last := t[..|t| - 1], t[|t| - 1];
      assert t == front + [last];
      if front != [] { StrConcat(front, [last]); }
      if Blank(last) {
        BlankIsWhite(last);
        var c := EndTrimmed(front);
        if front == [] {
          b := last;
        } else {
          WhiteLineFeed();
          WhiteConcat(c, "\n");
          WhiteConcat(c + "\n", last);
          b := c + "\n" + last;
        }
      } else {
        b := LineEnd(last);
        BlankIsWhite(b);
        if front != [] { StrConcat(front, [TrimEnd(last)]); }
      }
    }
  }

  lemma FirstChar(t: Text)
    requires t != [] && t[0] != ""
    ensures Str(t) != "" && Str(t)[0] == t[0][0]
  {
    if |t| > 1 {
      assert t == [t[0]] + t[1..];
      StrCons(t[0], t[1..]);
    }
  }

  lemma LastChar(t: Text)
    requires t != [] && t[|t| - 1] != ""
    ensures var last := t[|t| - 1]; Str(t) != "" && Str(t)[|Str(t)| - 1] == last[|last| - 1]
  {
    if |t| > 1 {
      assert t == t[..|t| - 1] + [t[|t| - 1]];
      StrConcat(t[..|t| - 1], [t[|t| - 1]]);
    }
  }

  /** Trimming takes the white space off both ends of the string, and nothing else. */
  lemma TrimmingMeans(t: Text)
    requires Lines(t)
    ensures var r := Str(TrimText(t));
            && (exists a, b :: White(a) && White(b) && Str(t) == a + r + b)
            && (r != "" ==> !WhiteChar(r[0]) && !WhiteChar(r[|r| - 1]))
    ensures var r := Str(TrimTextStart(t));
            && (exists a :: White(a) && Str(t) == a + r)
            && (r != "" ==> !WhiteChar(r[0]))
  {
    hide IsSpace, White, TrimTextStart, TrimTextEnd, Str, Blank, AllBlank;
    var u := TrimTextStart(t);
    var a := StartTrimmed(t);
    var b := EndTrimmed(u);
    assert Str(t) == a + Str(TrimText(t)) + b;
    StrOfNothing();
    TrimStartKeepsEnd(t);
    TrimShape(t);
    if !AllBlank(t) {
      LinesStay(t);
      FirstChar(u);
      var r := TrimText(t);
      FirstChar(r);
      LastChar(r);
      NoFeeds(t);
    }
  }

  lemma StrOfNothing()
    ensures Str(EMPTY) == ""
  {}

  /** What begins or ends a trimmed text is a character of one of its lines. */
  lemma NoFeeds(t: Text)
    requires Lines(t) && !AllBlank(t)
    ensures TrimTextStart(t)[0] != "" && TrimTextStart(t)[0][0] != '\n'
    ensures var r := TrimText(t);
            && r[0] != "" && r[0][0] != '\n'
            && r[|r| - 1] != "" && r[|r| - 1][|r[|r| - 1]| - 1] != '\n'
  {
    hide IsSpace, Blank;
    LinesStay(t);
    TrimShape(t);
    TrimStartKeepsEnd(t);
    var u, r := TrimTextStart(t), TrimText(t);
    assert u[0][0] in u[0];
    assert r[0][0] in r[0] && r[|r| - 1][|r[|r| - 1]| - 1] in r[|r| - 1];
  }

  lemma {:induction false} StartLines(t: Text)
    requires Lines(t)
    ensures Lines(TrimTextStart(t))
  {
    hide IsSpace, Blank, TrimStart;
    if t != [] {
      if Blank(t[0]) {
        StartLines(t[1..]);
      } else {
        var a := LineStart(t[0]);
        assert forall c :: c in TrimStart(t[0]) ==> c in t[0];
      }
    }
  }

  lemma {:induction false} EndLines(t: Text)
    requires Lines(t)
    ensures Lines(TrimTextEnd(t))
  {
    hide IsSpace, Blank, TrimEnd;
    if t != [] {
      if Blank(t[|t| - 1]) {
        EndLines(t[..|t| - 1]);
      } else {
        var last := t[|t| - 1];
        var b := LineEnd(last);
        var kept := TrimEnd(last);
        assert forall c :: c in kept ==> c in last;
      }
    }
  }

  lemma LinesStay(t: Text)
    requires Lines(t)
    ensures Lines(TrimTextStart(t)) && Lines(TrimText(t))
  {
    StartLines(t);
    EndLines(TrimTextStart(t));
  }

  /** The string reads so, white space in front left out. */
  ghost predicate Begins(s: string, p: string) { exists a, b :: White(a) && s == a + p + b }

  lemma PrefixOfFirstLine(t: Text, p: string)
    requires t != [] && '\n' !in p
    ensures p <= Str(t) <==> p <= t[0]
  {
    if |t| > 1 {
      assert t == [t[0]] + t[1..];
      StrCons(t[0], t[1..]);
      var s := Str(t);
      assert s == t[0] + ("\n" + Str(t[1..]));
      if p <= s {
        NoFeedInside(t[0], Str(t[1..]), p);
        assert p == s[..|p|];
      }
      if p <= t[0] { assert p == s[..|p|]; }
    }
  }

  lemma NoFeedInside(line: string, rest: string, p: string)
    requires p <= line + ("\n" + rest) && '\n' !in p
    ensures |p| <= |line|
  {
    var s := line + ("\n" + rest);
    assert s[|line|] == '\n';
    assert forall i :: 0 <= i < |p| ==> s[i] == p[i] && p[i] in p;
  }

  lemma WhiteInFront(a: string, r: string, a': string, p: string, b: string)
    requires a + r == a' + p + b && White(a) && White(a') && p != "" && !WhiteChar(p[0])
    requires r != "" ==> !WhiteChar(r[0])
    ensures p <= r
  {
    hide IsSpace;
    var s := a + r;
    assert s[|a'|] == p[0];
    assert forall i :: 0 <= i < |a| ==> s[i] == a[i];
    assert forall i :: 0 <= i < |a'| ==> s[i] == a'[i];
    assert |a| <= |a'|;
    assert r != "" ==> s[|a|] == r[0];
    assert |a| == |a'|;
    assert r == s[|a|..] == p + b;
  }

  lemma StartMeans(t: Text, p: string)
    requires Lines(t) && p != "" && !WhiteChar(p[0]) && '\n' !in p
    ensures p <= TrimTextStart(t)[0] <==> Begins(Str(t), p)
  {
    hide IsSpace, White, Str, TrimTextStart;
    var u := TrimTextStart(t);
    TrimmingMeans(t);
    PrefixOfFirstLine(u, p);
    var a :| White(a) && Str(t) == a + Str(u);
    if p <= Str(u) {
      assert Str(u) == p + Str(u)[|p|..];
      assert Str(t) == a + p + Str(u)[|p|..];
    }
    if a', b :| White(a') && Str(t) == a' + p + b {
      WhiteInFront(a, Str(u), a', p, b);
    }
  }

  /** What a checkpoint is, and what the prompts are that come and go: a message of the user that begins
      so. */
  lemma KindsOfMessagesAre(m: Message)
    requires Lines(m.content)
    ensures IsCheckpoint(m) <==> m.role.User? && Begins(Str(m.content), "[SYSTEM] [State checkpoint]")
    ensures Pipeline.IsContinuation(m)
            <==> m.role.User? && Begins(Str(m.content), "[Continue from where you left off")
    ensures Pipeline.IsLoopWarning(m) <==> m.role.User? && Begins(Str(m.content), "[SYSTEM] Loop detected:")
  {
    hide IsSpace, Str, Begins, TrimTextStart, Pipeline.IsContinuation, Pipeline.IsLoopWarning;
    BracketsAreNoWhite();
    StartMeans(m.content, "[SYSTEM] [State checkpoint]");
    StartMeans(m.content, ReplayKeeps.CONTINUE);
    StartMeans(m.content, ReplayKeeps.LOOP);
    ReplayKeeps.TransientByStart(m);
  }

  lemma BracketsAreNoWhite()
    ensures !WhiteChar('[')
    ensures '\n' !in "[SYSTEM] [State checkpoint]" && '\n' !in ReplayKeeps.CONTINUE && '\n' !in ReplayKeeps.LOOP
  {}

  // ------------------------------------------------------------------------------------- cutting

  /** A checkpoint is cut in front of a line exactly where two hashes and white space, be it the line
      feed, follow. */
  lemma CutMeans(t: Text, j: nat)
    requires Lines(t) && j < |t|
    ensures var s := Str(t[j..]);
            CutsBefore(t[j], j == |t| - 1) <==> |s| >= 3 && s[..2] == "##" && WhiteChar(s[2])
  {
    hide IsSpace;
    var line, s := t[j], Str(t[j..]);
    assert t[j..] == [line] + t[j + 1..];
    if j < |t| - 1 {
      StrCons(line, t[j + 1..]);
      assert s == line + ("\n" + Str(t[j + 1..]));
    } else {
      assert t[j + 1..] == [] && s == line;
    }
    if |line| >= 3 {
      assert s[..2] == line[..2] && s[2] == line[2];
      assert line[2] in line;
    } else if |s| >= 3 {
      assert |line| == 2 ==> s[2] == '\n' && s[..2] == line;
      assert |line| < 2 ==> s[|line|] == '\n' && s[..2][|line|] == '\n';
    }
  }

  // --------------------------------------------------------------------------------------- printing

  function Bodies(ss: seq<Section>): seq<Text> { if ss == [] then [] else [ss[0].body] + Bodies(ss[1..]) }

  ghost predicate HaveLines(ss: seq<Section>) { forall i :: 0 <= i < |ss| ==> ss[i].body != [] }

  lemma {:induction false} GlueIs(ss: seq<Section>, gap: Text)
    requires ss != [] && HaveLines(ss) && (gap == [] || gap == [""])
    ensures Glue(ss, gap) != []
    ensures Str(Glue(ss, gap)) == Joined(Strs(Bodies(ss)), if gap == [] then "\n" else "\n\n")
  {
    hide Str;
    var rest := ss[1..];
    if rest == [] {
      assert Strs(Bodies(ss)) == [Str(ss[0].body)];
      assert Glue(ss, gap) == ss[0].body + [] == ss[0].body;
    } else {
      GlueIs(rest, gap);
      assert Strs(Bodies(rest)) != [];
      assert Strs(Bodies(ss)) == [Str(ss[0].body)] + Strs(Bodies(rest));
      var g := Glue(rest, gap);
      assert Glue(ss, gap) == ss[0].body + (gap + g);
      if gap == [] {
        assert gap + g == g;
      } else {
        StrCons("", g);
      }
      StrConcat(ss[0].body, gap + g);
    }
  }

  /** A checkpoint is the marker, a line feed, and the bodies with an empty line between them. */
  lemma PrintingMeans(ss: seq<Section>)
    requires ss != [] && HaveLines(ss)
    ensures Str(Print(ss)) == "[SYSTEM] [State checkpoint]" + "\n" + Joined(Strs(Bodies(ss)), "\n\n")
  {
    hide Str;
    GlueIs(ss, [""]);
    StrCons(PREFIX, Glue(ss, [""]));
  }

  /** The bodies of a view in the order in which it lists them, the preamble in front. */
  function BodiesOf(v: View): seq<Text> {
    (if v.preamble == EMPTY then [] else [v.preamble]) + InOrder(v.order, v.bodies)
  }

  function InOrder(order: seq<string>, bodies: map<string, Text>): seq<Text> {
    if order == [] then []
    else (if order[0] in bodies then [bodies[order[0]]] else [EMPTY]) + InOrder(order[1..], bodies)
  }

  lemma {:induction false} BodiesConcat(a: seq<Section>, b: seq<Section>)
    ensures Bodies(a + b) == Bodies(a) + Bodies(b)
  {
    if a == [] {
      assert a + b == b;
    } else {
      assert (a + b)[1..] == a[1..] + b;
      BodiesConcat(a[1..], b);
    }
  }

  lemma {:induction false} InOrderConcat(a: seq<string>, b: seq<string>, bodies: map<string, Text>)
    ensures InOrder(a + b, bodies) == InOrder(a, bodies) + InOrder(b, bodies)
  {
    if a == [] {
      assert a + b == b;
    } else {
      assert (a + b)[1..] == a[1..] + b;
      InOrderConcat(a[1..], b, bodies);
    }
  }

  lemma {:induction false} NamedBodies(order: seq<string>, bodies: map<string, Text>)
    ensures Bodies(NamedListing(order, bodies)) == InOrder(order, bodies)
  {
    if order != [] {
      var front, n := order[..|order| - 1], order[|order| - 1];
      assert order == front + [n];
      NamedBodies(front, bodies);
      var s := Section(Named(n), if n in bodies then bodies[n] else EMPTY);
      BodiesConcat(NamedListing(front, bodies), [s]);
      InOrderConcat(front, [n], bodies);
      assert [s][1..] == [] && [n][1..] == [];
    }
  }

  /** A rewritten checkpoint is the marker, the preamble if there is one, and the newest bodies in the
      order of their names, a line each behind the other. */
  lemma RenderingMeans(v: View)
    requires WellFormed(v)
    ensures Str(Render(v)) == Joined(["[SYSTEM] [State checkpoint]"] + Strs(BodiesOf(v)), "\n")
  {
    hide Str, WellFormed, NamedListing;
    NamedBodies(v.order, v.bodies);
    BodiesConcat(if v.preamble == EMPTY then [] else [Section(Preamble, v.preamble)], NamedListing(v.order, v.bodies));
    assert [Section(Preamble, v.preamble)][1..] == [];
    assert Bodies(Listing(v)) == BodiesOf(v);
    var ls := Listing(v);
    ListingHasLines(v);
    if ls == [] {
      assert Glue(ls, []) == [] && [PREFIX] + [] == [PREFIX];
      StrOfOne(PREFIX);
    } else {
      GlueIs(ls, []);
      StrCons(PREFIX, Glue(ls, []));
      assert Strs(BodiesOf(v)) != [];
      assert (["[SYSTEM] [State checkpoint]"] + Strs(BodiesOf(v)))[1..] == Strs(BodiesOf(v));
    }
  }

  lemma StrOfOne(line: string)
    ensures Str([line]) == line
  {}

  lemma ListingHasLines(v: View)
    requires WellFormed(v)
    ensures HaveLines(Listing(v))
  {
    ListingTrimmed(v);
    forall i | 0 <= i < |Listing(v)|
      ensures Listing(v)[i].body != []
    {
      assert Trimmed(Listing(v)[i].body);
    }
  }

  // ---------------------------------------------------------------------------- merging and the tail

  /** Two human messages are merged with an empty line between them. */
  lemma MergingMeans(prev: Message, m: Message)
    requires prev.content != [] && m.content != []
    ensures Str(Merged(prev, m).content) == Str(prev.content) + "\n\n" + Str(m.content)
    ensures Merged(prev, m).role == prev.role
  {
    hide Str;
    assert prev.content + [""] + m.content == prev.content + ([""] + m.content);
    StrCons("", m.content);
    StrConcat(prev.content, [""] + m.content);
  }

  lemma {:induction false} JoinedTexts(ts: seq<Text>)
    requires ts != [] && forall i :: 0 <= i < |ts| ==> ts[i] != []
    ensures JoinTexts(ts) != [] && Str(JoinTexts(ts)) == Joined(Strs(ts), "\n\n")
  {
    hide Str;
    if |ts| == 1 {
      assert Strs(ts) == [Str(ts[0])];
    } else {
      JoinedTexts(ts[1..]);
      var rest := JoinTexts(ts[1..]);
      assert ts[0] + [""] + rest == ts[0] + ([""] + rest);
      StrCons("", rest);
      StrConcat(ts[0], [""] + rest);
      assert Strs(ts)[1..] == Strs(ts[1..]) && |Strs(ts)| > 1;
    }
  }

  lemma NamesJoined(ks: seq<Key>)
    ensures JoinNames(ks) == Joined(NamesOf(ks), ", ")
  {
    if |ks| > 1 {
      NamesJoined(ks[1..]);
      assert NamesOf(ks)[1..] == NamesOf(ks[1..]);
    } else if |ks| == 1 {
      assert NamesOf(ks[1..]) == [];
    }
  }

  /** The names by which sections go, the nameless one's too. */
  function NamesOf(ks: seq<Key>): (r: seq<string>)
    ensures |r| == |ks|
  {
    if ks == [] then []
    else [match ks[0] case Preamble => "_preamble" case Named(n) => n] + NamesOf(ks[1..])
  }

  /** The tail is its marker and, with an empty line between them, the hint, the sections that are sent,
      and the line that names those that are left out; there is none if there is none of these. */
  lemma TailMeans(hint: Option<Text>, g: Gate)
    requires (hint.Some? ==> hint.value != []) && HaveLines(g.sent)
    ensures var bits := (if hint.Some? then [Str(hint.value)] else [])
                        + (if g.sent == [] then [] else [Joined(Strs(Bodies(g.sent)), "\n\n")])
                        + (if g.omitted == [] then []
                           else [DIGEST_START + Joined(NamesOf(g.omitted), ", ") + DIGEST_END]);
            && (Tail(hint, g).Some? <==> bits != [])
            && (bits != [] ==>
                  && Tail(hint, g).value.role.User?
                  && Str(Tail(hint, g).value.content) == "[SYSTEM] [Live context]" + "\n" + Joined(bits, "\n\n"))
  {
    hide Str, JoinNames, JoinTexts, Glue;
    var bits := TailBits(hint, g);
    if g.sent != [] { GlueIs(g.sent, [""]); }
    NamesJoined(g.omitted);
    StrOfOne(Digest(g.omitted)[0]);
    StrsOf(if hint.Some? then [hint.value] else [], if g.sent == [] then [] else [Glue(g.sent, [""])],
           if g.omitted == [] then [] else [Digest(g.omitted)]);
    if bits != [] {
      JoinedTexts(bits);
      StrCons(LIVE, JoinTexts(bits));
    }
  }

  lemma StrsOf(a: seq<Text>, b: seq<Text>, c: seq<Text>)
    requires |a| <= 1 && |b| <= 1 && |c| <= 1
    ensures Strs(a + b + c)
            == (if a == [] then [] else [Str(a[0])]) + (if b == [] then [] else [Str(b[0])])
               + (if c == [] then [] else [Str(c[0])])
  {
    hide Str;
    var t := a + b + c;
    assert a == [] ==> t == b + c;
    assert b == [] ==> t == a + c;
    assert |t| > 0 ==> Strs(t) == [Str(t[0])] + Strs(t[1..]);
    assert |t| > 1 ==> Strs(t[1..]) == [Str(t[1])] + Strs(t[2..]) by { assert |t| > 1 ==> t[1..][1..] == t[2..]; }
    assert |t| > 2 ==> Strs(t[2..]) == [Str(t[2])] by { assert |t| > 2 ==> t[2..] == [t[2]]; }
  }
}
