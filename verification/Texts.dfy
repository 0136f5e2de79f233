/** Text as the engine reads it: a string is held as its lines, `s.split('\n')`.

    The empty string is `[""]`; joining two strings with a newline is concatenation of
    their line lists. A line holds no line feed, but may hold any other white space. */
module Texts {
  import opened Prelude

  type Text = seq<string>

  const EMPTY: Text := [""]

  predicate Blank(line: string) { forall i :: 0 <= i < |line| ==> IsSpace(line[i]) }

  predicate AllBlank(t: Text) { forall i :: 0 <= i < |t| ==> Blank(t[i]) }

  function TrimStart(s: string): (r: string)
    ensures Blank(s) <==> r == ""
    ensures r != "" ==> !IsSpace(r[0]) && r[|r| - 1] == s[|s| - 1]
    ensures s != "" && !IsSpace(s[0]) ==> r == s
  {
    if s != "" && IsSpace(s[0]) then
      assert Blank(s[1..]) ==> Blank(s) by {
        assert forall i :: 1 <= i < |s| ==> s[i] == s[1..][i - 1];
      }
      TrimStart(s[1..])
    else s
  }

  function TrimEnd(s: string): (r: string)
    ensures Blank(s) <==> r == ""
    ensures r != "" ==> !IsSpace(r[|r| - 1]) && r[0] == s[0]
    ensures r <= s
    ensures s != "" && !IsSpace(s[|s| - 1]) ==> r == s
  {
    if s != "" && IsSpace(s[|s| - 1]) then TrimEnd(s[..|s| - 1]) else s
  }

  /** `trimStart()` of a text. */
  function TrimTextStart(t: Text): (r: Text)
    ensures |r| >= 1
  {
    if t == [] then EMPTY
    else if Blank(t[0]) then TrimTextStart(t[1..])
    else [TrimStart(t[0])] + t[1..]
  }

  /** The trailing half of `trim()`. */
  function TrimTextEnd(t: Text): (r: Text)
    ensures |r| >= 1
  {
    if t == [] then EMPTY
    else if Blank(t[|t| - 1]) then TrimTextEnd(t[..|t| - 1])
    else t[..|t| - 1] + [TrimEnd(t[|t| - 1])]
  }

  /** `trim()` of a text. */
  function TrimText(t: Text): (r: Text)
    ensures |r| >= 1
  {
    TrimTextEnd(TrimTextStart(t))
  }

  /** Not blank, and `trim()` has nothing to remove. */
  predicate Trimmed(b: Text) {
    && |b| >= 1
    && b[0] != "" && !IsSpace(b[0][0])
    && b[|b| - 1] != "" && !IsSpace(b[|b| - 1][|b[|b| - 1]| - 1])
  }

  lemma BlankOfSum(s: string, t: string)
    ensures Blank(s + t) <==> Blank(s) && Blank(t)
  {
    hide IsSpace;
    if Blank(s + t) {
      assert forall i :: 0 <= i < |s| ==> s[i] == (s + t)[i];
      assert forall i :: 0 <= i < |t| ==> t[i] == (s + t)[|s| + i];
    }
  }

  lemma BlankOfOne(c: char)
    ensures (Blank([c]) <==> IsSpace(c)) && Blank("")
  {
    hide IsSpace;
    assert [c][0] == c;
  }

  lemma {:induction false} TrimEndOfSum(p: string, s: string)
    ensures TrimEnd(p + s) == if Blank(s) then TrimEnd(p) else p + TrimEnd(s)
  {
    hide IsSpace, Blank;
    if s == "" {
      BlankOfOne(' ');
      assert p + s == p;
    } else {
      var t, c := s[..|s| - 1], s[|s| - 1];
      assert (p + s)[..|p + s| - 1] == p + t && (p + s)[|p + s| - 1] == c;
      assert s == t + [c];
      BlankOfSum(t, [c]);
      BlankOfOne(c);
      if IsSpace(c) { TrimEndOfSum(p, t); }
    }
  }

  lemma {:induction false} TrimsCommute(s: string)
    requires !Blank(s)
    ensures TrimStart(TrimEnd(s)) == TrimEnd(TrimStart(s))
  {
    if IsSpace(s[0]) {
      var t := s[1..];
      assert s == [s[0]] + t;
      BlankOfSum([s[0]], t);
      TrimEndOfSum([s[0]], t);
      TrimsCommute(t);
      assert TrimEnd(s)[1..] == TrimEnd(t);
    }
  }

  /** Length of the string the lines stand for. */
  function TextLen(t: Text): nat {
    if t == [] then 0 else if |t| == 1 then |t[0]| else |t[0]| + 1 + TextLen(t[1..])
  }

  lemma {:induction false} TrimStartSkipsBlank(pad: Text, t: Text)
    requires AllBlank(pad)
    ensures TrimTextStart(pad + t) == TrimTextStart(t)
  {
    if pad == [] {
      assert pad + t == t;
    } else {
      assert (pad + t)[1..] == pad[1..] + t;
      TrimStartSkipsBlank(pad[1..], t);
    }
  }

  lemma {:induction false} TrimEndSkipsBlank(t: Text, pad: Text)
    requires AllBlank(pad)
    ensures TrimTextEnd(t + pad) == TrimTextEnd(t)
  {
    if pad == [] {
      assert t + pad == t;
    } else {
      assert (t + pad)[..|t + pad| - 1] == t + pad[..|pad| - 1];
      TrimEndSkipsBlank(t, pad[..|pad| - 1]);
    }
  }

  /** Blank lines around a trimmed text are exactly what `trim()` removes. */
  lemma TrimRemovesPadding(before: Text, b: Text, after: Text)
    requires AllBlank(before) && AllBlank(after) && Trimmed(b)
    ensures TrimText(before + b + after) == b
  {
    assert before + b + after == before + (b + after);
    TrimStartSkipsBlank(before, b + after);
    assert TrimTextStart(b + after) == b + after;
    TrimEndSkipsBlank(b, after);
    assert b[..|b| - 1] + [b[|b| - 1]] == b;
  }

  lemma {:induction false} TrimStartKeepsEnd(t: Text)
    ensures AllBlank(t) ==> TrimTextStart(t) == EMPTY
    ensures !AllBlank(t) ==>
              var r := TrimTextStart(t);
              r[0] != "" && !IsSpace(r[0][0]) && |r| <= |t|
              && (forall i :: 1 <= i <= |r| - 1 ==> r[i] == t[|t| - |r| + i])
              && AllBlank(t[..|t| - |r|]) && !Blank(t[|t| - |r|]) && r[0] == TrimStart(t[|t| - |r|])
  {
    hide Blank, IsSpace, AllBlank;
    NoLines();
    if t != [] {
      var u := t[1..];
      assert t == [t[0]] + u && t[..0] == [];
      AllBlankOfSum([t[0]], u);
      OneLine(t[0]);
      if Blank(t[0]) {
        TrimStartKeepsEnd(u);
        if !AllBlank(u) {
          var n := |u| - |TrimTextStart(u)|;
          assert t[..n + 1] == [t[0]] + u[..n];
          AllBlankOfSum([t[0]], u[..n]);
        }
      }
    }
  }

  lemma NoLines()
    ensures AllBlank([])
  {}

  lemma OneLine(line: string)
    ensures AllBlank([line]) <==> Blank(line)
  {
    hide Blank;
    assert [line][0] == line;
  }

  lemma AllBlankOfSum(a: Text, b: Text)
    ensures AllBlank(a + b) <==> AllBlank(a) && AllBlank(b)
  {
    hide Blank;
    if AllBlank(a + b) {
      assert forall i :: 0 <= i < |a| ==> a[i] == (a + b)[i];
      assert forall i :: 0 <= i < |b| ==> b[i] == (a + b)[|a| + i];
    }
  }

  lemma {:induction false} TrimEndKeepsStart(t: Text)
    ensures AllBlank(t) ==> TrimTextEnd(t) == EMPTY
    ensures !AllBlank(t) ==>
              var r := TrimTextEnd(t);
              r[|r| - 1] != "" && !IsSpace(r[|r| - 1][|r[|r| - 1]| - 1]) && |r| <= |t|
              && r[..|r| - 1] == t[..|r| - 1] && r[|r| - 1] <= t[|r| - 1]
              && AllBlank(t[|r|..]) && !Blank(t[|r| - 1])
  {
    hide Blank, IsSpace, AllBlank;
    NoLines();
    if t != [] {
      var u, last := t[..|t| - 1], t[|t| - 1];
      assert t == u + [last] && t[|t|..] == [];
      AllBlankOfSum(u, [last]);
      OneLine(last);
      if Blank(last) {
        TrimEndKeepsStart(u);
        if !AllBlank(u) {
          var n := |TrimTextEnd(u)|;
          assert t[n..] == u[n..] + [last];
          AllBlankOfSum(u[n..], [last]);
        }
      }
    }
  }

  lemma {:induction false} TrimOneLine(u: Text)
    requires u != [] && !Blank(u[0]) && |TrimTextEnd(u)| == 1
    ensures TrimTextEnd(u)[0] == TrimEnd(u[0])
  {
    if Blank(u[|u| - 1]) { TrimOneLine(u[..|u| - 1]); }
  }

  /** `trim()` gives a trimmed text, or the empty one when every line is blank. */
  lemma TrimShape(t: Text)
    ensures AllBlank(t) ==> TrimText(t) == EMPTY
    ensures !AllBlank(t) ==> Trimmed(TrimText(t)) && |TrimText(t)| <= |t|
  {
    TrimStartKeepsEnd(t);
    var u := TrimTextStart(t);
    if AllBlank(t) {
      assert TrimTextEnd([""][..0]) == EMPTY;
    } else {
      assert !AllBlank(u) by { assert !Blank(u[0]); }
      TrimEndKeepsStart(u);
      var r := TrimTextEnd(u);
      if |r| > 1 { assert r[0] == r[..|r| - 1][0] == u[..|r| - 1][0] == u[0]; }
    }
  }

  /** How many lines survive: everything from the first to the last line that is not blank. */
  lemma TrimSpan(t: Text, first: nat, last: nat)
    requires first <= last < |t|
    requires AllBlank(t[..first]) && !Blank(t[first]) && !Blank(t[last]) && AllBlank(t[last + 1..])
    ensures |TrimText(t)| == last + 1 - first
  {
    var mid := t[first..last + 1];
    assert t == t[..first] + (mid + t[last + 1..]);
    TrimStartSkipsBlank(t[..first], mid + t[last + 1..]);
    var m := [TrimStart(mid[0])] + mid[1..];
    assert TrimTextStart(t) == m + t[last + 1..];
    TrimEndSkipsBlank(m, t[last + 1..]);
    if |mid| == 1 {
      assert !Blank(m[0]) by { assert !IsSpace(m[0][0]); }
    }
  }

  /** The lines of `x` stand in `t`, together and in order. */
  predicate CarriesAt(t: Text, x: Text, i: nat) { i + |x| <= |t| && t[i..i + |x|] == x }

  ghost predicate Carries(t: Text, x: Text) { exists i: nat :: CarriesAt(t, x, i) }
}
