/** The heading of a line against the regular expression it is read with. */
module Headings {
  import opened Prelude
  import opened Texts
  import opened Sections
  import AsStrings

  /** One way in which `^##\s+(.+?)\s*$` matches: blanks, at least one; the name, of characters that a
      dot matches; and blanks again. */
  ghost predicate Matches(line: string, a: string, n: string, b: string) {
    && line == "##" + a + n + b
    && a != "" && n != ""
    && (forall i :: 0 <= i < |a| ==> IsSpace(a[i])) && (forall i :: 0 <= i < |b| ==> IsSpace(b[i]))
    && forall i :: 0 <= i < |n| ==> n[i] != '\r' && n[i] != '\U{2028}' && n[i] != '\U{2029}'
  }

  /** No other way to match has more blanks in front, or as many and a shorter name. */
  ghost predicate Preferred(line: string, a: string, n: string) {
    forall a', n', b' :: Matches(line, a', n', b') ==> |a'| < |a| || (|a'| == |a| && |n'| >= |n|)
  }

  lemma MatchAt(line: string, a: string, n: string, b: string)
    requires Matches(line, a, n, b)
    ensures |line| == 2 + |a| + |n| + |b| && line[0] == '#' && line[1] == '#' && IsSpace(line[2])
    ensures forall i :: 0 <= i < |a| ==> line[2 + i] == a[i]
    ensures forall i :: 0 <= i < |n| ==> line[2 + |a| + i] == n[i]
    ensures forall i :: 0 <= i < |b| ==> line[2 + |a| + |n| + i] == b[i]
    ensures TwoHashesAndSpace(line)
  {
    hide IsSpace;
    assert line[2] == a[0];
  }

  lemma {:induction false} LastDotIs(s: string)
    ensures LastDot(s) == "" ==> forall i :: 0 <= i < |s| ==> EndsLine(s[i])
    ensures LastDot(s) != "" ==>
              exists p :: 0 <= p < |s| && LastDot(s) == [s[p]] && !EndsLine(s[p])
                          && forall i :: p < i < |s| ==> EndsLine(s[i])
  {
    hide EndsLine;
    if s != "" {
      if EndsLine(s[|s| - 1]) {
        LastDotIs(s[..|s| - 1]);
      } else {
        assert LastDot(s) == [s[|s| - 1]];
      }
    }
  }

  lemma PrefixIsShort(s: string, p: string, rest: string, k: nat)
    requires s == p + rest && k < |s| && (forall i :: 0 <= i < |p| ==> IsSpace(p[i])) && !IsSpace(s[k])
    ensures |p| <= k
  {
    hide IsSpace;
  }

  lemma SuffixIsShort(s: string, front: string, p: string, k: nat)
    requires s == front + p && k < |s| && (forall i :: 0 <= i < |p| ==> IsSpace(p[i])) && !IsSpace(s[k])
    ensures k < |front|
  {
    hide IsSpace;
  }

  /** A name that neither starts nor ends with a blank is part of the name of every way to match. */
  lemma NameIsInside(line: string, a: string, n: string, b: string, a': string, n': string, b': string)
    requires line == "##" + a + n + b && n != "" && !IsSpace(n[0]) && !IsSpace(n[|n| - 1])
    requires Matches(line, a', n', b')
    ensures |a'| <= |a| && |a'| + |n'| >= |a| + |n| && Dots(n)
  {
    hide IsSpace;
    var t := line[2..];
    assert t == a + n + b && t == a' + (n' + b') && t == (a' + n') + b';
    assert t[|a|] == n[0] && t[|a| + |n| - 1] == n[|n| - 1];
    PrefixIsShort(t, a', n' + b', |a|);
    SuffixIsShort(t, a' + n', b', |a| + |n| - 1);
    forall i | 0 <= i < |n|
      ensures !EndsLine(n[i])
    {
      assert n[i] == t[|a| + i] == n'[|a| + i - |a'|];
    }
  }

  /** The name of a line that is not blank behind the hashes. */
  lemma InkedName(line: string)
    requires TwoHashesAndSpace(line) && TrimStart(line[2..]) != ""
    ensures var name := TrimEnd(TrimStart(line[2..]));
            && (Dots(name) ==> exists a, b :: Matches(line, a, name, b) && Preferred(line, a, name))
            && (!Dots(name) ==> forall a', n', b' :: !Matches(line, a', n', b'))
  {
    hide IsSpace, TrimStart, TrimEnd, Dots;
    var t := line[2..];
    var a := AsStrings.LineStart(t);
    var rest := TrimStart(t);
    var b := AsStrings.LineEnd(rest);
    var name := TrimEnd(rest);
    assert name != "" && !IsSpace(rest[0]) && !IsSpace(name[|name| - 1]) by { assert !Blank(rest); }
    assert line == "##" + a + name + b by { assert line[..2] == "##" && line == line[..2] + t; }
    assert a != "" by { assert t[0] == line[2]; }
    forall a', n', b' | Matches(line, a', n', b')
      ensures |a'| <= |a| && |a'| + |n'| >= |a| + |name|
      ensures Dots(name)
    {
      NameIsInside(line, a, name, b, a', n', b');
    }
    if Dots(name) { DotsAre(line, a, name, b); }
  }

  lemma DotsAre(line: string, a: string, n: string, b: string)
    requires line == "##" + a + n + b && a != "" && n != "" && Blank(a) && Blank(b) && Dots(n)
    ensures Matches(line, a, n, b)
  {
    hide IsSpace;
  }

  /** And of one that is. */
  lemma BlankName(line: string)
    requires TwoHashesAndSpace(line) && TrimStart(line[2..]) == ""
    ensures var name := LastDot(line[3..]);
            && (name != "" ==> exists a, b :: Matches(line, a, name, b) && Preferred(line, a, name))
            && (name == "" ==> forall a', n', b' :: !Matches(line, a', n', b'))
  {
    hide IsSpace, TrimStart, LastDot;
    var s, name := line[3..], LastDot(line[3..]);
    LastDotIs(s);
    assert Blank(line[2..]);
    assert forall i :: 2 <= i < |line| ==> line[i] == line[2..][i - 2];
    assert forall i :: 0 <= i < |s| ==> s[i] == line[3 + i];
    forall a', n', b' | Matches(line, a', n', b')
      ensures 1 <= |a'| <= |s| && !EndsLine(s[|a'| - 1])
    {
      MatchAt(line, a', n', b');
      assert s[|a'| - 1] == line[2 + |a'|] == n'[0];
    }
    if name != "" {
      var p :| 0 <= p < |s| && name == [s[p]] && !EndsLine(s[p]) && forall i :: p < i < |s| ==> EndsLine(s[i]);
      var a, b := line[2..3 + p], line[4 + p..];
      assert line == "##" + a + name + b by { assert line[..2] == "##"; }
      assert Matches(line, a, name, b);
      assert Preferred(line, a, name);
    }
  }

  /** The name of a line is what the regular expression captures: there is one exactly when it matches,
      and of all ways to match it is the one with the most blanks in front, and then the shortest. */
  lemma HeadingMeans(line: string)
    ensures HeadingName(line).None? <==> forall a, n, b :: !Matches(line, a, n, b)
    ensures HeadingName(line).Some? ==>
              exists a, b :: Matches(line, a, HeadingName(line).value, b)
                             && Preferred(line, a, HeadingName(line).value)
  {
    hide IsSpace, TrimStart, TrimEnd, LastDot, Matches;
    if !TwoHashesAndSpace(line) {
      forall a, n, b
        ensures !Matches(line, a, n, b)
      {
        if Matches(line, a, n, b) { MatchAt(line, a, n, b); }
      }
    } else if TrimStart(line[2..]) != "" {
      InkedName(line);
      assert TrimEnd(TrimStart(line[2..])) != "" by { assert !Blank(TrimStart(line[2..])); }
    } else {
      BlankName(line);
      OneDot(line[3..]);
    }
  }

  lemma {:induction false} OneDot(s: string)
    ensures Dots(LastDot(s))
  {
    LastDotIs(s);
  }
}
