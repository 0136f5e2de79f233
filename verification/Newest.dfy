/** What a collapsed checkpoint says, from the sections that were read: the newest body of each, in the
    order in which the names came up, at the place of the last checkpoint. */
module Newest {
  import opened Texts
  import opened Sections
  import opened Checkpoints

  /** All sections of all checkpoints, oldest first. */
  function ReadAll(ms: seq<Message>): seq<Section> {
    if ms == [] then []
    else
      var front, m := ReadAll(ms[..|ms| - 1]), ms[|ms| - 1];
      if IsCheckpoint(m) then front + ParseCheckpoint(m.content) else front
  }

  lemma {:induction false} ViewOfAll(ms: seq<Message>)
    ensures NewestView(ms) == AbsorbAll(NOTHING, ReadAll(ms))
  {
    hide IsCheckpointText, ParseCheckpoint, Absorb;
    if ms != [] {
      var m := ms[|ms| - 1];
      ViewOfAll(ms[..|ms| - 1]);
      if IsCheckpoint(m) { AbsorbConcat(NOTHING, ReadAll(ms[..|ms| - 1]), ParseCheckpoint(m.content)); }
    }
  }

  /** The body stands under that key, and no later one does. */
  ghost predicate IsNewest(ss: seq<Section>, k: Key, b: Text) {
    exists i :: 0 <= i < |ss| && ss[i] == Section(k, b) && forall j :: i < j < |ss| ==> ss[j].key != k
  }

  ghost predicate ComesUp(ss: seq<Section>, k: Key) { exists i :: 0 <= i < |ss| && ss[i].key == k }

  /** One name comes up before the other does. */
  ghost predicate ComesUpBefore(ss: seq<Section>, m: string, n: string) {
    exists i :: 0 <= i < |ss| && ss[i].key == Named(m) && forall j :: 0 <= j <= i ==> ss[j].key != Named(n)
  }

  ghost predicate Says(v: View, ss: seq<Section>) {
    && (forall n :: n in v.bodies <==> ComesUp(ss, Named(n)))
    && (forall n :: n in v.bodies ==> IsNewest(ss, Named(n), v.bodies[n]))
    && (if ComesUp(ss, Preamble) then IsNewest(ss, Preamble, v.preamble) else v.preamble == EMPTY)
    && (forall n :: n in v.order <==> n in v.bodies)
    && forall a, b :: 0 <= a < b < |v.order| ==>
         v.order[a] != v.order[b] && ComesUpBefore(ss, v.order[a], v.order[b])
  }

  lemma NewestSnoc(ss: seq<Section>, s: Section, k: Key, b: Text)
    ensures k == s.key ==> IsNewest(ss + [s], k, s.body)
    ensures k != s.key && IsNewest(ss, k, b) ==> IsNewest(ss + [s], k, b)
    ensures ComesUp(ss + [s], k) <==> ComesUp(ss, k) || k == s.key
  {
    var t := ss + [s];
    assert t[|ss|] == s && forall i :: 0 <= i < |ss| ==> t[i] == ss[i];
    if k != s.key && IsNewest(ss, k, b) {
      var i :| 0 <= i < |ss| && ss[i] == Section(k, b) && forall j :: i < j < |ss| ==> ss[j].key != k;
      assert t[i] == Section(k, b);
    }
    if ComesUp(ss, k) {
      var i :| 0 <= i < |ss| && ss[i].key == k;
      assert t[i].key == k;
    }
  }

  lemma BeforeSnoc(ss: seq<Section>, s: Section, m: string, n: string)
    ensures ComesUpBefore(ss, m, n) ==> ComesUpBefore(ss + [s], m, n)
    ensures s.key == Named(n) && ComesUp(ss, Named(m)) && !ComesUp(ss, Named(n)) ==> ComesUpBefore(ss + [s], m, n)
  {
    var t := ss + [s];
    assert forall i :: 0 <= i < |ss| ==> t[i] == ss[i];
    if ComesUpBefore(ss, m, n) {
      var i :| 0 <= i < |ss| && ss[i].key == Named(m) && forall j :: 0 <= j <= i ==> ss[j].key != Named(n);
      assert t[i].key == Named(m);
    }
    if ComesUp(ss, Named(m)) && !ComesUp(ss, Named(n)) {
      var i :| 0 <= i < |ss| && ss[i].key == Named(m);
      assert t[i].key == Named(m);
    }
  }

  lemma {:induction false} AbsorbedSays(ss: seq<Section>)
    ensures Says(AbsorbAll(NOTHING, ss), ss)
  {
    hide IsNewest, ComesUp, ComesUpBefore;
    if ss == [] {
      NobodyNamed();
    } else {
      var front, s := ss[..|ss| - 1], ss[|ss| - 1];
      assert ss == front + [s];
      var v, w := AbsorbAll(NOTHING, front), AbsorbAll(NOTHING, ss);
      AbsorbedSays(front);
      NewestSnoc(front, s, s.key, s.body);
      forall k, b | k != s.key && IsNewest(front, k, b)
        ensures IsNewest(ss, k, b)
      {
        NewestSnoc(front, s, k, b);
      }
      forall k
        ensures ComesUp(ss, k) <==> ComesUp(front, k) || k == s.key
      {
        NewestSnoc(front, s, k, EMPTY);
      }
      forall m, n | ComesUpBefore(front, m, n)
        ensures ComesUpBefore(ss, m, n)
      {
        BeforeSnoc(front, s, m, n);
      }
      forall m, n | s.key == Named(n) && ComesUp(front, Named(m)) && !ComesUp(front, Named(n))
        ensures ComesUpBefore(ss, m, n)
      {
        BeforeSnoc(front, s, m, n);
      }
      AbsorbSays(v, w, front, ss, s);
    }
  }

  lemma NobodyNamed()
    ensures forall k :: !ComesUp([], k)
  {}

  lemma AbsorbSays(v: View, w: View, front: seq<Section>, ss: seq<Section>, s: Section)
    requires Says(v, front) && w == Absorb(v, s)
    requires IsNewest(ss, s.key, s.body)
    requires forall k, b :: k != s.key && IsNewest(front, k, b) ==> IsNewest(ss, k, b)
    requires forall k :: ComesUp(ss, k) <==> ComesUp(front, k) || k == s.key
    requires forall m, n :: ComesUpBefore(front, m, n) ==> ComesUpBefore(ss, m, n)
    requires forall m, n :: s.key == Named(n) && ComesUp(front, Named(m)) && !ComesUp(front, Named(n)) ==>
               ComesUpBefore(ss, m, n)
    ensures Says(w, ss)
  {
    hide IsNewest, ComesUp, ComesUpBefore;
    assert ComesUp(ss, s.key) && IsNewest(ss, s.key, s.body);
    match s.key
    case Preamble =>
    case Named(n) =>
      if n !in v.bodies {
        forall a, b | 0 <= a < b < |w.order|
          ensures w.order[a] != w.order[b] && ComesUpBefore(ss, w.order[a], w.order[b])
        {
          assert w.order[a] == v.order[a] && v.order[a] in v.order;
        }
      }
  }

  /** What the checkpoints of a history say: under every name that came up, and for the nameless
      section, the newest body; and the names in the order in which they came up, each once. */
  lemma ViewSaysTheNewest(ms: seq<Message>)
    ensures Says(NewestView(ms), ReadAll(ms))
  {
    hide *;
    ViewOfAll(ms);
    AbsorbedSays(ReadAll(ms));
  }

  /** The checkpoints but the last are gone, and the last one is rewritten where it stands. */
  lemma CollapsedWhereItStands(a: seq<Message>, c: Message, b: seq<Message>)
    requires IsCheckpoint(c) && NoCheckpoints(b) && !NoCheckpoints(a)
    ensures var ms := a + [c] + b;
            Collapse(ms) == DropCheckpoints(a) + [c.(content := Render(NewestView(ms)))] + b
  {
    hide *;
    var ms := a + [c] + b;
    LastIndex(a, c, b);
    CollapseCases(ms);
    RebuiltIs(ms, Render(NewestView(ms)));
    assert ms[..|a|] == a && ms[|a|] == c && ms[|a| + 1..] == b;
  }

  lemma LastIndex(a: seq<Message>, c: Message, b: seq<Message>)
    requires IsCheckpoint(c) && NoCheckpoints(b) && !NoCheckpoints(a)
    ensures var idx := Indices(a + [c] + b); |idx| >= 2 && idx[|idx| - 1] == |a|
  {
    hide IsCheckpoint, Indices;
    var ms := a + [c] + b;
    var idx := Indices(ms);
    var i :| 0 <= i < |a| && IsCheckpoint(a[i]);
    assert ms[i] == a[i] && ms[|a|] == c;
    assert i in idx && |a| in idx;
    var last := idx[|idx| - 1];
    NoneBehind(a, c, b);
    assert last in idx && IsCheckpoint(ms[last]);
    assert forall k :: 0 <= k < |idx| ==> idx[k] <= last;
  }

  lemma NoneBehind(a: seq<Message>, c: Message, b: seq<Message>)
    requires NoCheckpoints(b)
    ensures var ms := a + [c] + b; forall j :: |a| < j < |ms| ==> !IsCheckpoint(ms[j])
  {
    hide IsCheckpoint;
    var ms := a + [c] + b;
    forall j | |a| < j < |ms|
      ensures !IsCheckpoint(ms[j])
    {
      assert ms[j] == b[j - |a| - 1];
    }
  }
}
