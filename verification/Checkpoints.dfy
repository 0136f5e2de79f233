/** State checkpoints in the replayed history, and their collapse into one message. */
module Checkpoints {
  import opened Prelude
  import opened Texts
  import opened Sections

  datatype Role = System | User | Assistant | Tool

  /** A message of the session; `toolCalls` holds the ids of the calls it makes. */
  datatype Message = Message(role: Role, content: Text, toolCalls: seq<string>,
                             toolCallId: Option<string>)

  predicate IsCheckpoint(m: Message) { m.role.User? && IsCheckpointText(m.content) }

  ghost predicate NoCheckpoints(ms: seq<Message>) {
    forall i :: 0 <= i < |ms| ==> !IsCheckpoint(ms[i])
  }

  /** The newest body of every section, and the order in which the names first appeared. */
  datatype View = View(preamble: Text, order: seq<string>, bodies: map<string, Text>)

  const NOTHING := View(EMPTY, [], map[])

  function Absorb(v: View, s: Section): View {
    match s.key
    case Preamble => v.(preamble := s.body)
    case Named(n) =>
      v.(order := if n in v.bodies then v.order else v.order + [n], bodies := v.bodies[n := s.body])
  }

  function AbsorbAll(v: View, ss: seq<Section>): View {
    if ss == [] then v else Absorb(AbsorbAll(v, ss[..|ss| - 1]), ss[|ss| - 1])
  }

  /** What the checkpoints of a history say, newest body per section. */
  function NewestView(ms: seq<Message>): View {
    if ms == [] then NOTHING
    else
      var v, m := NewestView(ms[..|ms| - 1]), ms[|ms| - 1];
      if IsCheckpoint(m) then AbsorbAll(v, ParseCheckpoint(m.content)) else v
  }

  /** The sections of a view in the order in which they are rendered. */
  function Listing(v: View): seq<Section> {
    (if v.preamble == EMPTY then [] else [Section(Preamble, v.preamble)]) + NamedListing(v.order, v.bodies)
  }

  function NamedListing(order: seq<string>, bodies: map<string, Text>): (r: seq<Section>)
    ensures |r| == |order|
    ensures forall i :: 0 <= i < |r| && order[i] in bodies ==>
              r[i] == Section(Named(order[i]), bodies[order[i]])
    ensures forall i :: 0 <= i < |r| ==> r[i].key.Named?
  {
    if order == [] then []
    else
      var n := order[|order| - 1];
      NamedListing(order[..|order| - 1], bodies) + [Section(Named(n), if n in bodies then bodies[n] else EMPTY)]
  }

  function Render(v: View): Text { [PREFIX] + Glue(Listing(v), []) }

  function Indices(ms: seq<Message>): (r: seq<nat>)
    ensures forall k :: 0 <= k < |r| ==> r[k] < |ms| && IsCheckpoint(ms[r[k]])
    ensures forall j, k :: 0 <= j < k < |r| ==> r[j] < r[k]
    ensures forall i :: 0 <= i < |ms| && IsCheckpoint(ms[i]) ==> i in r
  {
    if ms == [] then []
    else
      var n := |ms| - 1;
      var r := Indices(ms[..n]);
      if IsCheckpoint(ms[n]) then r + [n] else r
  }

  /** The other messages, in order. */
  function DropCheckpoints(ms: seq<Message>): seq<Message> {
    if ms == [] then []
    else
      var r, m := DropCheckpoints(ms[..|ms| - 1]), ms[|ms| - 1];
      if IsCheckpoint(m) then r else r + [m]
  }

  /** Fewer than two checkpoints: the history itself. Otherwise the last checkpoint is
      rewritten to the newest view and the earlier ones go. */
  function Collapse(ms: seq<Message>): seq<Message> {
    if |Indices(ms)| < 2 then ms else Rebuilt(ms, Render(NewestView(ms)))
  }

  function Rebuilt(ms: seq<Message>, content: Text): seq<Message>
    requires Indices(ms) != []
  {
    var idx := Indices(ms);
    var last := idx[|idx| - 1];
    DropCheckpoints(ms[..last]) + [ms[last].(content := content)] + ms[last + 1..]
  }

  // -------------------------------------------------------------------- the engine's loops

  method CollapseStateCheckpoints(messages: seq<Message>) returns (out: seq<Message>)
    ensures out == Collapse(messages)
  {
    hide *;
    CollapseCases(messages);
    var indices := FindCheckpoints(messages);
    if |indices| < 2 { return messages; }
    var view := AbsorbCheckpoints(messages, indices);
    out := Rebuild(messages, indices, Render(view));
  }

  lemma CollapseCases(ms: seq<Message>)
    ensures |Indices(ms)| < 2 ==> Collapse(ms) == ms
    ensures |Indices(ms)| >= 2 ==> Collapse(ms) == Rebuilt(ms, Render(NewestView(ms)))
  {}

  method FindCheckpoints(messages: seq<Message>) returns (indices: seq<nat>)
    ensures indices == Indices(messages)
  {
    indices := [];
    for i := 0 to |messages|
      invariant indices == Indices(messages[..i])
    {
      assert messages[..i + 1][..i] == messages[..i];
      if IsCheckpoint(messages[i]) { indices := indices + [i]; }
    }
    assert messages[..|messages|] == messages;
  }

  /** Oldest to newest, so that overwriting keeps the newest body. */
  method AbsorbCheckpoints(messages: seq<Message>, indices: seq<nat>) returns (view: View)
    requires indices == Indices(messages)
    ensures view == NewestView(messages)
  {
    hide *;
    view := NOTHING;
    AbsorbNoIndices(messages);
    for k := 0 to |indices|
      invariant view == AbsorbIndices(messages, indices[..k])
    {
      AbsorbOneIndex(messages, indices, k);
      view := AbsorbAll(view, ParseCheckpoint(messages[indices[k]].content));
    }
    assert indices[..|indices|] == indices;
    IndicesGiveTheView(messages, |messages|);
  }

  method Rebuild(messages: seq<Message>, indices: seq<nat>, collapsed: Text)
    returns (out: seq<Message>)
    requires indices == Indices(messages) && indices != []
    ensures out == Rebuilt(messages, collapsed)
  {
    hide IsCheckpoint, DropCheckpoints, Indices;
    var lastIdx := indices[|indices| - 1];
    ghost var kept := messages[lastIdx].(content := collapsed);
    out := [];
    DropStart(messages);
    for i := 0 to |messages|
      invariant i <= lastIdx ==> out == DropCheckpoints(messages[..i])
      invariant i > lastIdx ==>
                  out == DropCheckpoints(messages[..lastIdx]) + [kept] + messages[lastIdx + 1..i]
    {
      DropStep(messages, i);
      if i in indices {
        if i == lastIdx { out := out + [messages[i].(content := collapsed)]; }
      } else {
        out := out + [messages[i]];
      }
    }
  }

  lemma DropStart(ms: seq<Message>)
    ensures DropCheckpoints(ms[..0]) == []
  {}

  lemma DropStep(ms: seq<Message>, i: nat)
    requires i < |ms|
    ensures i in Indices(ms) <==> IsCheckpoint(ms[i])
    ensures DropCheckpoints(ms[..i + 1])
            == DropCheckpoints(ms[..i]) + (if IsCheckpoint(ms[i]) then [] else [ms[i]])
  {
    hide IsCheckpoint;
    assert ms[..i + 1][..i] == ms[..i];
  }

  lemma AbsorbNoIndices(ms: seq<Message>)
    ensures AbsorbIndices(ms, []) == NOTHING
  {}

  lemma AbsorbOneIndex(ms: seq<Message>, idx: seq<nat>, k: nat)
    requires k < |idx|
    requires forall j :: 0 <= j < |idx| ==> idx[j] < |ms|
    requires IsCheckpoint(ms[idx[k]])
    ensures IsCheckpointText(ms[idx[k]].content)
    ensures AbsorbIndices(ms, idx[..k + 1])
            == AbsorbAll(AbsorbIndices(ms, idx[..k]), ParseCheckpoint(ms[idx[k]].content))
  {
    hide AbsorbAll, ParseCheckpoint, IsCheckpointText;
    assert idx[..k + 1][..k] == idx[..k];
  }

  ghost function AbsorbIndices(ms: seq<Message>, idx: seq<nat>): View
    requires forall k :: 0 <= k < |idx| ==> idx[k] < |ms|
  {
    if idx == [] then NOTHING
    else
      var n := |idx| - 1;
      var m := ms[idx[n]];
      var v := AbsorbIndices(ms, idx[..n]);
      if IsCheckpoint(m) then AbsorbAll(v, ParseCheckpoint(m.content)) else v
  }

  lemma {:induction false} IndicesGiveTheView(ms: seq<Message>, i: nat)
    requires i <= |ms|
    ensures AbsorbIndices(ms, Indices(ms[..i])) == NewestView(ms[..i])
    ensures ms[..|ms|] == ms
  {
    hide AbsorbAll, IsCheckpointText, AfterPrefix, ParseCheckpoint;
    if i > 0 {
      IndicesGiveTheView(ms, i - 1);
      assert ms[..i][..i - 1] == ms[..i - 1];
      var r := Indices(ms[..i - 1]);
      if IsCheckpoint(ms[i - 1]) {
        assert (r + [i - 1])[..|r|] == r;
      }
    }
  }

  // ------------------------------------------------------------------------- what it keeps

  ghost predicate WellFormed(v: View) {
    && (forall i, j :: 0 <= i < j < |v.order| ==> v.order[i] != v.order[j])
    && (forall n :: n in v.order <==> n in v.bodies)
    && (v.preamble == EMPTY || Trimmed(v.preamble))
    && (forall n :: n in v.bodies ==> Trimmed(v.bodies[n]))
  }

  lemma {:induction false} AbsorbKeepsForm(v: View, ss: seq<Section>)
    requires WellFormed(v) && AllTrimmed(ss)
    ensures WellFormed(AbsorbAll(v, ss))
  {
    if ss != [] {
      AbsorbKeepsForm(v, ss[..|ss| - 1]);
      assert Trimmed(ss[|ss| - 1].body);
    }
  }

  lemma {:induction false} NewestViewWellFormed(ms: seq<Message>)
    ensures WellFormed(NewestView(ms))
  {
    hide AbsorbAll, IsCheckpointText, ParseLines;
    if ms != [] {
      var m := ms[|ms| - 1];
      NewestViewWellFormed(ms[..|ms| - 1]);
      if IsCheckpoint(m) {
        ParseTrimmed(AfterPrefix(m.content));
        AbsorbKeepsForm(NewestView(ms[..|ms| - 1]), ParseCheckpoint(m.content));
      }
    }
  }

  lemma ListingTrimmed(v: View)
    requires WellFormed(v)
    ensures AllTrimmed(Listing(v)) && PreambleOnlyFirst(Listing(v))
  {
  }

  lemma {:induction false} AbsorbConcat(v: View, a: seq<Section>, b: seq<Section>)
    ensures AbsorbAll(v, a + b) == AbsorbAll(AbsorbAll(v, a), b)
  {
    if b == [] {
      assert a + b == a;
    } else {
      assert (a + b)[..|a + b| - 1] == a + b[..|b| - 1];
      AbsorbConcat(v, a, b[..|b| - 1]);
    }
  }

  lemma {:induction false} NamedListingRebuilds(p: Text, order: seq<string>, bodies: map<string, Text>)
    requires forall i, j :: 0 <= i < j < |order| ==> order[i] != order[j]
    requires forall n :: n in order ==> n in bodies
    ensures AbsorbAll(View(p, [], map[]), NamedListing(order, bodies))
            == View(p, order, map n | n in order :: bodies[n])
  {
    hide *;
    if order == [] {
      EmptyListing(View(p, [], map[]), bodies);
    } else {
      var k := |order| - 1;
      var front, n := order[..k], order[k];
      assert order == front + [n];
      assert n !in front;
      NamedListingRebuilds(p, front, bodies);
      NamedListingSnoc(front, n, bodies);
      AbsorbSnoc(View(p, [], map[]), NamedListing(front, bodies), Section(Named(n), bodies[n]));
      assert (map m | m in order :: bodies[m]) == (map m | m in front :: bodies[m])[n := bodies[n]];
      AbsorbNew(View(p, front, map m | m in front :: bodies[m]), n, bodies[n]);
    }
  }

  lemma AbsorbPreamble(p: Text)
    ensures AbsorbAll(NOTHING, []) == NOTHING
    ensures AbsorbAll(NOTHING, [Section(Preamble, p)]) == View(p, [], map[])
  {
  }

  lemma EmptyListing(v: View, bodies: map<string, Text>)
    ensures AbsorbAll(v, NamedListing([], bodies)) == v
  {}

  lemma NamedListingSnoc(order: seq<string>, n: string, bodies: map<string, Text>)
    requires n in bodies
    ensures NamedListing(order + [n], bodies)
            == NamedListing(order, bodies) + [Section(Named(n), bodies[n])]
  {
  }

  lemma AbsorbSnoc(v: View, ss: seq<Section>, s: Section)
    ensures AbsorbAll(v, ss + [s]) == Absorb(AbsorbAll(v, ss), s)
  {
  }

  lemma AbsorbNew(v: View, n: string, b: Text)
    requires n !in v.bodies
    ensures Absorb(v, Section(Named(n), b)) == View(v.preamble, v.order + [n], v.bodies[n := b])
  {}

  /** Absorbing a view's own listing rebuilds the view. */
  lemma ListingRebuilds(v: View)
    requires WellFormed(v)
    ensures AbsorbAll(NOTHING, Listing(v)) == v
  {
    hide Trimmed, NamedListing, AbsorbAll;
    var head := if v.preamble == EMPTY then [] else [Section(Preamble, v.preamble)];
    AbsorbConcat(NOTHING, head, NamedListing(v.order, v.bodies));
    AbsorbPreamble(v.preamble);
    NamedListingRebuilds(v.preamble, v.order, v.bodies);
    assert (map n | n in v.order :: v.bodies[n]) == v.bodies;
  }

  /** The rewritten checkpoint reads back as the newest view exactly when the view's bodies
      are legible side by side. */
  lemma RenderedCheckpoint(v: View)
    requires WellFormed(v)
    ensures IsCheckpointText(Render(v))
    ensures ParseCheckpoint(Render(v)) == Listing(v) <==> Legible(Listing(v))
    ensures Legible(Listing(v)) ==> AbsorbAll(NOTHING, ParseCheckpoint(Render(v))) == v
  {
    var ss := Listing(v);
    ListingTrimmed(v);
    PrefixedText(Glue(ss, []));
    if Legible(ss) { LegibleRoundTrips([""], ss, []); }
    if ParseCheckpoint(Render(v)) == ss { OnlyLegibleRoundTrips([""], ss, []); }
    ListingRebuilds(v);
  }

  lemma {:induction false} DropSplit(a: seq<Message>, b: seq<Message>)
    ensures DropCheckpoints(a + b) == DropCheckpoints(a) + DropCheckpoints(b)
  {
    if b == [] {
      assert a + b == a;
    } else {
      assert (a + b)[..|a + b| - 1] == a + b[..|b| - 1];
      DropSplit(a, b[..|b| - 1]);
    }
  }

  lemma {:induction false} DropNothing(ms: seq<Message>)
    requires NoCheckpoints(ms)
    ensures DropCheckpoints(ms) == ms
  {
    if ms != [] {
      DropNothing(ms[..|ms| - 1]);
      assert ms == ms[..|ms| - 1] + [ms[|ms| - 1]];
    }
  }

  lemma {:induction false} DropLeavesNone(ms: seq<Message>)
    ensures NoCheckpoints(DropCheckpoints(ms))
  {
    if ms != [] { DropLeavesNone(ms[..|ms| - 1]); }
  }

  lemma {:induction false} IndicesSplit(a: seq<Message>, b: seq<Message>)
    ensures |Indices(a + b)| == |Indices(a)| + |Indices(b)|
    ensures Indices(b) == [] ==> Indices(a + b) == Indices(a)
  {
    if b == [] {
      assert a + b == a;
    } else {
      assert (a + b)[..|a + b| - 1] == a + b[..|b| - 1];
      IndicesSplit(a, b[..|b| - 1]);
    }
  }

  lemma {:induction false} NoIndices(ms: seq<Message>)
    requires NoCheckpoints(ms)
    ensures Indices(ms) == []
  {
    hide IsCheckpoint;
    if ms != [] { NoIndices(ms[..|ms| - 1]); }
  }

  lemma {:induction false} ViewSkips(a: seq<Message>, b: seq<Message>)
    requires NoCheckpoints(b)
    ensures NewestView(a + b) == NewestView(a)
  {
    if b == [] {
      assert a + b == a;
    } else {
      assert (a + b)[..|a + b| - 1] == a + b[..|b| - 1];
      ViewSkips(a, b[..|b| - 1]);
    }
  }

  lemma ViewAppends(ms: seq<Message>, c: Message)
    requires IsCheckpoint(c)
    ensures NewestView(ms + [c]) == AbsorbAll(NewestView(ms), ParseCheckpoint(c.content))
  {
  }

  /** The shape of a collapsed history: no checkpoint before or after the rewritten one. */
  lemma CollapseShape(ms: seq<Message>) returns (a: seq<Message>, kept: Message, b: seq<Message>)
    requires |Indices(ms)| >= 2
    ensures Collapse(ms) == a + [kept] + b
    ensures NoCheckpoints(a) && IsCheckpoint(kept) && NoCheckpoints(b)
    ensures kept.content == Render(NewestView(ms))
    ensures DropCheckpoints(ms) == a + b
  {
    hide *;
    var idx := Indices(ms);
    var last := idx[|idx| - 1];
    a, b := DropCheckpoints(ms[..last]), ms[last + 1..];
    kept := ms[last].(content := Render(NewestView(ms)));
    CollapseCases(ms);
    RebuiltIs(ms, kept.content);
    NewestViewWellFormed(ms);
    RenderedCheckpoint(NewestView(ms));
    StillCheckpoint(ms[last], kept.content);
    DropLeavesNone(ms[..last]);
    NoneAfterTheLast(ms);
    assert ms == ms[..last] + [ms[last]] + b;
    DropAround(ms[..last], ms[last], b);
  }

  lemma RebuiltIs(ms: seq<Message>, content: Text)
    requires Indices(ms) != []
    ensures var idx := Indices(ms);
            var last := idx[|idx| - 1];
            Rebuilt(ms, content)
            == DropCheckpoints(ms[..last]) + [ms[last].(content := content)] + ms[last + 1..]
  {}

  lemma StillCheckpoint(m: Message, content: Text)
    requires IsCheckpoint(m) && IsCheckpointText(content)
    ensures IsCheckpoint(m.(content := content))
  {}

  lemma NoneAfterTheLast(ms: seq<Message>)
    requires Indices(ms) != []
    ensures NoCheckpoints(ms[Indices(ms)[|Indices(ms)| - 1] + 1..])
  {
  }

  lemma DropAround(a: seq<Message>, c: Message, b: seq<Message>)
    requires IsCheckpoint(c) && NoCheckpoints(b)
    ensures DropCheckpoints(a + [c] + b) == DropCheckpoints(a) + b
  {
    hide IsCheckpoint;
    DropSplit(a + [c], b);
    assert (a + [c])[..|a|] == a;
    DropNothing(b);
  }

  /** Collapse keeps every other message in order, leaves one checkpoint where there was
      one, and changes nothing a second time. */
  lemma CollapseIsLossless(ms: seq<Message>)
    ensures DropCheckpoints(Collapse(ms)) == DropCheckpoints(ms)
    ensures |Indices(Collapse(ms))| == (if |Indices(ms)| == 0 then 0 else 1)
    ensures Collapse(Collapse(ms)) == Collapse(ms)
  {
    hide *;
    CollapseCases(ms);
    CollapseCases(Collapse(ms));
    if |Indices(ms)| >= 2 {
      var a, kept, b := CollapseShape(ms);
      DropAround(a, kept, b);
      DropNothing(a);
      OneIndex(a, kept, b);
    }
  }

  lemma OneIndex(a: seq<Message>, c: Message, b: seq<Message>)
    requires NoCheckpoints(a) && IsCheckpoint(c) && NoCheckpoints(b)
    ensures |Indices(a + [c] + b)| == 1
  {
    hide IsCheckpoint;
    IndicesSplit(a + [c], b);
    assert (a + [c])[..|a|] == a;
    NoIndices(a);
    NoIndices(b);
  }

  /** What a collapsed history says is what its one checkpoint says. */
  lemma ViewOfCollapsed(ms: seq<Message>)
    requires |Indices(ms)| >= 2
    ensures IsCheckpointText(Render(NewestView(ms)))
    ensures NewestView(Collapse(ms)) == AbsorbAll(NOTHING, ParseCheckpoint(Render(NewestView(ms))))
  {
    hide *;
    var a, kept, b := CollapseShape(ms);
    NewestViewWellFormed(ms);
    RenderedCheckpoint(NewestView(ms));
    ViewSkips(a + [kept], b);
    ViewAppends(a, kept);
    ViewSkips([], a);
    ViewOfNothing();
    assert [] + a == a;
  }

  /** The view survives: what the checkpoints said is what the collapsed one says. */
  lemma CollapseKeepsTheView(ms: seq<Message>)
    requires |Indices(ms)| < 2 || Legible(Listing(NewestView(ms)))
    ensures NewestView(Collapse(ms)) == NewestView(ms)
  {
    hide *;
    CollapseCases(ms);
    if |Indices(ms)| >= 2 {
      ViewOfCollapsed(ms);
      NewestViewWellFormed(ms);
      RenderedCheckpoint(NewestView(ms));
    }
  }

  lemma ViewOfNothing()
    ensures NewestView([]) == NOTHING
  {}

  /** Collapsing as checkpoints arrive gives the same request as collapsing them all. */
  lemma CollapseIsIncremental(h: seq<Message>, c: Message)
    requires IsCheckpoint(c)
    requires |Indices(h)| < 2 || Legible(Listing(NewestView(h)))
    ensures Collapse(Collapse(h) + [c]) == Collapse(h + [c])
  {
    hide *;
    CollapseCases(h);
    if |Indices(h)| >= 2 {
      var h' := Collapse(h);
      CollapseIsLossless(h);
      CollapseKeepsTheView(h);
      ViewAppends(h, c);
      ViewAppends(h', c);
      CollapseAtEnd(h, c);
      CollapseAtEnd(h', c);
    }
  }

  lemma CollapseAtEnd(h: seq<Message>, c: Message)
    requires IsCheckpoint(c) && |Indices(h)| >= 1
    ensures Collapse(h + [c])
            == DropCheckpoints(h) + [c.(content := Render(NewestView(h + [c])))]
  {
  }

  // -------------------------------------------------- histories whose checkpoints are robust

  ghost predicate RobustCheckpoint(m: Message)
    requires IsCheckpoint(m)
  {
    AllRobust(ParseCheckpoint(m.content))
  }

  ghost predicate RobustHistory(ms: seq<Message>) {
    forall i :: 0 <= i < |ms| && IsCheckpoint(ms[i]) ==> RobustCheckpoint(ms[i])
  }

  ghost predicate RobustView(v: View) {
    && (v.preamble != EMPTY ==> Robust(Section(Preamble, v.preamble)))
    && (forall n :: n in v.bodies ==> Robust(Section(Named(n), v.bodies[n])))
  }

  lemma {:induction false} AbsorbRobust(v: View, ss: seq<Section>)
    requires RobustView(v) && AllRobust(ss)
    ensures RobustView(AbsorbAll(v, ss))
  {
    hide Robust;
    if ss != [] {
      AbsorbRobust(v, ss[..|ss| - 1]);
      assert Robust(ss[|ss| - 1]);
    }
  }

  lemma {:induction false} RobustHistoryView(ms: seq<Message>)
    requires RobustHistory(ms)
    ensures RobustView(NewestView(ms))
  {
    hide Robust, IsCheckpointText, AbsorbAll, ParseCheckpoint;
    if ms != [] {
      var m := ms[|ms| - 1];
      var front := ms[..|ms| - 1];
      assert forall i :: 0 <= i < |front| ==> front[i] == ms[i];
      RobustHistoryView(front);
      if IsCheckpoint(m) {
        assert RobustCheckpoint(m);
        AbsorbRobust(NewestView(ms[..|ms| - 1]), ParseCheckpoint(m.content));
      }
    }
  }

  /** A history whose checkpoints are robust has a legible view. */
  lemma RobustHistoryIsLegible(ms: seq<Message>)
    requires RobustHistory(ms)
    ensures Legible(Listing(NewestView(ms)))
  {
    var v := NewestView(ms);
    NewestViewWellFormed(ms);
    RobustHistoryView(ms);
    ListingTrimmed(v);
    RobustListing(v);
    RobustIsLegible(Listing(v));
  }

  lemma RobustListing(v: View)
    requires WellFormed(v) && RobustView(v)
    ensures AllRobust(Listing(v))
  {
  }
}
