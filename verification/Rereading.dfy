/** Delivery for whatever state, headings and stray hashes included: what a request says of a section
    is what its checkpoints read as, and read as again once they have been rewritten as one. */
module Rereading {
  import opened Prelude
  import opened Texts
  import opened Sections
  import opened Checkpoints
  import CollapseView
  import Sanitizer
  import opened Pipeline
  import ReplayKeeps
  import opened VolatileTail
  import opened Completeness

  // ------------------------------------------------------------------ from what was written alone

  /** What a checkpoint of these sections reads as. */
  function Reread(ss: seq<Section>): seq<Section> { ParseLines([""] + Glue(ss, [""])) }

  /** What these checkpoints say, each newest body once. */
  function ViewOfWritten(ws: seq<seq<Section>>): View {
    if ws == [] then NOTHING else AbsorbAll(ViewOfWritten(ws[..|ws| - 1]), Reread(ws[|ws| - 1]))
  }

  /** What they say in a request: more than one are rewritten as one, which is read once more. */
  function ViewInRequest(ws: seq<seq<Section>>): View {
    var v := ViewOfWritten(ws);
    if |ws| < 2 then v else AbsorbAll(NOTHING, ParseLines([""] + Glue(Listing(v), [])))
  }

  lemma OneMoreWritten(ws: seq<seq<Section>>, changed: seq<Section>)
    ensures ViewOfWritten(ws + [changed]) == AbsorbAll(ViewOfWritten(ws), Reread(changed))
  {
    assert (ws + [changed])[..|ws + [changed]| - 1] == ws;
  }

  // -------------------------------------------------------------------------------- the runs

  /** Only the engine writes checkpoints, and one that is stored stays below the size at which
      messages are shrunk. The blob of a call may be anything. */
  ghost predicate Admitted(cut: Message -> Text, norm: Text -> Text, st: State, e: Event) {
    match e
    case Append(_, m) => !IsCheckpoint(Shrink(cut, m))
    case Call(sid, blob, _, persists) =>
      Stored(sid, persists) ==> TextLen(Print(GateAt(cut, norm, st, sid, blob).changed)) <= ABSURD_CHARS
    case Restart => true
  }

  ghost predicate AdmittedRun(cut: Message -> Text, norm: Text -> Text, st: State, es: seq<Event>)
    decreases |es|
  {
    es != [] ==> Admitted(cut, norm, st, es[0]) && AdmittedRun(cut, norm, Next(cut, norm, st, es[0]), es[1..])
  }

  /** The checkpoint this event stores for the session, if it does. */
  function WrittenBy(cut: Message -> Text, norm: Text -> Text, st: State, e: Event, sid: SessionId): seq<seq<Section>> {
    if e.Call? && e.sid == sid && Stored(sid, e.persists) && GateAt(cut, norm, st, sid, e.blob).changed != []
    then [GateAt(cut, norm, st, sid, e.blob).changed] else []
  }

  function Written(cut: Message -> Text, norm: Text -> Text, st: State, es: seq<Event>, sid: SessionId)
    : seq<seq<Section>>
    decreases |es|
  {
    if es == [] then []
    else WrittenBy(cut, norm, st, es[0], sid) + Written(cut, norm, Next(cut, norm, st, es[0]), es[1..], sid)
  }

  /** The history holds these checkpoints, and no others. */
  ghost predicate Tracks(cut: Message -> Text, h: seq<Message>, ws: seq<seq<Section>>) {
    && ReplayKeeps.AllMarked(ShrinkAll(cut, h))
    && |Indices(ShrinkAll(cut, h))| == |ws|
    && NewestView(ShrinkAll(cut, h)) == ViewOfWritten(ws)
  }

  lemma MarkedAppend(s: seq<Message>, m: Message)
    requires ReplayKeeps.AllMarked(s) && ReplayKeeps.Marked(m)
    ensures ReplayKeeps.AllMarked(s + [m])
  {
    hide ReplayKeeps.Marked;
  }

  lemma IndicesAppend(s: seq<Message>, m: Message)
    ensures |Indices(s + [m])| == |Indices(s)| + if IsCheckpoint(m) then 1 else 0
  {
    hide IsCheckpoint;
    assert (s + [m])[..|s + [m]| - 1] == s;
  }

  lemma MessageTracks(cut: Message -> Text, h: seq<Message>, ws: seq<seq<Section>>, m: Message)
    requires Tracks(cut, h, ws) && !IsCheckpoint(Shrink(cut, m))
    ensures Tracks(cut, h + [m], ws)
  {
    hide IsCheckpoint, NewestView, ShrinkAll, Indices, ViewOfWritten, ReplayKeeps.AllMarked;
    var s := ShrinkAll(cut, h);
    ShrinkAppend(cut, h, m);
    MarkedAppend(s, Shrink(cut, m));
    IndicesAppend(s, Shrink(cut, m));
    OneMoreIsNoCheckpoint(s, Shrink(cut, m));
  }

  /** Whatever sections a checkpoint holds, it is one, and the engine marks it. */
  lemma PrintsACheckpoint(ss: seq<Section>)
    ensures IsCheckpointText(Print(ss)) && ParseCheckpoint(Print(ss)) == Reread(ss)
    ensures var c := CheckpointMessage(ss);
            && IsCheckpoint(c) && Sanitizer.Injected(c.content)
            && c.role.User? && c.toolCalls == [] && c.content == Print(ss)
  {
    hide Glue, TrimTextStart, ParseLines;
    PrefixedText(Glue(ss, [""]));
    assert Print(ss)[0] == PREFIX && PREFIX[..8] == "[SYSTEM]";
  }

  lemma CheckpointTracks(cut: Message -> Text, h: seq<Message>, ws: seq<seq<Section>>, changed: seq<Section>)
    requires Tracks(cut, h, ws) && TextLen(Print(changed)) <= ABSURD_CHARS
    ensures Tracks(cut, h + [CheckpointMessage(changed)], ws + [changed])
  {
    hide IsCheckpoint, NewestView, ShrinkAll, Indices, ViewOfWritten, ReplayKeeps.AllMarked, Print, TextLen, AbsorbAll,
         ParseCheckpoint, CheckpointMessage, IsCheckpointText, Reread, Sanitizer.Injected;
    var s, c := ShrinkAll(cut, h), CheckpointMessage(changed);
    PrintsACheckpoint(changed);
    ShrinkAppend(cut, h, c);
    assert Shrink(cut, c) == c;
    MarkedAppend(s, c);
    IndicesAppend(s, c);
    ViewAppends(s, c);
    OneMoreWritten(ws, changed);
  }

  lemma StepTracks(cut: Message -> Text, norm: Text -> Text, st: State, e: Event, sid: SessionId,
                   ws: seq<seq<Section>>)
    requires Admitted(cut, norm, st, e) && Tracks(cut, HistoryOf(st.histories, sid), ws)
    ensures Tracks(cut, HistoryOf(Next(cut, norm, st, e).histories, sid), ws + WrittenBy(cut, norm, st, e, sid))
  {
    hide Tracks, IsCheckpoint, Shrink, TextLen, Print, GateOf, Prepare, CheckpointMessage, Replay, SplitSections,
         FirstCallOfTurn;
    var h := HistoryOf(st.histories, sid);
    assert ws + [] == ws;
    match e
    case Append(to, m) =>
      if to == sid { MessageTracks(cut, h, ws, m); }
    case Call(to, blob, hint, persists) =>
      PrepareIs(cut, norm, st, to, blob, hint, persists);
      if to == sid && Stored(sid, persists) { CheckpointTracks(cut, h, ws, GateAt(cut, norm, st, sid, blob).changed); }
    case Restart =>
  }

  /** After every run, whatever its blobs, the history of a session holds exactly the checkpoints the
      run stored for it, and says what they read as. */
  lemma {:induction false} RunTracks(cut: Message -> Text, norm: Text -> Text, st: State, es: seq<Event>,
                                     sid: SessionId, ws: seq<seq<Section>>)
    requires AdmittedRun(cut, norm, st, es) && Tracks(cut, HistoryOf(st.histories, sid), ws)
    ensures Tracks(cut, HistoryOf(Run(cut, norm, st, es).histories, sid), ws + Written(cut, norm, st, es, sid))
    decreases |es|
  {
    hide Tracks, Admitted, Next, WrittenBy;
    if es == [] {
      assert ws + [] == ws;
    } else {
      var w, st' := WrittenBy(cut, norm, st, es[0], sid), Next(cut, norm, st, es[0]);
      StepTracks(cut, norm, st, es[0], sid, ws);
      RunTracks(cut, norm, st', es[1..], sid, ws + w);
      assert ws + (w + Written(cut, norm, st', es[1..], sid)) == ws + w + Written(cut, norm, st', es[1..], sid);
    }
  }

  lemma StartTracks(cut: Message -> Text, sid: SessionId)
    ensures Tracks(cut, HistoryOf(START.histories, sid), [])
  {
    assert ShrinkAll(cut, []) == [];
  }

  lemma TrackedView(cut: Message -> Text, h: seq<Message>, ws: seq<seq<Section>>)
    requires Tracks(cut, h, ws)
    ensures NewestView(Replay(cut, h)) == ViewInRequest(ws)
    ensures |Indices(Replay(cut, h))| <= 1
  {
    hide NewestView, ShrinkAll, Indices, ViewOfWritten, ReplayKeeps.AllMarked, Replay, Collapse, AbsorbAll,
         ParseCheckpoint, ParseLines, Render, IsCheckpointText;
    var s := ShrinkAll(cut, h);
    ReplayKeeps.ReplayedView(cut, h);
    if |ws| < 2 {
      CollapseCases(s);
    } else {
      ViewOfCollapsed(s);
      CollapseView.ParseOfRender(NewestView(s));
    }
  }

  /** For every run and every blob, exactly what this request carries of a section: its own text in
      the tail, or a copy with the same normal form in what the stored checkpoints are read as. */
  lemma AnySectionDeliveredExactlyWhen(cut: Message -> Text, norm: Text -> Text, es: seq<Event>, sid: SessionId,
                                       blob: Text, hint: Option<Text>, persists: bool, s: Section)
    requires AdmittedRun(cut, norm, START, es) && s in SplitSections(blob)
    ensures var st := Run(cut, norm, START, es);
            var req := Prepare(cut, norm, st, sid, blob, hint, persists).1;
            var inTail := req.tail.Some? && Carries(req.tail.value.content, s.body);
            var copy := Lookup(ViewInRequest(Written(cut, norm, START, es, sid)), s.key);
            && (s in GateAt(cut, norm, st, sid, blob).sent ==> inTail)
            && (Delivered(norm, req, s) <==> inTail || (copy.Some? && norm(copy.value) == norm(s.body)))
            && |Indices(req.messages)| <= 1
  {
    hide NewestView, Indices, ViewInRequest, Tracks, Run, Replay, GateOf, SplitSections, FirstCallOfTurn, Prepare, Tail,
         Carries, Lookup, Written, AdmittedRun, Evict, CheckpointMessage;
    StartTracks(cut, sid);
    RunTracks(cut, norm, START, es, sid, []);
    assert [] + Written(cut, norm, START, es, sid) == Written(cut, norm, START, es, sid);
    var st := Run(cut, norm, START, es);
    TrackedView(cut, HistoryOf(st.histories, sid), Written(cut, norm, START, es, sid));
    PrepareIs(cut, norm, st, sid, blob, hint, persists);
    if s in GateAt(cut, norm, st, sid, blob).sent { SentIsInTheTail(hint, GateAt(cut, norm, st, sid, blob), s); }
  }
}
