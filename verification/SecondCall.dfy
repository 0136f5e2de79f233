/** Two calls of one turn with a state of one section: what the second call is delivered of it. */
module SecondCall {
  import opened Prelude
  import opened Texts
  import opened Sections
  import opened Checkpoints
  import opened Pipeline
  import opened VolatileTail
  import opened Completeness
  import Rereading

  const GO := Message(User, ["go"], [], None)
  const OK := Message(Assistant, ["ok"], [], None)

  /** The body that comes back when the checkpoint of one section is read. */
  function ReadBack(s: Section): Option<Text>
    requires IsCheckpointText(Print([s]))
  {
    Lookup(AbsorbAll(NOTHING, ParseCheckpoint(Print([s]))), s.key)
  }

  /** A state of one named section that is not always sent. */
  predicate OneNamed(blob: Text, s: Section) {
    SplitSections(blob) == [s] && s.key.Named? && !AlwaysFresh(s.key) && TextLen(Print([s])) <= ABSURD_CHARS
  }

  lemma OneNamedParts(blob: Text, s: Section)
    requires OneNamed(blob, s)
    ensures SplitSections(blob) == [s] && s.key.Named? && TextLen(Print([s])) <= ABSURD_CHARS
  {}

  /** The second call is delivered the section exactly when the first call's checkpoint was stored,
      which takes a session that has a name and a working store, and reads back as a body with the
      same normal form. */
  lemma SecondCallDeliversExactlyWhen(cut: Message -> Text, norm: Text -> Text, sid: SessionId, persists: bool,
                                      blob: Text, s: Section)
    requires OneNamed(blob, s)
    ensures IsCheckpointText(Print([s]))
    ensures var st0 := State(map[], [], map[sid := [GO]]);
            var (st1, _) := Prepare(cut, norm, st0, sid, blob, None, persists);
            var st2 := st1.(histories := st1.histories[sid := HistoryOf(st1.histories, sid) + [OK]]);
            var (_, req) := Prepare(cut, norm, st2, sid, blob, None, true);
            Delivered(norm, req, s)
            <==> Stored(sid, persists) && ReadBack(s).Some? && norm(ReadBack(s).value) == norm(s.body)
  {
    hide *;
    OneNamedParts(blob, s);
    var st0 := State(map[], [], map[sid := [GO]]);
    HistoryOfOne(sid, [GO]);
    FirstCall(cut, norm, st0, sid, persists, blob, s);
    var (st1, _) := Prepare(cut, norm, st0, sid, blob, None, persists);
    var st2 := st1.(histories := st1.histories[sid := HistoryOf(st1.histories, sid) + [OK]]);
    var stored := Stored(sid, persists);
    var ck := CheckpointMessage([s]);
    HistoryIs(st1, st2, sid, if stored then [GO, ck] else [GO], OK);
    var h := if stored then [GO, ck, OK] else [GO, OK];
    assert HistoryOf(st2.histories, sid) == h;
    Rereading.PrintsACheckpoint([s]);
    ReplayOfThree(cut, ck, s, stored);
    SecondCall(cut, norm, st2, sid, h, blob, s);
    var (_, req) := Prepare(cut, norm, st2, sid, blob, None, true);
    ViewOfThree(ck, s, stored);
    HashesInFront(blob, s);
    TailIsOnlyDigest(norm, req, s);
  }

  lemma GateOfOne(norm: Text -> Text, prev: Option<Snapshot>, first: bool, s: Section)
    requires !AlwaysFresh(s.key)
    ensures var g := GateOf(norm, prev, first, [s]);
            && g.next.hashes == map[s.key := norm(s.body)]
            && (prev.None? ==> g == Gate([s], [s], [], Snapshot(map[s.key := norm(s.body)], Since(0))))
            && (prev == Some(Snapshot(map[s.key := norm(s.body)], Since(0))) && !first ==>
                  g.sent == [] && g.changed == [] && g.omitted == [s.key])
  {
    assert [s][..|[s]| - 1] == [] && [] + [s] == [s] && [] + [s.key] == [s.key];
    assert HashesOf(norm, [s]) == map[s.key := norm(s.body)];
    var force := ForceFull(prev, first);
    assert FreshOf(norm, prev, force, [s]) == if Sent(norm, prev, force, s) then [s] else [];
    assert ChangedOf(norm, prev, [s]) == if Changed(norm, prev, s) then [s] else [];
    assert OmittedOf(norm, prev, force, [s]) == if Sent(norm, prev, force, s) then [] else [s.key];
  }

  lemma FirstCall(cut: Message -> Text, norm: Text -> Text, st0: State, sid: SessionId, persists: bool, blob: Text,
                  s: Section)
    requires st0.snapshots == map[] && st0.order == [] && OneNamed(blob, s)
    ensures var st1 := Prepare(cut, norm, st0, sid, blob, None, persists).0;
            && st1.snapshots == map[sid := Snapshot(map[s.key := norm(s.body)], Since(0))]
            && HistoryOf(st1.histories, sid)
               == (if Stored(sid, persists) then HistoryOf(st0.histories, sid) + [CheckpointMessage([s])]
                   else HistoryOf(st0.histories, sid))
  {
    hide Replay, SplitSections, GateOf, Prepare, CheckpointMessage, Tail, TextLen, Print;
    PrepareIs(cut, norm, st0, sid, blob, None, persists);
    GateOfOne(norm, None, FirstCallOfTurn(Replay(cut, HistoryOf(st0.histories, sid))), s);
    var one := map[sid := Snapshot(map[s.key := norm(s.body)], Since(0))];
    assert st0.snapshots[sid := Snapshot(map[s.key := norm(s.body)], Since(0))] == one;
    assert |one| == 1;
    EvictStep(one, [sid]);
  }

  lemma HistoryOfOne(sid: SessionId, h: seq<Message>)
    ensures HistoryOf(map[sid := h], sid) == h
  {}

  lemma HistoryIs(st1: State, st2: State, sid: SessionId, h: seq<Message>, ok: Message)
    requires HistoryOf(st1.histories, sid) == h
    requires st2 == st1.(histories := st1.histories[sid := HistoryOf(st1.histories, sid) + [ok]])
    ensures HistoryOf(st2.histories, sid) == h + [ok] && st2.snapshots == st1.snapshots
  {}

  /** A short history of this form is replayed as it stands. */
  lemma ReplayOfThree(cut: Message -> Text, ck: Message, s: Section, stored: bool)
    requires ck == CheckpointMessage([s]) && IsCheckpoint(ck) && Sanitizer.Injected(ck.content) && ck.role.User?
    requires ck.toolCalls == [] && ck.content == Print([s]) && TextLen(Print([s])) <= ABSURD_CHARS
    ensures var h := if stored then [GO, ck, OK] else [GO, OK]; Replay(cut, h) == h
    ensures !IsCheckpoint(GO) && !IsCheckpoint(OK)
  {
    hide *;
    GoAndOk();
    ReplayKeeps.CheckpointIsNotTransient(ck);
    var h := if stored then [GO, ck, OK] else [GO, OK];
    NothingShrinks(cut, h);
    OneCheckpointStays(ck, stored);
    CollapseCases(h);
    ShortIsNormal(ck, stored);
    Sanitizer.SanitizeIsNormalForm(h);
    NoPrompts(h);
    NothingSuperseded(h);
    ReplayIs(cut, h);
  }

  lemma GoAndOk()
    ensures TextLen(GO.content) <= ABSURD_CHARS && TextLen(OK.content) <= ABSURD_CHARS
    ensures !IsCheckpoint(GO) && !IsCheckpoint(OK) && !Transient(GO) && !Transient(OK)
  {
  }

  lemma NothingShrinks(cut: Message -> Text, h: seq<Message>)
    requires forall i :: 0 <= i < |h| ==> TextLen(h[i].content) <= ABSURD_CHARS
    ensures ShrinkAll(cut, h) == h
  {}

  lemma OneCheckpointStays(ck: Message, stored: bool)
    requires !IsCheckpoint(GO) && !IsCheckpoint(OK) && IsCheckpoint(ck)
    ensures |Indices(if stored then [GO, ck, OK] else [GO, OK])| < 2
  {
    hide IsCheckpoint;
    if stored {
      OneIndex([GO], ck, [OK]);
      assert [GO] + [ck] + [OK] == [GO, ck, OK];
    } else {
      NoIndices([GO, OK]);
    }
  }

  lemma ShortIsNormal(ck: Message, stored: bool)
    requires ck.role.User? && Sanitizer.Injected(ck.content)
    ensures var h := if stored then [GO, ck, OK] else [GO, OK];
            Sanitizer.WellBlocked(h) && Sanitizer.NothingToMerge(h)
  {
    hide Sanitizer.Injected, Sanitizer.IsBlock;
    assert [GO, ck, OK][1..] == [ck, OK] && [ck, OK][1..] == [OK] && [OK][1..] == [] && [GO, OK][1..] == [OK];
    assert Sanitizer.WellBlocked([OK]);
    assert Sanitizer.WellBlocked([ck, OK]);
  }

  lemma NoPrompts(h: seq<Message>)
    requires forall i :: 0 <= i < |h| ==> !Transient(h[i])
    ensures forall i :: 0 <= i < |h| ==> !IsContinuation(h[i]) && !IsLoopWarning(h[i])
  {}

  lemma SecondCall(cut: Message -> Text, norm: Text -> Text, st2: State, sid: SessionId, h: seq<Message>, blob: Text,
                   s: Section)
    requires HistoryOf(st2.histories, sid) == h && Replay(cut, h) == h && OneNamed(blob, s)
    requires |h| >= 2 && h[|h| - 1] == OK
    requires st2.snapshots == map[sid := Snapshot(map[s.key := norm(s.body)], Since(0))]
    ensures var req := Prepare(cut, norm, st2, sid, blob, None, true).1;
            req.messages == h && req.tail == Some(Message(User, [LIVE] + Digest([s.key]), [], None))
  {
    hide Replay, SplitSections, GateOf, Prepare, Digest, Synthetic, TextLen, Print;
    PrepareIs(cut, norm, st2, sid, blob, None, true);
    assert h[..|h| - 1] != [];
    assert !FirstCallOfTurn(h) by { assert CurrentTurnStart(h) < |h| - 1; }
    GateOfOne(norm, Some(st2.snapshots[sid]), FirstCallOfTurn(h), s);
  }

  lemma ViewOfThree(ck: Message, s: Section, stored: bool)
    requires IsCheckpoint(ck) && !IsCheckpoint(GO) && !IsCheckpoint(OK)
    requires IsCheckpointText(Print([s])) && ck.content == Print([s]) && s.key.Named?
    ensures var h := if stored then [GO, ck, OK] else [GO, OK];
            Lookup(NewestView(h), s.key) == if stored then ReadBack(s) else None
  {
    hide *;
    ViewOfNothing();
    OneMoreIsNoCheckpoint([], GO);
    assert [] + [GO] == [GO];
    if stored {
      ViewAppends([GO], ck);
      OneMoreIsNoCheckpoint([GO, ck], OK);
      assert [GO] + [ck] == [GO, ck] && [GO, ck] + [OK] == [GO, ck, OK];
      ReadBackIs(s);
    } else {
      OneMoreIsNoCheckpoint([GO], OK);
      assert [GO] + [OK] == [GO, OK];
      NothingToLookUp(s.key);
    }
  }

  lemma ReadBackIs(s: Section)
    requires IsCheckpointText(Print([s]))
    ensures ReadBack(s) == Lookup(AbsorbAll(NOTHING, ParseCheckpoint(Print([s]))), s.key)
  {}

  lemma NothingToLookUp(k: Key)
    ensures Lookup(NOTHING, k) == None
  {}

  /** A named section starts with its hashes, trimmed as it is. */
  lemma HashesInFront(blob: Text, s: Section)
    requires SplitSections(blob) == [s] && s.key.Named?
    ensures |s.body| >= 1 && |s.body[0]| >= 1 && s.body[0][0] == '#'
  {
    hide HeadingName, TrimText;
    NamedStartsWithHashes(blob);
    assert s in SplitSections(blob);
  }

  predicate HashesFirst(s: Section) { s.key.Named? ==> |s.body| >= 1 && |s.body[0]| >= 1 && s.body[0][0] == '#' }

  lemma {:induction false} NamedStartsWithHashes(t: Text)
    ensures forall s :: s in SplitSections(t) ==> HashesFirst(s)
    decreases |t|
  {
    hide HeadingName, TrimText, TwoHashesAndSpace;
    if t != [] {
      var k := NextHeading(t, 1);
      NamedStartsWithHashes(t[k..]);
      if KeyOfLine(t[0]).Named? { HashesStay(t[..k]); }
    }
  }

  lemma HashesStay(block: Text)
    requires block != [] && KeyOfLine(block[0]).Named?
    ensures var b := TrimText(block); |b| >= 1 && |b[0]| >= 1 && b[0][0] == '#'
  {
    hide IsSpace, KeyOfLine, Blank, TrimEnd, TrimTextEnd;
    HashInFront(block[0]);
    assert TrimTextStart(block) == block && !AllBlank(block);
    TrimEndKeepsStart(block);
    var r := TrimTextEnd(block);
    if |r| > 1 { assert r[0] == r[..|r| - 1][0] == block[..|r| - 1][0]; } else { assert r[0] <= block[0]; }
  }

  lemma HashInFront(line: string)
    requires KeyOfLine(line).Named?
    ensures |line| >= 1 && line[0] == '#' && !Blank(line) && TrimStart(line) == line
  {
    hide TrimStart, TrimEnd;
    assert TwoHashesAndSpace(line) && !IsSpace('#');
  }

  lemma TailIsOnlyDigest(norm: Text -> Text, req: Request, s: Section)
    requires req.tail == Some(Message(User, [LIVE] + Digest([s.key]), [], None))
    requires |s.body| >= 1 && |s.body[0]| >= 1 && s.body[0][0] == '#'
    ensures Delivered(norm, req, s)
            <==> var copy := Lookup(NewestView(req.messages), s.key);
                 copy.Some? && norm(copy.value) == norm(s.body)
  {
    hide NewestView, Lookup;
    var t := req.tail.value.content;
    assert |t| == 2 && t[0][0] == '[' && t[1][0] == '[';
    assert forall i: nat :: CarriesAt(t, s.body, i) ==> t[i] == t[i..i + |s.body|][0] == s.body[0];
  }

  // --------------------------------------------------------------------------------- two cases

  /** A section that survives its checkpoint is delivered exactly when that is stored. */
  lemma RobustSectionNeedsTheStore(cut: Message -> Text, norm: Text -> Text, sid: SessionId, persists: bool,
                                   blob: Text, s: Section)
    requires OneNamed(blob, s) && Robust(s)
    ensures var st0 := State(map[], [], map[sid := [GO]]);
            var (st1, _) := Prepare(cut, norm, st0, sid, blob, None, persists);
            var st2 := st1.(histories := st1.histories[sid := HistoryOf(st1.histories, sid) + [OK]]);
            var (_, req) := Prepare(cut, norm, st2, sid, blob, None, true);
            Delivered(norm, req, s) <==> Stored(sid, persists)
  {
    hide Prepare, Delivered, Stored, SplitSections, TextLen, Print, Robust;
    SecondCallDeliversExactlyWhen(cut, norm, sid, persists, blob, s);
    RobustReadsBack(s);
  }

  lemma RobustReadsBack(s: Section)
    requires Robust(s) && IsCheckpointText(Print([s])) && s.key.Named?
    ensures ReadBack(s) == Some(s.body)
  {
    hide ParseCheckpoint, Print, Robust;
    assert AllRobust([s]) && PreambleOnlyFirst([s]);
    WrittenCheckpoint([s]);
    AbsorbSnoc(NOTHING, [], s);
    AbsorbNothing(NOTHING);
    assert [] + [s] == [s];
  }

  const STRAY: Text := ["## A", "x", "##", "y"]

  /** With a stray `##` line the copy that comes back ends in front of it: the section is delivered
      only if its first half has the same normal form. */
  lemma StraySectionIsCutShort(cut: Message -> Text, norm: Text -> Text, sid: SessionId, persists: bool)
    ensures var st0 := State(map[], [], map[sid := [GO]]);
            var (st1, _) := Prepare(cut, norm, st0, sid, STRAY, None, persists);
            var st2 := st1.(histories := st1.histories[sid := HistoryOf(st1.histories, sid) + [OK]]);
            var (_, req) := Prepare(cut, norm, st2, sid, STRAY, None, true);
            Delivered(norm, req, Section(Named("A"), STRAY))
            <==> Stored(sid, persists) && norm(["## A", "x"]) == norm(STRAY)
  {
    hide Prepare, Delivered, Stored, SplitSections, TextLen, Print;
    StrayHashesBreakTheRoundTrip();
    StrayIsShort();
    SecondCallDeliversExactlyWhen(cut, norm, sid, persists, STRAY, Section(Named("A"), STRAY));
    StrayReadsBack();
  }

  lemma StrayIsShort()
    ensures TextLen(Print([Section(Named("A"), STRAY)])) <= ABSURD_CHARS
    ensures Print([Section(Named("A"), STRAY)]) == [PREFIX] + STRAY
  {
    var s := Section(Named("A"), STRAY);
    assert [s][1..] == [];
    assert Glue([s], [""]) == STRAY + Rest([], [""]) == STRAY;
    FiveLines([PREFIX] + STRAY);
  }

  lemma FiveLines(t: Text)
    requires |t| == 5
    ensures TextLen(t) == |t[0]| + |t[1]| + |t[2]| + |t[3]| + |t[4]| + 4
  {
    var u := t[1..];
    var v := u[1..];
    var w := v[1..];
    assert TextLen(t) == |t[0]| + 1 + TextLen(u);
    assert TextLen(u) == |t[1]| + 1 + TextLen(v);
    assert TextLen(v) == |t[2]| + 1 + TextLen(w);
    assert TextLen(w) == |t[3]| + 1 + TextLen(w[1..]);
  }

  lemma StrayReadsBack()
    requires IsCheckpointText(Print([Section(Named("A"), STRAY)]))
    ensures ReadBack(Section(Named("A"), STRAY)) == Some(["## A", "x"])
  {
    hide AbsorbAll, ParseLines, Print, TrimText, HeadingName;
    StrayIsShort();
    PrefixedText(STRAY);
    StrayParts();
    var a, b := Section(Named("A"), ["## A", "x"]), Section(Preamble, ["##", "y"]);
    AbsorbNothing(NOTHING);
    AbsorbSnoc(NOTHING, [], a);
    AbsorbSnoc(NOTHING, [a], b);
    assert [] + [a] == [a] && [a] + [b] == [a, b];
  }

  lemma StrayParts()
    ensures ParseLines([""] + STRAY) == [Section(Named("A"), ["## A", "x"]), Section(Preamble, ["##", "y"])]
  {
    hide ParseLines, TrimText, HeadingName;
    var t := [""] + STRAY;
    PlainHeading();
    assert t[1..] == STRAY;
    NextCutIs(t, 1, 1);
    ParseSkip(t);
    NextCutIs(STRAY, 1, 2);
    PartSection(STRAY, 2, 0);
    TrimRemovesPadding([], ["## A", "x"], []);
    assert STRAY[..2] == [] + ["## A", "x"] + [] && [] + ["## A", "x"] + [] == ["## A", "x"];
    var u := ["##", "y"];
    assert STRAY[2..] == u;
    NextCutIs(u, 1, 2);
    PartSection(u, 2, 0);
    TrimRemovesPadding([], u, []);
    assert u[..2] == [] + u + [] && [] + u + [] == u && u[2..] == [];
    assert KeyOfLine("##") == Preamble;
    NothingParsed();
  }
}
