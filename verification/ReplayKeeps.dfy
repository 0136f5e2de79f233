/** What the four stages never lose: the newest state of every section, and human text. */
module ReplayKeeps {
  import opened Prelude
  import opened Texts
  import opened Sections
  import opened Checkpoints
  import CollapseView
  import opened Sanitizer
  import opened Pipeline

  // ------------------------------------------------------------------ the checkpoints alone

  function OnlyCheckpoints(ms: seq<Message>): seq<Message> {
    if ms == [] then []
    else
      var r, m := OnlyCheckpoints(ms[..|ms| - 1]), ms[|ms| - 1];
      if IsCheckpoint(m) then r + [m] else r
  }

  lemma {:induction false} OnlySplit(a: seq<Message>, b: seq<Message>)
    ensures OnlyCheckpoints(a + b) == OnlyCheckpoints(a) + OnlyCheckpoints(b)
  {
    hide IsCheckpoint;
    if b == [] {
      assert a + b == a;
    } else {
      assert (a + b)[..|a + b| - 1] == a + b[..|b| - 1];
      OnlySplit(a, b[..|b| - 1]);
    }
  }

  lemma {:induction false} OnlyNone(ms: seq<Message>)
    requires NoCheckpoints(ms)
    ensures OnlyCheckpoints(ms) == []
  {
    hide IsCheckpoint;
    if ms != [] { OnlyNone(ms[..|ms| - 1]); }
  }

  lemma OnlyOne(m: Message)
    ensures OnlyCheckpoints([m]) == if IsCheckpoint(m) then [m] else []
  {
  }

  /** The view and the number of checkpoints depend on the checkpoints alone. */
  lemma {:induction false} ViewOfOnly(ms: seq<Message>)
    ensures NewestView(OnlyCheckpoints(ms)) == NewestView(ms)
    ensures |Indices(ms)| == |OnlyCheckpoints(ms)|
  {
    hide Sections.IsCheckpointText, AbsorbAll, Sections.ParseCheckpoint;
    if ms != [] {
      ViewOfOnly(ms[..|ms| - 1]);
      var r, m := OnlyCheckpoints(ms[..|ms| - 1]), ms[|ms| - 1];
      if IsCheckpoint(m) { assert (r + [m])[..|r|] == r; }
    }
  }

  // --------------------------------------------------------------- sanitizing keeps them all

  /** A checkpoint as the engine writes it starts with the marker, without blanks before it. */
  predicate Marked(m: Message) { IsCheckpoint(m) ==> Injected(m.content) }

  ghost predicate AllMarked(ms: seq<Message>) {
    forall i :: 0 <= i < |ms| ==> Marked(ms[i])
  }

  lemma {:induction false} TrimStartOfJoin(a: Text, b: Text)
    ensures AllBlank(a) ==> TrimTextStart(a + [""] + b) == TrimTextStart(b)
    ensures !AllBlank(a) ==> TrimTextStart(a + [""] + b)[0] == TrimTextStart(a)[0]
  {
    if AllBlank(a) {
      TrimStartSkipsBlank(a + [""], b);
    } else if Blank(a[0]) {
      assert !AllBlank(a[1..]) by {
        assert forall i :: 1 <= i < |a| ==> a[i] == a[1..][i - 1];
      }
      assert a + [""] + b == [a[0]] + (a[1..] + [""] + b);
      assert (a + [""] + b)[1..] == a[1..] + [""] + b;
      TrimStartOfJoin(a[1..], b);
    }
  }

  lemma MergedIsNoCheckpoint(prev: Message, m: Message)
    requires Mergeable(prev, m) && Marked(prev) && Marked(m)
    ensures !IsCheckpoint(prev) && !IsCheckpoint(m) && !IsCheckpoint(Merged(prev, m))
  {
    TrimStartOfJoin(prev.content, m.content);
  }

  lemma MergeOntoOnly(result: seq<Message>, m: Message)
    requires AllMarked(result) && Marked(m)
    ensures OnlyCheckpoints(MergeOnto(result, m)) == OnlyCheckpoints(result) + OnlyCheckpoints([m])
    ensures AllMarked(MergeOnto(result, m))
  {
    hide IsCheckpoint, Injected, Merged, OnlyCheckpoints;
    if result != [] && Mergeable(result[|result| - 1], m) {
      var front, last := result[..|result| - 1], result[|result| - 1];
      assert Marked(last);
      MergedIsNoCheckpoint(last, m);
      assert result == front + [last];
      OnlySplit(front, [last]);
      OnlySplit(front, [Merged(last, m)]);
      OnlyOne(last);
      OnlyOne(m);
      OnlyOne(Merged(last, m));
    } else {
      OnlySplit(result, [m]);
    }
  }

  lemma {:induction false} MergeFromOnly(result: seq<Message>, kept: seq<Message>)
    requires AllMarked(result) && AllMarked(kept)
    ensures OnlyCheckpoints(MergeFrom(result, kept)) == OnlyCheckpoints(result) + OnlyCheckpoints(kept)
    decreases |kept|
  {
    hide OnlyCheckpoints, MergeOnto, Marked;
    if kept == [] {
      OnlyNone([]);
    } else {
      MergeOntoOnly(result, kept[0]);
      MergeFromOnly(MergeOnto(result, kept[0]), kept[1..]);
      assert kept == [kept[0]] + kept[1..];
      OnlySplit([kept[0]], kept[1..]);
    }
  }

  lemma CallersAndToolsAreNoCheckpoints(ms: seq<Message>)
    requires forall i :: 0 <= i < |ms| ==> !ms[i].role.User?
    ensures NoCheckpoints(ms)
  {}

  lemma {:induction false} CompleteBlocksOnly(ms: seq<Message>)
    ensures OnlyCheckpoints(CompleteBlocks(ms)) == OnlyCheckpoints(ms)
    ensures forall m :: m in CompleteBlocks(ms) ==> m in ms
    ensures forall m :: m in ms && Plain(m) ==> m in CompleteBlocks(ms)
    decreases |ms|
  {
    hide OnlyCheckpoints, CompleteBlocks, Unanswered, Results, CallIds;
    if ms == [] {
      NoBlocks();
    } else if IsCaller(ms[0]) {
      CallerCase(ms);
      var n := ToolRun(ms[1..]);
      var run := ms[1..1 + n];
      assert ms == [ms[0]] + run + ms[1 + n..];
      OnlySplit([ms[0]] + run, ms[1 + n..]);
      CallersAndToolsAreNoCheckpoints([ms[0]] + run);
      OnlyNone([ms[0]] + run);
      var rs := Results(CallIds(ms[0]), run);
      ResultsAreTools(CallIds(ms[0]), run);
      ResultsFromRun(CallIds(ms[0]), run);
      OnlySplit([ms[0]] + rs, CompleteBlocks(ms[1 + n..]));
      CallersAndToolsAreNoCheckpoints([ms[0]] + rs);
      OnlyNone([ms[0]] + rs);
      CompleteBlocksOnly(ms[1 + n..]);
      assert [] + CompleteBlocks(ms[1 + n..]) == CompleteBlocks(ms[1 + n..]);
    } else {
      OtherCase(ms);
      CompleteBlocksOnly(ms[1..]);
      assert ms == [ms[0]] + ms[1..];
      OnlySplit([ms[0]], ms[1..]);
      OnlySplit([ms[0]], CompleteBlocks(ms[1..]));
      OnlyOne(ms[0]);
      assert [] + CompleteBlocks(ms[1..]) == CompleteBlocks(ms[1..]);
    }
  }

  lemma {:induction false} ResultsFromRun(missing: set<string>, run: seq<Message>)
    ensures forall m :: m in Results(missing, run) ==> m in run
  {
    if run != [] {
      ResultsFromRun(if Answers(run[0], missing) then missing - {AnswerId(run[0]).value} else missing, run[1..]);
    }
  }

  lemma SanitizeOnly(ms: seq<Message>)
    requires AllMarked(ms)
    ensures OnlyCheckpoints(Sanitize(ms)) == OnlyCheckpoints(ms)
  {
    hide CompleteBlocks, MergeFrom, Marked, OnlyCheckpoints;
    CompleteBlocksOnly(ms);
    var kept := CompleteBlocks(ms);
    assert forall i :: 0 <= i < |kept| ==> kept[i] in ms;
    MergeFromOnly([], kept);
    OnlyNone([]);
  }

  // ---------------------------------------------------------------- deduping keeps them all

  /** A prefix that does not end in a blank is found with or without trimming at the end. */
  lemma TrimmedStart(t: Text, p: string)
    requires p != "" && !IsSpace(p[|p| - 1])
    ensures StartsWith(TrimText(t)[0], p) <==> StartsWith(TrimTextStart(t)[0], p)
  {
    TrimStartKeepsEnd(t);
    var u := TrimTextStart(t);
    if !AllBlank(t) {
      assert !AllBlank(u) by { assert !Blank(u[0]); }
      TrimEndKeepsStart(u);
      var r := TrimTextEnd(u);
      if |r| > 1 {
        assert r[0] == r[..|r| - 1][0] == u[..|r| - 1][0];
      } else {
        TrimOneLine(u);
        PrefixOfTrimEnd(u[0], p);
      }
    }
  }

  lemma {:induction false} PrefixOfTrimEnd(s: string, p: string)
    requires p != "" && !IsSpace(p[|p| - 1])
    ensures StartsWith(TrimEnd(s), p) <==> StartsWith(s, p)
  {
    if s != "" && IsSpace(s[|s| - 1]) {
      PrefixOfTrimEnd(s[..|s| - 1], p);
      assert p[|p| - 1] != s[|s| - 1];
    }
  }

  const CONTINUE := "[Continue from where you left off"
  const LOOP := "[SYSTEM] Loop detected:"

  lemma TransientByStart(m: Message)
    ensures IsContinuation(m) <==> m.role.User? && StartsWith(TrimTextStart(m.content)[0], CONTINUE)
    ensures IsLoopWarning(m) <==> m.role.User? && StartsWith(TrimTextStart(m.content)[0], LOOP)
  {
    var s := TrimTextStart(m.content)[0];
    TrimmedStart(m.content, CONTINUE);
    TrimmedStart(m.content, LOOP);
    assert StartsWith(s, LOOP) ==> s[1] == LOOP[1] == 'S';
    assert StartsWith(s, CONTINUE) ==> s[1] == CONTINUE[1] == 'C';
  }

  lemma CheckpointIsNotTransient(m: Message)
    requires IsCheckpoint(m)
    ensures !Transient(m)
  {
    hide IsContinuation, IsLoopWarning, TrimTextStart, StartsWith;
    TransientByStart(m);
    DifferentStarts(TrimTextStart(m.content)[0]);
  }

  lemma DifferentStarts(s: string)
    requires StartsWith(s, PREFIX)
    ensures !StartsWith(s, CONTINUE) && !StartsWith(s, LOOP)
  {
    assert s[1] == PREFIX[1] == 'S' && s[9] == PREFIX[9] == '[';
    assert CONTINUE[1] == 'C' && LOOP[9] == 'L';
  }

  lemma {:induction false} DedupeOnly(ms: seq<Message>)
    ensures OnlyCheckpoints(Dedupe(ms)) == OnlyCheckpoints(ms)
  {
    hide IsCheckpoint, OnlyCheckpoints, IsContinuation, IsLoopWarning;
    if ms != [] {
      DedupeOnly(ms[1..]);
      assert ms == [ms[0]] + ms[1..];
      OnlySplit([ms[0]], ms[1..]);
      OnlySplit([ms[0]], Dedupe(ms[1..]));
      OnlyOne(ms[0]);
      if IsCheckpoint(ms[0]) { CheckpointIsNotTransient(ms[0]); }
    }
  }

  /** The stages behind the collapse leave its checkpoint as it is. */
  lemma ReplayedView(cut: Message -> Text, h: seq<Message>)
    requires AllMarked(ShrinkAll(cut, h))
    ensures NewestView(Replay(cut, h)) == NewestView(Collapse(ShrinkAll(cut, h)))
    ensures |Indices(Replay(cut, h))| <= 1
  {
    hide *;
    var s := ShrinkAll(cut, h);
    var c := Collapse(s);
    CollapseIsLossless(s);
    CollapseMarked(s);
    SanitizeOnly(c);
    DedupeOnly(Sanitize(c));
    ReplayIs(cut, h);
    ViewOfOnly(c);
    ViewOfOnly(Replay(cut, h));
  }

  /** The request says about the agent's state what the stored history says, in at most one
      checkpoint, exactly when that checkpoint needs no rewriting or the newest bodies are legible
      side by side. */
  lemma ReplayKeepsTheViewExactlyWhen(cut: Message -> Text, h: seq<Message>)
    requires AllMarked(ShrinkAll(cut, h))
    ensures var s := ShrinkAll(cut, h);
            NewestView(Replay(cut, h)) == NewestView(s) <==> |Indices(s)| < 2 || Legible(Listing(NewestView(s)))
    ensures |Indices(Replay(cut, h))| <= 1
  {
    hide *;
    ReplayedView(cut, h);
    CollapseView.CollapseKeepsTheViewExactlyWhen(ShrinkAll(cut, h));
  }

  lemma RobustReplayKeepsTheView(cut: Message -> Text, h: seq<Message>)
    requires AllMarked(ShrinkAll(cut, h)) && RobustHistory(ShrinkAll(cut, h))
    ensures NewestView(Replay(cut, h)) == NewestView(ShrinkAll(cut, h))
    ensures |Indices(Replay(cut, h))| <= 1
  {
    hide *;
    ReplayKeepsTheViewExactlyWhen(cut, h);
    RobustHistoryIsLegible(ShrinkAll(cut, h));
  }

  lemma CollapseMarked(s: seq<Message>)
    requires AllMarked(s)
    ensures AllMarked(Collapse(s))
  {
    hide IsCheckpoint, Render, NewestView;
    if |Indices(s)| >= 2 {
      var a, kept, b := CollapseShape(s);
      RenderIsInjected(NewestView(s));
      var out := Collapse(s);
      forall i | 0 <= i < |out|
        ensures Marked(out[i])
      {
        if i < |a| {
          assert out[i] == a[i];
        } else if i == |a| {
          assert out[i] == kept;
        } else {
          assert out[i] == b[i - |a| - 1];
        }
      }
    }
  }

  lemma RenderIsInjected(v: View)
    ensures Injected(Render(v))
  {
  }

  lemma SanitizeIs(ms: seq<Message>)
    ensures Sanitize(ms) == MergeFrom([], CompleteBlocks(ms))
  {}
}
