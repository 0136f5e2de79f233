/** Which words of a user reach the request. Adjacent user messages are merged into one, and a
    merged message goes when it reads as a prompt of the harness and a newer one comes along. */
module HumanText {
  import opened Prelude
  import opened Texts
  import opened Checkpoints
  import opened Sanitizer
  import opened Pipeline
  import opened ReplayKeeps

  // ------------------------------------------------------------------- the runs that are merged

  /** The kept messages, cut wherever two neighbours do not merge. */
  function Runs(kept: seq<Message>): (gs: seq<seq<Message>>)
    ensures gs == [] <==> kept == []
    ensures forall j :: 0 <= j < |gs| ==> gs[j] != []
  {
    if kept == [] then []
    else
      var n := |kept| - 1;
      var gs, m := Runs(kept[..n]), kept[n];
      Extended(gs, m, n > 0 && Mergeable(kept[n - 1], m))
  }

  /** The message a run is merged into. */
  function Combined(run: seq<Message>): Message
    requires run != []
  {
    if |run| == 1 then run[0] else Merged(Combined(run[..|run| - 1]), run[|run| - 1])
  }

  ghost predicate IsRun(run: seq<Message>) {
    run != [] && forall i :: 0 <= i < |run| - 1 ==> Mergeable(run[i], run[i + 1])
  }

  /** What a run reads as is decided by the first of its messages that is not blank. */
  function Heading(run: seq<Message>): Option<Message> {
    if run == [] then None
    else if Heading(run[..|run| - 1]).Some? then Heading(run[..|run| - 1])
    else if !AllBlank(run[|run| - 1].content) then Some(run[|run| - 1])
    else None
  }

  predicate HeadedByContinuation(run: seq<Message>) { Heading(run).Some? && IsContinuation(Heading(run).value) }

  predicate HeadedByLoopWarning(run: seq<Message>) { Heading(run).Some? && IsLoopWarning(Heading(run).value) }

  /** The run is headed by a prompt, and so is a later one, by a prompt of the same family. */
  ghost predicate Lost(gs: seq<seq<Message>>, j: nat)
    requires j < |gs|
  {
    || (HeadedByContinuation(gs[j]) && exists i :: j < i < |gs| && HeadedByContinuation(gs[i]))
    || (HeadedByLoopWarning(gs[j]) && exists i :: j < i < |gs| && HeadedByLoopWarning(gs[i]))
  }

  /** Some message holds the text, line for line. */
  ghost predicate Reaches(ms: seq<Message>, text: Text) {
    exists k :: 0 <= k < |ms| && Carries(ms[k].content, text)
  }

  /** Some message that is no prompt holds it. */
  ghost predicate ReachesAsSaid(ms: seq<Message>, text: Text) {
    exists k :: 0 <= k < |ms| && Carries(ms[k].content, text) && !Transient(ms[k])
  }

  ghost predicate InRuns(gs: seq<seq<Message>>, x: Message) { exists j :: 0 <= j < |gs| && x in gs[j] }

  function Extended(gs: seq<seq<Message>>, m: Message, joins: bool): seq<seq<Message>>
    requires joins ==> gs != []
  {
    if joins then gs[..|gs| - 1] + [gs[|gs| - 1] + [m]] else gs + [[m]]
  }

  // -------------------------------------------------------------------------- merging, by runs

  ghost predicate MergedByRuns(out: seq<Message>, gs: seq<seq<Message>>) {
    && |out| == |gs|
    && (forall j :: 0 <= j < |gs| ==> IsRun(gs[j]) && out[j] == Combined(gs[j]))
  }

  lemma CombinedOneMore(run: seq<Message>, m: Message)
    requires run != []
    ensures Combined(run + [m]) == Merged(Combined(run), m)
  {
    hide Merged;
    assert (run + [m])[..|run + [m]| - 1] == run;
  }

  lemma RunOneMore(run: seq<Message>, m: Message)
    requires IsRun(run) && Mergeable(run[|run| - 1], m)
    ensures IsRun(run + [m])
  {
    hide Mergeable;
    var all := run + [m];
    forall i | 0 <= i < |all| - 1
      ensures Mergeable(all[i], all[i + 1])
    {
      if i < |run| - 1 { assert all[i] == run[i] && all[i + 1] == run[i + 1]; }
    }
  }

  lemma LastOfMergeOnto(result: seq<Message>, m: Message)
    ensures var out := MergeOnto(result, m);
            && out != []
            && out[|out| - 1].role == m.role
            && Injected(out[|out| - 1].content) == Injected(m.content)
  {
  }

  lemma RunsOneMore(init: seq<Message>, m: Message)
    ensures init != [] ==> Runs(init) != []
    ensures Runs(init + [m]) == Extended(Runs(init), m, init != [] && Mergeable(init[|init| - 1], m))
  {
    hide Mergeable, Extended;
    var kept := init + [m];
    assert kept[..|kept| - 1] == init;
    assert init != [] ==> kept[|init| - 1] == init[|init| - 1];
  }

  /** The last message of the result and that of the input merge with the same ones. */
  ghost predicate SameEnd(out: seq<Message>, gs: seq<seq<Message>>, kept: seq<Message>) {
    (out == [] <==> kept == []) && (gs == [] <==> kept == [])
    && (kept != [] ==>
          && out[|out| - 1].role == kept[|kept| - 1].role
          && Injected(out[|out| - 1].content) == Injected(kept[|kept| - 1].content)
          && gs[|gs| - 1] != [] && gs[|gs| - 1][|gs[|gs| - 1]| - 1] == kept[|kept| - 1])
  }

  /** Merging is combining, run by run. */
  lemma {:induction false} MergeIsByRuns(kept: seq<Message>)
    ensures MergedByRuns(MergeFrom([], kept), Runs(kept))
    ensures SameEnd(MergeFrom([], kept), Runs(kept), kept)
  {
    hide *;
    if kept == [] {
      MergeNothing();
    } else {
      var init, m := kept[..|kept| - 1], kept[|kept| - 1];
      assert kept == init + [m];
      MergeIsByRuns(init);
      MergeFromSplits([], init, [m]);
      MergeOne(MergeFrom([], init), m);
      RunsOneMore(init, m);
      RunsStep(MergeFrom([], init), Runs(init), init, m);
    }
  }

  lemma {:induction false} RunsCover(kept: seq<Message>, x: Message)
    ensures x in kept <==> InRuns(Runs(kept), x)
  {
    hide InRuns, Runs, Mergeable;
    if kept == [] {
      NoRuns(x);
    } else {
      var init, m := kept[..|kept| - 1], kept[|kept| - 1];
      assert kept == init + [m];
      RunsCover(init, x);
      RunsOneMore(init, m);
      MembersStep(Runs(init), m, init != [] && Mergeable(init[|init| - 1], m), x);
    }
  }

  lemma NoRuns(x: Message)
    ensures !InRuns(Runs([]), x)
  {}

  lemma MergeNothing()
    ensures MergedByRuns(MergeFrom([], []), Runs([])) && SameEnd(MergeFrom([], []), Runs([]), [])
  {}

  lemma MergeOne(result: seq<Message>, m: Message)
    ensures MergeFrom(result, [m]) == MergeOnto(result, m)
  {
    assert [m][1..] == [];
  }

  lemma RunsStep(out: seq<Message>, gs: seq<seq<Message>>, init: seq<Message>, m: Message)
    requires MergedByRuns(out, gs) && SameEnd(out, gs, init)
    ensures var more := Extended(gs, m, init != [] && Mergeable(init[|init| - 1], m));
            MergedByRuns(MergeOnto(out, m), more) && SameEnd(MergeOnto(out, m), more, init + [m])
  {
    hide Injected, Merged, Combined, IsRun;
    SingleRun(m);
    LastOfMergeOnto(out, m);
    if init != [] && Mergeable(init[|init| - 1], m) {
      var k := |gs| - 1;
      assert IsRun(gs[k]) && out[k] == Combined(gs[k]);
      RunOneMore(gs[k], m);
      CombinedOneMore(gs[k], m);
    }
  }

  lemma SingleRun(m: Message)
    ensures IsRun([m]) && Combined([m]) == m
  {}

  lemma MembersStep(gs: seq<seq<Message>>, m: Message, joins: bool, x: Message)
    requires joins ==> gs != []
    ensures InRuns(Extended(gs, m, joins), x) <==> x == m || InRuns(gs, x)
  {
    var more := Extended(gs, m, joins);
    assert m in more[|more| - 1];
    if j :| 0 <= j < |gs| && x in gs[j] { assert x in more[j]; }
    if j :| 0 <= j < |more| && x in more[j] && x != m { assert j < |gs| && x in gs[j]; }
  }

  // -------------------------------------------------------------------- what a run reads as

  /** The first of two merged messages decides which family of prompts the result belongs to,
      unless it is blank. */
  lemma MergedFamily(prev: Message, m: Message)
    requires Mergeable(prev, m)
    ensures AllBlank(Merged(prev, m).content) <==> AllBlank(prev.content) && AllBlank(m.content)
    ensures var first := if AllBlank(prev.content) then m else prev;
            && (IsContinuation(Merged(prev, m)) <==> IsContinuation(first))
            && (IsLoopWarning(Merged(prev, m)) <==> IsLoopWarning(first))
  {
    hide IsContinuation, IsLoopWarning;
    TrimStartOfJoin(prev.content, m.content);
    TransientByStart(prev);
    TransientByStart(m);
    TransientByStart(Merged(prev, m));
    var t := Merged(prev, m).content;
    assert forall i :: 0 <= i < |prev.content| ==> t[i] == prev.content[i];
    assert forall i :: 0 <= i < |m.content| ==> t[|prev.content| + 1 + i] == m.content[i];
    assert Blank("");
  }

  lemma BlankIsNoPrompt(m: Message)
    requires AllBlank(m.content)
    ensures !IsContinuation(m) && !IsLoopWarning(m)
  {
    TrimStartKeepsEnd(m.content);
    TransientByStart(m);
  }

  /** The combined message belongs to a family of prompts exactly when the run's heading does. */
  lemma {:induction false} CombinedFamily(run: seq<Message>)
    requires IsRun(run)
    ensures AllBlank(Combined(run).content) <==> Heading(run).None?
    ensures IsContinuation(Combined(run)) <==> HeadedByContinuation(run)
    ensures IsLoopWarning(Combined(run)) <==> HeadedByLoopWarning(run)
    ensures |run| > 1 ==> Combined(run).role.User? && !Injected(Combined(run).content)
    ensures |run| == 1 ==> Combined(run) == run[0]
  {
    hide IsContinuation, IsLoopWarning, AllBlank, Injected;
    var n := |run| - 1;
    var init, m := run[..n], run[n];
    if n == 0 {
      if AllBlank(m.content) { BlankIsNoPrompt(m); }
      assert Heading(init).None?;
    } else {
      assert IsRun(init) by {
        assert forall i :: 0 <= i < n - 1 ==> Mergeable(run[i], run[i + 1]);
      }
      CombinedFamily(init);
      assert Mergeable(run[n - 1], run[n]);
      assert n > 1 ==> Mergeable(run[n - 2], run[n - 1]);
      assert Mergeable(Combined(init), m);
      MergedFamily(Combined(init), m);
      if AllBlank(m.content) { BlankIsNoPrompt(m); }
      MergedFirstLine(Combined(init), m);
    }
  }

  lemma MergedFirstLine(prev: Message, m: Message)
    requires Mergeable(prev, m)
    ensures Merged(prev, m).role.User? && !Injected(Merged(prev, m).content)
  {
  }

  lemma MergedCarries(prev: Message, m: Message, x: Text)
    ensures Carries(prev.content, x) ==> Carries(Merged(prev, m).content, x)
    ensures Carries(Merged(prev, m).content, m.content)
  {
    var t := Merged(prev, m).content;
    if Carries(prev.content, x) {
      var i: nat :| CarriesAt(prev.content, x, i);
      assert CarriesAt(t, x, i) by { assert t[i..i + |x|] == prev.content[i..i + |x|]; }
    }
    assert CarriesAt(t, m.content, |prev.content| + 1);
  }

  /** The words of every message of a run stand in what it is merged into. */
  lemma {:induction false} CombinedCarries(run: seq<Message>, x: Message)
    requires x in run
    ensures Carries(Combined(run).content, x.content)
  {
    hide Merged, Carries;
    var n := |run| - 1;
    var init, m := run[..n], run[n];
    if n == 0 {
      CarriesItself(m.content);
    } else {
      assert x in init || x == m;
      if x in init { CombinedCarries(init, x); }
      MergedCarries(Combined(init), m, x.content);
    }
  }

  lemma CarriesItself(t: Text)
    ensures Carries(t, t)
  {
    assert CarriesAt(t, t, 0);
  }

  // ------------------------------------------------------------------------- what dedupe keeps

  ghost predicate KeptCarries(ms: seq<Message>, i: int, text: Text) {
    0 <= i < |ms| && Carries(ms[i].content, text) && !Superseded(ms[i], ms[i + 1..])
  }

  lemma {:induction false} DedupeReaches(ms: seq<Message>, text: Text)
    ensures Reaches(Dedupe(ms), text) <==> exists i :: KeptCarries(ms, i, text)
  {
    hide Superseded, Carries;
    if ms != [] {
      var t := ms[1..];
      DedupeReaches(t, text);
      ReachesCons(ms[0], Dedupe(t), text);
      if i :| KeptCarries(t, i, text) {
        KeptShift(ms, i, text);
        assert KeptCarries(ms, i + 1, text);
      }
      if i :| KeptCarries(ms, i, text) {
        if i > 0 {
          KeptShift(ms, i - 1, text);
          assert KeptCarries(t, i - 1, text);
        }
      }
      assert KeptCarries(ms, 0, text) <==> Carries(ms[0].content, text) && !Superseded(ms[0], t);
    }
  }

  lemma KeptShift(ms: seq<Message>, i: nat, text: Text)
    requires i + 1 < |ms|
    ensures KeptCarries(ms[1..], i, text) <==> KeptCarries(ms, i + 1, text)
  {
    hide Superseded, Carries;
    assert ms[1..][i + 1..] == ms[i + 2..];
  }

  lemma ReachesCons(m: Message, rest: seq<Message>, text: Text)
    ensures Reaches([m] + rest, text) <==> Carries(m.content, text) || Reaches(rest, text)
  {
    hide Carries;
    var all := [m] + rest;
    assert all[0] == m && forall k :: 0 <= k < |rest| ==> all[k + 1] == rest[k];
    assert forall k :: 0 < k < |all| ==> all[k] == rest[k - 1];
  }

  lemma {:induction false} NotSupersededStays(ms: seq<Message>, i: nat)
    requires i < |ms| && !Superseded(ms[i], ms[i + 1..])
    ensures ms[i] in Dedupe(ms)
  {
    hide Superseded;
    if i > 0 {
      assert ms[1..][i - 1] == ms[i] && ms[1..][i..] == ms[i + 1..];
      NotSupersededStays(ms[1..], i - 1);
    }
  }

  lemma SupersededExactlyWhen(ms: seq<Message>, gs: seq<seq<Message>>, j: nat)
    requires MergedByRuns(ms, gs) && j < |gs|
    ensures Superseded(ms[j], ms[j + 1..]) <==> Lost(gs, j)
  {
    hide IsContinuation, IsLoopWarning, HeadedByContinuation, HeadedByLoopWarning, Combined, IsRun;
    forall i | 0 <= i < |gs|
      ensures IsContinuation(ms[i]) <==> HeadedByContinuation(gs[i])
      ensures IsLoopWarning(ms[i]) <==> HeadedByLoopWarning(gs[i])
    {
      CombinedFamily(gs[i]);
    }
    var later := ms[j + 1..];
    assert forall i :: 0 <= i < |later| ==> later[i] == ms[j + 1 + i];
    assert forall i :: j < i < |ms| ==> ms[i] == later[i - j - 1];
  }

  // --------------------------------------------------------------------- from history to request

  /** The runs the stored history is merged by. */
  function RunsOf(cut: Message -> Text, h: seq<Message>): seq<seq<Message>> {
    Runs(CompleteBlocks(Collapse(ShrinkAll(cut, h))))
  }

  ghost predicate RunCarries(gs: seq<seq<Message>>, j: int, text: Text) {
    0 <= j < |gs| && gs[j] != [] && Carries(Combined(gs[j]).content, text)
  }

  /** No run but the `j`-th has the text. */
  ghost predicate OnlyIn(gs: seq<seq<Message>>, j: int, text: Text) {
    forall i :: RunCarries(gs, i, text) ==> i == j
  }

  lemma RequestByRuns(cut: Message -> Text, h: seq<Message>)
    ensures var gs := RunsOf(cut, h);
            var ms := MergeFrom([], CompleteBlocks(Collapse(ShrinkAll(cut, h))));
            MergedByRuns(ms, gs) && Replay(cut, h) == Dedupe(ms)
  {
    hide *;
    var c := Collapse(ShrinkAll(cut, h));
    RunsOfIs(cut, h);
    MergeIsByRuns(CompleteBlocks(c));
    ReplayIs(cut, h);
    SanitizeIs(c);
  }

  lemma RunsOfIs(cut: Message -> Text, h: seq<Message>)
    ensures RunsOf(cut, h) == Runs(CompleteBlocks(Collapse(ShrinkAll(cut, h))))
  {}

  /** A text is in the request exactly when a run that has it is not lost. */
  lemma TextReachesExactlyWhen(cut: Message -> Text, h: seq<Message>, text: Text)
    ensures var gs := RunsOf(cut, h);
            Reaches(Replay(cut, h), text) <==> exists j :: RunCarries(gs, j, text) && !Lost(gs, j)
  {
    hide Replay, RunsOf, MergeFrom, CompleteBlocks, Collapse, ShrinkAll, Superseded, Lost, Carries, Combined, IsRun,
         Dedupe, Reaches;
    var gs := RunsOf(cut, h);
    var ms := MergeFrom([], CompleteBlocks(Collapse(ShrinkAll(cut, h))));
    RequestByRuns(cut, h);
    DedupeReaches(ms, text);
    forall j: nat | j < |gs|
      ensures KeptCarries(ms, j, text) <==> RunCarries(gs, j, text) && !Lost(gs, j)
    {
      assert IsRun(gs[j]);
      RunIsNotEmpty(gs[j]);
      SupersededExactlyWhen(ms, gs, j);
    }
    assert forall i :: KeptCarries(ms, i, text) ==> RunCarries(gs, i, text) && !Lost(gs, i);
  }

  lemma RunIsNotEmpty(run: seq<Message>)
    requires IsRun(run)
    ensures run != []
  {}

  lemma {:induction false} DropKeeps(ms: seq<Message>, x: Message)
    ensures x in DropCheckpoints(ms) <==> x in ms && !IsCheckpoint(x)
  {
    hide IsCheckpoint;
    if ms != [] {
      DropKeeps(ms[..|ms| - 1], x);
      assert ms == ms[..|ms| - 1] + [ms[|ms| - 1]];
    }
  }

  /** A user message that is no checkpoint, and not so large that it is cut, is in one of the
      runs. */
  lemma HumanMessageIsInARun(cut: Message -> Text, h: seq<Message>, x: Message)
    requires x in h && x.role.User? && TextLen(x.content) <= 200_000 && !IsCheckpoint(x)
    ensures InRuns(RunsOf(cut, h), x)
  {
    hide CompleteBlocks, Collapse, Runs, IsCheckpoint, DropCheckpoints, TextLen, InRuns;
    var s := ShrinkAll(cut, h);
    var i :| 0 <= i < |h| && h[i] == x;
    assert s[i] == x;
    DropKeeps(s, x);
    CollapseIsLossless(s);
    DropKeeps(Collapse(s), x);
    CompleteBlocksOnly(Collapse(s));
    UserIsPlain(x);
    RunsCover(CompleteBlocks(Collapse(s)), x);
  }

  lemma UserIsPlain(x: Message)
    requires x.role.User?
    ensures Plain(x)
  {}

  /** The words of a user message are in the request as long as its run is not lost, and in a
      message that is no prompt as long as its run is not headed by one; and when no other run
      repeats the words, they are in the request exactly when the run is not lost. */
  lemma HumanTextReachesTheRequest(cut: Message -> Text, h: seq<Message>, x: Message, j: nat)
    requires j < |RunsOf(cut, h)| && x in RunsOf(cut, h)[j]
    ensures var gs := RunsOf(cut, h);
            && (!Lost(gs, j) ==> Reaches(Replay(cut, h), x.content))
            && (!HeadedByContinuation(gs[j]) && !HeadedByLoopWarning(gs[j]) ==>
                  !Lost(gs, j) && ReachesAsSaid(Replay(cut, h), x.content))
            && (OnlyIn(gs, j, x.content) ==> (Reaches(Replay(cut, h), x.content) <==> !Lost(gs, j)))
  {
    hide Replay, RunsOf, MergeFrom, CompleteBlocks, Collapse, ShrinkAll, Superseded, Carries, Combined, IsRun,
         Dedupe, Reaches, HeadedByContinuation, HeadedByLoopWarning, IsContinuation, IsLoopWarning;
    var gs := RunsOf(cut, h);
    var ms := MergeFrom([], CompleteBlocks(Collapse(ShrinkAll(cut, h))));
    TextReachesExactlyWhen(cut, h, x.content);
    CombinedCarries(gs[j], x);
    assert RunCarries(gs, j, x.content);
    if !HeadedByContinuation(gs[j]) && !HeadedByLoopWarning(gs[j]) {
      RequestByRuns(cut, h);
      SupersededExactlyWhen(ms, gs, j);
      CombinedFamily(gs[j]);
      NotSupersededStays(ms, j);
    }
  }

  /** Where a prompt is followed at once by human text the two are merged, and the next
      prompt of the family takes the human's words away with it. */
  lemma HumanTextLostBehindAPrompt()
    ensures var prompt := Message(User, [CONTINUE], [], None);
            var human := Message(User, ["please stop"], [], None);
            var reply := Message(Assistant, ["ok"], [], None);
            var ms := [prompt, human, reply, prompt];
            && human in ms && Dedupe(Sanitize(ms)) == [reply, prompt]
            && !Reaches(Dedupe(Sanitize(ms)), human.content)
  {
    var prompt := Message(User, [CONTINUE], [], None);
    var human := Message(User, ["please stop"], [], None);
    var reply := Message(Assistant, ["ok"], [], None);
    var ms := [prompt, human, reply, prompt];
    hide *;
    var both := Merged(prompt, human);
    PromptFacts(prompt);
    HumanFacts(human);
    PlainAndMergeable(prompt, human, reply);
    ContinuationSurvivesMerge(prompt, human);
    PlainAreKept(prompt, human, reply);
    FourMerged(prompt, human, reply);
    SanitizeIs(ms);
    OneIsDropped(both, reply, prompt);
    NobodyCarries(prompt, reply, human);
  }

  lemma PromptFacts(prompt: Message)
    requires prompt == Message(User, [CONTINUE], [], None)
    ensures IsContinuation(prompt) && Transient(prompt) && !Injected(prompt.content) && !AllBlank(prompt.content)
  {
    OneLine(CONTINUE);
    TransientByStart(prompt);
    assert CONTINUE[0] == '[' && CONTINUE[1] == 'C' && CONTINUE[4] == 't';
    assert "[SYSTEM]"[1] == 'S' && "[Conversation history summary"[4] == 'v';
  }

  lemma HumanFacts(human: Message)
    requires human == Message(User, ["please stop"], [], None)
    ensures !Injected(human.content)
  {
    assert "please stop"[0] == 'p';
  }

  lemma PlainAndMergeable(a: Message, b: Message, c: Message)
    requires a.role.User? && b.role.User? && c == Message(Assistant, ["ok"], [], None)
    ensures Plain(a) && Plain(b) && Plain(c)
    ensures !Injected(a.content) && !Injected(b.content) ==> Mergeable(a, b)
  {}

  lemma ContinuationSurvivesMerge(prev: Message, m: Message)
    requires IsContinuation(prev) && !AllBlank(prev.content)
    ensures IsContinuation(Merged(prev, m))
  {
    hide IsContinuation;
    TrimStartOfJoin(prev.content, m.content);
    TransientByStart(prev);
    TransientByStart(Merged(prev, m));
  }

  lemma OneLine(s: string)
    requires s != "" && !IsSpace(s[0])
    ensures TrimTextStart([s]) == [s] && !AllBlank([s])
  {
  }

  lemma PlainAreKept(a: Message, b: Message, c: Message)
    requires Plain(a) && Plain(b) && Plain(c)
    ensures CompleteBlocks([a, b, c, a]) == [a, b, c, a]
  {
    assert [a, b, c, a][1..] == [b, c, a] && [b, c, a][1..] == [c, a] && [c, a][1..] == [a] && [a][1..] == [];
    assert CompleteBlocks([a]) == [a];
    assert CompleteBlocks([c, a]) == [c, a];
    assert CompleteBlocks([b, c, a]) == [b, c, a];
  }

  lemma FourMerged(a: Message, b: Message, c: Message)
    requires Mergeable(a, b) && c.role.Assistant?
    ensures MergeFrom([], [a, b, c, a]) == [Merged(a, b), c, a]
  {
    hide Merged, MergeFrom;
    var m := Merged(a, b);
    assert [a] + [b, c, a] == [a, b, c, a] && [b] + [c, a] == [b, c, a] && [c] + [a] == [c, a] && [a] + [] == [a];
    MergeNext([], a, [b, c, a]);
    MergeNext([a], b, [c, a]);
    MergeNext([m], c, [a]);
    MergeNext([m, c], a, []);
    MergeNext([m, c, a], a, []);
    assert MergeOnto([], a) == [a] && MergeOnto([a], b) == [m];
    assert MergeOnto([m], c) == [m, c] && MergeOnto([m, c], a) == [m, c, a];
  }

  lemma MergeNext(result: seq<Message>, m: Message, rest: seq<Message>)
    ensures MergeFrom(result, [m] + rest) == MergeFrom(MergeOnto(result, m), rest)
    ensures MergeFrom(result, []) == result
  {
    hide MergeOnto;
    assert ([m] + rest)[1..] == rest;
  }

  lemma OneIsDropped(m: Message, c: Message, a: Message)
    requires IsContinuation(m) && IsContinuation(a) && c.role.Assistant?
    ensures Dedupe([m, c, a]) == [c, a]
  {
    hide TrimText;
    Exclusive();
    DedupeCons(a, []);
    DedupeCons(c, [a]);
    DedupeCons(m, [c, a]);
    assert IsContinuation([c, a][1]);
    assert [a] + [] == [a] && [c] + [a] == [c, a] && [m] + [c, a] == [m, c, a];
  }

  lemma DedupeCons(m: Message, rest: seq<Message>)
    ensures Dedupe([m] + rest) == (if Superseded(m, rest) then [] else [m]) + Dedupe(rest)
  {
  }

  lemma NobodyCarries(prompt: Message, reply: Message, human: Message)
    requires human.content == ["please stop"] && prompt.content == [CONTINUE] && reply.content == ["ok"]
    ensures !Reaches([reply, prompt], human.content)
  {
    assert CONTINUE[0] == '[' && "please stop"[0] == 'p' && |"ok"| == 2;
    assert forall t: Text, i: nat :: |t| == 1 && CarriesAt(t, human.content, i) ==> t == t[i..i + 1] == human.content;
  }
}
