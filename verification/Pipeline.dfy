/** Transient harness prompts, and the four stages that turn stored history into a request. */
module Pipeline {
  import opened Prelude
  import opened Texts
  import opened Checkpoints
  import opened Sanitizer

  predicate IsContinuation(m: Message) {
    m.role.User? && StartsWith(TrimText(m.content)[0], "[Continue from where you left off")
  }

  predicate IsLoopWarning(m: Message) {
    && m.role.User? && !IsContinuation(m)
    && StartsWith(TrimText(m.content)[0], "[SYSTEM] Loop detected:")
  }

  predicate Transient(m: Message) { IsContinuation(m) || IsLoopWarning(m) }

  /** A later message of the same family makes this one redundant. */
  predicate Superseded(m: Message, later: seq<Message>) {
    || (IsContinuation(m) && exists i :: 0 <= i < |later| && IsContinuation(later[i]))
    || (IsLoopWarning(m) && exists i :: 0 <= i < |later| && IsLoopWarning(later[i]))
  }

  /** Only the newest prompt of each transient family stays. */
  function Dedupe(ms: seq<Message>): seq<Message> {
    if ms == [] then []
    else if Superseded(ms[0], ms[1..]) then Dedupe(ms[1..])
    else [ms[0]] + Dedupe(ms[1..])
  }

  /** The engine's two passes: find the last prompt of each family, then filter. */
  method DedupeTransientPrompts(messages: seq<Message>) returns (out: seq<Message>)
    ensures out == Dedupe(messages)
  {
    hide IsContinuation, IsLoopWarning;
    Exclusive();
    var lastContinuation, lastLoopWarn := -1, -1;
    for i := 0 to |messages|
      invariant -1 <= lastContinuation < i && -1 <= lastLoopWarn < i
      invariant lastContinuation >= 0 ==> IsContinuation(messages[lastContinuation])
      invariant lastLoopWarn >= 0 ==> IsLoopWarning(messages[lastLoopWarn])
      invariant forall j :: lastContinuation < j < i ==> !IsContinuation(messages[j])
      invariant forall j :: lastLoopWarn < j < i ==> !IsLoopWarning(messages[j])
    {
      if IsContinuation(messages[i]) {
        lastContinuation := i;
      } else if IsLoopWarning(messages[i]) {
        lastLoopWarn := i;
      }
    }
    if lastContinuation < 0 && lastLoopWarn < 0 {
      NothingSuperseded(messages);
      return messages;
    }
    out := FilterTransientPrompts(messages, lastContinuation, lastLoopWarn);
  }

  /** The second pass keeps the last prompt of each family and everything that is no prompt. */
  method FilterTransientPrompts(messages: seq<Message>, lastContinuation: int, lastLoopWarn: int)
    returns (out: seq<Message>)
    requires -1 <= lastContinuation < |messages| && -1 <= lastLoopWarn < |messages|
    requires lastContinuation >= 0 ==> IsContinuation(messages[lastContinuation])
    requires lastLoopWarn >= 0 ==> IsLoopWarning(messages[lastLoopWarn])
    requires forall j :: lastContinuation < j < |messages| ==> !IsContinuation(messages[j])
    requires forall j :: lastLoopWarn < j < |messages| ==> !IsLoopWarning(messages[j])
    ensures out == Dedupe(messages)
  {
    hide *;
    Exclusive();
    out := [];
    assert messages[0..] == messages;
    for i := 0 to |messages|
      invariant out + Dedupe(messages[i..]) == Dedupe(messages)
    {
      var m := messages[i];
      LastMeansNotSuperseded(messages, i, lastContinuation, lastLoopWarn);
      TransientIs(m);
      DedupeStep(messages, i);
      if IsContinuation(m) {
        if i == lastContinuation { out := out + [m]; }
      } else if IsLoopWarning(m) {
        if i == lastLoopWarn { out := out + [m]; }
      } else {
        out := out + [m];
      }
    }
    NothingDeduped(messages);
  }

  lemma NothingDeduped(ms: seq<Message>)
    ensures Dedupe(ms[|ms|..]) == []
  {}

  lemma TransientIs(m: Message)
    ensures Transient(m) <==> IsContinuation(m) || IsLoopWarning(m)
  {}

  lemma DedupeStep(ms: seq<Message>, i: nat)
    requires i < |ms|
    ensures Dedupe(ms[i..]) == (if Superseded(ms[i], ms[i + 1..]) then [] else [ms[i]]) + Dedupe(ms[i + 1..])
  {
    hide Superseded;
    assert ms[i..][1..] == ms[i + 1..];
  }

  lemma Exclusive()
    ensures forall m :: !(IsContinuation(m) && IsLoopWarning(m))
  {}

  lemma LastMeansNotSuperseded(ms: seq<Message>, i: nat, lastC: int, lastW: int)
    requires i < |ms| && -1 <= lastC < |ms| && -1 <= lastW < |ms|
    requires lastC >= 0 ==> IsContinuation(ms[lastC])
    requires lastW >= 0 ==> IsLoopWarning(ms[lastW])
    requires forall j :: lastC < j < |ms| ==> !IsContinuation(ms[j])
    requires forall j :: lastW < j < |ms| ==> !IsLoopWarning(ms[j])
    ensures IsContinuation(ms[i]) ==> (Superseded(ms[i], ms[i + 1..]) <==> i != lastC)
    ensures IsLoopWarning(ms[i]) ==> (Superseded(ms[i], ms[i + 1..]) <==> i != lastW)
    ensures !Transient(ms[i]) ==> !Superseded(ms[i], ms[i + 1..])
  {
    Exclusive();
    hide IsContinuation, IsLoopWarning;
    var later := ms[i + 1..];
    assert forall j :: 0 <= j < |later| ==> later[j] == ms[i + 1 + j];
    if IsContinuation(ms[i]) && i != lastC { assert later[lastC - i - 1] == ms[lastC]; }
    if IsLoopWarning(ms[i]) && i != lastW { assert later[lastW - i - 1] == ms[lastW]; }
  }

  ghost predicate NoTransients(ms: seq<Message>) {
    forall i :: 0 <= i < |ms| ==> !Transient(ms[i])
  }

  lemma {:induction false} NothingSuperseded(ms: seq<Message>)
    requires forall i :: 0 <= i < |ms| ==> !IsContinuation(ms[i]) && !IsLoopWarning(ms[i])
    ensures Dedupe(ms) == ms
  {
    hide IsContinuation, IsLoopWarning;
    if ms != [] { NothingSuperseded(ms[1..]); }
  }

  /** Messages without prompts pass through and make nothing before them redundant. */
  lemma {:induction false} DedupeAppends(a: seq<Message>, b: seq<Message>)
    requires NoTransients(b)
    ensures Dedupe(a + b) == Dedupe(a) + b
  {
    hide IsContinuation, IsLoopWarning;
    if a == [] {
      assert a + b == b;
      NothingSuperseded(b);
    } else {
      assert (a + b)[1..] == a[1..] + b;
      DedupeAppends(a[1..], b);
      var later := a[1..] + b;
      assert forall i :: |a[1..]| <= i < |later| ==> later[i] == b[i - |a[1..]|];
      assert forall i :: 0 <= i < |a[1..]| ==> later[i] == a[1..][i];
      assert Superseded(a[0], later) <==> Superseded(a[0], a[1..]);
    }
  }

  // -------------------------------------------------------------------------- the pipeline

  const ABSURD_CHARS := 200_000

  /** A message above the cap has its content replaced by `cut`; the rest pass unchanged. */
  function Shrink(cut: Message -> Text, m: Message): Message {
    if TextLen(m.content) <= ABSURD_CHARS then m else m.(content := cut(m))
  }

  function ShrinkAll(cut: Message -> Text, ms: seq<Message>): (r: seq<Message>)
    ensures |r| == |ms|
    ensures forall i :: 0 <= i < |ms| ==> r[i] == Shrink(cut, ms[i])
  {
    seq(|ms|, i requires 0 <= i < |ms| => Shrink(cut, ms[i]))
  }

  /** Stage 1: shrink, collapse, sanitize, dedupe. */
  function Replay(cut: Message -> Text, history: seq<Message>): seq<Message> {
    Dedupe(Sanitize(Collapse(ShrinkAll(cut, history))))
  }

  method ReplayHistory(cut: Message -> Text, history: seq<Message>) returns (messages: seq<Message>)
    ensures messages == Replay(cut, history)
  {
    messages := [];
    for i := 0 to |history|
      invariant messages == ShrinkAll(cut, history)[..i]
    {
      messages := messages + [Shrink(cut, history[i])];
    }
    assert messages == ShrinkAll(cut, history);
    messages := CollapseStateCheckpoints(messages);
    messages := SanitizeMessageSequence(messages);
    messages := DedupeTransientPrompts(messages);
  }

  /** What a tool loop adds: whole blocks and replies, in final form. */
  ghost predicate LoopDelta(g: seq<Message>) {
    && WellBlocked(g) && NothingToMerge(g)
    && (g != [] ==> g[0].role.Assistant?)
    && NoCheckpoints(g) && NoTransients(g)
    && (forall i :: 0 <= i < |g| ==> TextLen(g[i].content) <= ABSURD_CHARS)
  }

  lemma CollapseAppends(a: seq<Message>, b: seq<Message>)
    requires NoCheckpoints(b)
    ensures Collapse(a + b) == Collapse(a) + b
  {
    hide *;
    NoIndices(b);
    IndicesSplit(a, b);
    CollapseCases(a);
    CollapseCases(a + b);
    if |Indices(a)| >= 2 {
      ViewSkips(a, b);
      RebuiltIs(a, Render(NewestView(a)));
      RebuiltIs(a + b, Render(NewestView(a)));
      var last := Indices(a)[|Indices(a)| - 1];
      assert (a + b)[..last] == a[..last];
      assert (a + b)[last + 1..] == a[last + 1..] + b;
    }
  }

  lemma {:induction false} CompleteBlocksAppends(a: seq<Message>, b: seq<Message>)
    requires b != [] ==> !b[0].role.Tool?
    ensures CompleteBlocks(a + b) == CompleteBlocks(a) + CompleteBlocks(b)
    decreases |a|
  {
    hide *;
    if a == [] {
      NoBlocks();
      assert a + b == b;
    } else if IsCaller(a[0]) {
      var n := ToolRun(a[1..]);
      SameRun(a[1..], b);
      CompleteBlocksAppends(a[1 + n..], b);
      CallerCase(a);
      CallerCase(a + b);
      SlicesOfSum(a, b, n);
    } else {
      CompleteBlocksAppends(a[1..], b);
      OtherCase(a);
      OtherCase(a + b);
      SlicesOfSum(a, b, 0);
    }
  }

  lemma SlicesOfSum(a: seq<Message>, b: seq<Message>, n: nat)
    requires 1 + n <= |a|
    ensures (a + b)[0] == a[0] && (a + b)[1..] == a[1..] + b
    ensures (a + b)[1..1 + n] == a[1..1 + n] && (a + b)[1 + n..] == a[1 + n..] + b
  {}

  lemma NoBlocks()
    ensures CompleteBlocks([]) == []
  {}

  lemma OtherCase(t: seq<Message>)
    requires t != [] && !IsCaller(t[0])
    ensures CompleteBlocks(t) == (if t[0].role.Tool? then [] else [t[0]]) + CompleteBlocks(t[1..])
  {
    hide IsCaller, CallIds, ToolRun, Results, Unanswered;
  }

  lemma SameRun(a: seq<Message>, b: seq<Message>)
    requires b != [] ==> !b[0].role.Tool?
    ensures ToolRun(a + b) == ToolRun(a)
  {
    var n := ToolRun(a);
    assert forall i :: 0 <= i < n ==> (a + b)[i] == a[i];
    assert n < |a| ==> (a + b)[n] == a[n];
    assert n == |a| < |a + b| ==> (a + b)[n] == b[0];
    ToolRunIs(a + b, n);
  }

  lemma {:induction false} MergeFromSplits(result: seq<Message>, a: seq<Message>, b: seq<Message>)
    ensures MergeFrom(result, a + b) == MergeFrom(MergeFrom(result, a), b)
    decreases |a|
  {
    hide MergeOnto;
    if a == [] {
      assert a + b == b;
    } else {
      assert (a + b)[0] == a[0] && (a + b)[1..] == a[1..] + b;
      MergeFromSplits(MergeOnto(result, a[0]), a[1..], b);
    }
  }

  lemma SanitizeAppends(a: seq<Message>, g: seq<Message>)
    requires WellBlocked(g) && NothingToMerge(g) && (g != [] ==> g[0].role.Assistant?)
    ensures Sanitize(a + g) == Sanitize(a) + g
  {
    hide CompleteBlocks, WellBlocked, MergeFrom;
    CompleteBlocksAppends(a, g);
    WellBlockedIsKept(g);
    MergeFromSplits([], CompleteBlocks(a), g);
    SanitizeShape(a);
    var s := Sanitize(a);
    assert NothingToMerge(s + g) by {
      forall i | 0 <= i < |s + g| - 1
        ensures !Mergeable((s + g)[i], (s + g)[i + 1])
      {
        if i + 1 < |s| {
          assert (s + g)[i] == s[i] && (s + g)[i + 1] == s[i + 1];
        } else if i >= |s| {
          assert (s + g)[i] == g[i - |s|] && (s + g)[i + 1] == g[i + 1 - |s|];
        }
      }
    }
    MergeFromAppends(s, g);
  }

  /** Inside a tool loop the request only grows at its end: whatever the history was, the
      messages a loop iteration adds are appended to the request as they are. */
  lemma ReplayIsAppendOnly(cut: Message -> Text, h: seq<Message>, g: seq<Message>)
    requires LoopDelta(g)
    ensures Replay(cut, h + g) == Replay(cut, h) + g
  {
    assert ShrinkAll(cut, h + g) == ShrinkAll(cut, h) + g;
    hide *;
    LoopDeltaParts(g);
    CollapseAppends(ShrinkAll(cut, h), g);
    SanitizeAppends(Collapse(ShrinkAll(cut, h)), g);
    DedupeAppends(Sanitize(Collapse(ShrinkAll(cut, h))), g);
    ReplayIs(cut, h);
    ReplayIs(cut, h + g);
  }

  lemma ReplayIs(cut: Message -> Text, h: seq<Message>)
    ensures Replay(cut, h) == Dedupe(Sanitize(Collapse(ShrinkAll(cut, h))))
  {}

  lemma LoopDeltaParts(g: seq<Message>)
    requires LoopDelta(g)
    ensures WellBlocked(g) && NothingToMerge(g) && (g != [] ==> g[0].role.Assistant?)
    ensures NoCheckpoints(g) && NoTransients(g)
  {}
}
