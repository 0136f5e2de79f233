/** The request must hold only complete tool blocks, and no two adjacent human messages. */
module Sanitizer {
  import opened Prelude
  import Texts
  import opened Checkpoints

  predicate IsCaller(m: Message) { m.role.Assistant? && m.toolCalls != [] }

  function CallIds(m: Message): set<string> { set id | id in m.toolCalls }

  /** The call a tool message answers; an empty id answers nothing. */
  function AnswerId(m: Message): Option<string> {
    if m.toolCallId.Some? && m.toolCallId.value != "" then m.toolCallId else None
  }

  predicate Answers(m: Message, missing: set<string>) {
    m.role.Tool? && AnswerId(m).Some? && AnswerId(m).value in missing
  }

  predicate Plain(m: Message) { !IsCaller(m) && !m.role.Tool? }

  // ------------------------------------------------------------- which messages are kept

  /** Length of the run of tool messages at the front. */
  function ToolRun(ms: seq<Message>): (n: nat)
    ensures n <= |ms|
    ensures forall i :: 0 <= i < n ==> ms[i].role.Tool?
    ensures n < |ms| ==> !ms[n].role.Tool?
  {
    if ms != [] && ms[0].role.Tool? then 1 + ToolRun(ms[1..]) else 0
  }

  /** The first result for every missing id, in order of arrival. */
  function Results(missing: set<string>, run: seq<Message>): seq<Message> {
    if run == [] then []
    else if Answers(run[0], missing) then [run[0]] + Results(missing - {AnswerId(run[0]).value}, run[1..])
    else Results(missing, run[1..])
  }

  function Unanswered(missing: set<string>, run: seq<Message>): set<string> {
    if run == [] then missing
    else if Answers(run[0], missing) then Unanswered(missing - {AnswerId(run[0]).value}, run[1..])
    else Unanswered(missing, run[1..])
  }

  /** Calls keep their results when every call is answered before anything but tool messages
      comes; otherwise the whole block goes, and so does every result without a call. */
  function CompleteBlocks(ms: seq<Message>): seq<Message>
    decreases |ms|
  {
    if ms == [] then []
    else if ms[0].role.Tool? then CompleteBlocks(ms[1..])
    else if IsCaller(ms[0]) then
      var n := ToolRun(ms[1..]);
      var run := ms[1..1 + n];
      var rest := CompleteBlocks(ms[1 + n..]);
      if Unanswered(CallIds(ms[0]), run) == {} then [ms[0]] + Results(CallIds(ms[0]), run) + rest else rest
    else [ms[0]] + CompleteBlocks(ms[1..])
  }

  // --------------------------------------------------------------- merging human messages

  function FirstLine(t: Texts.Text): string { if t == [] then "" else t[0] }

  predicate Injected(t: Texts.Text) {
    StartsWith(FirstLine(t), "[SYSTEM]") || StartsWith(FirstLine(t), "[Conversation history summary")
  }

  predicate Mergeable(prev: Message, m: Message) {
    prev.role.User? && m.role.User? && !Injected(m.content) && !Injected(prev.content)
  }

  function Merged(prev: Message, m: Message): Message {
    prev.(content := prev.content + [""] + m.content)
  }

  function MergeOnto(result: seq<Message>, m: Message): seq<Message> {
    if result != [] && Mergeable(result[|result| - 1], m)
    then result[..|result| - 1] + [Merged(result[|result| - 1], m)]
    else result + [m]
  }

  function MergeFrom(result: seq<Message>, kept: seq<Message>): seq<Message>
    decreases |kept|
  {
    if kept == [] then result else MergeFrom(MergeOnto(result, kept[0]), kept[1..])
  }

  /** Drop incomplete blocks, then merge adjacent human messages. */
  function Sanitize(ms: seq<Message>): seq<Message> { MergeFrom([], CompleteBlocks(ms)) }

  // ---------------------------------------------------------------------- the one-pass loop

  method SanitizeMessageSequence(messages: seq<Message>) returns (result: seq<Message>)
    ensures result == Sanitize(messages)
  {
    hide *;
    result := [];
    var pending: Option<Message> := None;
    var pendingIds: set<string> := {};
    var collected: seq<Message> := [];
    ghost var start := 0;  // where the block being collected begins
    LoopStart(messages);
    for i := 0 to |messages|
      invariant LoopInv(messages, i, start, result, pending, pendingIds, collected)
    {
      var msg := messages[i];
      if IsCaller(msg) {
        // an open block is incomplete: drop it
        StepCaller(messages, i, start, result, pending, pendingIds, collected);
        pending, pendingIds, collected, start := Some(msg), CallIds(msg), [], i;
      } else if msg.role.Tool? {
        if pending.Some? && Answers(msg, pendingIds) {
          StepAnswer(messages, i, start, result, pending, pendingIds, collected);
          pendingIds := pendingIds - {AnswerId(msg).value};
          collected := collected + [msg];
          if pendingIds == {} {
            result := result + [pending.value] + collected;
            pending, collected, start := None, [], i + 1;
          }
        } else {
          StepOrphan(messages, i, start, result, pending, pendingIds, collected);
          start := if pending.Some? then start else i + 1;
        }
      } else {
        PlainIs(msg);
        StepPlain(messages, i, start, result, pending, pendingIds, collected);
        pending, pendingIds, collected, start := None, {}, [], i + 1;
        result := MergeOnto(result, msg);
      }
    }
    LoopEnd(messages, start, result, pending, pendingIds, collected);
  }

  /** What is left to do: the rest of the input, from the open block on. */
  ghost predicate LoopInv(ms: seq<Message>, i: nat, start: nat, result: seq<Message>,
                          pending: Option<Message>, ids: set<string>, collected: seq<Message>)
  {
    && start <= i <= |ms|
    && Sanitize(ms) == MergeFrom(result, CompleteBlocks(ms[start..]))
    && (pending.None? ==> start == i && ids == {} && collected == [])
    && (pending.Some? ==>
          && start < i && pending.value == ms[start] && IsCaller(ms[start])
          && (forall j :: start < j < i ==> ms[j].role.Tool?)
          && ids == Unanswered(CallIds(ms[start]), ms[start + 1..i]) && ids != {}
          && collected == Results(CallIds(ms[start]), ms[start + 1..i]))
  }

  lemma PlainIs(m: Message)
    ensures Plain(m) <==> !IsCaller(m) && !m.role.Tool?
  {}

  lemma LoopStart(ms: seq<Message>)
    ensures LoopInv(ms, 0, 0, [], None, {}, [])
  {
    assert ms[0..] == ms;
  }

  lemma StepCaller(ms: seq<Message>, i: nat, start: nat, result: seq<Message>,
                   pending: Option<Message>, ids: set<string>, collected: seq<Message>)
    requires i < |ms| && LoopInv(ms, i, start, result, pending, ids, collected)
    requires IsCaller(ms[i])
    ensures LoopInv(ms, i + 1, i, result, Some(ms[i]), CallIds(ms[i]), [])
  {
    hide MergeFrom, Sanitize, CompleteBlocks;
    if pending.Some? { IncompleteGoes(ms, start, i); }
    assert ms[i + 1..i + 1] == [];
    assert ms[i].toolCalls[0] in CallIds(ms[i]);
  }

  lemma StepOrphan(ms: seq<Message>, i: nat, start: nat, result: seq<Message>,
                   pending: Option<Message>, ids: set<string>, collected: seq<Message>)
    requires i < |ms| && LoopInv(ms, i, start, result, pending, ids, collected)
    requires ms[i].role.Tool? && (pending.None? || !Answers(ms[i], ids))
    ensures LoopInv(ms, i + 1, if pending.Some? then start else i + 1, result, pending, ids, collected)
  {
    hide MergeFrom, Sanitize;
    if pending.Some? {
      assert ms[start + 1..i + 1] == ms[start + 1..i] + [ms[i]];
      ResultsSnoc(CallIds(ms[start]), ms[start + 1..i], ms[i]);
    }
  }

  lemma StepAnswer(ms: seq<Message>, i: nat, start: nat, result: seq<Message>,
                   pending: Option<Message>, ids: set<string>, collected: seq<Message>)
    requires i < |ms| && LoopInv(ms, i, start, result, pending, ids, collected)
    requires ms[i].role.Tool? && pending.Some? && Answers(ms[i], ids)
    ensures AnswerId(ms[i]).Some?
    ensures var left := ids - {AnswerId(ms[i]).value};
            && (left != {} ==>
                  LoopInv(ms, i + 1, start, result, pending, left, collected + [ms[i]]))
            && (left == {} ==>
                  LoopInv(ms, i + 1, i + 1, result + [pending.value] + (collected + [ms[i]]), None, {}, []))
  {
    hide MergeFrom, Sanitize, CompleteBlocks;
    var run := ms[start + 1..i + 1];
    assert run == ms[start + 1..i] + [ms[i]];
    ResultsSnoc(CallIds(ms[start]), ms[start + 1..i], ms[i]);
    if ids - {AnswerId(ms[i]).value} == {} {
      CompletedStays(ms, start, i + 1);
      ResultsAreTools(CallIds(ms[start]), run);
      MergeOfBlock(result, ms[start], Results(CallIds(ms[start]), run), CompleteBlocks(ms[i + 1..]));
    }
  }

  lemma StepPlain(ms: seq<Message>, i: nat, start: nat, result: seq<Message>,
                  pending: Option<Message>, ids: set<string>, collected: seq<Message>)
    requires i < |ms| && LoopInv(ms, i, start, result, pending, ids, collected)
    requires Plain(ms[i])
    ensures LoopInv(ms, i + 1, i + 1, MergeOnto(result, ms[i]), None, {}, [])
  {
    hide MergeOnto, Sanitize;
    if pending.Some? { IncompleteGoes(ms, start, i); }
    var t := ms[i..];
    assert t[0] == ms[i] && t[1..] == ms[i + 1..];
    var kept := CompleteBlocks(t);
    assert kept == [ms[i]] + CompleteBlocks(ms[i + 1..]);
    assert kept[1..] == CompleteBlocks(ms[i + 1..]);
  }

  lemma LoopEnd(ms: seq<Message>, start: nat, result: seq<Message>,
                pending: Option<Message>, ids: set<string>, collected: seq<Message>)
    requires LoopInv(ms, |ms|, start, result, pending, ids, collected)
    ensures result == Sanitize(ms)
  {
    hide Sanitize;
    if pending.Some? { IncompleteGoes(ms, start, |ms|); }
    assert ms[|ms|..] == [];
  }

  lemma {:induction false} ResultsSnoc(missing: set<string>, run: seq<Message>, m: Message)
    ensures var left := Unanswered(missing, run);
            if Answers(m, left) then
              && Results(missing, run + [m]) == Results(missing, run) + [m]
              && Unanswered(missing, run + [m]) == left - {AnswerId(m).value}
            else
              && Results(missing, run + [m]) == Results(missing, run)
              && Unanswered(missing, run + [m]) == left
  {
    if run == [] {
      assert (run + [m])[1..] == [];
    } else {
      assert (run + [m])[1..] == run[1..] + [m];
      ResultsSnoc(if Answers(run[0], missing) then missing - {AnswerId(run[0]).value} else missing,
                  run[1..], m);
    }
  }

  lemma {:induction false} ResultsAreTools(missing: set<string>, run: seq<Message>)
    ensures forall i :: 0 <= i < |Results(missing, run)| ==> Results(missing, run)[i].role.Tool?
  {
    if run != [] {
      ResultsAreTools(if Answers(run[0], missing) then missing - {AnswerId(run[0]).value} else missing, run[1..]);
    }
  }

  lemma {:induction false} ToolRunIs(ms: seq<Message>, n: nat)
    requires n <= |ms|
    requires forall i :: 0 <= i < n ==> ms[i].role.Tool?
    requires n < |ms| ==> !ms[n].role.Tool?
    ensures ToolRun(ms) == n
  {
    if n > 0 { ToolRunIs(ms[1..], n - 1); }
  }

  lemma {:induction false} ToolRunAtLeast(ms: seq<Message>, k: nat)
    requires k <= |ms| && forall i :: 0 <= i < k ==> ms[i].role.Tool?
    ensures ToolRun(ms) >= k
  {
    if k > 0 { ToolRunAtLeast(ms[1..], k - 1); }
  }

  /** A block that meets something else before all its answers contributes nothing. */
  lemma IncompleteGoes(ms: seq<Message>, start: nat, i: nat)
    requires start < i <= |ms| && IsCaller(ms[start])
    requires forall j :: start < j < i ==> ms[j].role.Tool?
    requires i < |ms| ==> !ms[i].role.Tool?
    requires Unanswered(CallIds(ms[start]), ms[start + 1..i]) != {}
    ensures CompleteBlocks(ms[start..]) == CompleteBlocks(ms[i..])
  {
    hide *;
    var t, n := ms[start..], i - start - 1;
    assert t[1..] == ms[start + 1..];
    ToolRunIs(t[1..], n);
    assert t[1..1 + n] == ms[start + 1..i] && t[1 + n..] == ms[i..];
    CallerCase(t);
  }

  lemma CallerCase(t: seq<Message>)
    requires t != [] && IsCaller(t[0])
    ensures var n := ToolRun(t[1..]);
            CompleteBlocks(t)
            == (if Unanswered(CallIds(t[0]), t[1..1 + n]) == {}
                then [t[0]] + Results(CallIds(t[0]), t[1..1 + n]) else [])
               + CompleteBlocks(t[1 + n..])
  {
    hide Unanswered, Results, CallIds;
  }

  lemma {:induction false} SkipTools(ms: seq<Message>, n: nat)
    requires n <= |ms| && forall i :: 0 <= i < n ==> ms[i].role.Tool?
    ensures CompleteBlocks(ms) == CompleteBlocks(ms[n..])
  {
    if n > 0 {
      SkipTools(ms[1..], n - 1);
      assert ms[1..][n - 1..] == ms[n..];
    }
  }

  lemma {:induction false} NothingMissing(run: seq<Message>)
    ensures Results({}, run) == [] && Unanswered({}, run) == {}
  {
    if run != [] { NothingMissing(run[1..]); }
  }

  lemma {:induction false} ResultsSplit(missing: set<string>, a: seq<Message>, b: seq<Message>)
    requires Unanswered(missing, a) == {}
    ensures Results(missing, a + b) == Results(missing, a) && Unanswered(missing, a + b) == {}
  {
    if a == [] {
      NothingMissing(b);
      assert a + b == b;
    } else {
      assert (a + b)[1..] == a[1..] + b;
      ResultsSplit(if Answers(a[0], missing) then missing - {AnswerId(a[0]).value} else missing, a[1..], b);
    }
  }

  /** A block is complete as soon as its last call is answered; later results are orphans. */
  lemma CompletedStays(ms: seq<Message>, start: nat, e: nat)
    requires start < e <= |ms| && IsCaller(ms[start])
    requires forall j :: start < j < e ==> ms[j].role.Tool?
    requires Unanswered(CallIds(ms[start]), ms[start + 1..e]) == {}
    ensures CompleteBlocks(ms[start..])
            == [ms[start]] + Results(CallIds(ms[start]), ms[start + 1..e]) + CompleteBlocks(ms[e..])
  {
    hide *;
    var t, k := ms[start..], e - start - 1;
    var n := ToolRun(t[1..]);
    CallerCase(t);
    assert t[1..] == ms[start + 1..];
    ToolRunAtLeast(t[1..], k);
    var late := ms[e..][..n - k];
    assert t[1..1 + k] == ms[start + 1..e];
    assert t[1 + k..1 + n] == late;
    assert t[1..1 + n] == t[1..1 + k] + t[1 + k..1 + n];
    ResultsSplit(CallIds(ms[start]), ms[start + 1..e], late);
    assert forall j :: 0 <= j < n - k ==> ms[e..][j] == t[1..][k + j];
    SkipTools(ms[e..], n - k);
    assert ms[e..][n - k..] == t[1 + n..];
  }

  // ------------------------------------------------------------------------ merging lemmas

  lemma {:induction false} MergeOfOthers(result: seq<Message>, xs: seq<Message>, rest: seq<Message>)
    requires forall i :: 0 <= i < |xs| ==> !xs[i].role.User?
    ensures MergeFrom(result, xs + rest) == MergeFrom(result + xs, rest)
    decreases |xs|
  {
    if xs == [] {
      assert xs + rest == rest && result + xs == result;
    } else {
      assert (xs + rest)[0] == xs[0] && (xs + rest)[1..] == xs[1..] + rest;
      assert result + [xs[0]] + xs[1..] == result + xs;
      MergeOfOthers(result + [xs[0]], xs[1..], rest);
    }
  }

  lemma MergeOfBlock(result: seq<Message>, a: Message, rs: seq<Message>, rest: seq<Message>)
    requires IsCaller(a) && forall i :: 0 <= i < |rs| ==> rs[i].role.Tool?
    ensures MergeFrom(result, [a] + rs + rest) == MergeFrom(result + [a] + rs, rest)
  {
    MergeOfOthers(result, [a] + rs, rest);
    assert result + ([a] + rs) == result + [a] + rs;
  }

  // --------------------------------------------------------------- what the result looks like

  predicate DistinctAnswers(rs: seq<Message>) {
    forall i, j :: 0 <= i < j < |rs| ==> AnswerId(rs[i]) != AnswerId(rs[j])
  }

  /** One result for every call of `a`, and nothing else. */
  ghost predicate IsBlock(a: Message, rs: seq<Message>) {
    && IsCaller(a)
    && (forall i :: 0 <= i < |rs| ==> Answers(rs[i], CallIds(a)))
    && DistinctAnswers(rs)
    && CallIds(a) == Answered(rs)
  }

  /** Every call is followed at once by exactly one result per id; no result stands alone. */
  ghost predicate WellBlocked(ms: seq<Message>)
    decreases |ms|
  {
    if ms == [] then true
    else if Plain(ms[0]) then WellBlocked(ms[1..])
    else
      var n := ToolRun(ms[1..]);
      IsBlock(ms[0], ms[1..1 + n]) && WellBlocked(ms[1 + n..])
  }

  ghost predicate NothingToMerge(ms: seq<Message>) {
    forall i :: 0 <= i < |ms| - 1 ==> !Mergeable(ms[i], ms[i + 1])
  }

  ghost function Answered(rs: seq<Message>): set<string> {
    if rs == [] then {}
    else (if AnswerId(rs[0]).Some? then {AnswerId(rs[0]).value} else {}) + Answered(rs[1..])
  }

  lemma {:induction false} ResultsAnswer(missing: set<string>, run: seq<Message>)
    ensures forall i :: 0 <= i < |Results(missing, run)| ==> Answers(Results(missing, run)[i], missing)
  {
    if run != [] {
      var left := if Answers(run[0], missing) then missing - {AnswerId(run[0]).value} else missing;
      ResultsAnswer(left, run[1..]);
    }
  }

  lemma {:induction false} ResultsDistinct(missing: set<string>, run: seq<Message>)
    ensures DistinctAnswers(Results(missing, run))
  {
    if run == [] {
    } else if Answers(run[0], missing) {
      var id := AnswerId(run[0]).value;
      var left := missing - {id};
      var rs, tail := Results(missing, run), Results(left, run[1..]);
      ResultsDistinct(left, run[1..]);
      ResultsAnswer(left, run[1..]);
      assert id !in left;
      assert rs == [run[0]] + tail;
      forall i, j | 0 <= i < j < |rs|
        ensures AnswerId(rs[i]) != AnswerId(rs[j])
      {
        assert Answers(tail[j - 1], left);
      }
    } else {
      ResultsDistinct(missing, run[1..]);
    }
  }

  lemma {:induction false} ResultsCover(missing: set<string>, run: seq<Message>)
    ensures missing == Answered(Results(missing, run)) + Unanswered(missing, run)
  {
    hide Answered;
    if run == [] {
      AnsweredNothing();
    } else if Answers(run[0], missing) {
      var id := AnswerId(run[0]).value;
      var left := missing - {id};
      ResultsCover(left, run[1..]);
      AnsweredCons(run[0], Results(left, run[1..]));
      assert missing == {id} + left;
    } else {
      ResultsCover(missing, run[1..]);
    }
  }

  lemma AnsweredNothing()
    ensures Answered([]) == {}
  {}

  lemma AnsweredCons(m: Message, tail: seq<Message>)
    requires AnswerId(m).Some?
    ensures Answered([m] + tail) == {AnswerId(m).value} + Answered(tail)
  {
    assert ([m] + tail)[1..] == tail;
  }

  lemma {:induction false} CompleteBlocksWell(ms: seq<Message>)
    ensures WellBlocked(CompleteBlocks(ms))
    decreases |ms|
  {
    hide Answered, Results, Unanswered;
    if ms == [] {
    } else if IsCaller(ms[0]) {
      var n := ToolRun(ms[1..]);
      var rest := CompleteBlocks(ms[1 + n..]);
      CompleteBlocksWell(ms[1 + n..]);
      if Unanswered(CallIds(ms[0]), ms[1..1 + n]) == {} {
        var rs := Results(CallIds(ms[0]), ms[1..1 + n]);
        ResultsAnswer(CallIds(ms[0]), ms[1..1 + n]);
        ResultsDistinct(CallIds(ms[0]), ms[1..1 + n]);
        ResultsCover(CallIds(ms[0]), ms[1..1 + n]);
        BlockFirst(ms[0], rs, rest);
      }
    } else {
      CompleteBlocksWell(ms[1..]);
      var kept := CompleteBlocks(ms[1..]);
      if !ms[0].role.Tool? { assert ([ms[0]] + kept)[1..] == kept; }
    }
  }

  lemma BlockFirst(a: Message, rs: seq<Message>, rest: seq<Message>)
    requires IsBlock(a, rs) && WellBlocked(rest)
    ensures WellBlocked([a] + rs + rest)
  {
    hide Answered;
    var t := [a] + rs + rest;
    assert t[1..] == rs + rest;
    assert forall i :: 0 <= i < |rs| ==> t[1..][i] == rs[i];
    ToolRunIs(t[1..], |rs|);
    assert t[1..1 + |rs|] == rs && t[1 + |rs|..] == rest;
  }

  /** Whole blocks before, whole blocks after. */
  lemma {:induction false} WellBlockedConcat(a: seq<Message>, b: seq<Message>)
    requires WellBlocked(a) && WellBlocked(b)
    ensures WellBlocked(a + b)
    decreases |a|
  {
    hide IsBlock, IsCaller;
    if a == [] {
      assert a + b == b;
    } else if Plain(a[0]) {
      WellBlockedConcat(a[1..], b);
      assert a + b == [a[0]] + (a[1..] + b);
      assert ([a[0]] + (a[1..] + b))[1..] == a[1..] + b;
    } else {
      var n := ToolRun(a[1..]);
      var rs, rest := a[1..1 + n], a[1 + n..];
      assert [a[0]] + rs + (rest + b) == a + b;
      WellBlockedConcat(rest, b);
      BlockFirst(a[0], rs, rest + b);
    }
  }

  /** A human message in last place has no say in the blocks before it. */
  lemma {:induction false} LastPlain(a: seq<Message>, m: Message)
    requires Plain(m)
    ensures WellBlocked(a + [m]) <==> WellBlocked(a)
    decreases |a|
  {
    hide IsBlock;
    if a == [] {
      assert (a + [m])[1..] == [];
    } else if Plain(a[0]) {
      assert (a + [m])[1..] == a[1..] + [m];
      LastPlain(a[1..], m);
    } else {
      var n := ToolRun(a[1..]);
      assert (a + [m])[1..] == a[1..] + [m];
      assert forall i :: 0 <= i < n ==> (a[1..] + [m])[i] == a[1..][i];
      ToolRunIs(a[1..] + [m], n);
      assert (a + [m])[1..1 + n] == a[1..1 + n];
      assert (a + [m])[1 + n..] == a[1 + n..] + [m];
      LastPlain(a[1 + n..], m);
    }
  }

  lemma MergeOntoWell(result: seq<Message>, m: Message)
    requires WellBlocked(result) && Plain(m)
    ensures WellBlocked(MergeOnto(result, m))
  {
    hide WellBlocked;
    if result != [] && Mergeable(result[|result| - 1], m) {
      var front, last := result[..|result| - 1], result[|result| - 1];
      assert result == front + [last];
      LastPlain(front, last);
      LastPlain(front, Merged(last, m));
    } else {
      LastPlain(result, m);
    }
  }

  lemma {:induction false} MergeFromWell(result: seq<Message>, kept: seq<Message>)
    requires WellBlocked(result) && WellBlocked(kept)
    ensures WellBlocked(MergeFrom(result, kept))
    decreases |kept|
  {
    hide IsBlock, MergeOnto;
    if kept != [] {
      if Plain(kept[0]) {
        MergeOntoWell(result, kept[0]);
        MergeFromWell(MergeOnto(result, kept[0]), kept[1..]);
      } else {
        var n := ToolRun(kept[1..]);
        var rs, rest := kept[1..1 + n], kept[1 + n..];
        assert kept == [kept[0]] + rs + rest;
        BlockIsAppended(result, kept[0], rs, rest);
        MergeFromWell(result + [kept[0]] + rs, rest);
      }
    }
  }

  lemma BlockIsAppended(result: seq<Message>, a: Message, rs: seq<Message>, rest: seq<Message>)
    requires WellBlocked(result) && IsBlock(a, rs)
    ensures MergeFrom(result, [a] + rs + rest) == MergeFrom(result + [a] + rs, rest)
    ensures WellBlocked(result + [a] + rs)
  {
    hide IsBlock, MergeOnto, MergeFrom, WellBlocked;
    IsBlockParts(a, rs);
    MergeOfBlock(result, a, rs, rest);
    EmptyWell();
    BlockFirst(a, rs, []);
    assert [a] + rs + [] == [a] + rs;
    WellBlockedConcat(result, [a] + rs);
    assert result + ([a] + rs) == result + [a] + rs;
  }

  lemma EmptyWell()
    ensures WellBlocked([])
  {}

  lemma IsBlockParts(a: Message, rs: seq<Message>)
    requires IsBlock(a, rs)
    ensures IsCaller(a) && forall i :: 0 <= i < |rs| ==> rs[i].role.Tool?
  {}

  lemma MergeOntoApart(result: seq<Message>, m: Message)
    requires NothingToMerge(result)
    ensures NothingToMerge(MergeOnto(result, m))
  {
    hide Injected;
    if result != [] && Mergeable(result[|result| - 1], m) {
      MergedKeepsFirstLine(result[|result| - 1], m);
    }
  }

  lemma MergedKeepsFirstLine(prev: Message, m: Message)
    ensures FirstLine(Merged(prev, m).content) == FirstLine(prev.content)
    ensures Injected(Merged(prev, m).content) == Injected(prev.content)
  {}

  lemma {:induction false} MergeFromApart(result: seq<Message>, kept: seq<Message>)
    requires NothingToMerge(result)
    ensures NothingToMerge(MergeFrom(result, kept))
    decreases |kept|
  {
    hide MergeOnto, NothingToMerge;
    if kept != [] {
      MergeOntoApart(result, kept[0]);
      MergeFromApart(MergeOnto(result, kept[0]), kept[1..]);
    }
  }

  /** Nothing to merge: the fold only appends. */
  lemma {:induction false} MergeFromAppends(result: seq<Message>, kept: seq<Message>)
    requires NothingToMerge(result + kept)
    ensures MergeFrom(result, kept) == result + kept
    decreases |kept|
  {
    if kept == [] {
      assert result + kept == result;
    } else {
      var n := |result|;
      assert (result + kept)[n] == kept[0];
      assert n > 0 ==> (result + kept)[n - 1] == result[n - 1];
      assert result + [kept[0]] + kept[1..] == result + kept;
      MergeFromAppends(result + [kept[0]], kept[1..]);
    }
  }

  lemma {:induction false} AllResultsKept(missing: set<string>, rs: seq<Message>)
    requires forall i :: 0 <= i < |rs| ==> Answers(rs[i], missing)
    requires DistinctAnswers(rs)
    ensures Results(missing, rs) == rs
    ensures Unanswered(missing, rs) == missing - Answered(rs)
  {
    hide Answered;
    if rs == [] {
      AnsweredNothing();
    } else {
      AllResultsKept(missing - {AnswerId(rs[0]).value}, rs[1..]);
      AnsweredCons(rs[0], rs[1..]);
      assert [rs[0]] + rs[1..] == rs;
    }
  }

  lemma {:induction false} WellBlockedIsKept(ms: seq<Message>)
    requires WellBlocked(ms)
    ensures CompleteBlocks(ms) == ms
    decreases |ms|
  {
    hide Answered, Results, Unanswered;
    if ms != [] {
      if Plain(ms[0]) {
        WellBlockedIsKept(ms[1..]);
      } else {
        var n := ToolRun(ms[1..]);
        var rs := ms[1..1 + n];
        AllResultsKept(CallIds(ms[0]), rs);
        WellBlockedIsKept(ms[1 + n..]);
        assert [ms[0]] + rs + ms[1 + n..] == ms;
      }
    }
  }

  /** Sanitizing yields whole blocks and nothing left to merge, changes exactly the sequences
      that are not of that form, and changes nothing a second time. */
  lemma SanitizeIsNormalForm(ms: seq<Message>)
    ensures WellBlocked(Sanitize(ms)) && NothingToMerge(Sanitize(ms))
    ensures Sanitize(ms) == ms <==> WellBlocked(ms) && NothingToMerge(ms)
    ensures Sanitize(Sanitize(ms)) == Sanitize(ms)
  {
    SanitizeShape(ms);
    var out := Sanitize(ms);
    if WellBlocked(ms) && NothingToMerge(ms) { NormalFormStays(ms); }
    NormalFormStays(out);
  }

  lemma SanitizeShape(ms: seq<Message>)
    ensures WellBlocked(Sanitize(ms)) && NothingToMerge(Sanitize(ms))
  {
    CompleteBlocksWell(ms);
    EmptyWell();
    MergeFromWell([], CompleteBlocks(ms));
    MergeFromApart([], CompleteBlocks(ms));
  }

  lemma NormalFormStays(ms: seq<Message>)
    requires WellBlocked(ms) && NothingToMerge(ms)
    ensures Sanitize(ms) == ms
  {
    WellBlockedIsKept(ms);
    assert [] + ms == ms;
    MergeFromAppends([], ms);
  }
}
