/** What sanitizing leaves, said of the fields of the messages alone: which calls keep their results,
    and which human messages stay apart. */
module Blocks {
  import opened Prelude
  import opened Checkpoints
  import opened Sanitizer
  import Pipeline

  // ------------------------------------------------------------------------ calls and their results

  /** From `i` to `j` there are only tool messages. */
  ghost predicate Behind(ms: seq<Message>, i: int, j: int) {
    0 <= i < j < |ms| && forall k :: i < k <= j ==> ms[k].role.Tool?
  }

  ghost predicate Calling(m: Message) { m.role.Assistant? && |m.toolCalls| > 0 }

  /** Directly behind the message stand one result for each of its calls, and no other. */
  ghost predicate AnsweredOnce(ms: seq<Message>, i: int)
    requires 0 <= i < |ms|
  {
    && (forall id :: id in ms[i].toolCalls ==> exists j :: Behind(ms, i, j) && ms[j].toolCallId == Some(id))
    && (forall j :: Behind(ms, i, j) ==>
          ms[j].toolCallId.Some? && ms[j].toolCallId.value != "" && ms[j].toolCallId.value in ms[i].toolCalls)
    && (forall j, k :: Behind(ms, i, j) && Behind(ms, i, k) && j != k ==> ms[j].toolCallId != ms[k].toolCallId)
  }

  /** A result that no call in front of it asked for. */
  ghost predicate Orphan(ms: seq<Message>, j: int)
    requires 0 <= j < |ms|
  {
    ms[j].role.Tool? && forall i :: Behind(ms, i, j) ==> !Calling(ms[i])
  }

  ghost predicate EveryCallAnswered(ms: seq<Message>) {
    && (forall i :: 0 <= i < |ms| && Calling(ms[i]) ==> AnsweredOnce(ms, i))
    && (forall j :: 0 <= j < |ms| ==> !Orphan(ms, j))
  }

  lemma BehindShifts(ms: seq<Message>, d: nat, i: int, j: int)
    requires d <= |ms| && 0 <= i
    ensures Behind(ms[d..], i, j) <==> Behind(ms, i + d, j + d)
  {
    var t := ms[d..];
    assert forall k :: 0 <= k < |t| ==> t[k] == ms[k + d];
    if Behind(ms, i + d, j + d) {
      assert forall k :: i < k <= j ==> t[k] == ms[k + d] && ms[k + d].role.Tool?;
    }
    if Behind(t, i, j) {
      assert forall k :: i + d < k <= j + d ==> ms[k] == t[k - d] && t[k - d].role.Tool?;
    }
  }

  lemma InRange(ms: seq<Message>)
    ensures forall i, j :: Behind(ms, i, j) ==> 0 <= i < j < |ms|
  {}

  lemma ShiftedBehind(ms: seq<Message>, d: nat, i: int)
    requires d <= |ms| && 0 <= i
    ensures forall j :: Behind(ms[d..], i, j) ==> Behind(ms, i + d, j + d) && ms[d..][j] == ms[j + d]
    ensures forall j :: Behind(ms, i + d, j) ==> Behind(ms[d..], i, j - d) && ms[d..][j - d] == ms[j]
  {
    hide Behind;
    InRange(ms);
    InRange(ms[d..]);
    forall j | Behind(ms[d..], i, j)
      ensures Behind(ms, i + d, j + d)
    {
      BehindShifts(ms, d, i, j);
    }
    var t, e := ms[d..], i + d;
    forall j | Behind(ms, e, j)
      ensures Behind(t, i, j - d)
    {
      BehindShifts(ms, d, i, j - d);
    }
  }

  lemma AnsweredShifts(ms: seq<Message>, d: nat, i: int)
    requires d <= |ms| && 0 <= i < |ms| - d
    ensures AnsweredOnce(ms[d..], i) <==> AnsweredOnce(ms, i + d)
  {
    hide Behind;
    var t := ms[d..];
    assert t[i] == ms[i + d];
    ShiftedBehind(ms, d, i);
    InRange(ms);
    InRange(t);
    if AnsweredOnce(t, i) {
      forall id | id in ms[i + d].toolCalls
        ensures exists j :: Behind(ms, i + d, j) && ms[j].toolCallId == Some(id)
      {
        var j :| Behind(t, i, j) && t[j].toolCallId == Some(id);
        assert Behind(ms, i + d, j + d);
      }
      assert AnsweredOnce(ms, i + d);
    }
    if AnsweredOnce(ms, i + d) {
      forall id | id in t[i].toolCalls
        ensures exists j :: Behind(t, i, j) && t[j].toolCallId == Some(id)
      {
        var j :| Behind(ms, i + d, j) && ms[j].toolCallId == Some(id);
        assert Behind(t, i, j - d);
      }
      assert AnsweredOnce(t, i);
    }
  }

  /** Where nothing in front asks for results, or the next message is none, the rest stands alone. */
  lemma OrphanShifts(ms: seq<Message>, d: nat, j: int)
    requires d <= |ms| && 0 <= j < |ms| - d
    requires (forall i :: 0 <= i < d ==> !Calling(ms[i])) || !ms[d].role.Tool?
    ensures Orphan(ms[d..], j) <==> Orphan(ms, j + d)
  {
    hide Behind, Calling;
    var t := ms[d..];
    assert t[j] == ms[j + d];
    InRange(ms);
    InRange(t);
    if Orphan(t, j) && t[j].role.Tool? {
      forall i | Behind(ms, i, j + d)
        ensures !Calling(ms[i])
      {
        if i >= d {
          BehindShifts(ms, d, i - d, j);
          assert t[i - d] == ms[i];
        } else if !ms[d].role.Tool? {
          NotAcross(ms, i, d, j + d);
        }
      }
    }
    if Orphan(ms, j + d) {
      forall i | Behind(t, i, j)
        ensures !Calling(t[i])
      {
        BehindShifts(ms, d, i, j);
        assert t[i] == ms[i + d];
      }
    }
  }

  lemma NotAcross(ms: seq<Message>, i: int, d: int, j: int)
    requires i < d <= j && d < |ms| && d >= 0 && !ms[d].role.Tool?
    ensures !Behind(ms, i, j)
  {}

  /** One step of the induction: the rest behind `d` messages of which only the first may call. */
  lemma RestStands(ms: seq<Message>, d: nat)
    requires 1 <= d <= |ms| && forall k :: 1 <= k < d ==> ms[k].role.Tool?
    requires d < |ms| && Calling(ms[0]) ==> !ms[d].role.Tool?
    ensures EveryCallAnswered(ms)
            <==> (Calling(ms[0]) ==> AnsweredOnce(ms, 0)) && (forall j :: 0 <= j < d ==> !Orphan(ms, j))
                 && EveryCallAnswered(ms[d..])
  {
    hide Behind, AnsweredOnce, Orphan;
    var t := ms[d..];
    forall i | 0 <= i < |t|
      ensures AnsweredOnce(t, i) <==> AnsweredOnce(ms, i + d)
      ensures Orphan(t, i) <==> Orphan(ms, i + d)
      ensures t[i] == ms[i + d]
    {
      AnsweredShifts(ms, d, i);
      OrphanShifts(ms, d, i);
    }
    if EveryCallAnswered(t) && (Calling(ms[0]) ==> AnsweredOnce(ms, 0)) && (forall j :: 0 <= j < d ==> !Orphan(ms, j)) {
      forall i | 0 <= i < |ms|
        ensures Calling(ms[i]) ==> AnsweredOnce(ms, i)
        ensures !Orphan(ms, i)
      {
        if i >= d { assert t[i - d] == ms[i]; }
      }
    }
  }

  /** Directly behind the first message stands its run of tool messages. */
  lemma BehindTheFirst(ms: seq<Message>)
    requires ms != []
    ensures forall j :: Behind(ms, 0, j) <==> 1 <= j <= ToolRun(ms[1..])
  {
    var n := ToolRun(ms[1..]);
    assert forall k :: 0 <= k < n ==> ms[1..][k] == ms[k + 1];
    forall j: int
      ensures Behind(ms, 0, j) <==> 1 <= j <= n
    {
      if 1 <= j <= n {
        assert forall k :: 0 < k <= j ==> ms[k] == ms[1..][k - 1];
      } else if j > n && j < |ms| {
        assert !ms[1..][n].role.Tool? && ms[1..][n] == ms[n + 1];
      }
    }
  }

  lemma {:induction false} AnsweredHas(rs: seq<Message>, id: string)
    ensures id in Answered(rs) <==> exists k :: 0 <= k < |rs| && AnswerId(rs[k]) == Some(id)
  {
    if rs != [] {
      AnsweredHas(rs[1..], id);
      assert forall k :: 0 <= k < |rs| - 1 ==> rs[1..][k] == rs[k + 1];
      if k :| 0 <= k < |rs[1..]| && AnswerId(rs[1..][k]) == Some(id) { assert AnswerId(rs[k + 1]) == Some(id); }
      if k :| 0 <= k < |rs| && AnswerId(rs[k]) == Some(id) {
        if k > 0 { assert AnswerId(rs[1..][k - 1]) == Some(id); }
      }
    }
  }

  lemma BlockIsAnswered(ms: seq<Message>, rs: seq<Message>)
    requires ms != [] && rs == ms[1..1 + ToolRun(ms[1..])] && IsBlock(ms[0], rs)
    ensures AnsweredOnce(ms, 0)
  {
    hide Behind, Answered;
    var a, n := ms[0], |rs|;
    BehindTheFirst(ms);
    assert forall j :: 1 <= j <= n ==> ms[j] == rs[j - 1];
    forall id | id in a.toolCalls
      ensures exists j :: Behind(ms, 0, j) && ms[j].toolCallId == Some(id)
    {
      assert id in CallIds(a);
      AnsweredHas(rs, id);
      var k :| 0 <= k < n && AnswerId(rs[k]) == Some(id);
      assert Behind(ms, 0, k + 1);
    }
    forall j | Behind(ms, 0, j)
      ensures ms[j].toolCallId.Some? && ms[j].toolCallId.value != "" && ms[j].toolCallId.value in a.toolCalls
      ensures AnswerId(ms[j]) == ms[j].toolCallId
    {
      assert Answers(rs[j - 1], CallIds(a));
    }
    forall j, k | Behind(ms, 0, j) && Behind(ms, 0, k) && j != k
      ensures ms[j].toolCallId != ms[k].toolCallId
    {
      assert ms[j] == rs[j - 1] && ms[k] == rs[k - 1];
      Differ(rs, j - 1, k - 1);
    }
  }

  lemma Differ(rs: seq<Message>, j: int, k: int)
    requires DistinctAnswers(rs) && 0 <= j < |rs| && 0 <= k < |rs| && j != k
    ensures AnswerId(rs[j]) != AnswerId(rs[k])
  {}

  /** Each of these results answers one of the calls, and each of the calls has one. */
  ghost predicate Answering(calls: seq<string>, rs: seq<Message>) {
    && (forall k :: 0 <= k < |rs| ==>
          rs[k].role.Tool? && rs[k].toolCallId.Some? && rs[k].toolCallId.value != "" && rs[k].toolCallId.value in calls)
    && (forall j, k :: 0 <= j < k < |rs| ==> rs[j].toolCallId != rs[k].toolCallId)
    && forall id :: id in calls ==> exists k :: 0 <= k < |rs| && rs[k].toolCallId == Some(id)
  }

  lemma RunIsAnswering(ms: seq<Message>, rs: seq<Message>)
    requires ms != [] && rs == ms[1..1 + ToolRun(ms[1..])] && AnsweredOnce(ms, 0)
    ensures Answering(ms[0].toolCalls, rs)
  {
    hide Behind;
    var n := |rs|;
    BehindTheFirst(ms);
    forall k | 0 <= k < n
      ensures rs[k] == ms[k + 1] && rs[k].role.Tool? && Behind(ms, 0, k + 1)
    {
      assert rs[k] == ms[1..][k];
    }
    forall id | id in ms[0].toolCalls
      ensures exists k :: 0 <= k < n && rs[k].toolCallId == Some(id)
    {
      var j :| Behind(ms, 0, j) && ms[j].toolCallId == Some(id);
      assert rs[j - 1] == ms[j];
    }
  }

  lemma AnsweringIsBlock(a: Message, rs: seq<Message>)
    requires Calling(a) && Answering(a.toolCalls, rs)
    ensures IsBlock(a, rs)
  {
    hide Answered;
    assert forall k :: 0 <= k < |rs| ==> AnswerId(rs[k]) == rs[k].toolCallId;
    forall id
      ensures id in CallIds(a) <==> id in Answered(rs)
    {
      AnsweredHas(rs, id);
      if id in a.toolCalls {
        var k :| 0 <= k < |rs| && rs[k].toolCallId == Some(id);
        assert AnswerId(rs[k]) == Some(id);
      }
    }
  }

  lemma AnsweredIsBlock(ms: seq<Message>, rs: seq<Message>)
    requires ms != [] && rs == ms[1..1 + ToolRun(ms[1..])] && Calling(ms[0]) && AnsweredOnce(ms, 0)
    ensures IsBlock(ms[0], rs)
  {
    hide *;
    RunIsAnswering(ms, rs);
    AnsweringIsBlock(ms[0], rs);
  }

  lemma BlockIs(ms: seq<Message>)
    requires ms != [] && Calling(ms[0])
    ensures var n := ToolRun(ms[1..]); IsBlock(ms[0], ms[1..1 + n]) <==> AnsweredOnce(ms, 0)
  {
    hide *;
    var rs := ms[1..1 + ToolRun(ms[1..])];
    if IsBlock(ms[0], rs) { BlockIsAnswered(ms, rs); }
    if AnsweredOnce(ms, 0) { AnsweredIsBlock(ms, rs); }
  }

  /** Whole blocks, said without them. */
  lemma {:induction false} WellBlockedMeans(ms: seq<Message>)
    ensures WellBlocked(ms) <==> EveryCallAnswered(ms)
    decreases |ms|
  {
    hide Behind, AnsweredOnce, IsBlock;
    if ms != [] {
      BehindTheFirst(ms);
      if ms[0].role.Tool? {
        NothingInFront(ms);
        assert Orphan(ms, 0);
        assert !IsBlock(ms[0], ms[1..1 + ToolRun(ms[1..])]) by { NoBlock(ms[0], ms[1..1 + ToolRun(ms[1..])]); }
      } else if Plain(ms[0]) {
        RestStands(ms, 1);
        WellBlockedMeans(ms[1..]);
      } else {
        var n := ToolRun(ms[1..]);
        assert forall k :: 0 <= k < n ==> ms[1..][k] == ms[k + 1];
        assert 1 + n < |ms| ==> ms[1..][n] == ms[1 + n];
        BlockIs(ms);
        forall j | 0 <= j < 1 + n
          ensures !Orphan(ms, j)
        {
          if j > 0 { assert Behind(ms, 0, j); }
        }
        RestStands(ms, 1 + n);
        WellBlockedMeans(ms[1 + n..]);
      }
    }
  }

  lemma NothingInFront(ms: seq<Message>)
    ensures forall i :: !Behind(ms, i, 0)
  {}

  lemma NoBlock(a: Message, rs: seq<Message>)
    requires a.role.Tool?
    ensures !IsBlock(a, rs)
  {}

  /** In what sanitizing leaves, directly behind every message with calls stand one result for each of
      them and no other message of a tool, and no result stands anywhere else; and exactly the
      sequences of that kind, with no two human messages to merge, are left as they are. */
  lemma EveryCallIsAnswered(ms: seq<Message>)
    ensures EveryCallAnswered(Sanitize(ms))
    ensures Sanitize(ms) == ms <==> EveryCallAnswered(ms) && NothingToMerge(ms)
  {
    hide *;
    SanitizeIsNormalForm(ms);
    WellBlockedMeans(Sanitize(ms));
    WellBlockedMeans(ms);
  }

  // ------------------------------------------------------------------------- which calls are kept

  /** The first result for one of these calls. */
  predicate FirstAnswer(calls: seq<string>, run: seq<Message>, j: nat)
    requires j < |run|
  {
    && run[j].toolCallId.Some? && run[j].toolCallId.value in calls
    && forall i :: 0 <= i < j ==> run[i].toolCallId != run[j].toolCallId
  }

  function FirstAnswers(calls: seq<string>, run: seq<Message>): seq<Message> {
    if run == [] then []
    else
      FirstAnswers(calls, run[..|run| - 1]) + (if FirstAnswer(calls, run, |run| - 1) then [run[|run| - 1]] else [])
  }

  /** Every call has an id and a result of that id. */
  ghost predicate AllAnswered(calls: seq<string>, run: seq<Message>) {
    forall id :: id in calls ==> id != "" && exists j :: 0 <= j < |run| && run[j].toolCallId == Some(id)
  }

  lemma {:induction false} UnansweredHas(missing: set<string>, run: seq<Message>, id: string)
    requires forall k :: 0 <= k < |run| ==> run[k].role.Tool?
    ensures id in Unanswered(missing, run)
            <==> id in missing && forall k :: 0 <= k < |run| ==> AnswerId(run[k]) != Some(id)
  {
    if run != [] {
      var init, m := run[..|run| - 1], run[|run| - 1];
      assert run == init + [m];
      UnansweredHas(missing, init, id);
      ResultsSnoc(missing, init, m);
      assert forall k :: 0 <= k < |init| ==> run[k] == init[k];
    }
  }

  lemma {:induction false} ResultsAreFirst(a: Message, run: seq<Message>)
    requires "" !in a.toolCalls && forall k :: 0 <= k < |run| ==> run[k].role.Tool?
    ensures Results(CallIds(a), run) == FirstAnswers(a.toolCalls, run)
  {
    hide Results, Unanswered;
    if run == [] {
      NoResults(CallIds(a));
    } else {
      var init, m := run[..|run| - 1], run[|run| - 1];
      assert run == init + [m];
      ResultsAreFirst(a, init);
      ResultsSnoc(CallIds(a), init, m);
      if AnswerId(m).Some? { UnansweredHas(CallIds(a), init, AnswerId(m).value); }
      assert forall k :: 0 <= k < |init| ==> run[k] == init[k];
    }
  }

  lemma NoResults(missing: set<string>)
    ensures Results(missing, []) == []
  {}

  lemma CompleteIs(a: Message, run: seq<Message>)
    requires forall k :: 0 <= k < |run| ==> run[k].role.Tool?
    ensures Unanswered(CallIds(a), run) == {} <==> AllAnswered(a.toolCalls, run)
  {
    hide Unanswered;
    forall id
      ensures id in Unanswered(CallIds(a), run)
              <==> id in a.toolCalls && forall k :: 0 <= k < |run| ==> AnswerId(run[k]) != Some(id)
    {
      UnansweredHas(CallIds(a), run, id);
    }
    if Unanswered(CallIds(a), run) == {} {
      forall id | id in a.toolCalls
        ensures id != "" && exists j :: 0 <= j < |run| && run[j].toolCallId == Some(id)
      {
        assert id !in Unanswered(CallIds(a), run);
        var j :| 0 <= j < |run| && AnswerId(run[j]) == Some(id);
      }
    }
    if AllAnswered(a.toolCalls, run) {
      forall id
        ensures id !in Unanswered(CallIds(a), run)
      {
        if id in a.toolCalls {
          var j :| 0 <= j < |run| && run[j].toolCallId == Some(id);
          assert AnswerId(run[j]) == Some(id);
        }
      }
    }
  }

  /** All messages but the human ones. */
  function NotHuman(ms: seq<Message>): seq<Message> {
    if ms == [] then []
    else NotHuman(ms[..|ms| - 1]) + (if ms[|ms| - 1].role.User? then [] else [ms[|ms| - 1]])
  }

  lemma {:induction false} NotHumanConcat(a: seq<Message>, b: seq<Message>)
    ensures NotHuman(a + b) == NotHuman(a) + NotHuman(b)
  {
    if b == [] {
      assert a + b == a;
    } else {
      assert (a + b)[..|a + b| - 1] == a + b[..|b| - 1];
      NotHumanConcat(a, b[..|b| - 1]);
    }
  }

  lemma NotHumanOntoOne(result: seq<Message>, m: Message)
    ensures NotHuman(MergeOnto(result, m)) == NotHuman(result + [m])
  {
    hide Injected;
    assert (result + [m])[..|result + [m]| - 1] == result;
    if result != [] && Mergeable(result[|result| - 1], m) {
      var t := MergeOnto(result, m);
      assert t[..|t| - 1] == result[..|result| - 1];
    }
  }

  lemma {:induction false} NotHumanMerged(result: seq<Message>, kept: seq<Message>)
    ensures NotHuman(MergeFrom(result, kept)) == NotHuman(result) + NotHuman(kept)
    decreases |kept|
  {
    hide NotHuman, MergeOnto;
    if kept == [] {
      NoneAtAll();
    } else {
      NotHumanMerged(MergeOnto(result, kept[0]), kept[1..]);
      NotHumanOntoOne(result, kept[0]);
      NotHumanConcat(result, [kept[0]]);
      NotHumanConcat([kept[0]], kept[1..]);
      assert [kept[0]] + kept[1..] == kept;
    }
  }

  lemma NoneAtAll()
    ensures NotHuman([]) == []
  {}

  lemma NotHumanSanitized(ms: seq<Message>)
    ensures NotHuman(Sanitize(ms)) == NotHuman(CompleteBlocks(ms))
  {
    NoneAtAll();
    NotHumanMerged([], CompleteBlocks(ms));
  }

  /** A message with calls is kept, with the first result for each, exactly when every call has an id
      and a result before the next message that is not of a tool; otherwise the whole block goes. What
      comes before and after is sanitized as if the block were not there. */
  lemma CallIsKeptExactlyWhen(before: seq<Message>, c: Message, run: seq<Message>, after: seq<Message>)
    requires c.role.Assistant? && |c.toolCalls| > 0
    requires (forall k :: 0 <= k < |run| ==> run[k].role.Tool?) && (after != [] ==> !after[0].role.Tool?)
    ensures NotHuman(Sanitize(before + ([c] + run + after)))
            == NotHuman(Sanitize(before))
               + (if AllAnswered(c.toolCalls, run) then [c] + FirstAnswers(c.toolCalls, run) else [])
               + NotHuman(Sanitize(after))
  {
    hide *;
    var t := [c] + run + after;
    var block := if AllAnswered(c.toolCalls, run) then [c] + FirstAnswers(c.toolCalls, run) else [];
    assert t[0] == c;
    Pipeline.CompleteBlocksAppends(before, t);
    BlockInFront(c, run, after);
    BlockIsNotHuman(c, run, block);
    NotHumanSanitized(before + t);
    NotHumanSanitized(before);
    NotHumanSanitized(after);
    NotHumanThree(CompleteBlocks(before), block, CompleteBlocks(after));
  }

  lemma NotHumanThree(a: seq<Message>, b: seq<Message>, c: seq<Message>)
    ensures NotHuman(a + (b + c)) == NotHuman(a) + NotHuman(b) + NotHuman(c)
  {
    NotHumanConcat(a, b + c);
    NotHumanConcat(b, c);
  }

  lemma BlockInFront(c: Message, run: seq<Message>, after: seq<Message>)
    requires c.role.Assistant? && |c.toolCalls| > 0
    requires (forall k :: 0 <= k < |run| ==> run[k].role.Tool?) && (after != [] ==> !after[0].role.Tool?)
    ensures CompleteBlocks([c] + run + after)
            == (if AllAnswered(c.toolCalls, run) then [c] + FirstAnswers(c.toolCalls, run) else [])
               + CompleteBlocks(after)
  {
    hide *;
    var t := [c] + run + after;
    CallingIsCaller(c);
    ToolRunOf(run, after);
    Slices(c, run, after);
    CallerCase(t);
    CompleteIs(c, run);
    if AllAnswered(c.toolCalls, run) {
      NoEmptyId(c.toolCalls, run);
      ResultsAreFirst(c, run);
    }
  }

  lemma Slices(c: Message, run: seq<Message>, after: seq<Message>)
    ensures var t := [c] + run + after;
            t != [] && t[0] == c && t[1..] == run + after && t[1..1 + |run|] == run && t[1 + |run|..] == after
  {}

  lemma CallingIsCaller(c: Message)
    ensures Calling(c) <==> IsCaller(c)
    ensures c.role.Assistant? && |c.toolCalls| > 0 ==> IsCaller(c)
  {}

  lemma ToolRunOf(run: seq<Message>, after: seq<Message>)
    requires (forall k :: 0 <= k < |run| ==> run[k].role.Tool?) && (after != [] ==> !after[0].role.Tool?)
    ensures ToolRun(run + after) == |run|
  {
    ToolRunIs(run + after, |run|);
  }

  lemma NoEmptyId(calls: seq<string>, run: seq<Message>)
    requires AllAnswered(calls, run)
    ensures "" !in calls
  {}

  lemma {:induction false} FirstAnswersAreTools(calls: seq<string>, run: seq<Message>)
    requires forall k :: 0 <= k < |run| ==> run[k].role.Tool?
    ensures NotHuman(FirstAnswers(calls, run)) == FirstAnswers(calls, run)
  {
    hide FirstAnswer, NotHuman;
    NoneAtAll();
    if run != [] {
      var init, m := run[..|run| - 1], run[|run| - 1];
      OneNotHuman(m);
      FirstAnswersAreTools(calls, init);
      var f := FirstAnswers(calls, init);
      NotHumanConcat(f, [m]);
      assert FirstAnswers(calls, run) == f + (if FirstAnswer(calls, run, |init|) then [m] else []);
      assert f + [] == f;
    }
  }

  lemma BlockIsNotHuman(c: Message, run: seq<Message>, block: seq<Message>)
    requires c.role.Assistant? && forall k :: 0 <= k < |run| ==> run[k].role.Tool?
    requires block == [] || block == [c] + FirstAnswers(c.toolCalls, run)
    ensures NotHuman(block) == block
  {
    FirstAnswersAreTools(c.toolCalls, run);
    NotHumanConcat([c], FirstAnswers(c.toolCalls, run));
    OneNotHuman(c);
    NoneAtAll();
  }

  lemma OneNotHuman(m: Message)
    requires !m.role.User?
    ensures NotHuman([m]) == [m]
  {
    assert [m][..0] == [];
  }

  /** Results in front of which no call stands leave no trace. */
  lemma OrphansLeaveNoTrace(run: seq<Message>, after: seq<Message>)
    requires forall k :: 0 <= k < |run| ==> run[k].role.Tool?
    ensures Sanitize(run + after) == Sanitize(after)
  {
    SkipTools(run + after, |run|);
    assert (run + after)[|run|..] == after;
  }

  // ------------------------------------------------------------------------------ human messages

  /** What the system itself puts into the mouth of the user. */
  ghost predicate FromTheSystem(m: Message) {
    m.content != [] && ("[SYSTEM]" <= m.content[0] || "[Conversation history summary" <= m.content[0])
  }

  lemma FromTheSystemIs(m: Message)
    ensures FromTheSystem(m) <==> Injected(m.content)
  {}

  /** No two human messages are left next to each other, unless one of them is from the system. */
  lemma HumanMessagesAreApart(ms: seq<Message>)
    ensures var out := Sanitize(ms);
            forall i :: 0 <= i < |out| - 1 && out[i].role.User? && out[i + 1].role.User? ==>
              FromTheSystem(out[i]) || FromTheSystem(out[i + 1])
  {
    hide Injected, FromTheSystem;
    SanitizeShape(ms);
    var out := Sanitize(ms);
    forall i | 0 <= i < |out| - 1 && out[i].role.User? && out[i + 1].role.User?
      ensures FromTheSystem(out[i]) || FromTheSystem(out[i + 1])
    {
      assert !Mergeable(out[i], out[i + 1]);
      FromTheSystemIs(out[i]);
      FromTheSystemIs(out[i + 1]);
    }
  }

  lemma {:induction false} SystemStays(result: seq<Message>, kept: seq<Message>, x: Message)
    requires x in result || x in kept
    requires FromTheSystem(x)
    ensures x in MergeFrom(result, kept)
    decreases |kept|
  {
    hide MergeOnto, FromTheSystem;
    if kept != [] {
      SystemStaysOnto(result, kept[0], x);
      SystemStays(MergeOnto(result, kept[0]), kept[1..], x);
    }
  }

  lemma SystemStaysOnto(result: seq<Message>, m: Message, x: Message)
    requires FromTheSystem(x)
    ensures x in result || x == m ==> x in MergeOnto(result, m)
  {
    hide FromTheSystem, Injected;
    FromTheSystemIs(x);
    if result != [] && Mergeable(result[|result| - 1], m) {
      var front, last := result[..|result| - 1], result[|result| - 1];
      assert result == front + [last];
      FromTheSystemIs(last);
      FromTheSystemIs(m);
    }
  }

  lemma {:induction false} HumanStaysInBlocks(ms: seq<Message>, x: Message)
    requires x in ms && x.role.User?
    ensures x in CompleteBlocks(ms)
    decreases |ms|
  {
    hide Unanswered, Results, CallIds;
    assert ms == [ms[0]] + ms[1..];
    if IsCaller(ms[0]) {
      var n := ToolRun(ms[1..]);
      assert ms[1..] == ms[1..1 + n] + ms[1 + n..];
      assert forall k :: 0 <= k < n ==> ms[1..1 + n][k] == ms[1..][k];
      HumanStaysInBlocks(ms[1 + n..], x);
    } else if x != ms[0] {
      HumanStaysInBlocks(ms[1..], x);
    }
  }

  /** A message from the system is never merged into another one. */
  lemma SystemMessagesStandAlone(ms: seq<Message>, x: Message)
    requires x in ms && x.role.User? && FromTheSystem(x)
    ensures x in Sanitize(ms)
  {
    HumanStaysInBlocks(ms, x);
    SystemStays([], CompleteBlocks(ms), x);
  }
}
