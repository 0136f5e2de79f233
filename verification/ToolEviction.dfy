/** Leaving tool definitions out of a request until the rest fits a token budget. A tool is its
    name, its description and the length of its JSON text. */
module ToolEviction {
  import opened Prelude

  datatype Tool = Tool(name: string, description: string, size: nat)

  datatype Evicted = Evicted(name: string, description: string)

  const DESCRIPTION_CHARS := 60

  const EVICT_FIRST: set<string> := {
    "package_install", "package_list", "hub_search", "hub_install", "office_generate", "decide", "recall_context",
    "agent_broadcast_status", "agent_delegate_task", "agent_send_group_message", "agent_create_group_chat",
    "agent_list_group_chats", "delegate_message", "agent_start", "agent_stop", "team_status", "team_list"
  }

  /** The tools that are never left out, and the core ones that go last. */
  datatype Policy = Policy(protectedNames: set<string>, coreKeep: set<string>)

  predicate HasDoubleUnderscore(s: string) { exists i :: 0 <= i < |s| - 1 && s[i] == '_' && s[i + 1] == '_' }

  predicate IsSkillOrMcpToolName(name: string) {
    HasDoubleUnderscore(name) || StartsWith(name, "feishu_") || StartsWith(name, "chrome-devtools")
    || StartsWith(name, "chrome_")
  }

  /** The higher, the sooner evicted; 0 is never. */
  function Tier(name: string, p: Policy): (t: nat)
    ensures t <= 3
  {
    if name in p.protectedNames then 0
    else if name in EVICT_FIRST || IsSkillOrMcpToolName(name) then 3
    else if name in p.coreKeep then 1
    else 2
  }

  function TotalSize(ts: seq<Tool>): nat { if ts == [] then 0 else ts[0].size + TotalSize(ts[1..]) }

  /** The length of the JSON text of a list that is not empty: two brackets, and commas between. */
  function JsonLength(ts: seq<Tool>): nat { TotalSize(ts) + |ts| + 1 }

  /** At 3.5 characters a token, rounded up. */
  function EstimateToolDefTokens(ts: seq<Tool>): (n: nat)
    ensures ts != [] ==> 2 * JsonLength(ts) <= 7 * n < 2 * JsonLength(ts) + 7
    ensures ts == [] ==> n == 0
  {
    if ts == [] then 0 else (2 * JsonLength(ts) + 6) / 7
  }

  // ------------------------------------------------------------------------------- the plan

  /** Tool `i` of the list goes before tool `j`: by tier, then by size, then by position. */
  predicate Sooner(ts: seq<Tool>, p: Policy, i: nat, j: nat)
    requires i < |ts| && j < |ts|
  {
    var ti, tj := Tier(ts[i].name, p), Tier(ts[j].name, p);
    ti > tj || (ti == tj && (ts[i].size > ts[j].size || (ts[i].size == ts[j].size && i < j)))
  }

  predicate Evictable(ts: seq<Tool>, p: Policy, i: nat) { i < |ts| && Tier(ts[i].name, p) != 0 }

  /** The positions below `n` that are not in `out`, in order. */
  function Left(n: nat, out: seq<nat>): seq<nat> {
    if n == 0 then [] else Left(n - 1, out) + (if n - 1 in out then [] else [n - 1])
  }

  function Pick(ts: seq<Tool>, at: seq<nat>): (r: seq<Tool>)
    requires forall k :: 0 <= k < |at| ==> at[k] < |ts|
    ensures |r| == |at| && forall k :: 0 <= k < |at| ==> r[k] == ts[at[k]]
  {
    seq(|at|, k requires 0 <= k < |at| => ts[at[k]])
  }

  ghost predicate Increasing(s: seq<nat>) { forall a, b :: 0 <= a < b < |s| ==> s[a] < s[b] }

  lemma {:induction false} LeftHas(n: nat, out: seq<nat>)
    ensures forall i: nat :: i in Left(n, out) <==> i < n && i !in out
  {
    if n > 0 { LeftHas(n - 1, out); }
  }

  lemma {:induction false} LeftMembers(n: nat, out: seq<nat>)
    ensures forall i: nat :: i in Left(n, out) <==> i < n && i !in out
    ensures Increasing(Left(n, out))
  {
    LeftHas(n, out);
    if n == 0 {
      assert Left(n, out) == [];
    } else {
      LeftMembers(n - 1, out);
      OneLarger(Left(n - 1, out), n - 1);
    }
  }

  lemma OneLarger(s: seq<nat>, x: nat)
    requires Increasing(s) && forall y :: y in s ==> y < x
    ensures Increasing(s + [x])
    ensures s + [] == s
  {
    assert forall a :: 0 <= a < |s| ==> s[a] in s;
  }

  function Survivors(ts: seq<Tool>, out: seq<nat>): seq<Tool> {
    LeftMembers(|ts|, out);
    assert forall k :: 0 <= k < |Left(|ts|, out)| ==> Left(|ts|, out)[k] in Left(|ts|, out);
    Pick(ts, Left(|ts|, out))
  }

  predicate Fits(ts: seq<Tool>, budget: int) { EstimateToolDefTokens(ts) <= budget || ts == [] }

  ghost predicate InOrder(ts: seq<Tool>, p: Policy, out: seq<nat>) {
    && (forall a :: 0 <= a < |out| ==> Evictable(ts, p, out[a]))
    && (forall a, b :: 0 <= a < b < |out| ==> Sooner(ts, p, out[a], out[b]))
  }

  /** Whatever may be evicted and is not would have come later. */
  ghost predicate NoneSkipped(ts: seq<Tool>, p: Policy, out: seq<nat>)
    requires InOrder(ts, p, out)
  {
    forall a, j :: 0 <= a < |out| && Evictable(ts, p, j) && j !in out ==> Sooner(ts, p, out[a], j)
  }

  /** Stopping any sooner would have left too much. */
  ghost predicate NoneTooMany(ts: seq<Tool>, budget: int, out: seq<nat>) {
    forall k :: 0 <= k < |out| ==> !Fits(Survivors(ts, out[..k]), budget)
  }

  /** `out` is the shortest beginning of the order of eviction whose removal is enough, or the
      whole of it. */
  ghost predicate IsEvictionPlan(ts: seq<Tool>, p: Policy, budget: int, out: seq<nat>) {
    && InOrder(ts, p, out)
    && NoneSkipped(ts, p, out)
    && NoneTooMany(ts, budget, out)
    && (Fits(Survivors(ts, out), budget) || forall j :: Evictable(ts, p, j) ==> j in out)
  }

  function Notes(ts: seq<Tool>, out: seq<nat>): seq<Evicted>
    requires forall k :: 0 <= k < |out| ==> out[k] < |ts|
  {
    seq(|out|, k requires 0 <= k < |out| => NoteOf(ts[out[k]]))
  }

  function NoteOf(t: Tool): Evicted {
    Evicted(t.name, if |t.description| <= DESCRIPTION_CHARS then t.description else t.description[..DESCRIPTION_CHARS])
  }

  // ------------------------------------------------------------------------------- the loop

  ghost predicate IsVictim(ts: seq<Tool>, p: Policy, v: nat, n: nat)
    requires v < n <= |ts|
  {
    Evictable(ts, p, v) && forall j :: 0 <= j < n && j != v && Evictable(ts, p, j) ==> Sooner(ts, p, v, j)
  }

  /** The largest tool of the highest tier there is, the first of several; -1 if all are
      protected. */
  method PickVictim(current: seq<Tool>, p: Policy) returns (victimIdx: int)
    ensures -1 <= victimIdx < |current|
    ensures victimIdx >= 0 ==> IsVictim(current, p, victimIdx, |current|)
    ensures victimIdx < 0 ==> forall j :: 0 <= j < |current| ==> !Evictable(current, p, j)
  {
    hide Tier;
    victimIdx := -1;
    var bestTier: nat := 0;
    var victimSize: int := -1;
    for i := 0 to |current|
      invariant -1 <= victimIdx < i
      invariant victimIdx >= 0 ==> IsVictim(current, p, victimIdx, i)
      invariant victimIdx >= 0 ==> bestTier == Tier(current[victimIdx].name, p) && victimSize == current[victimIdx].size
      invariant victimIdx < 0 ==> bestTier == 0 && forall j :: 0 <= j < i ==> !Evictable(current, p, j)
    {
      var tier := Tier(current[i].name, p);
      if tier != 0 {
        var size := current[i].size;
        if tier > bestTier || (tier == bestTier && size > victimSize) {
          bestTier, victimSize, victimIdx := tier, size, i;
        }
      }
    }
  }

  /** Taking one more tool out of the list. */
  lemma {:induction false} LeftOneLess(n: nat, out: seq<nat>, v: nat)
    requires v < |Left(n, out)|
    ensures Left(n, out + [Left(n, out)[v]]) == Left(n, out)[..v] + Left(n, out)[v + 1..]
  {
    var all, e := Left(n, out), Left(n, out)[v];
    var l := Left(n - 1, out);
    if v < |l| {
      assert l[v] == e;
      LeftOneLess(n - 1, out, v);
      IsBelow(n - 1, out, v);
      assert all[..v] == l[..v];
      assert all[v + 1..] == l[v + 1..] + (if n - 1 in out then [] else [n - 1]);
    } else {
      assert e == n - 1;
      LeftUnchanged(n - 1, out, e);
      assert all[..v] == l && all[v + 1..] == [];
    }
  }

  lemma IsBelow(n: nat, out: seq<nat>, v: nat)
    requires v < |Left(n, out)|
    ensures Left(n, out)[v] < n && Left(n, out)[v] !in out
  {
  }

  lemma {:induction false} LeftUnchanged(n: nat, out: seq<nat>, e: nat)
    requires e >= n
    ensures Left(n, out + [e]) == Left(n, out)
  {
    if n > 0 { LeftUnchanged(n - 1, out, e); }
  }

  lemma SurvivorsOneLess(ts: seq<Tool>, out: seq<nat>, v: nat)
    requires v < |Left(|ts|, out)|
    ensures var at := Left(|ts|, out);
            at[v] < |ts| && |Survivors(ts, out)| == |at|
            && Survivors(ts, out + [at[v]]) == Survivors(ts, out)[..v] + Survivors(ts, out)[v + 1..]
  {
    hide Left, Pick, Survivors;
    var at := Left(|ts|, out);
    SurvivorsArePicked(ts, out);
    SurvivorsArePicked(ts, out + [at[v]]);
    LeftOneLess(|ts|, out, v);
    PickOneLess(ts, at, v);
  }

  lemma SurvivorsArePicked(ts: seq<Tool>, out: seq<nat>)
    ensures forall k :: 0 <= k < |Left(|ts|, out)| ==> Left(|ts|, out)[k] < |ts|
    ensures Survivors(ts, out) == Pick(ts, Left(|ts|, out))
  {
    hide Left, Pick;
    LeftMembers(|ts|, out);
    assert forall k :: 0 <= k < |Left(|ts|, out)| ==> Left(|ts|, out)[k] in Left(|ts|, out);
  }

  lemma PickOneLess(ts: seq<Tool>, at: seq<nat>, v: nat)
    requires v < |at| && forall k :: 0 <= k < |at| ==> at[k] < |ts|
    ensures |Pick(ts, at)| == |at|
    ensures Pick(ts, at[..v] + at[v + 1..]) == Pick(ts, at)[..v] + Pick(ts, at)[v + 1..]
  {}

  /** The victim of the list that is left is the next one in the order of the whole list. */
  lemma VictimIsNext(ts: seq<Tool>, p: Policy, out: seq<nat>, v: nat)
    requires InOrder(ts, p, out) && NoneSkipped(ts, p, out)
    requires v < |Survivors(ts, out)| && IsVictim(Survivors(ts, out), p, v, |Survivors(ts, out)|)
    ensures var e := Left(|ts|, out)[v];
            InOrder(ts, p, out + [e]) && NoneSkipped(ts, p, out + [e])
  {
    hide Tier, Left;
    var at, cur := Left(|ts|, out), Survivors(ts, out);
    LeftMembers(|ts|, out);
    var e, more := at[v], out + [at[v]];
    assert e in at && Evictable(cur, p, v);
    forall j | Evictable(ts, p, j) && j !in more
      ensures Sooner(ts, p, e, j)
    {
      assert j in at;
      var k :| 0 <= k < |at| && at[k] == j;
      assert Evictable(cur, p, k) && Sooner(cur, p, v, k);
    }
  }

  lemma NothingLeftToEvict(ts: seq<Tool>, p: Policy, out: seq<nat>)
    requires forall k :: 0 <= k < |Survivors(ts, out)| ==> !Evictable(Survivors(ts, out), p, k)
    ensures forall j :: Evictable(ts, p, j) ==> j in out
  {
    hide Tier, Left;
    LeftMembers(|ts|, out);
    forall j | Evictable(ts, p, j)
      ensures j in out
    {
      var at := Left(|ts|, out);
      assert forall k :: 0 <= k < |at| && at[k] == j ==> Evictable(Survivors(ts, out), p, k);
    }
  }

  lemma {:induction false} NothingOut(n: nat)
    ensures |Left(n, [])| == n && forall i :: 0 <= i < n ==> Left(n, [])[i] == i
  {
    if n > 0 { NothingOut(n - 1); }
  }

  lemma TooManyOneMore(ts: seq<Tool>, budget: int, out: seq<nat>, e: nat)
    requires NoneTooMany(ts, budget, out) && !Fits(Survivors(ts, out), budget)
    ensures NoneTooMany(ts, budget, out + [e])
  {
    hide Fits, Survivors;
    forall k | 0 <= k < |out + [e]|
      ensures !Fits(Survivors(ts, (out + [e])[..k]), budget)
    {
      assert (out + [e])[..k] == out[..k];
      assert out[..|out|] == out;
    }
  }

  /** The tools at the positions of `out` are gone, and they are noted in its order. */
  ghost predicate CarriesOut(ts: seq<Tool>, out: seq<nat>, current: seq<Tool>, evicted: seq<Evicted>) {
    && current == Remaining(ts, out)
    && |evicted| == |out|
    && forall k :: 0 <= k < |out| ==>
         && out[k] < |ts| && evicted[k].name == ts[out[k]].name
         && evicted[k].description <= ts[out[k]].description
         && |evicted[k].description| == if |ts[out[k]].description| < 60 then |ts[out[k]].description| else 60
  }

  method EvictToolsToBudget(tools: seq<Tool>, budget: int, p: Policy)
    returns (current: seq<Tool>, evicted: seq<Evicted>)
    ensures exists plan :: IsEvictionPlan(tools, p, budget, plan) && CarriesOut(tools, plan, current, evicted)
  {
    hide *;
    current, evicted := tools, [];
    ghost var plan: seq<nat> := [];
    StartOfPlan(tools, p, budget);
    while EstimateToolDefTokens(current) > budget && |current| > 0
      invariant InOrder(tools, p, plan) && NoneSkipped(tools, p, plan) && NoneTooMany(tools, budget, plan)
      invariant current == Survivors(tools, plan)
      invariant (forall k :: 0 <= k < |plan| ==> plan[k] < |tools|) && evicted == Notes(tools, plan)
      decreases |current|
    {
      FitsMeans(current, budget);
      var victimIdx := PickVictim(current, p);
      if victimIdx < 0 {
        NothingLeftToEvict(tools, p, plan);
        PlanIs(tools, p, budget, plan);
        CarriedOut(tools, plan, current, evicted);
        return;
      }
      SurvivorsAt(tools, plan);
      ghost var e := Left(|tools|, plan)[victimIdx];
      SurvivorsOneLess(tools, plan, victimIdx);
      VictimIsNext(tools, p, plan, victimIdx);
      TooManyOneMore(tools, budget, plan, e);
      NotesOneMore(tools, plan, e);
      evicted := evicted + [NoteOf(current[victimIdx])];
      current := current[..victimIdx] + current[victimIdx + 1..];
      plan := plan + [e];
    }
    FitsMeans(current, budget);
    PlanIs(tools, p, budget, plan);
    CarriedOut(tools, plan, current, evicted);
  }

  lemma CarriedOut(ts: seq<Tool>, out: seq<nat>, current: seq<Tool>, evicted: seq<Evicted>)
    requires current == Survivors(ts, out)
    requires (forall k :: 0 <= k < |out| ==> out[k] < |ts|) && evicted == Notes(ts, out)
    ensures CarriesOut(ts, out, current, evicted)
  {
    hide Survivors, Remaining;
    SurvivorsRemain(ts, out);
  }

  lemma StartOfPlan(ts: seq<Tool>, p: Policy, budget: int)
    ensures InOrder(ts, p, []) && NoneSkipped(ts, p, []) && NoneTooMany(ts, budget, [])
    ensures Survivors(ts, []) == ts && Notes(ts, []) == []
  {
    NothingOut(|ts|);
  }

  lemma FitsMeans(ts: seq<Tool>, budget: int)
    ensures Fits(ts, budget) <==> EstimateToolDefTokens(ts) <= budget || |ts| == 0
  {
  }

  lemma PlanIs(ts: seq<Tool>, p: Policy, budget: int, out: seq<nat>)
    requires InOrder(ts, p, out) && NoneSkipped(ts, p, out) && NoneTooMany(ts, budget, out)
    requires Fits(Survivors(ts, out), budget) || forall j :: Evictable(ts, p, j) ==> j in out
    ensures IsEvictionPlan(ts, p, budget, out)
  {
  }

  lemma SurvivorsAt(ts: seq<Tool>, out: seq<nat>)
    ensures |Survivors(ts, out)| == |Left(|ts|, out)|
    ensures forall v :: 0 <= v < |Left(|ts|, out)| ==>
              Left(|ts|, out)[v] < |ts| && Survivors(ts, out)[v] == ts[Left(|ts|, out)[v]]
  {
    hide Left;
    LeftMembers(|ts|, out);
    assert forall v :: 0 <= v < |Left(|ts|, out)| ==> Left(|ts|, out)[v] in Left(|ts|, out);
  }

  lemma NotesOneMore(ts: seq<Tool>, out: seq<nat>, e: nat)
    requires (forall k :: 0 <= k < |out| ==> out[k] < |ts|) && e < |ts|
    ensures (forall k :: 0 <= k < |out + [e]| ==> (out + [e])[k] < |ts|)
    ensures Notes(ts, out + [e]) == Notes(ts, out) + [NoteOf(ts[e])]
  {
  }

  // ------------------------------------------------------------------- what a plan comes down to

  lemma SoonerIsStrict(ts: seq<Tool>, p: Policy, i: nat, j: nat)
    requires i < |ts| && j < |ts| && Sooner(ts, p, i, j)
    ensures !Sooner(ts, p, j, i) && i != j
  {
  }

  /** Two plans agree as far as both go. */
  lemma {:induction false} PlansAgree(ts: seq<Tool>, p: Policy, a: seq<nat>, b: seq<nat>, k: nat)
    requires InOrder(ts, p, a) && NoneSkipped(ts, p, a) && InOrder(ts, p, b) && NoneSkipped(ts, p, b)
    requires k <= |a| && k <= |b|
    ensures a[..k] == b[..k]
  {
    hide Sooner;
    if k > 0 {
      PlansAgree(ts, p, a, b, k - 1);
      var x, y := a[k - 1], b[k - 1];
      assert Evictable(ts, p, x) && Evictable(ts, p, y);
      if x != y {
        NextBefore(ts, p, a, b, k - 1);
        NextBefore(ts, p, b, a, k - 1);
        SoonerIsStrict(ts, p, x, y);
      }
      assert a[..k] == a[..k - 1] + [x] && b[..k] == b[..k - 1] + [y];
    }
  }

  lemma NextBefore(ts: seq<Tool>, p: Policy, a: seq<nat>, b: seq<nat>, k: nat)
    requires InOrder(ts, p, a) && InOrder(ts, p, b) && NoneSkipped(ts, p, a)
    requires k < |a| && k < |b| && a[..k] == b[..k] && a[k] != b[k]
    ensures Evictable(ts, p, a[k]) && Evictable(ts, p, b[k]) && Sooner(ts, p, a[k], b[k])
  {
  }

  /** The list, the policy and the budget leave one plan, so what the loop evicts, and in which
      order, is settled by the ranking alone. */
  lemma PlanIsUnique(ts: seq<Tool>, p: Policy, budget: int, a: seq<nat>, b: seq<nat>)
    requires IsEvictionPlan(ts, p, budget, a) && IsEvictionPlan(ts, p, budget, b)
    ensures a == b
  {
    hide Sooner, Fits, Survivors;
    if |a| < |b| {
      PlanIsShortest(ts, p, budget, a, b);
    } else if |b| < |a| {
      PlanIsShortest(ts, p, budget, b, a);
    } else {
      PlansAgree(ts, p, a, b, |a|);
      assert a[..|a|] == a && b[..|b|] == b;
    }
  }

  lemma PlanIsShortest(ts: seq<Tool>, p: Policy, budget: int, a: seq<nat>, b: seq<nat>)
    requires IsEvictionPlan(ts, p, budget, a) && IsEvictionPlan(ts, p, budget, b)
    ensures |a| >= |b|
  {
    hide Sooner, Fits, Survivors;
    if |a| < |b| {
      PlansAgree(ts, p, a, b, |a|);
      assert a[..|a|] == a;
      assert Evictable(ts, p, b[|a|]);
      var i :| 0 <= i < |a| && a[i] == b[|a|];
      assert b[i] == b[..|a|][i];
      SoonerIsStrict(ts, p, b[i], b[|a|]);
    }
  }

  // -------------------------------------------------------------------------- the text that is sent

  /** The JSON text of a list, from the texts of its elements. */
  function JsonText(texts: seq<string>): string { "[" + Joined(texts, ",") + "]" }

  /** These are the JSON texts of the tools, whatever they are. */
  ghost predicate AreTexts(ts: seq<Tool>, texts: seq<string>) {
    |texts| == |ts| && forall i :: 0 <= i < |ts| ==> |texts[i]| == ts[i].size
  }

  lemma {:induction false} TextLength(ts: seq<Tool>, texts: seq<string>)
    requires AreTexts(ts, texts) && ts != []
    ensures |Joined(texts, ",")| == TotalSize(ts) + |ts| - 1
  {
    if |ts| > 1 {
      TextLength(ts[1..], texts[1..]);
    } else {
      assert TotalSize(ts[1..]) == 0;
    }
  }

  /** The estimate of a list that is not empty is the least number of tokens that covers its text at
      3.5 characters each. */
  lemma EstimateCoversTheText(ts: seq<Tool>, texts: seq<string>)
    requires AreTexts(ts, texts)
    ensures var n := EstimateToolDefTokens(ts);
            if ts == [] then n == 0
            else 7 * n >= 2 * |JsonText(texts)| && 7 * (n - 1) < 2 * |JsonText(texts)|
  {
    if ts != [] { TextLength(ts, texts); }
  }

  /** What is left without the positions of `out`. */
  function Remaining<T>(xs: seq<T>, out: seq<nat>): seq<T> {
    if xs == [] then []
    else Remaining(xs[..|xs| - 1], out) + (if |xs| - 1 in out then [] else [xs[|xs| - 1]])
  }

  lemma {:induction false} RemainingTexts(ts: seq<Tool>, texts: seq<string>, out: seq<nat>)
    requires AreTexts(ts, texts)
    ensures AreTexts(Remaining(ts, out), Remaining(texts, out))
  {
    if ts != [] { RemainingTexts(ts[..|ts| - 1], texts[..|ts| - 1], out); }
  }

  lemma {:induction false} PickedRemain(ts: seq<Tool>, out: seq<nat>, n: nat)
    requires n <= |ts|
    ensures forall k :: 0 <= k < |Left(n, out)| ==> Left(n, out)[k] < |ts|
    ensures Pick(ts, Left(n, out)) == Remaining(ts[..n], out)
  {
    if n > 0 {
      PickedRemain(ts, out, n - 1);
      assert ts[..n][..n - 1] == ts[..n - 1];
    }
  }

  lemma SurvivorsRemain(ts: seq<Tool>, out: seq<nat>)
    ensures Survivors(ts, out) == Remaining(ts, out)
  {
    SurvivorsArePicked(ts, out);
    PickedRemain(ts, out, |ts|);
    assert ts[..|ts|] == ts;
  }

  lemma FitsTheText(ts: seq<Tool>, texts: seq<string>, budget: int, out: seq<nat>)
    requires AreTexts(ts, texts)
    ensures var rest := Remaining(texts, out);
            Fits(Survivors(ts, out), budget) <==> rest == [] || 2 * |JsonText(rest)| <= 7 * budget
  {
    hide JsonText, EstimateToolDefTokens, Survivors, Remaining;
    SurvivorsRemain(ts, out);
    RemainingTexts(ts, texts, out);
    EstimateCoversTheText(Remaining(ts, out), Remaining(texts, out));
  }

  /** A plan is the shortest that is enough, in characters: what is left is nothing, or a text of at
      most 3.5 characters for each token of the budget, or only protected tools; and with one tool
      evicted less, or more of them, the text would have been longer than that. */
  lemma PlanFitsTheText(ts: seq<Tool>, texts: seq<string>, p: Policy, budget: int, out: seq<nat>)
    requires IsEvictionPlan(ts, p, budget, out) && AreTexts(ts, texts)
    ensures var rest := Remaining(texts, out);
            || rest == [] || 2 * |JsonText(rest)| <= 7 * budget
            || forall j :: 0 <= j < |ts| && j !in out ==> ts[j].name in p.protectedNames
    ensures forall k :: 0 <= k < |out| ==> 2 * |JsonText(Remaining(texts, out[..k]))| > 7 * budget
  {
    hide JsonText, Survivors, Fits, Remaining;
    FitsTheText(ts, texts, budget, out);
    forall k | 0 <= k < |out|
      ensures 2 * |JsonText(Remaining(texts, out[..k]))| > 7 * budget
    {
      FitsTheText(ts, texts, budget, out[..k]);
    }
    if !Fits(Survivors(ts, out), budget) {
      forall j: nat | j < |ts| && j !in out
        ensures ts[j].name in p.protectedNames
      {
        assert !Evictable(ts, p, j);
      }
    }
  }

  // -------------------------------------------------------------------------- the order, by the names

  /** The extras, and what a skill or a server brings along. */
  ghost predicate Situational(name: string) {
    || name in EVICT_FIRST
    || (exists a, b :: name == a + "__" + b)
    || "feishu_" <= name || "chrome-devtools" <= name || "chrome_" <= name
  }

  /** Situational tools go before the others, core tools after them; then the larger tool goes before
      the smaller one, and the one that comes first in the list before the other. */
  ghost predicate GoesBefore(ts: seq<Tool>, p: Policy, i: nat, j: nat)
    requires i < |ts| && j < |ts|
  {
    var x, y := ts[i], ts[j];
    if Situational(x.name) != Situational(y.name) then Situational(x.name)
    else if !Situational(x.name) && (x.name in p.coreKeep) != (y.name in p.coreKeep) then y.name in p.coreKeep
    else x.size > y.size || (x.size == y.size && i < j)
  }

  lemma SkillNames(name: string)
    ensures Situational(name) <==> name in EVICT_FIRST || IsSkillOrMcpToolName(name)
  {
    if HasDoubleUnderscore(name) {
      var i :| 0 <= i < |name| - 1 && name[i] == '_' && name[i + 1] == '_';
      assert name == name[..i] + "__" + name[i + 2..];
    }
    if a, b :| name == a + "__" + b {
      assert name[|a|] == '_' && name[|a| + 1] == '_';
    }
  }

  lemma SoonerIs(ts: seq<Tool>, p: Policy, i: nat, j: nat)
    requires i < |ts| && j < |ts| && ts[i].name !in p.protectedNames && ts[j].name !in p.protectedNames
    ensures Sooner(ts, p, i, j) <==> GoesBefore(ts, p, i, j)
  {
    hide Situational, IsSkillOrMcpToolName;
    SkillNames(ts[i].name);
    SkillNames(ts[j].name);
  }

  /** Protected tools are never evicted; whatever else stays would have gone after everything that is
      evicted, and the tools are evicted in that order. */
  lemma EvictedByPrecedence(ts: seq<Tool>, p: Policy, budget: int, out: seq<nat>)
    requires IsEvictionPlan(ts, p, budget, out)
    ensures forall e :: e in out ==> e < |ts| && ts[e].name !in p.protectedNames
    ensures forall a, b :: 0 <= a < b < |out| ==> GoesBefore(ts, p, out[a], out[b])
    ensures forall e, j: nat :: e in out && j < |ts| && j !in out && ts[j].name !in p.protectedNames ==>
              GoesBefore(ts, p, e, j)
  {
    hide Sooner, GoesBefore, Fits, Survivors;
    forall a | 0 <= a < |out|
      ensures out[a] < |ts| && ts[out[a]].name !in p.protectedNames
    {
      assert Evictable(ts, p, out[a]);
    }
    forall a, b | 0 <= a < b < |out|
      ensures GoesBefore(ts, p, out[a], out[b])
    {
      SoonerIs(ts, p, out[a], out[b]);
    }
    forall e, j: nat | e in out && j < |ts| && j !in out && ts[j].name !in p.protectedNames
      ensures GoesBefore(ts, p, e, j)
    {
      var a :| 0 <= a < |out| && out[a] == e;
      assert Evictable(ts, p, j);
      SoonerIs(ts, p, e, j);
    }
  }
}
