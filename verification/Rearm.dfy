/** How often an unchanged section comes back. */
module Rearm {
  import opened Prelude
  import opened Texts
  import opened Sections
  import opened Checkpoints
  import opened Pipeline
  import opened VolatileTail
  import opened Completeness

  // ------------------------------------------------------------------------- the re-arm counter

  /** The snapshot after `k` further calls inside the turn with the same blob. */
  function SnapshotAfter(norm: Text -> Text, start: Snapshot, ss: seq<Section>, k: nat): Snapshot {
    if k == 0 then start else GateOf(norm, Some(SnapshotAfter(norm, start, ss, k - 1)), false, ss).next
  }

  /** What the `k`-th of those calls sends. */
  function SentAt(norm: Text -> Text, start: Snapshot, ss: seq<Section>, k: nat): seq<Section>
    requires k >= 1
  {
    GateOf(norm, Some(SnapshotAfter(norm, start, ss, k - 1)), false, ss).sent
  }

  function OnlyFresh(ss: seq<Section>): seq<Section> {
    if ss == [] then []
    else
      var r, s := OnlyFresh(ss[..|ss| - 1]), ss[|ss| - 1];
      if AlwaysFresh(s.key) then r + [s] else r
  }

  ghost predicate AllUnchanged(norm: Text -> Text, prev: Option<Snapshot>, ss: seq<Section>) {
    forall i :: 0 <= i < |ss| ==> !Changed(norm, prev, ss[i])
  }

  lemma {:induction false} SentWhenUnchanged(norm: Text -> Text, prev: Option<Snapshot>, ss: seq<Section>)
    requires AllUnchanged(norm, prev, ss)
    ensures FreshOf(norm, prev, true, ss) == ss
    ensures FreshOf(norm, prev, false, ss) == OnlyFresh(ss)
  {
    hide Changed, AlwaysFresh;
    if ss != [] {
      var front, s := ss[..|ss| - 1], ss[|ss| - 1];
      assert ss == front + [s];
      SentWhenUnchanged(norm, prev, front);
    }
  }

  lemma Unchanged(norm: Text -> Text, calls: Count, ss: seq<Section>)
    requires UniqueKeys(ss)
    ensures AllUnchanged(norm, Some(Snapshot(HashesOf(norm, ss), calls)), ss)
  {
  }

  /** The rule of the gate. */
  lemma {:induction false} GateRearms(norm: Text -> Text, ss: seq<Section>, k: nat)
    requires UniqueKeys(ss) && ss != []
    ensures var start := Snapshot(HashesOf(norm, ss), Since(0));
            var only := OnlyFresh(ss);
            && SnapshotAfter(norm, start, ss, k)
               == Snapshot(HashesOf(norm, ss), Since(if only == [] then k % (REARM_CALLS + 1) else 0))
            && (k >= 1 ==> SentAt(norm, start, ss, k)
                           == if only != [] then only
                              else if k % (REARM_CALLS + 1) == 0 then ss else [])
  {
    hide FreshOf, HashesOf, UniqueKeys, OnlyFresh, ChangedOf, OmittedOf, AllUnchanged;
    if k > 0 {
      GateRearms(norm, ss, k - 1);
      var start := Snapshot(HashesOf(norm, ss), Since(0));
      var prev := SnapshotAfter(norm, start, ss, k - 1);
      Unchanged(norm, prev.calls, ss);
      SentWhenUnchanged(norm, Some(prev), ss);
    }
  }

  // ------------------------------------------------------------------------ the calls of a turn

  /** The engine lists each session it has a snapshot of once, and keeps no more than it may. */
  ghost predicate Tidy(st: State) {
    && |st.snapshots| <= MAX_SESSIONS
    && (forall sid :: sid in st.order <==> sid in st.snapshots)
    && forall i, j :: 0 <= i < j < |st.order| ==> st.order[i] != st.order[j]
  }

  /** The first call of a turn sends everything: the engine has just recorded it all. */
  ghost predicate JustSent(norm: Text -> Text, st: State, sid: SessionId, ss: seq<Section>) {
    sid in st.snapshots && st.snapshots[sid] == Snapshot(HashesOf(norm, ss), Since(0))
  }

  lemma EvictKeepsTheNewest(snaps: map<SessionId, Snapshot>, order: seq<SessionId>, sid: SessionId)
    requires |snaps| <= MAX_SESSIONS + 1 && sid in snaps
    requires forall x :: x in order <==> x in snaps
    requires forall i, j :: 0 <= i < j < |order| ==> order[i] != order[j]
    requires |snaps| > MAX_SESSIONS ==> order != [] && order[0] != sid
    ensures var (kept, left) := Evict(snaps, order);
            Tidy(State(kept, left, map[])) && sid in kept && kept[sid] == snaps[sid]
  {
    hide Evict, Tidy;
    EvictStep(snaps, order);
    if |snaps| > MAX_SESSIONS {
      OldestGone(snaps, order);
      EvictStep(snaps - {order[0]}, order[1..]);
    } else {
      TidyAlready(snaps, order);
    }
  }

  lemma TidyAlready(snaps: map<SessionId, Snapshot>, order: seq<SessionId>)
    requires |snaps| <= MAX_SESSIONS && forall x :: x in order <==> x in snaps
    requires forall i, j :: 0 <= i < j < |order| ==> order[i] != order[j]
    ensures Tidy(State(snaps, order, map[]))
  {}

  lemma OldestGone(snaps: map<SessionId, Snapshot>, order: seq<SessionId>)
    requires order != [] && |snaps| <= MAX_SESSIONS + 1 && forall x :: x in order <==> x in snaps
    requires forall i, j :: 0 <= i < j < |order| ==> order[i] != order[j]
    ensures |snaps - {order[0]}| <= MAX_SESSIONS && Tidy(State(snaps - {order[0]}, order[1..], map[]))
  {
    var fewer, later := snaps - {order[0]}, order[1..];
    assert order[0] in order && order[0] in snaps;
    assert fewer.Keys == snaps.Keys - {order[0]};
    assert order == [order[0]] + later;
    assert order[0] !in later;
  }

  lemma OneOfMany(order: seq<SessionId>, snaps: map<SessionId, Snapshot>)
    requires forall x :: x in snaps ==> x in order
    ensures |snaps| >= 1 ==> order != []
  {
    if |snaps| >= 1 {
      assert snaps.Keys != {};
      var x :| x in snaps.Keys;
      assert x in order;
    }
  }

  /** Every call leaves the engine tidy, with the snapshot of its own session as the gate made it. */
  lemma CallStaysTidy(cut: Message -> Text, norm: Text -> Text, st: State, sid: SessionId, blob: Text,
                      hint: Option<Text>, persists: bool)
    requires Tidy(st)
    ensures var st' := Prepare(cut, norm, st, sid, blob, hint, persists).0;
            Tidy(st') && sid in st'.snapshots && st'.snapshots[sid] == GateAt(cut, norm, st, sid, blob).next
  {
    hide *;
    PrepareIs(cut, norm, st, sid, blob, hint, persists);
    GateAtIs(cut, norm, st, sid, blob);
    OneMoreSession(st, sid, GateAt(cut, norm, st, sid, blob).next);
    var st' := Prepare(cut, norm, st, sid, blob, hint, persists).0;
    TidyIs(State(st'.snapshots, st'.order, map[]), st');
  }

  lemma OneMoreSession(st: State, sid: SessionId, next: Snapshot)
    requires Tidy(st)
    ensures var (kept, left) := Evict(st.snapshots[sid := next],
                                      if sid in st.order then st.order else st.order + [sid]);
            Tidy(State(kept, left, map[])) && sid in kept && kept[sid] == next
  {
    hide Evict;
    var snaps := st.snapshots[sid := next];
    var order := if sid in st.order then st.order else st.order + [sid];
    assert snaps.Keys == st.snapshots.Keys + {sid};
    assert |snaps| == |snaps.Keys| <= |st.snapshots.Keys| + 1;
    assert sid in st.order ==> snaps.Keys == st.snapshots.Keys;
    OneOfMany(st.order, st.snapshots);
    EvictKeepsTheNewest(snaps, order, sid);
  }

  /** There is room for 64 sessions. A call for one more takes the place of the session that has been
      there the longest; no other snapshot goes. */
  lemma OldestSessionGoes(cut: Message -> Text, norm: Text -> Text, st: State, sid: SessionId, blob: Text,
                          hint: Option<Text>, persists: bool)
    requires Tidy(st)
    ensures var st' := Prepare(cut, norm, st, sid, blob, hint, persists).0;
            var next := GateAt(cut, norm, st, sid, blob).next;
            if sid in st.snapshots then st'.snapshots == st.snapshots[sid := next] && st'.order == st.order
            else if |st.snapshots| < 64 then
              st'.snapshots == st.snapshots[sid := next] && st'.order == st.order + [sid]
            else
              && st.order != []
              && st'.snapshots == (st.snapshots - {st.order[0]})[sid := next] && st'.order == st.order[1..] + [sid]
  {
    hide *;
    PrepareIs(cut, norm, st, sid, blob, hint, persists);
    GateAtIs(cut, norm, st, sid, blob);
    OneGoes(st, sid, GateAt(cut, norm, st, sid, blob).next);
  }

  lemma OneGoes(st: State, sid: SessionId, next: Snapshot)
    requires Tidy(st)
    ensures var (kept, left) := Evict(st.snapshots[sid := next],
                                      if sid in st.order then st.order else st.order + [sid]);
            if sid in st.snapshots then kept == st.snapshots[sid := next] && left == st.order
            else if |st.snapshots| < 64 then kept == st.snapshots[sid := next] && left == st.order + [sid]
            else
              && st.order != []
              && kept == (st.snapshots - {st.order[0]})[sid := next] && left == st.order[1..] + [sid]
  {
    hide Evict;
    var snaps := st.snapshots[sid := next];
    assert snaps.Keys == st.snapshots.Keys + {sid};
    if sid in st.snapshots {
      assert snaps.Keys == st.snapshots.Keys && |snaps| == |snaps.Keys|;
      EvictStep(snaps, st.order);
    } else if |st.snapshots| < 64 {
      OneKeyMore(st.snapshots, sid, next);
      EvictStep(snaps, st.order + [sid]);
    } else {
      FirstGoes(st, sid, next);
    }
  }

  lemma OneKeyMore(snaps: map<SessionId, Snapshot>, sid: SessionId, next: Snapshot)
    requires sid !in snaps
    ensures |snaps[sid := next]| == |snaps| + 1
  {
    assert snaps[sid := next].Keys == snaps.Keys + {sid};
    assert |snaps[sid := next]| == |snaps[sid := next].Keys|;
  }

  lemma FirstGoes(st: State, sid: SessionId, next: Snapshot)
    requires Tidy(st) && sid !in st.snapshots && |st.snapshots| == 64
    ensures st.order != []
    ensures Evict(st.snapshots[sid := next], st.order + [sid])
            == ((st.snapshots - {st.order[0]})[sid := next], st.order[1..] + [sid])
  {
    hide Evict;
    var snaps, order := st.snapshots[sid := next], st.order + [sid];
    OneOfMany(st.order, st.snapshots);
    OneKeyMore(st.snapshots, sid, next);
    EvictStep(snaps, order);
    var first := st.order[0];
    assert first in st.order && first in st.snapshots && order[0] == first;
    var fewer := snaps - {first};
    assert fewer == (st.snapshots - {first})[sid := next];
    assert fewer.Keys == snaps.Keys - {first} && |fewer| == |fewer.Keys|;
    assert order[1..] == st.order[1..] + [sid];
    EvictStep(fewer, order[1..]);
  }

  lemma StepStaysTidy(cut: Message -> Text, norm: Text -> Text, st: State, e: Event)
    requires Tidy(st)
    ensures Tidy(Next(cut, norm, st, e))
  {
    hide Tidy, Prepare;
    match e
    case Append(_, _) => TidyIs(st, Next(cut, norm, st, e));
    case Call(sid, blob, hint, persists) => CallStaysTidy(cut, norm, st, sid, blob, hint, persists);
    case Restart => NothingIsTidy(st);
  }

  lemma TidyIs(st: State, st': State)
    requires Tidy(st) && st'.snapshots == st.snapshots && st'.order == st.order
    ensures Tidy(st')
  {}

  lemma NothingIsTidy(st: State)
    ensures Tidy(st.(snapshots := map[], order := []))
  {}

  lemma StartIsTidy()
    ensures Tidy(START)
  {}

  lemma {:induction false} RunStaysTidy(cut: Message -> Text, norm: Text -> Text, st: State, es: seq<Event>)
    requires Tidy(st)
    ensures Tidy(Run(cut, norm, st, es))
    decreases |es|
  {
    hide Tidy, Next;
    if es != [] {
      StepStaysTidy(cut, norm, st, es[0]);
      RunStaysTidy(cut, norm, Next(cut, norm, st, es[0]), es[1..]);
    }
  }

  lemma {:induction false} RunAppend(cut: Message -> Text, norm: Text -> Text, st: State, es: seq<Event>,
                                     more: seq<Event>)
    ensures Run(cut, norm, st, es + more) == Run(cut, norm, Run(cut, norm, st, es), more)
    decreases |es|
  {
    hide Next;
    if es == [] {
      assert es + more == more;
    } else {
      assert (es + more)[0] == es[0] && (es + more)[1..] == es[1..] + more;
      RunAppend(cut, norm, Next(cut, norm, st, es[0]), es[1..], more);
    }
  }

  /** What one iteration of the tool loop stores: replies and the results they ask for. */
  ghost predicate Iteration(g: seq<Message>) {
    LoopDelta(g) && g != [] && forall i :: 0 <= i < |g| ==> !g[i].role.User?
  }

  function Appends(sid: SessionId, g: seq<Message>): seq<Event> {
    if g == [] then [] else Appends(sid, g[..|g| - 1]) + [Append(sid, g[|g| - 1])]
  }

  /** The iterations of a turn, each followed by the next call. */
  function Iterations(sid: SessionId, blob: Text, hint: Option<Text>, persists: bool, gs: seq<seq<Message>>)
    : seq<Event>
  {
    if gs == [] then []
    else
      Iterations(sid, blob, hint, persists, gs[..|gs| - 1]) + Appends(sid, gs[|gs| - 1])
      + [Call(sid, blob, hint, persists)]
  }

  lemma {:induction false} AppendsRun(cut: Message -> Text, norm: Text -> Text, st: State, sid: SessionId,
                                      g: seq<Message>)
    ensures var st' := Run(cut, norm, st, Appends(sid, g));
            && st'.snapshots == st.snapshots && st'.order == st.order
            && HistoryOf(st'.histories, sid) == HistoryOf(st.histories, sid) + g
  {
    hide Prepare;
    if g != [] {
      var init, m := g[..|g| - 1], g[|g| - 1];
      AppendsRun(cut, norm, st, sid, init);
      RunAppend(cut, norm, st, Appends(sid, init), [Append(sid, m)]);
      var before := Run(cut, norm, st, Appends(sid, init));
      RunOne(cut, norm, before, Append(sid, m));
      assert g == init + [m];
    } else {
      assert HistoryOf(st.histories, sid) + g == HistoryOf(st.histories, sid);
    }
  }

  lemma RunOne(cut: Message -> Text, norm: Text -> Text, st: State, e: Event)
    ensures Run(cut, norm, st, [e]) == Next(cut, norm, st, e)
  {
    hide Next;
    assert [e][1..] == [];
  }

  /** After an iteration the call is not the first of its turn. */
  lemma NotTheFirst(r: seq<Message>, g: seq<Message>)
    requires r != [] && Iteration(g) && g[0].role.Assistant?
    ensures !FirstCallOfTurn(r + g)
  {
    hide Synthetic, LoopDelta;
    StartsBefore(r, g);
    assert (r + g)[|r|] == g[0];
  }

  lemma {:induction false} StartsBefore(r: seq<Message>, g: seq<Message>)
    requires r != [] && forall i :: 0 <= i < |g| ==> !g[i].role.User?
    ensures CurrentTurnStart(r + g) < |r|
  {
    hide Synthetic;
    if g == [] {
      assert r + g == r;
    } else {
      assert (r + g)[..|r + g| - 1] == r + g[..|g| - 1];
      assert (r + g)[|r + g| - 1] == g[|g| - 1];
      StartsBefore(r, g[..|g| - 1]);
    }
  }

  lemma NothingChanged(norm: Text -> Text, prev: Snapshot, ss: seq<Section>)
    requires UniqueKeys(ss) && prev.hashes == HashesOf(norm, ss)
    ensures ChangedOf(norm, Some(prev), ss) == []
  {
    hide Changed, ChangedOf, AllUnchanged, UniqueKeys;
    Unchanged(norm, prev.calls, ss);
    ChangedMembers(norm, Some(prev), ss);
    var c := ChangedOf(norm, Some(prev), ss);
    if c != [] {
      assert c[0] in c && c[0] in ss;
      UnchangedAt(norm, Some(prev), ss, c[0]);
    }
  }

  lemma UnchangedAt(norm: Text -> Text, prev: Option<Snapshot>, ss: seq<Section>, s: Section)
    requires AllUnchanged(norm, prev, ss) && s in ss
    ensures !Changed(norm, prev, s)
  {
    hide Changed;
  }

  /** One iteration and its call, on the engine: the gate goes on from its snapshot, as inside a turn,
      and nothing but the iteration is stored. */
  lemma OneIteration(cut: Message -> Text, norm: Text -> Text, st: State, sid: SessionId, blob: Text,
                     hint: Option<Text>, persists: bool, g: seq<Message>)
    requires Tidy(st) && sid in st.snapshots && Iteration(g) && UniqueKeys(SplitSections(blob))
    requires Replay(cut, HistoryOf(st.histories, sid)) != []
    requires st.snapshots[sid].hashes == HashesOf(norm, SplitSections(blob))
    ensures var before := Run(cut, norm, st, Appends(sid, g));
            var (st', req) := Prepare(cut, norm, before, sid, blob, hint, persists);
            var gate := GateOf(norm, Some(st.snapshots[sid]), false, SplitSections(blob));
            && GateAt(cut, norm, before, sid, blob) == gate
            && req.tail == Tail(hint, gate)
            && Tidy(st') && sid in st'.snapshots && st'.snapshots[sid] == gate.next
            && HistoryOf(st'.histories, sid) == HistoryOf(st.histories, sid) + g
            && Replay(cut, HistoryOf(st'.histories, sid)) != []
  {
    hide *;
    var h, ss := HistoryOf(st.histories, sid), SplitSections(blob);
    var before := Run(cut, norm, st, Appends(sid, g));
    AppendsRun(cut, norm, st, sid, g);
    TidyIs(st, before);
    IterationParts(g);
    ReplayIsAppendOnly(cut, h, g);
    NotTheFirst(Replay(cut, h), g);
    GateAtIs(cut, norm, before, sid, blob);
    GateChanged(norm, Some(st.snapshots[sid]), false, ss);
    NothingChanged(norm, st.snapshots[sid], ss);
    PrepareIs(cut, norm, before, sid, blob, hint, persists);
    CallStaysTidy(cut, norm, before, sid, blob, hint, persists);
  }

  lemma IterationParts(g: seq<Message>)
    requires Iteration(g)
    ensures LoopDelta(g) && g != [] && g[0].role.Assistant?
  {
    LoopDeltaParts(g);
  }

  lemma GateAtIs(cut: Message -> Text, norm: Text -> Text, st: State, sid: SessionId, blob: Text)
    ensures GateAt(cut, norm, st, sid, blob)
            == GateOf(norm, if sid in st.snapshots then Some(st.snapshots[sid]) else None,
                      FirstCallOfTurn(Replay(cut, HistoryOf(st.histories, sid))), SplitSections(blob))
  {}

  /** The first call of a turn sends everything and starts the count. */
  lemma FirstCallSendsEverything(cut: Message -> Text, norm: Text -> Text, st: State, sid: SessionId, blob: Text,
                                 hint: Option<Text>, persists: bool)
    requires Tidy(st) && SplitSections(blob) != []
    requires FirstCallOfTurn(Replay(cut, HistoryOf(st.histories, sid)))
    ensures GateAt(cut, norm, st, sid, blob).sent == SplitSections(blob)
    ensures JustSent(norm, Prepare(cut, norm, st, sid, blob, hint, persists).0, sid, SplitSections(blob))
  {
    hide Tidy, FirstCallOfTurn, Replay, SplitSections, Prepare, HashesOf, FreshOf;
    CallStaysTidy(cut, norm, st, sid, blob, hint, persists);
    var prev := if sid in st.snapshots then Some(st.snapshots[sid]) else None;
    AllAreSent(norm, prev, SplitSections(blob));
  }

  lemma {:induction false} AllAreSent(norm: Text -> Text, prev: Option<Snapshot>, ss: seq<Section>)
    ensures FreshOf(norm, prev, true, ss) == ss
  {
    if ss != [] {
      AllAreSent(norm, prev, ss[..|ss| - 1]);
      assert ss == ss[..|ss| - 1] + [ss[|ss| - 1]];
    }
  }

  /** The calls of a turn follow the gate. */
  lemma {:induction false} TurnFollowsTheGate(cut: Message -> Text, norm: Text -> Text, st: State, sid: SessionId,
                                              blob: Text, hint: Option<Text>, persists: bool, gs: seq<seq<Message>>)
    requires Tidy(st) && JustSent(norm, st, sid, SplitSections(blob)) && UniqueKeys(SplitSections(blob))
    requires Replay(cut, HistoryOf(st.histories, sid)) != [] && SplitSections(blob) != []
    requires forall g :: g in gs ==> Iteration(g)
    ensures var st' := Run(cut, norm, st, Iterations(sid, blob, hint, persists, gs));
            && Tidy(st') && sid in st'.snapshots
            && st'.snapshots[sid] == SnapshotAfter(norm, st.snapshots[sid], SplitSections(blob), |gs|)
            && Replay(cut, HistoryOf(st'.histories, sid)) != []
    decreases |gs|
  {
    hide Tidy, JustSent, Run, Replay, SplitSections, Prepare, HashesOf, Iteration, UniqueKeys, GateOf, Appends;
    JustSentIs(norm, st, sid, SplitSections(blob));
    if gs == [] {
      RunNothing(cut, norm, st);
    } else {
      var init, g := gs[..|gs| - 1], gs[|gs| - 1];
      assert gs == init + [g];
      TurnFollowsTheGate(cut, norm, st, sid, blob, hint, persists, init);
      var es := Iterations(sid, blob, hint, persists, init);
      var mid := Run(cut, norm, st, es);
      GateRearms(norm, SplitSections(blob), |init|);
      OneIteration(cut, norm, mid, sid, blob, hint, persists, g);
      IterationRuns(cut, norm, st, sid, blob, hint, persists, es, g);
    }
  }

  lemma JustSentIs(norm: Text -> Text, st: State, sid: SessionId, ss: seq<Section>)
    ensures JustSent(norm, st, sid, ss)
            <==> sid in st.snapshots && st.snapshots[sid] == Snapshot(HashesOf(norm, ss), Since(0))
  {}

  lemma RunNothing(cut: Message -> Text, norm: Text -> Text, st: State)
    ensures Run(cut, norm, st, []) == st
  {}

  lemma IterationRuns(cut: Message -> Text, norm: Text -> Text, st: State, sid: SessionId, blob: Text,
                      hint: Option<Text>, persists: bool, es: seq<Event>, g: seq<Message>)
    ensures Run(cut, norm, st, es + Appends(sid, g) + [Call(sid, blob, hint, persists)])
            == Prepare(cut, norm, Run(cut, norm, Run(cut, norm, st, es), Appends(sid, g)), sid, blob, hint, persists).0
  {
    hide Prepare, Run, Appends;
    RunAppend(cut, norm, st, es + Appends(sid, g), [Call(sid, blob, hint, persists)]);
    RunAppend(cut, norm, st, es, Appends(sid, g));
    RunOne(cut, norm, Run(cut, norm, Run(cut, norm, st, es), Appends(sid, g)), Call(sid, blob, hint, persists));
  }

  /** The re-arm rule as the code has it, on the engine: whatever the run before, after the first call
      of a turn and any iterations of its tool loop with an unchanged blob, the next iteration's call
      sends this. Without an always-fresh section every ninth call sends the whole blob and the
      others send nothing; with one, no call ever sends the others again, because sending anything at
      all resets the counter. */
  lemma RearmAsCoded(cut: Message -> Text, norm: Text -> Text, es: seq<Event>, sid: SessionId, blob: Text,
                     hint: Option<Text>, persists: bool, gs: seq<seq<Message>>, g: seq<Message>)
    requires UniqueKeys(SplitSections(blob)) && SplitSections(blob) != []
    requires FirstCallOfTurn(Replay(cut, HistoryOf(Run(cut, norm, START, es).histories, sid)))
    requires Iteration(g) && forall x :: x in gs ==> Iteration(x)
    requires var first := Run(cut, norm, START, es + [Call(sid, blob, hint, persists)]);
             Replay(cut, HistoryOf(first.histories, sid)) != []
    ensures var turn := es + [Call(sid, blob, hint, persists)] + Iterations(sid, blob, hint, persists, gs);
            var before := Run(cut, norm, START, turn + Appends(sid, g));
            var gate, only, k := GateAt(cut, norm, before, sid, blob), OnlyFresh(SplitSections(blob)), |gs| + 1;
            && Prepare(cut, norm, before, sid, blob, hint, persists).1.tail == Tail(hint, gate)
            && gate.sent == (if only != [] then only
                             else if k % (REARM_CALLS + 1) == 0 then SplitSections(blob) else [])
  {
    hide *;
    var st0, first := Run(cut, norm, START, es), Call(sid, blob, hint, persists);
    StartIsTidy();
    RunStaysTidy(cut, norm, START, es);
    RunAppend(cut, norm, START, es, [first]);
    RunOne(cut, norm, st0, first);
    CallIs(cut, norm, st0, sid, blob, hint, persists);
    var st1 := Run(cut, norm, START, es + [first]);
    FirstCallSendsEverything(cut, norm, st0, sid, blob, hint, persists);
    StepStaysTidy(cut, norm, st0, first);
    TurnFollowsTheGate(cut, norm, st1, sid, blob, hint, persists, gs);
    var turn := es + [first] + Iterations(sid, blob, hint, persists, gs);
    RunAppend(cut, norm, START, es + [first], Iterations(sid, blob, hint, persists, gs));
    RunAppend(cut, norm, START, turn, Appends(sid, g));
    var st2 := Run(cut, norm, START, turn);
    JustSentIs(norm, st1, sid, SplitSections(blob));
    GateRearms(norm, SplitSections(blob), |gs|);
    GateRearms(norm, SplitSections(blob), |gs| + 1);
    SentAtIs(norm, st1.snapshots[sid], SplitSections(blob), |gs| + 1);
    OneIteration(cut, norm, st2, sid, blob, hint, persists, g);
  }

  lemma CallIs(cut: Message -> Text, norm: Text -> Text, st: State, sid: SessionId, blob: Text, hint: Option<Text>,
               persists: bool)
    ensures Next(cut, norm, st, Call(sid, blob, hint, persists))
            == Prepare(cut, norm, st, sid, blob, hint, persists).0
  {}

  lemma SentAtIs(norm: Text -> Text, start: Snapshot, ss: seq<Section>, k: nat)
    requires k >= 1
    ensures SentAt(norm, start, ss, k) == GateOf(norm, Some(SnapshotAfter(norm, start, ss, k - 1)), false, ss).sent
  {}
}
