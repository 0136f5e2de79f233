/** Gating loses nothing: over every run of calls, each section of the current volatile state
    is in the request, in the tail or in the replayed checkpoint. */
module Completeness {
  import opened Prelude
  import opened Texts
  import opened Sections
  import opened Checkpoints
  import Sanitizer
  import opened Pipeline
  import ReplayKeeps
  import opened VolatileTail

  function Lookup(v: View, k: Key): Option<Text> {
    match k
    case Preamble => if v.preamble == EMPTY then None else Some(v.preamble)
    case Named(n) => if n in v.bodies then Some(v.bodies[n]) else None
  }

  /** The section's text stands in the tail, or the newest copy in the replayed history has
      the same normalised body. */
  ghost predicate Delivered(norm: Text -> Text, req: Request, s: Section) {
    || (req.tail.Some? && Carries(req.tail.value.content, s.body))
    || (var copy := Lookup(NewestView(req.messages), s.key);
        copy.Some? && norm(copy.value) == norm(s.body))
  }

  ghost predicate UniqueKeys(ss: seq<Section>) {
    forall i, j :: 0 <= i < j < |ss| ==> ss[i].key != ss[j].key
  }

  /** A blob whose sections survive a checkpoint: no stray `##` line, no two sections of one
      name. */
  ghost predicate LegibleBlob(blob: Text) {
    AllRobust(SplitSections(blob)) && UniqueKeys(SplitSections(blob))
  }

  // ----------------------------------------------------------------------------- one gate call

  lemma {:induction false} HashesRecord(norm: Text -> Text, ss: seq<Section>)
    requires UniqueKeys(ss)
    ensures forall i :: 0 <= i < |ss| ==>
              ss[i].key in HashesOf(norm, ss) && HashesOf(norm, ss)[ss[i].key] == norm(ss[i].body)
    ensures forall k :: k in HashesOf(norm, ss) ==> exists i :: 0 <= i < |ss| && ss[i].key == k
  {
    if ss != [] {
      var n := |ss| - 1;
      var front := ss[..n];
      assert forall i :: 0 <= i < n ==> front[i] == ss[i];
      HashesRecord(norm, front);
      forall k | k in HashesOf(norm, ss)
        ensures exists i :: 0 <= i < |ss| && ss[i].key == k
      {
        if k == ss[n].key {
        } else {
          var i :| 0 <= i < |front| && front[i].key == k;
          assert ss[i].key == k;
        }
      }
    }
  }

  lemma {:induction false} ChangedMembers(norm: Text -> Text, prev: Option<Snapshot>, ss: seq<Section>)
    ensures forall s :: s in ChangedOf(norm, prev, ss) <==>
              s in ss && Changed(norm, prev, s) && !AlwaysFresh(s.key)
  {
    if ss != [] {
      ChangedMembers(norm, prev, ss[..|ss| - 1]);
      assert ss == ss[..|ss| - 1] + [ss[|ss| - 1]];
    }
  }

  lemma {:induction false} SentMembers(norm: Text -> Text, prev: Option<Snapshot>, force: bool, ss: seq<Section>)
    ensures forall s :: s in FreshOf(norm, prev, force, ss) <==> s in ss && Sent(norm, prev, force, s)
  {
    if ss != [] {
      SentMembers(norm, prev, force, ss[..|ss| - 1]);
      assert ss == ss[..|ss| - 1] + [ss[|ss| - 1]];
    }
  }

  lemma {:induction false} ChangedUnique(norm: Text -> Text, prev: Option<Snapshot>, ss: seq<Section>)
    requires UniqueKeys(ss)
    ensures UniqueKeys(ChangedOf(norm, prev, ss))
    ensures PreambleOnlyFirst(ss) ==> PreambleOnlyFirst(ChangedOf(norm, prev, ss))
  {
    if ss != [] {
      var n := |ss| - 1;
      var front := ss[..n];
      assert forall i :: 0 <= i < n ==> front[i] == ss[i];
      ChangedUnique(norm, prev, front);
      ChangedMembers(norm, prev, front);
      var c := ChangedOf(norm, prev, front);
      forall i | 0 <= i < |c|
        ensures c[i].key != ss[n].key
      {
        assert c[i] in front;
      }
      assert c != [] ==> n >= 1 by {
        if n == 0 { assert front == []; }
      }
    }
  }

  lemma {:induction false} AbsorbLookup(v: View, ss: seq<Section>, k: Key)
    requires UniqueKeys(ss) && AllTrimmed(ss)
    ensures (forall i :: 0 <= i < |ss| ==> ss[i].key != k) ==> Lookup(AbsorbAll(v, ss), k) == Lookup(v, k)
    ensures forall i :: 0 <= i < |ss| && ss[i].key == k ==> Lookup(AbsorbAll(v, ss), k) == Some(ss[i].body)
  {
    if ss != [] {
      var n := |ss| - 1;
      var front := ss[..n];
      assert forall i :: 0 <= i < n ==> front[i] == ss[i];
      AbsorbLookup(v, front, k);
      assert Trimmed(ss[n].body) && ss[n].body != EMPTY;
    }
  }

  /** The body of the section of that name. */
  function BodyOf(ss: seq<Section>, k: Key): Option<Text> {
    if ss == [] then None
    else if ss[|ss| - 1].key == k then Some(ss[|ss| - 1].body)
    else BodyOf(ss[..|ss| - 1], k)
  }

  lemma {:induction false} BodyOfIs(ss: seq<Section>, k: Key)
    requires UniqueKeys(ss)
    ensures forall s :: s in ss && s.key == k ==> BodyOf(ss, k) == Some(s.body)
    ensures (forall s :: s in ss ==> s.key != k) ==> BodyOf(ss, k) == None
    ensures BodyOf(ss, k).Some? ==> Section(k, BodyOf(ss, k).value) in ss
  {
    if ss != [] {
      var front := ss[..|ss| - 1];
      assert forall i :: 0 <= i < |front| ==> front[i] == ss[i];
      BodyOfIs(front, k);
      assert ss == front + [ss[|ss| - 1]];
      assert forall s :: s in front ==> s.key != ss[|ss| - 1].key;
    }
  }

  lemma AbsorbedLookup(v: View, ss: seq<Section>, k: Key)
    requires UniqueKeys(ss) && AllTrimmed(ss)
    ensures Lookup(AbsorbAll(v, ss), k) == if BodyOf(ss, k).Some? then BodyOf(ss, k) else Lookup(v, k)
  {
    hide Trimmed, AbsorbAll, Lookup, BodyOf, UniqueKeys;
    AbsorbLookup(v, ss, k);
    BodyOfIs(ss, k);
    if BodyOf(ss, k).Some? {
      var i :| 0 <= i < |ss| && ss[i] == Section(k, BodyOf(ss, k).value);
    }
  }

  lemma ChangedTrimmed(norm: Text -> Text, prev: Option<Snapshot>, ss: seq<Section>)
    requires AllTrimmed(ss)
    ensures AllTrimmed(ChangedOf(norm, prev, ss))
  {
    hide Trimmed;
    ChangedMembers(norm, prev, ss);
    var c := ChangedOf(norm, prev, ss);
    forall i | 0 <= i < |c|
      ensures Trimmed(c[i].body)
    {
      assert c[i] in c;
    }
  }

  lemma NotAmongChanged(norm: Text -> Text, prev: Option<Snapshot>, ss: seq<Section>, s: Section)
    requires UniqueKeys(ss) && s in ss && !Changed(norm, prev, s)
    ensures var c := ChangedOf(norm, prev, ss);
            forall j :: 0 <= j < |c| ==> c[j].key != s.key
  {
    hide UniqueKeys, ChangedOf;
    ChangedMembers(norm, prev, ss);
    var c := ChangedOf(norm, prev, ss);
    forall j | 0 <= j < |c|
      ensures c[j].key != s.key
    {
      assert c[j] in c;
      if c[j].key == s.key { SameKeySameSection(ss, c[j], s); }
    }
  }

  lemma SameKeySameSection(ss: seq<Section>, s: Section, t: Section)
    requires UniqueKeys(ss) && s in ss && t in ss && s.key == t.key
    ensures s == t
  {
    var i :| 0 <= i < |ss| && ss[i] == s;
    var j :| 0 <= j < |ss| && ss[j] == t;
    assert !(i < j) && !(j < i);
  }

  // ------------------------------------------------------------------------------- the tail

  lemma CarriesInside(a: Text, b: Text, c: Text, x: Text)
    requires Carries(b, x)
    ensures Carries(a + b + c, x)
  {
    var i: nat :| CarriesAt(b, x, i);
    var t := a + b + c;
    assert t[|a| + i..|a| + i + |x|] == b[i..i + |x|];
    assert CarriesAt(t, x, |a| + i);
  }

  lemma {:induction false} GlueCarries(ss: seq<Section>, k: nat)
    requires k < |ss|
    ensures Carries(Glue(ss, [""]), ss[k].body)
  {
    var b := ss[0].body;
    var rest := Rest(ss[1..], [""]);
    if k == 0 {
      assert CarriesAt(b, b, 0);
      CarriesInside([], b, rest, b);
      assert [] + b + rest == Glue(ss, [""]);
    } else {
      GlueCarries(ss[1..], k - 1);
      assert rest == [""] + Glue(ss[1..], [""]);
      CarriesInside(b + [""], Glue(ss[1..], [""]), [], ss[k].body);
      assert b + [""] + Glue(ss[1..], [""]) + [] == Glue(ss, [""]);
    }
  }

  lemma {:induction false} JoinCarries(ts: seq<Text>, k: nat, x: Text)
    requires k < |ts| && Carries(ts[k], x)
    ensures Carries(JoinTexts(ts), x)
  {
    if |ts| == 1 {
    } else if k == 0 {
      CarriesInside([], ts[0], [""] + JoinTexts(ts[1..]), x);
      assert [] + ts[0] + ([""] + JoinTexts(ts[1..])) == JoinTexts(ts);
    } else {
      JoinCarries(ts[1..], k - 1, x);
      CarriesInside(ts[0] + [""], JoinTexts(ts[1..]), [], x);
      assert ts[0] + [""] + JoinTexts(ts[1..]) + [] == JoinTexts(ts);
    }
  }

  /** What the gate sends stands in the tail word for word. */
  lemma SentIsInTheTail(hint: Option<Text>, g: Gate, s: Section)
    requires s in g.sent
    ensures Tail(hint, g).Some? && Carries(Tail(hint, g).value.content, s.body)
  {
    var k :| 0 <= k < |g.sent| && g.sent[k] == s;
    GlueCarries(g.sent, k);
    var bits := TailBits(hint, g);
    var j := if hint.Some? then 1 else 0;
    assert bits[j] == Glue(g.sent, [""]);
    JoinCarries(bits, j, s.body);
    CarriesInside([LIVE], JoinTexts(bits), [], s.body);
    assert [LIVE] + JoinTexts(bits) + [] == [LIVE] + JoinTexts(bits);
  }

  // -------------------------------------------------------------------------------- the runs

  /** `persists` says whether the store accepts the checkpoint of that call. */
  datatype Event =
    | Append(sid: SessionId, m: Message)
    | Call(sid: SessionId, blob: Text, hint: Option<Text>, persists: bool)
    | Restart

  /** A checkpoint is stored for a session that has a name, when the store accepts it. */
  predicate Stored(sid: SessionId, persists: bool) { sid != "" && persists }

  function GateAt(cut: Message -> Text, norm: Text -> Text, st: State, sid: SessionId, blob: Text): Gate {
    GateOf(norm, if sid in st.snapshots then Some(st.snapshots[sid]) else None,
           FirstCallOfTurn(Replay(cut, HistoryOf(st.histories, sid))), SplitSections(blob))
  }

  /** Only the engine writes checkpoints, the blob of a call is legible, and a checkpoint that is
      stored stays below the size at which messages are shrunk. */
  ghost predicate Allowed(cut: Message -> Text, norm: Text -> Text, st: State, e: Event) {
    match e
    case Append(_, m) => !IsCheckpoint(Shrink(cut, m))
    case Call(sid, blob, _, persists) =>
      && LegibleBlob(blob)
      && (Stored(sid, persists) ==> TextLen(Print(GateAt(cut, norm, st, sid, blob).changed)) <= ABSURD_CHARS)
    case Restart => true
  }

  function Next(cut: Message -> Text, norm: Text -> Text, st: State, e: Event): State {
    match e
    case Append(sid, m) => st.(histories := st.histories[sid := HistoryOf(st.histories, sid) + [m]])
    case Call(sid, blob, hint, persists) => Prepare(cut, norm, st, sid, blob, hint, persists).0
    case Restart => st.(snapshots := map[], order := [])
  }

  ghost predicate AllowedRun(cut: Message -> Text, norm: Text -> Text, st: State, es: seq<Event>)
    decreases |es|
  {
    es != [] ==> Allowed(cut, norm, st, es[0]) && AllowedRun(cut, norm, Next(cut, norm, st, es[0]), es[1..])
  }

  function Run(cut: Message -> Text, norm: Text -> Text, st: State, es: seq<Event>): State
    decreases |es|
  {
    if es == [] then st else Run(cut, norm, Next(cut, norm, st, es[0]), es[1..])
  }

  ghost predicate GoodHistory(cut: Message -> Text, h: seq<Message>) {
    ReplayKeeps.AllMarked(ShrinkAll(cut, h)) && RobustHistory(ShrinkAll(cut, h))
  }

  function ViewOf(cut: Message -> Text, st: State, sid: SessionId): View {
    NewestView(ShrinkAll(cut, HistoryOf(st.histories, sid)))
  }

  ghost predicate GoodHistories(cut: Message -> Text, st: State) {
    forall sid :: sid in st.histories ==> GoodHistory(cut, st.histories[sid])
  }

  // ------------------------------------------------------- the changes a run records of a section

  /** A call found the section changed, and its checkpoint was stored or not. */
  datatype Change = Change(body: Text, stored: bool)

  function ChangeOf(cut: Message -> Text, norm: Text -> Text, st: State, e: Event, sid: SessionId, k: Key)
    : seq<Change>
  {
    if e.Call? && e.sid == sid && BodyOf(GateAt(cut, norm, st, sid, e.blob).changed, k).Some?
    then [Change(BodyOf(GateAt(cut, norm, st, sid, e.blob).changed, k).value, Stored(sid, e.persists))] else []
  }

  function Recorded(cut: Message -> Text, norm: Text -> Text, st: State, es: seq<Event>, sid: SessionId, k: Key)
    : seq<Change>
    decreases |es|
  {
    if es == [] then []
    else ChangeOf(cut, norm, st, es[0], sid, k) + Recorded(cut, norm, Next(cut, norm, st, es[0]), es[1..], sid, k)
  }

  function NewestStored(cs: seq<Change>): Option<Text> {
    if cs == [] then None
    else if cs[|cs| - 1].stored then Some(cs[|cs| - 1].body)
    else NewestStored(cs[..|cs| - 1])
  }

  /** The last change was stored, or an older stored copy has the same normalised body. */
  predicate Safe(norm: Text -> Text, cs: seq<Change>) {
    cs != []
    && (cs[|cs| - 1].stored
        || (NewestStored(cs).Some? && norm(NewestStored(cs).value) == norm(cs[|cs| - 1].body)))
  }

  /** The history holds the newest stored body, and the snapshot the hash of the last one recorded. */
  ghost predicate Agrees(cut: Message -> Text, norm: Text -> Text, st: State, sid: SessionId, k: Key, cs: seq<Change>) {
    && Lookup(ViewOf(cut, st, sid), k) == NewestStored(cs)
    && (sid in st.snapshots && k in st.snapshots[sid].hashes && !AlwaysFresh(k) ==>
          cs != [] && norm(cs[|cs| - 1].body) == st.snapshots[sid].hashes[k])
  }

  lemma ShrinkAppend(cut: Message -> Text, h: seq<Message>, m: Message)
    ensures ShrinkAll(cut, h + [m]) == ShrinkAll(cut, h) + [Shrink(cut, m)]
  {}

  lemma GoodAppend(cut: Message -> Text, h: seq<Message>, m: Message)
    requires GoodHistory(cut, h)
    requires IsCheckpoint(Shrink(cut, m)) ==>
               Sanitizer.Injected(Shrink(cut, m).content) && RobustCheckpoint(Shrink(cut, m))
    ensures GoodHistory(cut, h + [m])
  {
    hide IsCheckpoint, RobustCheckpoint, Sanitizer.Injected;
    ShrinkAppend(cut, h, m);
  }

  lemma GoodNothing(cut: Message -> Text, st: State, sid: SessionId)
    requires GoodHistories(cut, st)
    ensures GoodHistory(cut, HistoryOf(st.histories, sid))
  {}

  /** The checkpoint of a legible call parses back to exactly the sections it was written for. */
  lemma WrittenCheckpoint(changed: seq<Section>)
    requires AllRobust(changed) && PreambleOnlyFirst(changed)
    ensures var c := CheckpointMessage(changed);
            && IsCheckpoint(c) && Sanitizer.Injected(c.content) && RobustCheckpoint(c)
            && ParseCheckpoint(c.content) == changed
  {
    hide Robust, ParseCheckpoint, Glue, Legible, Trimmed;
    RobustIsLegible(changed);
    CheckpointRoundTrip(changed);
    assert Print(changed)[0] == PREFIX && PREFIX[..8] == "[SYSTEM]";
  }

  lemma ChangedRobust(norm: Text -> Text, prev: Option<Snapshot>, ss: seq<Section>)
    requires AllRobust(ss) && UniqueKeys(ss) && PreambleOnlyFirst(ss)
    ensures AllRobust(ChangedOf(norm, prev, ss)) && PreambleOnlyFirst(ChangedOf(norm, prev, ss))
  {
    hide Robust, ChangedOf;
    ChangedMembers(norm, prev, ss);
    ChangedUnique(norm, prev, ss);
    var c := ChangedOf(norm, prev, ss);
    forall i | 0 <= i < |c|
      ensures Robust(c[i])
    {
      assert c[i] in c;
    }
  }

  lemma {:induction false} EvictOnlyRemoves(snaps: map<SessionId, Snapshot>, order: seq<SessionId>)
    ensures forall k :: k in Evict(snaps, order).0 ==> k in snaps && Evict(snaps, order).0[k] == snaps[k]
    decreases |order|
  {
    if |snaps| > MAX_SESSIONS && order != [] { EvictOnlyRemoves(snaps - {order[0]}, order[1..]); }
  }

  lemma NewestStoredOneMore(cs: seq<Change>, c: Change)
    ensures NewestStored(cs + [c]) == if c.stored then Some(c.body) else NewestStored(cs)
    ensures NewestStored([]) == None && cs + [] == cs
  {
    assert (cs + [c])[..|cs + [c]| - 1] == cs;
  }

  /** One call, seen from one section of its own session. */
  lemma GateAgrees(norm: Text -> Text, prev: Option<Snapshot>, first: bool, ss: seq<Section>, v: View, k: Key,
                   cs: seq<Change>, stored: bool)
    requires UniqueKeys(ss) && AllTrimmed(ss)
    requires Lookup(v, k) == NewestStored(cs)
    requires prev.Some? && k in prev.value.hashes && !AlwaysFresh(k) ==>
               cs != [] && norm(cs[|cs| - 1].body) == prev.value.hashes[k]
    ensures var g := GateOf(norm, prev, first, ss);
            var body := BodyOf(g.changed, k);
            var more := cs + (if body.Some? then [Change(body.value, stored)] else []);
            && Lookup(if stored then AbsorbAll(v, g.changed) else v, k) == NewestStored(more)
            && (k in g.next.hashes && !AlwaysFresh(k) ==>
                  more != [] && norm(more[|more| - 1].body) == g.next.hashes[k])
  {
    hide Trimmed, AbsorbAll, HashesOf, ChangedOf, FreshOf, OmittedOf, NextCount, UniqueKeys, Lookup, BodyOf,
         NewestStored;
    var g := GateOf(norm, prev, first, ss);
    GateChanged(norm, prev, first, ss);
    HashesRecord(norm, ss);
    ChangedUnique(norm, prev, ss);
    ChangedTrimmed(norm, prev, ss);
    ChangedMembers(norm, prev, ss);
    AbsorbedLookup(v, g.changed, k);
    BodyOfIs(g.changed, k);
    if BodyOf(g.changed, k).Some? {
      NewestStoredOneMore(cs, Change(BodyOf(g.changed, k).value, stored));
    } else {
      assert cs + [] == cs;
    }
    if k in g.next.hashes && !AlwaysFresh(k) {
      var i :| 0 <= i < |ss| && ss[i].key == k;
      assert ss[i] in ss;
      if Changed(norm, prev, ss[i]) { assert ss[i] in g.changed; } else { NotAmongChanged(norm, prev, ss, ss[i]); }
    }
  }

  lemma CallAgrees(cut: Message -> Text, norm: Text -> Text, st: State, sid: SessionId, blob: Text,
                   hint: Option<Text>, persists: bool, k: Key, cs: seq<Change>)
    requires GoodHistories(cut, st) && Allowed(cut, norm, st, Call(sid, blob, hint, persists))
    requires Agrees(cut, norm, st, sid, k, cs)
    ensures var st' := Prepare(cut, norm, st, sid, blob, hint, persists).0;
            Agrees(cut, norm, st', sid, k, cs + ChangeOf(cut, norm, st, Call(sid, blob, hint, persists), sid, k))
  {
    hide *;
    CallHistories(cut, norm, st, sid, blob, hint, persists);
    SplitTrimmed(blob);
    AllowedCall(cut, norm, st, sid, blob, hint, persists);
    var prev := if sid in st.snapshots then Some(st.snapshots[sid]) else None;
    AgreesParts(cut, norm, st, sid, k, cs);
    GateAgrees(norm, prev, FirstCallOfTurn(Replay(cut, HistoryOf(st.histories, sid))), SplitSections(blob),
               ViewOf(cut, st, sid), k, cs, Stored(sid, persists));
    ChangeIs(cut, norm, st, Call(sid, blob, hint, persists), sid, k);
    AgreesIf(cut, norm, Prepare(cut, norm, st, sid, blob, hint, persists).0, sid, k,
             cs + ChangeOf(cut, norm, st, Call(sid, blob, hint, persists), sid, k));
  }

  lemma ChangeIs(cut: Message -> Text, norm: Text -> Text, st: State, e: Event, sid: SessionId, k: Key)
    requires e.Call? && e.sid == sid
    ensures var body := BodyOf(GateAt(cut, norm, st, sid, e.blob).changed, k);
            ChangeOf(cut, norm, st, e, sid, k)
            == if body.Some? then [Change(body.value, Stored(sid, e.persists))] else []
  {}

  lemma AgreesParts(cut: Message -> Text, norm: Text -> Text, st: State, sid: SessionId, k: Key, cs: seq<Change>)
    requires Agrees(cut, norm, st, sid, k, cs)
    ensures Lookup(ViewOf(cut, st, sid), k) == NewestStored(cs)
    ensures sid in st.snapshots && k in st.snapshots[sid].hashes && !AlwaysFresh(k) ==>
              cs != [] && norm(cs[|cs| - 1].body) == st.snapshots[sid].hashes[k]
  {}

  lemma AgreesIf(cut: Message -> Text, norm: Text -> Text, st: State, sid: SessionId, k: Key, cs: seq<Change>)
    requires Lookup(ViewOf(cut, st, sid), k) == NewestStored(cs)
    requires sid in st.snapshots && k in st.snapshots[sid].hashes && !AlwaysFresh(k) ==>
               cs != [] && norm(cs[|cs| - 1].body) == st.snapshots[sid].hashes[k]
    ensures Agrees(cut, norm, st, sid, k, cs)
  {}

  /** What a call does to the histories, their views and the snapshots. */
  lemma CallHistories(cut: Message -> Text, norm: Text -> Text, st: State, sid: SessionId, blob: Text,
                      hint: Option<Text>, persists: bool)
    requires GoodHistories(cut, st) && Allowed(cut, norm, st, Call(sid, blob, hint, persists))
    ensures var st' := Prepare(cut, norm, st, sid, blob, hint, persists).0;
            var g := GateAt(cut, norm, st, sid, blob);
            && GoodHistories(cut, st')
            && ViewOf(cut, st', sid)
               == (if Stored(sid, persists) then AbsorbAll(ViewOf(cut, st, sid), g.changed) else ViewOf(cut, st, sid))
            && (forall x :: x != sid ==> ViewOf(cut, st', x) == ViewOf(cut, st, x))
            && (sid in st'.snapshots ==> st'.snapshots[sid] == g.next)
            && (forall x :: x != sid && x in st'.snapshots ==> x in st.snapshots && st'.snapshots[x] == st.snapshots[x])
  {
    hide *;
    AllowedCall(cut, norm, st, sid, blob, hint, persists);
    GoodNothing(cut, st, sid);
    var ss := SplitSections(blob);
    var g := GateAt(cut, norm, st, sid, blob);
    var prev := if sid in st.snapshots then Some(st.snapshots[sid]) else None;
    var first := FirstCallOfTurn(Replay(cut, HistoryOf(st.histories, sid)));
    var st' := Prepare(cut, norm, st, sid, blob, hint, persists).0;
    SplitPreambleFirst(blob);
    SplitTrimmed(blob);
    PrepareIs(cut, norm, st, sid, blob, hint, persists);
    StoredIs(sid, persists);
    GateChanged(norm, prev, first, ss);
    ChangedRobust(norm, prev, ss);
    AbsorbNothing(ViewOf(cut, st, sid));
    HistoryAfterCall(cut, st, st', sid, g.changed, Stored(sid, persists));
    EvictOnlyRemoves(st.snapshots[sid := g.next], if sid in st.order then st.order else st.order + [sid]);
    GoodAfter(cut, st, st', sid);
  }

  lemma StoredIs(sid: SessionId, persists: bool)
    ensures Stored(sid, persists) <==> sid != "" && persists
  {}

  lemma AllowedCall(cut: Message -> Text, norm: Text -> Text, st: State, sid: SessionId, blob: Text,
                    hint: Option<Text>, persists: bool)
    requires Allowed(cut, norm, st, Call(sid, blob, hint, persists))
    ensures AllRobust(SplitSections(blob)) && UniqueKeys(SplitSections(blob))
    ensures Stored(sid, persists) ==> TextLen(Print(GateAt(cut, norm, st, sid, blob).changed)) <= ABSURD_CHARS
    ensures GateAt(cut, norm, st, sid, blob)
            == GateOf(norm, if sid in st.snapshots then Some(st.snapshots[sid]) else None,
                      FirstCallOfTurn(Replay(cut, HistoryOf(st.histories, sid))), SplitSections(blob))
  {}

  /** The session's own history gains the checkpoint, and its view the changed bodies. */
  lemma HistoryAfterCall(cut: Message -> Text, st: State, st': State, sid: SessionId, changed: seq<Section>,
                         stored: bool)
    requires GoodHistory(cut, HistoryOf(st.histories, sid))
    requires AllRobust(changed) && PreambleOnlyFirst(changed)
    requires stored ==> TextLen(Print(changed)) <= ABSURD_CHARS
    requires st'.histories == if changed != [] && stored
                              then st.histories[sid := HistoryOf(st.histories, sid) + [CheckpointMessage(changed)]]
                              else st.histories
    ensures GoodHistory(cut, HistoryOf(st'.histories, sid))
    ensures ViewOf(cut, st', sid)
            == if stored then AbsorbAll(ViewOf(cut, st, sid), changed) else ViewOf(cut, st, sid)
    ensures forall k :: k in st'.histories && k != sid ==> k in st.histories && st'.histories[k] == st.histories[k]
    ensures forall k :: k != sid ==> ViewOf(cut, st', k) == ViewOf(cut, st, k)
  {
    hide GoodHistory, AllRobust, PreambleOnlyFirst, IsCheckpoint, RobustCheckpoint, Sanitizer.Injected, ShrinkAll,
         NewestView, Print, TextLen, AbsorbAll, ParseCheckpoint;
    var h := HistoryOf(st.histories, sid);
    if changed != [] && stored {
      WrittenCheckpoint(changed);
      var c := CheckpointMessage(changed);
      GoodAppend(cut, h, c);
      ShrinkAppend(cut, h, c);
      ViewAppends(ShrinkAll(cut, h), c);
    } else {
      AbsorbNothing(ViewOf(cut, st, sid));
    }
  }

  lemma GoodAfter(cut: Message -> Text, st: State, st': State, sid: SessionId)
    requires GoodHistories(cut, st)
    requires GoodHistory(cut, HistoryOf(st'.histories, sid))
    requires forall k :: k in st'.histories && k != sid ==> k in st.histories && st'.histories[k] == st.histories[k]
    ensures GoodHistories(cut, st')
  {
    hide GoodHistory;
  }

  lemma AbsorbNothing(v: View)
    ensures AbsorbAll(v, []) == v
  {}

  lemma GateChanged(norm: Text -> Text, prev: Option<Snapshot>, first: bool, ss: seq<Section>)
    ensures GateOf(norm, prev, first, ss).changed == ChangedOf(norm, prev, ss)
    ensures GateOf(norm, prev, first, ss).sent == FreshOf(norm, prev, ForceFull(prev, first), ss)
  {}

  lemma AppendAgrees(cut: Message -> Text, norm: Text -> Text, st: State, to: SessionId, m: Message,
                     sid: SessionId, k: Key, cs: seq<Change>)
    requires GoodHistories(cut, st) && !IsCheckpoint(Shrink(cut, m)) && Agrees(cut, norm, st, sid, k, cs)
    ensures var st' := Next(cut, norm, st, Append(to, m)); GoodHistories(cut, st') && Agrees(cut, norm, st', sid, k, cs)
  {
    hide GoodHistory, IsCheckpoint, RobustCheckpoint, Sanitizer.Injected, NewestView, ShrinkAll, Shrink, Lookup,
         NewestStored;
    var h := HistoryOf(st.histories, to);
    GoodNothing(cut, st, to);
    GoodAppend(cut, h, m);
    ShrinkAppend(cut, h, m);
    OneMoreIsNoCheckpoint(ShrinkAll(cut, h), Shrink(cut, m));
  }

  /** One event, seen from one section of one session. */
  lemma StepAgrees(cut: Message -> Text, norm: Text -> Text, st: State, e: Event, sid: SessionId, k: Key,
                   cs: seq<Change>)
    requires GoodHistories(cut, st) && Allowed(cut, norm, st, e) && Agrees(cut, norm, st, sid, k, cs)
    ensures GoodHistories(cut, Next(cut, norm, st, e))
    ensures Agrees(cut, norm, Next(cut, norm, st, e), sid, k, cs + ChangeOf(cut, norm, st, e, sid, k))
  {
    hide GoodHistories, Prepare, ViewOf, Lookup, NewestStored, Shrink, IsCheckpoint, GateAt, BodyOf;
    assert cs + [] == cs;
    match e
    case Append(to, m) => AppendAgrees(cut, norm, st, to, m, sid, k, cs);
    case Call(to, blob, hint, persists) =>
      CallHistories(cut, norm, st, to, blob, hint, persists);
      if to == sid { CallAgrees(cut, norm, st, sid, blob, hint, persists, k, cs); }
    case Restart => RestartKeeps(cut, norm, st);
  }

  lemma RestartKeeps(cut: Message -> Text, norm: Text -> Text, st: State)
    ensures var st' := Next(cut, norm, st, Restart);
            && (GoodHistories(cut, st) ==> GoodHistories(cut, st'))
            && forall x :: ViewOf(cut, st', x) == ViewOf(cut, st, x)
  {
    hide GoodHistory, NewestView, ShrinkAll;
  }

  lemma OneMoreIsNoCheckpoint(h: seq<Message>, m: Message)
    requires !IsCheckpoint(m)
    ensures NewestView(h + [m]) == NewestView(h)
  {
    hide IsCheckpoint;
    ViewSkips(h, [m]);
  }

  /** After every run, the history holds the newest stored body of every section, and a snapshot
      the hash of the last one recorded. */
  lemma {:induction false} RunAgrees(cut: Message -> Text, norm: Text -> Text, st: State, es: seq<Event>,
                                     sid: SessionId, k: Key, cs: seq<Change>)
    requires GoodHistories(cut, st) && AllowedRun(cut, norm, st, es) && Agrees(cut, norm, st, sid, k, cs)
    ensures GoodHistories(cut, Run(cut, norm, st, es))
    ensures Agrees(cut, norm, Run(cut, norm, st, es), sid, k, cs + Recorded(cut, norm, st, es, sid, k))
    decreases |es|
  {
    hide GoodHistories, Agrees, Allowed, Next, ChangeOf;
    if es == [] {
      assert cs + [] == cs;
    } else {
      var c := ChangeOf(cut, norm, st, es[0], sid, k);
      StepAgrees(cut, norm, st, es[0], sid, k, cs);
      RunAgrees(cut, norm, Next(cut, norm, st, es[0]), es[1..], sid, k, cs + c);
      assert cs + (c + Recorded(cut, norm, Next(cut, norm, st, es[0]), es[1..], sid, k))
             == cs + c + Recorded(cut, norm, Next(cut, norm, st, es[0]), es[1..], sid, k);
    }
  }

  lemma StartAgrees(cut: Message -> Text, norm: Text -> Text, sid: SessionId, k: Key)
    ensures GoodHistories(cut, START) && Agrees(cut, norm, START, sid, k, [])
  {
    assert ShrinkAll(cut, []) == [];
  }

  /** What the request of this call carries of a section: its own text in the tail, or, if it is
      left out, a stored copy that is as good. */
  lemma DeliveredExactlyWhen(cut: Message -> Text, norm: Text -> Text, es: seq<Event>, sid: SessionId, blob: Text,
                             hint: Option<Text>, persists: bool, s: Section)
    requires AllowedRun(cut, norm, START, es) && s in SplitSections(blob)
    ensures var st := Run(cut, norm, START, es);
            var req := Prepare(cut, norm, st, sid, blob, hint, persists).1;
            var sent := s in GateAt(cut, norm, st, sid, blob).sent;
            var inTail := req.tail.Some? && Carries(req.tail.value.content, s.body);
            && (sent ==> inTail)
            && (AlwaysFresh(s.key) ==> sent)
            && (!sent ==> Recorded(cut, norm, START, es, sid, s.key) != [])
            && (Delivered(norm, req, s)
                <==> inTail || (!sent && Safe(norm, Recorded(cut, norm, START, es, sid, s.key))))
            && |Indices(req.messages)| <= 1
  {
    hide *;
    StartAgrees(cut, norm, sid, s.key);
    RunAgrees(cut, norm, START, es, sid, s.key, []);
    assert [] + Recorded(cut, norm, START, es, sid, s.key) == Recorded(cut, norm, START, es, sid, s.key);
    StateDelivers(cut, norm, Run(cut, norm, START, es), sid, blob, hint, persists, s,
                  Recorded(cut, norm, START, es, sid, s.key));
  }

  lemma StateDelivers(cut: Message -> Text, norm: Text -> Text, st: State, sid: SessionId, blob: Text,
                      hint: Option<Text>, persists: bool, s: Section, cs: seq<Change>)
    requires GoodHistories(cut, st) && Agrees(cut, norm, st, sid, s.key, cs) && s in SplitSections(blob)
    ensures var req := Prepare(cut, norm, st, sid, blob, hint, persists).1;
            var sent := s in GateAt(cut, norm, st, sid, blob).sent;
            var inTail := req.tail.Some? && Carries(req.tail.value.content, s.body);
            && (sent ==> inTail)
            && (AlwaysFresh(s.key) ==> sent)
            && (!sent ==> cs != [])
            && (Delivered(norm, req, s) <==> inTail || (!sent && Safe(norm, cs)))
            && |Indices(req.messages)| <= 1
  {
    hide GoodHistory, GoodHistories, Carries, ShrinkAll, NewestView, Evict, GateOf, Replay, FirstCallOfTurn, Prepare,
         Tail, FreshOf, Lookup, NewestStored, SplitSections;
    var h := HistoryOf(st.histories, sid);
    var prev := if sid in st.snapshots then Some(st.snapshots[sid]) else None;
    var ss := SplitSections(blob);
    var first := FirstCallOfTurn(Replay(cut, h));
    var g := GateOf(norm, prev, first, ss);
    PrepareIs(cut, norm, st, sid, blob, hint, persists);
    GoodNothing(cut, st, sid);
    GoodParts(cut, h);
    ReplayKeeps.RobustReplayKeepsTheView(cut, h);
    GateChanged(norm, prev, first, ss);
    SentMembers(norm, prev, ForceFull(prev, first), ss);
    if s in g.sent {
      SentIsInTheTail(hint, g, s);
    } else {
      assert s.key in prev.value.hashes && prev.value.hashes[s.key] == norm(s.body);
      SafeIs(norm, cs);
    }
  }

  lemma SafeIs(norm: Text -> Text, cs: seq<Change>)
    requires cs != []
    ensures Safe(norm, cs) <==> NewestStored(cs).Some? && norm(NewestStored(cs).value) == norm(cs[|cs| - 1].body)
  {}

  // ------------------------------------------------------ nothing but what is sent is in the tail

  /** The hint has no heading of that name. */
  ghost predicate Unmentioned(hint: Option<Text>, k: Key) {
    hint.Some? ==> forall line :: line in hint.value ==> KeyOfLine(line) != k
  }

  lemma {:induction false} GlueLines(ss: seq<Section>, line: string)
    requires line in Glue(ss, [""])
    ensures line == "" || exists t :: t in ss && line in t.body
  {
    if ss != [] && line !in ss[0].body {
      var rest := Rest(ss[1..], [""]);
      assert line in rest;
      if line != "" {
        assert rest == [""] + Glue(ss[1..], [""]);
        GlueLines(ss[1..], line);
        var t :| t in ss[1..] && line in t.body;
        assert t in ss;
      }
    }
  }

  lemma {:induction false} JoinLines(ts: seq<Text>, line: string)
    requires line in JoinTexts(ts)
    ensures line == "" || exists k :: 0 <= k < |ts| && line in ts[k]
  {
    if |ts| == 1 {
      assert line in ts[0];
    } else if line in ts[0] {
    } else {
      assert JoinTexts(ts) == ts[0] + [""] + JoinTexts(ts[1..]);
      if line != "" {
        JoinLines(ts[1..], line);
        var k :| 0 <= k < |ts[1..]| && line in ts[1..][k];
        assert line in ts[k + 1];
      }
    }
  }

  /** In a legible section only the first line is a heading, and it is the section's own. */
  lemma HeadingLines(t: Section, line: string)
    requires Robust(t) && line in t.body && KeyOfLine(line).Named?
    ensures KeyOfLine(line) == t.key
  {
    hide HeadingName;
    var k :| 0 <= k < |t.body| && t.body[k] == line;
  }

  lemma NoHeadings(omitted: seq<Key>)
    ensures KeyOfLine("") == Preamble && KeyOfLine(LIVE) == Preamble
    ensures forall line :: line in Digest(omitted) ==> KeyOfLine(line) == Preamble
  {
    hide JoinNames;
    assert LIVE[0] == '[' && Digest(omitted)[0][0] == '[';
  }

  /** A named section of a legible blob stands in the tail exactly when it is sent. */
  lemma InTheTailExactlyWhen(norm: Text -> Text, prev: Option<Snapshot>, first: bool, ss: seq<Section>,
                             hint: Option<Text>, s: Section)
    requires AllRobust(ss) && UniqueKeys(ss) && s in ss && s.key.Named? && Unmentioned(hint, s.key)
    ensures var g := GateOf(norm, prev, first, ss);
            Tail(hint, g).Some? && Carries(Tail(hint, g).value.content, s.body) <==> s in g.sent
  {
    hide Robust, UniqueKeys, GateOf, FreshOf, Glue, JoinTexts, Digest, KeyOfLine;
    var g := GateOf(norm, prev, first, ss);
    GateChanged(norm, prev, first, ss);
    SentMembers(norm, prev, ForceFull(prev, first), ss);
    RobustAt(ss, s);
    if s in g.sent {
      SentIsInTheTail(hint, g, s);
    } else if Tail(hint, g).Some? && Carries(Tail(hint, g).value.content, s.body) {
      var t := Tail(hint, g).value.content;
      var i: nat :| CarriesAt(t, s.body, i);
      assert t[i..i + |s.body|][0] == t[i];
      var line := s.body[0];
      assert line in t;
      NoHeadings(g.omitted);
      JoinLines(TailBits(hint, g), line);
      var k :| 0 <= k < |TailBits(hint, g)| && line in TailBits(hint, g)[k];
      assert line in Glue(g.sent, [""]);
      GlueLines(g.sent, line);
      var u :| u in g.sent && line in u.body;
      RobustAt(ss, u);
      HeadingLines(u, line);
      SameKeySameSection(ss, u, s);
    }
  }

  lemma RobustAt(ss: seq<Section>, s: Section)
    requires AllRobust(ss) && s in ss
    ensures Robust(s) && |s.body| >= 1 && KeyOfLine(s.body[0]) == s.key
  {}

  /** A section that a call leaves out is delivered exactly when the last change recorded of it was
      stored, or an older stored copy has the same normalised body; one that is sent always is. */
  lemma NamedSectionDeliveredExactlyWhen(cut: Message -> Text, norm: Text -> Text, es: seq<Event>, sid: SessionId,
                                         blob: Text, hint: Option<Text>, persists: bool, s: Section)
    requires AllowedRun(cut, norm, START, es) && LegibleBlob(blob) && s in SplitSections(blob)
    requires s.key.Named? && Unmentioned(hint, s.key)
    ensures var st := Run(cut, norm, START, es);
            var req := Prepare(cut, norm, st, sid, blob, hint, persists).1;
            Delivered(norm, req, s)
            <==> s in GateAt(cut, norm, st, sid, blob).sent || Safe(norm, Recorded(cut, norm, START, es, sid, s.key))
  {
    hide *;
    var st := Run(cut, norm, START, es);
    DeliveredExactlyWhen(cut, norm, es, sid, blob, hint, persists, s);
    PrepareIs(cut, norm, st, sid, blob, hint, persists);
    LegibleParts(cut, norm, st, sid, blob);
    InTheTailExactlyWhen(norm, if sid in st.snapshots then Some(st.snapshots[sid]) else None,
                         FirstCallOfTurn(Replay(cut, HistoryOf(st.histories, sid))), SplitSections(blob), hint, s);
  }

  lemma LegibleParts(cut: Message -> Text, norm: Text -> Text, st: State, sid: SessionId, blob: Text)
    requires LegibleBlob(blob)
    ensures AllRobust(SplitSections(blob)) && UniqueKeys(SplitSections(blob))
    ensures GateAt(cut, norm, st, sid, blob)
            == GateOf(norm, if sid in st.snapshots then Some(st.snapshots[sid]) else None,
                      FirstCallOfTurn(Replay(cut, HistoryOf(st.histories, sid))), SplitSections(blob))
  {}

  // -------------------------------------------------------------------- when every store succeeds

  ghost predicate AllStored(es: seq<Event>) {
    forall e :: e in es && e.Call? ==> Stored(e.sid, e.persists)
  }

  lemma {:induction false} RecordedAreStored(cut: Message -> Text, norm: Text -> Text, st: State, es: seq<Event>,
                                             sid: SessionId, k: Key)
    requires AllStored(es)
    ensures forall c :: c in Recorded(cut, norm, st, es, sid, k) ==> c.stored
    decreases |es|
  {
    hide Next, Stored, GateAt, BodyOf;
    if es != [] {
      assert es == [es[0]] + es[1..];
      RecordedAreStored(cut, norm, Next(cut, norm, st, es[0]), es[1..], sid, k);
    }
  }

  /** The gated, collapsed scheme loses nothing: after every run of appends, calls and
      restarts, each section of the current blob is in the request of this call. */
  lemma EverySectionIsDelivered(cut: Message -> Text, norm: Text -> Text, es: seq<Event>,
                                sid: SessionId, blob: Text, hint: Option<Text>, persists: bool, s: Section)
    requires AllowedRun(cut, norm, START, es) && AllStored(es)
    requires s in SplitSections(blob)
    ensures var req := Prepare(cut, norm, Run(cut, norm, START, es), sid, blob, hint, persists).1;
            && Delivered(norm, req, s)
            && (AlwaysFresh(s.key) ==> req.tail.Some? && Carries(req.tail.value.content, s.body))
            && |Indices(req.messages)| <= 1
  {
    hide *;
    DeliveredExactlyWhen(cut, norm, es, sid, blob, hint, persists, s);
    RecordedAreStored(cut, norm, START, es, sid, s.key);
    LastStoredIsSafe(norm, Recorded(cut, norm, START, es, sid, s.key));
  }

  lemma LastStoredIsSafe(norm: Text -> Text, cs: seq<Change>)
    requires forall c :: c in cs ==> c.stored
    ensures cs != [] ==> Safe(norm, cs)
  {
    assert cs != [] ==> cs[|cs| - 1] in cs;
  }

  lemma GoodParts(cut: Message -> Text, h: seq<Message>)
    requires GoodHistory(cut, h)
    ensures ReplayKeeps.AllMarked(ShrinkAll(cut, h)) && RobustHistory(ShrinkAll(cut, h))
  {}
}
