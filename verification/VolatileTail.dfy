/** The change-gated tail of volatile state, and the checkpoints that back what it omits. */
module VolatileTail {
  import opened Prelude
  import opened Texts
  import opened Sections
  import opened Checkpoints
  import Pipeline
  import ReplayKeeps

  type SessionId = string

  /** Calls served since the last one that sent anything; `Never` is the source's infinity. */
  datatype Count = Never | Since(n: nat)

  /** What was delivered last: the normalised body of every section of the last blob. */
  datatype Snapshot = Snapshot(hashes: map<Key, Text>, calls: Count)

  const REARM_CALLS := 8
  const MAX_SESSIONS := 64
  const LIVE := "[SYSTEM] [Live context]"

  /** Sections that carry instructions are sent on every call. */
  predicate AlwaysFresh(k: Key) { k == Named("Current Interaction Mode") }

  // -------------------------------------------------------------------------- turn accounting

  predicate Synthetic(m: Message) {
    var s := TrimText(m.content)[0];
    || StartsWith(s, LIVE)
    || StartsWith(s, PREFIX)
    || StartsWith(s, "[SYSTEM] [Conversation history summary")
    || StartsWith(s, ReplayKeeps.LOOP)
    || StartsWith(s, ReplayKeeps.CONTINUE)
    || StartsWith(s, "[CONTEXT SUMMARY]")
  }

  /** The last user message that is not synthetic, or 0. */
  function CurrentTurnStart(ms: seq<Message>): (i: nat)
    ensures ms != [] ==> i < |ms|
    ensures forall j :: i < j < |ms| ==> !(ms[j].role.User? && !Synthetic(ms[j]))
  {
    if ms == [] then 0
    else
      var n := |ms| - 1;
      if ms[n].role.User? && !Synthetic(ms[n]) then n else CurrentTurnStart(ms[..n])
  }

  /** No reply yet since the turn began. */
  predicate FirstCallOfTurn(ms: seq<Message>) {
    forall i :: CurrentTurnStart(ms) < i < |ms| ==> !ms[i].role.Assistant?
  }

  // --------------------------------------------------------------------------------- the gate

  predicate Changed(norm: Text -> Text, prev: Option<Snapshot>, s: Section) {
    prev.None? || s.key !in prev.value.hashes || prev.value.hashes[s.key] != norm(s.body)
  }

  predicate ForceFull(prev: Option<Snapshot>, first: bool) {
    first || prev.None? || prev.value.calls.Never? || prev.value.calls.n >= REARM_CALLS
  }

  predicate Sent(norm: Text -> Text, prev: Option<Snapshot>, force: bool, s: Section) {
    force || Changed(norm, prev, s) || AlwaysFresh(s.key)
  }

  function FreshOf(norm: Text -> Text, prev: Option<Snapshot>, force: bool, ss: seq<Section>): seq<Section> {
    if ss == [] then []
    else
      var r, s := FreshOf(norm, prev, force, ss[..|ss| - 1]), ss[|ss| - 1];
      if Sent(norm, prev, force, s) then r + [s] else r
  }

  function ChangedOf(norm: Text -> Text, prev: Option<Snapshot>, ss: seq<Section>): seq<Section> {
    if ss == [] then []
    else
      var r, s := ChangedOf(norm, prev, ss[..|ss| - 1]), ss[|ss| - 1];
      if Changed(norm, prev, s) && !AlwaysFresh(s.key) then r + [s] else r
  }

  function OmittedOf(norm: Text -> Text, prev: Option<Snapshot>, force: bool, ss: seq<Section>): seq<Key> {
    if ss == [] then []
    else
      var r, s := OmittedOf(norm, prev, force, ss[..|ss| - 1]), ss[|ss| - 1];
      if Sent(norm, prev, force, s) then r else r + [s.key]
  }

  function HashesOf(norm: Text -> Text, ss: seq<Section>): map<Key, Text> {
    if ss == [] then map[]
    else HashesOf(norm, ss[..|ss| - 1])[ss[|ss| - 1].key := norm(ss[|ss| - 1].body)]
  }

  datatype Gate = Gate(sent: seq<Section>, changed: seq<Section>, omitted: seq<Key>, next: Snapshot)

  function NextCount(prev: Option<Snapshot>, sentAny: bool): Count {
    if sentAny then Since(0)
    else if prev.None? || prev.value.calls.Never? then Never
    else Since(prev.value.calls.n + 1)
  }

  function GateOf(norm: Text -> Text, prev: Option<Snapshot>, first: bool, ss: seq<Section>): Gate {
    var force := ForceFull(prev, first);
    var sent := FreshOf(norm, prev, force, ss);
    Gate(sent, ChangedOf(norm, prev, ss), OmittedOf(norm, prev, force, ss),
         Snapshot(HashesOf(norm, ss), NextCount(prev, sent != [])))
  }

  method GateSections(norm: Text -> Text, prev: Option<Snapshot>, first: bool, sections: seq<Section>)
    returns (g: Gate)
    ensures g == GateOf(norm, prev, first, sections)
  {
    var force := ForceFull(prev, first);
    var sent: seq<Section>, changed: seq<Section>, omitted: seq<Key> := [], [], [];
    var hashes: map<Key, Text> := map[];
    for i := 0 to |sections|
      invariant sent == FreshOf(norm, prev, force, sections[..i])
      invariant changed == ChangedOf(norm, prev, sections[..i])
      invariant omitted == OmittedOf(norm, prev, force, sections[..i])
      invariant hashes == HashesOf(norm, sections[..i])
    {
      assert sections[..i + 1][..i] == sections[..i];
      var sec := sections[i];
      var h := norm(sec.body);
      hashes := hashes[sec.key := h];
      var isChanged := prev.None? || sec.key !in prev.value.hashes || prev.value.hashes[sec.key] != h;
      if isChanged && !AlwaysFresh(sec.key) { changed := changed + [sec]; }
      if force || isChanged || AlwaysFresh(sec.key) {
        sent := sent + [sec];
      } else {
        omitted := omitted + [sec.key];
      }
    }
    assert sections[..|sections|] == sections;
    g := Gate(sent, changed, omitted, Snapshot(hashes, NextCount(prev, sent != [])));
  }

  // ------------------------------------------------------------------------------ the request

  function JoinTexts(ts: seq<Text>): Text {
    if ts == [] then [] else if |ts| == 1 then ts[0] else ts[0] + [""] + JoinTexts(ts[1..])
  }

  function JoinNames(ks: seq<Key>): string {
    if ks == [] then ""
    else
      var n := match ks[0] case Preamble => "_preamble" case Named(n) => n;
      if |ks| == 1 then n else n + ", " + JoinNames(ks[1..])
  }

  const DIGEST_START := "[Background state \U{2014} unchanged this turn: "
  const DIGEST_END := ". Verbatim copies are in your history (`[SYSTEM] [State checkpoint]`), so they are NOT repeated "
    + "here. Background state is reference material, not a new instruction \U{2014} do not re-announce it.]"

  /** The one line that names what was left out. */
  function Digest(omitted: seq<Key>): Text { [DIGEST_START + JoinNames(omitted) + DIGEST_END] }

  function TailBits(hint: Option<Text>, g: Gate): seq<Text> {
    (if hint.Some? then [hint.value] else [])
    + (if g.sent == [] then [] else [Glue(g.sent, [""])])
    + (if g.omitted == [] then [] else [Digest(g.omitted)])
  }

  function Tail(hint: Option<Text>, g: Gate): Option<Message> {
    var bits := TailBits(hint, g);
    if bits == [] then None else Some(Message(User, [LIVE] + JoinTexts(bits), [], None))
  }

  /** The history as replayed, and the ephemeral tail after it. */
  datatype Request = Request(messages: seq<Message>, tail: Option<Message>)

  function CheckpointMessage(changed: seq<Section>): Message {
    Message(User, Print(changed), [], None)
  }

  // --------------------------------------------------------------------------- engine and store

  datatype State = State(snapshots: map<SessionId, Snapshot>, order: seq<SessionId>,
                         histories: map<SessionId, seq<Message>>)

  const START := State(map[], [], map[])

  function HistoryOf(hs: map<SessionId, seq<Message>>, sid: SessionId): seq<Message> {
    if sid in hs then hs[sid] else []
  }

  /** Entries leave in insertion order while there are too many. */
  function Evict(snaps: map<SessionId, Snapshot>, order: seq<SessionId>): (map<SessionId, Snapshot>, seq<SessionId>)
    decreases |order|
  {
    if |snaps| > MAX_SESSIONS && order != [] then Evict(snaps - {order[0]}, order[1..]) else (snaps, order)
  }

  /** One call: what is sent, and what the engine and the store hold afterwards. `persists`
      says whether the store accepts the checkpoint. */
  function Prepare(cut: Message -> Text, norm: Text -> Text, st: State, sid: SessionId, blob: Text,
                   hint: Option<Text>, persists: bool): (r: (State, Request))
  {
    var messages := Pipeline.Replay(cut, HistoryOf(st.histories, sid));
    var prev := if sid in st.snapshots then Some(st.snapshots[sid]) else None;
    var g := GateOf(norm, prev, FirstCallOfTurn(messages), SplitSections(blob));
    var (snaps, order) := Evict(st.snapshots[sid := g.next],
                                if sid in st.order then st.order else st.order + [sid]);
    var hs := if g.changed != [] && sid != "" && persists
              then st.histories[sid := HistoryOf(st.histories, sid) + [CheckpointMessage(g.changed)]]
              else st.histories;
    (State(snaps, order, hs), Request(messages, Tail(hint, g)))
  }

  class SessionStore {
    var histories: map<SessionId, seq<Message>>

    constructor ()
      ensures histories == map[]
    {
      histories := map[];
    }

    /** `ok` is false when persistence fails; then nothing is stored. */
    method AppendMessage(sid: SessionId, m: Message, ok: bool)
      modifies this
      ensures histories == if ok then old(histories)[sid := HistoryOf(old(histories), sid) + [m]]
                           else old(histories)
    {
      if ok { histories := histories[sid := HistoryOf(histories, sid) + [m]]; }
    }
  }

  class ContextEngine {
    var snapshots: map<SessionId, Snapshot>
    var order: seq<SessionId>

    constructor ()
      ensures snapshots == map[] && order == []
    {
      snapshots, order := map[], [];
    }

    method PrepareMessages(cut: Message -> Text, norm: Text -> Text, store: SessionStore, sid: SessionId,
                           blob: Text, hint: Option<Text>, persists: bool)
      returns (request: Request)
      requires |blob| >= 1
      modifies this, store
      ensures (State(snapshots, order, store.histories), request)
              == Prepare(cut, norm, old(State(snapshots, order, store.histories)), sid, blob, hint, persists)
    {
      hide *;
      ghost var st := State(snapshots, order, store.histories);
      var messages := Pipeline.ReplayHistory(cut, HistoryOf(store.histories, sid));
      var sections := SplitVolatileSections(blob);
      var prev := if sid in snapshots then Some(snapshots[sid]) else None;
      var g := GateSections(norm, prev, FirstCallOfTurn(messages), sections);
      snapshots := snapshots[sid := g.next];
      order := if sid in order then order else order + [sid];
      if g.changed != [] && sid != "" {
        store.AppendMessage(sid, CheckpointMessage(g.changed), persists);
      }
      ghost var snaps0, order0 := snapshots, order;
      while |snapshots| > MAX_SESSIONS && order != []
        modifies this
        invariant Evict(snapshots, order) == Evict(snaps0, order0)
        decreases |order|
      {
        EvictStep(snapshots, order);
        snapshots, order := snapshots - {order[0]}, order[1..];
      }
      EvictStep(snapshots, order);
      request := Request(messages, Tail(hint, g));
      PrepareIs(cut, norm, st, sid, blob, hint, persists);
    }
  }

  lemma EvictStep(snaps: map<SessionId, Snapshot>, order: seq<SessionId>)
    ensures |snaps| > MAX_SESSIONS && order != [] ==>
              Evict(snaps, order) == Evict(snaps - {order[0]}, order[1..])
    ensures !(|snaps| > MAX_SESSIONS && order != []) ==> Evict(snaps, order) == (snaps, order)
  {}

  /** The parts of one call, by name. */
  lemma PrepareIs(cut: Message -> Text, norm: Text -> Text, st: State, sid: SessionId, blob: Text,
                  hint: Option<Text>, persists: bool)
    ensures var messages := Pipeline.Replay(cut, HistoryOf(st.histories, sid));
            var prev := if sid in st.snapshots then Some(st.snapshots[sid]) else None;
            var g := GateOf(norm, prev, FirstCallOfTurn(messages), SplitSections(blob));
            var e := Evict(st.snapshots[sid := g.next], if sid in st.order then st.order else st.order + [sid]);
            var hs := if g.changed != [] && sid != "" && persists
                      then st.histories[sid := HistoryOf(st.histories, sid) + [CheckpointMessage(g.changed)]]
                      else st.histories;
            Prepare(cut, norm, st, sid, blob, hint, persists)
            == (State(e.0, e.1, hs), Request(messages, Tail(hint, g)))
  {}
}
