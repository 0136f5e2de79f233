/** Which call is the first of a turn, said of the messages: where the last human message stands and
    whether a reply stands behind it. */
module Turns {
  import opened Prelude
  import opened Texts
  import opened Sections
  import opened Checkpoints
  import opened Sanitizer
  import opened Pipeline
  import opened ReplayKeeps
  import opened Blocks
  import HumanText
  import opened VolatileTail
  import opened Completeness
  import Rearm
  import AsStrings

  /** A message of a user whose text, without the blanks in front of it, starts like none of the
      texts that the engine and the harness write in the user's name. */
  ghost predicate Human(m: Message) {
    var line := TrimTextStart(m.content)[0];
    && m.role.User?
    && !("[SYSTEM] [Live context]" <= line) && !("[SYSTEM] [State checkpoint]" <= line)
    && !("[SYSTEM] [Conversation history summary" <= line) && !("[SYSTEM] Loop detected:" <= line)
    && !("[Continue from where you left off" <= line) && !("[CONTEXT SUMMARY]" <= line)
  }

  lemma HumanIs(m: Message)
    ensures Human(m) <==> m.role.User? && !Synthetic(m)
  {
    hide TrimText, TrimTextStart, IsSpace;
    NoBlankAtTheEnd();
    TrimmedStart(m.content, LIVE);
    TrimmedStart(m.content, PREFIX);
    TrimmedStart(m.content, "[SYSTEM] [Conversation history summary");
    TrimmedStart(m.content, LOOP);
    TrimmedStart(m.content, CONTINUE);
    TrimmedStart(m.content, "[CONTEXT SUMMARY]");
  }

  lemma NoBlankAtTheEnd()
    ensures !IsSpace(LIVE[|LIVE| - 1]) && !IsSpace(PREFIX[|PREFIX| - 1])
    ensures !IsSpace(LOOP[|LOOP| - 1]) && !IsSpace(CONTINUE[|CONTINUE| - 1])
    ensures var s := "[SYSTEM] [Conversation history summary"; !IsSpace(s[|s| - 1])
    ensures var s := "[CONTEXT SUMMARY]"; !IsSpace(s[|s| - 1])
  {
    assert LIVE[|LIVE| - 1] == ']' && PREFIX[|PREFIX| - 1] == ']';
    assert LOOP[|LOOP| - 1] == ':' && CONTINUE[|CONTINUE| - 1] == 'f';
  }

  // -------------------------------------------------------------------------- where the turn stands

  /** A human message without a reply behind it. */
  ghost predicate Unanswered(ms: seq<Message>) {
    exists i :: 0 <= i < |ms| && Human(ms[i]) && forall j :: i < j < |ms| ==> !ms[j].role.Assistant?
  }

  /** A reply behind the last human message. */
  ghost predicate Underway(ms: seq<Message>) {
    exists i, j :: 0 <= i < j < |ms| && Human(ms[i]) && ms[j].role.Assistant?
                   && forall k :: i < k < |ms| ==> !Human(ms[k])
  }

  lemma {:induction false} StartIsTheLastHuman(ms: seq<Message>)
    ensures var i := CurrentTurnStart(ms);
            && (forall j :: 0 <= j < |ms| && i < j ==> !Human(ms[j]))
            && ((exists j :: 0 <= j < |ms| && Human(ms[j])) ==> i < |ms| && Human(ms[i]))
            && ((forall j :: 0 <= j < |ms| ==> !Human(ms[j])) ==> i == 0)
  {
    hide Human, Synthetic;
    if ms != [] {
      var n := |ms| - 1;
      HumanIs(ms[n]);
      StartIsTheLastHuman(ms[..n]);
      assert forall j :: 0 <= j < n ==> ms[..n][j] == ms[j];
    }
  }

  /** The call is a first one if a human message is unanswered, and none if a reply stands behind the
      last human message. Without any human message it is one as long as nothing but the very first
      message is a reply. */
  lemma FirstCallMeans(ms: seq<Message>)
    ensures Unanswered(ms) ==> FirstCallOfTurn(ms)
    ensures Underway(ms) ==> !FirstCallOfTurn(ms)
    ensures (forall i :: 0 <= i < |ms| ==> !Human(ms[i])) ==>
              (FirstCallOfTurn(ms) <==> forall j :: 1 <= j < |ms| ==> !ms[j].role.Assistant?)
    ensures Unanswered(ms) || Underway(ms) <==> exists i :: 0 <= i < |ms| && Human(ms[i])
  {
    hide Human;
    StartIsTheLastHuman(ms);
    var s := CurrentTurnStart(ms);
    if Underway(ms) {
      var i, j :| 0 <= i < j < |ms| && Human(ms[i]) && ms[j].role.Assistant?
                  && forall k :: i < k < |ms| ==> !Human(ms[k]);
      assert s == i;
    }
    if exists i :: 0 <= i < |ms| && Human(ms[i]) {
      if j :| s < j < |ms| && ms[j].role.Assistant? {
        assert Underway(ms);
      } else {
        assert Unanswered(ms);
      }
    }
  }

  // ------------------------------------------------------------------------------- what a call sends

  /** The sections whose normal form is not the recorded one, and the one that is sent on every call. */
  function ChangedOrFresh(norm: Text -> Text, recorded: map<Key, Text>, ss: seq<Section>): seq<Section> {
    if ss == [] then []
    else
      var s := ss[0];
      (if s.key !in recorded || recorded[s.key] != norm(s.body) || s.key == Named("Current Interaction Mode")
       then [s] else [])
      + ChangedOrFresh(norm, recorded, ss[1..])
  }

  lemma {:induction false} ChangedConcat(norm: Text -> Text, recorded: map<Key, Text>, a: seq<Section>, b: seq<Section>)
    ensures ChangedOrFresh(norm, recorded, a + b)
            == ChangedOrFresh(norm, recorded, a) + ChangedOrFresh(norm, recorded, b)
  {
    if a == [] {
      assert a + b == b;
    } else {
      assert (a + b)[1..] == a[1..] + b;
      ChangedConcat(norm, recorded, a[1..], b);
    }
  }

  lemma {:induction false} FreshIsChanged(norm: Text -> Text, prev: Snapshot, ss: seq<Section>)
    ensures FreshOf(norm, Some(prev), false, ss) == ChangedOrFresh(norm, prev.hashes, ss)
  {
    if ss != [] {
      var init, s := ss[..|ss| - 1], ss[|ss| - 1];
      assert ss == init + [s];
      FreshIsChanged(norm, prev, init);
      ChangedConcat(norm, prev.hashes, init, [s]);
      assert [s][1..] == [];
    }
  }

  /** While a human message of the request is unanswered a call sends every section. While a reply
      stands behind the last human one it sends every section too if nothing is recorded, or the last
      eight calls sent nothing; otherwise it sends what has changed and what is always sent. */
  lemma WhatACallSends(cut: Message -> Text, norm: Text -> Text, st: State, sid: SessionId, blob: Text,
                       hint: Option<Text>, persists: bool)
    ensures var req := Prepare(cut, norm, st, sid, blob, hint, persists).1;
            var gate := GateAt(cut, norm, st, sid, blob);
            && req.messages == Replay(cut, HistoryOf(st.histories, sid))
            && req.tail == Tail(hint, gate)
            && (Unanswered(req.messages) ==> gate.sent == SplitSections(blob))
            && (Underway(req.messages) ==>
                  gate.sent == if sid in st.snapshots && st.snapshots[sid].calls.Since? && st.snapshots[sid].calls.n < 8
                               then ChangedOrFresh(norm, st.snapshots[sid].hashes, SplitSections(blob))
                               else SplitSections(blob))
  {
    hide Replay, Unanswered, Underway, FirstCallOfTurn, SplitSections, Tail, FreshOf, ChangedOrFresh, Evict;
    PrepareIs(cut, norm, st, sid, blob, hint, persists);
    var r := Replay(cut, HistoryOf(st.histories, sid));
    FirstCallMeans(r);
    var prev := if sid in st.snapshots then Some(st.snapshots[sid]) else None;
    Rearm.AllAreSent(norm, prev, SplitSections(blob));
    if prev.Some? { FreshIsChanged(norm, prev.value, SplitSections(blob)); }
  }

  /** The sections whose normal form is not the recorded one, without the one that is always sent. */
  function NewlyChanged(norm: Text -> Text, recorded: map<Key, Text>, ss: seq<Section>): seq<Section> {
    if ss == [] then []
    else
      var s := ss[0];
      (if (s.key !in recorded || recorded[s.key] != norm(s.body)) && s.key != Named("Current Interaction Mode")
       then [s] else [])
      + NewlyChanged(norm, recorded, ss[1..])
  }

  lemma {:induction false} NewlyConcat(norm: Text -> Text, recorded: map<Key, Text>, a: seq<Section>, b: seq<Section>)
    ensures NewlyChanged(norm, recorded, a + b) == NewlyChanged(norm, recorded, a) + NewlyChanged(norm, recorded, b)
  {
    if a == [] {
      assert a + b == b;
    } else {
      assert (a + b)[1..] == a[1..] + b;
      NewlyConcat(norm, recorded, a[1..], b);
    }
  }

  lemma {:induction false} ChangedAre(norm: Text -> Text, prev: Option<Snapshot>, ss: seq<Section>)
    ensures ChangedOf(norm, prev, ss) == NewlyChanged(norm, if prev.Some? then prev.value.hashes else map[], ss)
  {
    if ss != [] {
      var init, s := ss[..|ss| - 1], ss[|ss| - 1];
      assert ss == init + [s];
      ChangedAre(norm, prev, init);
      NewlyConcat(norm, if prev.Some? then prev.value.hashes else map[], init, [s]);
      assert [s][1..] == [];
    }
  }

  /** What a call stores: a checkpoint of the sections that have changed, if there are any, the session
      has a name and the store accepts it; and nothing for any other session. */
  lemma WhatACallStores(cut: Message -> Text, norm: Text -> Text, st: State, sid: SessionId, blob: Text,
                        hint: Option<Text>, persists: bool)
    ensures var st' := Prepare(cut, norm, st, sid, blob, hint, persists).0;
            var recorded := if sid in st.snapshots then st.snapshots[sid].hashes else map[];
            var changed := NewlyChanged(norm, recorded, SplitSections(blob));
            && HistoryOf(st'.histories, sid)
               == HistoryOf(st.histories, sid)
                  + (if changed != [] && sid != "" && persists then [Message(User, Print(changed), [], None)] else [])
            && forall other :: other != sid ==> HistoryOf(st'.histories, other) == HistoryOf(st.histories, other)
  {
    hide Replay, FirstCallOfTurn, SplitSections, Tail, FreshOf, NewlyChanged, Evict, Print, ChangedOf, OmittedOf,
         HashesOf;
    PrepareIs(cut, norm, st, sid, blob, hint, persists);
    ChangedAre(norm, if sid in st.snapshots then Some(st.snapshots[sid]) else None, SplitSections(blob));
  }

  /** The line has that name in it. */
  ghost predicate Mentions(line: string, name: string) { exists a, b :: line == a + name + b }

  function KeyName(k: Key): string { match k case Preamble => "_preamble" case Named(n) => n }

  lemma {:induction false} JoinedMentions(names: seq<string>, sep: string, k: nat)
    requires k < |names|
    ensures Mentions(Joined(names, sep), names[k])
  {
    if |names| == 1 {
      assert Joined(names, sep) == "" + names[0] + "";
    } else if k == 0 {
      assert Joined(names, sep) == "" + names[0] + (sep + Joined(names[1..], sep));
    } else {
      JoinedMentions(names[1..], sep, k - 1);
      var a, b :| Joined(names[1..], sep) == a + names[k] + b;
      assert Joined(names, sep) == (names[0] + sep + a) + names[k] + b;
    }
  }

  lemma {:induction false} NamesAt(ks: seq<Key>, k: nat)
    requires k < |ks|
    ensures AsStrings.NamesOf(ks)[k] == KeyName(ks[k])
  {
    if k > 0 { NamesAt(ks[1..], k - 1); }
  }

  lemma DigestMentions(ks: seq<Key>, k: nat)
    requires k < |ks|
    ensures Mentions(Digest(ks)[0], KeyName(ks[k]))
  {
    hide Mentions, JoinNames, KeyName;
    AsStrings.NamesJoined(ks);
    NamesAt(ks, k);
    JoinedMentions(AsStrings.NamesOf(ks), ", ", k);
    var name := KeyName(ks[k]);
    var a, b :| JoinNames(ks) == a + name + b;
    InTheMiddle(DIGEST_START, a, name, b, DIGEST_END);
  }

  lemma InTheMiddle(start: string, a: string, name: string, b: string, end: string)
    ensures Mentions(start + (a + name + b) + end, name)
  {
    assert start + (a + name + b) + end == (start + a) + name + (b + end);
  }

  lemma {:induction false} OmittedHas(norm: Text -> Text, prev: Option<Snapshot>, force: bool, ss: seq<Section>,
                                      s: Section)
    requires s in ss
    ensures s in FreshOf(norm, prev, force, ss) || s.key in OmittedOf(norm, prev, force, ss)
  {
    hide Sent;
    var init, last := ss[..|ss| - 1], ss[|ss| - 1];
    assert ss == init + [last];
    if s in init { OmittedHas(norm, prev, force, init, s); }
  }

  lemma DigestIsInTheTail(hint: Option<Text>, g: Gate)
    requires g.omitted != []
    ensures Tail(hint, g).Some? && Digest(g.omitted)[0] in Tail(hint, g).value.content
  {
    hide Digest, JoinTexts, Glue;
    var bits := TailBits(hint, g);
    var k := |bits| - 1;
    assert bits[k] == Digest(g.omitted);
    OneLineLong(g.omitted);
    WholeIsCarried(Digest(g.omitted));
    JoinCarries(bits, k, Digest(g.omitted));
    CarriedLine(JoinTexts(bits), Digest(g.omitted));
  }

  lemma OneLineLong(ks: seq<Key>)
    ensures |Digest(ks)| == 1
  {}

  lemma WholeIsCarried(t: Text)
    ensures Carries(t, t)
  {
    assert CarriesAt(t, t, 0);
  }

  lemma CarriedLine(t: Text, x: Text)
    requires Carries(t, x) && x != []
    ensures x[0] in t
  {
    var i: nat :| CarriesAt(t, x, i);
    assert t[i] == t[i..i + |x|][0];
  }

  /** No section goes unmentioned: each is in the tail word for word, or the tail has a line that gives
      its name. */
  lemma EverySectionIsSentOrNamed(cut: Message -> Text, norm: Text -> Text, st: State, sid: SessionId, blob: Text,
                                  hint: Option<Text>, persists: bool, s: Section)
    requires s in SplitSections(blob)
    ensures var tail := Prepare(cut, norm, st, sid, blob, hint, persists).1.tail;
            && tail.Some?
            && (Carries(tail.value.content, s.body)
                || exists line :: line in tail.value.content && Mentions(line, KeyName(s.key)))
  {
    hide *;
    var gate := GateAt(cut, norm, st, sid, blob);
    PrepareIs(cut, norm, st, sid, blob, hint, persists);
    Rearm.GateAtIs(cut, norm, st, sid, blob);
    var prev := if sid in st.snapshots then Some(st.snapshots[sid]) else None;
    GateParts(norm, prev, FirstCallOfTurn(Replay(cut, HistoryOf(st.histories, sid))), SplitSections(blob), s);
    if s in gate.sent {
      SentIsInTheTail(hint, gate, s);
    } else {
      var k :| 0 <= k < |gate.omitted| && gate.omitted[k] == s.key;
      DigestIsInTheTail(hint, gate);
      DigestMentions(gate.omitted, k);
    }
  }

  lemma GateParts(norm: Text -> Text, prev: Option<Snapshot>, first: bool, ss: seq<Section>, s: Section)
    requires s in ss
    ensures var g := GateOf(norm, prev, first, ss); s in g.sent || s.key in g.omitted
  {
    OmittedHas(norm, prev, ForceFull(prev, first), ss, s);
  }

  // ----------------------------------------------------------------- when a human message comes in

  lemma {:induction false} DedupeEndsWith(front: seq<Message>, p: Message)
    ensures Dedupe(front + [p]) != [] && Dedupe(front + [p])[|Dedupe(front + [p])| - 1] == p
    ensures Dedupe([p]) == [p]
  {
    hide IsContinuation, IsLoopWarning;
    assert [p][1..] == [];
    if front != [] {
      assert (front + [p])[1..] == front[1..] + [p];
      DedupeEndsWith(front[1..], p);
    } else {
      assert front + [p] == [p];
    }
  }

  predicate SameFamily(p: Message, q: Message) {
    (IsContinuation(p) <==> IsContinuation(q)) && (IsLoopWarning(p) <==> IsLoopWarning(q))
  }

  lemma {:induction false} DedupeReplacesTheLast(front: seq<Message>, p: Message, q: Message)
    requires SameFamily(p, q)
    ensures var d := Dedupe(front + [p]); d != [] && Dedupe(front + [q]) == d[..|d| - 1] + [q]
  {
    hide IsContinuation, IsLoopWarning;
    DedupeEndsWith(front, p);
    DedupeEndsWith([], q);
    if front == [] {
      assert front + [p] == [p] && front + [q] == [q];
      DedupeEndsWith([], p);
    } else {
      var x, rest := front[0], front[1..];
      assert (front + [p])[1..] == rest + [p] && (front + [q])[1..] == rest + [q];
      DedupeReplacesTheLast(rest, p, q);
      SupersededAlike(x, rest, p, q);
    }
  }

  lemma SupersededAlike(x: Message, rest: seq<Message>, p: Message, q: Message)
    requires SameFamily(p, q)
    ensures Superseded(x, rest + [p]) <==> Superseded(x, rest + [q])
  {
    hide IsContinuation, IsLoopWarning;
    assert (rest + [p])[|rest|] == p && (rest + [q])[|rest|] == q;
    assert forall i :: 0 <= i < |rest| ==> (rest + [p])[i] == rest[i] == (rest + [q])[i];
  }

  /** The family of a message that another one is merged into, or takes its place when it is blank. */
  lemma MergedIsHuman(p: Message, m: Message)
    requires Mergeable(p, m) && Human(m)
    ensures Human(Merged(p, m)) <==> Human(p)
    ensures SameFamily(p, Merged(p, m))
  {
    hide IsContinuation, IsLoopWarning, Mergeable;
    HumanText.MergedFamily(p, m);
    TrimStartOfJoin(p.content, m.content);
    HumanIsNoPrompt(m);
    if AllBlank(p.content) {
      HumanText.BlankIsNoPrompt(p);
      BlankIsHuman(p);
    }
    MergeableRoles(p, m);
  }

  lemma MergeableRoles(p: Message, m: Message)
    requires Mergeable(p, m)
    ensures p.role.User? && m.role.User? && !Injected(p.content) && !Injected(m.content)
  {}

  lemma HumanIsNoPrompt(m: Message)
    requires Human(m)
    ensures !IsContinuation(m) && !IsLoopWarning(m) && !IsCheckpoint(m)
  {
    TransientByStart(m);
  }

  lemma BlankIsHuman(m: Message)
    requires AllBlank(m.content)
    ensures Human(m) <==> m.role.User?
  {
    TrimStartKeepsEnd(m.content);
  }

  lemma DedupeOnto(s: seq<Message>, m: Message)
    requires Human(m)
    ensures Dedupe(MergeOnto(s, m)) == MergeOnto(Dedupe(s), m)
  {
    hide Human, Mergeable, Superseded, IsContinuation, IsLoopWarning, Dedupe;
    NothingDeduped();
    HumanIsNoPrompt(m);
    if s != [] {
      var front, p := s[..|s| - 1], s[|s| - 1];
      assert s == front + [p];
      DedupeEndsWith(front, p);
      if Mergeable(p, m) {
        MergedIsHuman(p, m);
        DedupeReplacesTheLast(front, p, Merged(p, m));
      }
    }
    assert NoTransients([m]);
    DedupeAppends(s, [m]);
  }

  lemma NothingDeduped()
    ensures Dedupe([]) == []
  {}

  lemma SanitizeOnto(ms: seq<Message>, m: Message)
    requires m.role.User?
    ensures Sanitize(ms + [m]) == MergeOnto(Sanitize(ms), m)
  {
    hide MergeOnto;
    CompleteBlocksAppends(ms, [m]);
    assert CompleteBlocks([m]) == [m] by { assert [m][1..] == []; }
    MergeFromSplits([], CompleteBlocks(ms), [m]);
    var s := Sanitize(ms);
    assert MergeFrom(s, [m]) == MergeOnto(s, m) by { assert [m][1..] == []; }
  }

  /** A human message below the size at which messages are shrunk is appended to the request, or to
      its last message if that is one of the user's that is not marked as the system's. */
  lemma HumanMessageComesLast(cut: Message -> Text, h: seq<Message>, m: Message)
    requires Human(m) && TextLen(m.content) <= 200_000
    ensures Replay(cut, h + [m]) == MergeOnto(Replay(cut, h), m)
  {
    hide *;
    HumanParts(m);
    var s := ShrinkAll(cut, h);
    ShrinkAppend(cut, h, m);
    ShrinksNot(cut, m);
    OneIsNoCheckpoint(m);
    CollapseAppends(s, [m]);
    SanitizeOnto(Collapse(s), m);
    DedupeOnto(Sanitize(Collapse(s)), m);
    ReplayIs(cut, h);
    ReplayIs(cut, h + [m]);
  }

  lemma HumanParts(m: Message)
    requires Human(m)
    ensures m.role.User? && !IsCheckpoint(m)
  {}

  lemma ShrinksNot(cut: Message -> Text, m: Message)
    requires TextLen(m.content) <= 200_000
    ensures Shrink(cut, m) == m
  {}

  lemma OneIsNoCheckpoint(m: Message)
    requires !IsCheckpoint(m)
    ensures NoCheckpoints([m])
  {}

  /** The message that comes next is swallowed: the last one is the user's, is a prompt of the harness
      or a summary, and carries no mark that would keep them apart. */
  ghost predicate Swallows(r: seq<Message>) {
    r != [] && r[|r| - 1].role.User? && !Human(r[|r| - 1]) && !FromTheSystem(r[|r| - 1])
  }

  /** A human message that comes in begins a turn, unless the last message of the request swallows it.
      Then it begins none: a turn that was underway stays underway, and one that was not, was not. */
  lemma HumanMessageBeginsATurnExactlyWhen(cut: Message -> Text, h: seq<Message>, m: Message)
    requires Human(m) && TextLen(m.content) <= 200_000
    ensures var r, r' := Replay(cut, h), Replay(cut, h + [m]);
            && r' != []
            && (Human(r'[|r'| - 1]) <==> !Swallows(r) || FromTheSystem(m))
            && (Human(r'[|r'| - 1]) ==> Unanswered(r'))
            && (!Human(r'[|r'| - 1]) ==> (Unanswered(r') <==> Unanswered(r)) && (Underway(r') <==> Underway(r)))
  {
    hide Human, Injected, Replay, Unanswered, Underway, IsContinuation, IsLoopWarning, FromTheSystem;
    var r, r' := Replay(cut, h), Replay(cut, h + [m]);
    FromTheSystemIs(m);
    if r != [] { FromTheSystemIs(r[|r| - 1]); }
    HumanMessageComesLast(cut, h, m);
    HumanParts(m);
    if r != [] && Mergeable(r[|r| - 1], m) {
      MergedIsHuman(r[|r| - 1], m);
      assert r' == r[..|r| - 1] + [Merged(r[|r| - 1], m)];
      if !Human(r[|r| - 1]) {
        assert r == r[..|r| - 1] + [r[|r| - 1]];
        SameTurn(r[..|r| - 1], r[|r| - 1], Merged(r[|r| - 1], m));
      }
    } else {
      assert r' == r + [m];
    }
    if Human(r'[|r'| - 1]) { LastIsUnanswered(r'); }
  }

  lemma LastIsUnanswered(ms: seq<Message>)
    requires ms != [] && Human(ms[|ms| - 1])
    ensures Unanswered(ms)
  {
    hide Human;
    assert Human(ms[|ms| - 1]);
  }

  lemma SameTurn(front: seq<Message>, p: Message, q: Message)
    requires p.role.User? && q.role.User? && !Human(p) && !Human(q)
    ensures Unanswered(front + [p]) <==> Unanswered(front + [q])
    ensures Underway(front + [p]) <==> Underway(front + [q])
  {
    SameTurnOneWay(front, p, q);
    SameTurnOneWay(front, q, p);
  }

  lemma SameTurnOneWay(front: seq<Message>, p: Message, q: Message)
    requires p.role.User? && q.role.User? && !Human(p) && !Human(q)
    ensures Unanswered(front + [p]) ==> Unanswered(front + [q])
    ensures Underway(front + [p]) ==> Underway(front + [q])
  {
    hide Human;
    var a, b, n := front + [p], front + [q], |front|;
    assert a[n] == p && b[n] == q && forall i :: 0 <= i < n ==> a[i] == b[i] == front[i];
    if Unanswered(a) {
      var i :| 0 <= i < |a| && Human(a[i]) && forall j :: i < j < |a| ==> !a[j].role.Assistant?;
      assert Human(b[i]);
    }
    if Underway(a) {
      var i, j :| 0 <= i < j < |a| && Human(a[i]) && a[j].role.Assistant?
                  && forall k :: i < k < |a| ==> !Human(a[k]);
      assert Human(b[i]) && b[j].role.Assistant?;
      assert forall k :: i < k < |b| ==> !Human(b[k]);
    }
  }

  /** After every run that ends with a human message that is not swallowed, the call sends every
      section of the state, whatever was sent before. */
  lemma CallAfterAHumanMessage(cut: Message -> Text, norm: Text -> Text, es: seq<Event>, sid: SessionId, m: Message,
                               blob: Text, hint: Option<Text>, persists: bool)
    requires Human(m) && TextLen(m.content) <= 200_000
    requires !Swallows(Replay(cut, HistoryOf(Run(cut, norm, START, es).histories, sid))) || FromTheSystem(m)
    ensures var st := Run(cut, norm, START, es + [Append(sid, m)]);
            && GateAt(cut, norm, st, sid, blob).sent == SplitSections(blob)
            && Prepare(cut, norm, st, sid, blob, hint, persists).1.tail
               == Tail(hint, GateAt(cut, norm, st, sid, blob))
  {
    hide *;
    var st0 := Run(cut, norm, START, es);
    Rearm.RunAppend(cut, norm, START, es, [Append(sid, m)]);
    Rearm.RunOne(cut, norm, st0, Append(sid, m));
    AppendIs(cut, norm, st0, sid, m);
    var st := Run(cut, norm, START, es + [Append(sid, m)]);
    HumanMessageBeginsATurnExactlyWhen(cut, HistoryOf(st0.histories, sid), m);
    WhatACallSends(cut, norm, st, sid, blob, hint, persists);
  }

  lemma AppendIs(cut: Message -> Text, norm: Text -> Text, st: State, sid: SessionId, m: Message)
    ensures HistoryOf(Next(cut, norm, st, Append(sid, m)).histories, sid) == HistoryOf(st.histories, sid) + [m]
  {}

  // --------------------------------------------------------------------------- a turn that is swallowed

  const ASKED := Message(User, ["go"], [], None)
  const REPLIED := Message(Assistant, ["ok"], [], None)
  const PROMPTED := Message(User, [CONTINUE], [], None)

  /** It does happen: behind a continuation prompt a human message begins no turn, so the call after it
      leaves out what has not changed. */
  lemma APromptSwallowsTheTurn(cut: Message -> Text)
    ensures var r := Replay(cut, [ASKED, REPLIED, PROMPTED]);
            r == [ASKED, REPLIED, PROMPTED] && Swallows(r) && Underway(r)
  {
    hide *;
    var h := [ASKED, REPLIED, PROMPTED];
    AreAsTheySound();
    ShortShrinksNot(cut);
    NoIndices(h);
    CollapseCases(h);
    AlreadyNormal();
    NormalFormStays(h);
    assert [ASKED, REPLIED] + [PROMPTED] == h;
    NothingDedupedBefore([ASKED, REPLIED], PROMPTED);
    ReplayIs(cut, h);
    UnderwayAndSwallowing();
  }

  lemma AreAsTheySound()
    ensures Human(ASKED) && !Human(PROMPTED) && !FromTheSystem(PROMPTED)
    ensures NoTransients([ASKED, REPLIED]) && NoCheckpoints([ASKED, REPLIED, PROMPTED])
  {
    hide Human, FromTheSystem, IsContinuation, IsLoopWarning, IsCheckpoint;
    AskedIsHuman();
    PromptedIsPrompt();
    HumanIsNoPrompt(ASKED);
    RepliedIsPlain();
  }

  lemma AskedIsHuman()
    ensures Human(ASKED)
  {
    hide TrimTextStart;
    LooksLike("go");
    assert "go"[0] == 'g';
  }

  lemma PromptedIsPrompt()
    ensures !Human(PROMPTED) && !FromTheSystem(PROMPTED) && !IsCheckpoint(PROMPTED)
  {
    hide TrimTextStart;
    LooksLike(CONTINUE);
    assert CONTINUE[1] == 'C' && PREFIX[1] == 'S';
    assert "[SYSTEM]"[1] == 'S' && "[Conversation history summary"[4] == 'v' && CONTINUE[4] == 't';
  }

  lemma RepliedIsPlain()
    ensures !IsContinuation(REPLIED) && !IsLoopWarning(REPLIED) && !IsCheckpoint(REPLIED)
  {}

  lemma LooksLike(line: string)
    requires line == "go" || line == CONTINUE
    ensures TrimTextStart([line])[0] == line
  {
    assert line[0] == 'g' || line[0] == '[';
    assert !IsSpace(line[0]) && !Blank(line);
  }

  lemma ShortShrinksNot(cut: Message -> Text)
    ensures ShrinkAll(cut, [ASKED, REPLIED, PROMPTED]) == [ASKED, REPLIED, PROMPTED]
  {
    hide TextLen;
    OneLineLen("go");
    OneLineLen("ok");
    OneLineLen(CONTINUE);
  }

  lemma OneLineLen(line: string)
    ensures TextLen([line]) == |line|
  {}

  lemma AlreadyNormal()
    ensures WellBlocked([ASKED, REPLIED, PROMPTED]) && NothingToMerge([ASKED, REPLIED, PROMPTED])
  {
    hide Injected;
    var h := [ASKED, REPLIED, PROMPTED];
    assert h[1..] == [REPLIED, PROMPTED] && [REPLIED, PROMPTED][1..] == [PROMPTED] && [PROMPTED][1..] == [];
    assert WellBlocked([PROMPTED]);
    assert WellBlocked([REPLIED, PROMPTED]);
  }

  lemma {:induction false} NothingDedupedBefore(front: seq<Message>, p: Message)
    requires NoTransients(front)
    ensures Dedupe(front + [p]) == front + [p]
  {
    hide IsContinuation, IsLoopWarning;
    if front == [] {
      assert front + [p] == [p] && [p][1..] == [];
    } else {
      assert (front + [p])[1..] == front[1..] + [p];
      NothingDedupedBefore(front[1..], p);
      assert !Superseded(front[0], front[1..] + [p]);
    }
  }

  lemma UnderwayAndSwallowing()
    requires Human(ASKED) && !Human(PROMPTED) && !FromTheSystem(PROMPTED)
    ensures var h := [ASKED, REPLIED, PROMPTED]; Swallows(h) && Underway(h)
  {
    hide Human, FromTheSystem;
    var h := [ASKED, REPLIED, PROMPTED];
    assert Human(h[0]) && h[1].role.Assistant?;
    ReplyIsNotHuman();
  }

  lemma ReplyIsNotHuman()
    ensures !Human(REPLIED)
  {}
}
