/** The concurrent handoff log: a ring buffer of the newest records, kept in step with a file that
    is appended to and, past a threshold, rewritten. A file is its lines; a line that does not
    parse as a record is skipped when it is read. */
module HandoffLog {
  import opened Prelude

  const COMPACT_THRESHOLD: nat := 512

  datatype Kind = Declared | Fact | Done | Conflict | Unknown

  datatype Record = Record(id: string, workerId: int, entityKey: Option<string>, kind: Kind, summary: string)

  datatype Line = Readable(rec: Record) | Skipped

  /** The log in memory, and its file if it exists. */
  datatype Log = Log(items: seq<Record>, appendedLines: nat, disk: Option<seq<Line>>)

  /** The last `n` elements. */
  function Last<T>(s: seq<T>, n: nat): seq<T> { if |s| <= n then s else s[|s| - n..] }

  function Records(lines: seq<Line>): seq<Record> {
    if lines == [] then []
    else Records(lines[..|lines| - 1]) + (match lines[|lines| - 1] case Readable(r) => [r] case Skipped => [])
  }

  function LinesOf(rs: seq<Record>): seq<Line> { seq(|rs|, i requires 0 <= i < |rs| => Readable(rs[i])) }

  function Content(disk: Option<seq<Line>>): seq<Line> { if disk.Some? then disk.value else [] }

  // ------------------------------------------------------------------- the operations on values

  /** Splitting a text that ends in a line end yields one empty line more than it has. */
  function Loaded(l: Log, keep: nat): Log {
    if l.disk.None? then l
    else Log(Last(l.items + Records(l.disk.value), keep), |l.disk.value| + 1, l.disk)
  }

  /** `wrote`, `rewrote`: whether the append and the rewrite, if it comes to one, succeed. */
  function Appended(l: Log, r: Record, keep: nat, wrote: bool, rewrote: bool): Log {
    var items := Last(l.items + [r], keep);
    if !wrote then l.(items := items)
    else if l.appendedLines + 1 < COMPACT_THRESHOLD || !rewrote then
      Log(items, l.appendedLines + 1, Some(Content(l.disk) + [Readable(r)]))
    else Log(items, |items|, Some(LinesOf(items)))
  }

  function Cleared(l: Log, wrote: bool): Log { Log([], 0, if wrote then Some([]) else l.disk) }

  class File {
    var lines: Option<seq<Line>>

    constructor (initial: Option<seq<Line>>)
      ensures lines == initial
    {
      lines := initial;
    }
  }

  class ConcurrentHandoffLog {
    const file: File?
    const maxKeep: nat
    var items: seq<Record>
    var appendedLines: nat

    constructor (f: File?, keep: int)
      ensures file == f && maxKeep == Max(8, keep) && items == [] && appendedLines == 0
    {
      file, maxKeep, items, appendedLines := f, Max(8, keep), [], 0;
    }

    ghost function Value(): Log
      reads this, file
    {
      Log(items, appendedLines, if file == null then None else file.lines)
    }

    method Load()
      requires |items| <= maxKeep
      modifies this
      ensures Value() == Loaded(old(Value()), maxKeep)
    {
      if file == null || file.lines.None? { return; }
      var lines := file.lines.value;
      ghost var before := items;
      assert before + Records(lines[..0]) == before;
      for i := 0 to |lines|
        invariant items == before + Records(lines[..i])
      {
        assert lines[..i + 1][..i] == lines[..i];
        match lines[i] {
          case Readable(rec) => items := items + [rec];
          case Skipped =>
        }
      }
      assert lines[..|lines|] == lines;
      appendedLines := |lines| + 1;
      if |items| > maxKeep { items := items[|items| - maxKeep..]; }
    }

    method Append(rec: Record, wrote: bool, rewrote: bool)
      requires |items| <= maxKeep && maxKeep > 0
      modifies this, file
      ensures file != null ==> Value() == Appended(old(Value()), rec, maxKeep, wrote, rewrote)
      ensures file == null ==> Value() == old(Value()).(items := Last(old(items) + [rec], maxKeep))
    {
      items := items + [rec];
      if |items| > maxKeep { items := items[1..]; }
      if file != null && wrote {
        file.lines := Some(Content(file.lines) + [Readable(rec)]);
        appendedLines := appendedLines + 1;
        if appendedLines >= COMPACT_THRESHOLD && rewrote { CompactFile(); }
      }
    }

    method CompactFile()
      requires file != null
      modifies this`appendedLines, file
      ensures file.lines == Some(LinesOf(items)) && appendedLines == |items|
    {
      file.lines := Some(LinesOf(items));
      appendedLines := |items|;
    }

    method Recent(n: int) returns (r: seq<Record>)
      ensures r == if n <= 0 then [] else Last(items, n)
    {
      if n <= 0 { return []; }
      var m := if n < |items| then n else |items|;
      r := items[|items| - m..];
    }

    method Clear(wrote: bool)
      modifies this, file
      ensures Value().items == [] && Value().appendedLines == 0
      ensures file != null ==> Value() == Cleared(old(Value()), wrote)
    {
      items := [];
      if file != null && wrote { file.lines := Some([]); }
      appendedLines := 0;
    }
  }

  // ------------------------------------------------------------------------------- durability

  /** Append, clear, or a restart: a new log on the same file, loaded. Writes may fail. */
  datatype Op = AppendRecord(rec: Record, wrote: bool, rewrote: bool) | ClearAll(wrote: bool) | Restart

  function Apply(l: Log, op: Op, keep: nat): Log {
    match op
    case AppendRecord(r, wrote, rewrote) => Appended(l, r, keep, wrote, rewrote)
    case ClearAll(wrote) => Cleared(l, wrote)
    case Restart => Loaded(Log([], 0, l.disk), keep)
  }

  function RunLog(l: Log, ops: seq<Op>, keep: nat): Log {
    if ops == [] then l else Apply(RunLog(l, ops[..|ops| - 1], keep), ops[|ops| - 1], keep)
  }

  /** The append brings the file to the threshold, and its rewrite succeeds. */
  predicate Rewrites(l: Log, op: Op) {
    op.AppendRecord? && op.wrote && op.rewrote && l.appendedLines + 1 >= COMPACT_THRESHOLD
  }

  /** What the process was told since the last clear, and what of it the file was told: a failed
      append is missing there until a rewrite brings it back, and for good after a restart. */
  datatype Told = Told(process: seq<Record>, file: seq<Record>)

  function TellOne(l: Log, t: Told, op: Op): Told {
    match op
    case AppendRecord(r, wrote, _) =>
      var all := t.process + [r];
      Told(all, if Rewrites(l, op) then all else if wrote then t.file + [r] else t.file)
    case ClearAll(wrote) => Told([], if wrote then [] else t.file)
    case Restart => Told(t.file, t.file)
  }

  function TellAll(l: Log, t: Told, ops: seq<Op>, keep: nat): Told {
    if ops == [] then t
    else TellOne(RunLog(l, ops[..|ops| - 1], keep), TellAll(l, t, ops[..|ops| - 1], keep), ops[|ops| - 1])
  }

  predicate Succeeds(op: Op) {
    match op
    case AppendRecord(_, wrote, rewrote) => wrote && rewrote
    case ClearAll(wrote) => wrote
    case Restart => true
  }

  predicate AllSucceed(ops: seq<Op>) { forall i :: 0 <= i < |ops| ==> Succeeds(ops[i]) }

  /** What was appended since the last clear, on top of what the file held. */
  function History(start: seq<Record>, ops: seq<Op>): seq<Record> {
    if ops == [] then start
    else
      var before := History(start, ops[..|ops| - 1]);
      match ops[|ops| - 1]
      case AppendRecord(r, _, _) => before + [r]
      case ClearAll(_) => []
      case Restart => before
  }

  /** Memory and file hold the newest of what they were told. */
  ghost predicate InStep(l: Log, t: Told, keep: nat) {
    l.items == Last(t.process, keep) && Last(Records(Content(l.disk)), keep) == Last(t.file, keep)
  }

  predicate Counted(l: Log) { |Content(l.disk)| <= l.appendedLines <= |Content(l.disk)| + 1 }

  lemma LastOfLast<T>(s: seq<T>, r: seq<T>, n: nat)
    ensures Last(Last(s, n) + r, n) == Last(s + r, n)
  {
  }

  lemma LastTwice<T>(s: seq<T>, n: nat)
    ensures Last(Last(s, n), n) == Last(s, n)
  {
  }

  lemma RecordsOneMore(lines: seq<Line>, r: Record)
    ensures Records(lines + [Readable(r)]) == Records(lines) + [r]
  {
  }

  lemma {:induction false} RecordsOfLines(rs: seq<Record>)
    ensures Records(LinesOf(rs)) == rs
  {
    if rs == [] {
    } else {
      RecordsOfLines(rs[..|rs| - 1]);
      assert LinesOf(rs)[..|rs| - 1] == LinesOf(rs[..|rs| - 1]);
    }
  }

  lemma AppendKeepsStep(l: Log, t: Told, op: Op, keep: nat)
    requires InStep(l, t, keep) && op.AppendRecord?
    ensures InStep(Apply(l, op, keep), TellOne(l, t, op), keep)
  {
    hide Last, LinesOf, Records;
    var r := op.rec;
    var items := Last(l.items + [r], keep);
    LastOfLast(t.process, [r], keep);
    LastOfLast(t.file, [r], keep);
    LastOfLast(Records(Content(l.disk)), [r], keep);
    RecordsOneMore(Content(l.disk), r);
    RecordsOfLines(items);
    LastTwice(l.items + [r], keep);
  }

  /** An append that succeeds keeps the count, and leaves a file of bounded length. */
  lemma AppendKeepsCount(l: Log, r: Record, keep: nat)
    requires Counted(l)
    ensures var m := Appended(l, r, keep, true, true);
            Counted(m) && |Content(m.disk)| <= Max(COMPACT_THRESHOLD - 1, keep)
  {
    hide Last, LinesOf;
    Sizes(Last(l.items + [r], keep), l.items + [r], keep);
  }

  lemma Sizes(items: seq<Record>, s: seq<Record>, keep: nat)
    requires items == Last(s, keep)
    ensures |items| <= keep && |LinesOf(items)| == |items|
  {
  }

  lemma {:induction false} RunStaysInStep(l: Log, t: Told, ops: seq<Op>, keep: nat)
    requires InStep(l, t, keep)
    ensures InStep(RunLog(l, ops, keep), TellAll(l, t, ops, keep), keep)
  {
    hide Last, Records, Appended, Rewrites;
    if ops != [] {
      var init, op := ops[..|ops| - 1], ops[|ops| - 1];
      RunStaysInStep(l, t, init, keep);
      var before, told := RunLog(l, init, keep), TellAll(l, t, init, keep);
      NothingKept(keep);
      match op
      case AppendRecord(_, _, _) => AppendKeepsStep(before, told, op, keep);
      case ClearAll(_) =>
      case Restart => LoadReads(before.disk, keep);
    }
  }

  lemma {:induction false} RunKeepsCount(l: Log, ops: seq<Op>, keep: nat)
    requires Counted(l) && AllSucceed(ops)
    ensures Counted(RunLog(l, ops, keep))
    ensures ops != [] && ops[|ops| - 1].AppendRecord? ==>
              |Content(RunLog(l, ops, keep).disk)| <= Max(COMPACT_THRESHOLD - 1, keep)
  {
    hide Last, Records, Appended;
    if ops != [] {
      var init, op := ops[..|ops| - 1], ops[|ops| - 1];
      assert forall i :: 0 <= i < |init| ==> init[i] == ops[i];
      RunKeepsCount(l, init, keep);
      assert Succeeds(op);
      if op.AppendRecord? { AppendKeepsCount(RunLog(l, init, keep), op.rec, keep); }
    }
  }

  /** When every write succeeds, process and file are told the same: the history. */
  lemma {:induction false} SuccessTellsAll(l: Log, start: seq<Record>, ops: seq<Op>, keep: nat)
    requires AllSucceed(ops)
    ensures TellAll(l, Told(start, start), ops, keep) == Told(History(start, ops), History(start, ops))
  {
    hide Rewrites;
    if ops != [] {
      var init := ops[..|ops| - 1];
      assert forall i :: 0 <= i < |init| ==> init[i] == ops[i];
      SuccessTellsAll(l, start, init, keep);
      assert Succeeds(ops[|ops| - 1]);
    }
  }

  lemma NothingKept(keep: nat)
    ensures Last<Record>([], keep) == [] && Records([]) == []
  {
  }

  /** A new log reads the newest records of the file. */
  lemma LoadReads(disk: Option<seq<Line>>, keep: nat)
    ensures Loaded(Log([], 0, disk), keep).items == Last(Records(Content(disk)), keep)
    ensures Loaded(Log([], 0, disk), keep).disk == disk && Counted(Loaded(Log([], 0, disk), keep))
  {
    hide Last, Records;
    NothingKept(keep);
    assert [] + Records(Content(disk)) == Records(Content(disk));
  }

  /** Whatever is appended and cleared, whichever writes fail, and however often the process
      restarts: memory holds the newest `maxKeep` records the process was told, and a new log reads
      the newest `maxKeep` records the file was told. */
  lemma WhatAFreshLogReads(initial: Option<seq<Line>>, ops: seq<Op>, keep: nat)
    ensures var start, held := Loaded(Log([], 0, initial), keep), Records(Content(initial));
            var end, told := RunLog(start, ops, keep), TellAll(start, Told(held, held), ops, keep);
            && end.items == Last(told.process, keep)
            && Loaded(Log([], 0, end.disk), keep).items == Last(told.file, keep)
  {
    hide Last, Records, RunLog, TellAll;
    var start, held := Loaded(Log([], 0, initial), keep), Records(Content(initial));
    LoadReads(initial, keep);
    RunStaysInStep(start, Told(held, held), ops, keep);
    LoadReads(RunLog(start, ops, keep).disk, keep);
  }

  /** When every write succeeds nothing is lost: memory holds the newest `maxKeep` records since the
      last clear, a new log on the same file reads back the very same ones, and an append leaves at
      most max(511, maxKeep) lines behind. */
  lemma NothingIsLostByRestarts(initial: Option<seq<Line>>, ops: seq<Op>, keep: nat)
    requires AllSucceed(ops)
    ensures var start := Loaded(Log([], 0, initial), keep);
            var end := RunLog(start, ops, keep);
            && end.items == Last(History(Records(Content(initial)), ops), keep)
            && Loaded(Log([], 0, end.disk), keep).items == end.items
            && (ops != [] && ops[|ops| - 1].AppendRecord? ==>
                  |Content(end.disk)| <= Max(511, keep))
  {
    hide Last, Records, RunLog, History, TellAll, AllSucceed;
    var start := Loaded(Log([], 0, initial), keep);
    WhatAFreshLogReads(initial, ops, keep);
    SuccessTellsAll(start, Records(Content(initial)), ops, keep);
    LoadReads(initial, keep);
    RunKeepsCount(start, ops, keep);
  }

  /** When the file is rewritten: the `k`-th append after a load adds its record at the end as long as
      the lines that were read, these appends and one more are fewer than 512, and the first one that
      makes them as many leaves the records in memory alone in the file. */
  lemma RewrittenExactlyWhen(disk: Option<seq<Line>>, rs: seq<Record>, r: Record, keep: nat)
    requires disk.Some? && |disk.value| + 1 + |rs| < 512
    ensures var start := Loaded(Log([], 0, disk), keep);
            var l := AppendedAll(start, rs, keep);
            var next := Appended(l, r, keep, true, true);
            && l.disk == Some(disk.value + LinesOf(rs))
            && next.items == Last(l.items + [r], keep)
            && next.disk == Some(if |disk.value| + 1 + |rs| + 1 < 512 then disk.value + LinesOf(rs) + [Readable(r)]
                                 else LinesOf(next.items))
  {
    hide Last, Records, LinesOf;
    AppendedBelow(Loaded(Log([], 0, disk), keep), rs, keep);
  }

  function AppendedAll(l: Log, rs: seq<Record>, keep: nat): Log {
    if rs == [] then l else Appended(AppendedAll(l, rs[..|rs| - 1], keep), rs[|rs| - 1], keep, true, true)
  }

  lemma {:induction false} AppendedBelow(l: Log, rs: seq<Record>, keep: nat)
    requires l.disk.Some? && l.appendedLines + |rs| < 512
    ensures var m := AppendedAll(l, rs, keep);
            m.disk == Some(l.disk.value + LinesOf(rs)) && m.appendedLines == l.appendedLines + |rs|
  {
    hide Last;
    if rs == [] {
      assert l.disk.value + LinesOf(rs) == l.disk.value;
    } else {
      var init, r := rs[..|rs| - 1], rs[|rs| - 1];
      AppendedBelow(l, init, keep);
      assert rs == init + [r];
      assert l.disk.value + LinesOf(init) + [Readable(r)] == l.disk.value + LinesOf(rs);
    }
  }

  /** Loading twice is not the same as loading once, although it is called idempotent: only when
      the file is missing, holds no record, or holds at least `maxKeep`. */
  lemma LoadTwiceExactlyWhen(disk: Option<seq<Line>>, keep: nat)
    ensures var once := Loaded(Log([], 0, disk), keep);
            Loaded(once, keep) == once <==> |Records(Content(disk))| == 0 || |Records(Content(disk))| >= keep
  {
    hide Last, Records;
    NoRecords();
    if disk.Some? {
      var rs := Records(disk.value);
      assert [] + rs == rs && Last(rs, keep) + [] == Last(rs, keep);
      LastOfBoth(Last(rs, keep), rs, keep);
      LastOfBoth([], rs, keep);
    }
  }

  lemma NoRecords()
    ensures Records([]) == []
  {}

  lemma LastOfBoth(s: seq<Record>, t: seq<Record>, n: nat)
    ensures |t| >= n ==> Last(s + t, n) == Last(t, n)
    ensures |Last(s + t, n)| == if |s| + |t| <= n then |s| + |t| else n
    ensures |s| <= n ==> Last(s, n) == s
  {
  }

  // --------------------------------------------------------------------------- what is in flight

  /** A worker at work on an entity; no entity and an empty one are the same. */
  datatype Pair = Pair(workerId: int, entity: string)

  function PairOf(r: Record): Pair {
    Pair(r.workerId, if r.entityKey.Some? then r.entityKey.value else "")
  }

  predicate Opens(r: Record) { r.kind == Declared || r.kind == Fact }

  predicate Closes(r: Record) { r.kind == Done || r.kind == Conflict }

  predicate OpensPair(rs: seq<Record>, i: int, p: Pair) { 0 <= i < |rs| && Opens(rs[i]) && PairOf(rs[i]) == p }

  predicate ClosesPair(rs: seq<Record>, i: int, p: Pair) { 0 <= i < |rs| && Closes(rs[i]) && PairOf(rs[i]) == p }

  /** What the code reports: the latest opening of a pair that is closed nowhere in the window. */
  ghost predicate Reported(rs: seq<Record>, i: int) {
    && 0 <= i < |rs| && Opens(rs[i])
    && (forall j :: j > i ==> !OpensPair(rs, j, PairOf(rs[i])))
    && (forall j :: !ClosesPair(rs, j, PairOf(rs[i])))
  }

  /** What its comment says: the latest opening of a pair, with nothing behind it that closes it,
      among the first `n` records. */
  ghost predicate StillOpen(rs: seq<Record>, n: nat, i: int) {
    && 0 <= i < n <= |rs| && Opens(rs[i])
    && (forall j :: i < j < n ==> !OpensPair(rs, j, PairOf(rs[i])) && !ClosesPair(rs, j, PairOf(rs[i])))
  }

  /** `p` is opened before `q` is. */
  ghost predicate OpenedFirst(rs: seq<Record>, p: Pair, q: Pair) {
    exists i :: OpensPair(rs, i, p) && forall j :: j <= i ==> !OpensPair(rs, j, q)
  }

  ghost predicate ClosedBefore(rs: seq<Record>, n: nat, p: Pair) { exists j :: j < n && ClosesPair(rs, j, p) }

  // A map that remembers the order of insertion is its keys in order, and its values by key.

  function Without(order: seq<Pair>, p: Pair): seq<Pair> {
    if order == [] then []
    else Without(order[..|order| - 1], p) + (if order[|order| - 1] == p then [] else [order[|order| - 1]])
  }

  /** Each key is there once, and of two keys never closed the one opened first comes first. */
  ghost predicate Ordered(rs: seq<Record>, order: seq<Pair>, closed: set<Pair>) {
    forall a, b :: 0 <= a < b < |order| ==>
      order[a] != order[b]
      && (order[a] !in closed && order[b] !in closed ==> OpenedFirst(rs, order[a], order[b]))
  }

  ghost predicate Tracks(rs: seq<Record>, n: nat, order: seq<Pair>, open: map<Pair, int>, closed: set<Pair>) {
    && n <= |rs|
    && (forall p :: p in order <==> p in open)
    && (forall p :: p in open ==> StillOpen(rs, n, open[p]) && PairOf(rs[open[p]]) == p)
    && (forall i :: StillOpen(rs, n, i) ==> PairOf(rs[i]) in open && open[PairOf(rs[i])] == i)
    && (forall p :: p in closed <==> ClosedBefore(rs, n, p))
    && Ordered(rs, order, closed)
  }

  lemma {:induction false} WithoutMembers(order: seq<Pair>, p: Pair)
    ensures forall q :: q in Without(order, p) <==> q in order && q != p
  {
    if order != [] {
      WithoutMembers(order[..|order| - 1], p);
      assert order == order[..|order| - 1] + [order[|order| - 1]];
    }
  }

  lemma {:induction false} WithoutOrdered(rs: seq<Record>, order: seq<Pair>, closed: set<Pair>, p: Pair)
    requires Ordered(rs, order, closed)
    ensures Ordered(rs, Without(order, p), closed)
  {
    hide OpenedFirst;
    if order != [] {
      var init, q := order[..|order| - 1], order[|order| - 1];
      WithoutOrdered(rs, init, closed, p);
      WithoutMembers(init, p);
      var w := Without(init, p);
      forall a | 0 <= a < |w|
        ensures w[a] != q && (w[a] !in closed && q !in closed ==> OpenedFirst(rs, w[a], q))
      {
        assert w[a] in w && w[a] in init;
        var k :| 0 <= k < |init| && init[k] == w[a];
        assert order[k] == w[a] && order[|order| - 1] == q;
      }
    }
  }

  /** Nothing about a pair changes with a record of another pair or of no consequence. */
  lemma StillOpenNext(rs: seq<Record>, n: nat, i: int)
    requires n < |rs| && 0 <= i < n
    ensures StillOpen(rs, n + 1, i)
            <==> StillOpen(rs, n, i) && (PairOf(rs[n]) == PairOf(rs[i]) ==> !Opens(rs[n]) && !Closes(rs[n]))
  {
    var p := PairOf(rs[i]);
    assert OpensPair(rs, n, p) || ClosesPair(rs, n, p) <==> PairOf(rs[n]) == p && (Opens(rs[n]) || Closes(rs[n]));
  }

  lemma ClosedNext(rs: seq<Record>, n: nat, p: Pair)
    requires n < |rs|
    ensures ClosedBefore(rs, n + 1, p) <==> ClosedBefore(rs, n, p) || ClosesPair(rs, n, p)
  {
  }

  lemma OpenStep(rs: seq<Record>, n: nat, order: seq<Pair>, open: map<Pair, int>, closed: set<Pair>)
    requires Tracks(rs, n, order, open, closed) && n < |rs| && Opens(rs[n])
    ensures var p := PairOf(rs[n]);
            Tracks(rs, n + 1, if p in open then order else order + [p], open[p := n], closed)
  {
    hide Ordered, ClosedBefore;
    var p := PairOf(rs[n]);
    forall i | 0 <= i < n { StillOpenNext(rs, n, i); }
    forall q { ClosedNext(rs, n, q); }
    if p !in open { NewlyOpened(rs, n, order, open, closed); }
  }

  lemma NewlyOpened(rs: seq<Record>, n: nat, order: seq<Pair>, open: map<Pair, int>, closed: set<Pair>)
    requires Tracks(rs, n, order, open, closed) && n < |rs| && Opens(rs[n]) && PairOf(rs[n]) !in open
    ensures Ordered(rs, order + [PairOf(rs[n])], closed)
  {
    var p := PairOf(rs[n]);
    forall a | 0 <= a < |order|
      ensures order[a] != p && (order[a] !in closed && p !in closed ==> OpenedFirst(rs, order[a], p))
    {
      assert order[a] in order;
      if p !in closed { NeverOpened(rs, n, open, p); }
      assert OpensPair(rs, open[order[a]], order[a]);
    }
  }

  /** A pair that is neither open nor closed has not been seen. */
  lemma NeverOpened(rs: seq<Record>, n: nat, open: map<Pair, int>, p: Pair)
    requires n <= |rs| && p !in open && !ClosedBefore(rs, n, p)
    requires forall i :: StillOpen(rs, n, i) ==> PairOf(rs[i]) in open
    ensures forall j :: j < n ==> !OpensPair(rs, j, p)
  {
    forall j | j < n
      ensures !OpensPair(rs, j, p)
    {
      LatestOpening(rs, n, j, p);
    }
  }

  lemma {:induction false} LatestOpening(rs: seq<Record>, n: nat, j: int, p: Pair)
    requires j < n <= |rs| && !ClosedBefore(rs, n, p)
    requires forall i :: StillOpen(rs, n, i) ==> PairOf(rs[i]) != p
    ensures !OpensPair(rs, j, p)
    decreases n - j
  {
    if OpensPair(rs, j, p) {
      forall k | j < k < n
        ensures !OpensPair(rs, k, p)
      {
        LatestOpening(rs, n, k, p);
      }
      assert StillOpen(rs, n, j);
    }
  }

  lemma CloseStep(rs: seq<Record>, n: nat, order: seq<Pair>, open: map<Pair, int>, closed: set<Pair>)
    requires Tracks(rs, n, order, open, closed) && n < |rs| && Closes(rs[n])
    ensures var p := PairOf(rs[n]); Tracks(rs, n + 1, Without(order, p), open - {p}, closed + {p})
  {
    hide ClosedBefore;
    var p := PairOf(rs[n]);
    forall i | 0 <= i < n { StillOpenNext(rs, n, i); }
    forall q { ClosedNext(rs, n, q); }
    assert Ordered(rs, order, closed + {p});
    WithoutMembers(order, p);
    WithoutOrdered(rs, order, closed + {p}, p);
  }

  lemma OtherStep(rs: seq<Record>, n: nat, order: seq<Pair>, open: map<Pair, int>, closed: set<Pair>)
    requires Tracks(rs, n, order, open, closed) && n < |rs| && !Opens(rs[n]) && !Closes(rs[n])
    ensures Tracks(rs, n + 1, order, open, closed)
  {
  }

  /** `at` lists the reported records, each once, in the order in which their pairs were first
      opened. */
  ghost predicate ListsReported(rs: seq<Record>, at: seq<int>) {
    && (forall k :: 0 <= k < |at| ==> Reported(rs, at[k]))
    && (forall i :: Reported(rs, i) ==> i in at)
    && (forall a, b :: 0 <= a < b < |at| ==> OpenedFirst(rs, PairOf(rs[at[a]]), PairOf(rs[at[b]])) && at[a] != at[b])
  }

  ghost predicate AreAt(rs: seq<Record>, at: seq<int>, r: seq<Record>) {
    |r| == |at| && forall k :: 0 <= k < |at| ==> 0 <= at[k] < |rs| && r[k] == rs[at[k]]
  }

  /** Openings by pair, and the pairs that were closed; at the end those that are not closed. */
  method InFlight(items: seq<Record>) returns (r: seq<Record>)
    ensures exists at :: ListsReported(items, at) && AreAt(items, at, r)
  {
    hide *;
    var order, open, closed := [], map[], {};
    ghost var where: map<Pair, int> := map[];
    NothingTracked(items);
    for n := 0 to |items|
      invariant Tracks(items, n, order, where, closed)
      invariant open.Keys == where.Keys
      invariant forall p :: p in open ==> 0 <= where[p] < n && open[p] == items[where[p]]
    {
      var rec := items[n];
      var p := PairOf(rec);
      if rec.kind == Declared || rec.kind == Fact {
        KindIs(rec);
        OpenStep(items, n, order, where, closed);
        if p !in open { order := order + [p]; }
        open, where := open[p := rec], where[p := n];
      } else if rec.kind == Done || rec.kind == Conflict {
        KindIs(rec);
        CloseStep(items, n, order, where, closed);
        closed, order, open, where := closed + {p}, Without(order, p), open - {p}, where - {p};
      } else {
        KindIs(rec);
        OtherStep(items, n, order, where, closed);
      }
    }
    r := [];
    ghost var at: seq<int> := [];
    ghost var from: seq<int> := [];
    for k := 0 to |order|
      invariant |r| == |at| == |from|
      invariant forall m :: 0 <= m < |r| ==> 0 <= from[m] < k && order[from[m]] in where && order[from[m]] !in closed
                                             && at[m] == where[order[from[m]]]
                                             && 0 <= at[m] < |items| && r[m] == items[at[m]]
      invariant forall m, l :: 0 <= m < l < |r| ==> from[m] < from[l]
      invariant forall i :: 0 <= i < k && order[i] !in closed ==> order[i] in where && where[order[i]] in at
    {
      OrderIsTracked(items, order, where, closed, k);
      if order[k] !in closed {
        r := r + [open[order[k]]];
        at := at + [where[order[k]]];
        from := from + [k];
      }
    }
    FilteredList(items, order, where, closed, at, from);
    AtIs(items, at, r);
  }

  lemma AtIs(rs: seq<Record>, at: seq<int>, r: seq<Record>)
    requires |r| == |at| && forall k :: 0 <= k < |at| ==> 0 <= at[k] < |rs| && r[k] == rs[at[k]]
    ensures AreAt(rs, at, r)
  {
  }

  lemma KindIs(r: Record)
    ensures Opens(r) <==> r.kind == Declared || r.kind == Fact
    ensures Closes(r) <==> r.kind == Done || r.kind == Conflict
  {
  }

  lemma NothingTracked(rs: seq<Record>)
    ensures Tracks(rs, 0, [], map[], {})
  {
  }

  lemma OrderIsTracked(rs: seq<Record>, order: seq<Pair>, where: map<Pair, int>, closed: set<Pair>, k: nat)
    requires Tracks(rs, |rs|, order, where, closed) && k < |order|
    ensures order[k] in where
  {
  }

  lemma FilteredList(rs: seq<Record>, order: seq<Pair>, where: map<Pair, int>, closed: set<Pair>, at: seq<int>,
                     from: seq<int>)
    requires Tracks(rs, |rs|, order, where, closed) && |at| == |from|
    requires forall m :: 0 <= m < |at| ==> 0 <= from[m] < |order| && order[from[m]] in where
                                           && order[from[m]] !in closed && at[m] == where[order[from[m]]]
    requires forall m, l :: 0 <= m < l < |at| ==> from[m] < from[l]
    requires forall i :: 0 <= i < |order| && order[i] !in closed ==> order[i] in where && where[order[i]] in at
    ensures ListsReported(rs, at)
  {
  }

  /** Two records of one worker about one entity; no entity and an empty one are the same. */
  predicate OfOnePair(r: Record, q: Record) {
    r.workerId == q.workerId
    && (r.entityKey == q.entityKey || (r.entityKey in {None, Some("")} && q.entityKey in {None, Some("")}))
  }

  lemma PairsAre(r: Record, q: Record)
    ensures PairOf(r) == PairOf(q) <==> OfOnePair(r, q)
  {
  }

  /** What is reported, by the records alone: a declaration or a fact behind which its worker says
      neither again about the same entity, and about which it nowhere says that it is done or in
      conflict. */
  lemma ReportedExactlyWhen(rs: seq<Record>, i: int)
    requires 0 <= i < |rs|
    ensures Reported(rs, i)
            <==> (rs[i].kind == Declared || rs[i].kind == Fact)
                 && forall j :: 0 <= j < |rs| && OfOnePair(rs[j], rs[i]) ==>
                      && rs[j].kind != Done && rs[j].kind != Conflict
                      && (j > i ==> rs[j].kind != Declared && rs[j].kind != Fact)
  {
    hide PairOf, OfOnePair;
    forall j | 0 <= j < |rs|
      ensures PairOf(rs[j]) == PairOf(rs[i]) <==> OfOnePair(rs[j], rs[i])
    {
      PairsAre(rs[j], rs[i]);
    }
    if Reported(rs, i) {
      forall j | 0 <= j < |rs| && OfOnePair(rs[j], rs[i])
        ensures rs[j].kind != Done && rs[j].kind != Conflict
        ensures j > i ==> rs[j].kind != Declared && rs[j].kind != Fact
      {
        assert !ClosesPair(rs, j, PairOf(rs[i])) && (j > i ==> !OpensPair(rs, j, PairOf(rs[i])));
      }
    }
  }

  /** Of two reported records the one whose pair was opened first comes first. */
  lemma ReportedInOrder(rs: seq<Record>, at: seq<int>, a: int, b: int)
    requires ListsReported(rs, at) && 0 <= a < b < |at|
    ensures 0 <= at[a] < |rs| && 0 <= at[b] < |rs|
    ensures exists i :: 0 <= i < |rs| && OfOnePair(rs[i], rs[at[a]]) && (rs[i].kind == Declared || rs[i].kind == Fact)
                        && forall j :: 0 <= j <= i && OfOnePair(rs[j], rs[at[b]]) ==>
                             rs[j].kind != Declared && rs[j].kind != Fact
  {
    hide PairOf, OfOnePair;
    assert Reported(rs, at[a]) && Reported(rs, at[b]);
    var p, q := PairOf(rs[at[a]]), PairOf(rs[at[b]]);
    assert OpenedFirst(rs, p, q);
    var i :| OpensPair(rs, i, p) && forall j :: j <= i ==> !OpensPair(rs, j, q);
    PairsAre(rs[i], rs[at[a]]);
    forall j | 0 <= j <= i && OfOnePair(rs[j], rs[at[b]])
      ensures rs[j].kind != Declared && rs[j].kind != Fact
    {
      PairsAre(rs[j], rs[at[b]]);
      assert !OpensPair(rs, j, q);
    }
  }

  /** A record is missing from the report, although its pair is open by the word of the comment,
      exactly when the pair was closed before it was opened again. */
  lemma ReopenedIsNotReported(rs: seq<Record>, i: int)
    ensures StillOpen(rs, |rs|, i) && !Reported(rs, i)
            <==> StillOpen(rs, |rs|, i) && exists j :: j < i && ClosesPair(rs, j, PairOf(rs[i]))
    ensures Reported(rs, i) ==> StillOpen(rs, |rs|, i)
  {
  }

  /** Such as: declared, done, declared again. */
  lemma DeclaredAgain(r: Record)
    ensures var p := r.(kind := Declared);
            var rs := [p, p.(kind := Done), p];
            StillOpen(rs, |rs|, 2) && !Reported(rs, 2)
  {
    var p := r.(kind := Declared);
    var rs := [p, p.(kind := Done), p];
    assert ClosesPair(rs, 1, PairOf(rs[2]));
  }
}
