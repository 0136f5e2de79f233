/** No second attempt at an item starts while an earlier one may still be running. The backstop
    looks up the turn in flight by worker id, and a pool that is launched reuses the ids from the
    first on, so this holds exactly as long as no launch reuses the id of a turn in focus. */
module SingleFlight {
  import opened Mailbox
  import opened Prelude
  import opened WorkerPool

  /** Every turn in focus has an id the new pool does not use. */
  ghost predicate SparesBusyIds(s: State, e: Event) {
    e.Relaunch? ==> forall w :: InFocus(s, w) ==> w.id >= e.count
  }

  ghost predicate Careful(s: State, es: seq<Event>)
    requires Possible(s, es)
    decreases es
  {
    es == [] || (SparesBusyIds(s, es[0]) && Careful(Next(s, es[0]), es[1..]))
  }

  /** Of two attempts at one item the earlier is over. */
  ghost predicate NoOverlap(s: State) {
    forall a, b :: 0 <= a < b < |s.attempts| && s.attempts[a].id == s.attempts[b].id ==> s.attempts[a].settled
  }

  /** No other turn in focus, and no other worker of the current generation, has this id. */
  ghost predicate Alone(s: State, w: Worker) {
    forall v :: v in s.workers && v.id == w.id && (v.gen == s.gen || InFocus(s, v)) ==> v == w
  }

  /** A turn in focus is the one registered under its worker's id. */
  ghost predicate Registered(s: State, w: Worker)
    requires InFocus(s, w)
  {
    var pc := s.workers[w];
    && Alone(s, w)
    && pc.attempt < |s.attempts|
    && s.attempts[pc.attempt].id == pc.item.id
    && InFlightOf(s, w) == Some(pc.attempt)
    && (pc.phase.Cancelling? ==> pc.phase.awaited == Some(pc.attempt))
  }

  /** An attempt that is not over is in focus, or its item was discarded for good. */
  predicate Accounted(s: State, a: nat)
    requires a < |s.attempts|
  {
    var x := s.attempts[a];
    x.settled || x.id in s.dropped
    || (InFocus(s, x.starter) && s.workers[x.starter].attempt == a && s.workers[x.starter].item.id == x.id)
  }

  ghost predicate AllRegistered(s: State) { forall w :: InFocus(s, w) ==> Registered(s, w) }

  ghost predicate AllAccounted(s: State) { forall a :: 0 <= a < |s.attempts| ==> Accounted(s, a) }

  ghost predicate NoneFromTheFuture(s: State) { forall w :: w in s.workers ==> w.gen <= s.gen }

  ghost predicate Flight(s: State) {
    AllRegistered(s) && AllAccounted(s) && NoOverlap(s) && NoneFromTheFuture(s)
  }

  /** The step changes nothing a turn in flight depends on. */
  ghost predicate SameFlights(s: State, t: State) {
    && t.attempts == s.attempts && t.inFlight == s.inFlight && t.dropped == s.dropped
    && (forall w :: InFocus(t, w) <==> InFocus(s, w))
    && (forall w :: InFocus(s, w) ==> t.workers[w] == s.workers[w] && (Alone(s, w) ==> Alone(t, w)))
    && (NoneFromTheFuture(s) ==> NoneFromTheFuture(t))
  }

  lemma SameFlightsKeep(s: State, t: State)
    requires Flight(s) && SameFlights(s, t)
    ensures Flight(t)
  {
    forall w | InFocus(t, w)
      ensures Registered(t, w)
    {
      assert InFocus(s, w) && Registered(s, w);
    }
    forall a | 0 <= a < |t.attempts|
      ensures Accounted(t, a)
    {
      assert Accounted(s, a);
      assert InFocus(t, s.attempts[a].starter) <==> InFocus(s, s.attempts[a].starter);
    }
  }

  lemma NeutralFlights(s: State, e: Event)
    requires Enabled(s, e) && !e.Relaunch?
    requires !e.LockAndStart? && !e.Settle? && !e.ReplyArrives? && !e.Timeout? && !e.GraceSettled? && !e.GraceExpired?
    ensures SameFlights(s, Next(s, e))
  {
    hide CanLock, LockKeysFor, InsertSorted, Runnable, Unlocked, Settled;
    var t := Next(s, e);
    assert forall w :: w in t.workers <==> w in s.workers;
    assert forall w :: InFocus(t, w) <==> InFocus(s, w);
  }

  /** The new workers have ids that no turn in focus has. */
  lemma LaunchKeeps(s: State, count: nat)
    requires Enabled(s, Relaunch(count)) && NoneFromTheFuture(s) && SparesBusyIds(s, Relaunch(count))
    ensures SameFlights(s, Next(s, Relaunch(count)))
  {
    var t := Next(s, Relaunch(count));
    assert forall w :: w in t.workers ==> w in s.workers || (w.gen == s.gen + 1 && w.id < count);
    assert forall w :: InFocus(t, w) <==> InFocus(s, w);
  }

  /** An item in a worker's hands has no attempt that is not over. */
  lemma HeldItemHasSettled(s: State, place: map<ItemId, Place>, w: Worker, a: nat)
    requires Flight(s) && Located(s, place) && w in s.workers && s.workers[w].Holding?
    requires a < |s.attempts| && s.attempts[a].id == s.workers[w].item.id
    ensures s.attempts[a].settled
  {
    hide DistinctIds, Has;
    var id := s.workers[w].item.id;
    assert Accounted(s, a);
    assert Holds(s, w, id);
    var v := s.attempts[a].starter;
    assert Holds(s, v, id) ==> v == w;
  }

  lemma StartKeeps(s: State, place: map<ItemId, Place>, w: Worker, session: Option<LockKey>)
    requires Flight(s) && Located(s, place) && Enabled(s, LockAndStart(w, session))
    ensures Flight(Next(s, LockAndStart(w, session)))
  {
    hide LockKeysFor, CanLock, Locked, Located;
    var t := Next(s, LockAndStart(w, session));
    forall v | InFocus(s, v)
      ensures Registered(s, v) && v.id != w.id
    {
      assert Registered(s, v);
    }
    assert forall v :: InFocus(t, v) <==> v == w || InFocus(s, v);
    assert forall v :: v in t.workers <==> v in s.workers;
    forall v | InFocus(t, v)
      ensures Registered(t, v)
    {
      if v != w { assert Alone(s, v) && Alone(t, v); }
    }
    forall a | 0 <= a < |t.attempts|
      ensures Accounted(t, a)
    {
      if a < |s.attempts| { assert Accounted(s, a); }
    }
    forall a, b | 0 <= a < b < |t.attempts| && t.attempts[a].id == t.attempts[b].id
      ensures t.attempts[a].settled
    {
      if b == |s.attempts| { HeldItemHasSettled(s, place, w, a); }
    }
  }

  lemma SettleKeeps(s: State, a: nat)
    requires Flight(s) && a < |s.attempts|
    ensures Flight(Next(s, Event.Settle(a)))
  {
    var t := Next(s, Event.Settle(a));
    forall v | InFocus(t, v)
      ensures Registered(t, v)
    {
      assert InFocus(s, v) && Registered(s, v);
    }
    forall b | 0 <= b < |t.attempts|
      ensures Accounted(t, b)
    {
      assert Accounted(s, b);
    }
  }

  lemma DisposeKeeps(s: State, w: Worker, verdict: Verdict)
    requires Flight(s) && InFocus(s, w)
    requires s.attempts[s.workers[w].attempt].settled || verdict.Drop?
    ensures Flight(Disposed(s, w, verdict))
  {
    hide InsertSorted;
    var t := Disposed(s, w, verdict);
    assert Registered(s, w);
    forall v | InFocus(t, v)
      ensures Registered(t, v)
    {
      assert InFocus(s, v) && Registered(s, v);
      assert v.id != w.id;
    }
    forall b | 0 <= b < |t.attempts|
      ensures Accounted(t, b)
    {
      assert Accounted(s, b);
    }
  }

  lemma TimeoutKeeps(s: State, w: Worker)
    requires Flight(s) && Enabled(s, Timeout(w))
    ensures Flight(Next(s, Timeout(w)))
  {
    var t := Next(s, Timeout(w));
    assert Registered(s, w);
    forall v | InFocus(t, v)
      ensures Registered(t, v)
    {
      assert InFocus(s, v) && Registered(s, v);
    }
    forall b | 0 <= b < |t.attempts|
      ensures Accounted(t, b)
    {
      assert Accounted(s, b);
    }
  }

  lemma FlightStep(s: State, place: map<ItemId, Place>, e: Event)
    requires Flight(s) && Located(s, place) && Enabled(s, e) && SparesBusyIds(s, e)
    ensures Flight(Next(s, e))
  {
    hide Flight, Located, SameFlights, Disposed, SparesBusyIds, NoneFromTheFuture, CanLock, Locked, Unlocked,
         InsertSorted, LockKeysFor, Launched, Registered;
    match e
    case LockAndStart(w, session) => StartKeeps(s, place, w, session);
    case Settle(a) => SettleKeeps(s, a);
    case Timeout(w) => TimeoutKeeps(s, w);
    case ReplyArrives(w, verdict) =>
      FlightOf(s, w);
      DisposeKeeps(s, w, verdict);
    case GraceSettled(w) =>
      FlightOf(s, w);
      DisposeKeeps(s, w, Requeue);
    case GraceExpired(w) =>
      FlightOf(s, w);
      DisposeKeeps(s, w, Drop);
    case Relaunch(count) =>
      NotFromTheFuture(s);
      LaunchKeeps(s, count);
      SameFlightsKeep(s, Next(s, e));
    case _ =>
      NeutralFlights(s, e);
      SameFlightsKeep(s, Next(s, e));
  }

  lemma FlightOf(s: State, w: Worker)
    requires Flight(s) && InFocus(s, w)
    ensures var pc := s.workers[w];
            pc.attempt < |s.attempts| && (pc.phase.Cancelling? ==> pc.phase.awaited == Some(pc.attempt))
  {
  }

  lemma NotFromTheFuture(s: State)
    requires Flight(s)
    ensures NoneFromTheFuture(s)
  {
  }

  lemma {:induction false} RunFlight(s: State, place: map<ItemId, Place>, es: seq<Event>)
    requires Flight(s) && Located(s, place) && Possible(s, es) && Careful(s, es)
    ensures Flight(Run(s, es))
    decreases es
  {
    hide Flight, Located, Enabled, Next, SparesBusyIds;
    if es != [] {
      LocatedStep(s, place, es[0]);
      FlightStep(s, place, es[0]);
      RunFlight(Next(s, es[0]), Moved(s, place, es[0]), es[1..]);
    }
  }

  lemma CarefulRunIsFlight(es: seq<Event>)
    requires Possible(Init(), es) && Careful(Init(), es)
    ensures Flight(Run(Init(), es))
  {
    hide Possible, Run, Careful, Located, Scoped;
    InitInv();
    RunFlight(Init(), map[], es);
  }

  /** No item is ever attempted twice at once, as long as no launch reuses the id of a turn in
      focus: a turn that outlives its grace period costs the item its place, not a second turn. */
  lemma AttemptsNeverOverlap(es: seq<Event>)
    requires Possible(Init(), es) && Careful(Init(), es)
    ensures NoOverlap(Run(Init(), es))
  {
    hide Possible, Run, Careful, Init;
    CarefulRunIsFlight(es);
  }

  // ----------------------------------------------------- a launch over the id of a turn in focus

  /** Two turns at one item can come to run at once, although no later launch reuses a busy id. */
  ghost predicate CanOverlap(s: State) {
    exists es :: Possible(s, es) && Careful(s, es) && !NoOverlap(Run(s, es))
  }

  lemma Before(s: State, e: Event)
    requires Enabled(s, e) && SparesBusyIds(s, e) && CanOverlap(Next(s, e))
    ensures CanOverlap(s)
  {
    hide Enabled, Next, NoOverlap, SparesBusyIds;
    var es :| Possible(Next(s, e), es) && Careful(Next(s, e), es) && !NoOverlap(Run(Next(s, e), es));
    var all := [e] + es;
    assert all[0] == e && all[1..] == es;
    assert Possible(s, all) && Careful(s, all) && Run(s, all) == Run(Next(s, e), es);
  }

  lemma OverlapNow(s: State, a: nat, b: nat)
    requires a < b < |s.attempts| && s.attempts[a].id == s.attempts[b].id && !s.attempts[a].settled
    ensures CanOverlap(s)
  {
    assert Possible(s, []) && Careful(s, []) && Run(s, []) == s && !NoOverlap(s);
  }

  /** `y` is ahead of the queue, and its one key is free. */
  predicate IsNext(s: State, y: Item, k: LockKey) {
    s.queue != [] && s.queue[0] == y && y.keys == [k] && k !in s.locks
  }

  /** `y` goes before everything that is queued. */
  predicate Foremost(q: seq<Item>, y: Item) { forall z :: z in q ==> y.priority <= z.priority }

  lemma GoesFirst(q: seq<Item>, y: Item)
    requires Foremost(q, y)
    ensures InsertSorted(q, y) == [y] + q
  {
    assert q != [] ==> q[0] in q;
  }

  /** What it takes for the young worker to take `y`, and to work on it. */
  predicate MayStart(s: State, v: Worker, y: Item, k: LockKey) {
    Is(s, v, Waiting) && v.gen == s.gen && IsNext(s, y, k)
  }

  predicate WorksOn(s: State, v: Worker, y: Item, k: LockKey, n: nat) {
    && Is(s, v, Focused(y, [k], None, n, Racing)) && v.gen == s.gen
    && k in s.locks && s.locks[k] == y.id
    && n < |s.attempts| && s.attempts[n] == Attempt(y.id, v, false)
  }

  function Taken(s: State, v: Worker, y: Item, k: LockKey): State {
    var n := |s.attempts|;
    s.(queue := if s.queue == [] then [] else s.queue[1..], locks := s.locks[k := y.id],
       workers := s.workers[v := Focused(y, [k], None, n, Racing)], inFlight := s.inFlight[v.id := n],
       attempts := s.attempts + [Attempt(y.id, v, false)])
  }

  lemma StartSteps(s: State, v: Worker, y: Item, k: LockKey)
    requires MayStart(s, v, y, k)
    ensures Enabled(s, Dequeue(v)) && Enabled(Next(s, Dequeue(v)), LockAndStart(v, None))
    ensures Next(Next(s, Dequeue(v)), LockAndStart(v, None)) == Taken(s, v, y, k)
  {
    assert FirstRunnable(s.queue, s.locks) == 0;
    var t := Next(s, Dequeue(v));
    assert t.queue == s.queue[1..];
    OneKeyLocks(s.locks, y, k);
    assert s.workers[v := Holding(y)][v := Focused(y, [k], None, |s.attempts|, Racing)]
           == s.workers[v := Focused(y, [k], None, |s.attempts|, Racing)];
  }

  lemma Starts(s: State, v: Worker, y: Item, k: LockKey)
    requires MayStart(s, v, y, k) && CanOverlap(Taken(s, v, y, k))
    ensures CanOverlap(s)
  {
    hide CanOverlap, Next, Enabled, MayStart, Taken;
    StartSteps(s, v, y, k);
    Before(Next(s, Dequeue(v)), LockAndStart(v, None));
    Before(s, Dequeue(v));
  }

  lemma OneKeyLocks(locks: map<LockKey, ItemId>, y: Item, k: LockKey)
    requires y.keys == [k] && k !in locks
    ensures LockKeysFor(y, None) == [k] && CanLock(locks, [k]) && Locked(locks, [k], y.id) == locks[k := y.id]
  {
  }

  /** The same item started again while the attempt before is not over. */
  lemma StartedAgain(s: State, v: Worker, y: Item, k: LockKey, n: nat)
    requires MayStart(s, v, y, k) && n < |s.attempts| && s.attempts[n].id == y.id && !s.attempts[n].settled
    ensures CanOverlap(s)
  {
    hide CanOverlap;
    OverlapNow(Taken(s, v, y, k), n, |s.attempts|);
    Starts(s, v, y, k);
  }

  /** The young turn times out, finds nothing in flight under its id, and its item goes back. */
  lemma YoungFindsNothing(s: State, v: Worker, y: Item, k: LockKey, n: nat)
    requires WorksOn(s, v, y, k, n) && y.keys == [k] && v.id !in s.inFlight && Foremost(s.queue, y)
    ensures CanOverlap(s)
  {
    hide CanOverlap, InsertSorted, Unlocked;
    var again := y.(retryCount := y.retryCount + 1);
    var s1 := Next(s, Timeout(v));
    var s2 := Next(s1, GraceSettled(v));
    var s3 := Next(s2, Unlock(v));
    GoesFirst(s.queue, again);
    OneKeyUnlocks(s.locks, k, y.id);
    StartedAgain(s3, v, again, k, n);
    Before(s2, Unlock(v));
    Before(s1, GraceSettled(v));
    Before(s, Timeout(v));
  }

  lemma OneKeyUnlocks(locks: map<LockKey, ItemId>, k: LockKey, id: ItemId)
    requires k in locks && locks[k] == id
    ensures k !in Unlocked(locks, [k], id)
  {
  }

  /** Whatever becomes of the old turn, it deletes what is registered under the id it shares. */
  lemma OldTurnDeregisters(s: State, w: Worker, v: Worker, y: Item, k: LockKey, n: nat)
    requires WorksOn(s, v, y, k, n) && y.keys == [k] && Foremost(s.queue, y)
    requires InFocus(s, w) && w != v && w.id == v.id && s.workers[w].phase.Cancelling?
    requires y.priority <= s.workers[w].item.priority
    ensures CanOverlap(s)
  {
    hide CanOverlap, InsertSorted;
    var e := if Settled(s, s.workers[w].phase.awaited) then GraceSettled(w) else GraceExpired(w);
    var t := Next(s, e);
    InsertMembers(s.queue, s.workers[w].item.(retryCount := s.workers[w].item.retryCount + 1));
    YoungFindsNothing(t, v, y, k, n);
    Before(s, e);
  }

  lemma BothInFocus(s: State, w: Worker, v: Worker, y: Item, k: LockKey, n: nat)
    requires WorksOn(s, v, y, k, n) && y.keys == [k] && Foremost(s.queue, y)
    requires InFocus(s, w) && w != v && w.id == v.id && y.priority <= s.workers[w].item.priority
    ensures CanOverlap(s)
  {
    hide CanOverlap;
    if s.workers[w].phase.Racing? {
      OldTurnDeregisters(Next(s, Timeout(w)), w, v, y, k, n);
      Before(s, Timeout(w));
    } else {
      OldTurnDeregisters(s, w, v, y, k, n);
    }
  }

  /** In whatever state, a launch that reuses the id of a turn in focus lets two turns at one item
      run at once: at any new item that is more urgent than the others and has a free key. */
  lemma ReusedIdOverlaps(s: State, w: Worker, count: nat, y: Item, k: LockKey)
    requires Enabled(s, Relaunch(count)) && InFocus(s, w) && w.id < count
    requires Worker(w.id, s.gen + 1) !in s.workers
    requires y.id !in s.scope && y.keys == [k] && k !in s.locks
    requires Foremost(s.queue, y) && y.priority <= s.workers[w].item.priority
    ensures CanOverlap(Next(s, Relaunch(count)))
  {
    hide CanOverlap, InsertSorted;
    var v := Worker(w.id, s.gen + 1);
    var s1 := Next(s, Relaunch(count));
    var s2 := Next(s1, Enqueue(y));
    GoesFirst(s.queue, y);
    var s3 := Taken(s2, v, y, k);
    assert s3.queue == s.queue;
    BothInFocus(s3, w, v, y, k, |s.attempts|);
    Starts(s2, v, y, k);
    Before(s1, Enqueue(y));
  }

  // ------------------------------------------------------------------ exactly when a launch is safe

  lemma LongerThanAll(names: set<string>) returns (n: nat)
    ensures forall x :: x in names ==> |x| < n
    decreases |names|
  {
    n := 0;
    if x :| x in names {
      var m := LongerThanAll(names - {x});
      n := m + |x| + 1;
    }
  }

  lemma UnusedName(names: set<string>) returns (x: string)
    ensures x !in names
  {
    var n := LongerThanAll(names);
    x := seq(n, _ => 'x');
    assert |x| == n;
  }

  lemma {:induction false} UrgentEnough(q: seq<Item>, bound: int) returns (p: int)
    ensures p <= bound && forall z :: z in q ==> p <= z.priority
  {
    p := bound;
    if q != [] {
      var r := UrgentEnough(q[1..], bound);
      p := if r <= q[0].priority then r else q[0].priority;
      assert q == [q[0]] + q[1..];
    }
  }

  lemma SomeItemOverlaps(s: State, w: Worker, count: nat)
    requires Enabled(s, Relaunch(count)) && InFocus(s, w) && w.id < count && NoneFromTheFuture(s)
    ensures CanOverlap(Next(s, Relaunch(count)))
  {
    hide CanOverlap, Next, Enabled;
    var id := UnusedName(s.scope.Keys);
    var key := UnusedName(s.locks.Keys);
    var priority := UrgentEnough(s.queue, s.workers[w].item.priority);
    ReusedIdOverlaps(s, w, count, Item(id, false, false, false, true, priority, 0, [key]), key);
  }

  lemma {:induction false} CarefulOn(s: State, es: seq<Event>, more: seq<Event>)
    requires Possible(s, es) && Careful(s, es) && Possible(Run(s, es), more) && Careful(Run(s, es), more)
    ensures Possible(s, es + more) && Careful(s, es + more) && Run(s, es + more) == Run(Run(s, es), more)
    decreases es
  {
    hide Enabled, Next, SparesBusyIds;
    if es == [] {
      assert es + more == more;
    } else {
      CarefulOn(Next(s, es[0]), es[1..], more);
      assert (es + more)[1..] == es[1..] + more && (es + more)[0] == es[0];
    }
  }

  lemma CarefulFirst(s: State, e: Event, es: seq<Event>)
    requires Enabled(s, e) && SparesBusyIds(s, e) && Possible(Next(s, e), es) && Careful(Next(s, e), es)
    ensures Possible(s, [e] + es) && Careful(s, [e] + es) && Run(s, [e] + es) == Run(Next(s, e), es)
  {
    hide Enabled, Next, SparesBusyIds;
    assert ([e] + es)[0] == e && ([e] + es)[1..] == es;
  }

  /** In every state reached by launches that spare busy ids, one more launch can lead to two turns
      at one item, although all later ones spare busy ids too, exactly when it reuses the id of a
      turn in focus. */
  lemma LaunchOverlapsExactlyWhen(es: seq<Event>, count: nat)
    requires Possible(Init(), es) && Careful(Init(), es) && Enabled(Run(Init(), es), Relaunch(count))
    ensures var s := Run(Init(), es);
            CanOverlap(Next(s, Relaunch(count))) <==> exists w :: InFocus(s, w) && w.id < count
  {
    hide Possible, Run, Careful, Located, Scoped, Next, NoOverlap, InFocus, NoneFromTheFuture;
    var s, e := Run(Init(), es), Relaunch(count);
    if w :| InFocus(s, w) && w.id < count {
      CarefulRunIsFlight(es);
      NotFromTheFuture(s);
      SomeItemOverlaps(s, w, count);
    } else {
      if more :| Possible(Next(s, e), more) && Careful(Next(s, e), more) && !NoOverlap(Run(Next(s, e), more)) {
        CarefulFirst(s, e, more);
        CarefulOn(Init(), es, [e] + more);
        AttemptsNeverOverlap(es + ([e] + more));
      }
    }
  }

  ghost predicate CanFail(s: State) { exists es :: Possible(s, es) && !NoOverlap(Run(s, es)) }

  lemma FailsBefore(s: State, e: Event)
    requires Enabled(s, e) && CanFail(Next(s, e))
    ensures CanFail(s)
  {
    hide Enabled, Next, NoOverlap;
    var es :| Possible(Next(s, e), es) && !NoOverlap(Run(Next(s, e), es));
    var all := [e] + es;
    assert all[0] == e && all[1..] == es;
    assert Possible(s, all) && Run(s, all) == Run(Next(s, e), es);
  }

  const OLD := Worker(0, 1)
  const OTHER := Worker(1, 1)

  function PoolWaiting(): State {
    State([], map[], 1, map[OLD := Waiting, OTHER := Waiting], map[], [], map[], {}, {}, map[])
  }

  function OneInLine(x: Item): State {
    State([x], map[], 1, map[OLD := Waiting, OTHER := Waiting], map[], [], map[], {}, {}, map[x.id := x.keys])
  }

  lemma PoolOfTwo(x: Item, k: LockKey)
    requires x.keys == [k]
    ensures Enabled(Init(), Relaunch(2)) && Next(Init(), Relaunch(2)) == PoolWaiting()
    ensures Enabled(PoolWaiting(), Enqueue(x)) && Next(PoolWaiting(), Enqueue(x)) == OneInLine(x)
    ensures MayStart(OneInLine(x), OLD, x, k)
  {
    GoesFirst([], x);
    assert Launched(map[], 1, 2) == map[OLD := Waiting, OTHER := Waiting];
  }

  /** It does happen: a pool of two, any item in focus, and the pool is launched again. */
  lemma TwoGenerationsOverlap(x: Item, k: LockKey)
    requires x.keys == [k]
    ensures exists es :: Possible(Init(), es) && !NoOverlap(Run(Init(), es))
  {
    hide CanFail, Next, Enabled, Possible, Run, NoOverlap, Taken, MayStart, PoolWaiting, OneInLine, Init;
    var s := OneInLine(x);
    PoolOfTwo(x, k);
    StartSteps(s, OLD, x, k);
    var t := Taken(s, OLD, x, k);
    OneAtWork(x, k);
    SomeItemOverlaps(t, OLD, 2);
    OverlapIsFailure(Next(t, Relaunch(2)));
    FailsBefore(t, Relaunch(2));
    FailsBefore(Next(s, Dequeue(OLD)), LockAndStart(OLD, None));
    FailsBefore(s, Dequeue(OLD));
    FailsBefore(PoolWaiting(), Enqueue(x));
    FailsBefore(Init(), Relaunch(2));
    FailureIs(Init());
  }

  lemma OneAtWork(x: Item, k: LockKey)
    ensures var t := Taken(OneInLine(x), OLD, x, k);
            InFocus(t, OLD) && NoneFromTheFuture(t) && Enabled(t, Relaunch(2))
  {
  }

  lemma OverlapIsFailure(s: State)
    requires CanOverlap(s)
    ensures CanFail(s)
  {
    hide NoOverlap, Possible, Run, Careful;
  }

  lemma FailureIs(s: State)
    requires CanFail(s)
    ensures exists es :: Possible(s, es) && !NoOverlap(Run(s, es))
  {
    hide NoOverlap, Possible, Run;
  }
}
