/** The concurrent worker pool: several workers, possibly of several pool generations, take items
    from one queue, lock the entities of an item all together, process it, give it a disposition
    and unlock. Each step below is one stretch of code that runs without yielding. */
module WorkerPool {
  import opened Mailbox
  import opened Prelude

  /** One coroutine of `concurrentWorkerLoop`. */
  datatype Worker = Worker(id: nat, gen: nat)

  /** Racing: the turn against the backstop. Cancelling: the backstop won, and the turn found in
      flight then, if any, has a grace period to end. */
  datatype Phase = Racing | Cancelling(awaited: Option<nat>)

  datatype Pc =
    | Waiting
    | Holding(item: Item)
    | Focused(item: Item, keys: seq<LockKey>, session: Option<LockKey>, attempt: nat, phase: Phase)
    | Releasing(item: Item, keys: seq<LockKey>, session: Option<LockKey>)
    | Exited

  /** One call of the delegate, over or still running. */
  datatype Attempt = Attempt(id: ItemId, starter: Worker, settled: bool)

  /** `scope` records the entity keys of every item ever received; `inFlight` has one entry per
      worker id, whatever the generation. */
  datatype State = State(queue: seq<Item>, locks: map<LockKey, ItemId>, gen: nat, workers: map<Worker, Pc>,
    inFlight: map<nat, nat>, attempts: seq<Attempt>, deferred: map<ItemId, Item>,
    completed: set<ItemId>, dropped: set<ItemId>, scope: map<ItemId, seq<LockKey>>)

  datatype Event =
    | Enqueue(item: Item)
    | Dequeue(w: Worker)
    | PutBackStale(w: Worker)
    | LockFails(w: Worker, session: Option<LockKey>)
    | LockAndStart(w: Worker, session: Option<LockKey>)
    | Settle(a: nat)
    | ReplyArrives(w: Worker, verdict: Verdict)
    | Timeout(w: Worker)
    | GraceSettled(w: Worker)
    | GraceExpired(w: Worker)
    | Unlock(w: Worker)
    | Resurface(id: ItemId)
    | Relaunch(count: nat)

  /** A pool has at least two workers; a count of zero stands for the serial loop, which replaces the
      pool without starting a worker of it. Workers are numbered from zero here. */
  const MAX_WORKERS: nat := 10

  function Init(): State { State([], map[], 0, map[], map[], [], map[], {}, {}, map[]) }

  /** The entity keys and the key of the session the turn would run in. */
  function LockKeysFor(item: Item, session: Option<LockKey>): seq<LockKey> {
    if session.Some? && session.value !in item.keys then item.keys + [session.value] else item.keys
  }

  function FirstRunnable(q: seq<Item>, locks: map<LockKey, ItemId>): (i: nat)
    ensures i <= |q|
    ensures i < |q| ==> Runnable(locks, q[i])
    ensures forall j :: 0 <= j < i ==> !Runnable(locks, q[j])
  {
    if q == [] || Runnable(locks, q[0]) then 0 else 1 + FirstRunnable(q[1..], locks)
  }

  predicate Is(s: State, w: Worker, pc: Pc) { w in s.workers && s.workers[w] == pc }

  predicate InFocus(s: State, w: Worker) { w in s.workers && s.workers[w].Focused? }

  predicate Settled(s: State, a: Option<nat>) { a.Some? ==> a.value < |s.attempts| && s.attempts[a.value].settled }

  ghost predicate Enabled(s: State, e: Event) {
    match e
    case Enqueue(item) => item.id !in s.scope && item.keys != []
    case Dequeue(w) => Is(s, w, Waiting) && FirstRunnable(s.queue, s.locks) < |s.queue|
    case PutBackStale(w) => w in s.workers && s.workers[w].Holding? && w.gen != s.gen
    case LockFails(w, session) =>
      w in s.workers && s.workers[w].Holding? && w.gen == s.gen
      && !CanLock(s.locks, LockKeysFor(s.workers[w].item, session))
    case LockAndStart(w, session) =>
      w in s.workers && s.workers[w].Holding? && w.gen == s.gen
      && CanLock(s.locks, LockKeysFor(s.workers[w].item, session))
    case Settle(a) => a < |s.attempts|
    case ReplyArrives(w, verdict) =>
      InFocus(s, w) && s.workers[w].phase.Racing? && Settled(s, Some(s.workers[w].attempt))
    case Timeout(w) => InFocus(s, w) && s.workers[w].phase.Racing?
    case GraceSettled(w) =>
      InFocus(s, w) && s.workers[w].phase.Cancelling? && Settled(s, s.workers[w].phase.awaited)
    case GraceExpired(w) =>
      InFocus(s, w) && s.workers[w].phase.Cancelling? && !Settled(s, s.workers[w].phase.awaited)
    case Unlock(w) => w in s.workers && s.workers[w].Releasing?
    case Resurface(id) => id in s.deferred && s.deferred[id].id == id
    case Relaunch(count) => count == 0 || 2 <= count <= MAX_WORKERS
  }

  function InFlightOf(s: State, w: Worker): Option<nat> {
    if w.id in s.inFlight then Some(s.inFlight[w.id]) else None
  }

  /** The item gets its disposition and the attempt is deregistered under the worker's id. */
  function Disposed(s: State, w: Worker, verdict: Verdict): State
    requires InFocus(s, w)
  {
    var item := s.workers[w].item;
    var t := s.(workers := s.workers[w := Releasing(item, s.workers[w].keys, s.workers[w].session)],
                inFlight := s.inFlight - {w.id});
    match verdict
    case Complete => t.(completed := t.completed + {item.id})
    case Drop => t.(dropped := t.dropped + {item.id})
    case Defer => t.(deferred := t.deferred[item.id := item])
    case Requeue => t.(queue := InsertSorted(t.queue, item.(retryCount := item.retryCount + 1)))
  }

  function Launched(workers: map<Worker, Pc>, gen: nat, count: nat): map<Worker, Pc> {
    map w | w in workers.Keys + (set n | 0 <= n < count :: Worker(n, gen)) ::
      if w in workers then workers[w] else Waiting
  }

  ghost function Next(s: State, e: Event): State
    requires Enabled(s, e)
  {
    match e
    case Enqueue(item) =>
      s.(queue := InsertSorted(s.queue, item), scope := s.scope[item.id := item.keys])
    case Dequeue(w) =>
      var i := FirstRunnable(s.queue, s.locks);
      s.(queue := s.queue[..i] + s.queue[i + 1..], workers := s.workers[w := Holding(s.queue[i])])
    case PutBackStale(w) =>
      s.(queue := InsertSorted(s.queue, s.workers[w].item), workers := s.workers[w := Exited])
    case LockFails(w, session) =>
      s.(queue := InsertSorted(s.queue, s.workers[w].item), workers := s.workers[w := Waiting])
    case LockAndStart(w, session) =>
      var item := s.workers[w].item;
      var keys := LockKeysFor(item, session);
      s.(locks := Locked(s.locks, keys, item.id),
         workers := s.workers[w := Focused(item, keys, session, |s.attempts|, Racing)],
         inFlight := s.inFlight[w.id := |s.attempts|],
         attempts := s.attempts + [Attempt(item.id, w, false)])
    case Settle(a) => s.(attempts := s.attempts[a := s.attempts[a].(settled := true)])
    case ReplyArrives(w, verdict) => Disposed(s, w, verdict)
    case Timeout(w) =>
      s.(workers := s.workers[w := s.workers[w].(phase := Cancelling(InFlightOf(s, w)))])
    case GraceSettled(w) => Disposed(s, w, Requeue)
    case GraceExpired(w) => Disposed(s, w, Drop)
    case Unlock(w) =>
      s.(locks := Unlocked(s.locks, s.workers[w].keys, s.workers[w].item.id),
         workers := s.workers[w := if w.gen == s.gen then Waiting else Exited])
    case Resurface(id) =>
      s.(queue := InsertSorted(s.queue, s.deferred[id]), deferred := s.deferred - {id})
    case Relaunch(count) => s.(gen := s.gen + 1, workers := Launched(s.workers, s.gen + 1, count))
  }

  ghost predicate Possible(s: State, es: seq<Event>)
    decreases es
  {
    es == [] || (Enabled(s, es[0]) && Possible(Next(s, es[0]), es[1..]))
  }

  ghost function Run(s: State, es: seq<Event>): State
    requires Possible(s, es)
    decreases es
  {
    if es == [] then s else Run(Next(s, es[0]), es[1..])
  }

  // --------------------------------------------------------------------- where each item is

  datatype Place = InLine | HeldBy(w: Worker) | PutOff | Finished | Discarded

  predicate Holds(s: State, w: Worker, id: ItemId) {
    w in s.workers && (s.workers[w].Holding? || s.workers[w].Focused?) && s.workers[w].item.id == id
  }

  predicate At(place: map<ItemId, Place>, id: ItemId, p: Place) { id in place && place[id] == p }

  /** `place` says where every item is, and it is nowhere else. */
  ghost predicate Located(s: State, place: map<ItemId, Place>) {
    && (forall id :: id in s.scope <==> id in place)
    && DistinctIds(s.queue)
    && (forall id :: Has(s.queue, id) <==> At(place, id, InLine))
    && (forall w, id :: Holds(s, w, id) <==> At(place, id, HeldBy(w)))
    && (forall id :: id in s.deferred <==> At(place, id, PutOff))
    && (forall id :: id in s.completed <==> At(place, id, Finished))
    && (forall id :: id in s.dropped <==> At(place, id, Discarded))
  }

  // ---------------------------------------------------------------------------- entity locks

  predicate HasItem(pc: Pc) { pc.Holding? || pc.Focused? || pc.Releasing? }

  predicate HasLocks(pc: Pc) { pc.Focused? || pc.Releasing? }

  predicate InScope(s: State, x: Item) { x.id in s.scope && s.scope[x.id] == x.keys && x.keys != [] }

  ghost predicate Scoped(s: State) {
    && (forall x :: x in s.queue ==> InScope(s, x))
    && (forall w :: w in s.workers && HasItem(s.workers[w]) ==> InScope(s, s.workers[w].item))
    && (forall id :: id in s.deferred ==> s.deferred[id].id == id && InScope(s, s.deferred[id]))
  }

  /** The keys a worker has locked are locked for its item. */
  ghost predicate LocksTheirKeys(s: State, w: Worker)
    requires LocksFor(s, w)
  {
    var pc := s.workers[w];
    && (forall k :: k in pc.keys <==> k in pc.item.keys || pc.session == Some(k))
    && (forall k :: k in pc.keys ==> k in s.locks && s.locks[k] == pc.item.id)
  }

  ghost predicate OwnTheirLocks(s: State) {
    forall w :: LocksFor(s, w) ==> LocksTheirKeys(s, w)
  }

  predicate LocksFor(s: State, w: Worker) { w in s.workers && HasLocks(s.workers[w]) }

  ghost predicate LocksForDifferentItems(s: State) {
    forall v, w :: LocksFor(s, v) && LocksFor(s, w) && v != w ==> s.workers[v].item.id != s.workers[w].item.id
  }

  predicate HoldsLock(s: State, w: Worker, k: LockKey) {
    LocksFor(s, w) && k in s.workers[w].keys
  }

  ghost predicate NoLockIsLeft(s: State) {
    forall k :: k in s.locks ==> exists w :: HoldsLock(s, w, k)
  }

  // -------------------------------------------------------------------- every item in one place

  lemma QueueIn(q: seq<Item>, x: Item)
    requires DistinctIds(q) && !Has(q, x.id)
    ensures DistinctIds(InsertSorted(q, x))
    ensures forall id :: Has(InsertSorted(q, x), id) <==> Has(q, id) || id == x.id
  {
    hide InsertSorted;
    InsertKeepsDistinct(q, x);
    InsertMembers(q, x);
    forall id
      ensures Has(InsertSorted(q, x), id) <==> Has(q, id) || id == x.id
    {
      HasIsMembership(q, id);
      HasIsMembership(InsertSorted(q, x), id);
    }
  }

  lemma QueueOut(q: seq<Item>, i: nat)
    requires DistinctIds(q) && i < |q|
    ensures DistinctIds(q[..i] + q[i + 1..]) && Has(q, q[i].id)
    ensures forall id :: Has(q[..i] + q[i + 1..], id) <==> Has(q, id) && id != q[i].id
  {
    var r := q[..i] + q[i + 1..];
    assert forall j :: 0 <= j < i ==> r[j] == q[j];
    assert forall j :: i <= j < |r| ==> r[j] == q[j + 1];
    forall id
      ensures Has(r, id) <==> Has(q, id) && id != q[i].id
    {
      if Has(q, id) && id != q[i].id {
        var j :| 0 <= j < |q| && q[j].id == id;
        assert r[if j < i then j else j - 1].id == id;
      }
    }
  }

  function PlaceAfter(verdict: Verdict): Place {
    match verdict
    case Complete => Finished
    case Drop => Discarded
    case Defer => PutOff
    case Requeue => InLine
  }

  ghost function Moved(s: State, place: map<ItemId, Place>, e: Event): map<ItemId, Place>
    requires Enabled(s, e)
  {
    match e
    case Enqueue(item) => place[item.id := InLine]
    case Dequeue(w) => place[s.queue[FirstRunnable(s.queue, s.locks)].id := HeldBy(w)]
    case PutBackStale(w) => place[s.workers[w].item.id := InLine]
    case LockFails(w, session) => place[s.workers[w].item.id := InLine]
    case ReplyArrives(w, verdict) => place[s.workers[w].item.id := PlaceAfter(verdict)]
    case GraceSettled(w) => place[s.workers[w].item.id := InLine]
    case GraceExpired(w) => place[s.workers[w].item.id := Discarded]
    case Resurface(id) => place[id := InLine]
    case _ => place
  }

  lemma LocatedIf(s: State, place: map<ItemId, Place>)
    requires (forall id :: id in s.scope <==> id in place) && DistinctIds(s.queue)
    requires forall id :: Has(s.queue, id) <==> At(place, id, InLine)
    requires forall w, id :: Holds(s, w, id) <==> At(place, id, HeldBy(w))
    requires forall id :: id in s.deferred <==> At(place, id, PutOff)
    requires forall id :: id in s.completed <==> At(place, id, Finished)
    requires forall id :: id in s.dropped <==> At(place, id, Discarded)
    ensures Located(s, place)
  {
  }

  lemma LocatedReturn(s: State, place: map<ItemId, Place>, w: Worker, pc: Pc)
    requires Located(s, place) && w in s.workers && s.workers[w].Holding? && (pc.Waiting? || pc.Exited?)
    ensures Located(s.(queue := InsertSorted(s.queue, s.workers[w].item), workers := s.workers[w := pc]),
                    place[s.workers[w].item.id := InLine])
  {
    hide InsertSorted, Has, DistinctIds;
    assert Holds(s, w, s.workers[w].item.id);
    QueueIn(s.queue, s.workers[w].item);
    var t := s.(queue := InsertSorted(s.queue, s.workers[w].item), workers := s.workers[w := pc]);
    var p := place[s.workers[w].item.id := InLine];
    assert forall id :: Has(t.queue, id) <==> At(p, id, InLine);
    forall v, x
      ensures Holds(t, v, x) <==> At(p, x, HeldBy(v))
    {
      assert Holds(s, v, x) <==> At(place, x, HeldBy(v));
    }
    LocatedIf(t, p);
  }

  lemma LocatedDisposed(s: State, place: map<ItemId, Place>, w: Worker, verdict: Verdict)
    requires Located(s, place) && InFocus(s, w)
    ensures Located(Disposed(s, w, verdict), place[s.workers[w].item.id := PlaceAfter(verdict)])
  {
    hide InsertSorted, Has, DistinctIds;
    var item := s.workers[w].item;
    assert Holds(s, w, item.id);
    QueueIn(s.queue, item.(retryCount := item.retryCount + 1));
    var t := Disposed(s, w, verdict);
    var p := place[item.id := PlaceAfter(verdict)];
    assert forall id :: Has(t.queue, id) <==> At(p, id, InLine);
    forall v, x
      ensures Holds(t, v, x) <==> At(p, x, HeldBy(v))
    {
      assert Holds(s, v, x) <==> At(place, x, HeldBy(v));
    }
    LocatedIf(t, p);
  }

  lemma LocatedEnqueue(s: State, place: map<ItemId, Place>, item: Item)
    requires Located(s, place) && item.id !in s.scope
    ensures Located(s.(queue := InsertSorted(s.queue, item), scope := s.scope[item.id := item.keys]),
                    place[item.id := InLine])
  {
    hide InsertSorted, Has, DistinctIds;
    var t := s.(queue := InsertSorted(s.queue, item), scope := s.scope[item.id := item.keys]);
    assert !At(place, item.id, InLine);
    QueueIn(s.queue, item);
    var p := place[item.id := InLine];
    assert forall id :: Has(t.queue, id) <==> At(p, id, InLine);
    forall v, x
      ensures Holds(t, v, x) <==> At(p, x, HeldBy(v))
    {
      assert Holds(s, v, x) <==> At(place, x, HeldBy(v));
    }
    LocatedIf(t, p);
  }

  lemma LocatedDequeue(s: State, place: map<ItemId, Place>, w: Worker, i: nat)
    requires Located(s, place) && Is(s, w, Waiting) && i < |s.queue|
    ensures Located(s.(queue := s.queue[..i] + s.queue[i + 1..], workers := s.workers[w := Holding(s.queue[i])]),
                    place[s.queue[i].id := HeldBy(w)])
  {
    hide Has, DistinctIds;
    var t := s.(queue := s.queue[..i] + s.queue[i + 1..], workers := s.workers[w := Holding(s.queue[i])]);
    QueueOut(s.queue, i);
    var p := place[s.queue[i].id := HeldBy(w)];
    forall id
      ensures Has(t.queue, id) <==> At(p, id, InLine)
    {
      assert Has(s.queue, id) <==> At(place, id, InLine);
      assert Has(t.queue, id) <==> Has(s.queue, id) && id != s.queue[i].id;
    }
    forall v, x
      ensures Holds(t, v, x) <==> At(p, x, HeldBy(v))
    {
      assert Holds(s, v, x) <==> At(place, x, HeldBy(v));
    }
    LocatedIf(t, p);
  }

  lemma LocatedResurface(s: State, place: map<ItemId, Place>, id: ItemId)
    requires Located(s, place) && id in s.deferred && s.deferred[id].id == id
    ensures Located(s.(queue := InsertSorted(s.queue, s.deferred[id]), deferred := s.deferred - {id}),
                    place[id := InLine])
  {
    hide InsertSorted, Has, DistinctIds;
    var t := s.(queue := InsertSorted(s.queue, s.deferred[id]), deferred := s.deferred - {id});
    assert At(place, id, PutOff);
    QueueIn(s.queue, s.deferred[id]);
    var p := place[id := InLine];
    assert forall id :: Has(t.queue, id) <==> At(p, id, InLine);
    forall v, x
      ensures Holds(t, v, x) <==> At(p, x, HeldBy(v))
    {
      assert Holds(s, v, x) <==> At(place, x, HeldBy(v));
    }
    LocatedIf(t, p);
  }

  lemma LocatedStays(s: State, place: map<ItemId, Place>, e: Event)
    requires Located(s, place) && Enabled(s, e)
    requires e.LockAndStart? || e.Settle? || e.Timeout? || e.Unlock? || e.Relaunch?
    ensures Located(Next(s, e), place)
  {
  }

  lemma LocatedStep(s: State, place: map<ItemId, Place>, e: Event)
    requires Located(s, place) && Enabled(s, e)
    ensures Located(Next(s, e), Moved(s, place, e))
  {
    hide Located, InsertSorted, CanLock, Settled, LockKeysFor, Disposed, Locked, Unlocked, Launched;
    match e
    case PutBackStale(w) => LocatedReturn(s, place, w, Exited);
    case LockFails(w, session) => LocatedReturn(s, place, w, Waiting);
    case ReplyArrives(w, verdict) => LocatedDisposed(s, place, w, verdict);
    case GraceSettled(w) => LocatedDisposed(s, place, w, Requeue);
    case GraceExpired(w) => LocatedDisposed(s, place, w, Drop);
    case Enqueue(item) => LocatedEnqueue(s, place, item);
    case Dequeue(w) => LocatedDequeue(s, place, w, FirstRunnable(s.queue, s.locks));
    case Resurface(id) => LocatedResurface(s, place, id);
    case _ => LocatedStays(s, place, e);
  }

  // -------------------------------------------------------------------- what locking relies on

  ghost predicate LocksInv(s: State) { OwnTheirLocks(s) && LocksForDifferentItems(s) && NoLockIsLeft(s) }

  predicate SameHolder(s: State, t: State, w: Worker) {
    (LocksFor(t, w) <==> LocksFor(s, w))
    && (LocksFor(s, w) ==>
          && t.workers[w].item == s.workers[w].item && t.workers[w].keys == s.workers[w].keys
          && t.workers[w].session == s.workers[w].session)
  }

  /** The step neither takes nor gives back a lock. */
  ghost predicate SameLocking(s: State, t: State) { t.locks == s.locks && forall w :: SameHolder(s, t, w) }

  lemma SameLockingKeeps(s: State, t: State)
    requires LocksInv(s) && SameLocking(s, t)
    ensures LocksInv(t)
  {
    forall w | LocksFor(t, w)
      ensures LocksTheirKeys(t, w)
    {
      assert SameHolder(s, t, w);
    }
    forall v, w | LocksFor(t, v) && LocksFor(t, w) && v != w
      ensures t.workers[v].item.id != t.workers[w].item.id
    {
      assert SameHolder(s, t, v) && SameHolder(s, t, w);
    }
    forall k | k in t.locks
      ensures exists w :: HoldsLock(t, w, k)
    {
      var w :| HoldsLock(s, w, k);
      assert SameHolder(s, t, w) && HoldsLock(t, w, k);
    }
  }

  lemma NeutralSteps(s: State, e: Event)
    requires Enabled(s, e) && !e.LockAndStart? && !e.Unlock?
    ensures SameLocking(s, Next(s, e))
  {
    hide CanLock, LockKeysFor, Settled, InsertSorted, Runnable, Disposed;
    match e
    case ReplyArrives(w, verdict) => DisposingIsNeutral(s, w, verdict);
    case GraceSettled(w) => DisposingIsNeutral(s, w, Requeue);
    case GraceExpired(w) => DisposingIsNeutral(s, w, Drop);
    case _ =>
  }

  lemma DisposingIsNeutral(s: State, w: Worker, verdict: Verdict)
    requires InFocus(s, w)
    ensures SameLocking(s, Disposed(s, w, verdict))
  {
    hide InsertSorted;
  }

  lemma KeysAre(item: Item, session: Option<LockKey>)
    ensures forall k :: k in LockKeysFor(item, session) <==> k in item.keys || session == Some(k)
    ensures Distinct(LockKeysFor(item, session)) <==> Distinct(item.keys)
  {
    var keys := LockKeysFor(item, session);
    assert forall i :: 0 <= i < |item.keys| ==> keys[i] == item.keys[i];
    assert forall i :: 0 <= i < |item.keys| ==> item.keys[i] in item.keys;
  }

  /** Who can lock the keys of an item is the only one at it. */
  lemma NobodyElseHasIt(s: State, w: Worker, keys: seq<LockKey>)
    requires OwnTheirLocks(s) && Scoped(s) && w in s.workers && s.workers[w].Holding? && CanLock(s.locks, keys)
    requires forall k :: k in s.workers[w].item.keys ==> k in keys
    ensures forall v :: LocksFor(s, v) ==> s.workers[v].item.id != s.workers[w].item.id
  {
    var item := s.workers[w].item;
    forall v | LocksFor(s, v)
      ensures s.workers[v].item.id != item.id
    {
      assert InScope(s, item) && InScope(s, s.workers[v].item) && LocksTheirKeys(s, v);
      assert item.keys[0] in item.keys;
    }
  }

  lemma LockingOwns(s: State, w: Worker, session: Option<LockKey>)
    requires OwnTheirLocks(s) && Enabled(s, LockAndStart(w, session))
    ensures OwnTheirLocks(Next(s, LockAndStart(w, session)))
    ensures forall v :: v != w ==> SameHolder(s, Next(s, LockAndStart(w, session)), v)
  {
    hide LockKeysFor;
    var t := Next(s, LockAndStart(w, session));
    KeysAre(s.workers[w].item, session);
    assert forall v :: v != w ==> SameHolder(s, t, v);
    forall v | LocksFor(t, v)
      ensures LocksTheirKeys(t, v)
    {
      if v != w { assert LocksFor(s, v) && LocksTheirKeys(s, v); }
    }
  }

  lemma LockingKeeps(s: State, w: Worker, session: Option<LockKey>)
    requires LocksInv(s) && Scoped(s) && Enabled(s, LockAndStart(w, session))
    ensures LocksInv(Next(s, LockAndStart(w, session)))
  {
    hide LockKeysFor, OwnTheirLocks, CanLock;
    var item := s.workers[w].item;
    var keys := LockKeysFor(item, session);
    var t := Next(s, LockAndStart(w, session));
    LockingOwns(s, w, session);
    KeysAre(item, session);
    NobodyElseHasIt(s, w, keys);
    forall u, v | LocksFor(t, u) && LocksFor(t, v) && u != v
      ensures t.workers[u].item.id != t.workers[v].item.id
    {
      assert u != w ==> SameHolder(s, t, u);
      assert v != w ==> SameHolder(s, t, v);
    }
    forall k | k in t.locks
      ensures exists v :: HoldsLock(t, v, k)
    {
      if k in keys {
        assert HoldsLock(t, w, k);
      } else {
        var v :| HoldsLock(s, v, k);
        assert SameHolder(s, t, v) && HoldsLock(t, v, k);
      }
    }
  }

  lemma UnlockingKeeps(s: State, w: Worker)
    requires LocksInv(s) && Enabled(s, Unlock(w))
    ensures LocksInv(Next(s, Unlock(w)))
  {
    var t := Next(s, Unlock(w));
    assert LocksFor(s, w) && LocksTheirKeys(s, w);
    assert forall v :: v != w ==> SameHolder(s, t, v);
    forall v | LocksFor(t, v)
      ensures LocksTheirKeys(t, v)
    {
      assert LocksFor(s, v) && LocksTheirKeys(s, v);
    }
    forall k | k in t.locks
      ensures exists v :: HoldsLock(t, v, k)
    {
      var v :| HoldsLock(s, v, k);
      assert HoldsLock(t, v, k);
    }
  }

  lemma LocksStep(s: State, e: Event)
    requires LocksInv(s) && Scoped(s) && Enabled(s, e)
    ensures LocksInv(Next(s, e))
  {
    hide LocksInv, Scoped, SameLocking, Enabled, Next;
    match e
    case LockAndStart(w, session) => LockingKeeps(s, w, session);
    case Unlock(w) => UnlockingKeeps(s, w);
    case _ =>
      NeutralSteps(s, e);
      SameLockingKeeps(s, Next(s, e));
  }

  lemma ScopedDisposed(s: State, w: Worker, verdict: Verdict)
    requires Scoped(s) && InFocus(s, w)
    ensures Scoped(Disposed(s, w, verdict))
  {
    hide InsertSorted;
    var item := s.workers[w].item;
    InsertMembers(s.queue, item.(retryCount := item.retryCount + 1));
  }

  lemma ScopedQueue(s: State, e: Event)
    requires Scoped(s) && Enabled(s, e) && (e.Enqueue? || e.PutBackStale? || e.LockFails? || e.Resurface?)
    ensures Scoped(Next(s, e))
  {
    hide InsertSorted, CanLock, LockKeysFor;
    match e
    case Enqueue(item) => InsertMembers(s.queue, item);
    case PutBackStale(w) => InsertMembers(s.queue, s.workers[w].item);
    case LockFails(w, _) => InsertMembers(s.queue, s.workers[w].item);
    case Resurface(id) => InsertMembers(s.queue, s.deferred[id]);
  }

  lemma ScopedDequeue(s: State, w: Worker, i: nat)
    requires Scoped(s) && Is(s, w, Waiting) && i < |s.queue|
    ensures Scoped(s.(queue := s.queue[..i] + s.queue[i + 1..], workers := s.workers[w := Holding(s.queue[i])]))
  {
    var r := s.queue[..i] + s.queue[i + 1..];
    assert s.queue[i] in s.queue;
    assert forall x :: x in r ==> x in s.queue;
  }

  lemma ScopedStays(s: State, e: Event)
    requires Scoped(s) && Enabled(s, e)
    requires e.LockAndStart? || e.Settle? || e.Timeout? || e.Unlock? || e.Relaunch?
    ensures Scoped(Next(s, e))
  {
  }

  lemma ScopedStep(s: State, e: Event)
    requires Scoped(s) && Enabled(s, e)
    ensures Scoped(Next(s, e))
  {
    hide Scoped, InsertSorted, CanLock, LockKeysFor, Locked, Unlocked, Settled, Runnable, Disposed, Launched;
    match e
    case ReplyArrives(w, verdict) => ScopedDisposed(s, w, verdict);
    case GraceSettled(w) => ScopedDisposed(s, w, Requeue);
    case GraceExpired(w) => ScopedDisposed(s, w, Drop);
    case Enqueue(_) => ScopedQueue(s, e);
    case PutBackStale(_) => ScopedQueue(s, e);
    case LockFails(_, _) => ScopedQueue(s, e);
    case Resurface(_) => ScopedQueue(s, e);
    case Dequeue(w) => ScopedDequeue(s, w, FirstRunnable(s.queue, s.locks));
    case _ => ScopedStays(s, e);
  }

  // ------------------------------------------------------------------------------------- runs

  /** Every item ever received is queued, held by one worker, put off, finished or discarded,
      and in only one of these. */
  ghost predicate Conserved(s: State) { exists place :: Located(s, place) }

  lemma InitInv()
    ensures Located(Init(), map[]) && Scoped(Init()) && LocksInv(Init())
  {
  }

  lemma {:induction false} RunInv(s: State, place: map<ItemId, Place>, es: seq<Event>)
    requires Located(s, place) && Scoped(s) && LocksInv(s) && Possible(s, es)
    ensures Conserved(Run(s, es)) && Scoped(Run(s, es)) && LocksInv(Run(s, es))
    decreases es
  {
    hide Located, Scoped, LocksInv, Enabled, Next;
    if es != [] {
      var e := es[0];
      LocatedStep(s, place, e);
      ScopedStep(s, e);
      LocksStep(s, e);
      RunInv(Next(s, e), Moved(s, place, e), es[1..]);
    }
  }

  /** What a turn works on: the entities of its item, and the session it runs in. */
  predicate WorksWith(pc: Pc, k: LockKey)
    requires HasLocks(pc)
  {
    k in pc.item.keys || pc.session == Some(k)
  }

  /** Two turns in focus have no entity in common, do not run in one session, and neither runs in a
      session that is an entity of the other. */
  ghost predicate Exclusive(s: State) {
    forall v, w :: InFocus(s, v) && InFocus(s, w) && v != w ==>
      var a, b := s.workers[v], s.workers[w];
      && (forall k :: k in a.item.keys ==> k !in b.item.keys)
      && (a.session.Some? ==> a.session != b.session && a.session.value !in b.item.keys)
  }

  /** In every reachable state, whatever the interleaving and however many pools were launched,
      no two turns in focus share an entity or a session. */
  lemma MutualExclusion(es: seq<Event>)
    requires Possible(Init(), es)
    ensures Exclusive(Run(Init(), es))
  {
    hide Possible, Run, Init;
    InitInv();
    RunInv(Init(), map[], es);
    var s := Run(Init(), es);
    forall v, w, k | InFocus(s, v) && InFocus(s, w) && v != w && WorksWith(s.workers[v], k)
      ensures !WorksWith(s.workers[w], k)
    {
      assert LocksFor(s, v) && LocksFor(s, w);
      assert LocksTheirKeys(s, v) && LocksTheirKeys(s, w);
    }
    forall v, w | InFocus(s, v) && InFocus(s, w) && v != w
      ensures var a, b := s.workers[v], s.workers[w];
              && (forall k :: k in a.item.keys ==> k !in b.item.keys)
              && (a.session.Some? ==> a.session != b.session && a.session.value !in b.item.keys)
    {
      Disjoint(s.workers[v], s.workers[w]);
    }
  }

  lemma Disjoint(a: Pc, b: Pc)
    requires HasLocks(a) && HasLocks(b) && forall k :: WorksWith(a, k) ==> !WorksWith(b, k)
    ensures forall k :: k in a.item.keys ==> k !in b.item.keys
    ensures a.session.Some? ==> a.session != b.session && a.session.value !in b.item.keys
  {
    forall k | k in a.item.keys
      ensures k !in b.item.keys
    {
      assert WorksWith(a, k);
    }
    if a.session.Some? { assert WorksWith(a, a.session.value); }
  }

  /** And nothing else keeps a turn from starting: after every run, a worker of the current pool that
      holds an item can start its turn exactly when the item names no entity twice and no turn in
      focus, or still to be released, works with one of its entities or with its session. */
  lemma StartsExactlyWhen(es: seq<Event>, w: Worker, session: Option<LockKey>)
    requires Possible(Init(), es)
    requires var s := Run(Init(), es); w in s.workers && s.workers[w].Holding? && w.gen == s.gen
    ensures var s := Run(Init(), es);
            var keys := s.workers[w].item.keys;
            Enabled(s, LockAndStart(w, session))
            <==> (forall i, j :: 0 <= i < j < |keys| ==> keys[i] != keys[j])
                 && forall v, k :: v in s.workers && HasLocks(s.workers[v]) && (k in keys || session == Some(k)) ==>
                      k !in s.workers[v].item.keys && s.workers[v].session != Some(k)
    ensures var s := Run(Init(), es);
            Enabled(s, LockAndStart(w, session)) ==>
              var turn := Next(s, LockAndStart(w, session)).workers[w];
              turn.Focused? && turn.item == s.workers[w].item && turn.session == session
  {
    hide Possible, Run, Init, Located, Scoped, LockKeysFor;
    InitInv();
    RunInv(Init(), map[], es);
    var s := Run(Init(), es);
    var item := s.workers[w].item;
    KeysAre(item, session);
    forall v, k | LocksFor(s, v)
      ensures HoldsLock(s, v, k) <==> WorksWith(s.workers[v], k)
      ensures HoldsLock(s, v, k) ==> k in s.locks
    {
      assert LocksTheirKeys(s, v);
    }
    forall k | k in s.locks
      ensures exists v :: LocksFor(s, v) && WorksWith(s.workers[v], k)
    {
      var v :| HoldsLock(s, v, k);
      assert WorksWith(s.workers[v], k);
    }
  }

  /** In every reachable state every item is in exactly one place, and every lock belongs to a
      worker that has still to release it. */
  lemma ItemsAndLocksAreConserved(es: seq<Event>)
    requires Possible(Init(), es)
    ensures Conserved(Run(Init(), es)) && NoLockIsLeft(Run(Init(), es))
  {
    hide Possible, Run, Init, Located, Scoped;
    InitInv();
    RunInv(Init(), map[], es);
  }

  // ------------------------------------------------------------------------------ who is next

  lemma TakenOutSorted(q: seq<Item>, i: nat)
    requires Sorted(q) && i < |q|
    ensures Sorted(q[..i] + q[i + 1..])
  {
  }

  lemma SortedStep(s: State, e: Event)
    requires Enabled(s, e) && Sorted(s.queue)
    ensures Sorted(Next(s, e).queue)
  {
    hide Sorted, InsertSorted, CanLock, LockKeysFor, Locked, Unlocked, Settled, Runnable, Launched;
    forall x: Item ensures Sorted(InsertSorted(s.queue, x)) { InsertKeepsOrder(s.queue, x); }
    if e.Dequeue? { TakenOutSorted(s.queue, FirstRunnable(s.queue, s.locks)); }
  }

  lemma {:induction false} RunSorted(s: State, es: seq<Event>)
    requires Sorted(s.queue) && Possible(s, es)
    ensures Sorted(Run(s, es).queue)
    decreases es
  {
    hide Sorted, Enabled, Next;
    if es != [] {
      SortedStep(s, es[0]);
      RunSorted(Next(s, es[0]), es[1..]);
    }
  }

  /** After every run, whatever was put back, put off or sent back in it, the item a worker takes
      is of the highest rank among all that have no locked entity. */
  lemma MostUrgentFirst(es: seq<Event>, w: Worker)
    requires Possible(Init(), es) && Enabled(Run(Init(), es), Dequeue(w))
    ensures var s := Run(Init(), es);
            var taken := Next(s, Dequeue(w)).workers[w];
            && taken.Holding? && taken.item in s.queue && (forall k :: k in taken.item.keys ==> k !in s.locks)
            && forall x :: x in s.queue && (forall k :: k in x.keys ==> k !in s.locks) ==>
                 taken.item.priority <= x.priority
  {
    hide Possible, Run, Init;
    NobodyWaitsAtFirst();
    RunSorted(Init(), es);
    var s := Run(Init(), es);
    var i := FirstRunnable(s.queue, s.locks);
    forall x | x in s.queue && Runnable(s.locks, x)
      ensures s.queue[i].priority <= x.priority
    {
      var j :| 0 <= j < |s.queue| && s.queue[j] == x;
      assert i <= j;
    }
  }

  lemma NobodyWaitsAtFirst()
    ensures Sorted(Init().queue)
  {}
}
