/** The agent's mailbox: a queue kept in priority order, the status persisted per item, and
    entity locks that are taken all together or not at all. */
module Mailbox {
  type ItemId = string
  type LockKey = string

  /** `keys` are the entity keys resolved from the item, never empty in the source. */
  datatype Item = Item(id: ItemId, humanChat: bool, strict: bool, directMention: bool, invokesLLM: bool,
                       priority: int, retryCount: nat, keys: seq<LockKey>)

  datatype Status = Queued | Processing | Deferred | Completed | Dropped

  /** What becomes of an item that was processed. */
  datatype Verdict = Complete | Drop | Defer | Requeue

  // ------------------------------------------------------------------------------- the queue

  function IndexOf(q: seq<Item>, id: ItemId): (i: nat)
    ensures i <= |q|
    ensures i < |q| ==> q[i].id == id
    ensures forall j :: 0 <= j < i ==> q[j].id != id
  {
    if q == [] || q[0].id == id then 0 else 1 + IndexOf(q[1..], id)
  }

  predicate InQueue(q: seq<Item>, id: ItemId) { IndexOf(q, id) < |q| }

  function Remove(q: seq<Item>, id: ItemId): seq<Item> {
    var i := IndexOf(q, id);
    if i < |q| then q[..i] + q[i + 1..] else q
  }

  /** Where an item goes: before the first item of the same or a lower rank, so that within
      one priority the newest item comes first. */
  function InsertAt(q: seq<Item>, item: Item): (i: nat)
    ensures i <= |q|
    ensures forall j :: 0 <= j < i ==> q[j].priority < item.priority
    ensures i < |q| ==> q[i].priority >= item.priority
  {
    if q == [] || q[0].priority >= item.priority then 0 else 1 + InsertAt(q[1..], item)
  }

  function InsertSorted(q: seq<Item>, item: Item): seq<Item> {
    var i := InsertAt(q, item);
    q[..i] + [item] + q[i..]
  }

  ghost predicate Sorted(q: seq<Item>) {
    forall i, j :: 0 <= i < j < |q| ==> q[i].priority <= q[j].priority
  }

  ghost predicate Has(q: seq<Item>, id: ItemId) { exists i :: 0 <= i < |q| && q[i].id == id }

  ghost predicate DistinctIds(q: seq<Item>) {
    forall i, j :: 0 <= i < j < |q| ==> q[i].id != q[j].id
  }

  /** The queue without the items of `ids`. */
  ghost function Without(q: seq<Item>, ids: set<ItemId>): seq<Item> {
    if q == [] then [] else Kept(q[0], ids) + Without(q[1..], ids)
  }

  ghost function Kept(x: Item, ids: set<ItemId>): seq<Item> { if x.id in ids then [] else [x] }

  lemma {:induction false} WithoutMembers(q: seq<Item>, ids: set<ItemId>)
    ensures forall x :: x in Without(q, ids) <==> x in q && x.id !in ids
  {
    if q != [] {
      WithoutMembers(q[1..], ids);
      assert q == [q[0]] + q[1..];
    }
  }

  lemma HasIsMembership(q: seq<Item>, id: ItemId)
    ensures Has(q, id) <==> exists x :: x in q && x.id == id
    ensures Has(q, id) <==> InQueue(q, id)
  {
    if i :| 0 <= i < |q| && q[i].id == id { assert q[i] in q; }
  }

  lemma {:induction false} WithoutNone(q: seq<Item>, ids: set<ItemId>)
    requires forall x :: x in q ==> x.id !in ids
    ensures Without(q, ids) == q
  {
    if q != [] {
      assert q[0] in q;
      assert forall x :: x in q[1..] ==> x in q;
      WithoutNone(q[1..], ids);
    }
  }

  lemma {:induction false} WithoutAppend(p: seq<Item>, q: seq<Item>, ids: set<ItemId>)
    ensures Without(p + q, ids) == Without(p, ids) + Without(q, ids)
  {
    hide Kept;
    if p == [] {
      assert p + q == q;
    } else {
      WithoutAppend(p[1..], q, ids);
      assert (p + q)[1..] == p[1..] + q;
      assert (p + q)[0] == p[0];
    }
  }

  lemma {:induction false} WithoutTwice(q: seq<Item>, a: set<ItemId>, b: set<ItemId>)
    ensures Without(Without(q, a), b) == Without(q, a + b)
  {
    hide Kept;
    if q != [] {
      WithoutTwice(q[1..], a, b);
      WithoutAppend(Kept(q[0], a), Without(q[1..], a), b);
      KeptTwice(q[0], a, b);
    }
  }

  lemma KeptTwice(x: Item, a: set<ItemId>, b: set<ItemId>)
    ensures Without(Kept(x, a), b) == Kept(x, a + b)
  {
    assert Without([], b) == [];
    if x.id !in a {
      assert [x][1..] == [];
    }
  }

  lemma {:induction false} WithoutDistinct(q: seq<Item>, ids: set<ItemId>)
    requires DistinctIds(q)
    ensures DistinctIds(Without(q, ids))
  {
    if q != [] {
      assert DistinctIds(q[1..]);
      WithoutDistinct(q[1..], ids);
      WithoutMembers(q[1..], ids);
      var t := Without(q[1..], ids);
      assert forall x :: x in q[1..] ==> x.id != q[0].id;
      assert forall j :: 0 <= j < |t| ==> t[j] in t;
    }
  }

  /** Taking out one id removes exactly that item. */
  lemma RemoveIsWithout(q: seq<Item>, id: ItemId)
    requires DistinctIds(q)
    ensures Remove(q, id) == Without(q, {id})
  {
    hide Without, DistinctIds;
    var i := IndexOf(q, id);
    OutsideIndex(q, id);
    if i < |q| {
      assert q == q[..i] + [q[i]] + q[i + 1..];
      WithoutAround(q[..i], q[i], q[i + 1..], {id});
      WithoutNone(q[..i], {id});
      WithoutNone(q[i + 1..], {id});
    } else {
      WithoutNone(q, {id});
    }
  }

  lemma WithoutAround(p: seq<Item>, x: Item, q: seq<Item>, ids: set<ItemId>)
    requires x.id in ids
    ensures Without(p + [x] + q, ids) == Without(p, ids) + Without(q, ids)
  {
    hide Without;
    WithoutAppend(p + [x], q, ids);
    WithoutAppend(p, [x], ids);
    WithoutOne(x, ids);
  }

  lemma WithoutOne(x: Item, ids: set<ItemId>)
    requires x.id in ids
    ensures Without([x], ids) == []
  {
    assert [x][1..] == [];
  }

  lemma OutsideIndex(q: seq<Item>, id: ItemId)
    requires DistinctIds(q)
    ensures var i := IndexOf(q, id);
            if i < |q| then (forall x :: x in q[..i] ==> x.id != id) && (forall x :: x in q[i + 1..] ==> x.id != id)
            else forall x :: x in q ==> x.id != id
  {
    var i := IndexOf(q, id);
    if i < |q| {
      var a, b := q[..i], q[i + 1..];
      assert forall j :: 0 <= j < |a| ==> a[j] == q[j];
      assert forall j :: 0 <= j < |b| ==> b[j] == q[i + 1 + j];
    }
  }

  /** Insertion keeps the priority order. */
  lemma InsertKeepsOrder(q: seq<Item>, item: Item)
    requires Sorted(q)
    ensures Sorted(InsertSorted(q, item))
  {
    var i := InsertAt(q, item);
    var r := InsertSorted(q, item);
    forall a, b | 0 <= a < b < |r|
      ensures r[a].priority <= r[b].priority
    {
      InsertedAt(q, item, a);
      InsertedAt(q, item, b);
    }
  }

  lemma InsertedAt(q: seq<Item>, item: Item, a: nat)
    requires a <= |q|
    ensures var i := InsertAt(q, item);
            InsertSorted(q, item)[a] == if a < i then q[a] else if a == i then item else q[a - 1]
  {
  }

  lemma InsertMembers(q: seq<Item>, item: Item)
    ensures forall x :: x in InsertSorted(q, item) <==> x == item || x in q
  {
    var i := InsertAt(q, item);
    assert q == q[..i] + q[i..];
  }

  lemma InsertKeepsDistinct(q: seq<Item>, item: Item)
    requires DistinctIds(q) && !Has(q, item.id)
    ensures DistinctIds(InsertSorted(q, item))
  {
    var r := InsertSorted(q, item);
    forall a, b | 0 <= a < b < |r|
      ensures r[a].id != r[b].id
    {
      InsertedAt(q, item, a);
      InsertedAt(q, item, b);
    }
  }

  lemma InsertThenWithout(q: seq<Item>, item: Item, ids: set<ItemId>)
    requires item.id in ids
    ensures Without(InsertSorted(q, item), ids) == Without(q, ids)
  {
    hide Without;
    var i := InsertAt(q, item);
    WithoutAround(q[..i], item, q[i..], ids);
    WithoutAppend(q[..i], q[i..], ids);
    assert q == q[..i] + q[i..];
  }

  // -------------------------------------------------------------------------------- the locks

  ghost predicate Distinct(keys: seq<LockKey>) {
    forall i, j :: 0 <= i < j < |keys| ==> keys[i] != keys[j]
  }

  /** Every key is free, and no key is asked for twice. */
  ghost predicate CanLock(locks: map<LockKey, ItemId>, keys: seq<LockKey>) {
    Distinct(keys) && forall k :: k in keys ==> k !in locks
  }

  function Locked(locks: map<LockKey, ItemId>, keys: seq<LockKey>, holder: ItemId): map<LockKey, ItemId> {
    map k | k in locks.Keys + (set x | x in keys) :: if k in keys then holder else locks[k]
  }

  function Unlocked(locks: map<LockKey, ItemId>, keys: seq<LockKey>, holder: ItemId): map<LockKey, ItemId> {
    map k | k in locks && !(k in keys && locks[k] == holder) :: locks[k]
  }

  ghost function GivenBack(locks: map<LockKey, ItemId>, keys: seq<LockKey>): map<LockKey, ItemId> {
    map k | k in locks && k !in keys :: locks[k]
  }

  lemma LockOneMore(locks: map<LockKey, ItemId>, keys: seq<LockKey>, key: LockKey, holder: ItemId)
    ensures Locked(locks, keys + [key], holder) == Locked(locks, keys, holder)[key := holder]
  {
  }

  lemma UnlockOneMore(locks: map<LockKey, ItemId>, keys: seq<LockKey>, key: LockKey, holder: ItemId)
    ensures var m := Unlocked(locks, keys, holder);
            Unlocked(locks, keys + [key], holder) == if key in m && m[key] == holder then m - {key} else m
  {
  }

  lemma GiveBackOneMore(locks: map<LockKey, ItemId>, keys: seq<LockKey>, key: LockKey)
    ensures GivenBack(locks, keys + [key]) == GivenBack(locks, keys) - {key}
  {
  }

  lemma GiveBackAll(locks: map<LockKey, ItemId>, keys: seq<LockKey>, holder: ItemId)
    requires CanLock(locks, keys)
    ensures GivenBack(Locked(locks, keys, holder), keys) == locks
  {
  }

  lemma NothingLocked(locks: map<LockKey, ItemId>, holder: ItemId)
    ensures CanLock(locks, []) && Locked(locks, [], holder) == locks
  {
  }

  lemma NothingUnlocked(locks: map<LockKey, ItemId>, holder: ItemId)
    ensures Unlocked(locks, [], holder) == locks
  {
  }

  lemma NothingGivenBack(locks: map<LockKey, ItemId>)
    ensures GivenBack(locks, []) == locks
  {
  }

  lemma FreeKey(locks: map<LockKey, ItemId>, acquired: seq<LockKey>, key: LockKey, holder: ItemId)
    requires CanLock(locks, acquired) && key !in Locked(locks, acquired, holder)
    ensures CanLock(locks, acquired + [key])
  {
    assert key !in acquired && key !in locks;
  }

  lemma TakenKey(locks: map<LockKey, ItemId>, keys: seq<LockKey>, i: nat, holder: ItemId)
    requires i < |keys| && keys[i] in Locked(locks, keys[..i], holder)
    ensures !CanLock(locks, keys)
  {
    assert keys[i] in keys;
    if keys[i] in keys[..i] {
      var j :| 0 <= j < i && keys[j] == keys[i];
    }
  }

  predicate Runnable(locks: map<LockKey, ItemId>, item: Item) {
    forall k :: k in item.keys ==> k !in locks
  }

  class AgentMailbox {
    var queue: seq<Item>
    var rows: map<ItemId, Status>
    var entityLocks: map<LockKey, ItemId>

    constructor ()
      ensures queue == [] && rows == map[] && entityLocks == map[]
    {
      queue, rows, entityLocks := [], map[], map[];
    }

    /** All or nothing: when a key is taken the ones acquired so far are given back. */
    method LockEntities(keys: seq<LockKey>, holder: ItemId) returns (ok: bool)
      modifies this`entityLocks
      ensures ok <==> CanLock(old(entityLocks), keys)
      ensures entityLocks == if ok then Locked(old(entityLocks), keys, holder) else old(entityLocks)
    {
      hide *;
      ghost var before := entityLocks;
      var acquired: seq<LockKey> := [];
      NothingLocked(before, holder);
      for i := 0 to |keys|
        invariant acquired == keys[..i]
        invariant CanLock(before, acquired)
        invariant entityLocks == Locked(before, acquired, holder)
      {
        var key := keys[i];
        if key in entityLocks {
          ghost var held := entityLocks;
          NothingGivenBack(held);
          for j := 0 to |acquired|
            invariant entityLocks == GivenBack(held, acquired[..j])
          {
            assert acquired[..j + 1] == acquired[..j] + [acquired[j]];
            GiveBackOneMore(held, acquired[..j], acquired[j]);
            entityLocks := entityLocks - {acquired[j]};
          }
          assert acquired[..|acquired|] == acquired;
          GiveBackAll(before, acquired, holder);
          TakenKey(before, keys, i, holder);
          return false;
        }
        assert keys[..i + 1] == acquired + [key];
        FreeKey(before, acquired, key, holder);
        LockOneMore(before, acquired, key, holder);
        entityLocks := entityLocks[key := holder];
        acquired := acquired + [key];
      }
      assert keys[..|keys|] == keys;
      ok := true;
    }

    /** Only keys held by `holder` are released. */
    method UnlockEntities(keys: seq<LockKey>, holder: ItemId)
      modifies this`entityLocks
      ensures entityLocks == Unlocked(old(entityLocks), keys, holder)
    {
      hide *;
      ghost var before := entityLocks;
      NothingUnlocked(before, holder);
      for i := 0 to |keys|
        invariant entityLocks == Unlocked(before, keys[..i], holder)
      {
        var key := keys[i];
        assert keys[..i + 1] == keys[..i] + [key];
        UnlockOneMore(before, keys[..i], key, holder);
        if key in entityLocks && entityLocks[key] == holder {
          entityLocks := entityLocks - {key};
        }
      }
      assert keys[..|keys|] == keys;
    }

    method Insert(item: Item)
      modifies this`queue
      ensures queue == InsertSorted(old(queue), item)
    {
      var i := 0;
      while i < |queue| && queue[i].priority < item.priority
        invariant i <= |queue|
        invariant forall j :: 0 <= j < i ==> queue[j].priority < item.priority
      {
        i := i + 1;
      }
      assert i == InsertAt(queue, item);
      queue := queue[..i] + [item] + queue[i..];
    }

    /** The first item none of whose entities is locked. */
    method Dequeue() returns (item: seq<Item>)
      modifies this`queue, this`rows
      ensures item == [] ==> unchanged(this) && forall x :: x in queue ==> !Runnable(entityLocks, x)
      ensures item != [] ==>
                exists i :: 0 <= i < |old(queue)| && item == [old(queue)[i]]
                            && Runnable(entityLocks, item[0])
                            && (forall j :: 0 <= j < i ==> !Runnable(entityLocks, old(queue)[j]))
                            && queue == old(queue)[..i] + old(queue)[i + 1..]
                            && rows == old(rows)[item[0].id := Processing]
    {
      for i := 0 to |queue|
        invariant unchanged(this)
        invariant forall j :: 0 <= j < i ==> !Runnable(entityLocks, queue[j])
      {
        if Runnable(entityLocks, queue[i]) {
          item := [queue[i]];
          rows := rows[queue[i].id := Processing];
          queue := queue[..i] + queue[i + 1..];
          return;
        }
      }
      item := [];
    }

    method Find(id: ItemId) returns (i: nat)
      ensures i == IndexOf(queue, id)
    {
      i := 0;
      while i < |queue| && queue[i].id != id
        invariant i <= |queue|
        invariant forall j :: 0 <= j < i ==> queue[j].id != id
      {
        i := i + 1;
      }
    }

    method DequeueById(id: ItemId) returns (item: seq<Item>)
      modifies this`queue, this`rows
      ensures queue == Remove(old(queue), id)
      ensures InQueue(old(queue), id) ==>
                item == [old(queue)[IndexOf(old(queue), id)]] && rows == old(rows)[id := Processing]
      ensures !InQueue(old(queue), id) ==> item == [] && rows == old(rows)
    {
      var i := Find(id);
      if i == |queue| { return []; }
      item := [queue[i]];
      queue := queue[..i] + queue[i + 1..];
      rows := rows[id := Processing];
    }

    /** The row is written whether or not the item is queued. */
    method Complete(id: ItemId)
      modifies this`queue, this`rows
      ensures queue == Remove(old(queue), id) && rows == old(rows)[id := Completed]
    {
      var i := Find(id);
      if i < |queue| { queue := queue[..i] + queue[i + 1..]; }
      rows := rows[id := Completed];
    }

    /** Only a queued item can be deferred. */
    method Defer(id: ItemId)
      modifies this`queue, this`rows
      ensures queue == Remove(old(queue), id)
      ensures rows == if InQueue(old(queue), id) then old(rows)[id := Deferred] else old(rows)
    {
      var i := Find(id);
      if i < |queue| {
        queue := queue[..i] + queue[i + 1..];
        rows := rows[id := Deferred];
      }
    }

    method DeferDequeued(item: Item)
      modifies this`rows
      ensures rows == old(rows)[item.id := Deferred]
    {
      rows := rows[item.id := Deferred];
    }

    /** The row is written whether or not the item is queued. */
    method Drop(id: ItemId)
      modifies this`queue, this`rows
      ensures queue == Remove(old(queue), id) && rows == old(rows)[id := Dropped]
    {
      var i := Find(id);
      if i < |queue| { queue := queue[..i] + queue[i + 1..]; }
      rows := rows[id := Dropped];
    }

    /** Back in line for another attempt, which is counted. */
    method Requeue(item: Item)
      modifies this`queue, this`rows
      ensures queue == InsertSorted(old(queue), item.(retryCount := item.retryCount + 1))
      ensures rows == old(rows)[item.id := Queued]
    {
      Insert(item.(retryCount := item.retryCount + 1));
      rows := rows[item.id := Queued];
    }

    /** Back in line without counting an attempt. */
    method PutBack(item: Item)
      modifies this`queue, this`rows
      ensures queue == InsertSorted(old(queue), item) && rows == old(rows)[item.id := Queued]
    {
      Insert(item);
      rows := rows[item.id := Queued];
    }
  }
}
