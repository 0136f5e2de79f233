/** Applying a deliberation result: the language model has named what to process now, what to
    handle with it, what to put off and what to discard, and the mailbox is edited to match. */
module Deliberation {
  import opened Mailbox

  /** An absent batch list is the empty sequence. */
  datatype DeliberationResult = DeliberationResult(processItemIds: seq<ItemId>, processItemId: ItemId,
    inlineCompletedIds: seq<ItemId>, deferItemIds: seq<ItemId>, dropItemIds: seq<ItemId>)

  datatype Outcome = Outcome(chosen: Item, batch: seq<Item>, queue: seq<Item>, rows: map<ItemId, Status>)

  function Effective(r: DeliberationResult): (ids: seq<ItemId>)
    ensures ids != []
  {
    if r.processItemIds != [] then r.processItemIds else [r.processItemId]
  }

  /** Human chat, strict-state events and direct mentions, as far as they are queued. */
  predicate Protected(q: seq<Item>, id: ItemId) {
    var i := IndexOf(q, id);
    i < |q| && (q[i].humanChat || q[i].strict || q[i].directMention)
  }

  function Open(q: seq<Item>, ids: seq<ItemId>): set<ItemId> {
    set id | id in ids && !Protected(q, id)
  }

  predicate Inlined(q: seq<Item>, cur: Item, r: DeliberationResult, id: ItemId) {
    !Protected(q, id) && id != cur.id && id !in Effective(r)
  }

  function Inline(q: seq<Item>, cur: Item, r: DeliberationResult, ids: seq<ItemId>): set<ItemId> {
    set id | id in ids && Inlined(q, cur, r, id)
  }

  function Written(rows: map<ItemId, Status>, ids: set<ItemId>, status: Status): map<ItemId, Status> {
    map id | id in rows.Keys + ids :: if id in ids then status else rows[id]
  }

  function QueuedOf(m: seq<Item>, ids: set<ItemId>): set<ItemId> {
    set id | id in ids && InQueue(m, id)
  }

  /** The batch: the named items that are still queued, each once, in the order they are named. */
  function Taken(q: seq<Item>, m: seq<Item>, ids: seq<ItemId>): seq<Item> {
    if ids == [] then []
    else
      var init, id := ids[..|ids| - 1], ids[|ids| - 1];
      Taken(q, m, init)
      + (if !Protected(q, id) && id !in init && InQueue(m, id) then [m[IndexOf(m, id)]] else [])
  }

  predicate Swaps(q: seq<Item>, cur: Item, r: DeliberationResult) {
    Effective(r)[0] != cur.id && InQueue(q, Effective(r)[0])
  }

  function Chosen(q: seq<Item>, cur: Item, r: DeliberationResult): Item {
    if Swaps(q, cur, r) then q[IndexOf(q, Effective(r)[0])] else cur
  }

  /** The queue once the primary item is out of it. */
  ghost function Rest(q: seq<Item>, cur: Item, r: DeliberationResult): seq<Item> {
    var q1 := Without(q, Inline(q, cur, r, r.inlineCompletedIds));
    if Swaps(q, cur, r) then Without(InsertSorted(q1, cur), {Effective(r)[0]}) else q1
  }

  function PrimaryRows(rows: map<ItemId, Status>, q: seq<Item>, cur: Item, r: DeliberationResult): map<ItemId, Status> {
    var done := Written(rows, Inline(q, cur, r, r.inlineCompletedIds), Completed);
    if Effective(r)[0] == cur.id then done
    else done[cur.id := Queued][Chosen(q, cur, r).id := Processing]
  }

  ghost function FinalRows(rows: map<ItemId, Status>, q: seq<Item>, cur: Item, r: DeliberationResult):
    map<ItemId, Status>
  {
    var m, b := Rest(q, cur, r), Open(q, Effective(r)[1..]);
    Written(Written(Written(PrimaryRows(rows, q, cur, r), QueuedOf(m, b), Processing),
                    QueuedOf(Without(m, b), Open(q, r.deferItemIds)), Deferred),
            Open(q, r.dropItemIds), Dropped)
  }

  ghost function FinalQueue(q: seq<Item>, cur: Item, r: DeliberationResult): seq<Item> {
    Without(Rest(q, cur, r), Open(q, Effective(r)[1..]) + Open(q, r.deferItemIds) + Open(q, r.dropItemIds))
  }

  /** What is left after a deliberation result is applied, in closed form. */
  ghost function Deliberate(q: seq<Item>, rows: map<ItemId, Status>, cur: Item, r: DeliberationResult): Outcome {
    Outcome(Chosen(q, cur, r), Taken(q, Rest(q, cur, r), Effective(r)[1..]), FinalQueue(q, cur, r),
            FinalRows(rows, q, cur, r))
  }

  // --------------------------------------------------------------------- steps of the loops

  lemma RemoveOneMore(q: seq<Item>, ids: set<ItemId>, id: ItemId)
    requires DistinctIds(q)
    ensures Remove(Without(q, ids), id) == Without(q, ids + {id})
  {
    hide *;
    WithoutDistinct(q, ids);
    RemoveIsWithout(Without(q, ids), id);
    WithoutTwice(q, ids, {id});
  }

  lemma WrittenOneMore(rows: map<ItemId, Status>, ids: set<ItemId>, id: ItemId, status: Status)
    ensures Written(rows, ids + {id}, status) == Written(rows, ids, status)[id := status]
    ensures Written(rows, {}, status) == rows
  {
  }

  lemma InlineOneMore(q: seq<Item>, cur: Item, r: DeliberationResult, ids: seq<ItemId>, id: ItemId)
    ensures Inline(q, cur, r, []) == {}
    ensures Inline(q, cur, r, ids + [id])
            == if Inlined(q, cur, r, id) then Inline(q, cur, r, ids) + {id} else Inline(q, cur, r, ids)
  {
  }

  lemma OpenOneMore(q: seq<Item>, ids: seq<ItemId>, id: ItemId)
    ensures Open(q, []) == {}
    ensures Open(q, ids + [id]) == if Protected(q, id) then Open(q, ids) else Open(q, ids) + {id}
  {
  }

  lemma QueuedOneMore(m: seq<Item>, ids: set<ItemId>, id: ItemId)
    ensures QueuedOf(m, {}) == {}
    ensures QueuedOf(m, ids + {id}) == if InQueue(m, id) then QueuedOf(m, ids) + {id} else QueuedOf(m, ids)
  {
  }

  /** What is still queued once `ids` are gone. */
  lemma InQueueWithout(q: seq<Item>, ids: set<ItemId>, id: ItemId)
    requires DistinctIds(q)
    ensures InQueue(Without(q, ids), id) <==> InQueue(q, id) && id !in ids
    ensures InQueue(Without(q, ids), id) ==> Without(q, ids)[IndexOf(Without(q, ids), id)] == q[IndexOf(q, id)]
  {
    hide Without;
    WithoutMembers(q, ids);
    HasIsMembership(q, id);
    HasIsMembership(Without(q, ids), id);
    var w := Without(q, ids);
    if InQueue(w, id) {
      assert w[IndexOf(w, id)] in w;
      OneOfItsName(q, w[IndexOf(w, id)], q[IndexOf(q, id)]);
    } else if InQueue(q, id) {
      assert q[IndexOf(q, id)] in q;
    }
  }

  lemma OneOfItsName(q: seq<Item>, x: Item, y: Item)
    requires DistinctIds(q) && x in q && y in q && x.id == y.id
    ensures x == y
  {
  }

  lemma TakenOneMore(q: seq<Item>, m: seq<Item>, ids: seq<ItemId>, id: ItemId)
    ensures Taken(q, m, ids + [id])
            == Taken(q, m, ids)
               + (if !Protected(q, id) && id !in ids && InQueue(m, id) then [m[IndexOf(m, id)]] else [])
  {
  }

  class AttentionController {
    const mailbox: AgentMailbox
    var pendingBatchItems: seq<Item>

    constructor (m: AgentMailbox)
      ensures mailbox == m && pendingBatchItems == []
    {
      mailbox, pendingBatchItems := m, [];
    }

    method IsProtected(snapshot: seq<Item>, id: ItemId) returns (yes: bool)
      ensures yes == Protected(snapshot, id)
    {
      var i := 0;
      while i < |snapshot| && snapshot[i].id != id
        invariant i <= |snapshot|
        invariant forall j :: 0 <= j < i ==> snapshot[j].id != id
      {
        i := i + 1;
      }
      assert i == IndexOf(snapshot, id);
      yes := i < |snapshot| && (snapshot[i].humanChat || snapshot[i].strict || snapshot[i].directMention);
    }

    method CompleteInline(snapshot: seq<Item>, cur: Item, r: DeliberationResult)
      requires mailbox.queue == snapshot && DistinctIds(snapshot)
      modifies mailbox`queue, mailbox`rows
      ensures mailbox.queue == Without(snapshot, Inline(snapshot, cur, r, r.inlineCompletedIds))
      ensures mailbox.rows == Written(old(mailbox.rows), Inline(snapshot, cur, r, r.inlineCompletedIds), Completed)
    {
      hide *;
      ghost var rows := mailbox.rows;
      var ids := r.inlineCompletedIds;
      Start(snapshot, cur, r, rows, Completed);
      for i := 0 to |ids|
        invariant mailbox.queue == Without(snapshot, Inline(snapshot, cur, r, ids[..i]))
        invariant mailbox.rows == Written(rows, Inline(snapshot, cur, r, ids[..i]), Completed)
      {
        var id := ids[i];
        assert ids[..i + 1] == ids[..i] + [id];
        InlineOneMore(snapshot, cur, r, ids[..i], id);
        RemoveOneMore(snapshot, Inline(snapshot, cur, r, ids[..i]), id);
        WrittenOneMore(rows, Inline(snapshot, cur, r, ids[..i]), id, Completed);
        var guarded := IsProtected(snapshot, id);
        InlinedIs(snapshot, cur, r, id);
        if !guarded && id != cur.id && id !in Effective(r) {
          mailbox.Complete(id);
        }
      }
      assert ids[..|ids|] == ids;
    }

    /** The chosen item leaves the queue; the one in hand goes back unless it is the one chosen,
        and is taken again when the chosen one cannot be found. */
    method PickPrimary(ghost q: seq<Item>, ghost rows: map<ItemId, Status>, cur: Item, r: DeliberationResult)
      returns (item: Item)
      requires DistinctIds(q) && !InQueue(q, cur.id)
      requires mailbox.queue == Without(q, Inline(q, cur, r, r.inlineCompletedIds))
      requires mailbox.rows == Written(rows, Inline(q, cur, r, r.inlineCompletedIds), Completed)
      modifies mailbox`queue, mailbox`rows
      ensures item == Chosen(q, cur, r)
      ensures mailbox.queue == Rest(q, cur, r) && DistinctIds(mailbox.queue)
      ensures mailbox.rows == PrimaryRows(rows, q, cur, r)
    {
      hide Without, Inline, Written, Protected, InsertSorted, DistinctIds, Effective, Remove, InQueue;
      item := cur;
      ghost var q1 := mailbox.queue;
      PrimaryQueues(q, cur, r);
      var primaryId := Effective(r)[0];
      if primaryId != cur.id {
        mailbox.PutBack(cur);
        var chosen := mailbox.DequeueById(primaryId);
        if |chosen| > 0 {
          item := chosen[0];
        } else {
          var redequeued := mailbox.DequeueById(cur.id);
          if |redequeued| > 0 { item := redequeued[0]; }
        }
      }
    }

    method TakeBatch(snapshot: seq<Item>, ids: seq<ItemId>)
      requires DistinctIds(mailbox.queue)
      modifies this`pendingBatchItems, mailbox`queue, mailbox`rows
      ensures pendingBatchItems == Taken(snapshot, old(mailbox.queue), ids)
      ensures mailbox.queue == Without(old(mailbox.queue), Open(snapshot, ids))
      ensures mailbox.rows == Written(old(mailbox.rows), QueuedOf(old(mailbox.queue), Open(snapshot, ids)), Processing)
    {
      hide *;
      ghost var m, rows := mailbox.queue, mailbox.rows;
      pendingBatchItems := [];
      StartBatch(snapshot, m, rows);
      for i := 0 to |ids|
        invariant pendingBatchItems == Taken(snapshot, m, ids[..i])
        invariant mailbox.queue == Without(m, Open(snapshot, ids[..i]))
        invariant mailbox.rows == Written(rows, QueuedOf(m, Open(snapshot, ids[..i])), Processing)
      {
        var id := ids[i];
        assert ids[..i + 1] == ids[..i] + [id];
        BatchStep(snapshot, m, rows, ids[..i], id);
        var guarded := IsProtected(snapshot, id);
        if !guarded {
          var item := mailbox.DequeueById(id);
          if |item| > 0 { pendingBatchItems := pendingBatchItems + item; }
        }
      }
      assert ids[..|ids|] == ids;
    }

    method DeferAll(snapshot: seq<Item>, ids: seq<ItemId>)
      requires DistinctIds(mailbox.queue)
      modifies mailbox`queue, mailbox`rows
      ensures mailbox.queue == Without(old(mailbox.queue), Open(snapshot, ids))
      ensures mailbox.rows == Written(old(mailbox.rows), QueuedOf(old(mailbox.queue), Open(snapshot, ids)), Deferred)
    {
      hide *;
      ghost var m, rows := mailbox.queue, mailbox.rows;
      StartBatch(snapshot, m, rows);
      for i := 0 to |ids|
        invariant mailbox.queue == Without(m, Open(snapshot, ids[..i]))
        invariant mailbox.rows == Written(rows, QueuedOf(m, Open(snapshot, ids[..i])), Deferred)
      {
        var id := ids[i];
        assert ids[..i + 1] == ids[..i] + [id];
        DeferStep(snapshot, m, rows, ids[..i], id);
        var guarded := IsProtected(snapshot, id);
        if !guarded { mailbox.Defer(id); }
      }
      assert ids[..|ids|] == ids;
    }

    method DropAll(snapshot: seq<Item>, ids: seq<ItemId>)
      requires DistinctIds(mailbox.queue)
      modifies mailbox`queue, mailbox`rows
      ensures mailbox.queue == Without(old(mailbox.queue), Open(snapshot, ids))
      ensures mailbox.rows == Written(old(mailbox.rows), Open(snapshot, ids), Dropped)
    {
      hide *;
      ghost var m, rows := mailbox.queue, mailbox.rows;
      StartBatch(snapshot, m, rows);
      for i := 0 to |ids|
        invariant mailbox.queue == Without(m, Open(snapshot, ids[..i]))
        invariant mailbox.rows == Written(rows, Open(snapshot, ids[..i]), Dropped)
      {
        var id := ids[i];
        assert ids[..i + 1] == ids[..i] + [id];
        OpenOneMore(snapshot, ids[..i], id);
        RemoveOneMore(m, Open(snapshot, ids[..i]), id);
        WrittenOneMore(rows, Open(snapshot, ids[..i]), id, Dropped);
        var guarded := IsProtected(snapshot, id);
        if !guarded { mailbox.Drop(id); }
      }
      assert ids[..|ids|] == ids;
    }

    method ApplyDeliberationResult(cur: Item, r: DeliberationResult) returns (item: Item)
      requires DistinctIds(mailbox.queue) && !InQueue(mailbox.queue, cur.id)
      modifies this`pendingBatchItems, mailbox`queue, mailbox`rows
      ensures Outcome(item, pendingBatchItems, mailbox.queue, mailbox.rows)
              == Deliberate(old(mailbox.queue), old(mailbox.rows), cur, r)
    {
      hide *;
      var snapshot := mailbox.queue;
      ghost var rows := mailbox.rows;
      CompleteInline(snapshot, cur, r);
      item := PickPrimary(snapshot, rows, cur, r);
      ghost var m := mailbox.queue;
      var ids := Effective(r);
      TakeBatch(snapshot, ids[1..]);
      WithoutDistinct(m, Open(snapshot, ids[1..]));
      DeferAll(snapshot, r.deferItemIds);
      WithoutDistinct(Without(m, Open(snapshot, ids[1..])), Open(snapshot, r.deferItemIds));
      DropAll(snapshot, r.dropItemIds);
      WithoutTwice(m, Open(snapshot, ids[1..]), Open(snapshot, r.deferItemIds));
      WithoutTwice(m, Open(snapshot, ids[1..]) + Open(snapshot, r.deferItemIds), Open(snapshot, r.dropItemIds));
      DeliberateIs(snapshot, rows, cur, r);
    }
  }

  lemma DeliberateIs(q: seq<Item>, rows: map<ItemId, Status>, cur: Item, r: DeliberationResult)
    ensures var m, b := Rest(q, cur, r), Open(q, Effective(r)[1..]);
            Deliberate(q, rows, cur, r)
            == Outcome(Chosen(q, cur, r), Taken(q, m, Effective(r)[1..]),
                       Without(m, b + Open(q, r.deferItemIds) + Open(q, r.dropItemIds)),
                       Written(Written(Written(PrimaryRows(rows, q, cur, r), QueuedOf(m, b), Processing),
                                       QueuedOf(Without(m, b), Open(q, r.deferItemIds)), Deferred),
                               Open(q, r.dropItemIds), Dropped))
  {
  }

  lemma InlinedIs(q: seq<Item>, cur: Item, r: DeliberationResult, id: ItemId)
    ensures Inlined(q, cur, r, id) <==> !Protected(q, id) && id != cur.id && id !in Effective(r)
  {
  }

  lemma Start(q: seq<Item>, cur: Item, r: DeliberationResult, rows: map<ItemId, Status>, status: Status)
    ensures Inline(q, cur, r, []) == {} && Without(q, {}) == q && Written(rows, {}, status) == rows
  {
  }

  lemma StartBatch(q: seq<Item>, m: seq<Item>, rows: map<ItemId, Status>)
    ensures Taken(q, m, []) == [] && Open(q, []) == {} && QueuedOf(m, {}) == {}
    ensures Without(m, {}) == m && forall st :: Written(rows, {}, st) == rows
  {
  }

  lemma BatchStep(q: seq<Item>, m: seq<Item>, rows: map<ItemId, Status>, ids: seq<ItemId>, id: ItemId)
    requires DistinctIds(m)
    ensures var more, b, w := ids + [id], Open(q, ids), Without(m, Open(q, ids));
            if Protected(q, id) then
              Open(q, more) == b && Taken(q, m, more) == Taken(q, m, ids)
            else
              Without(m, Open(q, more)) == Remove(w, id)
              && (InQueue(w, id) ==>
                    Taken(q, m, more) == Taken(q, m, ids) + [w[IndexOf(w, id)]]
                    && Written(rows, QueuedOf(m, Open(q, more)), Processing)
                       == Written(rows, QueuedOf(m, b), Processing)[id := Processing])
              && (!InQueue(w, id) ==>
                    Taken(q, m, more) == Taken(q, m, ids) && QueuedOf(m, Open(q, more)) == QueuedOf(m, b))
  {
    hide *;
    TakenOneMore(q, m, ids, id);
    OpenOneMore(q, ids, id);
    OpenHas(q, ids, id);
    RemoveOneMore(m, Open(q, ids), id);
    InQueueWithout(m, Open(q, ids), id);
    QueuedOneMore(m, Open(q, ids), id);
    WrittenOneMore(rows, QueuedOf(m, Open(q, ids)), id, Processing);
    if id in Open(q, ids) { assert Open(q, ids) + {id} == Open(q, ids); }
  }

  lemma OpenHas(q: seq<Item>, ids: seq<ItemId>, id: ItemId)
    ensures id in Open(q, ids) <==> id in ids && !Protected(q, id)
  {
  }

  lemma DeferStep(q: seq<Item>, m: seq<Item>, rows: map<ItemId, Status>, ids: seq<ItemId>, id: ItemId)
    requires DistinctIds(m)
    ensures var more, b, w := ids + [id], Open(q, ids), Without(m, Open(q, ids));
            if Protected(q, id) then
              Open(q, more) == b
            else
              Without(m, Open(q, more)) == Remove(w, id)
              && Written(rows, QueuedOf(m, Open(q, more)), Deferred)
                 == if InQueue(w, id) then Written(rows, QueuedOf(m, b), Deferred)[id := Deferred]
                    else Written(rows, QueuedOf(m, b), Deferred)
  {
    hide *;
    OpenOneMore(q, ids, id);
    RemoveOneMore(m, Open(q, ids), id);
    InQueueWithout(m, Open(q, ids), id);
    QueuedOneMore(m, Open(q, ids), id);
    WrittenOneMore(rows, QueuedOf(m, Open(q, ids)), id, Deferred);
    if id in Open(q, ids) { assert Open(q, ids) + {id} == Open(q, ids); }
  }

  /** The queue as the primary item is picked: putting the current item back and taking an item
      out by id, in terms of the queue it started from. */
  lemma PrimaryQueues(q: seq<Item>, cur: Item, r: DeliberationResult)
    requires DistinctIds(q) && !InQueue(q, cur.id)
    ensures var q1, p := Without(q, Inline(q, cur, r, r.inlineCompletedIds)), Effective(r)[0];
            var put := InsertSorted(q1, cur);
            DistinctIds(q1) && DistinctIds(Rest(q, cur, r))
            && (p != cur.id ==>
                  (InQueue(put, p) <==> InQueue(q, p))
                  && (InQueue(q, p) ==> put[IndexOf(put, p)] == q[IndexOf(q, p)] && q[IndexOf(q, p)].id == p
                                         && Remove(put, p) == Rest(q, cur, r))
                  && (!InQueue(q, p) ==> Remove(put, p) == put && InQueue(put, cur.id)
                                         && put[IndexOf(put, cur.id)] == cur && Remove(put, cur.id) == q1))
  {
    hide *;
    var done := Inline(q, cur, r, r.inlineCompletedIds);
    var q1, p := Without(q, done), Effective(r)[0];
    WithoutDistinct(q, done);
    InQueueWithout(q, done, cur.id);
    InQueueWithout(q, done, p);
    InlineSpares(q, cur, r);
    HasIsMembership(q1, cur.id);
    InsertKeepsDistinct(q1, cur);
    WithoutDistinct(InsertSorted(q1, cur), {p});
    RestIs(q, cur, r);
    if InQueue(q, p) { InQueueNamed(q, p); }
    if p != cur.id {
      InQueueInserted(q1, cur, p);
      InQueueInserted(q1, cur, cur.id);
      RemoveIsWithout(InsertSorted(q1, cur), p);
      if !InQueue(q, p) { RemoveAbsent(InsertSorted(q1, cur), p); }
      RemoveIsWithout(InsertSorted(q1, cur), cur.id);
      InsertThenWithout(q1, cur, {cur.id});
      RemoveIsWithout(q1, cur.id);
      RemoveAbsent(q1, cur.id);
    }
  }

  lemma RestIs(q: seq<Item>, cur: Item, r: DeliberationResult)
    ensures var q1, p := Without(q, Inline(q, cur, r, r.inlineCompletedIds)), Effective(r)[0];
            Rest(q, cur, r) == if p != cur.id && InQueue(q, p) then Without(InsertSorted(q1, cur), {p}) else q1
  {
  }

  lemma InlineSpares(q: seq<Item>, cur: Item, r: DeliberationResult)
    ensures Effective(r)[0] !in Inline(q, cur, r, r.inlineCompletedIds)
    ensures cur.id !in Inline(q, cur, r, r.inlineCompletedIds)
  {
  }

  lemma InQueueNamed(q: seq<Item>, id: ItemId)
    requires InQueue(q, id)
    ensures IndexOf(q, id) < |q| && q[IndexOf(q, id)] in q && q[IndexOf(q, id)].id == id
  {
  }

  lemma RemoveAbsent(q: seq<Item>, id: ItemId)
    requires !InQueue(q, id)
    ensures Remove(q, id) == q
  {
  }

  lemma InQueueInserted(q: seq<Item>, item: Item, id: ItemId)
    requires DistinctIds(q) && !Has(q, item.id)
    ensures var put := InsertSorted(q, item);
            (InQueue(put, id) <==> InQueue(q, id) || id == item.id)
            && (id == item.id ==> put[IndexOf(put, id)] == item)
            && (id != item.id && InQueue(q, id) ==> put[IndexOf(put, id)] == q[IndexOf(q, id)])
  {
    hide InsertSorted;
    var put := InsertSorted(q, item);
    InsertMembers(q, item);
    InsertKeepsDistinct(q, item);
    HasIsMembership(q, id);
    HasIsMembership(put, id);
    if InQueue(put, id) {
      assert put[IndexOf(put, id)] in put;
      if id == item.id {
        OneOfItsName(put, put[IndexOf(put, id)], item);
      } else if InQueue(q, id) {
        assert q[IndexOf(q, id)] in q;
        OneOfItsName(put, put[IndexOf(put, id)], q[IndexOf(q, id)]);
      }
    }
  }

  // ------------------------------------------------------------------------- where items end

  /** One item is in hand, the others are queued, and the persisted rows say so. */
  ghost predicate Ready(q: seq<Item>, rows: map<ItemId, Status>, cur: Item) {
    && DistinctIds(q)
    && !InQueue(q, cur.id)
    && cur.id in rows && rows[cur.id] == Processing
    && forall id :: InQueue(q, id) ==> id in rows && rows[id] == Queued
  }

  predicate Known(q: seq<Item>, cur: Item, id: ItemId) { id == cur.id || InQueue(q, id) }

  predicate Held(o: Outcome, id: ItemId) { id == o.chosen.id || InQueue(o.batch, id) }

  /** The row of an item that is neither held nor queued any more. */
  predicate SetAside(o: Outcome, id: ItemId, status: Status) {
    !Held(o, id) && !InQueue(o.queue, id) && id in o.rows && o.rows[id] == status
  }

  /** The six places an item can end in. */
  function Places(o: Outcome, id: ItemId): seq<bool> {
    [id == o.chosen.id, InQueue(o.batch, id), InQueue(o.queue, id),
     SetAside(o, id, Deferred), SetAside(o, id, Dropped), SetAside(o, id, Completed)]
  }

  function CountTrue(bs: seq<bool>): nat {
    if bs == [] then 0 else (if bs[0] then 1 else 0) + CountTrue(bs[1..])
  }

  /** A held or queued item is the very item it was before. */
  ghost predicate SameItems(q: seq<Item>, cur: Item, o: Outcome) {
    && (o.chosen == cur || o.chosen in q)
    && (forall x :: x in o.batch || x in o.queue ==> x == cur || x in q)
    && DistinctIds(o.batch) && DistinctIds(o.queue)
  }

  ghost predicate InOnePlace(q: seq<Item>, cur: Item, o: Outcome) {
    forall id :: if Known(q, cur, id) then CountTrue(Places(o, id)) == 1 else !Held(o, id) && !InQueue(o.queue, id)
  }

  /** Human chat, strict-state events and direct mentions of the queue are processed now or stay. */
  ghost predicate ProtectedAreKept(q: seq<Item>, o: Outcome) {
    forall x :: x in q && (x.humanChat || x.strict || x.directMention) ==> x == o.chosen || x in o.queue
  }

  /** The persisted row of a queued item says so; that of an item in hand says it is being
      processed, except when the result also asked to drop it. */
  ghost predicate RowsAgree(q: seq<Item>, r: DeliberationResult, o: Outcome) {
    && (forall x :: x in o.queue ==> x.id in o.rows && o.rows[x.id] == Queued)
    && (forall x :: x == o.chosen || x in o.batch ==>
          x.id in o.rows
          && (o.rows[x.id] == Dropped
              <==> x.id in r.dropItemIds && !(x in q && (x.humanChat || x.strict || x.directMention)))
          && (o.rows[x.id] == Dropped || o.rows[x.id] == Processing))
  }

  /** What protects an item is in the item itself. */
  lemma ProtectedIs(q: seq<Item>, x: Item)
    requires DistinctIds(q)
    ensures x in q ==> (Protected(q, x.id) <==> x.humanChat || x.strict || x.directMention)
    ensures !InQueue(q, x.id) ==> !Protected(q, x.id)
  {
    if x in q {
      HasIsMembership(q, x.id);
      OneOfItsName(q, x, q[IndexOf(q, x.id)]);
    }
  }

  predicate InRest(q: seq<Item>, cur: Item, r: DeliberationResult, id: ItemId) {
    if Swaps(q, cur, r) then
      id == cur.id
      || (InQueue(q, id) && id !in Inline(q, cur, r, r.inlineCompletedIds) && id != Effective(r)[0])
    else InQueue(q, id) && id !in Inline(q, cur, r, r.inlineCompletedIds)
  }

  function RowBefore(q: seq<Item>, cur: Item, r: DeliberationResult, id: ItemId): Status {
    if id == Chosen(q, cur, r).id then Processing
    else if id == cur.id then Queued
    else if id in Inline(q, cur, r, r.inlineCompletedIds) then Completed
    else Queued
  }

  lemma RestMember(q: seq<Item>, cur: Item, r: DeliberationResult, id: ItemId)
    requires DistinctIds(q) && !InQueue(q, cur.id)
    ensures InQueue(Rest(q, cur, r), id) <==> InRest(q, cur, r, id)
    ensures DistinctIds(Rest(q, cur, r))
  {
    hide *;
    var done := Inline(q, cur, r, r.inlineCompletedIds);
    var q1, p := Without(q, done), Effective(r)[0];
    PrimaryQueues(q, cur, r);
    InQueueWithout(q, done, id);
    InQueueWithout(q, done, cur.id);
    HasIsMembership(q1, cur.id);
    InQueueInserted(q1, cur, id);
    InsertKeepsDistinct(q1, cur);
    InQueueWithout(InsertSorted(q1, cur), {p}, id);
    RestIs(q, cur, r);
    InRestIs(q, cur, r, id);
  }

  lemma InRestIs(q: seq<Item>, cur: Item, r: DeliberationResult, id: ItemId)
    ensures InRest(q, cur, r, id)
            <==> if Effective(r)[0] != cur.id && InQueue(q, Effective(r)[0]) then
                   id == cur.id
                   || (InQueue(q, id) && id !in Inline(q, cur, r, r.inlineCompletedIds) && id != Effective(r)[0])
                 else InQueue(q, id) && id !in Inline(q, cur, r, r.inlineCompletedIds)
  {
  }

  lemma {:induction false} TakenMembers(q: seq<Item>, m: seq<Item>, ids: seq<ItemId>)
    requires DistinctIds(m)
    ensures forall x :: x in Taken(q, m, ids) <==> x in m && x.id in Open(q, ids)
    ensures DistinctIds(Taken(q, m, ids))
  {
    if ids == [] {
    } else {
      var init, id := ids[..|ids| - 1], ids[|ids| - 1];
      assert ids == init + [id];
      TakenMembers(q, m, init);
      OpenOneMore(q, init, id);
      OpenHas(q, init, id);
      TakenOneMore(q, m, init, id);
      TakenStep(m, Taken(q, m, init), Open(q, init), id);
      if id in Open(q, init) { assert Open(q, init) + {id} == Open(q, init); }
    }
  }

  lemma TakenStep(m: seq<Item>, t: seq<Item>, ids: set<ItemId>, id: ItemId)
    requires DistinctIds(m) && DistinctIds(t)
    requires forall x :: x in t <==> x in m && x.id in ids
    ensures id !in ids && InQueue(m, id) ==>
              DistinctIds(t + [m[IndexOf(m, id)]])
              && forall x :: x in t + [m[IndexOf(m, id)]] <==> x in m && x.id in ids + {id}
    ensures !InQueue(m, id) ==> forall x :: x in t <==> x in m && x.id in ids + {id}
  {
  }

  lemma TakenMember(q: seq<Item>, m: seq<Item>, ids: seq<ItemId>, id: ItemId)
    requires DistinctIds(m)
    ensures InQueue(Taken(q, m, ids), id) <==> InQueue(m, id) && id in Open(q, ids)
  {
    hide Taken, Open, DistinctIds, InQueue;
    TakenMembers(q, m, ids);
    HasIsMembership(m, id);
    HasIsMembership(Taken(q, m, ids), id);
  }

  lemma PrimaryRow(q: seq<Item>, rows: map<ItemId, Status>, cur: Item, r: DeliberationResult, id: ItemId)
    requires Ready(q, rows, cur) && Known(q, cur, id)
    ensures id in PrimaryRows(rows, q, cur, r) && PrimaryRows(rows, q, cur, r)[id] == RowBefore(q, cur, r, id)
  {
  }

  /** The last writer of a row decides. */
  lemma FinalRow(q: seq<Item>, rows: map<ItemId, Status>, cur: Item, r: DeliberationResult, id: ItemId)
    requires Ready(q, rows, cur) && Known(q, cur, id)
    ensures var m, b := InRest(q, cur, r, id), id in Open(q, Effective(r)[1..]);
            id in FinalRows(rows, q, cur, r)
            && FinalRows(rows, q, cur, r)[id]
               == if id in Open(q, r.dropItemIds) then Dropped
                  else if m && !b && id in Open(q, r.deferItemIds) then Deferred
                  else if m && b then Processing
                  else RowBefore(q, cur, r, id)
  {
    hide Rest, Open, PrimaryRows, InRest, RowBefore, Effective, InQueue, Without;
    var m, b := Rest(q, cur, r), Open(q, Effective(r)[1..]);
    PrimaryRow(q, rows, cur, r, id);
    RestMember(q, cur, r, id);
    InQueueWithout(m, b, id);
  }

  lemma FinalMember(q: seq<Item>, cur: Item, r: DeliberationResult, id: ItemId)
    requires DistinctIds(q) && !InQueue(q, cur.id)
    ensures InQueue(FinalQueue(q, cur, r), id)
            <==> InRest(q, cur, r, id) && id !in Open(q, Effective(r)[1..])
                 && id !in Open(q, r.deferItemIds) && id !in Open(q, r.dropItemIds)
    ensures InQueue(Taken(q, Rest(q, cur, r), Effective(r)[1..]), id)
            <==> InRest(q, cur, r, id) && id in Open(q, Effective(r)[1..])
    ensures DistinctIds(FinalQueue(q, cur, r))
  {
    hide Rest, Open, InRest, Effective, InQueue, Without, Taken, DistinctIds;
    RestMember(q, cur, r, id);
    var gone := Open(q, Effective(r)[1..]) + Open(q, r.deferItemIds) + Open(q, r.dropItemIds);
    InQueueWithout(Rest(q, cur, r), gone, id);
    WithoutDistinct(Rest(q, cur, r), gone);
    TakenMember(q, Rest(q, cur, r), Effective(r)[1..], id);
  }

  lemma PlaceOf(q: seq<Item>, rows: map<ItemId, Status>, cur: Item, r: DeliberationResult, id: ItemId)
    requires Ready(q, rows, cur)
    ensures var o := Deliberate(q, rows, cur, r);
            if Known(q, cur, id) then
              var m, b := InRest(q, cur, r, id), id in Open(q, Effective(r)[1..]);
              var later := id in Open(q, r.deferItemIds) || id in Open(q, r.dropItemIds);
              (InQueue(o.batch, id) <==> m && b)
              && (InQueue(o.queue, id) <==> m && !b && !later)
              && (id == o.chosen.id ==> !m)
              && (id != o.chosen.id && !m ==> id in Inline(q, cur, r, r.inlineCompletedIds) && id != cur.id)
              && (m ==> id == cur.id || id !in Inline(q, cur, r, r.inlineCompletedIds))
            else id != o.chosen.id && !InQueue(o.batch, id) && !InQueue(o.queue, id)
  {
    hide Rest, Open, Inline, Taken, DistinctIds, FinalQueue, FinalRows, Effective, InQueue;
    FinalMember(q, cur, r, id);
    InlineSpares(q, cur, r);
    if InQueue(q, Effective(r)[0]) { InQueueNamed(q, Effective(r)[0]); }
  }

  lemma OnePlace(q: seq<Item>, rows: map<ItemId, Status>, cur: Item, r: DeliberationResult, id: ItemId)
    requires Ready(q, rows, cur) && Known(q, cur, id)
    ensures CountTrue(Places(Deliberate(q, rows, cur, r), id)) == 1
  {
    hide Rest, Open, Inline, Taken, DistinctIds, FinalQueue, FinalRows, Effective, InQueue, InRest, Chosen, Ready,
         Deliberate, CountTrue;
    PlaceOf(q, rows, cur, r, id);
    FinalRow(q, rows, cur, r, id);
    DeliberatedRows(q, rows, cur, r);
    CountSix(Places(Deliberate(q, rows, cur, r), id));
  }

  lemma DeliberatedRows(q: seq<Item>, rows: map<ItemId, Status>, cur: Item, r: DeliberationResult)
    ensures Deliberate(q, rows, cur, r).rows == FinalRows(rows, q, cur, r)
    ensures Deliberate(q, rows, cur, r).chosen == Chosen(q, cur, r)
  {
  }

  function Bit(b: bool): nat { if b then 1 else 0 }

  lemma CountSix(b: seq<bool>)
    requires |b| == 6
    ensures CountTrue(b) == Bit(b[0]) + Bit(b[1]) + Bit(b[2]) + Bit(b[3]) + Bit(b[4]) + Bit(b[5])
  {
    var t := b[4..];
    assert b[1..][1..][1..][1..] == t && CountTrue(t[1..]) == Bit(b[5]) by { assert t[1..][1..] == []; }
    var u := b[1..];
    assert CountTrue(u) == Bit(u[0]) + CountTrue(u[1..]);
    assert u[1..][1..] == b[3..] && b[3..][1..] == t;
  }

  lemma RowOf(q: seq<Item>, rows: map<ItemId, Status>, cur: Item, r: DeliberationResult, id: ItemId)
    requires Ready(q, rows, cur)
    ensures var o := Deliberate(q, rows, cur, r);
            (InQueue(o.queue, id) ==> id in o.rows && o.rows[id] == Queued)
            && (Held(o, id) ==> id in o.rows
                                && o.rows[id] == if id in Open(q, r.dropItemIds) then Dropped else Processing)
  {
    hide Rest, Open, Inline, Taken, DistinctIds, FinalQueue, FinalRows, Effective, InQueue, InRest, Chosen, Ready,
         Deliberate;
    PlaceOf(q, rows, cur, r, id);
    DeliberatedRows(q, rows, cur, r);
    if Known(q, cur, id) { FinalRow(q, rows, cur, r, id); }
  }

  lemma ItemsStay(q: seq<Item>, rows: map<ItemId, Status>, cur: Item, r: DeliberationResult)
    requires Ready(q, rows, cur)
    ensures SameItems(q, cur, Deliberate(q, rows, cur, r))
  {
    hide Open, Inline, DistinctIds, Effective, Taken, Without, InsertSorted, FinalRows, Protected;
    var m := Rest(q, cur, r);
    RestMember(q, cur, r, cur.id);
    FinalMember(q, cur, r, cur.id);
    TakenMembers(q, m, Effective(r)[1..]);
    WithoutMembers(m, Open(q, Effective(r)[1..]) + Open(q, r.deferItemIds) + Open(q, r.dropItemIds));
    var q1 := Without(q, Inline(q, cur, r, r.inlineCompletedIds));
    WithoutMembers(q, Inline(q, cur, r, r.inlineCompletedIds));
    InsertMembers(q1, cur);
    WithoutMembers(InsertSorted(q1, cur), {Effective(r)[0]});
  }

  /** A protected item of the queue is not taken for the batch, put off, dropped or completed. */
  lemma ProtectedStays(q: seq<Item>, rows: map<ItemId, Status>, cur: Item, r: DeliberationResult, x: Item)
    requires Ready(q, rows, cur) && x in q && (x.humanChat || x.strict || x.directMention)
    ensures x == Deliberate(q, rows, cur, r).chosen || x in Deliberate(q, rows, cur, r).queue
  {
    hide Rest, Taken, FinalQueue, FinalRows, Effective, Deliberate, Protected;
    var o := Deliberate(q, rows, cur, r);
    ProtectedIs(q, x);
    HasIsMembership(q, x.id);
    PlaceOf(q, rows, cur, r, x.id);
    ItemsStay(q, rows, cur, r);
    if x.id == o.chosen.id {
    } else {
      HasIsMembership(o.queue, x.id);
      var y :| y in o.queue && y.id == x.id;
      assert y == x;
    }
  }

  /** The row of an item in hand or queued, by the item. */
  lemma RowOfItem(q: seq<Item>, rows: map<ItemId, Status>, cur: Item, r: DeliberationResult, x: Item)
    requires Ready(q, rows, cur)
    ensures var o := Deliberate(q, rows, cur, r);
            && (x in o.queue ==> x.id in o.rows && o.rows[x.id] == Queued)
            && (x == o.chosen || x in o.batch ==>
                  x.id in o.rows
                  && o.rows[x.id]
                     == if x.id in r.dropItemIds && !(x in q && (x.humanChat || x.strict || x.directMention))
                        then Dropped else Processing)
  {
    hide Deliberate, Open, Protected, InQueue, SameItems;
    var o := Deliberate(q, rows, cur, r);
    RowOf(q, rows, cur, r, x.id);
    ItemsStay(q, rows, cur, r);
    if x == o.chosen || x in o.batch || x in o.queue { SameItemsAre(q, cur, o, x); }
    HasIsMembership(o.queue, x.id);
    HasIsMembership(o.batch, x.id);
    OpenHas(q, r.dropItemIds, x.id);
    ReadyQueue(q, rows, cur);
    ProtectedIs(q, x);
  }

  lemma ReadyQueue(q: seq<Item>, rows: map<ItemId, Status>, cur: Item)
    requires Ready(q, rows, cur)
    ensures DistinctIds(q) && !InQueue(q, cur.id)
  {}

  lemma SameItemsAre(q: seq<Item>, cur: Item, o: Outcome, x: Item)
    requires SameItems(q, cur, o) && (x == o.chosen || x in o.batch || x in o.queue)
    ensures x == cur || x in q
  {}

  /** Whatever a deliberation result asks for, every item it could touch ends in exactly one
      place, the protected ones stay, and the rows agree, up to a drop of an item in hand. */
  lemma DeliberationConserves(q: seq<Item>, rows: map<ItemId, Status>, cur: Item, r: DeliberationResult)
    requires Ready(q, rows, cur)
    ensures var o := Deliberate(q, rows, cur, r);
            InOnePlace(q, cur, o) && SameItems(q, cur, o) && ProtectedAreKept(q, o) && RowsAgree(q, r, o)
  {
    hide Deliberate, Known, Held, InQueue, Places, CountTrue, Open, Protected, Ready, SameItems;
    var o := Deliberate(q, rows, cur, r);
    ItemsStay(q, rows, cur, r);
    forall id
      ensures if Known(q, cur, id) then CountTrue(Places(o, id)) == 1 else !Held(o, id) && !InQueue(o.queue, id)
    {
      if Known(q, cur, id) {
        OnePlace(q, rows, cur, r, id);
      } else {
        StrangersStayOut(q, rows, cur, r, id);
      }
    }
    forall x: Item { RowOfItem(q, rows, cur, r, x); }
    forall x | x in q && (x.humanChat || x.strict || x.directMention)
      ensures x == o.chosen || x in o.queue
    {
      ProtectedStays(q, rows, cur, r, x);
    }
  }

  lemma StrangersStayOut(q: seq<Item>, rows: map<ItemId, Status>, cur: Item, r: DeliberationResult, id: ItemId)
    requires Ready(q, rows, cur) && !Known(q, cur, id)
    ensures var o := Deliberate(q, rows, cur, r); !Held(o, id) && !InQueue(o.queue, id)
  {
    hide Deliberate, Known, InQueue, Ready;
    PlaceOf(q, rows, cur, r, id);
  }

  lemma IdGoesWhereItIsSent(q: seq<Item>, rows: map<ItemId, Status>, cur: Item, r: DeliberationResult, id: ItemId)
    requires Ready(q, rows, cur) && Known(q, cur, id)
    ensures var o, open := Deliberate(q, rows, cur, r), !Protected(q, id);
            && (Known(q, cur, Effective(r)[0]) ==> o.chosen.id == Effective(r)[0])
            && (!Known(q, cur, Effective(r)[0]) ==> o.chosen == cur)
            && (id != o.chosen.id ==>
                  if open && id in Effective(r)[1..] then InQueue(o.batch, id)
                  else if open && id in r.dropItemIds then SetAside(o, id, Dropped)
                  else if Inlined(q, cur, r, id) && id in r.inlineCompletedIds then SetAside(o, id, Completed)
                  else if open && id in r.deferItemIds then SetAside(o, id, Deferred)
                  else InQueue(o.queue, id))
  {
    hide Rest, Taken, DistinctIds, FinalQueue, FinalRows, InQueue, InRest, Ready, Deliberate, Effective, Protected,
         Inlined, Chosen;
    PlaceOf(q, rows, cur, r, id);
    FinalRow(q, rows, cur, r, id);
    DeliberatedRows(q, rows, cur, r);
    ChosenIs(q, cur, r);
    OpenHas(q, Effective(r)[1..], id);
    InlinedIs(q, cur, r, id);
    InFirst(Effective(r), id);
  }

  /** An item that is held by nobody and queued no more, with what its row says. */
  ghost predicate Away(o: Outcome, x: Item, status: Status) {
    x != o.chosen && x !in o.batch && x !in o.queue && x.id in o.rows && o.rows[x.id] == status
  }

  /** An item goes where the result sends it. The one to process is the first of the batch that is
      named, or the single one if no batch is. For every other item a place further down the batch
      comes first, then a drop, then an inline completion, then a deferral; the rest stay queued. None
      of the four takes effect on a queued human chat, strict-state event or direct mention, and the
      item in hand is not completed inline. */
  lemma ItemsGoWhereTheyAreSent(q: seq<Item>, rows: map<ItemId, Status>, cur: Item, r: DeliberationResult, x: Item)
    requires Ready(q, rows, cur) && (x == cur || x in q)
    ensures var o := Deliberate(q, rows, cur, r);
            var ids := if r.processItemIds != [] then r.processItemIds else [r.processItemId];
            var guarded := x in q && (x.humanChat || x.strict || x.directMention);
            && (x.id == ids[0] ==> o.chosen == x)
            && ((forall y :: y == cur || y in q ==> y.id != ids[0]) ==> o.chosen == cur)
            && (x != o.chosen ==>
                  if !guarded && x.id in ids[1..] then x in o.batch
                  else if !guarded && x.id in r.dropItemIds then Away(o, x, Dropped)
                  else if !guarded && x != cur && x.id !in ids && x.id in r.inlineCompletedIds then
                    Away(o, x, Completed)
                  else if !guarded && x.id in r.deferItemIds then Away(o, x, Deferred)
                  else x in o.queue)
  {
    hide Rest, Taken, FinalQueue, FinalRows, InRest, Deliberate, Protected, Chosen, Inlined;
    var o := Deliberate(q, rows, cur, r);
    ReadyQueue(q, rows, cur);
    HasIsMembership(q, x.id);
    HasIsMembership(q, cur.id);
    IdGoesWhereItIsSent(q, rows, cur, r, x.id);
    InlinedIs(q, cur, r, x.id);
    ProtectedIs(q, x);
    ItemsStay(q, rows, cur, r);
    ByItsName(q, cur, o.batch, x);
    ByItsName(q, cur, o.queue, x);
    ByItsName(q, cur, [o.chosen], x);
    assert InQueue([o.chosen], x.id) <==> o.chosen.id == x.id;
    if !Known(q, cur, Effective(r)[0]) { assert o.chosen == cur; }
    HasIsMembership(q, Effective(r)[0]);
  }

  /** Among the items there are, the one of that name is that item. */
  lemma ByItsName(q: seq<Item>, cur: Item, part: seq<Item>, x: Item)
    requires DistinctIds(q) && !InQueue(q, cur.id) && (x == cur || x in q)
    requires forall y :: y in part ==> y == cur || y in q
    ensures InQueue(part, x.id) <==> x in part
  {
    HasIsMembership(part, x.id);
    HasIsMembership(q, cur.id);
    if InQueue(part, x.id) {
      var y :| y in part && y.id == x.id;
      if x in q && y in q { OneOfItsName(q, x, y); }
    }
  }

  // ----------------------------------------------------------------------------------- their order

  lemma {:induction false} WithoutSorted(q: seq<Item>, ids: set<ItemId>)
    requires Sorted(q)
    ensures Sorted(Without(q, ids))
  {
    if q != [] {
      var t := Without(q[1..], ids);
      WithoutSorted(q[1..], ids);
      WithoutMembers(q[1..], ids);
      assert forall x :: x in q[1..] ==> q[0].priority <= x.priority;
      assert forall j :: 0 <= j < |t| ==> t[j] in t;
    }
  }

  /** `a` is named, and `b` is not named up to there. */
  ghost predicate NamedBefore(ids: seq<ItemId>, a: ItemId, b: ItemId) {
    exists i :: 0 <= i < |ids| && ids[i] == a && forall j :: 0 <= j <= i ==> ids[j] != b
  }

  /** Of two items of the batch the one that is named first comes first. */
  ghost predicate InOrderOf(batch: seq<Item>, ids: seq<ItemId>) {
    forall a, b :: 0 <= a < b < |batch| ==> NamedBefore(ids, batch[a].id, batch[b].id)
  }

  lemma StillNamedBefore(ids: seq<ItemId>, id: ItemId, a: ItemId, b: ItemId)
    requires NamedBefore(ids, a, b)
    ensures NamedBefore(ids + [id], a, b)
  {
    var i :| 0 <= i < |ids| && ids[i] == a && forall j :: 0 <= j <= i ==> ids[j] != b;
    assert (ids + [id])[i] == a;
  }

  lemma LastNamed(ids: seq<ItemId>, a: ItemId, b: ItemId)
    requires a in ids && b !in ids
    ensures NamedBefore(ids + [b], a, b)
  {
    var i :| 0 <= i < |ids| && ids[i] == a;
    assert (ids + [b])[i] == a;
    assert forall j :: 0 <= j <= i ==> (ids + [b])[j] in ids;
  }

  lemma {:induction false} TakenInOrder(q: seq<Item>, m: seq<Item>, ids: seq<ItemId>)
    requires DistinctIds(m)
    ensures InOrderOf(Taken(q, m, ids), ids)
  {
    hide Open, Protected, DistinctIds, NamedBefore;
    if ids != [] {
      var init, id := ids[..|ids| - 1], ids[|ids| - 1];
      assert ids == init + [id];
      TakenInOrder(q, m, init);
      TakenMembers(q, m, init);
      TakenOneMore(q, m, init, id);
      var t, more := Taken(q, m, init), Taken(q, m, ids);
      forall a, b | 0 <= a < b < |more|
        ensures NamedBefore(ids, more[a].id, more[b].id)
      {
        assert more[a] == t[a] && t[a] in t;
        OpenHas(q, init, t[a].id);
        if b < |t| { StillNamedBefore(init, id, t[a].id, t[b].id); } else { LastNamed(init, t[a].id, id); }
      }
    }
  }

  /** The queue stays in priority order, and the batch is in the order in which it was named. */
  lemma DeliberationKeepsOrder(q: seq<Item>, rows: map<ItemId, Status>, cur: Item, r: DeliberationResult)
    requires Ready(q, rows, cur)
    ensures var o := Deliberate(q, rows, cur, r);
            && (Sorted(q) ==> Sorted(o.queue))
            && InOrderOf(o.batch, if r.processItemIds != [] then r.processItemIds[1..] else [])
  {
    hide Without, InsertSorted, Sorted, Open, Inline, Taken, FinalRows, DistinctIds, InOrderOf;
    ReadyQueue(q, rows, cur);
    RestMember(q, cur, r, cur.id);
    TakenInOrder(q, Rest(q, cur, r), Effective(r)[1..]);
    assert [r.processItemId][1..] == [];
    if Sorted(q) {
      var done, p := Inline(q, cur, r, r.inlineCompletedIds), Effective(r)[0];
      WithoutSorted(q, done);
      InsertKeepsOrder(Without(q, done), cur);
      WithoutSorted(InsertSorted(Without(q, done), cur), {p});
      WithoutSorted(Rest(q, cur, r),
                    Open(q, Effective(r)[1..]) + Open(q, r.deferItemIds) + Open(q, r.dropItemIds));
    }
  }

  lemma InFirst(ids: seq<ItemId>, id: ItemId)
    requires ids != []
    ensures id in ids <==> id == ids[0] || id in ids[1..]
  {
  }

  lemma ChosenIs(q: seq<Item>, cur: Item, r: DeliberationResult)
    ensures var p := Effective(r)[0];
            && (Known(q, cur, p) ==> Chosen(q, cur, r).id == p)
            && (!Known(q, cur, p) ==> Chosen(q, cur, r) == cur)
  {
  }

  /** The item in hand is protected by nothing: one put back in favour of another is dropped when
      the result says so, a direct mention or not; and dropping the very item that is to be
      processed next marks its row dropped while it is being processed. */
  lemma TheItemInHandCanBeDropped(cur: Item, other: Item, rows: map<ItemId, Status>)
    requires cur.id != other.id && Ready([other], rows, cur)
    ensures var o := Deliberate([other], rows, cur, DeliberationResult([], other.id, [], [], [cur.id]));
            o.chosen == other && SetAside(o, cur.id, Dropped)
    ensures var o := Deliberate([other], rows, cur, DeliberationResult([], cur.id, [], [], [cur.id]));
            o.chosen == cur && o.rows[cur.id] == Dropped
  {
    assert IndexOf([other], other.id) == 0;
    assert !InQueue([other], cur.id);
    InHandAway(cur, other, rows, DeliberationResult([], other.id, [], [], [cur.id]));
    InHandAway(cur, other, rows, DeliberationResult([], cur.id, [], [], [cur.id]));
  }

  lemma InHandAway(cur: Item, other: Item, rows: map<ItemId, Status>, r: DeliberationResult)
    requires cur.id != other.id && Ready([other], rows, cur) && !InQueue([other], cur.id)
    requires |Effective(r)| == 1 && r.dropItemIds == [cur.id]
    ensures var o := Deliberate([other], rows, cur, r);
            cur.id in o.rows && o.rows[cur.id] == Dropped && !InQueue(o.batch, cur.id) && !InQueue(o.queue, cur.id)
  {
    hide Rest, Taken, FinalQueue, FinalRows, Deliberate, InRest;
    PlaceOf([other], rows, cur, r, cur.id);
    FinalRow([other], rows, cur, r, cur.id);
    DeliberatedRows([other], rows, cur, r);
    assert cur.id in Open([other], r.dropItemIds);
    assert Effective(r)[1..] == [];
  }
}
