/** Processing one mailbox item with full focus, in serial mode: however the attempt ends, the
    item gets exactly one disposition. Time appears only as "the backstop fired" and "the turn
    did or did not end within the grace period". */
module Disposition {
  import opened Mailbox
  import opened Prelude

  const MAX_RETRIES: nat := 2
  const CANCELLED := "[cancelled]"
  const PREEMPTED := "[preempted]"
  const END_TURN := "[end_turn]"

  /** How the delegate's promise ends. Without a delegate the race yields nothing and nothing is
      in flight, which is the same as a timeout that settled. */
  datatype Attempt = Replied(reply: Option<string>) | Threw | TimedOut(settled: bool)

  /** The last decision taken at a yield point while the item was in focus. */
  datatype YieldDecision = NoDecision | Continue | Preempt | Cancel

  /** What happens around one attempt: its end, the yield decision, and whether the agent is
      still running when it ends. */
  datatype Ending = Ending(attempt: Attempt, yielded: YieldDecision, running: bool)

  function DetectAbnormalCompletion(reply: Option<string>, item: Item): bool {
    if !item.invokesLLM then false
    else if reply == Some(PREEMPTED) || reply == Some(CANCELLED) then false
    else if reply == Some(END_TURN) then false
    else reply.None? || reply == Some("")
  }

  // ------------------------------------------------------- the rules, one verdict at a time

  predicate Says(e: Ending, text: string) { e.attempt.Replied? && e.attempt.reply == Some(text) }

  predicate Cancelled(e: Ending) { Says(e, CANCELLED) || e.yielded == Cancel }

  predicate Preempted(e: Ending) { Says(e, PREEMPTED) || e.yielded == Preempt }

  /** Nothing was produced: no reply, an empty one, or an exception. */
  predicate Silent(e: Ending) {
    e.attempt.Threw? || (e.attempt.Replied? && (e.attempt.reply.None? || e.attempt.reply == Some("")))
  }

  /** The attempt came to an end that neither a timeout nor a yield point explains. */
  predicate RanOut(e: Ending) { !e.attempt.TimedOut? && !Cancelled(e) && !Preempted(e) }

  predicate Abnormal(e: Ending, item: Item) { RanOut(e) && e.running && item.invokesLLM && Silent(e) }

  predicate CompletesItem(e: Ending, item: Item) {
    RanOut(e) && e.running && !(item.invokesLLM && Silent(e))
  }

  predicate DefersItem(e: Ending) { !e.attempt.TimedOut? && !Cancelled(e) && Preempted(e) }

  predicate RequeuesItem(e: Ending, item: Item) {
    || (e.attempt.TimedOut? && e.attempt.settled)
    || (RanOut(e) && !e.running)
    || (Abnormal(e, item) && !item.humanChat && item.retryCount < MAX_RETRIES)
  }

  predicate DropsItem(e: Ending, item: Item) {
    || (e.attempt.TimedOut? && !e.attempt.settled)
    || (!e.attempt.TimedOut? && Cancelled(e))
    || (Abnormal(e, item) && (item.humanChat || item.retryCount >= MAX_RETRIES))
  }

  /** What happens to an item that is processed in a batch with another one. */
  predicate CompletesBatch(e: Ending) { RanOut(e) }

  /** The mailbox after one verdict. */
  function Settle(q: seq<Item>, rows: map<ItemId, Status>, item: Item, v: Verdict): (seq<Item>, map<ItemId, Status>) {
    match v
    case Complete => (Remove(q, item.id), rows[item.id := Completed])
    case Drop => (Remove(q, item.id), rows[item.id := Dropped])
    case Defer => (q, rows[item.id := Deferred])
    case Requeue =>
      (InsertSorted(q, item.(retryCount := item.retryCount + 1)), rows[item.id := Queued])
  }

  function SettleAll(q: seq<Item>, rows: map<ItemId, Status>, items: seq<Item>, v: Verdict):
    (seq<Item>, map<ItemId, Status>)
  {
    if items == [] then (q, rows)
    else
      var before := SettleAll(q, rows, items[..|items| - 1], v);
      Settle(before.0, before.1, items[|items| - 1], v)
  }

  /** The mailbox after an item and its batch. */
  function SettleBoth(q: seq<Item>, rows: map<ItemId, Status>, item: Item, batch: seq<Item>, e: Ending, v: Verdict):
    (seq<Item>, map<ItemId, Status>)
  {
    var own := Settle(q, rows, item, v);
    SettleAll(own.0, own.1, batch, if CompletesBatch(e) then Complete else Requeue)
  }

  lemma SettleOneMore(q: seq<Item>, rows: map<ItemId, Status>, items: seq<Item>, x: Item, v: Verdict)
    ensures var before := SettleAll(q, rows, items, v);
            SettleAll(q, rows, items + [x], v) == Settle(before.0, before.1, x, v)
  {
  }

  class AttentionController {
    const mailbox: AgentMailbox
    var currentFocus: Option<Item>
    var interruptSignal: bool
    var pendingInterruptItem: Option<Item>
    var lastYieldDecision: YieldDecision
    var pendingBatchItems: seq<Item>
    var running: bool

    constructor (m: AgentMailbox)
      ensures mailbox == m && pendingBatchItems == [] && currentFocus.None?
    {
      mailbox := m;
      currentFocus, pendingInterruptItem := None, None;
      interruptSignal, running := false, true;
      lastYieldDecision := NoDecision;
      pendingBatchItems := [];
    }

    /** The branches after the attempt. The last-resort completion is never reached. */
    method ResolveStatus(item: Item, e: Ending)
      requires lastYieldDecision == e.yielded && running == e.running
      modifies mailbox`queue, mailbox`rows
      ensures forall v :: Ends(e, item, v) ==>
                (mailbox.queue, mailbox.rows) == Settle(old(mailbox.queue), old(mailbox.rows), item, v)
    {
      hide InsertSorted, Remove;
      var reply: Option<string> := None;
      var timedOut, orphanAbandoned := false, false;
      if e.attempt.Replied? {
        reply := e.attempt.reply;
      } else if e.attempt.TimedOut? {
        timedOut := true;
        orphanAbandoned := !e.attempt.settled;
      }
      var statusResolved := false;
      if timedOut {
        if orphanAbandoned {
          mailbox.Drop(item.id);
        } else {
          mailbox.Requeue(item);
        }
        statusResolved := true;
      } else if reply == Some(CANCELLED) || lastYieldDecision == Cancel {
        mailbox.Drop(item.id);
        statusResolved := true;
      } else if reply == Some(PREEMPTED) || lastYieldDecision == Preempt {
        mailbox.DeferDequeued(item);
        statusResolved := true;
      } else if !running {
        mailbox.Requeue(item);
        statusResolved := true;
      } else {
        var abnormal := DetectAbnormalCompletion(reply, item);
        if abnormal && item.retryCount < MAX_RETRIES {
          if item.humanChat {
            mailbox.Drop(item.id);
          } else {
            mailbox.Requeue(item);
          }
        } else if abnormal {
          mailbox.Drop(item.id);
        } else {
          mailbox.Complete(item.id);
        }
        statusResolved := true;
      }
      if !statusResolved {
        assert false;
      }
    }

    method FinishBatch(batch: seq<Item>, e: Ending)
      requires lastYieldDecision == e.yielded
      modifies mailbox`queue, mailbox`rows
      ensures (mailbox.queue, mailbox.rows)
              == SettleAll(old(mailbox.queue), old(mailbox.rows), batch,
                           if CompletesBatch(e) then Complete else Requeue)
    {
      hide SettleAll, CompletesBatch, InsertSorted, Remove;
      ghost var q, rows := mailbox.queue, mailbox.rows;
      ghost var v := if CompletesBatch(e) then Complete else Requeue;
      CompletesBatchIs(e);
      var wasSuccessful := !e.attempt.TimedOut?
                           && !(e.attempt.Replied? && e.attempt.reply == Some(CANCELLED))
                           && !(e.attempt.Replied? && e.attempt.reply == Some(PREEMPTED))
                           && lastYieldDecision != Cancel && lastYieldDecision != Preempt;
      SettleNone(q, rows, v);
      for i := 0 to |batch|
        invariant (mailbox.queue, mailbox.rows) == SettleAll(q, rows, batch[..i], v)
      {
        assert batch[..i + 1] == batch[..i] + [batch[i]];
        SettleOneMore(q, rows, batch[..i], batch[i], v);
        if wasSuccessful {
          mailbox.Complete(batch[i].id);
        } else {
          mailbox.Requeue(batch[i]);
        }
      }
      assert batch[..|batch|] == batch;
    }

    method ProcessFocusedItem(item: Item, e: Ending)
      modifies this, mailbox`queue, mailbox`rows
      ensures forall v :: Ends(e, item, v) ==>
                (mailbox.queue, mailbox.rows)
                == SettleBoth(old(mailbox.queue), old(mailbox.rows), item, old(pendingBatchItems), e, v)
      ensures currentFocus.None? && !interruptSignal && pendingInterruptItem.None? && pendingBatchItems == []
    {
      hide Settle, SettleAll, Ends;
      currentFocus := Some(item);
      interruptSignal, pendingInterruptItem, lastYieldDecision := false, None, NoDecision;
      var batchItems := pendingBatchItems;
      pendingBatchItems := [];
      // The turn runs here: a yield point may decide, and the agent may be stopped.
      lastYieldDecision, running := e.yielded, e.running;
      ResolveStatus(item, e);
      FinishBatch(batchItems, e);
      currentFocus, interruptSignal, pendingInterruptItem := None, false, None;
    }
  }

  lemma CompletesBatchIs(e: Ending)
    ensures CompletesBatch(e)
            <==> !e.attempt.TimedOut? && !(e.attempt.Replied? && e.attempt.reply == Some(CANCELLED))
                 && !(e.attempt.Replied? && e.attempt.reply == Some(PREEMPTED))
                 && e.yielded != Cancel && e.yielded != Preempt
  {
  }

  /** The attempt is known to be over. */
  predicate Over(e: Ending) { !(e.attempt.TimedOut? && !e.attempt.settled) }

  // ------------------------------------------------------------------------ items in a batch

  lemma SettleNone(q: seq<Item>, rows: map<ItemId, Status>, v: Verdict)
    ensures SettleAll(q, rows, [], v) == (q, rows)
  {
  }

  predicate Ends(e: Ending, item: Item, v: Verdict) {
    match v
    case Complete => CompletesItem(e, item)
    case Drop => DropsItem(e, item)
    case Defer => DefersItem(e)
    case Requeue => RequeuesItem(e, item)
  }

  /** The rules leave no gap and no overlap: every ending has exactly one verdict, whatever the
      item, so the last-resort completion has nothing left to complete. */
  lemma ExactlyOneVerdict(e: Ending, item: Item)
    ensures exists v :: Ends(e, item, v)
    ensures forall v, w :: Ends(e, item, v) && Ends(e, item, w) ==> v == w
  {
    if e.attempt.TimedOut? {
      assert Ends(e, item, if e.attempt.settled then Requeue else Drop);
    } else if Cancelled(e) {
      assert Ends(e, item, Drop);
    } else if Preempted(e) {
      assert Ends(e, item, Defer);
    } else if !e.running {
      assert Ends(e, item, Requeue);
    } else if item.invokesLLM && Silent(e) {
      assert Ends(e, item, if item.humanChat || item.retryCount >= MAX_RETRIES then Drop else Requeue);
    } else {
      assert Ends(e, item, Complete);
    }
  }

  ghost predicate AllCompleted(q: seq<Item>, rows: map<ItemId, Status>, batch: seq<Item>) {
    forall x :: x in batch ==> !Has(q, x.id) && x.id in rows && rows[x.id] == Completed
  }

  ghost predicate AllBackInLine(q: seq<Item>, rows: map<ItemId, Status>, batch: seq<Item>) {
    forall x :: x in batch ==>
      x.(retryCount := x.retryCount + 1) in q && x.id in rows && rows[x.id] == Queued
  }

  /** A batch is finished as one: all of it completed, or all of it back in line with the
      attempt counted, and nothing else in the queue is touched. */
  lemma BatchSharesOneFate(q: seq<Item>, rows: map<ItemId, Status>, batch: seq<Item>, e: Ending)
    requires DistinctIds(batch) && forall x :: x in batch ==> !Has(q, x.id)
    ensures var r := SettleAll(q, rows, batch, if CompletesBatch(e) then Complete else Requeue);
            if CompletesBatch(e) then AllCompleted(r.0, r.1, batch) && r.0 == q
            else AllBackInLine(r.0, r.1, batch) && forall x :: x in q ==> x in r.0
  {
    hide *;
    CompletedTogether(q, rows, batch);
    BackInLineTogether(q, rows, batch);
  }

  lemma {:induction false} CompletedTogether(q: seq<Item>, rows: map<ItemId, Status>, batch: seq<Item>)
    requires DistinctIds(batch) && forall x :: x in batch ==> !Has(q, x.id)
    ensures var r := SettleAll(q, rows, batch, Complete); r.0 == q && AllCompleted(q, r.1, batch)
  {
    hide Has, DistinctIds, IndexOf;
    if batch != [] {
      var init, x := batch[..|batch| - 1], batch[|batch| - 1];
      assert batch == init + [x];
      LastIsNew(init, x);
      CompletedTogether(q, rows, init);
      NotThere(q, x);
      assert forall y :: y in batch <==> y in init || y == x;
    }
  }

  lemma NotThere(q: seq<Item>, x: Item)
    requires !Has(q, x.id)
    ensures Remove(q, x.id) == q
  {
  }

  lemma {:induction false} BackInLineTogether(q: seq<Item>, rows: map<ItemId, Status>, batch: seq<Item>)
    requires DistinctIds(batch)
    ensures var r := SettleAll(q, rows, batch, Requeue);
            AllBackInLine(r.0, r.1, batch) && forall x :: x in q ==> x in r.0
  {
    hide Has, DistinctIds, InsertSorted;
    if batch != [] {
      var init, x := batch[..|batch| - 1], batch[|batch| - 1];
      assert batch == init + [x];
      LastIsNew(init, x);
      BackInLineTogether(q, rows, init);
      var before := SettleAll(q, rows, init, Requeue);
      BackInLineOneMore(before.0, before.1, init, x);
    }
  }

  lemma BackInLineOneMore(q: seq<Item>, rows: map<ItemId, Status>, init: seq<Item>, x: Item)
    requires AllBackInLine(q, rows, init)
    requires forall y :: y in init ==> y.id != x.id
    ensures var r := Settle(q, rows, x, Requeue);
            AllBackInLine(r.0, r.1, init + [x]) && forall y :: y in q ==> y in r.0
  {
  }

  lemma LastIsNew(init: seq<Item>, x: Item)
    requires DistinctIds(init + [x])
    ensures DistinctIds(init)
    ensures forall y :: y in init ==> y.id != x.id
  {
    var all := init + [x];
    assert all[|init|] == x;
    assert forall i :: 0 <= i < |init| ==> all[i] == init[i];
  }

  lemma {:induction false} OthersAreSpared(q: seq<Item>, rows: map<ItemId, Status>, batch: seq<Item>, v: Verdict,
                                           id: ItemId)
    requires forall x :: x in batch ==> x.id != id
    ensures var r := SettleAll(q, rows, batch, v);
            && (id in rows ==> id in r.1 && r.1[id] == rows[id])
            && (v.Requeue? ==> (Has(r.0, id) <==> Has(q, id)))
  {
    hide Has, InsertSorted, Remove;
    if batch != [] {
      var init, x := batch[..|batch| - 1], batch[|batch| - 1];
      assert batch == init + [x];
      OthersAreSpared(q, rows, init, v, id);
      InsertedHas(SettleAll(q, rows, init, v).0, x.(retryCount := x.retryCount + 1), id);
    }
  }

  lemma InsertedHas(q: seq<Item>, x: Item, id: ItemId)
    ensures Has(InsertSorted(q, x), id) <==> x.id == id || Has(q, id)
  {
    hide Has, InsertSorted;
    HasIsMembership(q, id);
    HasIsMembership(InsertSorted(q, x), id);
    InsertMembers(q, x);
  }

  lemma OwnSettled(q: seq<Item>, rows: map<ItemId, Status>, item: Item, e: Ending, v: Verdict)
    requires Ends(e, item, v) && !Has(q, item.id)
    ensures var own := Settle(q, rows, item, v);
            && item.id in own.1 && (own.1[item.id] == Completed <==> CompletesItem(e, item))
            && (own.1[item.id] == Dropped <==> DropsItem(e, item))
            && (Has(own.0, item.id) <==> RequeuesItem(e, item))
            && forall id :: Has(own.0, id) ==> id == item.id || Has(q, id)
  {
    hide *;
    ExactlyOneVerdict(e, item);
    NotThere(q, item);
    VerdictIs(e, item);
    SettleIs(q, rows, item, v);
    forall id ensures Has(InsertSorted(q, item.(retryCount := item.retryCount + 1)), id)
                      <==> item.id == id || Has(q, id) {
      InsertedHas(q, item.(retryCount := item.retryCount + 1), id);
    }
  }

  lemma VerdictIs(e: Ending, item: Item)
    ensures Ends(e, item, Complete) == CompletesItem(e, item) && Ends(e, item, Drop) == DropsItem(e, item)
    ensures Ends(e, item, Defer) == DefersItem(e) && Ends(e, item, Requeue) == RequeuesItem(e, item)
  {}

  lemma SettleIs(q: seq<Item>, rows: map<ItemId, Status>, item: Item, v: Verdict)
    ensures Settle(q, rows, item, v)
            == match v
               case Complete => (Remove(q, item.id), rows[item.id := Completed])
               case Drop => (Remove(q, item.id), rows[item.id := Dropped])
               case Defer => (q, rows[item.id := Deferred])
               case Requeue =>
                 (InsertSorted(q, item.(retryCount := item.retryCount + 1)), rows[item.id := Queued])
  {}

  /** Where an item and its batch part ways. An item is run again only when its turn is known to be
      over: when the turn outlives the grace period the item is dropped, but its batch goes back in
      line. And the batch is completed while the item is not exactly when the agent had been stopped
      or nothing was produced for an item that asks for a reply. */
  lemma ItemAndBatchPartWays(q: seq<Item>, rows: map<ItemId, Status>, item: Item, batch: seq<Item>, e: Ending,
                             v: Verdict)
    requires Ends(e, item, v) && !Has(q, item.id) && batch != []
    requires DistinctIds(batch) && forall x :: x in batch ==> x.id != item.id && !Has(q, x.id)
    ensures var r := SettleBoth(q, rows, item, batch, e, v);
            && item.id in r.1
            && (Has(r.0, item.id) ==> Over(e))
            && (!Over(e) ==> r.1[item.id] == Dropped && AllBackInLine(r.0, r.1, batch))
            && (AllCompleted(r.0, r.1, batch) && r.1[item.id] != Completed
                <==> RanOut(e) && (!e.running || (item.invokesLLM && Silent(e))))
  {
    hide *;
    var own := Settle(q, rows, item, v);
    OwnSettled(q, rows, item, e, v);
    BatchSharesOneFate(own.0, own.1, batch, e);
    SettleBothIs(q, rows, item, batch, e, v);
    var r := SettleBoth(q, rows, item, batch, e, v);
    OthersAreSpared(own.0, own.1, batch, if CompletesBatch(e) then Complete else Requeue, item.id);
    assert batch[0] in batch;
    NotBoth(r.0, r.1, batch);
    RulesOfTheBatch(e, item);
  }

  lemma SettleBothIs(q: seq<Item>, rows: map<ItemId, Status>, item: Item, batch: seq<Item>, e: Ending, v: Verdict)
    ensures var own := Settle(q, rows, item, v);
            SettleBoth(q, rows, item, batch, e, v)
            == SettleAll(own.0, own.1, batch, if CompletesBatch(e) then Complete else Requeue)
  {}

  lemma NotBoth(q: seq<Item>, rows: map<ItemId, Status>, batch: seq<Item>)
    requires batch != []
    ensures !(AllCompleted(q, rows, batch) && AllBackInLine(q, rows, batch))
  {
    assert batch[0] in batch;
  }

  lemma RulesOfTheBatch(e: Ending, item: Item)
    ensures RequeuesItem(e, item) ==> Over(e)
    ensures !Over(e) ==> DropsItem(e, item) && !CompletesBatch(e)
    ensures CompletesBatch(e) && !CompletesItem(e, item)
            <==> RanOut(e) && (!e.running || (item.invokesLLM && Silent(e)))
  {}

  // ----------------------------------------------------------------------------- bounded retry

  /** The item as it stands in the queue after these attempts, if it still does. */
  function Life(item: Item, es: seq<Ending>): Option<Item>
    decreases es
  {
    if es == [] then Some(item)
    else if RequeuesItem(es[0], item) then Life(item.(retryCount := item.retryCount + 1), es[1..])
    else None
  }

  /** Sent back without any fault of the turn: a timeout that settled, or a stopped agent. */
  predicate Interrupted(e: Ending) {
    (e.attempt.TimedOut? && e.attempt.settled) || (RanOut(e) && !e.running)
  }

  /** The attempt numbered `n` sends the item back. */
  predicate SendsBack(e: Ending, item: Item, n: nat) {
    Interrupted(e) || (Abnormal(e, item) && !item.humanChat && n < MAX_RETRIES)
  }

  ghost predicate AllSendBack(item: Item, es: seq<Ending>) {
    forall i :: 0 <= i < |es| ==> SendsBack(es[i], item, item.retryCount + i)
  }

  /** An item is still in line after a run of attempts exactly when each of them was interrupted,
      or was an abnormal end of a background item within the first MAX_RETRIES attempts of
      any kind: interruptions use up the retries but are not limited by them. */
  lemma {:induction false} SurvivesExactlyWhen(item: Item, es: seq<Ending>)
    ensures Life(item, es).Some? <==> AllSendBack(item, es)
    ensures Life(item, es).Some? ==> Life(item, es).value == item.(retryCount := item.retryCount + |es|)
    decreases es
  {
    if es != [] {
      var next := item.(retryCount := item.retryCount + 1);
      SurvivesExactlyWhen(next, es[1..]);
      if AllSendBack(item, es) {
        assert SendsBack(es[0], item, item.retryCount);
        forall i | 0 <= i < |es[1..]|
          ensures SendsBack(es[1..][i], next, next.retryCount + i)
        {
          assert SendsBack(es[i + 1], item, item.retryCount + (i + 1));
        }
      }
    }
  }

  /** A fresh background item whose attempts only end abnormally is gone with the third one;
      a human chat message is gone with the first. */
  lemma AbnormalAttemptsAreBounded(item: Item, es: seq<Ending>)
    requires item.retryCount == 0
    requires forall i :: 0 <= i < |es| ==> Abnormal(es[i], item)
    ensures Life(item, es).Some? <==> |es| <= if item.humanChat then 0 else 2
  {
    SurvivesExactlyWhen(item, es);
    if |es| > 0 {
      assert SendsBack(es[0], item, 0) <==> !item.humanChat;
      assert SendsBack(es[|es| - 1], item, |es| - 1) <==> !item.humanChat && |es| - 1 < MAX_RETRIES;
    }
  }

  /** No number of attempts is an upper bound: an item whose turns time out and then settle is
      tried for ever. */
  lemma TimeoutsAreNotBounded(item: Item, n: nat)
    ensures Life(item, seq(n, _ => Ending(TimedOut(true), NoDecision, true))).Some?
  {
    SurvivesExactlyWhen(item, seq(n, _ => Ending(TimedOut(true), NoDecision, true)));
  }
}
