// A transfer from end to end: what the saga does for one transfer when nothing fails, from any reachable state.
module Journeys {
  import opened Base
  import opened Wallets
  import opened EventStores
  import opened WalletServices
  import opened Messages
  import opened Transactions
  import opened SagaHandlers
  import opened Saga

  const NO_TX_FAULTS := TxFaults(false, Works, Works)

  // What the four or five steps draw: all ids are new.
  datatype Plan = Plan(transfer: Transfer, fraud: FraudReply, start: Draw, reserve: Ids, end: Draw, finish: Ids)

  ghost predicate Fresh(s: World, p: Plan) {
    && p.start.txId !in s.store.txs
    && !IdTaken(s.store.outbox, p.start.eventId) && !IdTaken(s.store.outbox, p.end.eventId)
    && p.start.eventId != p.end.eventId
    && p.reserve.eventId !in s.wallets.table.ids && p.finish.eventId !in s.wallets.table.ids
    && p.reserve.eventId != p.finish.eventId
    && !IdTaken(s.wallets.notices, p.reserve.noticeId) && !IdTaken(s.wallets.notices, p.finish.noticeId)
    && p.reserve.noticeId != p.finish.noticeId
  }

  // The transfer is acceptable and both wallets exist, the source with enough available.
  ghost predicate Possible(s: World, p: Plan) {
    && p.transfer.amount > 0 && p.transfer.source != p.transfer.dest && p.fraud in {Unchecked, Approved, Review}
    && (p.transfer.key == "" || p.transfer.key !in s.store.byKey)
    && s.wallets.table.Of(p.transfer.source) != [] && s.wallets.table.Of(p.transfer.dest) != []
    && p.transfer.amount <= Available(s.wallets.table, p.transfer.source)
  }

  // Stored as pending, reserved on the source, announced and marked.
  ghost predicate Reserved(s: World, s': World, p: Plan) {
    var t, source, amount := p.start.txId, p.transfer.source, p.transfer.amount;
    && AddsTransfer(s.store, s'.store, p.transfer, t)
    && s'.store.outbox == s.store.outbox + [InitiatedRow(p.transfer, p.start)]
    && AppendedTo(s.wallets.table, s'.wallets.table, source, p.reserve.eventId, Reserve(amount, t))
    && s'.wallets.notices == s.wallets.notices
                             + [Message(p.reserve.noticeId, p.reserve.now, source, ReservedNotice(source, t, amount))]
    && s'.wallets.processed == s.wallets.processed + {p.start.eventId}
  }

  ghost function AfterReserve(s: World, p: Plan): World
    requires ValidIndex(s.store)
    ensures ValidIndex(AfterReserve(s, p).store)
  {
    var s1 := Step(s, Initiate(p.transfer, p.fraud, p.start, NO_TX_FAULTS));
    StepKeepsIndex(s, Initiate(p.transfer, p.fraud, p.start, NO_TX_FAULTS));
    Step(s1, Deliver(|s.store.outbox|, p.reserve, NO_FAULTS))
  }

  // Initiating and delivering once stores and reserves the transfer.
  lemma TransferIsReserved(s: World, p: Plan)
    requires Saga.Inv(s) && Fresh(s, p) && Possible(s, p)
    ensures ValidTable(AfterReserve(s, p).wallets.table)
    ensures Reserved(s, AfterReserve(s, p), p)
  {
    var a1 := Initiate(p.transfer, p.fraud, p.start, NO_TX_FAULTS);
    var s1 := Step(s, a1);
    StepKeepsIndex(s, a1);
    InitiateAnswers(s.store, p.transfer, p.fraud, p.start, NO_TX_FAULTS);
    var m := InitiatedRow(p.transfer, p.start);
    assert s1.wallets == s.wallets && s1.store.outbox == s.store.outbox + [m];
    DeliversReserve(s1, |s.store.outbox|, p.reserve);
  }

  // A failure-free delivery of an unmarked TransactionInitiated that the source allows.
  lemma DeliversReserve(s: World, row: nat, ids: Ids)
    requires ValidIndex(s.store) && ValidTable(s.wallets.table) && row < |s.store.outbox|
    requires s.store.outbox[row].payload.TransactionInitiated?
    requires s.store.outbox[row].id !in s.wallets.processed
    requires ids.eventId !in s.wallets.table.ids && !IdTaken(s.wallets.notices, ids.noticeId)
    requires var m := s.store.outbox[row].payload;
             s.wallets.table.Of(m.source) != [] && m.amount <= Available(s.wallets.table, m.source)
    ensures var s', m := Step(s, Deliver(row, ids, NO_FAULTS)), s.store.outbox[row].payload;
            && s'.store == s.store && ValidTable(s'.wallets.table)
            && s'.wallets.processed == s.wallets.processed + {s.store.outbox[row].id}
            && AppendedTo(s.wallets.table, s'.wallets.table, m.source, ids.eventId, Reserve(m.amount, m.transactionId))
            && s'.wallets.notices == s.wallets.notices
                                     + [Message(ids.noticeId, ids.now, m.source,
                                                ReservedNotice(m.source, m.transactionId, m.amount))]
  {
    var m := s.store.outbox[row].payload;
    DeliveryAnswers(s.wallets, Attempt(s.store.outbox[row], ids, NO_FAULTS));
    ExecuteAppendsOne(s.wallets.table, m.source, Reserve(m.amount, m.transactionId), ids.eventId);
  }

  // The same of a TransactionCompleted.
  lemma DeliversCredit(s: World, row: nat, ids: Ids)
    requires ValidIndex(s.store) && ValidTable(s.wallets.table) && row < |s.store.outbox|
    requires s.store.outbox[row].payload.TransactionCompleted?
    requires s.store.outbox[row].id !in s.wallets.processed
    requires ids.eventId !in s.wallets.table.ids && !IdTaken(s.wallets.notices, ids.noticeId)
    requires s.wallets.table.Of(s.store.outbox[row].payload.dest) != [] && s.store.outbox[row].payload.amount > 0
    ensures var s', m := Step(s, Deliver(row, ids, NO_FAULTS)), s.store.outbox[row].payload;
            && s'.store == s.store
            && s'.wallets.processed == s.wallets.processed + {s.store.outbox[row].id}
            && AppendedTo(s.wallets.table, s'.wallets.table, m.dest, ids.eventId, Deposit(m.amount, "saga credit"))
            && s'.wallets.notices == s.wallets.notices
                                     + [Message(ids.noticeId, ids.now, m.dest,
                                                DepositedNotice(m.dest, m.transactionId, m.amount))]
  {
    DeliveryAnswers(s.wallets, Attempt(s.store.outbox[row], ids, NO_FAULTS));
  }

  // What the appended event does to the balances.
  lemma AppendedBalance(t: Table, t': Table, w: Uuid, eventId: Uuid, c: Command, x: Uuid)
    requires AppendedTo(t, t', w, eventId, c)
    ensures var before, after := Replay(ZERO, t.Of(x)), Replay(ZERO, t'.Of(x));
            if x != w then after == before
            else
              && after.balance
                 == before.balance + (if c.Deposit? then c.amount else if c.Withdraw? then -c.amount else 0)
              && after.reserved
                 == before.reserved + if c.Reserve? then c.amount else if c.Release? then -c.amount else 0
  {
    if x == w {
      var e := t'.Of(w)[|t.Of(w)|];
      assert t'.Of(w) == t.Of(w) + [e];
      ReplaySnoc(ZERO, t.Of(w), e);
    }
  }

  // Completing it, and delivering that.
  ghost function AfterTransfer(s: World, p: Plan): World
    requires ValidIndex(s.store)
  {
    var s2, a := AfterReserve(s, p), Complete(p.start.txId, p.end, NO_TX_FAULTS);
    StepKeepsIndex(s2, a);
    Step(Step(s2, a), Deliver(|s.store.outbox| + 1, p.finish, NO_FAULTS))
  }

  // What is available after moving the transfer's amount.
  function MovedTo(t: Table, p: Transfer, w: Uuid): int {
    Available(t, w) + if w == p.source then -p.amount else if w == p.dest then p.amount else 0
  }

  // From any reachable state, for any acceptable transfer between existing wallets with enough available, the
  // four steps initiate, deliver, complete, deliver move exactly the amount and leave the transfer COMPLETED.
  lemma TransferGoesThrough(s: World, p: Plan)
    requires Saga.Inv(s) && Fresh(s, p) && Possible(s, p)
    ensures var s4, t := AfterTransfer(s, p), p.start.txId;
            && t in s4.store.txs && s4.store.txs[t].status == Completed
            && (forall u :: u in s.store.txs ==> u in s4.store.txs && s4.store.txs[u] == s.store.txs[u])
            && forall w :: Available(s4.wallets.table, w) == MovedTo(s.wallets.table, p.transfer, w)
  {
    var s2, s4 := AfterReserve(s, p), AfterTransfer(s, p);
    TransferIsReserved(s, p);
    var s3 := Completes(s, s2, p);
    EndIsUnmarked(s, p);
    Credits(s, s2, s3, p);
    AmountMoves(s.wallets.table, s2.wallets.table, s4.wallets.table, p);
  }

  lemma AmountMoves(t: Table, t2: Table, t4: Table, p: Plan)
    requires AppendedTo(t, t2, p.transfer.source, p.reserve.eventId, Reserve(p.transfer.amount, p.start.txId))
    requires AppendedTo(t2, t4, p.transfer.dest, p.finish.eventId, Deposit(p.transfer.amount, "saga credit"))
    requires p.transfer.source != p.transfer.dest
    ensures forall w :: Available(t4, w) == MovedTo(t, p.transfer, w)
  {
    forall w
      ensures Available(t4, w) == MovedTo(t, p.transfer, w)
    {
      AppendedBalance(t, t2, p.transfer.source, p.reserve.eventId, Reserve(p.transfer.amount, p.start.txId), w);
      AppendedBalance(t2, t4, p.transfer.dest, p.finish.eventId, Deposit(p.transfer.amount, "saga credit"), w);
    }
  }

  // The last delivery credits the destination.
  lemma Credits(s: World, s2: World, s3: World, p: Plan)
    requires Reserved(s, s2, p) && Fresh(s, p) && Possible(s, p) && p.end.eventId !in s.wallets.processed
    requires ValidIndex(s3.store) && ValidTable(s3.wallets.table) && s3.wallets == s2.wallets
    requires |s3.store.outbox| == |s.store.outbox| + 2
    requires s3.store.outbox[|s.store.outbox| + 1]
          == Message(p.end.eventId, p.end.now, p.transfer.source,
                     TransactionCompleted(p.start.txId, p.transfer.source, p.transfer.dest, p.transfer.amount))
    ensures var s4 := Step(s3, Deliver(|s.store.outbox| + 1, p.finish, NO_FAULTS));
            && s4.store == s3.store
            && AppendedTo(s3.wallets.table, s4.wallets.table, p.transfer.dest, p.finish.eventId,
                          Deposit(p.transfer.amount, "saga credit"))
  {
    DeliversCredit(s3, |s.store.outbox| + 1, p.finish);
  }

  // Ids not yet in the outbox are not marked.
  lemma EndIsUnmarked(s: World, p: Plan)
    requires Saga.Inv(s) && Fresh(s, p)
    ensures p.start.eventId !in s.wallets.processed && p.end.eventId !in s.wallets.processed
  {
  }

  lemma ReservedIsOnRecord(s: World, s2: World, p: Plan)
    requires Reserved(s, s2, p)
    ensures Did(s2, Reserving, p.start.txId)
  {
    AmountsSnoc(s.wallets.notices, s2.wallets.notices[|s.wallets.notices|], Reserving, p.start.txId);
  }

  // Completion goes through once the reservation is on record.
  lemma Completes(s: World, s2: World, p: Plan) returns (s3: World)
    requires ValidIndex(s2.store) && Reserved(s, s2, p) && Fresh(s, p)
    ensures s3 == Step(s2, Complete(p.start.txId, p.end, NO_TX_FAULTS)) && ValidIndex(s3.store)
    ensures s3.wallets == s2.wallets && s3.store.txs.Keys == s2.store.txs.Keys
    ensures s3.store.txs[p.start.txId].status == Completed
    ensures forall u :: u in s2.store.txs && u != p.start.txId ==> s3.store.txs[u] == s2.store.txs[u]
    ensures |s3.store.outbox| == |s.store.outbox| + 2
    ensures s3.store.outbox[|s.store.outbox| + 1]
         == Message(p.end.eventId, p.end.now, p.transfer.source,
                    TransactionCompleted(p.start.txId, p.transfer.source, p.transfer.dest, p.transfer.amount))
  {
    var a := Complete(p.start.txId, p.end, NO_TX_FAULTS);
    s3 := Step(s2, a);
    ReservedIsOnRecord(s, s2, p);
    StepKeepsIndex(s2, a);
    EndIdIsFree(s, s2, p);
    SettleAnswers(s2.store, p.start.txId, Completed, "", p.end, NO_TX_FAULTS);
  }

  lemma EndIdIsFree(s: World, s2: World, p: Plan)
    requires Reserved(s, s2, p) && Fresh(s, p)
    ensures !IdTaken(s2.store.outbox, p.end.eventId)
  {
  }

  // Abandoning it instead, and releasing it.
  ghost function AfterRelease(s: World, p: Plan, reason: string): World
    requires ValidIndex(s.store)
  {
    var s2, a := AfterReserve(s, p), Abandon(p.start.txId, reason, p.end, NO_TX_FAULTS);
    StepKeepsIndex(s2, a);
    Step(Step(s2, a), GiveBack(p.start.txId, p.finish, NO_FAULTS))
  }

  // That gives everything back and leaves the transfer FAILED.
  lemma TransferIsGivenBack(s: World, p: Plan, reason: string)
    requires Saga.Inv(s) && Fresh(s, p) && Possible(s, p)
    ensures var s4, t := AfterRelease(s, p, reason), p.start.txId;
            && t in s4.store.txs && s4.store.txs[t].status == Failed && s4.store.txs[t].failureReason == reason
            && forall w :: Replay(ZERO, s4.wallets.table.Of(w)).balance == Replay(ZERO, s.wallets.table.Of(w)).balance
                           && Replay(ZERO, s4.wallets.table.Of(w)).reserved
                              == Replay(ZERO, s.wallets.table.Of(w)).reserved
  {
    var s2 := AfterReserve(s, p);
    TransferIsReserved(s, p);
    assert PhaseOk(s, p.start.txId);
    var s3 := Abandons(s, s2, p, reason);
    var s4 := GivesBack(s, s2, s3, p);
    AmountComesBack(s.wallets.table, s2.wallets.table, s4.wallets.table, p);
  }

  lemma AmountComesBack(t: Table, t2: Table, t4: Table, p: Plan)
    requires AppendedTo(t, t2, p.transfer.source, p.reserve.eventId, Reserve(p.transfer.amount, p.start.txId))
    requires AppendedTo(t2, t4, p.transfer.source, p.finish.eventId, Release(p.transfer.amount, p.start.txId))
    ensures forall w :: Replay(ZERO, t4.Of(w)).balance == Replay(ZERO, t.Of(w)).balance
                        && Replay(ZERO, t4.Of(w)).reserved == Replay(ZERO, t.Of(w)).reserved
  {
    forall w
      ensures Replay(ZERO, t4.Of(w)).balance == Replay(ZERO, t.Of(w)).balance
      ensures Replay(ZERO, t4.Of(w)).reserved == Replay(ZERO, t.Of(w)).reserved
    {
      AppendedBalance(t, t2, p.transfer.source, p.reserve.eventId, Reserve(p.transfer.amount, p.start.txId), w);
      AppendedBalance(t2, t4, p.transfer.source, p.finish.eventId, Release(p.transfer.amount, p.start.txId), w);
    }
  }

  lemma Abandons(s: World, s2: World, p: Plan, reason: string) returns (s3: World)
    requires ValidIndex(s2.store) && Reserved(s, s2, p) && Fresh(s, p)
    ensures s3 == Step(s2, Abandon(p.start.txId, reason, p.end, NO_TX_FAULTS)) && ValidIndex(s3.store)
    ensures s3.wallets == s2.wallets && p.start.txId in s3.store.txs
    ensures s3.store.txs[p.start.txId]
         == s2.store.txs[p.start.txId].(status := Failed, failureReason := reason)
  {
    var a := Abandon(p.start.txId, reason, p.end, NO_TX_FAULTS);
    s3 := Step(s2, a);
    StepKeepsIndex(s2, a);
    EndIdIsFree(s, s2, p);
    SettleAnswers(s2.store, p.start.txId, Failed, reason, p.end, NO_TX_FAULTS);
  }

  lemma GivesBack(s: World, s2: World, s3: World, p: Plan) returns (s4: World)
    requires ValidTable(s2.wallets.table) && Reserved(s, s2, p) && Fresh(s, p) && !Did(s, Releasing, p.start.txId)
    requires ValidIndex(s3.store) && s3.wallets == s2.wallets && p.start.txId in s3.store.txs
    requires s3.store.txs[p.start.txId]
          == TxRow(p.start.txId, p.transfer.source, p.transfer.dest, p.transfer.amount, p.transfer.description,
                   Failed, s3.store.txs[p.start.txId].failureReason, p.transfer.key)
    ensures s4 == Step(s3, GiveBack(p.start.txId, p.finish, NO_FAULTS)) && s4.store == s3.store
    ensures AppendedTo(s3.wallets.table, s4.wallets.table, p.transfer.source, p.finish.eventId,
                       Release(p.transfer.amount, p.start.txId))
  {
    s4 := Step(s3, GiveBack(p.start.txId, p.finish, NO_FAULTS));
    ReservedIsOnRecord(s, s2, p);
    assert Did(s3, Reserving, p.start.txId) == Did(s2, Reserving, p.start.txId);
    assert !Did(s3, Releasing, p.start.txId) by {
      AmountsSnoc(s.wallets.notices, s2.wallets.notices[|s.wallets.notices|], Releasing, p.start.txId);
    }
    CommandAnswers(s3.wallets.table, p.transfer.source, Release(p.transfer.amount, p.start.txId), p.finish.eventId,
                   HEALTHY);
  }
}
