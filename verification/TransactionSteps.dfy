// InitiateTransfer run by arbitrarily many clients at once: the key lookup, the insert and the outbox insert
// are separate steps and any step may fail. Completing or failing a transaction is one step that may stop
// between its two writes.
module TransactionSteps {
  import opened Base
  import opened Messages
  import opened Transactions

  datatype Call = Call(transfer: Transfer, fraud: FraudReply, draw: Draw)

  datatype Client =
    | Idle
    | Called(call: Call)
    | Built(call: Call)
    | Saved(call: Call)
    | Done(call: Call, reply: Result<Uuid>)

  // torn records the transactions for which a call stopped after its first write: the row is there, the
  // message never will be.
  datatype Sys = Sys(store: Store, clients: map<nat, Client>, tornStart: set<Uuid>, tornEnd: set<Uuid>) {
    function Pc(c: nat): Client {
      if c in clients then clients[c] else Idle
    }
  }

  // ------------------------------------------------------------------ steps

  // The key lookup, the validation and the fraud check. A failed lookup is treated like a missing key.
  ghost predicate LookupStep(s: Sys, pc: Client, pc': Client) {
    && pc.Called?
    && var p := pc.call.transfer;
       || (p.key != "" && p.key in s.store.byKey && pc' == Done(pc.call, Ok(s.store.byKey[p.key])))
       || pc' == match Refusal(p, pc.call.fraud)
                 case Some(code) => Done(pc.call, Err(code))
                 case None => Built(pc.call)
  }

  ghost predicate InsertStep(s: Sys, pc: Client, s': Sys, pc': Client) {
    && pc.Built? && s'.tornStart == s.tornStart
    && match s.store.Insert(NewRow(pc.call.transfer, pc.call.draw.txId))
       case Err(code) => s'.store == s.store && pc' == Done(pc.call, Err(code))
       case Ok(saved) => s'.store == saved && pc' == Saved(pc.call)
  }

  // The row may be written although the call reports an error. A taken id tears the call.
  ghost predicate EnqueueStep(s: Sys, pc: Client, s': Sys, pc': Client) {
    && pc.Saved?
    && var txId := pc.call.draw.txId;
       if IdTaken(s.store.outbox, pc.call.draw.eventId) then
         s'.store == s.store && pc' == Done(pc.call, Err(Internal)) && s'.tornStart == s.tornStart + {txId}
       else
         && s'.store == s.store.(outbox := s.store.outbox + [InitiatedRow(pc.call.transfer, pc.call.draw)])
         && pc' in {Done(pc.call, Ok(txId)), Done(pc.call, Err(Internal))} && s'.tornStart == s.tornStart
  }

  ghost predicate FailStep(s: Sys, pc: Client, s': Sys, pc': Client) {
    && !pc.Idle? && !pc.Done? && s'.store == s.store && pc' == Done(pc.call, Err(Internal))
    && s'.tornStart == s.tornStart + if pc.Saved? then {pc.call.draw.txId} else {}
  }

  ghost predicate ClientStep(s: Sys, c: nat, s': Sys) {
    var pc, pc' := s.Pc(c), s'.Pc(c);
    && s'.clients == s.clients[c := pc'] && s'.tornEnd == s.tornEnd
    && (|| (((pc.Idle? && pc'.Called?) || LookupStep(s, pc, pc') || (pc.Done? && pc' == Idle))
            && s'.store == s.store && s'.tornStart == s.tornStart)
        || InsertStep(s, pc, s', pc')
        || EnqueueStep(s, pc, s', pc')
        || FailStep(s, pc, s', pc'))
  }

  // CompleteTransaction or FailTransaction with any failures: torn if it stops between its two writes.
  ghost predicate SettleStep(s: Sys, s': Sys, txId: Uuid, status: Status, reason: string, d: Draw, f: TxFaults) {
    && status in {Completed, Failed} && s'.clients == s.clients && s'.tornStart == s.tornStart
    && s'.store == SettleIn(s.store, txId, status, reason, d, f).0
    && s'.tornEnd == s.tornEnd + if Tears(s.store, txId, d, f) then {txId} else {}
  }

  ghost predicate Next(s: Sys, s': Sys) {
    || (exists c :: ClientStep(s, c, s'))
    || (exists txId, status, reason, d, f :: SettleStep(s, s', txId, status, reason, d, f))
  }

  ghost predicate Init(s: Sys) {
    s == Sys(Store(map[], map[], []), map[], {}, {})
  }

  ghost predicate IsRun(run: seq<Sys>) {
    && run != [] && Init(run[0])
    && forall i :: 0 <= i < |run| - 1 ==> Next(run[i], run[i + 1])
  }

  // ------------------------------------------------------------------ the invariant

  function TxOf(m: Message<TxEvent>): Uuid {
    m.payload.transactionId
  }

  // The row repeats what the transaction says, under the source wallet's key.
  ghost predicate Matches(s: Store, m: Message<TxEvent>) {
    && TxOf(m) in s.txs
    && var tx := s.txs[TxOf(m)];
       m.key == tx.source
       && match m.payload
          case TransactionInitiated(_, source, dest, amount, description) =>
            source == tx.source && dest == tx.dest && amount == tx.amount && description == tx.description
          case TransactionCompleted(_, source, dest, amount) =>
            tx.status == Completed && source == tx.source && dest == tx.dest && amount == tx.amount
          case TransactionFailed(_, source, reason) =>
            tx.status == Failed && source == tx.source && reason == tx.failureReason
  }

  ghost predicate ValidOutbox(s: Store) {
    && (forall i :: 0 <= i < |s.outbox| ==> Matches(s, s.outbox[i]))
    && (forall i, j :: 0 <= i < j < |s.outbox| ==> s.outbox[i].id != s.outbox[j].id)
    && (forall i, j :: 0 <= i < j < |s.outbox| && TxOf(s.outbox[i]) == TxOf(s.outbox[j]) ==>
          s.outbox[i].payload.TransactionInitiated? != s.outbox[j].payload.TransactionInitiated?)
  }

  ghost predicate HasStart(s: Store, t: Uuid) {
    exists i :: 0 <= i < |s.outbox| && TxOf(s.outbox[i]) == t && s.outbox[i].payload.TransactionInitiated?
  }

  ghost predicate HasEnd(s: Store, t: Uuid) {
    exists i :: 0 <= i < |s.outbox| && TxOf(s.outbox[i]) == t && !s.outbox[i].payload.TransactionInitiated?
  }

  // The client stands between its two writes.
  predicate Holds(pc: Client, t: Uuid) {
    pc.Saved? && pc.call.draw.txId == t
  }

  ghost predicate InWindow(s: Sys, t: Uuid) {
    exists c :: Holds(s.Pc(c), t)
  }

  // The terms are valid and the fraud check did not stand against them.
  predicate Acceptable(call: Call) {
    && call.transfer.amount > 0 && call.transfer.source != call.transfer.dest
    && call.fraud in {Unchecked, Approved, Review}
  }

  ghost predicate ClientOk(s: Sys, pc: Client) {
    match pc
    case Built(call) => Acceptable(call)
    case Saved(call) =>
      && call.draw.txId in s.store.txs && call.draw.txId !in s.tornStart
      && var tx := s.store.txs[call.draw.txId];
         tx == NewRow(call.transfer, call.draw.txId).(status := tx.status, failureReason := tx.failureReason)
    case Done(call, Ok(t)) => t in s.store.txs && s.store.txs[t].idempotencyKey == call.transfer.key
    case _ => true
  }

  ghost predicate Alone(s: Sys) {
    forall c, d, t :: Holds(s.Pc(c), t) && Holds(s.Pc(d), t) ==> c == d
  }

  // Exactly when a transaction has its messages.
  ghost predicate Accounted(s: Sys, t: Uuid)
    requires t in s.store.txs
  {
    && (HasStart(s.store, t) <==> t !in s.tornStart && !InWindow(s, t))
    && (HasEnd(s.store, t) <==> s.store.txs[t].status != Pending && t !in s.tornEnd)
    && s.store.txs[t].status in {Pending, Completed, Failed}
    && (t in s.tornEnd ==> s.store.txs[t].status != Pending)
  }

  ghost predicate Inv(s: Sys) {
    && ValidIndex(s.store) && ValidOutbox(s.store)
    && (forall c :: ClientOk(s, s.Pc(c))) && Alone(s)
    && (forall t :: t in s.store.txs ==> Accounted(s, t))
    && (forall t :: t in s.tornStart || t in s.tornEnd ==> t in s.store.txs)
  }

  // Rows are never deleted, only their status moves, and only away from pending.
  ghost predicate Later(s: Store, s': Store) {
    forall t :: t in s.txs ==> t in s'.txs && LaterRow(s.txs[t], s'.txs[t])
  }

  predicate LaterRow(row: TxRow, row': TxRow) {
    && row' == row.(status := row'.status, failureReason := row'.failureReason)
    && (row.status != Pending ==> row' == row)
  }

  // ------------------------------------------------------------------ client steps

  lemma WindowMoves(s: Sys, c: nat, s': Sys, t: Uuid)
    requires Alone(s) && s'.clients == s.clients[c := s'.Pc(c)]
    ensures InWindow(s', t) <==> Holds(s'.Pc(c), t) || (InWindow(s, t) && !Holds(s.Pc(c), t))
  {
    if InWindow(s, t) && !Holds(s.Pc(c), t) {
      var d :| Holds(s.Pc(d), t);
      assert s'.Pc(d) == s.Pc(d);
    }
    if InWindow(s', t) && !Holds(s'.Pc(c), t) {
      var d :| Holds(s'.Pc(d), t);
      assert s'.Pc(d) == s.Pc(d) && d != c;
    }
  }

  lemma ClientsStayOk(s: Sys, c: nat, s': Sys)
    requires (forall d :: ClientOk(s, s.Pc(d))) && Alone(s) && Later(s.store, s'.store)
    requires s'.clients == s.clients[c := s'.Pc(c)] && ClientOk(s', s'.Pc(c))
    requires forall t :: t in s'.tornStart && t !in s.tornStart ==> Holds(s.Pc(c), t)
    requires s'.Pc(c).Saved? ==> s'.Pc(c).call.draw.txId !in s.store.txs
    ensures (forall d :: ClientOk(s', s'.Pc(d))) && Alone(s')
  {
    forall d
      ensures ClientOk(s', s'.Pc(d))
    {
      if d != c {
        assert s'.Pc(d) == s.Pc(d) && ClientOk(s, s.Pc(d));
      }
    }
    forall d, e, t | Holds(s'.Pc(d), t) && Holds(s'.Pc(e), t)
      ensures d == e
    {
      assert ClientOk(s, s.Pc(d)) && ClientOk(s, s.Pc(e));
      assert d != c ==> s'.Pc(d) == s.Pc(d);
      assert e != c ==> s'.Pc(e) == s.Pc(e);
    }
  }

  // The store is unchanged and the client does not stand between its writes.
  lemma QuietStep(s: Sys, c: nat, s': Sys)
    requires Inv(s) && ClientStep(s, c, s') && s'.store == s.store && !s.Pc(c).Saved?
    ensures Inv(s')
  {
    assert ClientOk(s, s.Pc(c));
    ClientsStayOk(s, c, s');
    forall t | t in s'.store.txs
      ensures Accounted(s', t)
    {
      assert Accounted(s, t);
      WindowMoves(s, c, s', t);
    }
  }

  lemma InsertedStep(s: Sys, c: nat, s': Sys)
    requires Inv(s) && ClientStep(s, c, s') && s.Pc(c).Built? && s'.store != s.store
    ensures Inv(s') && Later(s.store, s'.store)
  {
    var row := NewRow(s.Pc(c).call.transfer, s.Pc(c).call.draw.txId);
    assert ClientOk(s, s.Pc(c));
    InsertKeepsIndex(s.store, row);
    ClientsStayOk(s, c, s');
    assert ValidOutbox(s'.store) by {
      forall i | 0 <= i < |s.store.outbox|
        ensures Matches(s'.store, s.store.outbox[i]) && TxOf(s.store.outbox[i]) != row.id
      {
        assert Matches(s.store, s.store.outbox[i]);
      }
    }
    forall t | t in s'.store.txs
      ensures Accounted(s', t)
    {
      WindowMoves(s, c, s', t);
      if t == row.id {
        forall i | 0 <= i < |s.store.outbox|
          ensures TxOf(s.store.outbox[i]) != t
        {
          assert Matches(s.store, s.store.outbox[i]);
        }
      } else {
        assert Accounted(s, t);
      }
    }
  }

  // The message is written, or the call stops for good between its writes.
  lemma LeaveWindowStep(s: Sys, c: nat, s': Sys)
    requires Inv(s) && ClientStep(s, c, s') && s.Pc(c).Saved?
    ensures Inv(s') && Later(s.store, s'.store)
  {
    var call := s.Pc(c).call;
    var t0 := call.draw.txId;
    assert ClientOk(s, s.Pc(c)) && Accounted(s, t0);
    assert InWindow(s, t0);
    if s'.store == s.store {
      ClientsStayOk(s, c, s');
      forall t | t in s'.store.txs
        ensures Accounted(s', t)
      {
        assert Accounted(s, t);
        WindowMoves(s, c, s', t);
      }
    } else {
      var m := InitiatedMessage(NewRow(call.transfer, t0), call.draw);
      assert s'.store == s.store.(outbox := s.store.outbox + [m]);
      AppendKeepsOutbox(s.store, m);
      ClientsStayOk(s, c, s');
      forall t | t in s'.store.txs
        ensures Accounted(s', t)
      {
        assert Accounted(s, t);
        WindowMoves(s, c, s', t);
        AppendMoves(s.store, m, t);
      }
    }
  }

  lemma AppendMoves(s: Store, m: Message<TxEvent>, t: Uuid)
    ensures var s' := s.(outbox := s.outbox + [m]);
            && (HasStart(s', t) <==> HasStart(s, t) || (TxOf(m) == t && m.payload.TransactionInitiated?))
            && (HasEnd(s', t) <==> HasEnd(s, t) || (TxOf(m) == t && !m.payload.TransactionInitiated?))
  {
    var s' := s.(outbox := s.outbox + [m]);
    var n := |s.outbox|;
    assert s'.outbox[n] == m && s'.outbox[..n] == s.outbox;
    assert forall i :: 0 <= i < n ==> s'.outbox[i] == s.outbox[i];
  }

  lemma AppendKeepsOutbox(s: Store, m: Message<TxEvent>)
    requires ValidOutbox(s) && Matches(s, m) && !IdTaken(s.outbox, m.id)
    requires if m.payload.TransactionInitiated? then !HasStart(s, TxOf(m)) else !HasEnd(s, TxOf(m))
    ensures ValidOutbox(s.(outbox := s.outbox + [m]))
  {
    var s' := s.(outbox := s.outbox + [m]);
    forall i | 0 <= i < |s'.outbox|
      ensures Matches(s', s'.outbox[i])
    {
      assert i < |s.outbox| ==> Matches(s, s.outbox[i]);
    }
  }

  // ------------------------------------------------------------------ settling

  function SettledRow(s: Store, t: Uuid, status: Status, reason: string): TxRow
    requires t in s.txs
  {
    s.txs[t].(status := status, failureReason := if status == Failed then reason else s.txs[t].failureReason)
  }

  // The row is updated; its message follows unless the step is torn there.
  ghost predicate Settled(s: Sys, s': Sys, row: TxRow, d: Draw) {
    && row.id in s.store.txs && s.store.txs[row.id].status == Pending && row.status in {Completed, Failed}
    && row == s.store.txs[row.id].(status := row.status, failureReason := row.failureReason)
    && s'.clients == s.clients && s'.tornStart == s.tornStart
    && var updated, m := s.store.Update(row), FinalMessage(row, d);
       || (s'.store == updated && s'.tornEnd == s.tornEnd + {row.id})
       || (s'.store == updated.(outbox := updated.outbox + [m]) && !IdTaken(s.store.outbox, m.id)
           && s'.tornEnd == s.tornEnd)
  }

  lemma SettleCases(s: Sys, s': Sys, t: Uuid, status: Status, reason: string, d: Draw, f: TxFaults)
    requires ValidIndex(s.store) && SettleStep(s, s', t, status, reason, d, f) && s'.store != s.store
    requires t in s.store.txs && s.store.txs[t].status == Pending
    ensures Settled(s, s', SettledRow(s.store, t, status, reason), d) && ValidIndex(s'.store)
  {
    var row := SettledRow(s.store, t, status, reason);
    assert s.store.Update(row).txs[t].status == status;
    SettleAnswers(s.store, t, status, reason, d, f);
    SettleKeepsIndex(s.store, t, status, reason, d, f);
  }

  lemma SettledStep(s: Sys, s': Sys, row: TxRow, d: Draw)
    requires Inv(s) && Settled(s, s', row, d) && ValidIndex(s'.store)
    ensures Inv(s') && Later(s.store, s'.store)
  {
    assert Accounted(s, row.id);
    SettleKeepsOutbox(s.store, row, d, s'.store);
    SameClientsStayOk(s, s');
    forall t | t in s'.store.txs
      ensures Accounted(s', t)
    {
      assert Accounted(s, t);
      StillAccounted(s, s', row.id, t);
    }
  }

  lemma StillAccounted(s: Sys, s': Sys, t0: Uuid, t: Uuid)
    requires t in s.store.txs && Accounted(s, t) && s'.clients == s.clients && s'.tornStart == s.tornStart
    requires t in s'.store.txs && HasStart(s'.store, t) == HasStart(s.store, t)
    requires HasEnd(s'.store, t) == (HasEnd(s.store, t) || (t == t0 && s'.store.outbox != s.store.outbox))
    requires s'.tornEnd == if s'.store.outbox == s.store.outbox then s.tornEnd + {t0} else s.tornEnd
    requires if t == t0 then s.store.txs[t].status == Pending && s'.store.txs[t].status in {Completed, Failed}
             else s'.store.txs[t] == s.store.txs[t]
    ensures Accounted(s', t)
  {
    WindowSame(s, s', t);
  }

  lemma SettleKeepsOutbox(s: Store, row: TxRow, d: Draw, s': Store)
    requires ValidOutbox(s) && row.id in s.txs && s.txs[row.id].status == Pending && !HasEnd(s, row.id)
    requires row == s.txs[row.id].(status := row.status, failureReason := row.failureReason)
    requires row.status in {Completed, Failed}
    requires s' == s.Update(row) || (s' == s.Update(row).(outbox := s.outbox + [FinalMessage(row, d)])
                                     && !IdTaken(s.outbox, d.eventId))
    ensures ValidOutbox(s')
    ensures forall t :: HasStart(s', t) == HasStart(s, t)
    ensures forall t :: HasEnd(s', t) == (HasEnd(s, t) || (t == row.id && s'.outbox != s.outbox))
  {
    UpdateKeepsOutbox(s, row);
    if s' != s.Update(row) {
      AppendKeepsOutbox(s.Update(row), FinalMessage(row, d));
      forall t
        ensures HasStart(s', t) == HasStart(s, t)
        ensures HasEnd(s', t) == (HasEnd(s, t) || t == row.id)
      {
        AppendMoves(s.Update(row), FinalMessage(row, d), t);
      }
    }
  }

  lemma SameClientsStayOk(s: Sys, s': Sys)
    requires (forall c :: ClientOk(s, s.Pc(c))) && Alone(s) && Later(s.store, s'.store)
    requires s'.clients == s.clients && s'.tornStart == s.tornStart
    ensures (forall c :: ClientOk(s', s'.Pc(c))) && Alone(s')
  {
    forall c
      ensures ClientOk(s', s'.Pc(c))
    {
      assert ClientOk(s, s.Pc(c)) && s'.Pc(c) == s.Pc(c);
    }
    assert forall c :: s'.Pc(c) == s.Pc(c);
  }

  lemma WindowSame(s: Sys, s': Sys, t: Uuid)
    requires s'.clients == s.clients
    ensures InWindow(s', t) <==> InWindow(s, t)
  {
    assert forall c :: s'.Pc(c) == s.Pc(c);
  }

  // Writing a final status leaves the rows of the pending transaction matching.
  lemma UpdateKeepsOutbox(s: Store, row: TxRow)
    requires ValidOutbox(s) && row.id in s.txs && s.txs[row.id].status == Pending
    requires row == s.txs[row.id].(status := row.status, failureReason := row.failureReason)
    ensures ValidOutbox(s.Update(row))
    ensures forall t :: HasStart(s.Update(row), t) == HasStart(s, t) && HasEnd(s.Update(row), t) == HasEnd(s, t)
  {
    forall i | 0 <= i < |s.outbox|
      ensures Matches(s.Update(row), s.outbox[i])
    {
      assert Matches(s, s.outbox[i]);
    }
  }

  lemma StepKeepsInv(s: Sys, s': Sys)
    requires Inv(s) && Next(s, s')
    ensures Inv(s') && Later(s.store, s'.store)
  {
    if c :| ClientStep(s, c, s') {
      if s.Pc(c).Saved? {
        LeaveWindowStep(s, c, s');
      } else if s'.store == s.store {
        QuietStep(s, c, s');
      } else {
        InsertedStep(s, c, s');
      }
    } else {
      var t, status, reason, d, f :| SettleStep(s, s', t, status, reason, d, f);
      if s'.store != s.store {
        SettleCases(s, s', t, status, reason, d, f);
        SettledStep(s, s', SettledRow(s.store, t, status, reason), d);
      } else {
        assert s' == s;
      }
    }
  }

  // ------------------------------------------------------------------ theorems over whole runs

  // In every reachable state every transaction has its messages exactly as its status says, except those a
  // call left torn: TransactionInitiated is missing iff a client stands between its two writes or stopped
  // there, and the final message is there iff the status is final and no call stopped before writing it.
  lemma {:induction false} LifecycleAndOutboxAgree(run: seq<Sys>, i: nat)
    requires IsRun(run) && i < |run|
    ensures Inv(run[i])
  {
    if i > 0 {
      LifecycleAndOutboxAgree(run, i - 1);
      assert Next(run[i - 1], run[i]);
      StepKeepsInv(run[i - 1], run[i]);
    }
  }

  // Without failures between the two writes: exactly one TransactionInitiated row per transaction, at most
  // one final row, and the final row is the one the status names.
  lemma AgreeWithoutTears(run: seq<Sys>, i: nat, t: Uuid)
    requires IsRun(run) && i < |run| && t in run[i].store.txs
    requires t !in run[i].tornStart && t !in run[i].tornEnd && !InWindow(run[i], t)
    ensures var s := run[i].store;
            && (exists k :: IsOnlyRow(s, k, t, true))
            && (s.txs[t].status == Pending <==> !HasEnd(s, t))
            && (s.txs[t].status == Completed <==>
                  exists k :: IsOnlyRow(s, k, t, false) && s.outbox[k].payload.TransactionCompleted?)
            && (s.txs[t].status == Failed <==>
                  exists k :: IsOnlyRow(s, k, t, false) && s.outbox[k].payload.TransactionFailed?)
  {
    LifecycleAndOutboxAgree(run, i);
    var s := run[i].store;
    assert Accounted(run[i], t);
    OnlyStart(s, t);
    if HasEnd(s, t) {
      OnlyEnd(s, t);
    }
  }

  lemma OnlyStart(s: Store, t: Uuid)
    requires ValidOutbox(s) && HasStart(s, t)
    ensures exists k :: IsOnlyRow(s, k, t, true)
  {
    var k :| 0 <= k < |s.outbox| && TxOf(s.outbox[k]) == t && s.outbox[k].payload.TransactionInitiated?;
    assert IsOnlyRow(s, k, t, true);
  }

  lemma OnlyEnd(s: Store, t: Uuid)
    requires ValidOutbox(s) && HasEnd(s, t)
    ensures exists k :: IsOnlyRow(s, k, t, false)
                        && if s.outbox[k].payload.TransactionCompleted? then s.txs[t].status == Completed
                           else s.outbox[k].payload.TransactionFailed? && s.txs[t].status == Failed
  {
    var k :| 0 <= k < |s.outbox| && TxOf(s.outbox[k]) == t && !s.outbox[k].payload.TransactionInitiated?;
    assert IsOnlyRow(s, k, t, false) && Matches(s, s.outbox[k]);
  }

  predicate IsRow(s: Store, k: int, t: Uuid, initiated: bool) {
    0 <= k < |s.outbox| && TxOf(s.outbox[k]) == t && s.outbox[k].payload.TransactionInitiated? == initiated
  }

  // Row k is the one row of the transaction of its kind.
  ghost predicate IsOnlyRow(s: Store, k: int, t: Uuid, initiated: bool) {
    IsRow(s, k, t, initiated) && forall j :: IsRow(s, j, t, initiated) ==> j == k
  }

  // Transactions are never lost, their terms never change, and COMPLETED and FAILED are absorbing.
  lemma {:induction false} FinalIsForever(run: seq<Sys>, i: nat, j: nat)
    requires IsRun(run) && i <= j < |run|
    ensures Later(run[i].store, run[j].store)
    decreases j
  {
    if i < j {
      FinalIsForever(run, i, j - 1);
      StepIsLater(run, j);
      LaterTransitive(run[i].store, run[j - 1].store, run[j].store);
    }
  }

  lemma StepIsLater(run: seq<Sys>, j: nat)
    requires IsRun(run) && 0 < j < |run|
    ensures Later(run[j - 1].store, run[j].store)
  {
    LifecycleAndOutboxAgree(run, j - 1);
    assert Next(run[j - 1], run[j]);
    StepKeepsInv(run[j - 1], run[j]);
  }

  lemma LaterTransitive(a: Store, b: Store, c: Store)
    requires Later(a, b) && Later(b, c)
    ensures Later(a, c)
  {
    forall t | t in a.txs
      ensures t in c.txs && LaterRow(a.txs[t], c.txs[t])
    {
      assert t in b.txs && LaterRow(a.txs[t], b.txs[t]);
    }
  }

  // In every interleaving each non-empty key has at most one stored transaction.
  lemma OneTransactionPerKey(run: seq<Sys>, i: nat, t: Uuid, u: Uuid)
    requires IsRun(run) && i < |run| && t in run[i].store.txs && u in run[i].store.txs
    requires run[i].store.txs[t].idempotencyKey == run[i].store.txs[u].idempotencyKey != ""
    ensures t == u
  {
    LifecycleAndOutboxAgree(run, i);
  }

  // All successful replies for a key, at any two moments and to any two clients, carry the same id.
  lemma SameKeySameReply(run: seq<Sys>, i: nat, j: nat, c: nat, d: nat)
    requires IsRun(run) && i <= j < |run|
    requires run[i].Pc(c).Done? && run[i].Pc(c).reply.Ok? && run[j].Pc(d).Done? && run[j].Pc(d).reply.Ok?
    requires run[i].Pc(c).call.transfer.key == run[j].Pc(d).call.transfer.key != ""
    ensures run[i].Pc(c).reply == run[j].Pc(d).reply
  {
    LifecycleAndOutboxAgree(run, i);
    LifecycleAndOutboxAgree(run, j);
    assert ClientOk(run[i], run[i].Pc(c)) && ClientOk(run[j], run[j].Pc(d));
    FinalIsForever(run, i, j);
    var t, u := run[i].Pc(c).reply.value, run[j].Pc(d).reply.value;
    assert LaterRow(run[i].store.txs[t], run[j].store.txs[t]);
    OneTransactionPerKey(run, j, t, u);
  }
}
