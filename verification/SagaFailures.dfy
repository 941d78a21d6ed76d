// The saga when its steps may also stop half way: what is still safe, and where the money is.
module SagaFailures {
  import opened Base
  import opened Sums
  import opened Wallets
  import opened EventStores
  import opened WalletServices
  import opened Messages
  import opened Transactions
  import opened TransactionSteps
  import opened SagaHandlers
  import opened Saga
  import B = Balances
  import Duplicates

  // The state after a sequence of actions in which any operation may fail anywhere.
  ghost function FreeRun(actions: seq<Action>): (s: World)
    ensures ValidIndex(s.store)
    decreases |actions|
  {
    if actions == [] then EMPTY else
      var s := FreeRun(actions[..|actions| - 1]);
      StepKeepsIndex(s, actions[|actions| - 1]);
      FreeStep(s, actions[|actions| - 1])
  }

  // ------------------------------------------------------------------ what a step does to the wallets

  datatype Act = Act(walletId: Uuid, command: Command, eventId: Uuid)

  // The command a step has for a wallet, if any.
  function ActOf(s: World, a: Action): Option<Act> {
    match a
    case Cash(w, c, eventId, _) => Some(Act(w, c, eventId))
    case Deliver(row, ids, _) =>
      if row >= |s.store.outbox| then None else
        (match JobOf(s.store.outbox[row].payload)
         case None => None
         case Some(job) => Some(Act(job.walletId, job.command, ids.eventId)))
    case GiveBack(t, ids, _) =>
      if t !in s.store.txs then None else
        var job := GiveBackJob(s.store.txs[t]);
        Some(Act(job.walletId, job.command, ids.eventId))
    case _ => None
  }

  // The step appended a wallet event.
  predicate Appends(s: World, a: Action)
    requires ValidIndex(s.store)
  {
    FreeStep(s, a).wallets.table != s.wallets.table
  }

  lemma StepAppends(s: World, a: Action)
    requires ValidIndex(s.store) && Appends(s, a) && !a.Open?
    ensures ActOf(s, a).Some?
    ensures var act := ActOf(s, a).value;
            ExecuteIn(s.wallets.table, act.walletId, act.command, act.eventId) == Ok(FreeStep(s, a).wallets.table)
  {
  }

  lemma OpenAppends(s: World, a: Action)
    requires ValidIndex(s.store) && Appends(s, a) && a.Open?
    ensures CreateIn(s.wallets.table, a.walletId, a.userId, a.currency, a.eventId) == Ok(FreeStep(s, a).wallets.table)
  {
  }

  // ------------------------------------------------------------------ where the money is

  // What one step adds to what is available in wallet w.
  function Flow(s: World, a: Action, w: Uuid): int
    requires ValidIndex(s.store)
  {
    if a.Open? || !Appends(s, a) || ActOf(s, a).None? || ActOf(s, a).value.walletId != w then 0
    else Effect(ActOf(s, a).value.command)
  }

  datatype Source = Outside | Kept | Stopped

  // Deposits and withdrawals from outside, saga steps carried through, saga steps that stopped half way.
  function SourceOf(s: World, a: Action): Source
    requires ValidIndex(s.store)
  {
    if a.Cash? then Outside else if Stops(s, a) then Stopped else Kept
  }

  ghost function FlowFrom(actions: seq<Action>, w: Uuid, source: Source): int
    decreases |actions|
  {
    if actions == [] then 0 else
      var s, last := FreeRun(actions[..|actions| - 1]), actions[|actions| - 1];
      FlowFrom(actions[..|actions| - 1], w, source) + if SourceOf(s, last) == source then Flow(s, last, w) else 0
  }

  // Whatever fails and wherever: what is available in a wallet is what came in from outside, plus the saga
  // steps that were carried through, plus exactly those that stopped half way.
  lemma {:induction false} LedgerWithFailures(actions: seq<Action>, w: Uuid)
    ensures ValidTable(FreeRun(actions).wallets.table)
    ensures Available(FreeRun(actions).wallets.table, w)
         == FlowFrom(actions, w, Outside) + FlowFrom(actions, w, Kept) + FlowFrom(actions, w, Stopped)
    decreases |actions|
  {
    if actions == [] {
      assert forall x :: FreeRun(actions).wallets.table.Of(x) == [];
    } else {
      var before := actions[..|actions| - 1];
      LedgerWithFailures(before, w);
      StepFlows(FreeRun(before), actions[|actions| - 1], w);
    }
  }

  lemma StepFlows(s: World, a: Action, w: Uuid)
    requires ValidIndex(s.store) && ValidTable(s.wallets.table)
    ensures ValidTable(FreeStep(s, a).wallets.table)
    ensures Available(FreeStep(s, a).wallets.table, w) == Available(s.wallets.table, w) + Flow(s, a, w)
  {
    if Appends(s, a) {
      if a.Open? {
        OpenAppends(s, a);
        CreateStartsLog(s.wallets.table, a.walletId, a.userId, a.currency, a.eventId);
        OpenedAvailable(s.wallets.table, a.walletId, a.userId, a.currency, a.eventId, w);
      } else {
        StepAppends(s, a);
        var act := ActOf(s, a).value;
        ExecuteAppendsOne(s.wallets.table, act.walletId, act.command, act.eventId);
        ExecutedAvailable(s.wallets.table, act.walletId, act.command, act.eventId, w);
      }
    }
  }

  // The same summed over all wallets.
  function TotalFlow(s: World, a: Action): int
    requires ValidIndex(s.store)
  {
    if a.Open? || !Appends(s, a) || ActOf(s, a).None? then 0 else Effect(ActOf(s, a).value.command)
  }

  ghost function TotalFlowFrom(actions: seq<Action>, source: Source): int
    decreases |actions|
  {
    if actions == [] then 0 else
      var s, last := FreeRun(actions[..|actions| - 1]), actions[|actions| - 1];
      TotalFlowFrom(actions[..|actions| - 1], source) + if SourceOf(s, last) == source then TotalFlow(s, last) else 0
  }

  lemma {:induction false} MoneyWithFailures(actions: seq<Action>)
    ensures ValidTable(FreeRun(actions).wallets.table)
    ensures Sum(Balances(FreeRun(actions).wallets.table))
         == TotalFlowFrom(actions, Outside) + TotalFlowFrom(actions, Kept) + TotalFlowFrom(actions, Stopped)
    decreases |actions|
  {
    if actions == [] {
      assert forall x :: FreeRun(actions).wallets.table.Of(x) == [];
      assert Balances(EMPTY.wallets.table) == map[];
    } else {
      var before := actions[..|actions| - 1];
      MoneyWithFailures(before);
      StepMoney(FreeRun(before), actions[|actions| - 1]);
    }
  }

  lemma StepMoney(s: World, a: Action)
    requires ValidIndex(s.store) && ValidTable(s.wallets.table)
    ensures ValidTable(FreeStep(s, a).wallets.table)
    ensures Sum(Balances(FreeStep(s, a).wallets.table)) == Sum(Balances(s.wallets.table)) + TotalFlow(s, a)
  {
    if Appends(s, a) {
      if a.Open? {
        OpenAppends(s, a);
        OpenMovesNoMoney(s.wallets.table, a.walletId, a.userId, a.currency, a.eventId);
      } else {
        StepAppends(s, a);
        var act := ActOf(s, a).value;
        BalanceMoves(s.wallets.table, act.walletId, act.command, act.eventId);
      }
    }
  }

  // ------------------------------------------------------------------ effects per event over whole runs

  predicate Delivers(s: World, a: Action, id: Uuid) {
    a.Deliver? && a.row < |s.store.outbox| && s.store.outbox[a.row].id == id
  }

  ghost function Acting(actions: seq<Action>, id: Uuid): nat
    decreases |actions|
  {
    if actions == [] then 0 else
      var before, last := actions[..|actions| - 1], actions[|actions| - 1];
      Acting(before, id) + if Delivers(FreeRun(before), last, id) && Appends(FreeRun(before), last) then 1 else 0
  }

  ghost function Stopping(actions: seq<Action>, id: Uuid): nat
    decreases |actions|
  {
    if actions == [] then 0 else
      var before, last := actions[..|actions| - 1], actions[|actions| - 1];
      Stopping(before, id) + if Delivers(FreeRun(before), last, id) && Stops(FreeRun(before), last) then 1 else 0
  }

  // However often an event is delivered and whatever fails: the deliveries that acted are those that stopped
  // half way, plus one if the event is marked.
  lemma {:induction false} ActingExactly(actions: seq<Action>, id: Uuid)
    ensures Acting(actions, id) == Stopping(actions, id) + if id in FreeRun(actions).wallets.processed then 1 else 0
    decreases |actions|
  {
    if actions != [] {
      var before, last := actions[..|actions| - 1], actions[|actions| - 1];
      ActingExactly(before, id);
      DeliveryMarks(FreeRun(before), last, id);
    }
  }

  // One step: a delivery that acts either stops or marks, and nothing else marks.
  lemma DeliveryMarks(s: World, a: Action, id: Uuid)
    requires ValidIndex(s.store)
    ensures id in FreeStep(s, a).wallets.processed <==>
              id in s.wallets.processed || (Delivers(s, a, id) && Appends(s, a) && !Stops(s, a))
    ensures Delivers(s, a, id) && Appends(s, a) ==> id !in s.wallets.processed
    ensures Delivers(s, a, id) && Stops(s, a) ==> Appends(s, a)
  {
    if a.Deliver? && a.row < |s.store.outbox| {
      Duplicates.MarkNeedsEffect(s.wallets, Attempt(s.store.outbox[a.row], a.ids, a.faults), id);
    }
  }

  // ------------------------------------------------------------------ what no failure can break

  // A transfer with a FundsReserved notice is reserved in its source's log, a completed one has the notice,
  // and released amounts are positive.
  ghost predicate Safe(s: World) {
    && ValidTable(s.wallets.table) && ValidIndex(s.store) && ValidOutbox(s.store)
    && (forall t :: Did(s, Reserving, t) ==> IsReserved(s, t))
    && (forall t :: t in s.store.txs && s.store.txs[t].status == Completed ==> Did(s, Reserving, t))
    && (forall w :: PositiveReleases(s.wallets.table.Of(w)))
  }

  ghost predicate IsReserved(s: World, t: Uuid) {
    t in s.store.txs && LogAmounts(s.wallets.table.Of(s.store.txs[t].source), Reserving, t) != []
  }

  ghost predicate PositiveReleases(log: seq<Event>) {
    forall e :: e in log && e.payload.FundsReleased? ==> e.payload.amount > 0
  }

  // The steps of the transaction service.
  lemma StoreStepSafe(s: World, s': World)
    requires Safe(s) && s'.wallets == s.wallets && ValidIndex(s'.store) && ValidOutbox(s'.store)
    requires Later(s.store, s'.store)
    requires forall t :: t in s'.store.txs && s'.store.txs[t].status == Completed ==> Did(s, Reserving, t)
    ensures Safe(s')
  {
    assert forall t :: Did(s', Reserving, t) == Did(s, Reserving, t);
    forall t | Did(s', Reserving, t)
      ensures IsReserved(s', t)
    {
      assert IsReserved(s, t) && LaterRow(s.store.txs[t], s'.store.txs[t]);
    }
  }

  lemma InitiateSafe(s: World, a: Action)
    requires Safe(s) && a.Initiate?
    ensures Safe(FreeStep(s, a))
  {
    var s', row := FreeStep(s, a), NewRow(a.transfer, a.draw.txId);
    InitiateShape(s.store, a.transfer, a.fraud, a.draw, a.txFaults);
    if s' != s {
      var saved := s.store.Insert(row).value;
      InsertKeepsIndex(s.store, row);
      forall i | 0 <= i < |s.store.outbox|
        ensures Matches(saved, s.store.outbox[i]) && TxOf(s.store.outbox[i]) != row.id
      {
        assert Matches(s.store, s.store.outbox[i]);
      }
      assert ValidOutbox(saved);
      if s'.store != saved {
        AppendKeepsOutbox(saved, InitiatedMessage(row, a.draw));
      }
      StoreStepSafe(s, s');
    }
  }

  lemma SettleSafe(s: World, t: Uuid, status: Status, reason: string, d: Draw, f: TxFaults)
    requires Safe(s) && (status == Failed || (status == Completed && Did(s, Reserving, t)))
    ensures Safe(s.(store := SettleIn(s.store, t, status, reason, d, f).0))
  {
    var s' := s.(store := SettleIn(s.store, t, status, reason, d, f).0);
    if s' != s {
      SettleShape(s.store, t, status, reason, d, f);
      SettleKeepsIndex(s.store, t, status, reason, d, f);
      SettleIsLater(s.store, t, status, reason, d, f);
      NoEndWhilePending(s.store, t);
      SettleKeepsOutbox(s.store, SettledRow(s.store, t, status, reason), d, s'.store);
      StoreStepSafe(s, s');
    }
  }

  // A step on the wallets: logs grow by at most one event, and a FundsReserved notice comes after its event.
  lemma WalletStepSafe(s: World, s': World)
    requires Safe(s) && s'.store == s.store && ValidTable(s'.wallets.table)
    requires forall w :: s.wallets.table.Of(w) <= s'.wallets.table.Of(w)
    requires forall w :: PositiveReleases(s'.wallets.table.Of(w))
    requires KeepsRecord(s, s')
    ensures Safe(s')
  {
    forall t | Did(s', Reserving, t)
      ensures IsReserved(s', t)
    {
      if Did(s, Reserving, t) {
        assert IsReserved(s, t);
        var w := s.store.txs[t].source;
        LogAmountsGrow(s.wallets.table.Of(w), s'.wallets.table.Of(w), t);
      }
    }
  }

  lemma {:induction false} LogAmountsGrow(log: seq<Event>, more: seq<Event>, t: Uuid)
    requires log <= more && LogAmounts(log, Reserving, t) != []
    ensures LogAmounts(more, Reserving, t) != []
    decreases |more|
  {
    if |log| < |more| {
      LogAmountsGrow(log, more[..|more| - 1], t);
    } else {
      assert log == more;
    }
  }

  // What an appended event leaves in the tables.
  lemma AppendSafe(t: Table, t': Table, act: Act)
    requires ValidTable(t) && ExecuteIn(t, act.walletId, act.command, act.eventId) == Ok(t')
    requires forall w :: PositiveReleases(t.Of(w))
    requires act.command.Release? ==> act.command.amount > 0
    ensures ValidTable(t') && (forall w :: t.Of(w) <= t'.Of(w)) && (forall w :: PositiveReleases(t'.Of(w)))
    ensures act.command.Reserve? ==> LogAmounts(t'.Of(act.walletId), Reserving, act.command.transactionId) != []
  {
    var log := t.Of(act.walletId);
    ExecuteAppendsOne(t, act.walletId, act.command, act.eventId);
    var e := NextEvent(Replay(ZERO, log), act.eventId, Decide(Replay(ZERO, log), act.command).value);
    assert t'.Of(act.walletId) == log + [e];
    forall w
      ensures t.Of(w) <= t'.Of(w) && PositiveReleases(t'.Of(w))
    {
      assert PositiveReleases(t.Of(w));
      assert w != act.walletId ==> t'.Of(w) == t.Of(w);
    }
    if act.command.Reserve? {
      LogAmountsSnoc(log, e, Reserving, act.command.transactionId);
    }
  }

  lemma CreateSafe(t: Table, t': Table, x: Uuid, userId: Uuid, currency: string, eventId: Uuid)
    requires ValidTable(t) && CreateIn(t, x, userId, currency, eventId) == Ok(t')
    requires forall w :: PositiveReleases(t.Of(w))
    ensures ValidTable(t') && (forall w :: t.Of(w) <= t'.Of(w)) && (forall w :: PositiveReleases(t'.Of(w)))
  {
    CreateStartsLog(t, x, userId, currency, eventId);
    forall w
      ensures t.Of(w) <= t'.Of(w) && PositiveReleases(t'.Of(w))
    {
      assert PositiveReleases(t.Of(w));
      assert w != x ==> t'.Of(w) == t.Of(w);
    }
  }

  lemma OpenSafe(s: World, a: Action)
    requires Safe(s) && a.Open?
    ensures Safe(FreeStep(s, a))
  {
    var s' := FreeStep(s, a);
    if Appends(s, a) {
      OpenAppends(s, a);
      CreateSafe(s.wallets.table, s'.wallets.table, a.walletId, a.userId, a.currency, a.eventId);
      assert KeepsRecord(s, s') by {
        assert forall t :: Did(s', Reserving, t) == Did(s, Reserving, t);
      }
      WalletStepSafe(s, s');
    } else {
      assert s' == s;
    }
  }

  lemma ActSafe(s: World, a: Action)
    requires Safe(s) && (a.Cash? || a.Deliver? || a.GiveBack?)
    ensures Safe(FreeStep(s, a))
  {
    var s' := FreeStep(s, a);
    if Appends(s, a) {
      StepAppends(s, a);
      var act := ActOf(s, a).value;
      AppendSafe(s.wallets.table, s'.wallets.table, act);
      NoticeAfterEvent(s, a);
      WalletStepSafe(s, s');
    } else {
      QuietStep(s, a);
    }
  }

  lemma QuietStep(s: World, a: Action)
    requires ValidIndex(s.store) && !Appends(s, a) && (a.Cash? || a.Deliver? || a.GiveBack?)
    ensures FreeStep(s, a) == s
  {
    if ActOf(s, a).Some? {
      var act := ActOf(s, a).value;
      var job := Job(act.walletId, act.command, ReservedNotice(act.walletId, NIL, 0));
      ExecutedTableDiffers(s.wallets.table, job, act.eventId);
    }
  }

  lemma NoticeAfterEvent(s: World, a: Action)
    requires Safe(s) && (a.Cash? || a.Deliver? || a.GiveBack?) && Appends(s, a) && ActOf(s, a).Some?
    requires var act := ActOf(s, a).value;
             act.command.Reserve? ==> LogAmounts(FreeStep(s, a).wallets.table.Of(act.walletId), Reserving,
                                                 act.command.transactionId) != []
    ensures KeepsRecord(s, FreeStep(s, a))
  {
    var s' := FreeStep(s, a);
    if a.Cash? {
      assert forall t :: Did(s', Reserving, t) == Did(s, Reserving, t);
    } else if a.Deliver? {
      DeliveredNotice(s, a);
    } else {
      ActedNotices(s.wallets, GiveBackJob(s.store.txs[a.txId]), a.ids, a.faults);
      NewNotice(s, s', GiveBackJob(s.store.txs[a.txId]), a.ids);
    }
  }

  lemma DeliveredNotice(s: World, a: Action)
    requires ValidIndex(s.store) && ValidOutbox(s.store) && a.Deliver? && a.row < |s.store.outbox|
    requires JobOf(s.store.outbox[a.row].payload).Some? && FreeStep(s, a) != s
    requires var job := JobOf(s.store.outbox[a.row].payload).value;
             job.command.Reserve? ==> LogAmounts(FreeStep(s, a).wallets.table.Of(job.walletId), Reserving,
                                                 job.command.transactionId) != []
    ensures KeepsRecord(s, FreeStep(s, a))
  {
    var m := s.store.outbox[a.row];
    assert Matches(s.store, m);
    ActedNotices(s.wallets, JobOf(m.payload).value, a.ids, a.faults);
    NewNotice(s, FreeStep(s, a), JobOf(m.payload).value, a.ids);
  }

  // Reservations stay on record, and new ones are in the log.
  ghost predicate KeepsRecord(s: World, s': World) {
    forall t :: (Did(s, Reserving, t) ==> Did(s', Reserving, t))
                && (Did(s', Reserving, t) ==> Did(s, Reserving, t) || IsReserved(s', t))
  }

  lemma ActedNotices(s: Stores, job: Job, ids: Ids, f: Faults)
    ensures ActIn(s, job, ids, f).0.notices in {s.notices, s.notices + [NoticeMessage(job, ids)]}
  {
  }

  lemma NewNotice(s: World, s': World, job: Job, ids: Ids)
    requires s'.wallets.notices in {s.wallets.notices, s.wallets.notices + [NoticeMessage(job, ids)]}
    requires job.notice.ReservedNotice? ==> IsReserved(s', job.notice.transactionId)
    ensures KeepsRecord(s, s')
  {
    forall t
      ensures Did(s, Reserving, t) ==> Did(s', Reserving, t)
      ensures Did(s', Reserving, t) ==> Did(s, Reserving, t) || IsReserved(s', t)
    {
      AmountsSnoc(s.wallets.notices, NoticeMessage(job, ids), Reserving, t);
    }
  }

  lemma FreeStepSafe(s: World, a: Action)
    requires Safe(s)
    ensures Safe(FreeStep(s, a))
  {
    match a {
      case Open(_, _, _, _, _) => OpenSafe(s, a);
      case Initiate(_, _, _, _) => InitiateSafe(s, a);
      case Complete(t, d, f) =>
        if Did(s, Reserving, t) {
          SettleSafe(s, t, Completed, "", d, f);
        }
      case Abandon(t, reason, d, f) => SettleSafe(s, t, Failed, reason, d, f);
      case _ => ActSafe(s, a);
    }
  }

  lemma {:induction false} AlwaysSafe(actions: seq<Action>)
    ensures Safe(FreeRun(actions))
    decreases |actions|
  {
    if actions == [] {
      assert forall w :: EMPTY.wallets.table.Of(w) == [];
      assert forall k, t :: !Did(EMPTY, k, t);
    } else {
      AlwaysSafe(actions[..|actions| - 1]);
      FreeStepSafe(FreeRun(actions[..|actions| - 1]), actions[|actions| - 1]);
    }
  }

  // Whatever fails and wherever, nothing is paid out for a transfer that is not reserved: a delivery that
  // credits has the transfer's reservation in the source's log already.
  lemma CreditedOnlyIfReserved(actions: seq<Action>, a: Action)
    requires a.Deliver? && Appends(FreeRun(actions), a)
    ensures a.row < |FreeRun(actions).store.outbox|
    ensures var s := FreeRun(actions);
            var m := s.store.outbox[a.row];
            m.payload.TransactionCompleted? ==>
              IsReserved(s, TxOf(m)) && s.store.txs[TxOf(m)].amount == m.payload.amount > 0
  {
    AlwaysSafe(actions);
    var s := FreeRun(actions);
    assert Matches(s.store, s.store.outbox[a.row]);
  }

  // And no prefix of any wallet's log is overdrawn.
  lemma NeverOverdrawnWithFailures(actions: seq<Action>, w: Uuid)
    ensures ValidLog(w, FreeRun(actions).wallets.table.Of(w)) && B.NoOverdraft(FreeRun(actions).wallets.table.Of(w))
  {
    AlwaysSafe(actions);
    var log := FreeRun(actions).wallets.table.Of(w);
    assert ValidLog(w, log) && PositiveReleases(log);
    forall n: nat | n <= |log|
      ensures B.At(log, n).Available() >= 0
    {
      B.UnsignedReleases(w, log, n);
    }
  }
}
