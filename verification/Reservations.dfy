// What the saga does to reservations: in every run each wallet's reservation is exactly what its transfers
// hold, and it is covered by the balance without any assumption about releases.
module Reservations {
  import opened Base
  import opened Sums
  import opened Wallets
  import opened EventStores
  import opened WalletServices
  import opened Transactions
  import opened SagaHandlers
  import opened TransactionSteps
  import opened Saga
  import B = Balances

  // Reserved on the wallet for the transfer and not released.
  function Held(s: World, w: Uuid, t: Uuid): int
    requires t in s.store.txs
  {
    if s.store.txs[t].source == w && Did(s, Reserving, t) && !Did(s, Releasing, t) then s.store.txs[t].amount else 0
  }

  ghost function Holdings(s: World, w: Uuid): map<Uuid, int> {
    map t | t in s.store.txs :: Held(s, w, t)
  }

  function Reserved(t: Table, w: Uuid): int {
    Replay(ZERO, t.Of(w)).reserved
  }

  ghost predicate Covered(s: World, w: Uuid) {
    Reserved(s.wallets.table, w) == Sum(Holdings(s, w)) && B.AlwaysSane(s.wallets.table.Of(w))
  }

  // ------------------------------------------------------------------ one wallet event

  lemma SaneExtends(log: seq<Event>, e: Event)
    requires B.AlwaysSane(log) && B.Sane(Apply(Replay(ZERO, log), e))
    ensures B.AlwaysSane(log + [e])
  {
    forall n: nat | n <= |log + [e]|
      ensures B.Sane(B.At(log + [e], n))
    {
      if n <= |log| {
        assert (log + [e])[..n] == log[..n];
        assert B.Sane(B.At(log, n));
      } else {
        assert (log + [e])[..n] == log + [e];
        ReplaySnoc(ZERO, log, e);
      }
    }
  }

  // What a command adds to the reservation.
  function ReserveEffect(c: Command): int {
    match c
    case Reserve(amount, _) => amount
    case Release(amount, _) => -amount
    case _ => 0
  }

  lemma ExecutedReserved(t: Table, x: Uuid, c: Command, eventId: Uuid, w: Uuid)
    requires ValidTable(t) && ExecuteIn(t, x, c, eventId).Ok?
    ensures Reserved(ExecuteIn(t, x, c, eventId).value, w) == Reserved(t, w) + if w == x then ReserveEffect(c) else 0
  {
    var t' := ExecuteIn(t, x, c, eventId).value;
    if w == x {
      ExecuteAppendsOne(t, x, c, eventId);
    } else {
      assert t'.Of(w) == t.Of(w) by {
        ExecuteAppendsOne(t, x, c, eventId);
      }
    }
  }

  // The guards keep what is available non-negative; that the reservation is not negative is left to show.
  lemma ExecutedSane(t: Table, x: Uuid, c: Command, eventId: Uuid, w: Uuid)
    requires ValidTable(t) && ExecuteIn(t, x, c, eventId).Ok? && B.AlwaysSane(t.Of(w))
    requires Reserved(ExecuteIn(t, x, c, eventId).value, w) >= 0 && (c.Release? ==> c.amount >= 0)
    ensures B.AlwaysSane(ExecuteIn(t, x, c, eventId).value.Of(w))
  {
    var t', s := ExecuteIn(t, x, c, eventId).value, Replay(ZERO, t.Of(x));
    ExecuteAppendsOne(t, x, c, eventId);
    if w == x {
      var e := NextEvent(s, eventId, Decide(s, c).value);
      WholeIsSane(t.Of(x));
      assert t'.Of(x) == t.Of(x) + [e];
      SaneExtends(t.Of(x), e);
    } else {
      assert t'.Of(w) == t.Of(w);
    }
  }

  lemma WholeIsSane(log: seq<Event>)
    requires B.AlwaysSane(log)
    ensures B.Sane(Replay(ZERO, log))
  {
    assert B.Sane(B.At(log, |log|)) && log[..|log|] == log;
  }

  // ------------------------------------------------------------------ steps

  lemma HoldingsNotNegative(s: World, w: Uuid)
    requires ValidIndex(s.store)
    ensures Sum(Holdings(s, w)) >= 0
  {
    SumNotNegative(Holdings(s, w));
  }

  lemma ActedCovered(s: World, s': World, k: Kind, t: Uuid, ids: Ids, marked: set<Uuid>, w: Uuid)
    requires Saga.Inv(s) && Acted(s, s', k, t, ids, marked) && Covered(s, w)
    ensures Covered(s', w)
  {
    var job := JobFor(s.store.txs[t], k);
    assert Reserved(s'.wallets.table, w) == Reserved(s.wallets.table, w) + HoldingMove(s, k, t, w) by {
      ExecutedReserved(s.wallets.table, job.walletId, job.command, ids.eventId, w);
    }
    assert PhaseOk(s, t);
    ActedHoldings(s, s', k, t, ids, marked, w);
    HoldingsNotNegative(s', w);
    ExecutedSane(s.wallets.table, job.walletId, job.command, ids.eventId, w);
  }

  lemma ActedHoldings(s: World, s': World, k: Kind, t: Uuid, ids: Ids, marked: set<Uuid>, w: Uuid)
    requires ValidIndex(s.store) && PhaseOk(s, t) && Acted(s, s', k, t, ids, marked)
    ensures Sum(Holdings(s', w)) == Sum(Holdings(s, w)) + HoldingMove(s, k, t, w)
  {
    ActedRecords(s, s', k, t, ids, marked);
    RecordedHoldings(s, s', k, t, w);
  }

  lemma RecordedHoldings(s: World, s': World, k: Kind, t: Uuid, w: Uuid)
    requires PhaseOk(s, t) && Recorded(s, s', k, t)
    ensures Sum(Holdings(s', w)) == Sum(Holdings(s, w)) + HoldingMove(s, k, t, w)
  {
    forall u | u in s.store.txs
      ensures Held(s', w, u) == Held(s, w, u) + if u == t then HoldingMove(s, k, t, w) else 0
    {
      HoldingMoves(s, s', k, t, w, u);
    }
    SumChange(Holdings(s, w), Holdings(s', w), t);
  }

  function HoldingMove(s: World, k: Kind, t: Uuid, w: Uuid): int
    requires t in s.store.txs
  {
    var job := JobFor(s.store.txs[t], k);
    if job.walletId == w then ReserveEffect(job.command) else 0
  }

  lemma HoldingMoves(s: World, s': World, k: Kind, t: Uuid, w: Uuid, u: Uuid)
    requires PhaseOk(s, t) && Recorded(s, s', k, t) && u in s.store.txs
    ensures Held(s', w, u) == Held(s, w, u) + if u == t then HoldingMove(s, k, t, w) else 0
  {
    RecordedDid(s, s', k, t, Reserving, u);
    RecordedDid(s, s', k, t, Releasing, u);
  }

  lemma StoreCovered(s: World, s': World, w: Uuid)
    requires (forall t :: PhaseOk(s, t)) && s'.wallets == s.wallets && Later(s.store, s'.store) && Covered(s, w)
    ensures Covered(s', w)
  {
    forall t | t in s'.store.txs
      ensures Held(s', w, t) == if t in s.store.txs then Held(s, w, t) else 0
    {
      assert PhaseOk(s, t);
      assert t in s.store.txs ==> LaterRow(s.store.txs[t], s'.store.txs[t]);
    }
    SumExtend(Holdings(s, w), Holdings(s', w));
  }

  lemma SameHoldings(s: World, s': World, w: Uuid)
    requires s'.store == s.store && s'.wallets.notices == s.wallets.notices
    ensures Holdings(s', w) == Holdings(s, w)
  {
    assert forall k, t :: Did(s', k, t) == Did(s, k, t);
  }

  lemma OpenCovered(s: World, a: Action, w: Uuid)
    requires Saga.Inv(s) && a.Open? && Covered(s, w)
    ensures Covered(Step(s, a), w)
  {
    SameHoldings(s, Step(s, a), w);
    var t := s.wallets.table;
    if Step(s, a) != s {
      CreateStartsLog(t, a.walletId, a.userId, a.currency, a.eventId);
      var t', e := Step(s, a).wallets.table, Event(a.eventId, a.walletId, WalletCreated(a.userId, a.currency), 1);
      if w == a.walletId {
        assert t'.Of(w) == t.Of(w) + [e];
        SaneExtends(t.Of(w), e);
      } else {
        assert t'.Of(w) == t.Of(w);
      }
    }
  }

  lemma CashCovered(s: World, a: Action, w: Uuid)
    requires Saga.Inv(s) && a.Cash? && Covered(s, w)
    ensures Covered(Step(s, a), w)
  {
    SameHoldings(s, Step(s, a), w);
    if CashAccepted(s.wallets.table, a.walletId, a.command, a.eventId, a.dbFaults) {
      ExecutedReserved(s.wallets.table, a.walletId, a.command, a.eventId, w);
      HoldingsNotNegative(s, w);
      ExecutedSane(s.wallets.table, a.walletId, a.command, a.eventId, w);
    }
  }

  lemma DeliverCovered(s: World, a: Action, w: Uuid)
    requires Saga.Inv(s) && a.Deliver? && Covered(s, w)
    ensures Covered(Step(s, a), w)
  {
    if Step(s, a) != s {
      DeliverCases(s, a);
      var m := s.store.outbox[a.row];
      var k := if m.payload.TransactionInitiated? then Reserving else Crediting;
      ActedCovered(s, Step(s, a), k, TxOf(m), a.ids, {m.id}, w);
    }
  }

  lemma GiveBackCovered(s: World, a: Action, w: Uuid)
    requires Saga.Inv(s) && a.GiveBack? && Covered(s, w)
    ensures Covered(Step(s, a), w)
  {
    if Step(s, a) != s {
      ActedCovered(s, Step(s, a), Releasing, a.txId, a.ids, {}, w);
    }
  }

  lemma StepCovered(s: World, a: Action, w: Uuid)
    requires Saga.Inv(s) && Covered(s, w)
    ensures Covered(Step(s, a), w)
  {
    match a {
      case Open(_, _, _, _, _) => OpenCovered(s, a, w);
      case Cash(_, _, _, _) => CashCovered(s, a, w);
      case Deliver(_, _, _) => DeliverCovered(s, a, w);
      case GiveBack(_, _, _) => GiveBackCovered(s, a, w);
      case _ => TransactionCovered(s, a, w);
    }
  }

  lemma TransactionCovered(s: World, a: Action, w: Uuid)
    requires Saga.Inv(s) && Covered(s, w) && (a.Initiate? || a.Complete? || a.Abandon?)
    ensures Covered(Step(s, a), w)
  {
    TransactionsMoveLater(s, a);
    StoreCovered(s, Step(s, a), w);
  }

  // ------------------------------------------------------------------ theorems over every run

  // In every run, every wallet's reservation is the sum of what its transfers hold, and at every moment of
  // its log it is between zero and the balance.
  lemma {:induction false} ReservedIsHeld(actions: seq<Action>, w: Uuid)
    ensures Reserved(Run(actions).wallets.table, w) == Sum(Holdings(Run(actions), w))
    ensures B.AlwaysSane(Run(actions).wallets.table.Of(w))
    decreases |actions|
  {
    if actions == [] {
      assert Holdings(EMPTY, w) == map[];
    } else {
      var before := actions[..|actions| - 1];
      ReservedIsHeld(before, w);
      Conservation(before);
      StepCovered(Run(before), actions[|actions| - 1], w);
    }
  }

  // So the saga's reserves and releases are matched, no prefix is overdrawn, and the 64-bit program is exact
  // as long as the wallet's deposits and credits total at most 2^63 - 1. Nothing is assumed of releases.
  lemma SagaIsMatched(actions: seq<Action>, w: Uuid)
    ensures var log := Run(actions).wallets.table.Of(w);
            && ValidLog(w, log) && B.AllMatched(log) && B.NoOverdraft(log)
            && (B.Deposited(log) <= B.MAX_INT64 ==>
                  B.MachineLog(w, log) && B.MachineExact(log) && B.AlwaysInRange(log))
  {
    var log := Run(actions).wallets.table.Of(w);
    ReservedIsHeld(actions, w);
    assert ValidLog(w, log) by {
      Conservation(actions);
      assert ValidLog(w, Run(actions).wallets.table.Of(w));
    }
    B.SaneExactly(w, log);
    assert forall n: nat :: n <= |log| ==> B.Sane(B.At(log, n));
    if B.Deposited(log) <= B.MAX_INT64 {
      B.Int64Safe(w, log);
    }
  }
}
