// The transfer saga as one state machine: the transaction service, the wallet service and its event handler,
// and external deposits and withdrawals. Events are delivered in any order and any number of times.
module Saga {
  import opened Base
  import opened Sums
  import opened Wallets
  import opened EventStores
  import opened WalletServices
  import opened Messages
  import opened Transactions
  import opened SagaHandlers
  import opened TransactionSteps

  datatype World = World(store: Store, wallets: Stores)

  const EMPTY := World(Store(map[], map[], []), Stores(Table(map[], {}), {}, []))

  // ------------------------------------------------------------------ what the notices say of a transfer

  datatype Kind = Reserving | Crediting | Releasing

  function KindOf(n: Notice): Kind {
    match n
    case ReservedNotice(_, _, _) => Reserving
    case DepositedNotice(_, _, _) => Crediting
    case ReleasedNotice(_, _, _) => Releasing
  }

  // The amounts of the notices of one kind for one transfer, in order.
  function Amounts(notices: seq<Message<Notice>>, k: Kind, t: Uuid): seq<int>
    decreases |notices|
  {
    if notices == [] then [] else
      var before, n := Amounts(notices[..|notices| - 1], k, t), notices[|notices| - 1].payload;
      if KindOf(n) == k && n.transactionId == t then before + [n.amount] else before
  }

  lemma AmountsSnoc(notices: seq<Message<Notice>>, m: Message<Notice>, k: Kind, t: Uuid)
    ensures var before := Amounts(notices, k, t);
            Amounts(notices + [m], k, t)
            == if KindOf(m.payload) == k && m.payload.transactionId == t then before + [m.payload.amount] else before
  {
    assert (notices + [m])[..|notices|] == notices;
  }

  // The event reserves (or releases) for the transfer.
  predicate Concerns(p: Payload, k: Kind, t: Uuid) {
    || (k == Reserving && p.FundsReserved? && p.transactionId == t)
    || (k == Releasing && p.FundsReleased? && p.transactionId == t)
  }

  // The amounts a wallet's log reserves (or releases) for one transfer, in order.
  function LogAmounts(log: seq<Event>, k: Kind, t: Uuid): seq<int>
    decreases |log|
  {
    if log == [] then [] else
      var before, p := LogAmounts(log[..|log| - 1], k, t), log[|log| - 1].payload;
      if Concerns(p, k, t) then before + [p.amount] else before
  }

  lemma LogAmountsSnoc(log: seq<Event>, e: Event, k: Kind, t: Uuid)
    ensures var before := LogAmounts(log, k, t);
            LogAmounts(log + [e], k, t) == if Concerns(e.payload, k, t) then before + [e.payload.amount] else before
  {
    assert (log + [e])[..|log|] == log;
  }

  function Did(s: World, k: Kind, t: Uuid): bool {
    Amounts(s.wallets.notices, k, t) != []
  }

  // ------------------------------------------------------------------ steps

  datatype Action =
    | Open(walletId: Uuid, userId: Uuid, currency: string, eventId: Uuid, dbFaults: DbFaults)
    | Cash(walletId: Uuid, command: Command, eventId: Uuid, dbFaults: DbFaults)
    | Initiate(transfer: Transfer, fraud: FraudReply, draw: Draw, txFaults: TxFaults)
    | Complete(txId: Uuid, draw: Draw, txFaults: TxFaults)
    | Abandon(txId: Uuid, reason: string, draw: Draw, txFaults: TxFaults)
    | Deliver(row: nat, ids: Ids, faults: Faults)
    | GiveBack(txId: Uuid, ids: Ids, faults: Faults)

  predicate IsCash(c: Command) {
    c.Deposit? || c.Withdraw?
  }

  function CashIn(t: Table, w: Uuid, c: Command, eventId: Uuid, f: DbFaults): Table {
    if IsCash(c) then ExecuteWith(t, w, c, eventId, f).0 else t
  }

  // The event is in the log, whatever the call reports.
  predicate CashAccepted(t: Table, w: Uuid, c: Command, eventId: Uuid, f: DbFaults) {
    CashIn(t, w, c, eventId, f) != t
  }

  // One atomic step in which any operation may fail; a step whose guard fails changes nothing. Completion
  // waits for the transfer's FundsReserved, and a release for a transfer that failed while reserved and was
  // not released yet.
  function FreeStep(s: World, a: Action): World
    requires ValidIndex(s.store)
  {
    match a
    case Open(w, userId, currency, eventId, f) =>
      s.(wallets := s.wallets.(table := CreateWith(s.wallets.table, w, userId, currency, eventId, f).0))
    case Cash(w, c, eventId, f) => s.(wallets := s.wallets.(table := CashIn(s.wallets.table, w, c, eventId, f)))
    case Initiate(p, fraud, d, f) => s.(store := InitiateIn(s.store, p, fraud, d, f).0)
    case Complete(t, d, f) =>
      if Did(s, Reserving, t) then s.(store := SettleIn(s.store, t, Completed, "", d, f).0) else s
    case Abandon(t, reason, d, f) => s.(store := SettleIn(s.store, t, Failed, reason, d, f).0)
    case Deliver(row, ids, f) =>
      if row < |s.store.outbox| then s.(wallets := Handled(s.wallets, Attempt(s.store.outbox[row], ids, f)).0) else s
    case GiveBack(t, ids, f) =>
      if t in s.store.txs && s.store.txs[t].status == Failed && Did(s, Reserving, t) && !Did(s, Releasing, t)
      then s.(wallets := ActIn(s.wallets, GiveBackJob(s.store.txs[t]), ids, f).0) else s
  }

  // The step stops half way: a delivery between its wallet append and its mark, a release between its wallet
  // append and its notice.
  predicate Stops(s: World, a: Action)
    requires ValidIndex(s.store)
  {
    match a
    case Deliver(row, ids, f) =>
      row < |s.store.outbox| && StopsUnmarked(s.wallets, Attempt(s.store.outbox[row], ids, f))
    case GiveBack(t, ids, f) =>
      var after := FreeStep(s, a).wallets;
      after.table != s.wallets.table && after.notices == s.wallets.notices
    case _ => false
  }

  // The steps of the saga proper: none stops half way. SagaFailures has the laws for those that do.
  function Step(s: World, a: Action): World
    requires ValidIndex(s.store)
  {
    if Stops(s, a) then s else FreeStep(s, a)
  }

  function GiveBackJob(tx: TxRow): Job {
    Job(tx.source, Release(tx.amount, tx.id), ReleasedNotice(tx.source, tx.id, tx.amount))
  }

  lemma StepKeepsIndex(s: World, a: Action)
    requires ValidIndex(s.store)
    ensures ValidIndex(FreeStep(s, a).store)
  {
    match a {
      case Initiate(p, fraud, d, f) => InitiateKeepsIndex(s.store, p, fraud, d, f);
      case Complete(t, d, f) => SettleKeepsIndex(s.store, t, Completed, "", d, f);
      case Abandon(t, reason, d, f) => SettleKeepsIndex(s.store, t, Failed, reason, d, f);
      case _ =>
    }
  }

  // The state after a sequence of actions.
  ghost function Run(actions: seq<Action>): (s: World)
    ensures ValidIndex(s.store)
    decreases |actions|
  {
    if actions == [] then EMPTY else
      var s := Run(actions[..|actions| - 1]);
      StepKeepsIndex(s, actions[|actions| - 1]);
      Step(s, actions[|actions| - 1])
  }

  // ------------------------------------------------------------------ money

  function Available(t: Table, w: Uuid): int {
    Replay(ZERO, t.Of(w)).Available()
  }

  ghost function Balances(t: Table): map<Uuid, int> {
    map w | w in t.rows :: Available(t, w)
  }

  // Reserved on the source and neither credited to the destination nor released.
  function InFlight(s: World, t: Uuid): int
    requires t in s.store.txs
  {
    if Did(s, Reserving, t) && !Did(s, Crediting, t) && !Did(s, Releasing, t) then s.store.txs[t].amount else 0
  }

  ghost function Flights(s: World): map<Uuid, int> {
    map t | t in s.store.txs :: InFlight(s, t)
  }

  ghost function Money(s: World): int {
    Sum(Balances(s.wallets.table)) + Sum(Flights(s))
  }

  // What a command adds to the available balance.
  function Effect(c: Command): int {
    match c
    case Deposit(amount, _) => amount
    case Withdraw(amount, _) => -amount
    case Reserve(amount, _) => -amount
    case Release(amount, _) => amount
  }

  function CashFlow(t: Table, w: Uuid, c: Command, eventId: Uuid, f: DbFaults): int {
    if CashAccepted(t, w, c, eventId, f) then Effect(c) else 0
  }

  // What one action brings in from outside.
  function Inflow(s: World, a: Action): int {
    if a.Cash? then CashFlow(s.wallets.table, a.walletId, a.command, a.eventId, a.dbFaults) else 0
  }

  ghost function TotalInflow(actions: seq<Action>): int
    decreases |actions|
  {
    if actions == [] then 0 else
      var before := actions[..|actions| - 1];
      TotalInflow(before) + Inflow(Run(before), actions[|actions| - 1])
  }

  // ------------------------------------------------------------------ the invariant

  // A delivered event is marked exactly when its effect is on record.
  ghost predicate Marks(s: World, m: Message<TxEvent>) {
    match m.payload
    case TransactionInitiated(t, _, _, _, _) => m.id in s.wallets.processed <==> Did(s, Reserving, t)
    case TransactionCompleted(t, _, _, _) => m.id in s.wallets.processed <==> Did(s, Crediting, t)
    case TransactionFailed(_, _, _) => m.id !in s.wallets.processed
  }

  ghost predicate MarksAgree(s: World) {
    && (forall i :: 0 <= i < |s.store.outbox| ==> Marks(s, s.store.outbox[i]))
    && (forall id :: id in s.wallets.processed ==> IdTaken(s.store.outbox, id))
  }

  // Each transfer is reserved, credited and released at most once, for its own positive amount; credited
  // only when completed after its reservation, released only when failed after it, hence never both.
  ghost predicate PhaseOk(s: World, t: Uuid) {
    if t !in s.store.txs then !Did(s, Reserving, t) && !Did(s, Crediting, t) && !Did(s, Releasing, t)
    else
      var tx := s.store.txs[t];
      && (forall k :: Amounts(s.wallets.notices, k, t) in {[], [tx.amount]})
      && (tx.status == Completed || Did(s, Crediting, t) || Did(s, Releasing, t) ==> Did(s, Reserving, t))
      && (Did(s, Crediting, t) ==> tx.status == Completed)
      && (Did(s, Releasing, t) ==> tx.status == Failed)
  }

  // The wallet logs hold exactly the reserves and releases on record, on the source wallet.
  ghost predicate LogsAgree(s: World, w: Uuid, t: Uuid) {
    var own := t in s.store.txs && s.store.txs[t].source == w;
    && LogAmounts(s.wallets.table.Of(w), Reserving, t) == (if own then Amounts(s.wallets.notices, Reserving, t) else [])
    && LogAmounts(s.wallets.table.Of(w), Releasing, t) == (if own then Amounts(s.wallets.notices, Releasing, t) else [])
  }

  ghost predicate Inv(s: World) {
    && ValidTable(s.wallets.table) && ValidIndex(s.store) && ValidOutbox(s.store)
    && MarksAgree(s)
    && (forall t :: PhaseOk(s, t))
    && (forall w, t :: LogsAgree(s, w, t))
  }

  // ------------------------------------------------------------------ wallet actions

  lemma AppliedEffect(s: State, c: Command, eventId: Uuid)
    requires Decide(s, c).Ok?
    ensures Apply(s, NextEvent(s, eventId, Decide(s, c).value)).Available() == s.Available() + Effect(c)
  {
  }

  lemma ExecutedAvailable(t: Table, x: Uuid, c: Command, eventId: Uuid, w: Uuid)
    requires ValidTable(t) && ExecuteIn(t, x, c, eventId).Ok?
    ensures Available(ExecuteIn(t, x, c, eventId).value, w) == Available(t, w) + if w == x then Effect(c) else 0
  {
    var t' := ExecuteIn(t, x, c, eventId).value;
    if w == x {
      ExecuteAppendsOne(t, x, c, eventId);
      AppliedEffect(Replay(ZERO, t.Of(x)), c, eventId);
    } else {
      assert t'.Of(w) == t.Of(w) by {
        ExecuteAppendsOne(t, x, c, eventId);
      }
    }
  }

  lemma BalanceMoves(t: Table, w: Uuid, c: Command, eventId: Uuid)
    requires ValidTable(t) && ExecuteIn(t, w, c, eventId).Ok?
    ensures var t' := ExecuteIn(t, w, c, eventId).value;
            ValidTable(t') && Sum(Balances(t')) == Sum(Balances(t)) + Effect(c)
  {
    var t' := ExecuteIn(t, w, c, eventId).value;
    ExecutedAvailable(t, w, c, eventId, w);
    assert ValidTable(t') && t'.rows == t.rows[w := t'.Of(w)] by {
      ExecuteAppendsOne(t, w, c, eventId);
    }
    PutBalance(t, t', w);
  }

  lemma PutBalance(t: Table, t': Table, w: Uuid)
    requires t'.rows == t.rows[w := t'.Of(w)]
    ensures Sum(Balances(t')) == Sum(Balances(t)) + Available(t', w) - Available(t, w)
  {
    forall x | x in t.rows && x != w
      ensures Balances(t')[x] == Balances(t)[x]
    {
      assert t'.Of(x) == t.Of(x);
    }
    SumChange(Balances(t), Balances(t'), w);
  }

  lemma OpenMovesNoMoney(t: Table, w: Uuid, userId: Uuid, currency: string, eventId: Uuid)
    requires ValidTable(t) && CreateIn(t, w, userId, currency, eventId).Ok?
    ensures var t' := CreateIn(t, w, userId, currency, eventId).value;
            ValidTable(t') && Sum(Balances(t')) == Sum(Balances(t))
  {
    var t' := CreateIn(t, w, userId, currency, eventId).value;
    assert ValidTable(t') && t'.rows == t.rows[w := t'.Of(w)] && Available(t', w) == Available(t, w) == 0 by {
      CreateStartsLog(t, w, userId, currency, eventId);
    }
    PutBalance(t, t', w);
  }

  // Events that are neither reserves nor releases leave the reservation record of every log alone.
  lemma PlainAppend(s: World, s': World, w: Uuid, e: Event)
    requires Inv(s) && s'.store == s.store && s'.wallets.processed == s.wallets.processed
    requires s'.wallets.notices == s.wallets.notices && ValidTable(s'.wallets.table)
    requires s'.wallets.table.rows == s.wallets.table.rows[w := s.wallets.table.Of(w) + [e]]
    requires !e.payload.FundsReserved? && !e.payload.FundsReleased?
    ensures Inv(s') && Flights(s') == Flights(s)
  {
    SameNotices(s, s');
    forall x, t
      ensures LogsAgree(s', x, t)
    {
      assert LogsAgree(s, x, t);
      PlainAmounts(s.wallets.table.Of(w), e, Reserving, t);
      PlainAmounts(s.wallets.table.Of(w), e, Releasing, t);
    }
  }

  lemma PlainAmounts(log: seq<Event>, e: Event, k: Kind, t: Uuid)
    requires !e.payload.FundsReserved? && !e.payload.FundsReleased?
    ensures LogAmounts(log + [e], k, t) == LogAmounts(log, k, t)
  {
    LogAmountsSnoc(log, e, k, t);
  }

  // With the same transactions and notices, marks, phases and flights stand.
  lemma SameNotices(s: World, s': World)
    requires MarksAgree(s) && (forall t :: PhaseOk(s, t)) && s'.store == s.store
    requires s'.wallets.processed == s.wallets.processed && s'.wallets.notices == s.wallets.notices
    ensures MarksAgree(s') && (forall t :: PhaseOk(s', t)) && Flights(s') == Flights(s)
  {
    assert forall k, t :: Did(s', k, t) == Did(s, k, t);
    forall i | 0 <= i < |s.store.outbox|
      ensures Marks(s', s.store.outbox[i])
    {
      assert Marks(s, s.store.outbox[i]);
    }
    forall t
      ensures PhaseOk(s', t)
    {
      assert PhaseOk(s, t);
    }
  }

  lemma OpenStep(s: World, a: Action)
    requires Inv(s) && a.Open?
    ensures Inv(Step(s, a)) && Money(Step(s, a)) == Money(s)
  {
    if Step(s, a) != s {
      var t, t' := s.wallets.table, Step(s, a).wallets.table;
      var e := Event(a.eventId, a.walletId, WalletCreated(a.userId, a.currency), 1);
      OpenedTable(t, t', e, a.userId, a.currency);
      PlainAppend(s, Step(s, a), a.walletId, e);
    }
  }

  lemma OpenedTable(t: Table, t': Table, e: Event, userId: Uuid, currency: string)
    requires ValidTable(t) && CreateIn(t, e.walletId, userId, currency, e.id) == Ok(t')
    requires e == Event(e.id, e.walletId, WalletCreated(userId, currency), 1)
    ensures ValidTable(t') && t'.rows == t.rows[e.walletId := t.Of(e.walletId) + [e]]
    ensures Sum(Balances(t')) == Sum(Balances(t))
  {
    OpenMovesNoMoney(t, e.walletId, userId, currency, e.id);
    CreateStartsLog(t, e.walletId, userId, currency, e.id);
    assert t.Of(e.walletId) + [e] == [e];
  }

  lemma CashStep(s: World, a: Action)
    requires Inv(s) && a.Cash?
    ensures Inv(Step(s, a)) && Money(Step(s, a)) == Money(s) + Inflow(s, a)
  {
    var t := s.wallets.table;
    if CashAccepted(t, a.walletId, a.command, a.eventId, a.dbFaults) {
      ExecuteAppendsOne(t, a.walletId, a.command, a.eventId);
      BalanceMoves(t, a.walletId, a.command, a.eventId);
      var before := Replay(ZERO, t.Of(a.walletId));
      PlainAppend(s, Step(s, a), a.walletId, NextEvent(before, a.eventId, Decide(before, a.command).value));
    }
  }

  // ------------------------------------------------------------------ saga actions on the wallets

  // What each kind of action does for a transfer.
  function JobFor(tx: TxRow, k: Kind): Job {
    match k
    case Reserving => Job(tx.source, Reserve(tx.amount, tx.id), ReservedNotice(tx.source, tx.id, tx.amount))
    case Crediting => Job(tx.dest, Deposit(tx.amount, "saga credit"), DepositedNotice(tx.dest, tx.id, tx.amount))
    case Releasing => GiveBackJob(tx)
  }

  // The moment an action of this kind is allowed.
  ghost predicate Due(s: World, k: Kind, t: Uuid) {
    && t in s.store.txs && !Did(s, k, t)
    && match k
       case Reserving => true
       case Crediting => s.store.txs[t].status == Completed
       case Releasing => s.store.txs[t].status == Failed && Did(s, Reserving, t)
  }

  // The wallet event and the notice are written, and the given events are marked.
  ghost predicate Acted(s: World, s': World, k: Kind, t: Uuid, ids: Ids, marked: set<Uuid>) {
    && Due(s, k, t) && s'.store == s.store
    && var job := JobFor(s.store.txs[t], k);
       && ExecuteIn(s.wallets.table, job.walletId, job.command, ids.eventId) == Ok(s'.wallets.table)
       && s'.wallets.notices == s.wallets.notices + [NoticeMessage(job, ids)]
       && s'.wallets.processed == s.wallets.processed + marked
  }

  lemma ActedDid(s: World, s': World, k: Kind, t: Uuid, ids: Ids, marked: set<Uuid>, j: Kind, u: Uuid)
    requires ValidIndex(s.store) && Acted(s, s', k, t, ids, marked)
    ensures Amounts(s'.wallets.notices, j, u)
         == if j == k && u == t then [s.store.txs[t].amount] else Amounts(s.wallets.notices, j, u)
  {
    AmountsSnoc(s.wallets.notices, NoticeMessage(JobFor(s.store.txs[t], k), ids), j, u);
  }

  // The record of notices after the action.
  ghost predicate Recorded(s: World, s': World, k: Kind, t: Uuid) {
    && Due(s, k, t) && s'.store == s.store
    && forall j, u :: Amounts(s'.wallets.notices, j, u)
                      == if j == k && u == t then [s.store.txs[t].amount] else Amounts(s.wallets.notices, j, u)
  }

  lemma ActedRecords(s: World, s': World, k: Kind, t: Uuid, ids: Ids, marked: set<Uuid>)
    requires ValidIndex(s.store) && Acted(s, s', k, t, ids, marked)
    ensures Recorded(s, s', k, t)
  {
    forall j, u
      ensures Amounts(s'.wallets.notices, j, u)
           == if j == k && u == t then [s.store.txs[t].amount] else Amounts(s.wallets.notices, j, u)
    {
      ActedDid(s, s', k, t, ids, marked, j, u);
    }
  }

  lemma RecordedDid(s: World, s': World, k: Kind, t: Uuid, j: Kind, u: Uuid)
    requires Recorded(s, s', k, t)
    ensures Did(s', j, u) == (Did(s, j, u) || (j == k && u == t))
  {
  }

  lemma RecordedPhase(s: World, s': World, k: Kind, t: Uuid, u: Uuid)
    requires PhaseOk(s, u) && PhaseOk(s, t) && Recorded(s, s', k, t)
    ensures PhaseOk(s', u)
  {
  }

  lemma ActedLogs(s: World, s': World, k: Kind, t: Uuid, ids: Ids, marked: set<Uuid>, w: Uuid, u: Uuid)
    requires Inv(s) && Acted(s, s', k, t, ids, marked)
    ensures LogsAgree(s', w, u)
  {
    assert LogsAgree(s, w, u);
    ActedDid(s, s', k, t, ids, marked, Reserving, u);
    ActedDid(s, s', k, t, ids, marked, Releasing, u);
    ActedTable(s, s', k, t, ids, marked, w, Reserving, u);
    ActedTable(s, s', k, t, ids, marked, w, Releasing, u);
  }

  lemma ActedTable(s: World, s': World, k: Kind, t: Uuid, ids: Ids, marked: set<Uuid>, w: Uuid, j: Kind, u: Uuid)
    requires ValidTable(s.wallets.table) && ValidIndex(s.store) && Acted(s, s', k, t, ids, marked)
    ensures var before := LogAmounts(s.wallets.table.Of(w), j, u);
            LogAmounts(s'.wallets.table.Of(w), j, u)
            == if j == k && j != Crediting && u == t && w == s.store.txs[t].source
               then before + [s.store.txs[t].amount] else before
  {
    var tx, table := s.store.txs[t], s.wallets.table;
    var job := JobFor(tx, k);
    var before := Replay(ZERO, table.Of(job.walletId));
    var e := NextEvent(before, ids.eventId, Decide(before, job.command).value);
    assert s'.wallets.table.Of(w) == if w == job.walletId then table.Of(w) + [e] else table.Of(w) by {
      ExecuteAppendsOne(table, job.walletId, job.command, ids.eventId);
    }
    if w == job.walletId {
      LogAmountsSnoc(table.Of(w), e, j, u);
      JobWrites(tx, k, before, e.payload, j, u);
    }
  }

  // The reserve or release one action leaves in a log.
  lemma JobWrites(tx: TxRow, k: Kind, before: State, p: Payload, j: Kind, u: Uuid)
    requires Decide(before, JobFor(tx, k).command) == Ok(p)
    ensures Concerns(p, j, u) <==> j == k && j != Crediting && u == tx.id
    ensures Concerns(p, j, u) ==> p.amount == tx.amount
  {
  }

  lemma ActedMoney(s: World, s': World, k: Kind, t: Uuid, ids: Ids, marked: set<Uuid>)
    requires Inv(s) && Acted(s, s', k, t, ids, marked)
    ensures ValidTable(s'.wallets.table) && Money(s') == Money(s)
  {
    var job := JobFor(s.store.txs[t], k);
    BalanceMoves(s.wallets.table, job.walletId, job.command, ids.eventId);
    assert PhaseOk(s, t);
    ActedRecords(s, s', k, t, ids, marked);
    RecordedFlights(s, s', k, t);
  }

  lemma RecordedFlights(s: World, s': World, k: Kind, t: Uuid)
    requires PhaseOk(s, t) && Recorded(s, s', k, t)
    ensures Sum(Flights(s')) == Sum(Flights(s)) - Effect(JobFor(s.store.txs[t], k).command)
  {
    forall u | u in s.store.txs
      ensures InFlight(s', u) == if u == t then InFlight(s, t) - Effect(JobFor(s.store.txs[t], k).command)
                                 else InFlight(s, u)
    {
      FlightMoves(s, s', k, t, u);
    }
    SumChange(Flights(s), Flights(s'), t);
  }

  lemma FlightMoves(s: World, s': World, k: Kind, t: Uuid, u: Uuid)
    requires PhaseOk(s, t) && Recorded(s, s', k, t) && u in s.store.txs
    ensures InFlight(s', u) == if u == t then InFlight(s, t) - Effect(JobFor(s.store.txs[t], k).command)
                               else InFlight(s, u)
  {
    RecordedDid(s, s', k, t, Reserving, u);
    RecordedDid(s, s', k, t, Crediting, u);
    RecordedDid(s, s', k, t, Releasing, u);
  }

  // The marked events are exactly the ones whose effect this is.
  lemma ActedMarks(s: World, s': World, k: Kind, t: Uuid, ids: Ids, marked: set<Uuid>)
    requires Inv(s) && Acted(s, s', k, t, ids, marked)
    requires forall i :: 0 <= i < |s.store.outbox| ==>
               (s.store.outbox[i].id in marked <==> AsksFor(s.store.outbox[i], k, t))
    requires forall id :: id in marked ==> IdTaken(s.store.outbox, id)
    ensures MarksAgree(s')
  {
    forall i | 0 <= i < |s.store.outbox|
      ensures Marks(s', s.store.outbox[i])
    {
      assert Marks(s, s.store.outbox[i]);
      ActedDid(s, s', k, t, ids, marked, Reserving, TxOf(s.store.outbox[i]));
      ActedDid(s, s', k, t, ids, marked, Crediting, TxOf(s.store.outbox[i]));
    }
  }

  predicate AsksFor(m: Message<TxEvent>, k: Kind, t: Uuid) {
    TxOf(m) == t && match k
                    case Reserving => m.payload.TransactionInitiated?
                    case Crediting => m.payload.TransactionCompleted?
                    case Releasing => false
  }

  lemma ActedStep(s: World, s': World, k: Kind, t: Uuid, ids: Ids, marked: set<Uuid>)
    requires Inv(s) && Acted(s, s', k, t, ids, marked) && MarksAgree(s')
    ensures Inv(s') && Money(s') == Money(s)
  {
    ActedMoney(s, s', k, t, ids, marked);
    forall u
      ensures PhaseOk(s', u)
    {
      assert PhaseOk(s, u) && PhaseOk(s, t);
      ActedRecords(s, s', k, t, ids, marked);
      RecordedPhase(s, s', k, t, u);
    }
    forall w, u
      ensures LogsAgree(s', w, u)
    {
      ActedLogs(s, s', k, t, ids, marked, w, u);
    }
  }

  // Deliveries: a marked, ignored or refused event changes nothing, any other acts exactly once.
  lemma DeliverCases(s: World, a: Action)
    requires Inv(s) && a.Deliver? && Step(s, a) != s
    ensures a.row < |s.store.outbox|
    ensures var m := s.store.outbox[a.row];
            && !m.payload.TransactionFailed? && m.id !in s.wallets.processed
            && var k := if m.payload.TransactionInitiated? then Reserving else Crediting;
               AsksFor(m, k, TxOf(m)) && Acted(s, Step(s, a), k, TxOf(m), a.ids, {m.id})
  {
    var m := s.store.outbox[a.row];
    assert Matches(s.store, m) && Marks(s, m);
    if JobOf(m.payload).Some? {
      ExecutedTableDiffers(s.wallets.table, JobOf(m.payload).value, a.ids.eventId);
    }
  }

  lemma DeliverStep(s: World, a: Action)
    requires Inv(s) && a.Deliver?
    ensures Inv(Step(s, a)) && Money(Step(s, a)) == Money(s)
  {
    if Step(s, a) != s {
      DeliverCases(s, a);
      var m := s.store.outbox[a.row];
      var k := if m.payload.TransactionInitiated? then Reserving else Crediting;
      forall i | 0 <= i < |s.store.outbox|
        ensures s.store.outbox[i].id == m.id <==> AsksFor(s.store.outbox[i], k, TxOf(m))
      {
        SameRequestSameRow(s.store, i, a.row);
      }
      ActedMarks(s, Step(s, a), k, TxOf(m), a.ids, {m.id});
      ActedStep(s, Step(s, a), k, TxOf(m), a.ids, {m.id});
    }
  }

  // A transfer has one row asking for its reservation and one asking for its credit.
  lemma SameRequestSameRow(s: Store, i: int, j: int)
    requires ValidOutbox(s) && 0 <= i < |s.outbox| && 0 <= j < |s.outbox|
    ensures s.outbox[i].id == s.outbox[j].id <==> i == j
    ensures (TxOf(s.outbox[i]) == TxOf(s.outbox[j])
             && s.outbox[i].payload.TransactionInitiated? == s.outbox[j].payload.TransactionInitiated?) ==> i == j
  {
    assert i < j ==> s.outbox[i].id != s.outbox[j].id;
    assert j < i ==> s.outbox[j].id != s.outbox[i].id;
  }

  lemma GiveBackStep(s: World, a: Action)
    requires Inv(s) && a.GiveBack?
    ensures Inv(Step(s, a)) && Money(Step(s, a)) == Money(s)
  {
    if Step(s, a) != s {
      assert Acted(s, Step(s, a), Releasing, a.txId, a.ids, {});
      ActedMarks(s, Step(s, a), Releasing, a.txId, a.ids, {});
      ActedStep(s, Step(s, a), Releasing, a.txId, a.ids, {});
    }
  }

  // ------------------------------------------------------------------ saga actions on the transactions

  // A step of the transaction service: nothing is delivered yet, terms never change.
  lemma StoreStep(s: World, s': World)
    requires Inv(s) && s'.wallets == s.wallets && ValidIndex(s'.store) && ValidOutbox(s'.store)
    requires Later(s.store, s'.store) && s.store.outbox <= s'.store.outbox
    requires forall t :: t in s'.store.txs && s'.store.txs[t].status == Completed ==> Did(s, Reserving, t)
    requires forall i :: |s.store.outbox| <= i < |s'.store.outbox| ==> Marks(s', s'.store.outbox[i])
    ensures Inv(s') && Money(s') == Money(s)
  {
    forall i | 0 <= i < |s'.store.outbox|
      ensures Marks(s', s'.store.outbox[i])
    {
      assert i < |s.store.outbox| ==> s'.store.outbox[i] == s.store.outbox[i] && Marks(s, s.store.outbox[i]);
    }
    forall id | id in s'.wallets.processed
      ensures IdTaken(s'.store.outbox, id)
    {
      var i :| 0 <= i < |s.store.outbox| && s.store.outbox[i].id == id;
      assert s'.store.outbox[i].id == id;
    }
    forall t
      ensures PhaseOk(s', t)
    {
      StorePhase(s, s', t);
    }
    forall w, t
      ensures LogsAgree(s', w, t)
    {
      assert LogsAgree(s, w, t) && PhaseOk(s, t);
      assert t in s.store.txs ==> LaterRow(s.store.txs[t], s'.store.txs[t]);
    }
    NewFlightsAreEmpty(s, s');
  }

  lemma StorePhase(s: World, s': World, t: Uuid)
    requires PhaseOk(s, t) && s'.wallets == s.wallets && Later(s.store, s'.store)
    requires t in s'.store.txs && s'.store.txs[t].status == Completed ==> Did(s, Reserving, t)
    ensures PhaseOk(s', t)
  {
    if t in s.store.txs {
      assert LaterRow(s.store.txs[t], s'.store.txs[t]);
    }
    assert Did(s', Reserving, t) == Did(s, Reserving, t);
  }

  lemma NewFlightsAreEmpty(s: World, s': World)
    requires (forall t :: PhaseOk(s, t)) && s'.wallets == s.wallets && Later(s.store, s'.store)
    ensures Sum(Flights(s')) == Sum(Flights(s))
  {
    forall t | t in s'.store.txs
      ensures InFlight(s', t) == if t in s.store.txs then InFlight(s, t) else 0
    {
      assert PhaseOk(s, t);
      assert t in s.store.txs ==> LaterRow(s.store.txs[t], s'.store.txs[t]);
    }
    SumExtend(Flights(s), Flights(s'));
  }

  lemma InitiateStep(s: World, a: Action)
    requires Inv(s) && a.Initiate?
    ensures Inv(Step(s, a)) && Money(Step(s, a)) == Money(s)
  {
    InitiateShape(s.store, a.transfer, a.fraud, a.draw, a.txFaults);
    if Step(s, a) != s {
      InsertedStep(s, Step(s, a), NewRow(a.transfer, a.draw.txId), a.draw);
    }
  }

  // A new row, announced or not.
  lemma InsertedStep(s: World, s': World, row: TxRow, d: Draw)
    requires Inv(s) && s'.wallets == s.wallets && s.store.Insert(row).Ok?
    requires row.status == Pending && row.amount > 0 && row.source != row.dest
    requires var saved := s.store.Insert(row).value;
             s'.store == saved || Ok(s'.store) == saved.Enqueue(InitiatedMessage(row, d))
    ensures Inv(s') && Money(s') == Money(s)
  {
    var saved := s.store.Insert(row).value;
    InsertKeepsIndex(s.store, row);
    forall i | 0 <= i < |s.store.outbox|
      ensures Matches(saved, s.store.outbox[i]) && TxOf(s.store.outbox[i]) != row.id
    {
      assert Matches(s.store, s.store.outbox[i]);
    }
    assert ValidOutbox(saved);
    assert PhaseOk(s, row.id);
    CompletedWereReserved(s);
    if s'.store != saved {
      AppendKeepsOutbox(saved, InitiatedMessage(row, d));
    }
    NewMarks(s, s', row, d);
    StoreStep(s, s');
  }

  lemma NewMarks(s: World, s': World, row: TxRow, d: Draw)
    requires MarksAgree(s) && PhaseOk(s, row.id) && row.id !in s.store.txs && s'.wallets == s.wallets
    requires s'.store.outbox == s.store.outbox
             || (s'.store.outbox == s.store.outbox + [InitiatedMessage(row, d)] && !IdTaken(s.store.outbox, d.eventId))
    ensures forall i :: |s.store.outbox| <= i < |s'.store.outbox| ==> Marks(s', s'.store.outbox[i])
  {
    assert Did(s', Reserving, row.id) == Did(s, Reserving, row.id);
  }

  lemma SettlingStep(s: World, t: Uuid, status: Status, reason: string, d: Draw, f: TxFaults)
    requires Inv(s) && (status == Failed || (status == Completed && Did(s, Reserving, t)))
    ensures var s' := s.(store := SettleIn(s.store, t, status, reason, d, f).0);
            Inv(s') && Money(s') == Money(s)
  {
    var s' := s.(store := SettleIn(s.store, t, status, reason, d, f).0);
    SettleKeepsIndex(s.store, t, status, reason, d, f);
    if s' != s {
      SettledFacts(s, t, status, reason, d, f);
      CompletedWereReserved(s);
      StoreStep(s, s');
    }
  }

  lemma SettledFacts(s: World, t: Uuid, status: Status, reason: string, d: Draw, f: TxFaults)
    requires Inv(s) && status in {Completed, Failed} && SettleIn(s.store, t, status, reason, d, f).0 != s.store
    ensures var s' := s.(store := SettleIn(s.store, t, status, reason, d, f).0);
            && ValidOutbox(s'.store) && s.store.outbox <= s'.store.outbox && Later(s.store, s'.store)
            && (forall u :: u in s'.store.txs ==> u in s.store.txs && (u == t || s'.store.txs[u] == s.store.txs[u]))
            && s'.store.txs[t].status == status
            && forall i :: |s.store.outbox| <= i < |s'.store.outbox| ==> Marks(s', s'.store.outbox[i])
  {
    var s' := s.(store := SettleIn(s.store, t, status, reason, d, f).0);
    NoEndWhilePending(s.store, t);
    SettleKeepsOutbox(s.store, SettledRow(s.store, t, status, reason), d, s'.store);
    SettleIsLater(s.store, t, status, reason, d, f);
    FinalMarks(s, s', t, FinalMessage(SettledRow(s.store, t, status, reason), d));
  }

  // Nothing has been delivered of the message that announces the end.
  lemma FinalMarks(s: World, s': World, t: Uuid, m: Message<TxEvent>)
    requires MarksAgree(s) && PhaseOk(s, t) && t in s.store.txs && s.store.txs[t].status == Pending
    requires s'.wallets == s.wallets && TxOf(m) == t && !m.payload.TransactionInitiated?
    requires s'.store.outbox == s.store.outbox
             || (s'.store.outbox == s.store.outbox + [m] && !IdTaken(s.store.outbox, m.id))
    ensures forall i :: |s.store.outbox| <= i < |s'.store.outbox| ==> Marks(s', s'.store.outbox[i])
  {
    assert Did(s', Crediting, t) == Did(s, Crediting, t);
  }

  lemma CompletedWereReserved(s: World)
    requires forall t :: PhaseOk(s, t)
    ensures forall t :: t in s.store.txs && s.store.txs[t].status == Completed ==> Did(s, Reserving, t)
  {
    forall t | t in s.store.txs && s.store.txs[t].status == Completed
      ensures Did(s, Reserving, t)
    {
      assert PhaseOk(s, t);
    }
  }

  lemma NoEndWhilePending(s: Store, t: Uuid)
    requires ValidOutbox(s) && t in s.txs && s.txs[t].status == Pending
    ensures !HasEnd(s, t)
  {
    forall i | 0 <= i < |s.outbox| && TxOf(s.outbox[i]) == t
      ensures s.outbox[i].payload.TransactionInitiated?
    {
      assert Matches(s, s.outbox[i]);
    }
  }

  // ------------------------------------------------------------------ one wallet's ledger

  // What a transfer means for one wallet: minus on the source while reserved, plus on the credited
  // destination.
  function Share(s: World, w: Uuid, t: Uuid): int
    requires t in s.store.txs
  {
    var tx := s.store.txs[t];
    (if tx.source == w && Did(s, Reserving, t) && !Did(s, Releasing, t) then -tx.amount else 0)
    + (if tx.dest == w && Did(s, Crediting, t) then tx.amount else 0)
  }

  ghost function Shares(s: World, w: Uuid): map<Uuid, int> {
    map t | t in s.store.txs :: Share(s, w, t)
  }

  // What one action brings into one wallet from outside.
  function InflowTo(s: World, a: Action, w: Uuid): int {
    if a.Cash? && a.walletId == w then Inflow(s, a) else 0
  }

  ghost function TotalInflowTo(actions: seq<Action>, w: Uuid): int
    decreases |actions|
  {
    if actions == [] then 0 else
      var before := actions[..|actions| - 1];
      TotalInflowTo(before, w) + InflowTo(Run(before), actions[|actions| - 1], w)
  }

  // A wallet's available balance beyond its shares of the transfers.
  ghost function Own(s: World, w: Uuid): int {
    Available(s.wallets.table, w) - Sum(Shares(s, w))
  }

  lemma ActedShares(s: World, s': World, k: Kind, t: Uuid, ids: Ids, marked: set<Uuid>, w: Uuid)
    requires Inv(s) && Acted(s, s', k, t, ids, marked)
    ensures Own(s', w) == Own(s, w)
  {
    ActedAvailable(s, s', k, t, ids, marked, w);
    assert PhaseOk(s, t);
    ActedShareSum(s, s', k, t, ids, marked, w);
  }

  lemma ActedAvailable(s: World, s': World, k: Kind, t: Uuid, ids: Ids, marked: set<Uuid>, w: Uuid)
    requires ValidTable(s.wallets.table) && Acted(s, s', k, t, ids, marked)
    ensures Available(s'.wallets.table, w) == Available(s.wallets.table, w) + ShareMove(s, k, t, w)
  {
    var job := JobFor(s.store.txs[t], k);
    ExecutedAvailable(s.wallets.table, job.walletId, job.command, ids.eventId, w);
  }

  lemma ActedShareSum(s: World, s': World, k: Kind, t: Uuid, ids: Ids, marked: set<Uuid>, w: Uuid)
    requires ValidIndex(s.store) && PhaseOk(s, t) && Acted(s, s', k, t, ids, marked)
    ensures Sum(Shares(s', w)) == Sum(Shares(s, w)) + ShareMove(s, k, t, w)
  {
    ActedRecords(s, s', k, t, ids, marked);
    RecordedShares(s, s', k, t, w);
  }

  lemma RecordedShares(s: World, s': World, k: Kind, t: Uuid, w: Uuid)
    requires PhaseOk(s, t) && Recorded(s, s', k, t)
    ensures Sum(Shares(s', w)) == Sum(Shares(s, w)) + ShareMove(s, k, t, w)
  {
    forall u | u in s.store.txs
      ensures Share(s', w, u) == Share(s, w, u) + if u == t then ShareMove(s, k, t, w) else 0
    {
      ShareMoves(s, s', k, t, w, u);
    }
    SumChange(Shares(s, w), Shares(s', w), t);
  }

  function ShareMove(s: World, k: Kind, t: Uuid, w: Uuid): int
    requires t in s.store.txs
  {
    var job := JobFor(s.store.txs[t], k);
    if job.walletId == w then Effect(job.command) else 0
  }

  lemma ShareMoves(s: World, s': World, k: Kind, t: Uuid, w: Uuid, u: Uuid)
    requires PhaseOk(s, t) && Recorded(s, s', k, t) && u in s.store.txs
    ensures Share(s', w, u) == Share(s, w, u) + if u == t then ShareMove(s, k, t, w) else 0
  {
    RecordedDid(s, s', k, t, Reserving, u);
    RecordedDid(s, s', k, t, Crediting, u);
    RecordedDid(s, s', k, t, Releasing, u);
  }

  lemma StoreShares(s: World, s': World, w: Uuid)
    requires (forall t :: PhaseOk(s, t)) && s'.wallets == s.wallets && Later(s.store, s'.store)
    ensures Own(s', w) == Own(s, w)
  {
    forall t | t in s'.store.txs
      ensures Share(s', w, t) == if t in s.store.txs then Share(s, w, t) else 0
    {
      assert PhaseOk(s, t);
      assert t in s.store.txs ==> LaterRow(s.store.txs[t], s'.store.txs[t]);
    }
    SumExtend(Shares(s, w), Shares(s', w));
  }

  lemma TableShares(s: World, s': World, w: Uuid)
    requires s'.store == s.store && s'.wallets.notices == s.wallets.notices
    ensures Own(s', w) == Own(s, w) + Available(s'.wallets.table, w) - Available(s.wallets.table, w)
  {
    assert forall k, t :: Did(s', k, t) == Did(s, k, t);
    assert Shares(s', w) == Shares(s, w);
  }

  lemma OpenedAvailable(t: Table, x: Uuid, userId: Uuid, currency: string, eventId: Uuid, w: Uuid)
    requires ValidTable(t) && CreateIn(t, x, userId, currency, eventId).Ok?
    ensures Available(CreateIn(t, x, userId, currency, eventId).value, w) == Available(t, w)
  {
    var t' := CreateIn(t, x, userId, currency, eventId).value;
    if w == x {
      CreateStartsLog(t, x, userId, currency, eventId);
    } else {
      assert t'.Of(w) == t.Of(w) by {
        CreateStartsLog(t, x, userId, currency, eventId);
      }
    }
  }

  lemma TransactionsMoveLater(s: World, a: Action)
    requires Inv(s) && (a.Initiate? || a.Complete? || a.Abandon?)
    ensures Later(s.store, Step(s, a).store) && Step(s, a).wallets == s.wallets
  {
    match a {
      case Complete(t, d, f) => SettleIsLater(s.store, t, Completed, "", d, f);
      case Abandon(t, reason, d, f) => SettleIsLater(s.store, t, Failed, reason, d, f);
      case Initiate(p, fraud, d, f) => InitiateIsLater(s.store, p, fraud, d, f);
    }
  }

  lemma InitiateIsLater(s: Store, p: Transfer, fraud: FraudReply, d: Draw, f: TxFaults)
    requires ValidIndex(s)
    ensures Later(s, InitiateIn(s, p, fraud, d, f).0)
  {
    InitiateShape(s, p, fraud, d, f);
  }

  lemma SettleIsLater(s: Store, t: Uuid, status: Status, reason: string, d: Draw, f: TxFaults)
    requires ValidIndex(s)
    ensures Later(s, SettleIn(s, t, status, reason, d, f).0)
  {
    SettleShape(s, t, status, reason, d, f);
  }

  lemma OwnMoves(s: World, a: Action, w: Uuid)
    requires Inv(s)
    ensures Own(Step(s, a), w) == Own(s, w) + InflowTo(s, a, w)
  {
    match a {
      case Open(_, _, _, _, _) => OwnOpens(s, a, w);
      case Cash(_, _, _, _) => OwnCashes(s, a, w);
      case Deliver(_, _, _) => OwnDelivers(s, a, w);
      case GiveBack(t, ids, _) =>
        if Step(s, a) != s {
          ActedShares(s, Step(s, a), Releasing, t, ids, {}, w);
        }
      case _ =>
        TransactionsMoveLater(s, a);
        StoreShares(s, Step(s, a), w);
    }
  }

  lemma OwnOpens(s: World, a: Action, w: Uuid)
    requires ValidTable(s.wallets.table) && ValidIndex(s.store) && a.Open?
    ensures Own(Step(s, a), w) == Own(s, w)
  {
    TableShares(s, Step(s, a), w);
    if Step(s, a) != s {
      OpenedAvailable(s.wallets.table, a.walletId, a.userId, a.currency, a.eventId, w);
    }
  }

  lemma OwnCashes(s: World, a: Action, w: Uuid)
    requires ValidTable(s.wallets.table) && ValidIndex(s.store) && a.Cash?
    ensures Own(Step(s, a), w) == Own(s, w) + InflowTo(s, a, w)
  {
    TableShares(s, Step(s, a), w);
    CashedAvailable(s.wallets.table, a.walletId, a.command, a.eventId, a.dbFaults, w);
  }

  lemma CashedAvailable(t: Table, x: Uuid, c: Command, eventId: Uuid, f: DbFaults, w: Uuid)
    requires ValidTable(t)
    ensures Available(CashIn(t, x, c, eventId, f), w)
         == Available(t, w) + if w == x then CashFlow(t, x, c, eventId, f) else 0
  {
    if CashAccepted(t, x, c, eventId, f) {
      assert ExecuteIn(t, x, c, eventId) == Ok(CashIn(t, x, c, eventId, f));
      ExecutedAvailable(t, x, c, eventId, w);
    }
  }

  lemma OwnDelivers(s: World, a: Action, w: Uuid)
    requires Inv(s) && a.Deliver?
    ensures Own(Step(s, a), w) == Own(s, w)
  {
    if Step(s, a) != s {
      DeliverCases(s, a);
      var m := s.store.outbox[a.row];
      var k := if m.payload.TransactionInitiated? then Reserving else Crediting;
      ActedShares(s, Step(s, a), k, TxOf(m), a.ids, {m.id}, w);
    }
  }

  // ------------------------------------------------------------------ theorems over every run

  lemma StepLaws(s: World, a: Action)
    requires Inv(s)
    ensures Inv(Step(s, a)) && Money(Step(s, a)) == Money(s) + Inflow(s, a)
  {
    match a {
      case Open(_, _, _, _, _) => OpenStep(s, a);
      case Cash(_, _, _, _) => CashStep(s, a);
      case Initiate(_, _, _, _) => InitiateStep(s, a);
      case Complete(t, d, f) =>
        if Did(s, Reserving, t) {
          SettlingStep(s, t, Completed, "", d, f);
        }
      case Abandon(t, reason, d, f) => SettlingStep(s, t, Failed, reason, d, f);
      case Deliver(_, _, _) => DeliverStep(s, a);
      case GiveBack(_, _, _) => GiveBackStep(s, a);
    }
  }

  // Conservation: in every reachable state, under any order and repetition of deliveries, what is available
  // in all wallets plus what is reserved but not yet credited or released equals what came in from outside.
  lemma {:induction false} Conservation(actions: seq<Action>)
    ensures Inv(Run(actions))
    ensures Sum(Balances(Run(actions).wallets.table)) + Sum(Flights(Run(actions))) == TotalInflow(actions)
    decreases |actions|
  {
    if actions == [] {
      forall t
        ensures PhaseOk(EMPTY, t)
      {
      }
      assert ValidTable(EMPTY.wallets.table);
      assert Balances(EMPTY.wallets.table) == map[] && Flights(EMPTY) == map[];
    } else {
      var before := actions[..|actions| - 1];
      Conservation(before);
      StepLaws(Run(before), actions[|actions| - 1]);
    }
  }

  // Conservation wallet by wallet: what is available in a wallet is what was deposited minus withdrawn from
  // outside, minus its transfers still reserved or completed, plus the transfers credited to it.
  lemma {:induction false} WalletLedger(actions: seq<Action>, w: Uuid)
    ensures Available(Run(actions).wallets.table, w) == TotalInflowTo(actions, w) + Sum(Shares(Run(actions), w))
    decreases |actions|
  {
    if actions == [] {
      assert Shares(EMPTY, w) == map[];
    } else {
      var before := actions[..|actions| - 1];
      WalletLedger(before, w);
      Conservation(before);
      OwnMoves(Run(before), actions[|actions| - 1], w);
    }
  }

  // Per transfer, in every reachable state: at most one reservation and one credit, both of the transfer's
  // positive amount; a credit only after a reservation; never both a credit and a release.
  lemma TransferSafety(actions: seq<Action>, t: Uuid)
    ensures var s := Run(actions);
            var r, c, g := Amounts(s.wallets.notices, Reserving, t), Amounts(s.wallets.notices, Crediting, t),
                           Amounts(s.wallets.notices, Releasing, t);
            if t !in s.store.txs then r == c == g == []
            else
              && s.store.txs[t].amount > 0 && r in {[], [s.store.txs[t].amount]}
              && c in {[], r} && g in {[], r} && (c == [] || g == [])
  {
    Conservation(actions);
    var s := Run(actions);
    assert PhaseOk(s, t);
    if t in s.store.txs {
      forall k
        ensures Amounts(s.wallets.notices, k, t) in {[], [s.store.txs[t].amount]}
      {
      }
    }
  }

  // The source wallet's log, and no other, holds exactly the reservation and the release on record.
  lemma LogsHoldTheReservations(actions: seq<Action>, w: Uuid, t: Uuid)
    ensures var s := Run(actions);
            var own := t in s.store.txs && s.store.txs[t].source == w;
            && LogAmounts(s.wallets.table.Of(w), Reserving, t)
               == (if own then Amounts(s.wallets.notices, Reserving, t) else [])
            && LogAmounts(s.wallets.table.Of(w), Releasing, t)
               == (if own then Amounts(s.wallets.notices, Releasing, t) else [])
  {
    Conservation(actions);
    assert LogsAgree(Run(actions), w, t);
  }

  predicate ActsFor(s: World, a: Action, id: Uuid)
    requires ValidIndex(s.store)
  {
    a.Deliver? && a.row < |s.store.outbox| && s.store.outbox[a.row].id == id && Step(s, a) != s
  }

  // How many deliveries of an event changed anything.
  ghost function ActingDeliveries(actions: seq<Action>, id: Uuid): nat
    decreases |actions|
  {
    if actions == [] then 0 else
      var before := actions[..|actions| - 1];
      ActingDeliveries(before, id) + if ActsFor(Run(before), actions[|actions| - 1], id) then 1 else 0
  }

  // Over every run, however often an event is delivered: one delivery of it acted if it is marked, none if it
  // is not.
  lemma {:induction false} DeliveriesActOnce(actions: seq<Action>, id: Uuid)
    ensures ActingDeliveries(actions, id) == if id in Run(actions).wallets.processed then 1 else 0
    decreases |actions|
  {
    if actions != [] {
      var before, a := actions[..|actions| - 1], actions[|actions| - 1];
      DeliveriesActOnce(before, id);
      Conservation(before);
      ActionMarks(Run(before), a, id);
    }
  }

  lemma ActionMarks(s: World, a: Action, id: Uuid)
    requires Inv(s)
    ensures id in Step(s, a).wallets.processed <==> id in s.wallets.processed || ActsFor(s, a, id)
    ensures ActsFor(s, a, id) ==> id !in s.wallets.processed
  {
    if a.Deliver? && Step(s, a) != s {
      DeliverCases(s, a);
    }
  }
}
