// The transaction service: validation, the idempotency key, and the transaction lifecycle.
module Transactions {
  import opened Base
  import opened Messages

  datatype Status = Pending | Completed | Failed | Compensated

  datatype TxRow = TxRow(
    id: Uuid, source: Uuid, dest: Uuid, amount: int, description: string,
    status: Status, failureReason: string, idempotencyKey: string)

  // A transfer as it is loaded, changed and written back.
  class Transaction {
    var row: TxRow

    constructor (row: TxRow)
      ensures this.row == row
    {
      this.row := row;
    }

    static method NewTransaction(source: Uuid, dest: Uuid, amountCents: int, description: string, key: string, id: Uuid)
      returns (r: Result<Transaction>)
      ensures r.Ok? <==> amountCents > 0 && source != dest
      ensures r.Err? ==> r.code == InvalidArgument
      ensures r.Ok? ==> fresh(r.value)
                        && r.value.row == TxRow(id, source, dest, amountCents, description, Pending, "", key)
    {
      if amountCents <= 0 {
        return Err(InvalidArgument);
      }
      if source == dest {
        return Err(InvalidArgument);
      }
      var tx := new Transaction(TxRow(id, source, dest, amountCents, description, Pending, "", key));
      return Ok(tx);
    }

    method Complete()
      modifies this
      ensures row == old(row).(status := Completed)
    {
      row := row.(status := Completed);
    }

    method Fail(reason: string)
      modifies this
      ensures row == old(row).(status := Failed, failureReason := reason)
    {
      row := row.(status := Failed, failureReason := reason);
    }
  }

  // The transactions table, its partial unique index on non-empty idempotency keys, and the outbox.
  datatype Store = Store(txs: map<Uuid, TxRow>, byKey: map<string, Uuid>, outbox: seq<Message<TxEvent>>) {

    function Insert(row: TxRow): Result<Store> {
      if row.id in txs || (row.idempotencyKey != "" && row.idempotencyKey in byKey) then Err(Internal)
      else Ok(this.(txs := txs[row.id := row],
                    byKey := if row.idempotencyKey != "" then byKey[row.idempotencyKey := row.id] else byKey))
    }

    // UPDATE transactions SET status, failure_reason WHERE id
    function Update(row: TxRow): Store {
      if row.id !in txs then this
      else this.(txs := txs[row.id := txs[row.id].(status := row.status, failureReason := row.failureReason)])
    }

    function Enqueue(m: Message<TxEvent>): Result<Store> {
      match SaveRow(outbox, m)
      case Err(code) => Err(code)
      case Ok(rows) => Ok(this.(outbox := rows))
    }
  }

  ghost predicate ValidIndex(s: Store) {
    && (forall t :: t in s.txs ==> s.txs[t].id == t && s.txs[t].amount > 0 && s.txs[t].source != s.txs[t].dest)
    && (forall k :: k in s.byKey ==> k != "" && s.byKey[k] in s.txs && s.txs[s.byKey[k]].idempotencyKey == k)
    && (forall t :: t in s.txs && s.txs[t].idempotencyKey != "" ==>
          s.txs[t].idempotencyKey in s.byKey && s.byKey[s.txs[t].idempotencyKey] == t)
  }

  datatype FraudReply = Unchecked | Approved | Review | Rejected | Unavailable

  datatype Transfer = Transfer(source: Uuid, dest: Uuid, amount: int, description: string, key: string)

  // The identifiers and the clock reading one call draws.
  datatype Draw = Draw(txId: Uuid, eventId: Uuid, now: nat)

  datatype InitiateResult = InitiateResult(transactionId: Uuid, status: Status)

  function Refusal(p: Transfer, fraud: FraudReply): Option<Code> {
    if p.amount <= 0 || p.source == p.dest then Some(InvalidArgument)
    else match fraud
      case Unavailable => Some(Internal)
      case Rejected => Some(PermissionDenied)
      case _ => None
  }

  function NewRow(p: Transfer, id: Uuid): TxRow {
    TxRow(id, p.source, p.dest, p.amount, p.description, Pending, "", p.key)
  }

  function InitiatedMessage(row: TxRow, d: Draw): Message<TxEvent> {
    Message(d.eventId, d.now, row.source,
            TransactionInitiated(row.id, row.source, row.dest, row.amount, row.description))
  }

  // The message that announces a final status.
  function FinalMessage(row: TxRow, d: Draw): Message<TxEvent> {
    Message(d.eventId, d.now, row.source,
            if row.status == Completed then TransactionCompleted(row.id, row.source, row.dest, row.amount)
            else TransactionFailed(row.id, row.source, row.failureReason))
  }

  // Which database operations of one call go wrong: the lookup, the first write, the outbox insert.
  datatype TxFaults = TxFaults(lookup: bool, save: Fate, outbox: Fate)

  // The second write of every call. The error does not undo the first one.
  function EnqueueIn(s: Store, m: Message<TxEvent>, fate: Fate): (Store, Option<Code>) {
    match s.Enqueue(m)
    case Err(code) => (s, Some(code))
    case Ok(done) => (if fate.Happens() then done else s, fate.Error())
  }

  // InitiateTransfer as one step. A failed key lookup counts as a missing key.
  function InitiateIn(s: Store, p: Transfer, fraud: FraudReply, d: Draw, f: TxFaults): (Store, Result<InitiateResult>)
    requires ValidIndex(s)
  {
    if p.key != "" && !f.lookup && p.key in s.byKey then
      (s, Ok(InitiateResult(s.byKey[p.key], s.txs[s.byKey[p.key]].status)))
    else if Refusal(p, fraud).Some? then (s, Err(Refusal(p, fraud).value))
    else
      match s.Insert(NewRow(p, d.txId))
      case Err(code) => (s, Err(code))
      case Ok(saved) =>
        if f.save.Error().Some? then (if f.save.Happens() then saved else s, Err(Internal))
        else
          var (queued, err) := EnqueueIn(saved, InitiatedMessage(NewRow(p, d.txId), d), f.outbox);
          (queued, if err.Some? then Err(err.value) else Ok(InitiateResult(d.txId, Pending)))
  }

  // CompleteTransaction and FailTransaction as one step.
  function SettleIn(s: Store, txId: Uuid, status: Status, reason: string, d: Draw, f: TxFaults): (Store, Option<Code>) {
    if f.lookup then (s, Some(Internal))
    else if txId !in s.txs then (s, Some(NotFound))
    else if s.txs[txId].status != Pending then (s, Some(Conflict))
    else
      var row := s.txs[txId].(status := status,
                              failureReason := if status == Failed then reason else s.txs[txId].failureReason);
      if f.save.Error().Some? then (if f.save.Happens() then s.Update(row) else s, Some(Internal))
      else EnqueueIn(s.Update(row), FinalMessage(row, d), f.outbox)
  }

  // ------------------------------------------------------------------ what a caller can rely on

  // A transaction's row, its key and its message, spelled out.
  ghost predicate AddsTransfer(s: Store, s': Store, p: Transfer, id: Uuid) {
    && s'.txs == s.txs[id := TxRow(id, p.source, p.dest, p.amount, p.description, Pending, "", p.key)]
    && s'.byKey == if p.key == "" then s.byKey else s.byKey[p.key := id]
  }

  function InitiatedRow(p: Transfer, d: Draw): Message<TxEvent> {
    Message(d.eventId, d.now, p.source, TransactionInitiated(d.txId, p.source, p.dest, p.amount, p.description))
  }

  // Whatever fails, in terms of the call, the fraud reply and the stored rows alone: which transfers are
  // refused and how, when a row appears, when it is announced, and what the caller is told.
  lemma InitiateAnswers(s: Store, p: Transfer, fraud: FraudReply, d: Draw, f: TxFaults)
    requires ValidIndex(s)
    ensures var (s', r) := InitiateIn(s, p, fraud, d, f);
            if p.key != "" && !f.lookup && p.key in s.byKey then
              s' == s && r == Ok(InitiateResult(s.byKey[p.key], s.txs[s.byKey[p.key]].status))
            else if p.amount <= 0 || p.source == p.dest then s' == s && r == Err(InvalidArgument)
            else if fraud == Rejected then s' == s && r == Err(PermissionDenied)
            else if fraud == Unavailable then s' == s && r == Err(Internal)
            else if d.txId in s.txs || (p.key != "" && p.key in s.byKey) || f.save.Fails? then
              s' == s && r == Err(Internal)
            else
              var announced := f.save.Works? && !IdTaken(s.outbox, d.eventId) && f.outbox.Happens();
              && AddsTransfer(s, s', p, d.txId)
              && s'.outbox == (if announced then s.outbox + [InitiatedRow(p, d)] else s.outbox)
              && r == if announced && f.outbox.Works? then Ok(InitiateResult(d.txId, Pending)) else Err(Internal)
  {
  }

  // A transfer is stored if and only if nothing stands against it; a rejected one never is.
  lemma StoredExactly(s: Store, p: Transfer, fraud: FraudReply, d: Draw, f: TxFaults)
    requires ValidIndex(s)
    ensures InitiateIn(s, p, fraud, d, f).0 != s
            <==> && (p.key == "" || p.key !in s.byKey) && p.amount > 0 && p.source != p.dest
                 && fraud in {Unchecked, Approved, Review} && d.txId !in s.txs && f.save.Happens()
  {
    InitiateAnswers(s, p, fraud, d, f);
  }

  // A success names a stored transaction of this key, announced if it is new.
  lemma SuccessIsStored(s: Store, p: Transfer, fraud: FraudReply, d: Draw, f: TxFaults)
    requires ValidIndex(s) && InitiateIn(s, p, fraud, d, f).1.Ok?
    ensures var (s', r) := InitiateIn(s, p, fraud, d, f);
            && r.value.transactionId in s'.txs && s'.txs[r.value.transactionId].idempotencyKey == p.key
            && s'.txs[r.value.transactionId].status == r.value.status
            && (s' != s ==> s'.outbox == s.outbox + [InitiatedRow(p, d)] && r.value.transactionId == d.txId)
  {
    InitiateAnswers(s, p, fraud, d, f);
  }

  function FinalRow(tx: TxRow, status: Status, reason: string, d: Draw): Message<TxEvent> {
    Message(d.eventId, d.now, tx.source,
            if status == Completed then TransactionCompleted(tx.id, tx.source, tx.dest, tx.amount)
            else TransactionFailed(tx.id, tx.source, reason))
  }

  // The call stops between its two writes: the update took effect, the message is not written.
  predicate Tears(s: Store, txId: Uuid, d: Draw, f: TxFaults) {
    && !f.lookup && txId in s.txs && s.txs[txId].status == Pending && f.save.Happens()
    && !(f.save.Works? && !IdTaken(s.outbox, d.eventId) && f.outbox.Happens())
  }

  // The same of completing and failing.
  lemma SettleAnswers(s: Store, txId: Uuid, status: Status, reason: string, d: Draw, f: TxFaults)
    requires ValidIndex(s) && status in {Completed, Failed}
    ensures var (s', err) := SettleIn(s, txId, status, reason, d, f);
            if f.lookup then s' == s && err == Some(Internal)
            else if txId !in s.txs then s' == s && err == Some(NotFound)
            else if s.txs[txId].status != Pending then s' == s && err == Some(Conflict)
            else if f.save.Fails? then s' == s && err == Some(Internal)
            else
              var tx := s.txs[txId];
              && s'.byKey == s.byKey && s'.txs.Keys == s.txs.Keys
              && (forall t :: t in s.txs && t != txId ==> s'.txs[t] == s.txs[t])
              && s'.txs[txId] == tx.(status := status, failureReason := if status == Failed then reason
                                                                        else tx.failureReason)
              && s'.outbox == (if Tears(s, txId, d, f) then s.outbox
                               else s.outbox + [FinalRow(tx, status, reason, d)])
              && err == if !Tears(s, txId, d, f) && f.outbox.Works? then None else Some(Internal)
  {
  }

  // A settlement that answers success moved the transaction and announced it, and it answers success whenever
  // the transaction is pending, the message id is free and nothing fails.
  lemma SuccessIsAnnounced(s: Store, txId: Uuid, status: Status, reason: string, d: Draw, f: TxFaults)
    requires ValidIndex(s) && status in {Completed, Failed}
    ensures var (s', err) := SettleIn(s, txId, status, reason, d, f);
            && (err == None ==> txId in s.txs && s'.txs[txId].status == status
                                && s'.outbox == s.outbox + [FinalRow(s.txs[txId], status, reason, d)])
            && (err == None <==> && !f.lookup && txId in s.txs && s.txs[txId].status == Pending && f.save.Works?
                                 && !IdTaken(s.outbox, d.eventId) && f.outbox.Works?)
  {
    SettleAnswers(s, txId, status, reason, d, f);
  }

  // ------------------------------------------------------------------ what every call keeps

  lemma InsertKeepsIndex(s: Store, row: TxRow)
    requires ValidIndex(s) && s.Insert(row).Ok? && row.amount > 0 && row.source != row.dest
    ensures ValidIndex(s.Insert(row).value)
  {
  }

  // Initiating changes nothing, or adds an acceptable row, or adds it and announces it.
  lemma InitiateShape(s: Store, p: Transfer, fraud: FraudReply, d: Draw, f: TxFaults)
    requires ValidIndex(s)
    ensures var s', row := InitiateIn(s, p, fraud, d, f).0, NewRow(p, d.txId);
            var saved := s.Insert(row);
            s' == s || (p.amount > 0 && p.source != p.dest && saved.Ok?
                        && (s' == saved.value || Ok(s') == saved.value.Enqueue(InitiatedMessage(row, d))))
  {
  }

  lemma InitiateKeepsIndex(s: Store, p: Transfer, fraud: FraudReply, d: Draw, f: TxFaults)
    requires ValidIndex(s)
    ensures ValidIndex(InitiateIn(s, p, fraud, d, f).0)
  {
    InitiateShape(s, p, fraud, d, f);
    if InitiateIn(s, p, fraud, d, f).0 != s {
      InsertKeepsIndex(s, NewRow(p, d.txId));
    }
  }

  // Settling changes nothing, or updates one pending row, or updates it and announces it.
  lemma SettleShape(s: Store, txId: Uuid, status: Status, reason: string, d: Draw, f: TxFaults)
    requires ValidIndex(s)
    ensures var s' := SettleIn(s, txId, status, reason, d, f).0;
            s' == s || (txId in s.txs && s.txs[txId].status == Pending && s'.byKey == s.byKey
                        && s'.txs == s.txs[txId := s.txs[txId].(status := status, failureReason :=
                                             if status == Failed then reason else s.txs[txId].failureReason)])
  {
  }

  lemma SettleKeepsIndex(s: Store, txId: Uuid, status: Status, reason: string, d: Draw, f: TxFaults)
    requires ValidIndex(s)
    ensures ValidIndex(SettleIn(s, txId, status, reason, d, f).0)
  {
    var s' := SettleIn(s, txId, status, reason, d, f).0;
    SettleShape(s, txId, status, reason, d, f);
    StatusKeepsIndex(s, s');
  }

  lemma StatusKeepsIndex(s: Store, s': Store)
    requires ValidIndex(s) && s'.byKey == s.byKey && s'.txs.Keys == s.txs.Keys
    requires forall t :: t in s.txs ==>
               s'.txs[t] == s.txs[t].(status := s'.txs[t].status, failureReason := s'.txs[t].failureReason)
    ensures ValidIndex(s')
  {
  }

  class TransactionService {
    var store: Store

    constructor ()
      ensures store == Store(map[], map[], []) && ValidIndex(store)
    {
      store := Store(map[], map[], []);
    }

    method InitiateTransfer(p: Transfer, fraud: FraudReply, d: Draw, f: TxFaults) returns (r: Result<InitiateResult>)
      requires ValidIndex(store)
      modifies this
      ensures ValidIndex(store)
      ensures (store, r) == InitiateIn(old(store), p, fraud, d, f)
    {
      if p.key != "" {
        if !f.lookup && p.key in store.byKey {
          var existing := store.txs[store.byKey[p.key]];
          return Ok(InitiateResult(existing.id, existing.status));
        }
      }
      var created := Transaction.NewTransaction(p.source, p.dest, p.amount, p.description, p.key, d.txId);
      if created.Err? {
        return Err(created.code);
      }
      var tx := created.value;
      if fraud == Unavailable {
        return Err(Internal);
      }
      if fraud == Rejected {
        return Err(PermissionDenied);
      }
      var err := Save(tx, f.save);
      if err.Some? {
        return Err(err.value);
      }
      err := Enqueue(InitiatedMessage(tx.row, d), f.outbox);
      if err.Some? {
        return Err(err.value);
      }
      return Ok(InitiateResult(tx.row.id, tx.row.status));
    }

    method CompleteTransaction(txId: Uuid, d: Draw, f: TxFaults) returns (err: Option<Code>)
      requires ValidIndex(store)
      modifies this
      ensures ValidIndex(store)
      ensures (store, err) == SettleIn(old(store), txId, Completed, "", d, f)
    {
      SettleKeepsIndex(store, txId, Completed, "", d, f);
      if f.lookup {
        return Some(Internal);
      }
      if txId !in store.txs {
        return Some(NotFound);
      }
      var tx := new Transaction(store.txs[txId]);
      if tx.row.status != Pending {
        return Some(Conflict);
      }
      tx.Complete();
      err := Update(tx, f.save);
      if err == None {
        err := Enqueue(FinalMessage(tx.row, d), f.outbox);
      }
    }

    method FailTransaction(txId: Uuid, reason: string, d: Draw, f: TxFaults) returns (err: Option<Code>)
      requires ValidIndex(store)
      modifies this
      ensures ValidIndex(store)
      ensures (store, err) == SettleIn(old(store), txId, Failed, reason, d, f)
    {
      SettleKeepsIndex(store, txId, Failed, reason, d, f);
      if f.lookup {
        return Some(Internal);
      }
      if txId !in store.txs {
        return Some(NotFound);
      }
      var tx := new Transaction(store.txs[txId]);
      if tx.row.status != Pending {
        return Some(Conflict);
      }
      tx.Fail(reason);
      err := Update(tx, f.save);
      if err == None {
        err := Enqueue(FinalMessage(tx.row, d), f.outbox);
      }
    }

    // INSERT INTO transactions
    method Save(tx: Transaction, fate: Fate) returns (err: Option<Code>)
      requires ValidIndex(store) && tx.row.amount > 0 && tx.row.source != tx.row.dest
      modifies this
      ensures ValidIndex(store)
      ensures match old(store).Insert(tx.row)
              case Err(code) => err == Some(code) && store == old(store)
              case Ok(saved) => err == fate.Error() && store == if fate.Happens() then saved else old(store)
    {
      match store.Insert(tx.row) {
        case Err(code) => return Some(code);
        case Ok(saved) =>
          InsertKeepsIndex(store, tx.row);
          if fate.Happens() {
            store := saved;
          }
      }
      return fate.Error();
    }

    // UPDATE transactions
    method Update(tx: Transaction, fate: Fate) returns (err: Option<Code>)
      modifies this
      ensures store == (if fate.Happens() then old(store).Update(tx.row) else old(store)) && err == fate.Error()
    {
      if fate.Happens() {
        store := store.Update(tx.row);
      }
      return fate.Error();
    }

    // INSERT INTO outbox_events
    method Enqueue(m: Message<TxEvent>, fate: Fate) returns (err: Option<Code>)
      modifies this
      ensures (store, err) == EnqueueIn(old(store), m, fate)
    {
      match store.Enqueue(m) {
        case Err(code) => return Some(code);
        case Ok(queued) =>
          if fate.Happens() {
            store := queued;
          }
      }
      return fate.Error();
    }
  }
}
