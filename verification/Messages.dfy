// Outbox rows and the records published from them.
module Messages {
  import opened Base

  // created_at orders the rows; key is the wallet whose partition the record goes to.
  datatype Message<+P> = Message(id: Uuid, createdAt: nat, key: Uuid, payload: P)

  datatype TxEvent =
    | TransactionInitiated(transactionId: Uuid, source: Uuid, dest: Uuid, amount: int, description: string)
    | TransactionCompleted(transactionId: Uuid, source: Uuid, dest: Uuid, amount: int)
    | TransactionFailed(transactionId: Uuid, source: Uuid, reason: string)

  // The payloads the wallet service writes to its own outbox.
  datatype Notice =
    | ReservedNotice(walletId: Uuid, transactionId: Uuid, amount: int)
    | ReleasedNotice(walletId: Uuid, transactionId: Uuid, amount: int)
    | DepositedNotice(walletId: Uuid, transactionId: Uuid, amount: int)

  predicate IdTaken<P>(rows: seq<Message<P>>, id: Uuid) {
    exists i :: 0 <= i < |rows| && rows[i].id == id
  }

  // INSERT into an outbox table: the id is the primary key.
  function SaveRow<P>(rows: seq<Message<P>>, m: Message<P>): Result<seq<Message<P>>> {
    if IdTaken(rows, m.id) then Err(Internal) else Ok(rows + [m])
  }
}
