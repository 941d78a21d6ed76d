// The wallet service's consumer of transaction events: deduplicate, act on the wallet, write the notice to
// the outbox, mark the event processed.
module SagaHandlers {
  import opened Base
  import opened Wallets
  import opened EventStores
  import opened WalletServices
  import opened Messages

  datatype Stores = Stores(table: Table, processed: set<Uuid>, notices: seq<Message<Notice>>)

  // The identifiers and the clock reading one delivery draws.
  datatype Ids = Ids(eventId: Uuid, noticeId: Uuid, now: nat)

  // Which operations of a delivery go wrong.
  datatype Faults = Faults(lookup: bool, wallet: DbFaults, outbox: Fate, mark: Fate)

  const NO_FAULTS := Faults(false, HEALTHY, Works, Works)

  datatype Job = Job(walletId: Uuid, command: Command, notice: Notice)

  // What an event asks of the wallets; other event types are ignored.
  function JobOf(p: TxEvent): Option<Job> {
    match p
    case TransactionInitiated(t, source, _, amount, _) =>
      Some(Job(source, Reserve(amount, t), ReservedNotice(source, t, amount)))
    case TransactionCompleted(t, _, dest, amount) =>
      Some(Job(dest, Deposit(amount, "saga credit"), DepositedNotice(dest, t, amount)))
    case TransactionFailed(_, _, _) => None
  }

  function NoticeMessage(j: Job, ids: Ids): Message<Notice> {
    Message(ids.noticeId, ids.now, j.walletId, j.notice)
  }

  // INSERT of a notice.
  function SaveNoticeIn(rows: seq<Message<Notice>>, m: Message<Notice>, fate: Fate)
    : (seq<Message<Notice>>, Option<Code>)
  {
    match SaveRow(rows, m)
    case Err(code) => (rows, Some(code))
    case Ok(more) => (if fate.Happens() then more else rows, fate.Error())
  }

  // The wallet command, then the notice: two writes, either of which may be the last one made.
  function ActIn(s: Stores, job: Job, ids: Ids, f: Faults): (Stores, Option<Code>) {
    var (t, err) := ExecuteWith(s.table, job.walletId, job.command, ids.eventId, f.wallet);
    if err.Some? then (s.(table := t), err)
    else
      var (rows, failed) := SaveNoticeIn(s.notices, NoticeMessage(job, ids), f.outbox);
      (s.(table := t, notices := rows), failed)
  }

  function HandleIn(s: Stores, m: Message<TxEvent>, ids: Ids, f: Faults): (Stores, Option<Code>) {
    if f.lookup then (s, Some(Internal))
    else if m.id in s.processed then (s, None)
    else match JobOf(m.payload)
      case None => (s, None)
      case Some(job) =>
        var (acted, err) := ActIn(s, job, ids, f);
        if err.Some? then (acted, err)
        else (if f.mark.Happens() then acted.(processed := s.processed + {m.id}) else acted, f.mark.Error())
  }

  // One delivery of an event, with the ids it draws and the operations that go wrong.
  datatype Attempt = Attempt(msg: Message<TxEvent>, ids: Ids, faults: Faults)

  function Handled(s: Stores, a: Attempt): (Stores, Option<Code>) {
    HandleIn(s, a.msg, a.ids, a.faults)
  }

  // The stores after a sequence of deliveries.
  function HandleAll(s: Stores, d: seq<Attempt>): Stores
    decreases |d|
  {
    if d == [] then s else Handled(HandleAll(s, d[..|d| - 1]), d[|d| - 1]).0
  }

  // The attempt appends its wallet event and ends without a mark.
  predicate StopsUnmarked(s: Stores, a: Attempt) {
    var after := Handled(s, a).0;
    after.table != s.table && a.msg.id !in after.processed
  }

  lemma ExecutedTableDiffers(t: Table, job: Job, eventId: Uuid)
    ensures var r := ExecuteIn(t, job.walletId, job.command, eventId);
            r.Ok? ==> r.value != t
  {
    var r := ExecuteIn(t, job.walletId, job.command, eventId);
    if r.Ok? {
      assert eventId in r.value.ids && eventId !in t.ids;
    }
  }

  // ------------------------------------------------------------------ what a delivery does, spelled out

  // The wallet acts, then the notice is written, then the event is marked, each only after the one before it
  // answered success.
  ghost predicate ActsOn(s: Stores, s': Stores, err: Option<Code>, w: Uuid, c: Command, notice: Notice, a: Attempt) {
    var f := a.faults;
    var acted := f.wallet.commit.Works? && ((|s.table.Of(w)| + 1) % 50 != 0 || f.wallet.saveSnapshot.Works?);
    var free := !IdTaken(s.notices, a.ids.noticeId);
    && AppendedTo(s.table, s'.table, w, a.ids.eventId, c)
    && s'.notices == (if acted && free && f.outbox.Happens()
                      then s.notices + [Message(a.ids.noticeId, a.ids.now, w, notice)] else s.notices)
    && s'.processed == (if acted && free && f.outbox.Works? && f.mark.Happens() then s.processed + {a.msg.id}
                        else s.processed)
    && err == if acted && free && f.outbox.Works? && f.mark.Works? then None else Some(Internal)
  }

  // A command is asked for by an event that is looked at.
  ghost predicate Answers(s: Stores, s': Stores, err: Option<Code>, w: Uuid, c: Command, notice: Notice, a: Attempt) {
    var f, log := a.faults, s.table.Of(w);
    if f.wallet.loadEvents then s' == s && err == Some(Internal)
    else if log == [] then s' == s && err == Some(NotFound)
    else if c.Deposit? && c.amount <= 0 then s' == s && err == Some(InvalidArgument)
    else if c.Reserve? && c.amount > Replay(ZERO, log).balance - Replay(ZERO, log).reserved then
      s' == s && err == Some(InsufficientFunds)
    else if f.wallet.begin || f.wallet.commit.Fails? || a.ids.eventId in s.table.ids then
      s' == s && err == Some(Internal)
    else ActsOn(s, s', err, w, c, notice, a)
  }

  // Whatever is delivered and whatever fails: TransactionInitiated reserves its amount on the source wallet,
  // TransactionCompleted credits it to the destination, each with its notice under the wallet's key;
  // everything else leaves the stores alone.
  lemma DeliveryAnswers(s: Stores, a: Attempt)
    requires ValidTable(s.table)
    ensures var (s', err) := Handled(s, a);
            if a.faults.lookup then s' == s && err == Some(Internal)
            else if a.msg.id in s.processed then s' == s && err == None
            else match a.msg.payload
              case TransactionInitiated(t, source, _, amount, _) =>
                Answers(s, s', err, source, Reserve(amount, t), ReservedNotice(source, t, amount), a)
              case TransactionCompleted(t, _, dest, amount) =>
                Answers(s, s', err, dest, Deposit(amount, "saga credit"), DepositedNotice(dest, t, amount), a)
              case TransactionFailed(_, _, _) => s' == s && err == None
  {
    if JobOf(a.msg.payload).Some? {
      var job := JobOf(a.msg.payload).value;
      CommandAnswers(s.table, job.walletId, job.command, a.ids.eventId, a.faults.wallet);
    }
  }

  // A delivery acts on a wallet if and only if the event is looked at for the first time, asks for an action,
  // the wallet exists and allows it, the event id is free, and the append takes effect.
  lemma ActsExactly(s: Stores, a: Attempt)
    requires ValidTable(s.table)
    ensures Handled(s, a).0.table != s.table
            <==> && !a.faults.lookup && a.msg.id !in s.processed && !a.faults.wallet.loadEvents
                 && !a.faults.wallet.begin && a.faults.wallet.commit.Happens() && a.ids.eventId !in s.table.ids
                 && match a.msg.payload
                    case TransactionInitiated(_, source, _, amount, _) =>
                      s.table.Of(source) != [] && amount <= Replay(ZERO, s.table.Of(source)).Available()
                    case TransactionCompleted(_, _, dest, amount) => s.table.Of(dest) != [] && amount > 0
                    case TransactionFailed(_, _, _) => false
  {
    DeliveryAnswers(s, a);
  }

  class SagaHandler {
    const walletSvc: WalletService
    var processed: set<Uuid>
    var outbox: seq<Message<Notice>>

    function Value(): Stores
      reads this, walletSvc.events
    {
      Stores(walletSvc.events.table, processed, outbox)
    }

    constructor (walletSvc: WalletService)
      ensures this.walletSvc == walletSvc && processed == {} && outbox == []
    {
      this.walletSvc := walletSvc;
      processed, outbox := {}, [];
    }

    method Handle(m: Message<TxEvent>, ids: Ids, f: Faults) returns (err: Option<Code>)
      requires walletSvc.Valid()
      modifies this, walletSvc.events, walletSvc.snapshots
      ensures walletSvc.Valid()
      ensures (Value(), err) == HandleIn(old(Value()), m, ids, f)
    {
      if f.lookup {
        return Some(Internal);
      }
      if m.id in processed {
        return None;
      }
      match m.payload {
        case TransactionInitiated(t, source, _, amount, _) =>
          err := HandleTransactionInitiated(t, source, amount, ids, f);
        case TransactionCompleted(t, _, dest, amount) =>
          err := HandleTransactionCompleted(t, dest, amount, ids, f);
        case TransactionFailed(_, _, _) =>
          return None;
      }
      if err.Some? {
        return err;
      }
      err := MarkProcessed(m.id, f.mark);
    }

    method MarkProcessed(id: Uuid, fate: Fate) returns (err: Option<Code>)
      modifies this`processed
      ensures processed == (if fate.Happens() then old(processed) + {id} else old(processed)) && err == fate.Error()
    {
      if fate.Happens() {
        processed := processed + {id};
      }
      return fate.Error();
    }

    method HandleTransactionInitiated(t: Uuid, source: Uuid, amountCents: int, ids: Ids, f: Faults)
      returns (err: Option<Code>)
      requires walletSvc.Valid()
      modifies this`outbox, walletSvc.events, walletSvc.snapshots
      ensures walletSvc.Valid()
      ensures (Value(), err) == ActIn(old(Value()), Job(source, Reserve(amountCents, t),
                                                        ReservedNotice(source, t, amountCents)), ids, f)
    {
      var r := walletSvc.ReserveForTransaction(source, amountCents, t, ids.eventId, f.wallet);
      if r.Err? {
        return Some(r.code);
      }
      err := SaveNotice(Message(ids.noticeId, ids.now, source, ReservedNotice(source, t, amountCents)), f.outbox);
    }

    method HandleTransactionCompleted(t: Uuid, dest: Uuid, amountCents: int, ids: Ids, f: Faults)
      returns (err: Option<Code>)
      requires walletSvc.Valid()
      modifies this`outbox, walletSvc.events, walletSvc.snapshots
      ensures walletSvc.Valid()
      ensures (Value(), err) == ActIn(old(Value()), Job(dest, Deposit(amountCents, "saga credit"),
                                                        DepositedNotice(dest, t, amountCents)), ids, f)
    {
      var r := walletSvc.CreditForTransaction(dest, amountCents, t, ids.eventId, f.wallet);
      if r.Err? {
        return Some(r.code);
      }
      err := SaveNotice(Message(ids.noticeId, ids.now, dest, DepositedNotice(dest, t, amountCents)), f.outbox);
    }

    method SaveNotice(m: Message<Notice>, fate: Fate) returns (err: Option<Code>)
      modifies this`outbox
      ensures (outbox, err) == SaveNoticeIn(old(outbox), m, fate)
    {
      match SaveRow(outbox, m) {
        case Err(code) => return Some(code);
        case Ok(rows) =>
          if fate.Happens() {
            outbox := rows;
          }
      }
      return fate.Error();
    }
  }
}
