// The saga consumer when operations fail half way: how many effects each event has, what the logs hold, and
// what the duplicates do to the money.
module Duplicates {
  import opened Base
  import opened Messages
  import opened Wallets
  import opened EventStores
  import opened WalletServices
  import opened SagaHandlers
  import opened Saga

  // The attempt appended a wallet event.
  predicate Appends(before: Stores, a: Attempt) {
    Handled(before, a).0.table != before.table
  }

  // ------------------------------------------------------------------ effects per event

  function Effects(s: Stores, attempts: seq<Attempt>, id: Uuid): nat
    decreases |attempts|
  {
    if attempts == [] then 0 else
      var before, last := attempts[..|attempts| - 1], attempts[|attempts| - 1];
      Effects(s, before, id) + if last.msg.id == id && Appends(HandleAll(s, before), last) then 1 else 0
  }

  function UnmarkedAttempts(s: Stores, attempts: seq<Attempt>, id: Uuid): nat
    decreases |attempts|
  {
    if attempts == [] then 0 else
      var before, last := attempts[..|attempts| - 1], attempts[|attempts| - 1];
      UnmarkedAttempts(s, before, id) + if last.msg.id == id && StopsUnmarked(HandleAll(s, before), last) then 1 else 0
  }

  // For every event id, whatever its type, its payload and the other events: the effects it had are exactly
  // the attempts that ended unmarked after the effect, plus one if it is marked.
  lemma {:induction false} ExactDuplicates(s: Stores, attempts: seq<Attempt>, id: Uuid)
    requires id !in s.processed
    ensures Effects(s, attempts, id)
         == UnmarkedAttempts(s, attempts, id) + if id in HandleAll(s, attempts).processed then 1 else 0
    decreases |attempts|
  {
    if attempts != [] {
      var before, last := attempts[..|attempts| - 1], attempts[|attempts| - 1];
      ExactDuplicates(s, before, id);
      MarkNeedsEffect(HandleAll(s, before), last, id);
    }
  }

  // A mark comes with an effect of the same attempt, and a marked event has no further effect.
  lemma MarkNeedsEffect(s: Stores, a: Attempt, id: Uuid)
    ensures var after := Handled(s, a).0;
            && (a.msg.id == id && Appends(s, a) ==> id !in s.processed)
            && (id in after.processed <==>
                  id in s.processed || (a.msg.id == id && Appends(s, a) && !StopsUnmarked(s, a)))
  {
    if JobOf(a.msg.payload).Some? {
      ExecutedTableDiffers(s.table, JobOf(a.msg.payload).value, a.ids.eventId);
    }
  }

  // Once an event is marked, no delivery of it changes anything, whatever fails.
  lemma NothingAfterTheMark(s: Stores, a: Attempt)
    requires a.msg.id in s.processed
    ensures Handled(s, a).0 == s
  {
  }

  // ------------------------------------------------------------------ effects in the logs

  // What an accepted command writes, whatever the state.
  function PayloadOf(c: Command): Payload {
    match c
    case Deposit(amount, description) => FundsDeposited(amount, description)
    case Withdraw(amount, description) => FundsWithdrawn(amount, description)
    case Reserve(amount, transactionId) => FundsReserved(amount, transactionId)
    case Release(amount, transactionId) => FundsReleased(amount, transactionId)
  }

  function Count(log: seq<Event>, q: Payload -> bool): nat
    decreases |log|
  {
    if log == [] then 0 else Count(log[..|log| - 1], q) + if q(log[|log| - 1].payload) then 1 else 0
  }

  // The event asks wallet w for a command that writes such a payload.
  predicate Asks(m: Message<TxEvent>, w: Uuid, q: Payload -> bool) {
    var job := JobOf(m.payload);
    job.Some? && job.value.walletId == w && q(PayloadOf(job.value.command))
  }

  function EffectsOn(s: Stores, attempts: seq<Attempt>, w: Uuid, q: Payload -> bool): nat
    decreases |attempts|
  {
    if attempts == [] then 0 else
      var before, last := attempts[..|attempts| - 1], attempts[|attempts| - 1];
      EffectsOn(s, before, w, q) + if Asks(last.msg, w, q) && Appends(HandleAll(s, before), last) then 1 else 0
  }

  // Each wallet's log holds its earlier events and one for every effect that asked for it, of any kind.
  lemma {:induction false} LogsCountEffects(s: Stores, attempts: seq<Attempt>, w: Uuid, q: Payload -> bool)
    requires ValidTable(s.table)
    ensures ValidTable(HandleAll(s, attempts).table)
    ensures Count(HandleAll(s, attempts).table.Of(w), q)
         == Count(s.table.Of(w), q) + EffectsOn(s, attempts, w, q)
    decreases |attempts|
  {
    if attempts != [] {
      var before, last := attempts[..|attempts| - 1], attempts[|attempts| - 1];
      LogsCountEffects(s, before, w, q);
      OneEffect(HandleAll(s, before), last, w, q);
    }
  }

  lemma OneEffect(s: Stores, a: Attempt, w: Uuid, q: Payload -> bool)
    requires ValidTable(s.table)
    ensures ValidTable(Handled(s, a).0.table)
    ensures Count(Handled(s, a).0.table.Of(w), q)
         == Count(s.table.Of(w), q) + if Asks(a.msg, w, q) && Appends(s, a) then 1 else 0
  {
    if Appends(s, a) {
      var job, after := JobOf(a.msg.payload).value, Handled(s, a).0.table;
      assert ExecuteIn(s.table, job.walletId, job.command, a.ids.eventId) == Ok(after);
      ExecutedCount(s.table, job, a.ids.eventId, w, q);
    }
  }

  lemma ExecutedCount(t: Table, job: Job, eventId: Uuid, w: Uuid, q: Payload -> bool)
    requires ValidTable(t) && ExecuteIn(t, job.walletId, job.command, eventId).Ok?
    ensures var after := ExecuteIn(t, job.walletId, job.command, eventId).value;
            ValidTable(after)
            && Count(after.Of(w), q)
               == Count(t.Of(w), q) + if job.walletId == w && q(PayloadOf(job.command)) then 1 else 0
  {
    var log := t.Of(job.walletId);
    ExecuteAppendsOne(t, job.walletId, job.command, eventId);
    var e := NextEvent(Replay(ZERO, log), eventId, Decide(Replay(ZERO, log), job.command).value);
    assert e.payload == PayloadOf(job.command);
    assert (log + [e])[..|log|] == log;
  }

  // If one event alone asks for such a payload, the log counts its attempts: before, plus those that ended
  // unmarked, plus one if it is marked.
  lemma DuplicatesInLog(s: Stores, attempts: seq<Attempt>, first: Message<TxEvent>, w: Uuid, q: Payload -> bool)
    requires ValidTable(s.table) && first.id !in s.processed && Asks(first, w, q)
    requires forall i :: 0 <= i < |attempts| ==> (Asks(attempts[i].msg, w, q) <==> attempts[i].msg.id == first.id)
    ensures Count(HandleAll(s, attempts).table.Of(w), q)
         == Count(s.table.Of(w), q) + UnmarkedAttempts(s, attempts, first.id)
            + if first.id in HandleAll(s, attempts).processed then 1 else 0
  {
    LogsCountEffects(s, attempts, w, q);
    ExactDuplicates(s, attempts, first.id);
    SameEffects(s, attempts, first.id, w, q);
  }

  lemma {:induction false} SameEffects(s: Stores, attempts: seq<Attempt>, id: Uuid, w: Uuid, q: Payload -> bool)
    requires forall i :: 0 <= i < |attempts| ==> (Asks(attempts[i].msg, w, q) <==> attempts[i].msg.id == id)
    ensures EffectsOn(s, attempts, w, q) == Effects(s, attempts, id)
    decreases |attempts|
  {
    if attempts != [] {
      SameEffects(s, attempts[..|attempts| - 1], id, w, q);
    }
  }

  function IsReserveFor(t: Uuid): Payload -> bool {
    (p: Payload) => p.FundsReserved? && p.transactionId == t
  }

  function IsPayload(payload: Payload): Payload -> bool {
    p => p == payload
  }

  // Reservations: the transfer's id makes its one TransactionInitiated event the only one to ask.
  lemma ReservationDuplicates(s: Stores, attempts: seq<Attempt>, first: Message<TxEvent>)
    requires ValidTable(s.table) && first.payload.TransactionInitiated? && first.id !in s.processed
    requires forall i :: 0 <= i < |attempts| && attempts[i].msg.id == first.id ==> attempts[i].msg == first
    requires forall i :: 0 <= i < |attempts| && AsksForReservation(attempts[i].msg, first.payload.transactionId) ==>
               attempts[i].msg.id == first.id
    ensures var q, w, after := IsReserveFor(first.payload.transactionId), first.payload.source, HandleAll(s, attempts);
            Count(after.table.Of(w), q) == Count(s.table.Of(w), q) + UnmarkedAttempts(s, attempts, first.id)
                                           + if first.id in after.processed then 1 else 0
  {
    DuplicatesInLog(s, attempts, first, first.payload.source, IsReserveFor(first.payload.transactionId));
  }

  predicate AsksForReservation(m: Message<TxEvent>, t: Uuid) {
    m.payload.TransactionInitiated? && m.payload.transactionId == t
  }

  // Credits: the wallet's log forgets the transfer, so its credits are the deposits of that amount, and the
  // event must be the only one to credit this wallet with this amount.
  lemma CreditDuplicates(s: Stores, attempts: seq<Attempt>, first: Message<TxEvent>)
    requires ValidTable(s.table) && first.payload.TransactionCompleted? && first.id !in s.processed
    requires forall i :: 0 <= i < |attempts| && attempts[i].msg.id == first.id ==> attempts[i].msg == first
    requires forall i :: 0 <= i < |attempts|
                         && AsksForCredit(attempts[i].msg, first.payload.dest, first.payload.amount) ==>
               attempts[i].msg.id == first.id
    ensures var w, after := first.payload.dest, HandleAll(s, attempts);
            var q := IsPayload(FundsDeposited(first.payload.amount, "saga credit"));
            Count(after.table.Of(w), q) == Count(s.table.Of(w), q) + UnmarkedAttempts(s, attempts, first.id)
                                           + if first.id in after.processed then 1 else 0
  {
    DuplicatesInLog(s, attempts, first, first.payload.dest,
                    IsPayload(FundsDeposited(first.payload.amount, "saga credit")));
  }

  predicate AsksForCredit(m: Message<TxEvent>, dest: Uuid, amount: int) {
    m.payload.TransactionCompleted? && m.payload.dest == dest && m.payload.amount == amount
  }

  // ------------------------------------------------------------------ effects on the money

  // What one attempt asks to add to what is available in wallet w.
  function FlowOf(m: Message<TxEvent>, w: Uuid): int {
    var job := JobOf(m.payload);
    if job.Some? && job.value.walletId == w then Effect(job.value.command) else 0
  }

  // The flow of the attempts that ended marked.
  function MarkedFlow(s: Stores, attempts: seq<Attempt>, w: Uuid): int
    decreases |attempts|
  {
    if attempts == [] then 0 else
      var before, last := attempts[..|attempts| - 1], attempts[|attempts| - 1];
      var was, now := HandleAll(s, before), HandleAll(s, attempts);
      MarkedFlow(s, before, w)
      + if last.msg.id !in was.processed && last.msg.id in now.processed then FlowOf(last.msg, w) else 0
  }

  // The flow of the attempts that ended unmarked: what the failures add.
  function UnmarkedFlow(s: Stores, attempts: seq<Attempt>, w: Uuid): int
    decreases |attempts|
  {
    if attempts == [] then 0 else
      var before, last := attempts[..|attempts| - 1], attempts[|attempts| - 1];
      UnmarkedFlow(s, before, w) + if StopsUnmarked(HandleAll(s, before), last) then FlowOf(last.msg, w) else 0
  }

  // With any failures at all, what is available in a wallet has moved by what the marked events asked for,
  // once each, plus exactly what the attempts that ended unmarked asked for.
  lemma {:induction false} MoneyWithFailures(s: Stores, attempts: seq<Attempt>, w: Uuid)
    requires ValidTable(s.table)
    ensures ValidTable(HandleAll(s, attempts).table)
    ensures Available(HandleAll(s, attempts).table, w)
         == Available(s.table, w) + MarkedFlow(s, attempts, w) + UnmarkedFlow(s, attempts, w)
    decreases |attempts|
  {
    if attempts != [] {
      var before, last := attempts[..|attempts| - 1], attempts[|attempts| - 1];
      MoneyWithFailures(s, before, w);
      AttemptFlow(HandleAll(s, before), last, w);
      MarkNeedsEffect(HandleAll(s, before), last, last.msg.id);
    }
  }

  lemma AttemptFlow(s: Stores, a: Attempt, w: Uuid)
    requires ValidTable(s.table)
    ensures ValidTable(Handled(s, a).0.table)
    ensures Available(Handled(s, a).0.table, w) == Available(s.table, w) + if Appends(s, a) then FlowOf(a.msg, w) else 0
  {
    if Appends(s, a) {
      var job, after := JobOf(a.msg.payload).value, Handled(s, a).0.table;
      assert ExecuteIn(s.table, job.walletId, job.command, a.ids.eventId) == Ok(after);
      ExecutedAvailable(s.table, job.walletId, job.command, a.ids.eventId, w);
      ExecuteAppendsOne(s.table, job.walletId, job.command, a.ids.eventId);
    }
  }

  // Effects are not exactly once: a credit whose mark fails is credited again by the next delivery.
  lemma CreditedTwice(s: Stores, m: Message<TxEvent>, first: Ids, second: Ids)
    requires ValidTable(s.table) && m.payload.TransactionCompleted? && m.payload.amount > 0
    requires s.table.Of(m.payload.dest) != [] && m.id !in s.processed
    requires first.eventId !in s.table.ids && second.eventId !in s.table.ids && first.eventId != second.eventId
    requires !IdTaken(s.notices, first.noticeId) && !IdTaken(s.notices, second.noticeId)
    requires first.noticeId != second.noticeId
    ensures var attempts := [Attempt(m, first, NO_FAULTS.(mark := Fails)), Attempt(m, second, NO_FAULTS)];
            && Effects(s, attempts, m.id) == 2 && m.id in HandleAll(s, attempts).processed
            && Available(HandleAll(s, attempts).table, m.payload.dest)
               == Available(s.table, m.payload.dest) + 2 * m.payload.amount
  {
    var a, b := Attempt(m, first, NO_FAULTS.(mark := Fails)), Attempt(m, second, NO_FAULTS);
    var s1 := Handled(s, a).0;
    Credits(s, a);
    Credits(s1, b);
    TwoAttempts(s, a, b);
  }

  lemma TwoAttempts(s: Stores, a: Attempt, b: Attempt)
    requires a.msg.id == b.msg.id
    ensures HandleAll(s, [a, b]) == Handled(Handled(s, a).0, b).0
    ensures Effects(s, [a, b], a.msg.id)
         == (if Appends(s, a) then 1 else 0) + if Appends(Handled(s, a).0, b) then 1 else 0
  {
    assert [a, b][..1] == [a] && [a][..0] == [];
    assert HandleAll(s, [a]) == Handled(s, a).0;
    assert Effects(s, [a], a.msg.id) == if Appends(s, a) then 1 else 0;
  }

  lemma Credits(s: Stores, a: Attempt)
    requires ValidTable(s.table) && a.msg.payload.TransactionCompleted? && a.msg.payload.amount > 0
    requires s.table.Of(a.msg.payload.dest) != [] && a.msg.id !in s.processed
    requires a.ids.eventId !in s.table.ids && !IdTaken(s.notices, a.ids.noticeId)
    requires a.faults == NO_FAULTS || a.faults == NO_FAULTS.(mark := Fails)
    ensures var after, dest := Handled(s, a).0, a.msg.payload.dest;
            && Appends(s, a) && ValidTable(after.table) && after.table.Of(dest) != []
            && Available(after.table, dest) == Available(s.table, dest) + a.msg.payload.amount
            && after.table.ids == s.table.ids + {a.ids.eventId}
            && (forall id :: IdTaken(after.notices, id) ==> IdTaken(s.notices, id) || id == a.ids.noticeId)
            && after.processed == if a.faults.mark.Fails? then s.processed else s.processed + {a.msg.id}
  {
    var job := JobOf(a.msg.payload).value;
    ExecuteAppendsOne(s.table, job.walletId, job.command, a.ids.eventId);
    ExecutedTableDiffers(s.table, job, a.ids.eventId);
    ExecutedAvailable(s.table, job.walletId, job.command, a.ids.eventId, job.walletId);
  }
}
