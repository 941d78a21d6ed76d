// The wallet aggregate: events, replay, commands, and what makes an event log valid.
module Wallets {
  import opened Base

  const SNAPSHOT_INTERVAL := 50

  datatype Payload =
    | WalletCreated(userId: Uuid, currency: string)
    | FundsDeposited(amount: int, description: string)
    | FundsWithdrawn(amount: int, description: string)
    | FundsReserved(amount: int, transactionId: Uuid)
    | FundsReleased(amount: int, transactionId: Uuid)

  datatype Event = Event(id: Uuid, walletId: Uuid, payload: Payload, version: int)

  // The value of a wallet's fields. ZERO is the empty wallet every replay starts from.
  datatype State = State(id: Uuid, userId: Uuid, currency: string, balance: int, reserved: int, version: int) {
    function Available(): int {
      balance - reserved
    }
  }

  const ZERO := State(NIL, NIL, "", 0, 0, 0)

  function ApplyEvent(s: State, e: Event): State {
    match e.payload
    case WalletCreated(userId, currency) => s.(id := e.walletId, userId := userId, currency := currency)
    case FundsDeposited(amount, _) => s.(balance := s.balance + amount)
    case FundsWithdrawn(amount, _) => s.(balance := s.balance - amount)
    case FundsReserved(amount, _) => s.(reserved := s.reserved + amount)
    case FundsReleased(amount, _) => s.(reserved := s.reserved - amount)
  }

  function Apply(s: State, e: Event): State {
    ApplyEvent(s, e).(version := e.version)
  }

  function Replay(s: State, events: seq<Event>): State
    decreases |events|
  {
    if events == [] then s else Apply(Replay(s, events[..|events| - 1]), events[|events| - 1])
  }

  // Replaying a concatenation is replaying its parts in turn.
  lemma {:induction false} ReplayConcat(s: State, first: seq<Event>, rest: seq<Event>)
    ensures Replay(s, first + rest) == Replay(Replay(s, first), rest)
    decreases |rest|
  {
    if rest == [] {
      assert first + rest == first;
    } else {
      var all := first + rest;
      assert all[..|all| - 1] == first + rest[..|rest| - 1];
      ReplayConcat(s, first, rest[..|rest| - 1]);
    }
  }

  lemma ReplaySnoc(s: State, events: seq<Event>, e: Event)
    ensures Replay(s, events + [e]) == Apply(Replay(s, events), e)
  {
    assert (events + [e])[..|events|] == events;
  }

  // ------------------------------------------------------------------ commands

  datatype Command =
    | Deposit(amount: int, description: string)
    | Withdraw(amount: int, description: string)
    | Reserve(amount: int, transactionId: Uuid)
    | Release(amount: int, transactionId: Uuid)

  // The guard of each command, and the event it emits when the guard lets it through.
  function Decide(s: State, c: Command): Result<Payload> {
    match c
    case Deposit(amount, description) =>
      if amount <= 0 then Err(InvalidArgument) else Ok(FundsDeposited(amount, description))
    case Withdraw(amount, description) =>
      if amount <= 0 then Err(InvalidArgument)
      else if s.Available() < amount then Err(InsufficientFunds)
      else Ok(FundsWithdrawn(amount, description))
    case Reserve(amount, transactionId) =>
      if s.Available() < amount then Err(InsufficientFunds) else Ok(FundsReserved(amount, transactionId))
    case Release(amount, transactionId) => Ok(FundsReleased(amount, transactionId))
  }

  function NextEvent(s: State, id: Uuid, p: Payload): Event {
    Event(id, s.id, p, s.version + 1)
  }

  // ------------------------------------------------------------------ the aggregate

  class Wallet {
    var id: Uuid
    var userId: Uuid
    var currency: string
    var balanceCents: int
    var reserved: int
    var version: int
    var changes: seq<Event>
    // The state the uncommitted changes started from.
    ghost var base: State

    function Value(): State
      reads this
    {
      State(id, userId, currency, balanceCents, reserved, version)
    }

    // The round trip: the live fields are always the replay of the emitted changes.
    ghost predicate Valid()
      reads this
    {
      Value() == Replay(base, changes)
    }

    constructor (s: State)
      ensures Valid() && Value() == s && base == s && changes == []
    {
      id, userId, currency := s.id, s.userId, s.currency;
      balanceCents, reserved, version := s.balance, s.reserved, s.version;
      changes, base := [], s;
    }

    static method NewWallet(userId: Uuid, currency: string, eventId: Uuid, walletId: Uuid)
      returns (r: Result<Wallet>)
      ensures r.Err? <==> currency == ""
      ensures r.Err? ==> r.code == InvalidArgument
      ensures r.Ok? ==> fresh(r.value) && r.value.Valid() && r.value.base == ZERO
                        && r.value.changes == [Event(eventId, walletId, WalletCreated(userId, currency), 1)]
                        && r.value.Value() == State(walletId, userId, currency, 0, 0, 1)
    {
      if currency == "" {
        return Err(InvalidArgument);
      }
      var w := new Wallet(ZERO);
      w.Emit(Event(eventId, walletId, WalletCreated(userId, currency), 1));
      return Ok(w);
    }

    // A command either is refused and changes nothing, or emits the decided event and applies it.
    ghost predicate Follows(was: State, had: seq<Event>, c: Command, eventId: Uuid, err: Option<Code>)
      reads this
    {
      match Decide(was, c)
      case Err(code) => err == Some(code) && Value() == was && changes == had
      case Ok(p) => err == None && changes == had + [NextEvent(was, eventId, p)]
                    && Value() == Apply(was, NextEvent(was, eventId, p))
    }

    // One more uncommitted event, at the next version of this wallet; whose it is does not change.
    ghost predicate Emitted(was: State, had: seq<Event>, eventId: Uuid, p: Payload)
      reads this
    {
      && changes == had + [Event(eventId, was.id, p, was.version + 1)]
      && id == was.id && userId == was.userId && currency == was.currency && version == was.version + 1
    }

    method Deposit(amountCents: int, description: string, eventId: Uuid) returns (err: Option<Code>)
      requires Valid()
      modifies this
      ensures Valid() && base == old(base)
      ensures Follows(old(Value()), old(changes), Command.Deposit(amountCents, description), eventId, err)
      ensures err == if amountCents <= 0 then Some(InvalidArgument) else None
      ensures err == None ==> balanceCents == old(balanceCents) + amountCents && reserved == old(reserved)
      ensures err == None ==> Emitted(old(Value()), old(changes), eventId, FundsDeposited(amountCents, description))
    {
      if amountCents <= 0 {
        return Some(InvalidArgument);
      }
      Emit(Event(eventId, id, FundsDeposited(amountCents, description), version + 1));
      return None;
    }

    method Withdraw(amountCents: int, description: string, eventId: Uuid) returns (err: Option<Code>)
      requires Valid()
      modifies this
      ensures Valid() && base == old(base)
      ensures Follows(old(Value()), old(changes), Command.Withdraw(amountCents, description), eventId, err)
      ensures err == if amountCents <= 0 then Some(InvalidArgument)
                     else if amountCents > old(balanceCents - reserved) then Some(InsufficientFunds) else None
      ensures err == None ==> balanceCents == old(balanceCents) - amountCents && reserved == old(reserved)
      ensures err == None ==> Emitted(old(Value()), old(changes), eventId, FundsWithdrawn(amountCents, description))
    {
      if amountCents <= 0 {
        return Some(InvalidArgument);
      }
      if AvailableBalance() < amountCents {
        return Some(InsufficientFunds);
      }
      Emit(Event(eventId, id, FundsWithdrawn(amountCents, description), version + 1));
      return None;
    }

    method Reserve(amountCents: int, transactionId: Uuid, eventId: Uuid) returns (err: Option<Code>)
      requires Valid()
      modifies this
      ensures Valid() && base == old(base)
      ensures Follows(old(Value()), old(changes), Command.Reserve(amountCents, transactionId), eventId, err)
      ensures err == if amountCents > old(balanceCents - reserved) then Some(InsufficientFunds) else None
      ensures err == None ==> balanceCents == old(balanceCents) && reserved == old(reserved) + amountCents
      ensures err == None ==> Emitted(old(Value()), old(changes), eventId, FundsReserved(amountCents, transactionId))
    {
      if AvailableBalance() < amountCents {
        return Some(InsufficientFunds);
      }
      Emit(Event(eventId, id, FundsReserved(amountCents, transactionId), version + 1));
      return None;
    }

    method Release(amountCents: int, transactionId: Uuid, eventId: Uuid)
      requires Valid()
      modifies this
      ensures Valid() && base == old(base)
      ensures Follows(old(Value()), old(changes), Command.Release(amountCents, transactionId), eventId, None)
      ensures balanceCents == old(balanceCents) && reserved == old(reserved) - amountCents
      ensures Emitted(old(Value()), old(changes), eventId, FundsReleased(amountCents, transactionId))
    {
      Emit(Event(eventId, id, FundsReleased(amountCents, transactionId), version + 1));
    }

    function AvailableBalance(): int
      reads this
      ensures AvailableBalance() == Value().Available()
    {
      balanceCents - reserved
    }

    method Reconstitute(events: seq<Event>)
      modifies this
      ensures Value() == Replay(old(Value()), events) && changes == old(changes)
      ensures changes == [] ==> Valid() && base == Value()
    {
      for i := 0 to |events|
        invariant Value() == Replay(old(Value()), events[..i])
        invariant changes == old(changes)
      {
        ReplaySnoc(old(Value()), events[..i], events[i]);
        assert events[..i + 1] == events[..i] + [events[i]];
        ApplyToFields(events[i]);
        version := events[i].version;
      }
      assert events[..|events|] == events;
      if changes == [] {
        base := Value();
      }
    }

    // apply: update the fields and remember the event as uncommitted.
    method Emit(e: Event)
      requires Valid()
      modifies this
      ensures Valid() && base == old(base)
      ensures Value() == Apply(old(Value()), e) && changes == old(changes) + [e]
    {
      ReplaySnoc(base, changes, e);
      ApplyToFields(e);
      version := e.version;
      changes := changes + [e];
    }

    // applyEvent: one case per event type.
    method ApplyToFields(e: Event)
      modifies this
      ensures Value() == ApplyEvent(old(Value()), e)
      ensures changes == old(changes) && base == old(base)
    {
      match e.payload
      case WalletCreated(user, unit) =>
        id, userId, currency := e.walletId, user, unit;
      case FundsDeposited(amount, _) =>
        balanceCents := balanceCents + amount;
      case FundsWithdrawn(amount, _) =>
        balanceCents := balanceCents - amount;
      case FundsReserved(amount, _) =>
        reserved := reserved + amount;
      case FundsReleased(amount, _) =>
        reserved := reserved - amount;
    }
  }

  // ------------------------------------------------------------------ valid logs

  // The only command that can have emitted the payload.
  function CommandOf(p: Payload): Command
    requires !p.WalletCreated?
  {
    match p
    case FundsDeposited(amount, description) => Deposit(amount, description)
    case FundsWithdrawn(amount, description) => Withdraw(amount, description)
    case FundsReserved(amount, transactionId) => Reserve(amount, transactionId)
    case FundsReleased(amount, transactionId) => Release(amount, transactionId)
  }

  // The payload is what its command emits when run on exactly the state s.
  predicate Validated(s: State, p: Payload) {
    if p.WalletCreated? then s == ZERO && p.currency != ""
    else s.version >= 1 && Decide(s, CommandOf(p)) == Ok(p)
  }

  // Versions are exactly 1..n, and the event at version v was validated against the replay of
  // precisely the v - 1 events before it.
  ghost predicate ValidLog(w: Uuid, log: seq<Event>) {
    && (forall i :: 0 <= i < |log| ==> log[i].version == i + 1 && log[i].walletId == w)
    && (forall i :: 0 <= i < |log| ==> ValidatedAt(log, i))
  }

  ghost predicate ValidatedAt(log: seq<Event>, i: int)
    requires 0 <= i < |log|
  {
    Validated(Replay(ZERO, log[..i]), log[i].payload)
  }

  lemma ValidPrefix(w: Uuid, log: seq<Event>, n: nat)
    requires ValidLog(w, log) && n <= |log|
    ensures ValidLog(w, log[..n])
  {
    forall i | 0 <= i < n
      ensures ValidatedAt(log[..n], i)
    {
      assert ValidatedAt(log, i);
      assert log[..n][..i] == log[..i];
    }
  }

  lemma ValidExtend(w: Uuid, log: seq<Event>, e: Event)
    requires ValidLog(w, log)
    requires e.version == |log| + 1 && e.walletId == w && Validated(Replay(ZERO, log), e.payload)
    ensures ValidLog(w, log + [e])
  {
    forall i | 0 <= i < |log + [e]|
      ensures ValidatedAt(log + [e], i)
    {
      assert (log + [e])[..i] == log[..i];
      assert i < |log| ==> ValidatedAt(log, i);
      assert log[..|log|] == log;
    }
  }

  // The identity of a wallet is fixed by the first event and no later event touches it.
  lemma {:induction false} LogFacts(w: Uuid, log: seq<Event>)
    requires ValidLog(w, log)
    ensures Replay(ZERO, log).version == |log|
    ensures log != [] ==>
              var first := log[0].payload;
              first.WalletCreated? && first.currency != ""
              && Replay(ZERO, log).id == w && Replay(ZERO, log).userId == first.userId
              && Replay(ZERO, log).currency == first.currency
    decreases |log|
  {
    if log != [] {
      var n := |log| - 1;
      ValidPrefix(w, log, n);
      LogFacts(w, log[..n]);
      assert ValidatedAt(log, n);
      assert log[..n] != [] ==> log[..n][0] == log[0];
    }
  }
}
