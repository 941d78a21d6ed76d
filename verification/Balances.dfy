// What a valid log guarantees about money: no overdraft, reservations within the balance, int64 safety.
module Balances {
  import opened Base
  import opened Wallets
  import opened WalletServices
  import WalletSteps

  function At(log: seq<Event>, n: nat): State
    requires n <= |log|
  {
    Replay(ZERO, log[..n])
  }

  lemma NextState(log: seq<Event>, n: nat)
    requires n < |log|
    ensures At(log, n + 1) == Apply(At(log, n), log[n])
  {
    assert log[..n + 1] == log[..n] + [log[n]];
    ReplaySnoc(ZERO, log[..n], log[n]);
  }

  // ------------------------------------------------------------------ overdraft

  ghost predicate NoOverdraft(log: seq<Event>) {
    forall n: nat :: n <= |log| ==> At(log, n).Available() >= 0
  }

  // Release has no guard; this is what a caller would have to check before it.
  ghost predicate ReleasesCovered(log: seq<Event>) {
    forall n: nat :: n < |log| ==> ReleaseCoveredAt(log, n)
  }

  ghost predicate ReleaseCoveredAt(log: seq<Event>, n: nat)
    requires n < |log|
  {
    ReleaseCovered(At(log, n), log[n].payload)
  }

  predicate ReleaseCovered(s: State, p: Payload) {
    p.FundsReleased? ==> p.amount >= -s.Available()
  }

  // No prefix of a valid log is overdrawn exactly when no release is so negative as to exceed what is
  // available. Reservations of any amount, even negative ones, are safe.
  lemma OverdraftExactly(w: Uuid, log: seq<Event>)
    requires ValidLog(w, log)
    ensures NoOverdraft(log) <==> ReleasesCovered(log)
  {
    if NoOverdraft(log) {
      forall n: nat | n < |log|
        ensures ReleaseCoveredAt(log, n)
      {
        NextState(log, n);
        assert At(log, n + 1).Available() >= 0;
      }
    }
    if ReleasesCovered(log) {
      forall n: nat | n <= |log|
        ensures At(log, n).Available() >= 0
      {
        CoveredUpTo(w, log, n);
      }
    }
  }

  lemma {:induction false} CoveredUpTo(w: Uuid, log: seq<Event>, n: nat)
    requires ValidLog(w, log) && ReleasesCovered(log) && n <= |log|
    ensures At(log, n).Available() >= 0
  {
    if n > 0 {
      CoveredUpTo(w, log, n - 1);
      NextState(log, n - 1);
      assert ValidatedAt(log, n - 1);
      assert ReleaseCoveredAt(log, n - 1);
    }
  }

  // In any interleaving of any clients: with non-negative releases no prefix of any log is overdrawn.
  lemma NeverOverdrawn(run: seq<WalletSteps.Sys>, i: nat, w: Uuid)
    requires WalletSteps.IsRun(run) && i < |run|
    requires forall e :: e in run[i].Log(w) && e.payload.FundsReleased? ==> e.payload.amount >= 0
    ensures NoOverdraft(run[i].Log(w))
  {
    WalletSteps.NoLostUpdate(run, i);
    var log := run[i].Log(w);
    assert ValidLog(w, run[i].table.Of(w));
    forall n: nat | n <= |log|
      ensures At(log, n).Available() >= 0
    {
      UnsignedReleases(w, log, n);
    }
  }

  lemma {:induction false} UnsignedReleases(w: Uuid, log: seq<Event>, n: nat)
    requires ValidLog(w, log) && n <= |log|
    requires forall e :: e in log && e.payload.FundsReleased? ==> e.payload.amount >= 0
    ensures At(log, n).Available() >= 0
  {
    if n > 0 {
      UnsignedReleases(w, log, n - 1);
      NextState(log, n - 1);
      assert ValidatedAt(log, n - 1);
      assert log[n - 1] in log;
    }
  }

  // A negative release, which no guard refuses, overdraws a wallet.
  lemma OverdraftHappens(w: Uuid)
    ensures exists requests :: !NoOverdraft(Written(w, requests).Of(w))
  {
    var log := OneRelease(w, -100);
    var requests := OneReleaseIsWritten(w, -100);
    assert At(log, 2).Available() == -100;
  }

  // A new wallet and one release.
  function OneRelease(w: Uuid, amount: int): seq<Event> {
    [Event(Uuid(1), w, WalletCreated(Uuid(1), "USD"), 1), Event(Uuid(2), w, FundsReleased(amount, NIL), 2)]
  }

  lemma OneReleaseIsWritten(w: Uuid, amount: int) returns (requests: seq<Request>)
    ensures Written(w, requests).Of(w) == OneRelease(w, amount)
    ensures At(OneRelease(w, amount), 2) == State(w, Uuid(1), "USD", 0, -amount, 2)
  {
    var log := OneRelease(w, amount);
    assert At(log, 0) == ZERO;
    NextState(log, 0);
    NextState(log, 1);
    forall i | 0 <= i < |log|
      ensures ValidatedAt(log, i)
    {
      assert log[..i] == log[..i] && At(log, i).version == i;
    }
    WrittenExactly(w, log);
    requests :| Written(w, requests).Of(w) == log;
  }

  // ------------------------------------------------------------------ reservations

  predicate Sane(s: State) {
    0 <= s.reserved <= s.balance
  }

  ghost predicate AlwaysSane(log: seq<Event>) {
    forall n: nat :: n <= |log| ==> Sane(At(log, n))
  }

  // Reserves do not undo earlier ones; releases give back at most what is reserved.
  predicate Matched(s: State, p: Payload) {
    match p
    case FundsReserved(amount, _) => amount >= -s.reserved
    case FundsReleased(amount, _) => -s.Available() <= amount <= s.reserved
    case _ => true
  }

  ghost predicate AllMatched(log: seq<Event>) {
    forall n: nat :: n < |log| ==> MatchedAt(log, n)
  }

  ghost predicate MatchedAt(log: seq<Event>, n: nat)
    requires n < |log|
  {
    Matched(At(log, n), log[n].payload)
  }

  lemma MatchedStepIsSane(s: State, e: Event)
    requires Sane(s) && Validated(s, e.payload)
    ensures Sane(Apply(s, e)) <==> Matched(s, e.payload)
  {
  }

  // 0 <= Reserved <= BalanceCents after every prefix, exactly when every reserve and release is matched.
  lemma SaneExactly(w: Uuid, log: seq<Event>)
    requires ValidLog(w, log)
    ensures AlwaysSane(log) <==> AllMatched(log)
  {
    if AlwaysSane(log) {
      forall n: nat | n < |log|
        ensures MatchedAt(log, n)
      {
        NextState(log, n);
        assert ValidatedAt(log, n) && Sane(At(log, n)) && Sane(At(log, n + 1));
        MatchedStepIsSane(At(log, n), log[n]);
      }
    }
    if AllMatched(log) {
      forall n: nat | n <= |log|
        ensures Sane(At(log, n))
      {
        SaneUpTo(w, log, n);
      }
    }
  }

  lemma {:induction false} SaneUpTo(w: Uuid, log: seq<Event>, n: nat)
    requires ValidLog(w, log) && AllMatched(log) && n <= |log|
    ensures Sane(At(log, n))
  {
    if n > 0 {
      SaneUpTo(w, log, n - 1);
      NextState(log, n - 1);
      assert ValidatedAt(log, n - 1) && MatchedAt(log, n - 1);
      MatchedStepIsSane(At(log, n - 1), log[n - 1]);
    }
  }

  // Releasing more than is reserved makes the reservation negative.
  lemma OverReleaseHappens(w: Uuid)
    ensures exists requests :: NoOverdraft(Written(w, requests).Of(w)) && !AlwaysSane(Written(w, requests).Of(w))
  {
    var log := OneRelease(w, 100);
    var requests := OneReleaseIsWritten(w, 100);
    assert At(log, 2).reserved == -100;
    assert At(log, 0) == ZERO;
    NextState(log, 0);
    assert NoOverdraft(log);
  }

  // ------------------------------------------------------------------ int64

  const MAX_INT64 := 0x7fff_ffff_ffff_ffff
  const TWO_TO_THE_64 := 0x1_0000_0000_0000_0000

  // Two's complement truncation to 64 bits.
  function Wrap(x: int): int
    ensures -MAX_INT64 - 1 <= Wrap(x) <= MAX_INT64
    ensures Wrap(x) == x <==> -MAX_INT64 - 1 <= x <= MAX_INT64
    decreases if -MAX_INT64 - 1 <= x <= MAX_INT64 then 0 else if x < 0 then -x else x
  {
    if x > MAX_INT64 then Wrap(x - TWO_TO_THE_64)
    else if x < -MAX_INT64 - 1 then Wrap(x + TWO_TO_THE_64)
    else x
  }

  // Together with its range this makes the truncation unique.
  lemma {:induction false} WrapIsCongruent(x: int)
    ensures (Wrap(x) - x) % TWO_TO_THE_64 == 0
    decreases if -MAX_INT64 - 1 <= x <= MAX_INT64 then 0 else if x < 0 then -x else x
  {
    if x > MAX_INT64 {
      WrapIsCongruent(x - TWO_TO_THE_64);
      assert Wrap(x) - x == Wrap(x - TWO_TO_THE_64) - (x - TWO_TO_THE_64) - TWO_TO_THE_64;
    } else if x < -MAX_INT64 - 1 {
      WrapIsCongruent(x + TWO_TO_THE_64);
      assert Wrap(x) - x == Wrap(x + TWO_TO_THE_64) - (x + TWO_TO_THE_64) + TWO_TO_THE_64;
    }
  }

  // The machine: every sum, difference and comparison the code computes is on wrapped values.
  function MachineApply(s: State, e: Event): State {
    var r := Apply(s, e);
    r.(balance := Wrap(r.balance), reserved := Wrap(r.reserved))
  }

  function MachineReplay(events: seq<Event>): State
    decreases |events|
  {
    if events == [] then ZERO
    else MachineApply(MachineReplay(events[..|events| - 1]), events[|events| - 1])
  }

  predicate MachineValidated(s: State, p: Payload) {
    if p.WalletCreated? then s == ZERO && p.currency != ""
    else
      && s.version >= 1
      && match p
         case FundsDeposited(amount, _) => amount > 0
         case FundsWithdrawn(amount, _) => amount > 0 && Wrap(s.balance - s.reserved) >= amount
         case FundsReserved(amount, _) => Wrap(s.balance - s.reserved) >= amount
         case FundsReleased(_, _) => true
  }

  // A log written by the 64-bit program.
  ghost predicate MachineLog(w: Uuid, log: seq<Event>) {
    && (forall i :: 0 <= i < |log| ==> log[i].version == i + 1 && log[i].walletId == w)
    && (forall i :: 0 <= i < |log| ==> MachineValidatedAt(log, i))
  }

  ghost predicate MachineValidatedAt(log: seq<Event>, i: int)
    requires 0 <= i < |log|
  {
    MachineValidated(MachineReplay(log[..i]), log[i].payload)
  }

  function Deposited(log: seq<Event>): int
    decreases |log|
  {
    if log == [] then 0 else
      Deposited(log[..|log| - 1])
      + if log[|log| - 1].payload.FundsDeposited? then log[|log| - 1].payload.amount else 0
  }

  predicate Fits(x: int) {
    -MAX_INT64 - 1 <= x <= MAX_INT64
  }

  predicate InRange(s: State) {
    Fits(s.balance) && Fits(s.reserved) && Fits(s.Available())
  }

  // The 64-bit program computes every state of every prefix exactly.
  ghost predicate StatesExact(log: seq<Event>) {
    forall n: nat :: n <= |log| ==> ExactAt(log, n)
  }

  ghost predicate ExactAt(log: seq<Event>, n: nat)
    requires n <= |log|
  {
    MachineReplay(log[..n]) == At(log, n)
  }

  // It also computes exactly what is available in each.
  ghost predicate MachineExact(log: seq<Event>) {
    StatesExact(log) && forall n: nat :: n <= |log| ==> AvailableExact(At(log, n))
  }

  predicate AvailableExact(s: State) {
    Wrap(s.balance - s.reserved) == s.Available()
  }

  ghost predicate AlwaysInRange(log: seq<Event>) {
    forall n: nat :: n <= |log| ==> InRange(At(log, n))
  }

  // For every log whatever: the 64-bit program is exact on all prefixes if and only if every balance,
  // reservation and available balance is in the int64 range.
  lemma Int64Exactly(log: seq<Event>)
    ensures MachineExact(log) <==> AlwaysInRange(log)
  {
    if MachineExact(log) {
      forall n: nat | n <= |log|
        ensures InRange(At(log, n))
      {
        assert ExactAt(log, n) && AvailableExact(At(log, n));
        MachineInRange(log[..n]);
      }
    }
    if AlwaysInRange(log) {
      forall n: nat | n <= |log|
        ensures ExactAt(log, n) && AvailableExact(At(log, n))
      {
        assert InRange(At(log, n));
        ExactUpTo(log, n);
      }
    }
  }

  lemma {:induction false} MachineInRange(events: seq<Event>)
    ensures Fits(MachineReplay(events).balance) && Fits(MachineReplay(events).reserved)
    decreases |events|
  {
    if events != [] {
      MachineInRange(events[..|events| - 1]);
    }
  }

  lemma {:induction false} ExactUpTo(log: seq<Event>, n: nat)
    requires n <= |log| && AlwaysInRange(log)
    ensures ExactAt(log, n)
  {
    if n == 0 {
      assert log[..0] == [];
    } else {
      ExactUpTo(log, n - 1);
      assert InRange(At(log, n));
      ExactNext(log, n - 1);
    }
  }

  lemma ExactNext(log: seq<Event>, n: nat)
    requires n < |log| && ExactAt(log, n) && InRange(At(log, n + 1))
    ensures ExactAt(log, n + 1)
  {
    NextState(log, n);
    MachineNext(log, n);
  }

  lemma MachineNext(log: seq<Event>, n: nat)
    requires n < |log|
    ensures MachineReplay(log[..n + 1]) == MachineApply(MachineReplay(log[..n]), log[n])
  {
    assert log[..n + 1][..n] == log[..n];
  }

  // Where the 64-bit program is exact it also accepts and refuses the same commands.
  lemma ExactAcceptsTheSame(w: Uuid, log: seq<Event>)
    requires MachineExact(log)
    ensures MachineLog(w, log) <==> ValidLog(w, log)
  {
    forall n | 0 <= n < |log|
      ensures MachineValidatedAt(log, n) <==> ValidatedAt(log, n)
    {
      assert ExactAt(log, n) && AvailableExact(At(log, n));
      SameGuards(At(log, n), log[n].payload);
    }
  }

  lemma SameGuards(s: State, p: Payload)
    requires AvailableExact(s)
    ensures MachineValidated(s, p) <==> Validated(s, p)
  {
  }

  ghost predicate FitsAlways(log: seq<Event>) {
    forall n: nat :: n <= |log| ==> At(log, n).balance <= MAX_INT64
  }

  // With matched reserves and releases the balances alone decide, and a log the 64-bit program wrote is then
  // valid in exact arithmetic.
  lemma Int64Matched(w: Uuid, log: seq<Event>)
    requires MachineLog(w, log) && AllMatched(log)
    ensures MachineExact(log) <==> FitsAlways(log)
    ensures FitsAlways(log) ==> ValidLog(w, log) && AlwaysSane(log)
  {
    if MachineExact(log) {
      Int64Exactly(log);
      assert forall n: nat :: n <= |log| ==> InRange(At(log, n));
    }
    if FitsAlways(log) {
      forall n: nat | n <= |log|
        ensures InRange(At(log, n)) && Sane(At(log, n))
      {
        SaneWhileFitting(w, log, n);
      }
      Int64Exactly(log);
      ExactAcceptsTheSame(w, log);
    }
  }

  lemma {:induction false} SaneWhileFitting(w: Uuid, log: seq<Event>, n: nat)
    requires MachineLog(w, log) && AllMatched(log) && FitsAlways(log) && n <= |log|
    ensures Sane(At(log, n)) && InRange(At(log, n)) && ExactAt(log, n)
  {
    if n > 0 {
      SaneWhileFitting(w, log, n - 1);
      assert MachineValidatedAt(log, n - 1) && MatchedAt(log, n - 1);
      SaneNext(log, n - 1);
      ExactNext(log, n - 1);
    } else {
      assert At(log, 0) == ZERO;
      assert log[..0] == [];
    }
  }

  lemma SaneNext(log: seq<Event>, n: nat)
    requires n < |log| && ExactAt(log, n) && Sane(At(log, n)) && InRange(At(log, n))
    requires MachineValidatedAt(log, n) && MatchedAt(log, n)
    requires At(log, n + 1).balance <= MAX_INT64
    ensures Sane(At(log, n + 1)) && InRange(At(log, n + 1))
  {
    NextState(log, n);
    assert Validated(At(log, n), log[n].payload);
    MatchedStepIsSane(At(log, n), log[n]);
  }

  // Deposits and withdrawals are of positive amounts.
  ghost predicate PositiveMoves(log: seq<Event>) {
    forall i :: 0 <= i < |log| ==>
      (log[i].payload.FundsDeposited? || log[i].payload.FundsWithdrawn? ==> log[i].payload.amount > 0)
  }

  lemma ProgramsMovePositively(w: Uuid, log: seq<Event>)
    requires MachineLog(w, log) || ValidLog(w, log)
    ensures PositiveMoves(log)
  {
    forall i | 0 <= i < |log|
      ensures log[i].payload.FundsDeposited? || log[i].payload.FundsWithdrawn? ==> log[i].payload.amount > 0
    {
      if ValidLog(w, log) {
        assert ValidatedAt(log, i);
      } else {
        assert MachineValidatedAt(log, i);
      }
    }
  }

  // Accepted deposits and credits totalling at most 2^63 - 1, with matched reserves and releases, keep every
  // value the 64-bit program computes exact and in range.
  lemma Int64Safe(w: Uuid, log: seq<Event>)
    requires MachineLog(w, log) || ValidLog(w, log)
    requires AllMatched(log) && Deposited(log) <= MAX_INT64
    ensures MachineExact(log) && MachineLog(w, log) && ValidLog(w, log) && AlwaysInRange(log)
    ensures forall n: nat :: n <= |log| ==> 0 <= At(log, n).reserved <= At(log, n).balance <= MAX_INT64
  {
    ProgramsMovePositively(w, log);
    forall n: nat | n <= |log|
      ensures At(log, n).balance <= MAX_INT64
    {
      AtMostDeposited(log, n);
      DepositedGrows(log, n);
    }
    if ValidLog(w, log) {
      SaneExactly(w, log);
      assert forall n: nat :: n <= |log| ==> Sane(At(log, n)) && InRange(At(log, n));
      Int64Exactly(log);
      ExactAcceptsTheSame(w, log);
    }
    Int64Matched(w, log);
    Int64Exactly(log);
    assert forall n: nat :: n <= |log| ==> Sane(At(log, n));
  }

  // The same of every run of any clients: the log, the stored snapshot and every state a client has loaded or
  // is about to reply are in range, and the 64-bit program computes and accepts the same.
  lemma RunsStayInRange(run: seq<WalletSteps.Sys>, i: nat, w: Uuid)
    requires WalletSteps.IsRun(run) && i < |run|
    requires AllMatched(run[i].Log(w)) && Deposited(run[i].Log(w)) <= MAX_INT64
    ensures MachineLog(w, run[i].Log(w)) && MachineExact(run[i].Log(w)) && AlwaysInRange(run[i].Log(w))
    ensures w in run[i].snaps ==> InRange(run[i].snaps[w])
    ensures forall c, s :: HeldBy(run[i].Pc(c), w, s) ==> InRange(s)
  {
    WalletSteps.NoLostUpdate(run, i);
    var log := run[i].Log(w);
    assert ValidLog(w, run[i].table.Of(w));
    Int64Safe(w, log);
    assert w in run[i].snaps ==> InRange(At(log, run[i].snaps[w].version));
    forall c, s | HeldBy(run[i].Pc(c), w, s)
      ensures InRange(s)
    {
      assert WalletSteps.ClientOk(run[i], run[i].Pc(c));
      assert s != ZERO ==> s == At(log, s.version);
    }
  }

  // The client holds this state of the wallet.
  predicate HeldBy(pc: WalletSteps.Client, w: Uuid, s: State) {
    match pc
    case GotSnapshot(call, start) => call.walletId == w && s == start
    case Decided(call, before, _) => call.walletId == w && s == before
    case Checked(call, before, _) => call.walletId == w && s == before
    case Committed(call, after) => call.walletId == w && s == after
    case Done(call, Ok(reply)) => call.walletId == w && s == reply
    case _ => false
  }

  // Creation, withdrawals, reserves and releases never raise the balance.
  lemma {:induction false} AtMostDeposited(log: seq<Event>, n: nat)
    requires PositiveMoves(log) && n <= |log|
    ensures At(log, n).balance <= Deposited(log[..n])
  {
    if n > 0 {
      AtMostDeposited(log, n - 1);
      NextState(log, n - 1);
      assert log[..n][..n - 1] == log[..n - 1];
    }
  }

  lemma {:induction false} DepositedGrows(log: seq<Event>, n: nat)
    requires PositiveMoves(log) && n <= |log|
    ensures Deposited(log[..n]) <= Deposited(log)
    decreases |log| - n
  {
    if n == |log| {
      assert log[..n] == log;
    } else {
      DepositedGrows(log, n + 1);
      assert log[..n + 1][..n] == log[..n];
    }
  }

  // Two deposits of 2^63 - 1 leave the 64-bit program with a balance of -2.
  lemma OverflowHappens(w: Uuid)
    ensures exists log :: MachineLog(w, log) && !MachineExact(log) && MachineReplay(log).balance == -2
  {
    var big := FundsDeposited(MAX_INT64, "");
    var created := Event(Uuid(1), w, WalletCreated(Uuid(1), "USD"), 1);
    var log := [created, Event(Uuid(2), w, big, 2), Event(Uuid(3), w, big, 3)];
    FirstThree(w, log);
    assert MachineReplay(log[..3]).balance == -2;
    assert At(log, 3).balance == 2 * MAX_INT64;
    assert !ExactAt(log, 3);
    assert log[..3] == log;
  }

  // Without matching, balances that fit are not enough: two releases of 2^63 - 1 wrap the reservation to 2.
  lemma ReservedOverflowHappens(w: Uuid)
    ensures exists log :: MachineLog(w, log) && FitsAlways(log) && !MachineExact(log)
                          && MachineReplay(log).reserved == 2
  {
    var big := FundsReleased(MAX_INT64, NIL);
    var created := Event(Uuid(1), w, WalletCreated(Uuid(1), "USD"), 1);
    var log := [created, Event(Uuid(2), w, big, 2), Event(Uuid(3), w, big, 3)];
    FirstThree(w, log);
    assert MachineReplay(log[..3]).reserved == 2;
    assert At(log, 3).reserved == -2 * MAX_INT64;
    assert !ExactAt(log, 3);
    assert log[..3] == log;
  }

  // A creation and two events no 64-bit guard refuses.
  lemma FirstThree(w: Uuid, log: seq<Event>)
    requires |log| == 3 && log[0] == Event(Uuid(1), w, WalletCreated(Uuid(1), "USD"), 1)
    requires forall i :: 1 <= i < 3 ==> log[i].walletId == w && log[i].version == i + 1
                                        && (log[i].payload.FundsReleased?
                                            || (log[i].payload.FundsDeposited? && log[i].payload.amount > 0))
    ensures MachineLog(w, log)
    ensures At(log, 0) == ZERO && (forall n: nat :: n < 3 ==> At(log, n + 1) == Apply(At(log, n), log[n]))
    ensures MachineReplay(log[..0]) == ZERO
    ensures forall n: nat :: n < 3 ==> MachineReplay(log[..n + 1]) == MachineApply(MachineReplay(log[..n]), log[n])
  {
    assert At(log, 0) == ZERO && MachineReplay(log[..0]) == ZERO;
    forall n: nat | n < 3
      ensures At(log, n + 1) == Apply(At(log, n), log[n])
      ensures MachineReplay(log[..n + 1]) == MachineApply(MachineReplay(log[..n]), log[n])
    {
      NextState(log, n);
      MachineNext(log, n);
    }
    forall n: nat | n < 3
      ensures MachineReplay(log[..n]).version == n && MachineValidatedAt(log, n)
    {
    }
  }
}
