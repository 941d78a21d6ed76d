// The read model when its operations fail: what still holds while no delivery stops half way, how much the
// others move, and what a swallowed read error costs.
module QueryFailures {
  import opened Base
  import opened Streams
  import Q = Query
  import opened Query
  import W = Wallets

  datatype Attempt = Attempt(record: Record, faults: Faults)

  function Handled(v: View, a: Attempt): (View, Option<Code>) {
    HandleWith(v, a.record, a.faults)
  }

  function FoldWith(d: seq<Attempt>): View
    decreases |d|
  {
    if d == [] then EMPTY else Handled(FoldWith(d[..|d| - 1]), d[|d| - 1]).0
  }

  function Records(d: seq<Attempt>): (rs: seq<Record>)
    ensures |rs| == |d| && forall i :: 0 <= i < |d| ==> rs[i] == d[i].record
  {
    seq(|d|, i requires 0 <= i < |d| => d[i].record)
  }

  lemma RecordsSnoc(d: seq<Attempt>)
    requires d != []
    ensures Records(d) == Records(d[..|d| - 1]) + [d[|d| - 1].record]
  {
  }

  // ------------------------------------------------------------------ all or nothing

  // The attempt does all that a failure-free one does.
  predicate GoesThrough(v: View, a: Attempt) {
    Handled(v, a).0 == HandleIn(v, a.record).0
  }

  // Every attempt goes through or leaves nothing behind.
  ghost predicate NoneHalfway(d: seq<Attempt>)
    decreases |d|
  {
    d == [] ||
    (var before, last := d[..|d| - 1], d[|d| - 1];
     NoneHalfway(before)
     && (GoesThrough(FoldWith(before), last) || Handled(FoldWith(before), last).0 == FoldWith(before)))
  }

  // The records that went through, in order.
  function Took(d: seq<Attempt>): seq<Record>
    decreases |d|
  {
    if d == [] then [] else
      var before, last := d[..|d| - 1], d[|d| - 1];
      if GoesThrough(FoldWith(before), last) then Took(before) + [last.record] else Took(before)
  }

  lemma {:induction false} FoldOfTook(d: seq<Attempt>)
    requires NoneHalfway(d)
    ensures FoldWith(d) == Fold(Took(d))
    decreases |d|
  {
    if d != [] {
      var before, last := d[..|d| - 1], d[|d| - 1];
      FoldOfTook(before);
      assert (Took(before) + [last.record])[..|Took(before)|] == Took(before);
    }
  }

  lemma {:induction false} TookWereDelivered(d: seq<Attempt>, r: Record)
    requires r in Took(d)
    ensures r in Records(d)
    decreases |d|
  {
    if d != [] {
      var before, last := d[..|d| - 1], d[|d| - 1];
      RecordsSnoc(d);
      if r in Took(before) {
        TookWereDelivered(before, r);
      }
    }
  }

  lemma AllTookWereDelivered(d: seq<Attempt>)
    ensures forall r :: r in Took(d) ==> r in Records(d)
  {
    forall r | r in Took(d)
      ensures r in Records(d)
    {
      TookWereDelivered(d, r);
    }
  }

  // Two consumers that have processed the same events show the same balances and statistics, whatever order
  // and repetition they saw and whatever failed, if nothing stopped half way.
  lemma Convergence(d: seq<Attempt>, e: seq<Attempt>)
    requires NoneHalfway(d) && NoneHalfway(e) && WellFormed(Records(d) + Records(e))
    requires FoldWith(d).processed == FoldWith(e).processed
    ensures forall w :: w in FoldWith(d).balances <==> w in FoldWith(e).balances
    ensures forall w :: w in FoldWith(d).balances ==> FoldWith(d).balances[w].balance == FoldWith(e).balances[w].balance
    ensures forall u :: StatsOf(FoldWith(d), u) == StatsOf(FoldWith(e), u)
  {
    FoldOfTook(d);
    FoldOfTook(e);
    assert WellFormed(Took(d) + Took(e)) by {
      AllTookWereDelivered(d);
      AllTookWereDelivered(e);
      assert forall r :: r in Took(d) + Took(e) ==> r in Records(d) + Records(e);
    }
    Q.Convergence(Took(d), Took(e));
  }

  // The read model refines the write model: if what got through about a wallet is, without repeats, the first
  // n events of its log, then the projected row is the replay of those n events.
  lemma RefinesWriteModel(d: seq<Attempt>, w: Uuid, log: seq<W.Event>, n: nat)
    requires NoneHalfway(d) && UniqueIds(Records(d)) && W.ValidLog(w, log) && n <= |log|
    requires FirstOccurrences(AboutWallet(Took(d), w)) == RecordsOf(log[..n])
    ensures Mirrors(FoldWith(d), w, log, n)
  {
    FoldOfTook(d);
    assert UniqueIds(Took(d)) by { AllTookWereDelivered(d); }
    Q.RefinesWriteModel(Took(d), w, log, n);
  }

  // Every balance is the sum of its statement.
  lemma BalancesMatchStatements(d: seq<Attempt>)
    requires NoneHalfway(d) && WellFormed(Records(d)) && EntriesDistinct(Records(d))
    ensures Agrees(FoldWith(d))
  {
    FoldOfTook(d);
    assert WellFormed(Took(d)) && EntriesDistinct(Took(d)) by { AllTookWereDelivered(d); }
    Q.BalancesMatchStatements(Took(d));
  }

  // ------------------------------------------------------------------ stopping half way

  // The attempt wrote the balance row or the statistics row.
  predicate WritesRow(v: View, a: Attempt) {
    && !a.faults.lookup && a.record.eventId !in v.processed && !a.record.body.Ignored? && a.faults.write.Happens()
    && (Moves(a.record.body) ==> !a.faults.read && a.record.body.walletId in v.balances)
  }

  // It did, and ended without a mark.
  predicate StopsUnmarked(v: View, a: Attempt) {
    WritesRow(v, a) && a.record.eventId !in Handled(v, a).0.processed
  }

  function Writes(d: seq<Attempt>, id: Uuid): nat
    decreases |d|
  {
    if d == [] then 0 else
      var before, last := d[..|d| - 1], d[|d| - 1];
      Writes(before, id) + if last.record.eventId == id && WritesRow(FoldWith(before), last) then 1 else 0
  }

  function UnmarkedAttempts(d: seq<Attempt>, id: Uuid): nat
    decreases |d|
  {
    if d == [] then 0 else
      var before, last := d[..|d| - 1], d[|d| - 1];
      UnmarkedAttempts(before, id) + if last.record.eventId == id && StopsUnmarked(FoldWith(before), last) then 1 else 0
  }

  // For every event id, whatever fails: its rows were written by the attempts that stopped unmarked, plus once
  // if it is marked.
  lemma {:induction false} ExactDuplicates(d: seq<Attempt>, id: Uuid)
    ensures Writes(d, id) == UnmarkedAttempts(d, id) + if id in FoldWith(d).processed then 1 else 0
    decreases |d|
  {
    if d != [] {
      var before, last := d[..|d| - 1], d[|d| - 1];
      ExactDuplicates(before, id);
      MarkNeedsWrite(FoldWith(before), last, id);
    }
  }

  // A mark comes with a write of the same attempt, and a marked event writes no more.
  lemma MarkNeedsWrite(v: View, a: Attempt, id: Uuid)
    ensures id in Handled(v, a).0.processed <==>
              id in v.processed || (a.record.eventId == id && WritesRow(v, a) && !StopsUnmarked(v, a))
    ensures WritesRow(v, a) ==> a.record.eventId !in v.processed
  {
  }

  function BalanceOf(v: View, w: Uuid): int {
    if w in v.balances then v.balances[w].balance else 0
  }

  // What the attempt adds to the balance of wallet w, and what it wipes out by creating the wallet again.
  function FlowOf(v: View, a: Attempt, w: Uuid): int {
    if WritesRow(v, a) then MoveOf(a.record, w) else 0
  }

  function WipedOut(v: View, a: Attempt, w: Uuid): int {
    if WritesRow(v, a) && Creates(a.record, w) then BalanceOf(v, w) else 0
  }

  function MarkedFlow(d: seq<Attempt>, w: Uuid): int
    decreases |d|
  {
    if d == [] then 0 else
      var v, last := FoldWith(d[..|d| - 1]), d[|d| - 1];
      MarkedFlow(d[..|d| - 1], w) + if StopsUnmarked(v, last) then 0 else FlowOf(v, last, w)
  }

  function UnmarkedFlow(d: seq<Attempt>, w: Uuid): int
    decreases |d|
  {
    if d == [] then 0 else
      var v, last := FoldWith(d[..|d| - 1]), d[|d| - 1];
      UnmarkedFlow(d[..|d| - 1], w) + if StopsUnmarked(v, last) then FlowOf(v, last, w) else 0
  }

  function TotalWipedOut(d: seq<Attempt>, w: Uuid): int
    decreases |d|
  {
    if d == [] then 0 else
      TotalWipedOut(d[..|d| - 1], w) + WipedOut(FoldWith(d[..|d| - 1]), d[|d| - 1], w)
  }

  // Whatever fails and is delivered: a projected balance is the marked deposits and withdrawals once each, plus
  // exactly those of the attempts that stopped unmarked, minus what repeated creations wiped out.
  lemma {:induction false} BalanceWithFailures(d: seq<Attempt>, w: Uuid)
    ensures BalanceOf(FoldWith(d), w) == MarkedFlow(d, w) + UnmarkedFlow(d, w) - TotalWipedOut(d, w)
    ensures forall x :: x in FoldWith(d).balances ==> FoldWith(d).balances[x].walletId == x
    decreases |d|
  {
    if d != [] {
      BalanceWithFailures(d[..|d| - 1], w);
      AttemptMoves(FoldWith(d[..|d| - 1]), d[|d| - 1], w);
      RowsStay(FoldWith(d[..|d| - 1]), d[|d| - 1]);
    }
  }

  lemma AttemptMoves(v: View, a: Attempt, w: Uuid)
    requires forall x :: x in v.balances ==> v.balances[x].walletId == x
    ensures BalanceOf(Handled(v, a).0, w) == BalanceOf(v, w) + FlowOf(v, a, w) - WipedOut(v, a, w)
  {
    if Moves(a.record.body) && a.record.body.walletId in v.balances {
      MoveBalance(v, a.record.body, a.faults, w);
    }
  }

  // Rows stay under their own wallet ids.
  lemma RowsStay(v: View, a: Attempt)
    requires forall x :: x in v.balances ==> v.balances[x].walletId == x
    ensures forall x :: x in Handled(v, a).0.balances ==> Handled(v, a).0.balances[x].walletId == x
  {
    var after := ProjectWith(v, a.record.body, a.faults).0;
    assert Handled(v, a).0.balances in {v.balances, after.balances};
  }

  // ------------------------------------------------------------------ the statement

  // The row repeats the record's own fields.
  predicate IsRowOf(x: Entry, b: Body) {
    || (b.FundsDeposited?
        && x == Entry(b.entryId, b.walletId, "DEPOSIT", b.amount, b.description, b.occurredAt))
    || (b.FundsWithdrawn?
        && x == Entry(b.entryId, b.walletId, "WITHDRAWAL", b.amount, b.description, b.occurredAt))
  }

  // Whatever fails: every row of the statement is that of a delivered deposit or withdrawal.
  lemma {:induction false} StatementIsDelivered(d: seq<Attempt>, e: Uuid)
    requires e in FoldWith(d).statement
    ensures exists r :: r in Records(d) && IsRowOf(FoldWith(d).statement[e], r.body) && r.body.entryId == e
    decreases |d|
  {
    if d != [] {
      var before, last := d[..|d| - 1], d[|d| - 1];
      RecordsSnoc(d);
      BalanceWithFailures(before, NIL);
      DeliveryAnswers(FoldWith(before), last.record, last.faults);
      if e in FoldWith(before).statement {
        StatementIsDelivered(before, e);
        var r :| r in Records(before) && IsRowOf(FoldWith(before).statement[e], r.body) && r.body.entryId == e;
        assert r in Records(d) && FoldWith(d).statement[e] == FoldWith(before).statement[e];
      } else {
        assert last.record in Records(d);
      }
    }
  }

  // ------------------------------------------------------------------ what failures break

  function Succeeds(d: seq<Attempt>): bool
    decreases |d|
  {
    d == [] || (Succeeds(d[..|d| - 1]) && Handled(FoldWith(d[..|d| - 1]), d[|d| - 1]).1 == None)
  }

  // A read error on the statistics is taken for a missing row, and the call succeeds. Whatever fails: the
  // statistics of a user stay the sums of the marked events if and only if nothing is written to them, or the
  // event is marked and the read worked or had nothing to lose, or it is not marked and the unread row is
  // overwritten with what it held.
  lemma StatisticsSurviveExactly(v: View, applied: map<Uuid, Record>, r: Record, f: Faults, u: Uuid)
    requires StatsSummed(v, applied, u) && v.processed == applied.Keys && r.eventId !in v.processed
    requires r.body.TransactionCompleted? && StatsOf(v, r.body.userId).userId == r.body.userId
    ensures var after := HandleWith(v, r, f).0;
            StatsSummed(after, if r.eventId in after.processed then applied[r.eventId := r] else applied, u)
            <==> || f.lookup || f.write.Fails? || r.body.userId != u
                 || if f.write.Works? && f.mark.Happens() then !f.read || StatsOf(v, u) == Stats(u, 0, 0, 0)
                    else f.read && StatsOf(v, u) == Stats(u, 1, r.body.amount, 0)
  {
    SumsGrow(applied, r, u);
  }

  function Completed(eventId: Uuid, u: Uuid, amount: int): Record {
    Record(eventId, TransactionCompleted(u, amount))
  }

  const UNREADABLE := NO_FAULTS.(read := true)

  // So two consumers that succeed on the same records may show different statistics for good.
  lemma StatisticsAreLost(u: Uuid)
    ensures exists d, e :: Succeeds(d) && Succeeds(e) && Records(d) == Records(e) && WellFormed(Records(d))
                           && FoldWith(d).processed == FoldWith(e).processed
                           && StatsOf(FoldWith(d), u) != StatsOf(FoldWith(e), u)
  {
    var r, q := Completed(Uuid(1), u, 5), Completed(Uuid(2), u, 7);
    var d := [Attempt(r, NO_FAULTS), Attempt(q, UNREADABLE)];
    var e := [Attempt(r, NO_FAULTS), Attempt(q, NO_FAULTS)];
    FoldTwo(d[0], d[1]);
    FoldTwo(e[0], e[1]);
    assert Records(d) == [r, q] && Records(e) == [r, q];
    assert StatsOf(FoldWith(d), u) == Stats(u, 1, 7, 0);
    assert StatsOf(FoldWith(e), u) == Stats(u, 2, 12, 0);
  }

  lemma FoldTwo(a: Attempt, b: Attempt)
    ensures FoldWith([a, b]) == Handled(Handled(EMPTY, a).0, b).0
    ensures Succeeds([a, b]) <==> Handled(EMPTY, a).1 == None && Handled(Handled(EMPTY, a).0, b).1 == None
  {
    assert [a, b][..1] == [a] && [a][..0] == [];
    assert FoldWith([a]) == Handled(EMPTY, a).0;
    assert Succeeds([a]) <==> Handled(EMPTY, a).1 == None;
  }

  lemma FoldThree(a: Attempt, b: Attempt, c: Attempt)
    ensures FoldWith([a, b, c]) == Handled(Handled(Handled(EMPTY, a).0, b).0, c).0
  {
    assert [a, b, c][..2] == [a, b];
    FoldTwo(a, b);
  }

  function Creation(w: Uuid): Record {
    Record(Uuid(1), WalletCreated(w, w, "USD"))
  }

  function Deposit(w: Uuid): Record {
    Record(Uuid(2), FundsDeposited(w, 100, "", 2, Uuid(2), 0))
  }

  // A failed append to the statement leaves the balance ahead of it although every record has its own entry id.
  lemma AppendIsLost(w: Uuid)
    ensures exists d :: WellFormed(Records(d)) && EntriesDistinct(Records(d)) && !Agrees(FoldWith(d))
  {
    var a, b := Attempt(Creation(w), NO_FAULTS), Attempt(Deposit(w), NO_FAULTS.(append := Fails));
    FoldTwo(a, b);
    FailureFree(EMPTY, Creation(w));
    CreationAgrees(Creation(w));
    AgreementSurvivesExactly(Handled(EMPTY, a).0, b.record, b.faults);
    assert Records([a, b]) == [Creation(w), Deposit(w)];
  }

  // A creation whose mark failed is delivered again after a deposit: both events are marked, the money is gone
  // from the projection.
  lemma CreationWipesOut(w: Uuid)
    ensures exists d :: WellFormed(Records(d)) && FoldWith(d).processed == {Creation(w).eventId, Deposit(w).eventId}
                        && MarkedFlow(d, w) == 100 && BalanceOf(FoldWith(d), w) == 0
  {
    var a, b := Attempt(Creation(w), NO_FAULTS.(mark := Fails)), Attempt(Deposit(w), NO_FAULTS);
    var c := Attempt(Creation(w), NO_FAULTS);
    var d := [a, b, c];
    Redelivered(a, b, c);
    assert Records(d) == [Creation(w), Deposit(w), Creation(w)];
    assert WellFormed(Records(d));
  }

  lemma Redelivered(a: Attempt, b: Attempt, c: Attempt)
    requires a.record == c.record && a.record.body.WalletCreated? && a.faults == NO_FAULTS.(mark := Fails)
    requires b.record.body.FundsDeposited? && b.record.body.walletId == a.record.body.walletId
    requires b.record.eventId != a.record.eventId && b.faults == NO_FAULTS && c.faults == NO_FAULTS
    ensures var d, w := [a, b, c], a.record.body.walletId;
            && FoldWith(d).processed == {a.record.eventId, b.record.eventId}
            && MarkedFlow(d, w) == b.record.body.amount && BalanceOf(FoldWith(d), w) == 0
  {
    FoldThree(a, b, c);
    FlowThree(a, b, c, a.record.body.walletId);
  }

  lemma FlowThree(a: Attempt, b: Attempt, c: Attempt, w: Uuid)
    requires !Moves(a.record.body) && !Moves(c.record.body)
    ensures MarkedFlow([a, b, c], w)
         == if StopsUnmarked(Handled(EMPTY, a).0, b) then 0 else FlowOf(Handled(EMPTY, a).0, b, w)
  {
    assert [a, b, c][..2] == [a, b] && [a, b][..1] == [a] && [a][..0] == [];
    assert FoldWith([a]) == Handled(EMPTY, a).0;
    assert MarkedFlow([a], w) == 0;
    assert MarkedFlow([a, b], w)
        == if StopsUnmarked(FoldWith([a]), b) then 0 else FlowOf(FoldWith([a]), b, w);
  }
}
