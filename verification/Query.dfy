// The read model: balances, statement and user statistics folded over a deduplicated event stream.
module Query {
  import opened Base
  import opened Sums
  import opened Streams
  import W = Wallets

  datatype Body =
    | WalletCreated(walletId: Uuid, userId: Uuid, currency: string)
    | FundsDeposited(walletId: Uuid, amount: int, description: string, version: int, entryId: Uuid, occurredAt: nat)
    | FundsWithdrawn(walletId: Uuid, amount: int, description: string, version: int, entryId: Uuid, occurredAt: nat)
    | TransactionCompleted(userId: Uuid, amount: int)
    | Ignored(walletId: Uuid)

  // eventId is the header's id; entryId is the one inside the payload.
  datatype Record = Record(eventId: Uuid, body: Body)

  datatype Projection = Projection(walletId: Uuid, userId: Uuid, currency: string, balance: int, version: int)

  datatype Entry = Entry(eventId: Uuid, walletId: Uuid, kind: string, amount: int, description: string, occurredAt: nat)

  datatype Stats = Stats(userId: Uuid, transactions: int, depositCents: int, withdrawCents: int)

  datatype View = View(
    balances: map<Uuid, Projection>, statement: map<Uuid, Entry>, stats: map<Uuid, Stats>, processed: set<Uuid>)

  const EMPTY := View(map[], map[], map[], {})

  // ------------------------------------------------------------------ one record

  // INSERT ... ON CONFLICT DO UPDATE: the user and the currency of an existing row stay.
  function Upsert(balances: map<Uuid, Projection>, p: Projection): map<Uuid, Projection> {
    balances[p.walletId := if p.walletId in balances
                           then balances[p.walletId].(balance := p.balance, version := p.version) else p]
  }

  // INSERT ... ON CONFLICT DO NOTHING
  function Append(statement: map<Uuid, Entry>, e: Entry): map<Uuid, Entry> {
    if e.eventId in statement then statement else statement[e.eventId := e]
  }

  predicate Moves(b: Body) {
    b.FundsDeposited? || b.FundsWithdrawn?
  }

  // The signed amount a body moves.
  function Signed(b: Body): int {
    if b.FundsDeposited? then b.amount else if b.FundsWithdrawn? then -b.amount else 0
  }

  function EntryOf(b: Body): Entry
    requires Moves(b)
  {
    Entry(b.entryId, b.walletId, if b.FundsDeposited? then "DEPOSIT" else "WITHDRAWAL",
          b.amount, b.description, b.occurredAt)
  }

  function StatsOf(v: View, userId: Uuid): Stats {
    if userId in v.stats then v.stats[userId] else Stats(userId, 0, 0, 0)
  }

  function Project(v: View, b: Body): Result<View> {
    match b
    case WalletCreated(w, userId, currency) =>
      Ok(v.(balances := Upsert(v.balances, Projection(w, userId, currency, 0, 0))))
    case TransactionCompleted(userId, amount) =>
      var s := StatsOf(v, userId);
      var more := s.(transactions := s.transactions + 1, depositCents := s.depositCents + amount);
      Ok(v.(stats := v.stats[userId := more]))
    case Ignored(_) => Ok(v)
    case _ =>
      if b.walletId !in v.balances then Err(NotFound)
      else
        var p := v.balances[b.walletId];
        Ok(v.(balances := Upsert(v.balances, p.(balance := p.balance + Signed(b), version := b.version)),
              statement := Append(v.statement, EntryOf(b))))
  }

  function HandleIn(v: View, r: Record): (View, Option<Code>) {
    if r.eventId in v.processed || r.body.Ignored? then (v, None)
    else match Project(v, r.body)
      case Err(code) => (v, Some(code))
      case Ok(after) => (after.(processed := after.processed + {r.eventId}), None)
  }

  // ------------------------------------------------------------------ the same when operations fail

  // Which operations of one delivery go wrong: the dedup lookup, reading the row, writing it, appending to the
  // statement, marking.
  datatype Faults = Faults(lookup: bool, read: bool, write: Fate, append: Fate, mark: Fate)

  const NO_FAULTS := Faults(false, false, Works, Works, Works)

  // What is left of projecting a record. An unreadable statistics row counts as a missing one.
  function ProjectWith(v: View, b: Body, f: Faults): (View, Option<Code>) {
    match b
    case WalletCreated(w, userId, currency) =>
      (if f.write.Happens() then v.(balances := Upsert(v.balances, Projection(w, userId, currency, 0, 0))) else v,
       f.write.Error())
    case TransactionCompleted(userId, amount) =>
      var s := if f.read then Stats(userId, 0, 0, 0) else StatsOf(v, userId);
      var more := s.(transactions := s.transactions + 1, depositCents := s.depositCents + amount);
      (if f.write.Happens() then v.(stats := v.stats[userId := more]) else v, f.write.Error())
    case Ignored(_) => (v, None)
    case _ =>
      if f.read then (v, Some(Internal))
      else match Project(v, b)
        case Err(code) => (v, Some(code))
        case Ok(after) =>
          if !f.write.Works? then (if f.write.Happens() then v.(balances := after.balances) else v, f.write.Error())
          else (if f.append.Happens() then after else v.(balances := after.balances), f.append.Error())
  }

  function HandleWith(v: View, r: Record, f: Faults): (View, Option<Code>) {
    if f.lookup then (v, Some(Internal))
    else if r.eventId in v.processed || r.body.Ignored? then (v, None)
    else
      var (after, err) := ProjectWith(v, r.body, f);
      if err.Some? then (after, err)
      else (if f.mark.Happens() then after.(processed := after.processed + {r.eventId}) else after, f.mark.Error())
  }

  // Without failures this is the projection everything below is about.
  lemma FailureFree(v: View, r: Record)
    ensures HandleWith(v, r, NO_FAULTS) == HandleIn(v, r)
  {
  }

  // ------------------------------------------------------------------ what a delivery does, spelled out

  // A move reads the row, writes the balance, then appends the entry unless its id is there already.
  predicate MovesOnly(v: View, v': View, w: Uuid, signed: int, version: int, entry: Entry, f: Faults)
    requires w in v.balances
  {
    && v'.stats == v.stats
    && v'.balances == (if f.write.Happens()
                       then v.balances[w := v.balances[w].(balance := v.balances[w].balance + signed,
                                                           version := version)]
                       else v.balances)
    && v'.statement == (if f.write.Works? && f.append.Happens() && entry.eventId !in v.statement
                        then v.statement[entry.eventId := entry] else v.statement)
  }

  predicate MoveAnswers(v: View, v': View, err: Option<Code>, eventId: Uuid, w: Uuid, signed: int, version: int,
                        entry: Entry, f: Faults)
  {
    if f.read then v' == v && err == Some(Internal)
    else if w !in v.balances then v' == v && err == Some(NotFound)
    else
      && MovesOnly(v, v', w, signed, version, entry, f)
      && Ends(v, v', err, eventId, f.write.Works? && f.append.Works?, f)
  }

  // The event is marked only after every write answered success.
  predicate Ends(v: View, v': View, err: Option<Code>, eventId: Uuid, written: bool, f: Faults) {
    && v'.processed == (if written && f.mark.Happens() then v.processed + {eventId} else v.processed)
    && err == if written && f.mark.Works? then None else Some(Internal)
  }

  // Whatever is delivered and whatever fails: the rows written, the mark and the answer, in terms of the
  // record's own fields and the rows before.
  lemma DeliveryAnswers(v: View, r: Record, f: Faults)
    requires forall w :: w in v.balances ==> v.balances[w].walletId == w
    ensures var (v', err) := HandleWith(v, r, f);
            if f.lookup then v' == v && err == Some(Internal)
            else if r.eventId in v.processed then v' == v && err == None
            else match r.body
              case WalletCreated(w, userId, currency) =>
                && v'.statement == v.statement && v'.stats == v.stats
                && v'.balances == (if !f.write.Happens() then v.balances
                                   else v.balances[w := if w in v.balances
                                                        then v.balances[w].(balance := 0, version := 0)
                                                        else Projection(w, userId, currency, 0, 0)])
                && Ends(v, v', err, r.eventId, f.write.Works?, f)
              case FundsDeposited(w, amount, description, version, entryId, at) =>
                MoveAnswers(v, v', err, r.eventId, w, amount, version,
                            Entry(entryId, w, "DEPOSIT", amount, description, at), f)
              case FundsWithdrawn(w, amount, description, version, entryId, at) =>
                MoveAnswers(v, v', err, r.eventId, w, -amount, version,
                            Entry(entryId, w, "WITHDRAWAL", amount, description, at), f)
              case TransactionCompleted(u, amount) =>
                && v'.balances == v.balances && v'.statement == v.statement
                && (if f.write.Happens()
                    then StatsAdd(v, v', u, amount, f) else v'.stats == v.stats)
                && Ends(v, v', err, r.eventId, f.write.Works?, f)
              case Ignored(_) => v' == v && err == None
  {
    if Moves(r.body) && r.body.walletId in v.balances && !f.lookup && r.eventId !in v.processed {
      MoveDelivered(v, r, f);
    }
  }

  // One more transaction on the row that was read, or on an empty one.
  predicate StatsAdd(v: View, v': View, u: Uuid, amount: int, f: Faults) {
    && v'.stats.Keys == v.stats.Keys + {u} && (forall x :: x in v.stats && x != u ==> v'.stats[x] == v.stats[x])
    && v'.stats[u] == if !f.read && u in v.stats
                      then v.stats[u].(transactions := v.stats[u].transactions + 1,
                                       depositCents := v.stats[u].depositCents + amount)
                      else Stats(u, 1, amount, 0)
  }

  lemma MoveDelivered(v: View, r: Record, f: Faults)
    requires Moves(r.body) && r.body.walletId in v.balances && v.balances[r.body.walletId].walletId == r.body.walletId
    requires !f.lookup && r.eventId !in v.processed
    ensures var (v', err) := HandleWith(v, r, f);
            MoveAnswers(v, v', err, r.eventId, r.body.walletId,
                        if r.body.FundsDeposited? then r.body.amount else -r.body.amount, r.body.version,
                        Entry(r.body.entryId, r.body.walletId,
                              if r.body.FundsDeposited? then "DEPOSIT" else "WITHDRAWAL",
                              r.body.amount, r.body.description, r.body.occurredAt), f)
  {
  }

  class QueryService {
    var balances: map<Uuid, Projection>
    var statement: map<Uuid, Entry>
    var stats: map<Uuid, Stats>
    var processed: set<Uuid>

    function Value(): View
      reads this
    {
      View(balances, statement, stats, processed)
    }

    // Balances are stored under their own wallet id.
    ghost predicate Valid()
      reads this
    {
      forall w :: w in balances ==> balances[w].walletId == w
    }

    constructor ()
      ensures Valid() && Value() == EMPTY
    {
      balances, statement, stats, processed := map[], map[], map[], {};
    }

    method HandleEvent(r: Record, f: Faults) returns (err: Option<Code>)
      requires Valid()
      modifies this
      ensures Valid() && (Value(), err) == HandleWith(old(Value()), r, f)
    {
      if f.lookup {
        return Some(Internal);
      }
      if r.eventId in processed {
        return None;
      }
      match r.body {
        case WalletCreated(w, userId, currency) =>
          err := HandleWalletCreated(w, userId, currency, f);
        case FundsDeposited(_, _, _, _, _, _) =>
          err := HandleFundsMoved(r.body, f);
        case FundsWithdrawn(_, _, _, _, _, _) =>
          err := HandleFundsMoved(r.body, f);
        case TransactionCompleted(userId, amount) =>
          err := HandleTransactionCompleted(userId, amount, f);
        case Ignored(_) =>
          return None;
      }
      if err.Some? {
        return err;
      }
      if f.mark.Happens() {
        processed := processed + {r.eventId};
      }
      return f.mark.Error();
    }

    method HandleWalletCreated(w: Uuid, userId: Uuid, currency: string, f: Faults) returns (err: Option<Code>)
      requires Valid()
      modifies this`balances
      ensures Valid() && (Value(), err) == ProjectWith(old(Value()), WalletCreated(w, userId, currency), f)
    {
      err := UpsertBalance(Projection(w, userId, currency, 0, 0), f.write);
    }

    // The deposit and the withdrawal handler differ in one sign and one word.
    method HandleFundsMoved(b: Body, f: Faults) returns (err: Option<Code>)
      requires Valid() && Moves(b)
      modifies this`balances, this`statement
      ensures Valid() && (Value(), err) == ProjectWith(old(Value()), b, f)
    {
      if f.read {
        return Some(Internal);
      }
      if b.walletId !in balances {
        return Some(NotFound);
      }
      var proj := balances[b.walletId];
      var amount := if b.FundsDeposited? then b.amount else -b.amount;
      proj := proj.(balance := proj.balance + amount, version := b.version);
      err := UpsertBalance(proj, f.write);
      if err.Some? {
        return err;
      }
      if f.append.Happens() {
        statement := Append(statement, EntryOf(b));
      }
      return f.append.Error();
    }

    method UpsertBalance(p: Projection, fate: Fate) returns (err: Option<Code>)
      requires Valid()
      modifies this`balances
      ensures Valid() && err == fate.Error()
      ensures balances == if fate.Happens() then Upsert(old(balances), p) else old(balances)
    {
      if fate.Happens() {
        balances := Upsert(balances, p);
      }
      return fate.Error();
    }

    method HandleTransactionCompleted(userId: Uuid, amount: int, f: Faults) returns (err: Option<Code>)
      requires Valid()
      modifies this`stats
      ensures (Value(), err) == ProjectWith(old(Value()), TransactionCompleted(userId, amount), f)
    {
      var s := Stats(userId, 0, 0, 0);
      if !f.read && userId in stats {
        s := stats[userId];
      }
      s := s.(transactions := s.transactions + 1, depositCents := s.depositCents + amount);
      if f.write.Happens() {
        stats := stats[userId := s];
      }
      return f.write.Error();
    }
  }

  // ------------------------------------------------------------------ any sequence of deliveries

  function Fold(d: seq<Record>): View
    decreases |d|
  {
    if d == [] then EMPTY else HandleIn(Fold(d[..|d| - 1]), d[|d| - 1]).0
  }

  // The records that were applied, by event id.
  function Applied(d: seq<Record>): map<Uuid, Record>
    decreases |d|
  {
    if d == [] then map[] else
      var before, last := d[..|d| - 1], d[|d| - 1];
      if last.eventId !in Fold(before).processed && last.eventId in Fold(d).processed
      then Applied(before)[last.eventId := last] else Applied(before)
  }

  // An event id stands for one record, and a wallet is created by one record.
  ghost predicate WellFormed(d: seq<Record>) {
    forall r, q :: r in d && q in d && (r.eventId == q.eventId || SameCreation(r.body, q.body)) ==> r == q
  }

  predicate SameCreation(a: Body, b: Body) {
    a.WalletCreated? && b.WalletCreated? && a.walletId == b.walletId
  }

  function MoveOf(r: Record, w: Uuid): int {
    if Moves(r.body) && r.body.walletId == w then Signed(r.body) else 0
  }

  function CountOf(r: Record, u: Uuid): int {
    if r.body.TransactionCompleted? && r.body.userId == u then 1 else 0
  }

  function AmountOf(r: Record, u: Uuid): int {
    if r.body.TransactionCompleted? && r.body.userId == u then r.body.amount else 0
  }

  ghost function MoveMap(applied: map<Uuid, Record>, w: Uuid): map<Uuid, int> {
    map id | id in applied :: MoveOf(applied[id], w)
  }

  ghost function CountMap(applied: map<Uuid, Record>, u: Uuid): map<Uuid, int> {
    map id | id in applied :: CountOf(applied[id], u)
  }

  ghost function AmountMap(applied: map<Uuid, Record>, u: Uuid): map<Uuid, int> {
    map id | id in applied :: AmountOf(applied[id], u)
  }

  // Balances and statistics are sums over the set of applied records, whatever the order was.
  ghost predicate Summed(v: View, applied: map<Uuid, Record>) {
    && v.processed == applied.Keys && (forall id :: id in applied ==> applied[id].eventId == id)
    && (forall w :: BalanceSummed(v, applied, w))
    && (forall u :: StatsSummed(v, applied, u))
  }

  ghost predicate BalanceSummed(v: View, applied: map<Uuid, Record>, w: Uuid) {
    if w in v.balances then
      v.balances[w].walletId == w && v.balances[w].balance == Sum(MoveMap(applied, w)) && Created(applied, w)
    else NoMoves(applied, w) && !Created(applied, w)
  }

  ghost predicate StatsSummed(v: View, applied: map<Uuid, Record>, u: Uuid) {
    StatsOf(v, u) == Stats(u, Sum(CountMap(applied, u)), Sum(AmountMap(applied, u)), 0)
  }

  ghost predicate Created(applied: map<Uuid, Record>, w: Uuid) {
    exists id :: id in applied && Creates(applied[id], w)
  }

  predicate Creates(r: Record, w: Uuid) {
    r.body.WalletCreated? && r.body.walletId == w
  }

  ghost predicate NoMoves(applied: map<Uuid, Record>, w: Uuid) {
    forall id :: id in applied ==>
      MoveOf(applied[id], w) == 0 && !(Moves(applied[id].body) && applied[id].body.walletId == w)
  }

  lemma NoMovesNoSum(applied: map<Uuid, Record>, w: Uuid)
    requires NoMoves(applied, w)
    ensures Sum(MoveMap(applied, w)) == 0
  {
    SumExtend(map[], MoveMap(applied, w));
  }

  lemma SumsGrow(applied: map<Uuid, Record>, r: Record, w: Uuid)
    requires r.eventId !in applied
    ensures var more := applied[r.eventId := r];
            && Sum(MoveMap(more, w)) == Sum(MoveMap(applied, w)) + MoveOf(r, w)
            && Sum(CountMap(more, w)) == Sum(CountMap(applied, w)) + CountOf(r, w)
            && Sum(AmountMap(more, w)) == Sum(AmountMap(applied, w)) + AmountOf(r, w)
  {
    var more := applied[r.eventId := r];
    SumChange(MoveMap(applied, w), MoveMap(more, w), r.eventId);
    SumChange(CountMap(applied, w), CountMap(more, w), r.eventId);
    SumChange(AmountMap(applied, w), AmountMap(more, w), r.eventId);
  }

  // Every applied record was delivered.
  lemma {:induction false} AppliedWereDelivered(d: seq<Record>, id: Uuid)
    ensures id in Applied(d) ==> Applied(d)[id] in d
    decreases |d|
  {
    if d != [] {
      AppliedWereDelivered(d[..|d| - 1], id);
      assert d == d[..|d| - 1] + [d[|d| - 1]];
    }
  }

  lemma CreatedSoFar(applied: map<Uuid, Record>, r: Record, w: Uuid)
    requires r.eventId !in applied
    ensures Created(applied[r.eventId := r], w) <==> Created(applied, w) || Creates(r, w)
  {
    var more := applied[r.eventId := r];
    if Created(applied, w) {
      var id :| id in applied && Creates(applied[id], w);
      assert id in more && Creates(more[id], w);
    }
    if Creates(r, w) {
      assert r.eventId in more && Creates(more[r.eventId], w);
    }
  }

  // Applying one more record.
  lemma ApplyKeepsSums(v: View, applied: map<Uuid, Record>, r: Record)
    requires Summed(v, applied) && r.eventId !in v.processed && !r.body.Ignored? && Project(v, r.body).Ok?
    requires r.body.WalletCreated? ==> r.body.walletId !in v.balances
    ensures Summed(HandleIn(v, r).0, applied[r.eventId := r])
  {
    var v', more := HandleIn(v, r).0, applied[r.eventId := r];
    assert Moves(r.body) ==> BalanceSummed(v, applied, r.body.walletId);
    assert r.body.TransactionCompleted? ==> StatsSummed(v, applied, r.body.userId);
    forall w
      ensures BalanceSummed(v', more, w)
    {
      assert BalanceSummed(v, applied, w);
      ApplyKeepsBalance(v, applied, r, w);
    }
    forall u
      ensures StatsSummed(v', more, u)
    {
      assert StatsSummed(v, applied, u);
      ApplyKeepsStats(v, applied, r, u);
    }
  }

  lemma ApplyKeepsStats(v: View, applied: map<Uuid, Record>, r: Record, u: Uuid)
    requires StatsSummed(v, applied, u) && v.processed == applied.Keys && r.eventId !in v.processed
    requires !r.body.Ignored? && Project(v, r.body).Ok?
    requires r.body.TransactionCompleted? ==> StatsOf(v, r.body.userId).userId == r.body.userId
    ensures StatsSummed(HandleIn(v, r).0, applied[r.eventId := r], u)
  {
    SumsGrow(applied, r, u);
  }

  lemma ApplyKeepsBalance(v: View, applied: map<Uuid, Record>, r: Record, w: Uuid)
    requires BalanceSummed(v, applied, w) && v.processed == applied.Keys && r.eventId !in v.processed
    requires !r.body.Ignored? && Project(v, r.body).Ok?
    requires r.body.WalletCreated? ==> r.body.walletId !in v.balances
    requires Moves(r.body) ==> v.balances[r.body.walletId].walletId == r.body.walletId
    ensures BalanceSummed(HandleIn(v, r).0, applied[r.eventId := r], w)
  {
    CreatedSoFar(applied, r, w);
    SumsGrow(applied, r, w);
    if w !in v.balances {
      NoMovesNoSum(applied, w);
    }
  }

  lemma {:induction false} FoldIsSummed(d: seq<Record>)
    requires WellFormed(d)
    ensures Summed(Fold(d), Applied(d))
    decreases |d|
  {
    if d == [] {
      forall w
        ensures BalanceSummed(EMPTY, map[], w) && StatsSummed(EMPTY, map[], w)
      {
        assert CountMap(map[], w) == map[] && AmountMap(map[], w) == map[];
      }
    } else {
      var before, r := d[..|d| - 1], d[|d| - 1];
      assert d == before + [r];
      FoldIsSummed(before);
      var v := Fold(before);
      if r.eventId !in v.processed && !r.body.Ignored? && Project(v, r.body).Ok? {
        assert Moves(r.body) ==> BalanceSummed(v, Applied(before), r.body.walletId);
        if r.body.WalletCreated? && r.body.walletId in v.balances {
          AlreadyApplied(before, r);
        }
        ApplyKeepsSums(v, Applied(before), r);
      }
    }
  }

  // The record that created a wallet is marked.
  lemma AlreadyApplied(before: seq<Record>, r: Record)
    requires WellFormed(before + [r]) && Summed(Fold(before), Applied(before))
    requires r.body.WalletCreated? && r.body.walletId in Fold(before).balances
    ensures r.eventId in Fold(before).processed
  {
    assert BalanceSummed(Fold(before), Applied(before), r.body.walletId);
    var id :| id in Applied(before) && Creates(Applied(before)[id], r.body.walletId);
    AppliedWereDelivered(before, id);
  }

  // Two consumers that have processed the same events show the same balances and statistics, whatever order
  // and repetition they saw.
  lemma Convergence(d: seq<Record>, e: seq<Record>)
    requires WellFormed(d + e) && Fold(d).processed == Fold(e).processed
    ensures forall w :: w in Fold(d).balances <==> w in Fold(e).balances
    ensures forall w :: w in Fold(d).balances ==> Fold(d).balances[w].balance == Fold(e).balances[w].balance
    ensures forall u :: StatsOf(Fold(d), u) == StatsOf(Fold(e), u)
  {
    SameApplied(d, e);
    var v, x, applied := Fold(d), Fold(e), Applied(d);
    forall w
      ensures w in v.balances <==> w in x.balances
      ensures w in v.balances ==> v.balances[w].balance == x.balances[w].balance
    {
      assert BalanceSummed(v, applied, w) && BalanceSummed(x, applied, w);
    }
    forall u
      ensures StatsOf(v, u) == StatsOf(x, u)
    {
      assert StatsSummed(v, applied, u) && StatsSummed(x, applied, u);
    }
  }

  lemma SameApplied(d: seq<Record>, e: seq<Record>)
    requires WellFormed(d + e) && Fold(d).processed == Fold(e).processed
    ensures Applied(d) == Applied(e) && Summed(Fold(d), Applied(d)) && Summed(Fold(e), Applied(d))
  {
    assert forall r :: r in d || r in e ==> r in d + e;
    FoldIsSummed(d);
    FoldIsSummed(e);
    forall id | id in Applied(d)
      ensures Applied(d)[id] == Applied(e)[id]
    {
      AppliedWereDelivered(d, id);
      AppliedWereDelivered(e, id);
    }
  }

  // ------------------------------------------------------------------ balances and statements

  function SignedEntry(e: Entry, w: Uuid): int {
    if e.walletId != w then 0 else if e.kind == "DEPOSIT" then e.amount else -e.amount
  }

  ghost function EntryMap(statement: map<Uuid, Entry>, w: Uuid): map<Uuid, int> {
    map id | id in statement :: SignedEntry(statement[id], w)
  }

  // The balance of every wallet is its deposits minus its withdrawals on the statement.
  ghost predicate Agrees(v: View) {
    forall w :: w in v.balances ==> AgreesOn(v, w)
  }

  ghost predicate AgreesOn(v: View, w: Uuid)
    requires w in v.balances
  {
    v.balances[w].balance == Sum(EntryMap(v.statement, w))
  }

  // What must hold of a record for the agreement to survive it. A deposit or withdrawal is not read or written
  // at all, or moves nothing, or reaches balance and statement with an entry id of its own; a creation is not
  // written, or does not reset a wallet whose statement has a sum.
  ghost predicate Harmless(v: View, b: Body, f: Faults) {
    match b
    case WalletCreated(w, _, _) => f.write.Fails? || Sum(EntryMap(v.statement, w)) == 0
    case FundsDeposited(_, amount, _, _, entryId, _) => HarmlessMove(v, amount, entryId, f)
    case FundsWithdrawn(_, amount, _, _, entryId, _) => HarmlessMove(v, amount, entryId, f)
    case _ => true
  }

  predicate HarmlessMove(v: View, amount: int, entryId: Uuid, f: Faults) {
    || f.read || f.write.Fails? || amount == 0
    || (f.write.Works? && f.append.Happens() && entryId !in v.statement)
  }

  // The record is not looked at, or refused.
  predicate Skipped(v: View, r: Record, f: Faults) {
    f.lookup || r.eventId in v.processed || (Moves(r.body) && r.body.walletId !in v.balances)
  }

  lemma AppendSum(v: View, b: Body, w: Uuid)
    requires Moves(b)
    ensures Sum(EntryMap(Append(v.statement, EntryOf(b)), w))
         == Sum(EntryMap(v.statement, w)) + if b.entryId !in v.statement && b.walletId == w then Signed(b) else 0
  {
    if b.entryId !in v.statement {
      SumChange(EntryMap(v.statement, w), EntryMap(Append(v.statement, EntryOf(b)), w), b.entryId);
    }
  }

  // Whatever fails: agreement survives a delivery if and only if the record is skipped or harmless.
  lemma AgreementSurvivesExactly(v: View, r: Record, f: Faults)
    requires Agrees(v) && forall w :: w in v.balances ==> v.balances[w].walletId == w
    ensures Agrees(HandleWith(v, r, f).0) <==> Skipped(v, r, f) || Harmless(v, r.body, f)
  {
    if !Skipped(v, r, f) {
      ProjectAgreement(v, r.body, f);
      SameTables(HandleWith(v, r, f).0, ProjectWith(v, r.body, f).0);
    }
  }

  // Agreement is about balances and statement alone.
  lemma SameTables(v: View, x: View)
    requires v.balances == x.balances && v.statement == x.statement
    ensures Agrees(v) <==> Agrees(x)
  {
    forall w | w in v.balances
      ensures AgreesOn(v, w) <==> AgreesOn(x, w)
    {
    }
  }

  lemma ProjectAgreement(v: View, b: Body, f: Faults)
    requires Agrees(v) && forall w :: w in v.balances ==> v.balances[w].walletId == w
    requires Moves(b) ==> b.walletId in v.balances
    ensures Agrees(ProjectWith(v, b, f).0) <==> Harmless(v, b, f)
  {
    var v' := ProjectWith(v, b, f).0;
    forall w | w in v'.balances
      ensures AgreesOn(v', w) <==> Harmless(v, b, f) || !Touches(b, w)
    {
      assert w in v.balances ==> AgreesOn(v, w);
      AgreementOf(v, b, f, w);
    }
    if (Moves(b) || b.WalletCreated?) && !Harmless(v, b, f) {
      assert b.walletId in v'.balances && Touches(b, b.walletId);
    }
  }

  // The same for one wallet.
  lemma AgreementOf(v: View, b: Body, f: Faults, w: Uuid)
    requires w in v.balances ==> AgreesOn(v, w) && v.balances[w].walletId == w
    requires Moves(b) ==> b.walletId in v.balances && v.balances[b.walletId].walletId == b.walletId
    ensures var v' := ProjectWith(v, b, f).0;
            w in v'.balances ==> (AgreesOn(v', w) <==> Harmless(v, b, f) || !Touches(b, w))
  {
    if Moves(b) {
      AppendSum(v, b, w);
      MoveBalance(v, b, f, w);
    }
  }

  // What a deposit or withdrawal leaves of a wallet's balance and of the statement.
  lemma MoveBalance(v: View, b: Body, f: Faults, w: Uuid)
    requires Moves(b) && b.walletId in v.balances && v.balances[b.walletId].walletId == b.walletId
    ensures var v' := ProjectWith(v, b, f).0;
            && (w in v'.balances <==> w in v.balances)
            && (w in v.balances ==>
                  v'.balances[w].balance
                  == v.balances[w].balance
                     + if b.walletId == w && !f.read && f.write.Happens() then Signed(b) else 0)
            && v'.statement == if !f.read && f.write.Works? && f.append.Happens() then Append(v.statement, EntryOf(b))
                               else v.statement
  {
  }

  lemma AgreementWithoutFailures(v: View, r: Record)
    requires Agrees(v) && forall w :: w in v.balances ==> v.balances[w].walletId == w
    requires r.eventId !in v.processed && Project(v, r.body).Ok?
    ensures Agrees(HandleIn(v, r).0) <==> Harmless(v, r.body, NO_FAULTS)
  {
    FailureFree(v, r);
    AgreementSurvivesExactly(v, r, NO_FAULTS);
  }

  predicate Touches(b: Body, w: Uuid) {
    (Moves(b) || b.WalletCreated?) && b.walletId == w
  }

  // Deposits and withdrawals carry entry ids of their own.
  ghost predicate EntriesDistinct(d: seq<Record>) {
    forall r, q :: r in d && q in d && Moves(r.body) && Moves(q.body) && r.body.entryId == q.body.entryId ==> r == q
  }

  // The statement holds exactly the entries of the applied deposits and withdrawals, so every balance is the
  // sum of its statement, in any order and with any redelivery.
  lemma {:induction false} BalancesMatchStatements(d: seq<Record>)
    requires WellFormed(d) && EntriesDistinct(d)
    ensures Agrees(Fold(d))
    ensures forall e :: e in Fold(d).statement ==> EntryIsFrom(d, e)
    decreases |d|
  {
    if d != [] {
      var before, r := d[..|d| - 1], d[|d| - 1];
      assert d == before + [r];
      BalancesMatchStatements(before);
      FoldIsSummed(before);
      var v := Fold(before);
      forall e | e in Fold(d).statement
        ensures EntryIsFrom(d, e)
      {
        EntryStaysFrom(before, r, e);
      }
      if r.eventId !in v.processed && Project(v, r.body).Ok? {
        IsHarmless(before, r);
        assert forall w :: w in v.balances ==> BalanceSummed(v, Applied(before), w);
        AgreementWithoutFailures(v, r);
      }
    }
  }

  // The entry comes from a marked record.
  ghost predicate EntryIsFrom(d: seq<Record>, e: Uuid) {
    exists r :: r in d && IsEntryOf(Fold(d), r, e)
  }

  predicate IsEntryOf(v: View, r: Record, e: Uuid) {
    Moves(r.body) && r.body.entryId == e && r.eventId in v.processed && e in v.statement
    && v.statement[e] == EntryOf(r.body)
  }

  lemma EntryStaysFrom(before: seq<Record>, r: Record, e: Uuid)
    requires e in Fold(before + [r]).statement
    requires e in Fold(before).statement ==> EntryIsFrom(before, e)
    ensures EntryIsFrom(before + [r], e)
  {
    var d := before + [r];
    assert d[..|d| - 1] == before;
    if e in Fold(before).statement {
      var q :| q in before && IsEntryOf(Fold(before), q, e);
      EntryStays(Fold(before), r, q, e);
      assert q in d && IsEntryOf(Fold(d), q, e);
    } else {
      EntryArrives(Fold(before), r, e);
      assert r in d && IsEntryOf(Fold(d), r, e);
    }
  }

  lemma EntryStays(v: View, r: Record, q: Record, e: Uuid)
    requires IsEntryOf(v, q, e)
    ensures IsEntryOf(HandleIn(v, r).0, q, e)
  {
  }

  lemma EntryArrives(v: View, r: Record, e: Uuid)
    requires e !in v.statement && e in HandleIn(v, r).0.statement
    ensures IsEntryOf(HandleIn(v, r).0, r, e)
  {
  }

  lemma IsHarmless(before: seq<Record>, r: Record)
    requires WellFormed(before + [r]) && EntriesDistinct(before + [r])
    requires Summed(Fold(before), Applied(before)) && r.eventId !in Fold(before).processed
    requires forall e :: e in Fold(before).statement ==> EntryIsFrom(before, e)
    requires Agrees(Fold(before))
    ensures Harmless(Fold(before), r.body, NO_FAULTS)
  {
    var v := Fold(before);
    if Moves(r.body) {
      NoSuchEntry(before, r);
    } else if r.body.WalletCreated? {
      var w := r.body.walletId;
      if w in v.balances {
        AlreadyApplied(before, r);
      } else {
        NoEntries(before, w);
      }
    }
  }

  lemma NoSuchEntry(before: seq<Record>, r: Record)
    requires EntriesDistinct(before + [r]) && Moves(r.body) && r.eventId !in Fold(before).processed
    requires forall e :: e in Fold(before).statement ==> EntryIsFrom(before, e)
    ensures r.body.entryId !in Fold(before).statement
  {
    forall e | e in Fold(before).statement
      ensures e != r.body.entryId
    {
      assert EntryIsFrom(before, e);
    }
  }

  // A wallet without a balance row has no entries.
  lemma NoEntries(d: seq<Record>, w: Uuid)
    requires Summed(Fold(d), Applied(d)) && w !in Fold(d).balances && WellFormed(d)
    requires forall e :: e in Fold(d).statement ==> EntryIsFrom(d, e)
    ensures Sum(EntryMap(Fold(d).statement, w)) == 0
  {
    forall e | e in Fold(d).statement
      ensures SignedEntry(Fold(d).statement[e], w) == 0
    {
      assert EntryIsFrom(d, e);
      var r :| r in d && IsEntryOf(Fold(d), r, e);
      AppliedWereDelivered(d, r.eventId);
      assert Applied(d)[r.eventId] == r;
      assert BalanceSummed(Fold(d), Applied(d), w);
    }
    SumExtend(map[], EntryMap(Fold(d).statement, w));
  }

  // The agreement fails on what the wallet service publishes: its payloads carry no entry id, so two deposits
  // share the zero one and the second never reaches the statement.
  lemma DisagreementHappens(w: Uuid)
    ensures exists d :: WellFormed(d) && !Agrees(Fold(d))
  {
    var created := Record(Uuid(1), WalletCreated(w, Uuid(1), "USD"));
    var first, second := BlankDeposit(Uuid(2), w), BlankDeposit(Uuid(3), w);
    CreationAgrees(created);
    SecondIsLost(HandleIn(EMPTY, created).0, first, second);
    FoldThree(created, first, second);
    OneCreation(created, first, second);
  }

  lemma CreationAgrees(r: Record)
    requires r.body.WalletCreated?
    ensures var v := HandleIn(EMPTY, r).0;
            && Agrees(v) && v.balances.Keys == {r.body.walletId}
            && v.balances[r.body.walletId].walletId == r.body.walletId
            && v.statement == map[] && v.processed == {r.eventId}
  {
    var v := HandleIn(EMPTY, r).0;
    assert AgreesOn(v, r.body.walletId) by {
      assert EntryMap(v.statement, r.body.walletId) == map[];
    }
  }

  lemma OneCreation(a: Record, b: Record, c: Record)
    requires a.eventId != b.eventId && b.eventId != c.eventId && c.eventId != a.eventId
    requires !b.body.WalletCreated? && !c.body.WalletCreated?
    ensures WellFormed([a, b, c])
  {
  }

  // A deposit of 100 without an entry id.
  function BlankDeposit(eventId: Uuid, w: Uuid): Record {
    Record(eventId, FundsDeposited(w, 100, "", 0, NIL, 0))
  }

  lemma SecondIsLost(v: View, first: Record, second: Record)
    requires Agrees(v) && (forall w :: w in v.balances ==> v.balances[w].walletId == w) && NIL !in v.statement
    requires first.eventId != second.eventId && first.eventId !in v.processed && second.eventId !in v.processed
    requires Moves(first.body) && first.body.entryId == NIL && first.body.walletId in v.balances
    requires second.body == first.body && first.body.amount != 0
    ensures !Agrees(HandleIn(HandleIn(v, first).0, second).0)
  {
    AgreementWithoutFailures(v, first);
    AgreementWithoutFailures(HandleIn(v, first).0, second);
  }

  lemma FoldThree(a: Record, b: Record, c: Record)
    ensures Fold([a, b, c]) == HandleIn(HandleIn(HandleIn(EMPTY, a).0, b).0, c).0
  {
    assert [a, b, c][..2] == [a, b] && [a, b][..1] == [a] && [a][..0] == [];
    assert Fold([a]) == HandleIn(EMPTY, a).0;
    assert Fold([a, b]) == HandleIn(Fold([a]), b).0;
  }

  // ------------------------------------------------------------------ the read model refines the write model

  // The record published for an event of a wallet's log.
  function RecordOf(e: W.Event): Record {
    Record(e.id,
           match e.payload
           case WalletCreated(userId, currency) => WalletCreated(e.walletId, userId, currency)
           case FundsDeposited(amount, description) =>
             FundsDeposited(e.walletId, amount, description, e.version, e.id, 0)
           case FundsWithdrawn(amount, description) =>
             FundsWithdrawn(e.walletId, amount, description, e.version, e.id, 0)
           case FundsReserved(_, _) => Ignored(e.walletId)
           case FundsReleased(_, _) => Ignored(e.walletId))
  }

  function RecordsOf(log: seq<W.Event>): (rs: seq<Record>)
    ensures |rs| == |log| && forall i :: 0 <= i < |log| ==> rs[i] == RecordOf(log[i])
  {
    seq(|log|, i requires 0 <= i < |log| => RecordOf(log[i]))
  }

  predicate About(r: Record, w: Uuid) {
    !r.body.TransactionCompleted? && r.body.walletId == w
  }

  // The deliveries that concern one wallet.
  function AboutWallet(d: seq<Record>, w: Uuid): seq<Record>
    decreases |d|
  {
    if d == [] then [] else
      var before := AboutWallet(d[..|d| - 1], w);
      if About(d[|d| - 1], w) then before + [d[|d| - 1]] else before
  }

  lemma {:induction false} AboutWalletElements(d: seq<Record>, w: Uuid, r: Record)
    ensures r in AboutWallet(d, w) <==> r in d && About(r, w)
    decreases |d|
  {
    if d != [] {
      AboutWalletElements(d[..|d| - 1], w, r);
      assert d == d[..|d| - 1] + [d[|d| - 1]];
    }
  }

  // The wallet's row of the read model against the wallet's state after n events of its log.
  ghost predicate Mirrors(v: View, w: Uuid, log: seq<W.Event>, n: nat)
    requires n <= |log|
  {
    var s := W.Replay(W.ZERO, log[..n]);
    if n == 0 then w !in v.balances
    else
      && w in v.balances && v.balances[w].walletId == w
      && v.balances[w].balance == s.balance && v.balances[w].userId == s.userId && v.balances[w].currency == s.currency
      && v.balances[w].version == LastMove(log, n)
  }

  // The version of the last deposit or withdrawal among the first n events, 0 if there is none.
  function LastMove(log: seq<W.Event>, n: nat): int
    requires n <= |log|
  {
    if n == 0 then 0
    else if Moves(RecordOf(log[n - 1]).body) then log[n - 1].version
    else LastMove(log, n - 1)
  }

  ghost predicate AllMarked(v: View, log: seq<W.Event>, n: nat)
    requires n <= |log|
  {
    forall i :: 0 <= i < n && !RecordOf(log[i]).body.Ignored? ==> log[i].id in v.processed
  }

  ghost predicate UniqueIds(d: seq<Record>) {
    forall r, q :: r in d && q in d && r.eventId == q.eventId ==> r == q
  }

  lemma IdsStayUnique(before: seq<Record>, r: Record)
    requires UniqueIds(before + [r])
    ensures UniqueIds(before)
  {
    forall p, q | p in before && q in before && p.eventId == q.eventId
      ensures p == q
    {
      assert p in before + [r] && q in before + [r];
    }
  }

  // The next event of the log, delivered for the first time.
  lemma NextRecord(v: View, w: Uuid, log: seq<W.Event>, n: nat)
    requires W.ValidLog(w, log) && n < |log| && Mirrors(v, w, log, n)
    requires log[n].id !in v.processed
    ensures Mirrors(HandleIn(v, RecordOf(log[n])).0, w, log, n + 1)
    ensures !RecordOf(log[n]).body.Ignored? ==> log[n].id in HandleIn(v, RecordOf(log[n])).0.processed
  {
    assert W.ValidatedAt(log, n);
    W.ValidPrefix(w, log, n);
    W.LogFacts(w, log[..n]);
    assert log[..n + 1] == log[..n] + [log[n]];
    W.ReplaySnoc(W.ZERO, log[..n], log[n]);
  }

  // A record about something else leaves the wallet's row alone.
  lemma OtherRecord(v: View, r: Record, w: Uuid)
    requires !About(r, w) && forall x :: x in v.balances ==> v.balances[x].walletId == x
    ensures var v' := HandleIn(v, r).0;
            && (w in v'.balances <==> w in v.balances) && (w in v.balances ==> v'.balances[w] == v.balances[w])
            && v.processed <= v'.processed
  {
  }

  lemma {:induction false} RowsUnderTheirIds(d: seq<Record>)
    ensures forall x :: x in Fold(d).balances ==> Fold(d).balances[x].walletId == x
    decreases |d|
  {
    if d != [] {
      RowsUnderTheirIds(d[..|d| - 1]);
    }
  }

  lemma {:induction false} ProcessedWereDelivered(d: seq<Record>, id: Uuid)
    requires id in Fold(d).processed
    ensures exists r :: r in d && r.eventId == id
    decreases |d|
  {
    if d != [] {
      var before, r := d[..|d| - 1], d[|d| - 1];
      assert d == before + [r];
      if id in Fold(before).processed {
        ProcessedWereDelivered(before, id);
      } else {
        assert r in d && r.eventId == id;
      }
    }
  }

  // The read model refines the write model: whatever else is delivered, if what arrives about a wallet is,
  // without repeats, the first n events of its log, then the projected row is the replay of those n events:
  // balance, owner and currency, at the version of the last deposit or withdrawal. Reserves and releases leave
  // no trace.
  lemma {:induction false} RefinesWriteModel(d: seq<Record>, w: Uuid, log: seq<W.Event>, n: nat)
    requires W.ValidLog(w, log) && n <= |log| && UniqueIds(d)
    requires FirstOccurrences(AboutWallet(d, w)) == RecordsOf(log[..n])
    ensures Mirrors(Fold(d), w, log, n) && AllMarked(Fold(d), log, n)
    decreases |d|
  {
    if d != [] {
      var before, r := d[..|d| - 1], d[|d| - 1];
      assert d == before + [r];
      assert UniqueIds(before) by { IdsStayUnique(before, r); }
      if About(r, w) && r !in FirstOccurrences(AboutWallet(before, w)) {
        LastIsNew(before, r, w, log, n);
        RefinesWriteModel(before, w, log, n - 1);
        FreshRecord(before, r, w);
        NewRecord(Fold(before), w, log, n);
      } else {
        LastIsOld(before, r, w);
        RefinesWriteModel(before, w, log, n);
        OldRecord(before, r, w, log, n);
      }
    }
  }

  lemma NewRecord(v: View, w: Uuid, log: seq<W.Event>, n: nat)
    requires W.ValidLog(w, log) && 0 < n <= |log| && Mirrors(v, w, log, n - 1) && AllMarked(v, log, n - 1)
    requires log[n - 1].id !in v.processed
    ensures Mirrors(HandleIn(v, RecordOf(log[n - 1])).0, w, log, n)
    ensures AllMarked(HandleIn(v, RecordOf(log[n - 1])).0, log, n)
  {
    var v' := HandleIn(v, RecordOf(log[n - 1])).0;
    NextRecord(v, w, log, n - 1);
    MarksStay(v, RecordOf(log[n - 1]));
    assert forall i :: 0 <= i < n - 1 && !RecordOf(log[i]).body.Ignored? ==> log[i].id in v'.processed;
  }

  lemma MarksStay(v: View, r: Record)
    ensures v.processed <= HandleIn(v, r).0.processed
  {
  }

  lemma LastIsNew(before: seq<Record>, r: Record, w: Uuid, log: seq<W.Event>, n: nat)
    requires About(r, w) && r !in FirstOccurrences(AboutWallet(before, w)) && n <= |log|
    requires FirstOccurrences(AboutWallet(before + [r], w)) == RecordsOf(log[..n])
    ensures n > 0 && r == RecordOf(log[n - 1])
    ensures FirstOccurrences(AboutWallet(before, w)) == RecordsOf(log[..n - 1])
  {
    var seen := FirstOccurrences(AboutWallet(before, w));
    assert RecordsOf(log[..n]) == seen + [r] by {
      assert (before + [r])[..|before|] == before;
      FirstSnoc(AboutWallet(before, w), r);
    }
    LastRecord(log, n, seen, r);
  }

  lemma LastRecord(log: seq<W.Event>, n: nat, seen: seq<Record>, r: Record)
    requires n <= |log| && RecordsOf(log[..n]) == seen + [r]
    ensures n > 0 && r == RecordOf(log[n - 1]) && seen == RecordsOf(log[..n - 1])
  {
    assert RecordsOf(log[..n])[n - 1] == r && |seen| == n - 1;
    forall i | 0 <= i < n - 1
      ensures seen[i] == RecordOf(log[i])
    {
      assert RecordsOf(log[..n])[i] == seen[i];
    }
  }

  lemma LastIsOld(before: seq<Record>, r: Record, w: Uuid)
    requires !About(r, w) || r in FirstOccurrences(AboutWallet(before, w))
    ensures FirstOccurrences(AboutWallet(before + [r], w)) == FirstOccurrences(AboutWallet(before, w))
  {
    assert (before + [r])[..|before|] == before;
    if About(r, w) {
      FirstSnoc(AboutWallet(before, w), r);
    } else {
      assert AboutWallet(before + [r], w) == AboutWallet(before, w);
    }
  }

  // A repeat, or a record about something else, leaves the wallet's row alone.
  lemma OldRecord(before: seq<Record>, r: Record, w: Uuid, log: seq<W.Event>, n: nat)
    requires n <= |log| && Mirrors(Fold(before), w, log, n) && AllMarked(Fold(before), log, n)
    requires FirstOccurrences(AboutWallet(before, w)) == RecordsOf(log[..n])
    requires !About(r, w) || r in FirstOccurrences(AboutWallet(before, w))
    ensures Mirrors(HandleIn(Fold(before), r).0, w, log, n) && AllMarked(HandleIn(Fold(before), r).0, log, n)
  {
    if About(r, w) {
      RepeatedRecord(Fold(before), r, log, n);
    } else {
      RowsUnderTheirIds(before);
      OtherRecord(Fold(before), r, w);
    }
  }

  lemma RepeatedRecord(v: View, r: Record, log: seq<W.Event>, n: nat)
    requires n <= |log| && r in RecordsOf(log[..n]) && AllMarked(v, log, n)
    ensures HandleIn(v, r).0 == v
  {
    var i :| 0 <= i < n && RecordsOf(log[..n])[i] == r;
    assert r == RecordOf(log[i]);
  }

  lemma FreshRecord(before: seq<Record>, r: Record, w: Uuid)
    requires UniqueIds(before + [r]) && About(r, w) && r !in FirstOccurrences(AboutWallet(before, w))
    ensures r.eventId !in Fold(before).processed
  {
    FirstSameElements(AboutWallet(before, w), r);
    AboutWalletElements(before, w, r);
    if r.eventId in Fold(before).processed {
      ProcessedWereDelivered(before, r.eventId);
    }
  }
}
