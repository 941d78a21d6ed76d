// WalletService run serially: every call is one atomic step on the tables, and any database operation of a
// call may fail.
module WalletServices {
  import opened Base
  import opened Wallets
  import opened EventStores

  // The whole effect of creating a wallet on the event table.
  function CreateIn(t: Table, w: Uuid, userId: Uuid, currency: string, eventId: Uuid): Result<Table> {
    if currency == "" then Err(InvalidArgument)
    else if MaxVersion(t.Of(w)) != 0 then Err(Conflict)
    else t.Insert(Event(eventId, w, WalletCreated(userId, currency), 1))
  }

  // The whole effect of one command on the event table: validate on the full replay, append one event.
  function ExecuteIn(t: Table, w: Uuid, c: Command, eventId: Uuid): Result<Table> {
    var log := t.Of(w);
    if log == [] then Err(NotFound) else
      match Decide(Replay(ZERO, log), c)
      case Err(code) => Err(code)
      case Ok(p) => t.Insert(NextEvent(Replay(ZERO, log), eventId, p))
  }

  // Which database operations of one call go wrong. commit covers the inserts and the commit itself.
  datatype DbFaults = DbFaults(loadSnapshot: bool, loadEvents: bool, begin: bool, commit: Fate, saveSnapshot: Fate)

  const HEALTHY := DbFaults(false, false, false, Works, Works)

  // The event table and the error a creation leaves behind.
  function CreateWith(t: Table, w: Uuid, userId: Uuid, currency: string, eventId: Uuid, f: DbFaults)
    : (Table, Option<Code>)
  {
    if currency == "" then (t, Some(InvalidArgument))
    else if f.begin then (t, Some(Internal))
    else match CreateIn(t, w, userId, currency, eventId)
      case Err(code) => (t, Some(code))
      case Ok(t') => (if f.commit.Happens() then t' else t, f.commit.Error())
  }

  // The event table and the error a command leaves behind. A failed snapshot read costs nothing; a commit or
  // a snapshot that reports an error may leave the event in the log.
  function ExecuteWith(t: Table, w: Uuid, c: Command, eventId: Uuid, f: DbFaults): (Table, Option<Code>) {
    if f.loadEvents then (t, Some(Internal))
    else match ExecuteIn(t, w, c, eventId)
      case Err(code) => (t, Some(code))
      case Ok(t') =>
        if f.begin || f.commit.Fails? then (t, Some(Internal))
        else if f.commit.Misreported? then (t', Some(Internal))
        else (t', SnapshotError(Replay(ZERO, t'.Of(w)), f.saveSnapshot))
  }

  function SnapshotError(s: State, save: Fate): Option<Code> {
    if s.version % SNAPSHOT_INTERVAL == 0 then save.Error() else None
  }

  // A command on valid tables fails exactly when the wallet is missing, the guard refuses or the event id
  // is taken; otherwise one event is appended to that wallet's log and no other log moves.
  lemma ExecuteAppendsOne(t: Table, w: Uuid, c: Command, eventId: Uuid)
    requires ValidTable(t)
    ensures var log := t.Of(w);
            var r := ExecuteIn(t, w, c, eventId);
            && (r.Ok? <==> log != [] && Decide(Replay(ZERO, log), c).Ok? && eventId !in t.ids)
            && (r.Ok? ==>
                  && ValidTable(r.value) && r.value.ids == t.ids + {eventId}
                  && var e := NextEvent(Replay(ZERO, log), eventId, Decide(Replay(ZERO, log), c).value);
                     r.value.rows == t.rows[w := log + [e]]
                     && Replay(ZERO, r.value.Of(w)) == Apply(Replay(ZERO, log), e))
  {
    var log := t.Of(w);
    var s := Replay(ZERO, log);
    assert s.version == |log| && (log != [] ==> s.id == w) by {
      assert ValidLog(w, log);
      LogFacts(w, log);
    }
    if log != [] && Decide(s, c).Ok? {
      var e := NextEvent(s, eventId, Decide(s, c).value);
      if eventId !in t.ids {
        AppendDecided(t, c, e);
        ReplaySnoc(ZERO, log, e);
      }
    }
  }

  // What the caller of a command is told and what is left in the table, whatever fails, in terms of the log,
  // the amount and the balances alone.
  lemma CommandAnswers(t: Table, w: Uuid, c: Command, eventId: Uuid, f: DbFaults)
    requires ValidTable(t)
    ensures var (log, s) := (t.Of(w), Replay(ZERO, t.Of(w)));
            var (t', err) := ExecuteWith(t, w, c, eventId, f);
            if f.loadEvents then t' == t && err == Some(Internal)
            else if log == [] then t' == t && err == Some(NotFound)
            else if (c.Deposit? || c.Withdraw?) && c.amount <= 0 then t' == t && err == Some(InvalidArgument)
            else if (c.Withdraw? || c.Reserve?) && c.amount > s.balance - s.reserved then
              t' == t && err == Some(InsufficientFunds)
            else if f.begin || f.commit.Fails? || eventId in t.ids then t' == t && err == Some(Internal)
            else
              && AppendedTo(t, t', w, eventId, c)
              && err == if f.commit.Works? && ((|log| + 1) % 50 != 0 || f.saveSnapshot.Works?) then None
                        else Some(Internal)
  {
    ExecuteAppendsOne(t, w, c, eventId);
    var log := t.Of(w);
    assert ValidLog(w, log);
    LogFacts(w, log);
    var s := Replay(ZERO, log);
    if log != [] && Decide(s, c).Ok? && eventId !in t.ids {
      var t' := ExecuteIn(t, w, c, eventId).value;
      VersionIsLength(t', w);
      assert t'.Of(w) == log + [NextEvent(s, eventId, Decide(s, c).value)];
    }
  }

  // One event, spelled out, at the end of one log.
  ghost predicate AppendedTo(t: Table, t': Table, w: Uuid, eventId: Uuid, c: Command) {
    && t'.ids == t.ids + {eventId} && (forall x :: x != w ==> t'.Of(x) == t.Of(x))
    && |t'.Of(w)| == |t.Of(w)| + 1 && t.Of(w) <= t'.Of(w)
    && var e := t'.Of(w)[|t.Of(w)|];
       && e.id == eventId && e.walletId == w && e.version == |t.Of(w)| + 1
       && match c
          case Deposit(amount, description) => e.payload == FundsDeposited(amount, description)
          case Withdraw(amount, description) => e.payload == FundsWithdrawn(amount, description)
          case Reserve(amount, transactionId) => e.payload == FundsReserved(amount, transactionId)
          case Release(amount, transactionId) => e.payload == FundsReleased(amount, transactionId)
  }

  // The same of a creation.
  lemma CreationAnswers(t: Table, w: Uuid, userId: Uuid, currency: string, eventId: Uuid, f: DbFaults)
    requires ValidTable(t)
    ensures var (t', err) := CreateWith(t, w, userId, currency, eventId, f);
            if currency == "" then t' == t && err == Some(InvalidArgument)
            else if f.begin then t' == t && err == Some(Internal)
            else if t.Of(w) != [] then t' == t && err == Some(Conflict)
            else if f.commit.Fails? || eventId in t.ids then t' == t && err == Some(Internal)
            else
              && t'.ids == t.ids + {eventId} && (forall x :: x != w ==> t'.Of(x) == t.Of(x))
              && t'.Of(w) == [Event(eventId, w, WalletCreated(userId, currency), 1)]
              && err == if f.commit.Works? then None else Some(Internal)
  {
    CreateStartsLog(t, w, userId, currency, eventId);
    VersionIsLength(t, w);
  }

  lemma AppendDecided(t: Table, c: Command, e: Event)
    requires ValidTable(t) && e.id !in t.ids
    requires e.version == |t.Of(e.walletId)| + 1 && |t.Of(e.walletId)| == Replay(ZERO, t.Of(e.walletId)).version
    requires e.version > 1 && Decide(Replay(ZERO, t.Of(e.walletId)), c) == Ok(e.payload)
    ensures t.Insert(e).Ok? && ValidTable(t.Insert(e).value)
  {
    assert CommandOf(e.payload) == c;
    InsertIntoValid(t, e);
    InsertKeepsValid(t, e);
  }

  lemma CreateStartsLog(t: Table, w: Uuid, userId: Uuid, currency: string, eventId: Uuid)
    requires ValidTable(t)
    ensures var r := CreateIn(t, w, userId, currency, eventId);
            && (r.Ok? <==> currency != "" && t.Of(w) == [] && eventId !in t.ids)
            && (r.Ok? ==>
                  && ValidTable(r.value) && r.value.ids == t.ids + {eventId}
                  && r.value.rows == t.rows[w := [Event(eventId, w, WalletCreated(userId, currency), 1)]]
                  && Replay(ZERO, r.value.Of(w)) == State(w, userId, currency, 0, 0, 1))
  {
    assert ValidLog(w, t.Of(w));
    MaxVersionIsLength(w, t.Of(w));
    var e := Event(eventId, w, WalletCreated(userId, currency), 1);
    if currency != "" && t.Of(w) == [] && eventId !in t.ids {
      InsertIntoValid(t, e);
      InsertKeepsValid(t, e);
      ReplaySnoc(ZERO, [], e);
      assert [] + [e] == [e];
    }
  }

  // ------------------------------------------------------------------ which logs get written

  datatype Request = Creation(userId: Uuid, currency: string, eventId: Uuid) | Order(command: Command, eventId: Uuid)

  function Outcome(t: Table, w: Uuid, q: Request): Result<Table> {
    match q
    case Creation(userId, currency, eventId) => CreateIn(t, w, userId, currency, eventId)
    case Order(command, eventId) => ExecuteIn(t, w, command, eventId)
  }

  // The table after a sequence of calls for one wallet, successful or not.
  function Written(w: Uuid, requests: seq<Request>): Table
    decreases |requests|
  {
    if requests == [] then Table(map[], {}) else
      var t := Written(w, requests[..|requests| - 1]);
      var r := Outcome(t, w, requests[|requests| - 1]);
      if r.Ok? then r.value else t
  }

  ghost predicate OwnIds(log: seq<Event>) {
    forall i, j :: 0 <= i < j < |log| ==> log[i].id != log[j].id
  }

  // The logs the service can write are exactly the valid ones with ids of their own.
  lemma WrittenExactly(w: Uuid, log: seq<Event>)
    ensures (exists requests :: Written(w, requests).Of(w) == log) <==> ValidLog(w, log) && OwnIds(log)
  {
    if requests :| Written(w, requests).Of(w) == log {
      WrittenIsValid(w, requests);
      assert ValidLog(w, Written(w, requests).Of(w));
    }
    if ValidLog(w, log) && OwnIds(log) {
      ValidIsWritten(w, log);
      assert Written(w, RequestsOf(log)).Of(w) == log;
    }
  }

  lemma {:induction false} WrittenIsValid(w: Uuid, requests: seq<Request>)
    ensures var t := Written(w, requests);
            ValidTable(t) && OwnIds(t.Of(w)) && forall e :: e in t.Of(w) ==> e.id in t.ids
    decreases |requests|
  {
    if requests != [] {
      var t, q := Written(w, requests[..|requests| - 1]), requests[|requests| - 1];
      WrittenIsValid(w, requests[..|requests| - 1]);
      match q {
        case Creation(userId, currency, eventId) => CreateStartsLog(t, w, userId, currency, eventId);
        case Order(command, eventId) => ExecuteAppendsOne(t, w, command, eventId);
      }
    } else {
      assert forall x :: Written(w, requests).Of(x) == [];
    }
  }

  // Each event of a log asks for itself.
  function RequestOf(e: Event): Request {
    if e.payload.WalletCreated? then Creation(e.payload.userId, e.payload.currency, e.id)
    else Order(CommandOf(e.payload), e.id)
  }

  function RequestsOf(log: seq<Event>): (r: seq<Request>)
    ensures |r| == |log| && forall i :: 0 <= i < |log| ==> r[i] == RequestOf(log[i])
  {
    seq(|log|, i requires 0 <= i < |log| => RequestOf(log[i]))
  }

  ghost predicate IdIn(log: seq<Event>, id: Uuid) {
    exists i :: 0 <= i < |log| && log[i].id == id
  }

  lemma LastIdIsNew(log: seq<Event>)
    requires OwnIds(log) && log != []
    ensures OwnIds(log[..|log| - 1]) && !IdIn(log[..|log| - 1], log[|log| - 1].id)
    ensures forall id :: IdIn(log[..|log| - 1], id) || id == log[|log| - 1].id ==> IdIn(log, id)
  {
    var front := log[..|log| - 1];
    forall id | IdIn(front, id)
      ensures IdIn(log, id)
    {
      var i :| 0 <= i < |front| && front[i].id == id;
      assert log[i].id == id;
    }
  }

  lemma {:induction false} ValidIsWritten(w: Uuid, log: seq<Event>)
    requires ValidLog(w, log) && OwnIds(log)
    ensures var t := Written(w, RequestsOf(log));
            ValidTable(t) && t.Of(w) == log && forall id :: id in t.ids ==> IdIn(log, id)
    decreases |log|
  {
    if log == [] {
      assert forall x :: Written(w, RequestsOf(log)).Of(x) == [];
    } else {
      var front := log[..|log| - 1];
      assert ValidLog(w, front) by { ValidPrefix(w, log, |log| - 1); }
      LastIdIsNew(log);
      ValidIsWritten(w, front);
      var t := Written(w, RequestsOf(front));
      assert !IdIn(front, log[|log| - 1].id);
      NextIsWritten(w, log, t);
      WrittenSnoc(w, log);
    }
  }

  lemma WrittenSnoc(w: Uuid, log: seq<Event>)
    requires log != []
    ensures var t := Written(w, RequestsOf(log[..|log| - 1]));
            var r := Outcome(t, w, RequestOf(log[|log| - 1]));
            Written(w, RequestsOf(log)) == if r.Ok? then r.value else t
  {
    assert RequestsOf(log)[..|log| - 1] == RequestsOf(log[..|log| - 1]);
  }

  lemma NextIsWritten(w: Uuid, log: seq<Event>, t: Table)
    requires ValidLog(w, log) && log != [] && ValidTable(t) && t.Of(w) == log[..|log| - 1]
    requires log[|log| - 1].id !in t.ids
    ensures var r := Outcome(t, w, RequestOf(log[|log| - 1]));
            r.Ok? && ValidTable(r.value) && r.value.Of(w) == log && r.value.ids == t.ids + {log[|log| - 1].id}
  {
    var e := log[|log| - 1];
    LogFacts(w, t.Of(w)) by {
      ValidPrefix(w, log, |log| - 1);
    }
    assert ValidatedAt(log, |log| - 1);
    assert log == t.Of(w) + [e];
    if e.payload.WalletCreated? {
      CreateStartsLog(t, w, e.payload.userId, e.payload.currency, e.id);
    } else {
      ExecuteAppendsOne(t, w, CommandOf(e.payload), e.id);
    }
  }

  // ------------------------------------------------------------------ the service

  function SnapshotVersion(snaps: map<Uuid, State>, w: Uuid): int {
    if w in snaps then snaps[w].version else 0
  }

  // The stored snapshot is the one taken at the last multiple of the interval.
  ghost predicate UpToDate(t: Table, snaps: map<Uuid, State>) {
    forall w :: SnapshotVersion(snaps, w) == LastBoundary(|t.Of(w)|)
  }

  function LastBoundary(n: nat): nat {
    n - n % SNAPSHOT_INTERVAL
  }

  // Serial, failure-free runs: a load replays exactly (log length mod 50) events past the snapshot.
  lemma LoadReplaysTheRemainder(t: Table, snaps: map<Uuid, State>, w: Uuid)
    requires ValidTable(t) && SoundSnapshots(t, snaps) && UpToDate(t, snaps)
    ensures |EventsAfter(t.Of(w), SnapshotVersion(snaps, w))| == |t.Of(w)| % 50
  {
    assert ValidLog(w, t.Of(w));
    LoadIsFullReplay(w, t.Of(w), if w in snaps then snaps[w] else ZERO);
  }

  function MaybeSnap(snaps: map<Uuid, State>, s: State, save: Fate): map<Uuid, State> {
    if s.version % SNAPSHOT_INTERVAL == 0 && save.Happens() then Upsert(snaps, s) else snaps
  }

  // Appending one event and then snapshotting on a multiple of the interval keeps snapshots sound whatever
  // becomes of the snapshot.
  lemma SnapshotAfterAppend(t: Table, snaps: map<Uuid, State>, t': Table, w: Uuid, save: Fate)
    requires SoundSnapshots(t, snaps) && ValidTable(t') && t'.Of(w) != []
    requires forall x :: t.Of(x) <= t'.Of(x)
    ensures SoundSnapshots(t', snaps) && SoundSnapshots(t', MaybeSnap(snaps, Replay(ZERO, t'.Of(w)), save))
  {
    StillSound(t, snaps, t');
    WholeLogSnapshot(t', snaps, w);
  }

  // If it is written, snapshots also stay up to date.
  lemma UpToDateAfterAppend(t: Table, snaps: map<Uuid, State>, t': Table, w: Uuid, save: Fate)
    requires SoundSnapshots(t', snaps) && ValidTable(t') && |t'.Of(w)| == |t.Of(w)| + 1
    requires forall x :: x != w ==> t'.Of(x) == t.Of(x)
    requires UpToDate(t, snaps) && save.Happens()
    ensures UpToDate(t', MaybeSnap(snaps, Replay(ZERO, t'.Of(w)), save))
  {
    WholeLogSnapshot(t', snaps, w);
    StillUpToDate(t, snaps, t', w, MaybeSnap(snaps, Replay(ZERO, t'.Of(w)), save));
  }

  // The first event of a wallet is far from a snapshot.
  lemma CreationKeepsSnapshots(t: Table, snaps: map<Uuid, State>, t': Table, w: Uuid)
    requires SoundSnapshots(t, snaps) && ValidTable(t') && t.Of(w) == [] && |t'.Of(w)| == 1
    requires forall x :: x != w ==> t'.Of(x) == t.Of(x)
    ensures SoundSnapshots(t', snaps) && (UpToDate(t, snaps) ==> UpToDate(t', snaps))
  {
    assert forall x :: t.Of(x) <= t'.Of(x);
    StillSound(t, snaps, t');
    VersionIsLength(t', w);
    if UpToDate(t, snaps) {
      UpToDateAfterAppend(t, snaps, t', w, Works);
    }
  }

  lemma StillUpToDate(t: Table, snaps: map<Uuid, State>, t': Table, w: Uuid, snaps': map<Uuid, State>)
    requires UpToDate(t, snaps) && |t'.Of(w)| == |t.Of(w)| + 1
    requires forall x :: x != w ==> t'.Of(x) == t.Of(x) && SnapshotVersion(snaps', x) == SnapshotVersion(snaps, x)
    requires SnapshotVersion(snaps', w)
          == if |t'.Of(w)| % SNAPSHOT_INTERVAL == 0 then |t'.Of(w)| else SnapshotVersion(snaps, w)
    ensures UpToDate(t', snaps')
  {
    NextBoundary(|t.Of(w)|);
    forall x
      ensures SnapshotVersion(snaps', x) == LastBoundary(|t'.Of(x)|)
    {
      assert SnapshotVersion(snaps, x) == LastBoundary(|t.Of(x)|);
    }
  }

  lemma NextBoundary(n: nat)
    ensures LastBoundary(n + 1) == if (n + 1) % SNAPSHOT_INTERVAL == 0 then n + 1 else LastBoundary(n)
  {
  }

  lemma WholeLogSnapshot(t: Table, snaps: map<Uuid, State>, w: Uuid)
    requires ValidTable(t) && SoundSnapshots(t, snaps) && t.Of(w) != []
    ensures var s := Replay(ZERO, t.Of(w));
            s.version == |t.Of(w)| && SoundSnapshots(t, Upsert(snaps, s)) && Upsert(snaps, s) == snaps[w := s]
  {
    var log := t.Of(w);
    assert ValidLog(w, log);
    LogFacts(w, log);
    assert log[..|log|] == log;
    UpsertKeepsSound(t, snaps, w, Replay(ZERO, log));
  }

  lemma VersionIsLength(t: Table, w: Uuid)
    requires ValidTable(t)
    ensures Replay(ZERO, t.Of(w)).version == |t.Of(w)| == MaxVersion(t.Of(w))
  {
    assert ValidLog(w, t.Of(w));
    LogFacts(w, t.Of(w));
    MaxVersionIsLength(w, t.Of(w));
  }

  // Everything a load needs to know about the events past the state it starts from.
  lemma LoadPlan(t: Table, snaps: map<Uuid, State>, w: Uuid, start: State, unread: bool)
    requires ValidTable(t) && SoundSnapshots(t, snaps)
    requires start == if !unread && w in snaps then snaps[w] else ZERO
    ensures var log, n := t.Of(w), start.version;
            && 0 <= n <= |log| && EventsAfter(log, n) == log[n..] && Replay(start, log[n..]) == Replay(ZERO, log)
            && (log[n..] == [] && n == 0 <==> log == [])
            && n == (if unread then 0 else SnapshotVersion(snaps, w))
            && (!unread && UpToDate(t, snaps) ==> |log[n..]| == |log| % 50)
  {
    var log := t.Of(w);
    assert ValidLog(w, log);
    assert start != ZERO ==> SoundSnapshot(w, log, start);
    LoadIsFullReplay(w, log, start);
    EventsAfterIsSuffix(log, start.version);
    assert UpToDate(t, snaps) ==> SnapshotVersion(snaps, w) == LastBoundary(|log|);
  }

  // Both tables and the error after appending changes against the version they were decided on.
  function PersistIn(t: Table, snaps: map<Uuid, State>, w: Uuid, decidedOn: int, after: State, changes: seq<Event>,
                     f: DbFaults): (Table, map<Uuid, State>, Option<Code>)
  {
    if f.begin then (t, snaps, Some(Internal))
    else if MaxVersion(t.Of(w)) != decidedOn then (t, snaps, Some(Conflict))
    else match t.InsertAll(changes)
      case Err(_) => (t, snaps, Some(Internal))
      case Ok(t') =>
        if !f.commit.Works? then (if f.commit.Happens() then t' else t, snaps, Some(Internal))
        else (t', MaybeSnap(snaps, after, f.saveSnapshot), SnapshotError(after, f.saveSnapshot))
  }

  // What another client committed since the load is never overwritten: the call answers Conflict.
  lemma PersistRefuses(t: Table, snaps: map<Uuid, State>, w: Uuid, decidedOn: int, after: State,
                       changes: seq<Event>, f: DbFaults)
    ensures var (t', snaps', err) := PersistIn(t, snaps, w, decidedOn, after, changes, f);
            && (!f.begin && MaxVersion(t.Of(w)) != decidedOn ==> t' == t && snaps' == snaps && err == Some(Conflict))
            && (err == Some(Conflict) ==> MaxVersion(t.Of(w)) != decidedOn)
  {
    NoConflict(t, changes);
  }

  lemma {:induction false} NoConflict(t: Table, changes: seq<Event>)
    ensures t.InsertAll(changes) != Err(Conflict)
    decreases |changes|
  {
    if changes != [] {
      NoConflict(t, changes[..|changes| - 1]);
    }
  }

  // Everything one command needs to know in advance about what it persists.
  lemma ExecutePlan(t: Table, snaps: map<Uuid, State>, w: Uuid, c: Command, eventId: Uuid, f: DbFaults)
    requires ValidTable(t) && SoundSnapshots(t, snaps)
    ensures Replay(ZERO, t.Of(w)).version == MaxVersion(t.Of(w))
    ensures t.Of(w) != [] && !f.loadEvents && Decide(Replay(ZERO, t.Of(w)), c).Ok? ==>
              Planned(t, snaps, w, c, eventId, f)
  {
    VersionIsLength(t, w);
    if t.Of(w) != [] && !f.loadEvents && Decide(Replay(ZERO, t.Of(w)), c).Ok? {
      var e := NextEvent(Replay(ZERO, t.Of(w)), eventId, Decide(Replay(ZERO, t.Of(w)), c).value);
      InsertAllOne(t, e);
      if t.Insert(e).Ok? {
        AppendPlan(t, snaps, w, c, eventId, f.saveSnapshot);
      }
      PersistsAsPromised(t, snaps, w, c, e, f);
    }
  }

  lemma PersistsAsPromised(t: Table, snaps: map<Uuid, State>, w: Uuid, c: Command, e: Event, f: DbFaults)
    requires t.Of(w) != [] && !f.loadEvents && Decide(Replay(ZERO, t.Of(w)), c) == Ok(e.payload)
    requires e == NextEvent(Replay(ZERO, t.Of(w)), e.id, e.payload) && t.InsertAll([e]) == t.Insert(e)
    requires t.Insert(e).Ok? ==> Replay(ZERO, t.Insert(e).value.Of(w)) == Apply(Replay(ZERO, t.Of(w)), e)
    requires MaxVersion(t.Of(w)) == Replay(ZERO, t.Of(w)).version
    ensures var after := Apply(Replay(ZERO, t.Of(w)), e);
            var (t', snaps', err) := PersistIn(t, snaps, w, Replay(ZERO, t.Of(w)).version, after, [e], f);
            && (t', err) == ExecuteWith(t, w, c, e.id, f)
            && (t' == t || Ok(t') == t.Insert(e)) && (err == None || f == HEALTHY ==> t' != t || t.Insert(e).Err?)
            && (snaps' == snaps || (Ok(t') == t.Insert(e) && snaps' == MaybeSnap(snaps, after, f.saveSnapshot)))
            && (f == HEALTHY ==> t.Insert(e).Err? || snaps' == MaybeSnap(snaps, after, f.saveSnapshot))
  {
  }

  lemma AppendPlan(t: Table, snaps: map<Uuid, State>, w: Uuid, c: Command, eventId: Uuid, save: Fate)
    requires ValidTable(t) && SoundSnapshots(t, snaps) && ExecuteIn(t, w, c, eventId).Ok?
    ensures var t' := ExecuteIn(t, w, c, eventId).value;
            var s := Replay(ZERO, t'.Of(w));
            && s == Apply(Replay(ZERO, t.Of(w)), NextEvent(Replay(ZERO, t.Of(w)), eventId,
                                                           Decide(Replay(ZERO, t.Of(w)), c).value))
            && |t'.Of(w)| == s.version && ValidTable(t')
            && SoundSnapshots(t', snaps) && SoundSnapshots(t', MaybeSnap(snaps, s, save))
            && (UpToDate(t, snaps) && save.Happens() ==> UpToDate(t', MaybeSnap(snaps, s, save)))
  {
    var t' := ExecuteIn(t, w, c, eventId).value;
    ExecuteAppendsOne(t, w, c, eventId);
    VersionIsLength(t', w);
    SnapshotAfterAppend(t, snaps, t', w, save);
    if UpToDate(t, snaps) && save.Happens() {
      UpToDateAfterAppend(t, snaps, t', w, save);
    }
  }

  // What is persisted is what the command promises, and it keeps the tables sound.
  ghost predicate Planned(t: Table, snaps: map<Uuid, State>, w: Uuid, c: Command, eventId: Uuid, f: DbFaults)
    requires Decide(Replay(ZERO, t.Of(w)), c).Ok?
  {
    var e := NextEvent(Replay(ZERO, t.Of(w)), eventId, Decide(Replay(ZERO, t.Of(w)), c).value);
    var after := Apply(Replay(ZERO, t.Of(w)), e);
    var (t', snaps', err) := PersistIn(t, snaps, w, Replay(ZERO, t.Of(w)).version, after, [e], f);
    && (t', err) == ExecuteWith(t, w, c, eventId, f)
    && (err == None ==> Replay(ZERO, t'.Of(w)) == after && |t'.Of(w)| == after.version)
    && ValidTable(t') && SoundSnapshots(t', snaps')
    && (UpToDate(t, snaps) && f == HEALTHY ==> UpToDate(t', snaps'))
  }

  datatype BalanceResult = BalanceResult(walletId: Uuid, balance: int, currency: string, version: int)
  datatype ChangeResult = ChangeResult(eventId: Uuid, newBalance: int, version: int)

  class WalletService {
    const events: EventStore
    const snapshots: SnapshotStore

    ghost predicate Valid()
      reads events, snapshots
    {
      ValidTable(events.table) && SoundSnapshots(events.table, snapshots.snaps)
    }

    ghost predicate Snapped()
      reads events, snapshots
    {
      UpToDate(events.table, snapshots.snaps)
    }

    constructor ()
      ensures Valid() && Snapped() && fresh(events) && fresh(snapshots) && events.table == Table(map[], {})
    {
      events := new EventStore();
      snapshots := new SnapshotStore();
    }

    method CreateWallet(userId: Uuid, currency: string, eventId: Uuid, walletId: Uuid, f: DbFaults)
      returns (r: Result<Uuid>)
      requires Valid()
      modifies events
      ensures Valid() && (old(Snapped()) ==> Snapped())
      ensures var (t, err) := CreateWith(old(events.table), walletId, userId, currency, eventId, f);
              events.table == t && r == if err.Some? then Err(err.value) else Ok(walletId)
    {
      CreateStartsLog(events.table, walletId, userId, currency, eventId);
      var created := Wallet.NewWallet(userId, currency, eventId, walletId);
      if created.Err? {
        return Err(created.code);
      }
      var wallet := created.value;
      InsertAllOne(events.table, wallet.changes[0]);
      var err := events.AppendEvents(wallet.id, wallet.changes, 0, f.begin, f.commit);
      if events.table != old(events.table) {
        CreationKeepsSnapshots(old(events.table), snapshots.snaps, events.table, walletId);
      }
      if err.Some? {
        return Err(err.value);
      }
      return Ok(wallet.id);
    }

    method GetBalance(walletId: Uuid, f: DbFaults) returns (r: Result<BalanceResult>)
      requires Valid()
      ensures r.Ok? <==> !f.loadEvents && events.table.Of(walletId) != []
      ensures r.Err? ==> r.code == if f.loadEvents then Internal else NotFound
      ensures r.Ok? ==> var log := events.table.Of(walletId);
                        r.value == BalanceResult(walletId, Replay(ZERO, log).balance, Replay(ZERO, log).currency, |log|)
    {
      assert ValidLog(walletId, events.table.Of(walletId));
      LogFacts(walletId, events.table.Of(walletId));
      var loaded, _ := Load(walletId, f);
      if loaded.Err? {
        return Err(loaded.code);
      }
      var wallet := loaded.value;
      return Ok(BalanceResult(wallet.id, wallet.balanceCents, wallet.currency, wallet.version));
    }

    method Deposit(walletId: Uuid, amountCents: int, description: string, eventId: Uuid, f: DbFaults)
      returns (r: Result<ChangeResult>)
      requires Valid()
      modifies events, snapshots
      ensures Valid() && (old(Snapped()) && f == HEALTHY ==> Snapped())
      ensures var log := old(events.table).Of(walletId);
              r.Ok? ==> r.value == ChangeResult(eventId, Replay(ZERO, log).balance + amountCents, |log| + 1)
      ensures Executed(old(events.table), walletId, Command.Deposit(amountCents, description), eventId, f, r)
      ensures !f.loadEvents && old(events.table).Of(walletId) != [] && amountCents <= 0 ==> r == Err(InvalidArgument)
    {
      CommandAnswers(events.table, walletId, Command.Deposit(amountCents, description), eventId, f);
      r := Execute(walletId, Command.Deposit(amountCents, description), eventId, f);
    }

    method Withdraw(walletId: Uuid, amountCents: int, description: string, eventId: Uuid, f: DbFaults)
      returns (r: Result<ChangeResult>)
      requires Valid()
      modifies events, snapshots
      ensures Valid() && (old(Snapped()) && f == HEALTHY ==> Snapped())
      ensures var log := old(events.table).Of(walletId);
              r.Ok? ==> r.value == ChangeResult(eventId, Replay(ZERO, log).balance - amountCents, |log| + 1)
      ensures Executed(old(events.table), walletId, Command.Withdraw(amountCents, description), eventId, f, r)
      ensures !f.loadEvents && old(events.table).Of(walletId) != [] && amountCents <= 0 ==> r == Err(InvalidArgument)
      ensures var log := old(events.table).Of(walletId);
              !f.loadEvents && log != [] && amountCents > 0 && amountCents > Replay(ZERO, log).Available() ==>
                r == Err(InsufficientFunds)
    {
      CommandAnswers(events.table, walletId, Command.Withdraw(amountCents, description), eventId, f);
      r := Execute(walletId, Command.Withdraw(amountCents, description), eventId, f);
    }

    method ReserveForTransaction(walletId: Uuid, amountCents: int, transactionId: Uuid, eventId: Uuid, f: DbFaults)
      returns (r: Result<ChangeResult>)
      requires Valid()
      modifies events, snapshots
      ensures Valid() && (old(Snapped()) && f == HEALTHY ==> Snapped())
      ensures var log := old(events.table).Of(walletId);
              r.Ok? ==> r.value == ChangeResult(eventId, Replay(ZERO, log).balance, |log| + 1)
      ensures Executed(old(events.table), walletId, Reserve(amountCents, transactionId), eventId, f, r)
      ensures var log := old(events.table).Of(walletId);
              !f.loadEvents && log != [] && amountCents > Replay(ZERO, log).Available() ==> r == Err(InsufficientFunds)
    {
      CommandAnswers(events.table, walletId, Reserve(amountCents, transactionId), eventId, f);
      r := Execute(walletId, Reserve(amountCents, transactionId), eventId, f);
    }

    // The transaction id is dropped: a saga credit is an ordinary deposit.
    method CreditForTransaction(walletId: Uuid, amountCents: int, transactionId: Uuid, eventId: Uuid, f: DbFaults)
      returns (r: Result<ChangeResult>)
      requires Valid()
      modifies events, snapshots
      ensures Valid() && (old(Snapped()) && f == HEALTHY ==> Snapped())
      ensures var log := old(events.table).Of(walletId);
              r.Ok? ==> r.value == ChangeResult(eventId, Replay(ZERO, log).balance + amountCents, |log| + 1)
      ensures Executed(old(events.table), walletId, Command.Deposit(amountCents, "saga credit"), eventId, f, r)
      ensures !f.loadEvents && old(events.table).Of(walletId) != [] && amountCents <= 0 ==> r == Err(InvalidArgument)
    {
      CommandAnswers(events.table, walletId, Command.Deposit(amountCents, "saga credit"), eventId, f);
      r := Execute(walletId, Command.Deposit(amountCents, "saga credit"), eventId, f);
    }

    method ReleaseReservation(walletId: Uuid, amountCents: int, transactionId: Uuid, eventId: Uuid, f: DbFaults)
      returns (r: Result<ChangeResult>)
      requires Valid()
      modifies events, snapshots
      ensures Valid() && (old(Snapped()) && f == HEALTHY ==> Snapped())
      ensures var log := old(events.table).Of(walletId);
              r.Ok? ==> r.value == ChangeResult(eventId, Replay(ZERO, log).balance, |log| + 1)
      ensures Executed(old(events.table), walletId, Release(amountCents, transactionId), eventId, f, r)
    {
      CommandAnswers(events.table, walletId, Release(amountCents, transactionId), eventId, f);
      r := Execute(walletId, Release(amountCents, transactionId), eventId, f);
    }

    // A successful reply reports the balance and version of the log after the call.
    ghost predicate Executed(was: Table, w: Uuid, c: Command, eventId: Uuid, f: DbFaults, r: Result<ChangeResult>)
      reads events
    {
      var (t, err) := ExecuteWith(was, w, c, eventId, f);
      && events.table == t
      && r == if err.Some? then Err(err.value)
              else Ok(ChangeResult(eventId, Replay(ZERO, t.Of(w)).balance, |t.Of(w)|))
    }

    // The shape all five commands share: load, run the command, append its changes, maybe snapshot.
    method Execute(walletId: Uuid, c: Command, eventId: Uuid, f: DbFaults) returns (r: Result<ChangeResult>)
      requires Valid()
      modifies events, snapshots
      ensures Valid() && (old(Snapped()) && f == HEALTHY ==> Snapped())
      ensures Executed(old(events.table), walletId, c, eventId, f, r)
    {
      var loaded, _ := Load(walletId, f);
      if loaded.Err? {
        return Err(loaded.code);
      }
      r := Run(walletId, loaded.value, c, eventId, f);
    }

    // The command on the loaded wallet.
    method Run(walletId: Uuid, wallet: Wallet, c: Command, eventId: Uuid, f: DbFaults)
      returns (r: Result<ChangeResult>)
      requires Valid() && wallet.Valid() && wallet.changes == [] && !f.loadEvents
      requires events.table.Of(walletId) != [] && wallet.Value() == Replay(ZERO, events.table.Of(walletId))
      modifies events, snapshots, wallet
      ensures Valid() && (old(Snapped()) && f == HEALTHY ==> Snapped())
      ensures Executed(old(events.table), walletId, c, eventId, f, r)
    {
      ExecutePlan(events.table, snapshots.snaps, walletId, c, eventId, f);
      var prevVersion := wallet.version;
      var refused := Issue(wallet, c, eventId);
      if refused.Some? {
        return Err(refused.value);
      }
      var err := Persist(walletId, wallet, prevVersion, f);
      if err.Some? {
        return Err(err.value);
      }
      return Ok(ChangeResult(wallet.changes[0].id, wallet.balanceCents, wallet.version));
    }

    // Append the changes against the version they were decided on, then maybe snapshot.
    method Persist(walletId: Uuid, wallet: Wallet, prevVersion: int, f: DbFaults) returns (err: Option<Code>)
      modifies events, snapshots
      ensures (events.table, snapshots.snaps, err)
           == PersistIn(old(events.table), old(snapshots.snaps), walletId, prevVersion, wallet.Value(),
                        wallet.changes, f)
    {
      err := events.AppendEvents(walletId, wallet.changes, prevVersion, f.begin, f.commit);
      if err == None {
        err := MaybeSnapshot(wallet, f.saveSnapshot);
      }
    }

    method Issue(wallet: Wallet, c: Command, eventId: Uuid) returns (err: Option<Code>)
      requires wallet.Valid()
      modifies wallet
      ensures wallet.Valid() && wallet.Follows(old(wallet.Value()), old(wallet.changes), c, eventId, err)
    {
      match c
      case Deposit(amount, description) => err := wallet.Deposit(amount, description, eventId);
      case Withdraw(amount, description) => err := wallet.Withdraw(amount, description, eventId);
      case Reserve(amount, transactionId) => err := wallet.Reserve(amount, transactionId, eventId);
      case Release(amount, transactionId) =>
        wallet.Release(amount, transactionId, eventId);
        err := None;
    }

    // A snapshot, if one can be read, plus the events past it; not found iff the wallet's log is empty.
    // replayed is what it replays: the events past the snapshot, or all of them.
    method Load(walletId: Uuid, f: DbFaults) returns (r: Result<Wallet>, ghost replayed: seq<Event>)
      requires Valid()
      ensures r.Ok? ==> var log := events.table.Of(walletId);
                        var n := if f.loadSnapshot then 0 else SnapshotVersion(snapshots.snaps, walletId);
                        0 <= n <= |log| && replayed == log[n..]
      ensures r.Ok? && !f.loadSnapshot && Snapped() ==> |replayed| == |events.table.Of(walletId)| % 50
      ensures r.Ok? <==> !f.loadEvents && events.table.Of(walletId) != []
      ensures r.Err? ==> r.code == if f.loadEvents then Internal else NotFound
      ensures r.Ok? ==> fresh(r.value) && r.value.Valid() && r.value.changes == []
                        && r.value.Value() == Replay(ZERO, events.table.Of(walletId))
    {
      replayed := [];
      var wallet := new Wallet(ZERO);
      var snapshotVersion := 0;
      var snapshot := snapshots.LoadSnapshot(walletId, f.loadSnapshot);
      if snapshot.Ok? {
        wallet := snapshot.value;
        snapshotVersion := wallet.version;
      }
      LoadPlan(events.table, snapshots.snaps, walletId, wallet.Value(), f.loadSnapshot);
      var suffix := events.LoadEvents(walletId, snapshotVersion, f.loadEvents);
      if suffix.Err? {
        return Err(suffix.code), [];
      }
      if |suffix.value| == 0 && snapshotVersion == 0 {
        return Err(NotFound), [];
      }
      wallet.Reconstitute(suffix.value);
      return Ok(wallet), suffix.value;
    }

    method MaybeSnapshot(wallet: Wallet, save: Fate) returns (err: Option<Code>)
      modifies snapshots
      ensures snapshots.snaps == MaybeSnap(old(snapshots.snaps), wallet.Value(), save)
      ensures err == SnapshotError(wallet.Value(), save)
      ensures wallet.version % 50 == 0 ==>
                err == save.Error() && (save.Happens() ==> wallet.id in snapshots.snaps
                                                           && snapshots.snaps[wallet.id].version == wallet.version)
      ensures wallet.version % 50 != 0 || save.Fails? ==> snapshots.snaps == old(snapshots.snaps)
      ensures wallet.version % 50 != 0 ==> err == None
    {
      if wallet.version % SNAPSHOT_INTERVAL == 0 {
        err := snapshots.SaveSnapshot(wallet, save);
      } else {
        err := None;
      }
    }
  }
}
