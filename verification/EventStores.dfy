// The wallet_events and wallet_snapshots tables and the two repositories over them.
module EventStores {
  import opened Base
  import opened Wallets

  // rows: the committed rows of each wallet, in commit order. ids: the primary keys in use.
  datatype Table = Table(rows: map<Uuid, seq<Event>>, ids: set<Uuid>) {
    function Of(w: Uuid): seq<Event> {
      if w in rows then rows[w] else []
    }

    // INSERT: the primary key and the (wallet_id, version) key are unique.
    function Insert(e: Event): Result<Table> {
      if e.id in ids || VersionTaken(Of(e.walletId), e.version) then Err(Internal)
      else Ok(Table(rows[e.walletId := Of(e.walletId) + [e]], ids + {e.id}))
    }

    function InsertAll(events: seq<Event>): Result<Table>
      decreases |events|
    {
      if events == [] then Ok(this) else
        match InsertAll(events[..|events| - 1])
        case Err(code) => Err(code)
        case Ok(t) => t.Insert(events[|events| - 1])
    }
  }

  predicate VersionTaken(log: seq<Event>, version: int) {
    exists i :: 0 <= i < |log| && log[i].version == version
  }

  // COALESCE(MAX(version), 0)
  function MaxVersion(log: seq<Event>): int {
    if |log| == 0 then 0
    else if |log| == 1 then log[0].version
    else
      var m := MaxVersion(log[..|log| - 1]);
      if log[|log| - 1].version > m then log[|log| - 1].version else m
  }

  lemma {:induction false} MaxVersionIsMax(log: seq<Event>)
    ensures log == [] ==> MaxVersion(log) == 0
    ensures log != [] ==> exists i :: 0 <= i < |log| && log[i].version == MaxVersion(log)
    ensures forall i :: 0 <= i < |log| ==> log[i].version <= MaxVersion(log)
    decreases |log|
  {
    if |log| == 1 {
      assert log[0].version == MaxVersion(log);
    } else if |log| > 1 {
      var front, last := log[..|log| - 1], log[|log| - 1];
      MaxVersionIsMax(front);
      var i :| 0 <= i < |front| && front[i].version == MaxVersion(front);
      assert log[if last.version > MaxVersion(front) then |log| - 1 else i].version == MaxVersion(log);
    }
  }

  // WHERE version > after ORDER BY version
  function EventsAfter(log: seq<Event>, after: int): seq<Event>
    decreases |log|
  {
    if log == [] then [] else
      var rest := EventsAfter(log[..|log| - 1], after);
      if log[|log| - 1].version > after then Place(rest, log[|log| - 1]) else rest
  }

  function Place(sorted: seq<Event>, e: Event): seq<Event> {
    if sorted == [] || sorted[|sorted| - 1].version <= e.version then sorted + [e]
    else Place(sorted[..|sorted| - 1], e) + [sorted[|sorted| - 1]]
  }

  // What LoadEvents promises for any rows: the rows past the version, each as often as it is stored, in
  // version order.
  lemma {:induction false} EventsAfterSelects(log: seq<Event>, after: int)
    ensures Sorted(EventsAfter(log, after))
    ensures forall e :: multiset(EventsAfter(log, after))[e] == if e.version > after then multiset(log)[e] else 0
    decreases |log|
  {
    if log != [] {
      var e := log[|log| - 1];
      EventsAfterSelects(log[..|log| - 1], after);
      assert log == log[..|log| - 1] + [e];
      PlaceSorts(EventsAfter(log[..|log| - 1], after), e);
      PlaceAdds(EventsAfter(log[..|log| - 1], after), e);
    }
  }

  ghost predicate Sorted(events: seq<Event>) {
    forall i, j :: 0 <= i < j < |events| ==> events[i].version <= events[j].version
  }

  lemma {:induction false} PlaceSorts(sorted: seq<Event>, e: Event)
    requires Sorted(sorted)
    ensures Sorted(Place(sorted, e))
    decreases |sorted|
  {
    if !(sorted == [] || sorted[|sorted| - 1].version <= e.version) {
      PlaceSorts(sorted[..|sorted| - 1], e);
      PlaceStaysBelow(sorted[..|sorted| - 1], e, sorted[|sorted| - 1].version);
    }
  }

  lemma {:induction false} PlaceStaysBelow(events: seq<Event>, e: Event, bound: int)
    requires e.version <= bound && forall i :: 0 <= i < |events| ==> events[i].version <= bound
    ensures forall i :: 0 <= i < |Place(events, e)| ==> Place(events, e)[i].version <= bound
    decreases |events|
  {
    if !(events == [] || events[|events| - 1].version <= e.version) {
      PlaceStaysBelow(events[..|events| - 1], e, bound);
    }
  }

  lemma {:induction false} PlaceAdds(events: seq<Event>, e: Event)
    ensures multiset(Place(events, e)) == multiset(events) + multiset{e}
    decreases |events|
  {
    if !(events == [] || events[|events| - 1].version <= e.version) {
      PlaceAdds(events[..|events| - 1], e);
      assert events == events[..|events| - 1] + [events[|events| - 1]];
    }
  }

  // ------------------------------------------------------------------ logs with versions 1..n

  lemma {:induction false} MaxVersionIsLength(w: Uuid, log: seq<Event>)
    requires ValidLog(w, log)
    ensures MaxVersion(log) == |log|
    decreases |log|
  {
    if |log| > 1 {
      ValidPrefix(w, log, |log| - 1);
      MaxVersionIsLength(w, log[..|log| - 1]);
    }
  }

  lemma {:induction false} EventsAfterIsSuffix(log: seq<Event>, after: nat)
    requires after <= |log|
    requires forall i :: 0 <= i < |log| ==> log[i].version == i + 1
    ensures EventsAfter(log, after) == log[after..]
    decreases |log|
  {
    if after == |log| {
      NothingAfter(log, after);
    } else {
      var n := |log| - 1;
      assert EventsAfter(log[..n], after) == log[..n][after..] by {
        EventsAfterIsSuffix(log[..n], after);
      }
      LastComesLast(log, after);
    }
  }

  lemma LastComesLast(log: seq<Event>, after: nat)
    requires after < |log| && log[|log| - 1].version == |log|
    requires |log| > 1 ==> log[|log| - 2].version == |log| - 1
    requires EventsAfter(log[..|log| - 1], after) == log[..|log| - 1][after..]
    ensures EventsAfter(log, after) == log[after..]
  {
    var n := |log| - 1;
    var rest := log[..n][after..];
    assert rest == [] || rest[|rest| - 1] == log[n - 1];
    assert EventsAfter(log, after) == Place(rest, log[n]) == rest + [log[n]];
    assert log[after..] == rest + [log[n]];
  }

  lemma {:induction false} NothingAfter(log: seq<Event>, after: int)
    requires forall i :: 0 <= i < |log| ==> log[i].version <= after
    ensures EventsAfter(log, after) == []
    decreases |log|
  {
    if log != [] {
      NothingAfter(log[..|log| - 1], after);
    }
  }

  // A well-formed table holds a valid log for every wallet.
  ghost predicate ValidTable(t: Table) {
    forall w :: ValidLog(w, t.Of(w))
  }

  // Inserting one event of a valid table succeeds or fails on the wallet's current length alone.
  lemma InsertIntoValid(t: Table, e: Event)
    requires ValidTable(t) && e.id !in t.ids && e.version >= 1
    ensures t.Insert(e).Ok? <==> e.version > |t.Of(e.walletId)|
  {
    var log := t.Of(e.walletId);
    assert ValidLog(e.walletId, log);
    if e.version <= |log| {
      assert log[e.version - 1].version == e.version;
    }
  }

  lemma InsertKeepsValid(t: Table, e: Event)
    requires ValidTable(t) && t.Insert(e).Ok?
    requires e.version == |t.Of(e.walletId)| + 1
    requires Validated(Replay(ZERO, t.Of(e.walletId)), e.payload)
    ensures ValidTable(t.Insert(e).value)
  {
    assert ValidLog(e.walletId, t.Of(e.walletId));
    ValidExtend(e.walletId, t.Of(e.walletId), e);
    forall w
      ensures ValidLog(w, t.Insert(e).value.Of(w))
    {
      assert ValidLog(w, t.Of(w));
    }
  }

  lemma InsertAllOne(t: Table, e: Event)
    ensures t.InsertAll([e]) == t.Insert(e)
  {
    assert [e][..0] == [];
    assert t.InsertAll([]) == Ok(t);
  }

  // The events of a transaction that belong to wallet w.
  function OfWallet(events: seq<Event>, w: Uuid): seq<Event>
    decreases |events|
  {
    if events == [] then [] else
      var before, e := OfWallet(events[..|events| - 1], w), events[|events| - 1];
      if e.walletId == w then before + [e] else before
  }

  // Every event meets a free id and a free version when its turn comes.
  ghost predicate AllFree(t: Table, events: seq<Event>) {
    forall k :: 0 <= k < |events| ==> FreeAt(t, events, k)
  }

  ghost predicate FreeAt(t: Table, events: seq<Event>, k: int)
    requires 0 <= k < |events|
  {
    && events[k].id !in t.ids && (forall j :: 0 <= j < k ==> events[j].id != events[k].id)
    && !VersionTaken(t.Of(events[k].walletId) + OfWallet(events[..k], events[k].walletId), events[k].version)
  }

  // A transaction of inserts goes through if and only if every event meets a free id and version, and then
  // each log has grown by exactly its events, in order.
  lemma {:induction false} InsertAllAppends(t: Table, events: seq<Event>)
    ensures t.InsertAll(events).Ok? <==> AllFree(t, events)
    ensures t.InsertAll(events).Ok? ==>
              && (forall w :: t.InsertAll(events).value.Of(w) == t.Of(w) + OfWallet(events, w))
              && forall id :: id in t.InsertAll(events).value.ids <==>
                   id in t.ids || IdAmong(events, id)
    decreases |events|
  {
    if events != [] {
      var n := |events| - 1;
      var front, e := events[..n], events[n];
      InsertAllAppends(t, front);
      FreePrefix(t, events);
      if t.InsertAll(front).Ok? {
        LastInsert(t, t.InsertAll(front).value, events);
      }
    }
  }

  lemma FreePrefix(t: Table, events: seq<Event>)
    requires events != []
    ensures AllFree(t, events) <==> AllFree(t, events[..|events| - 1]) && FreeAt(t, events, |events| - 1)
  {
    var front := events[..|events| - 1];
    forall k | 0 <= k < |front|
      ensures FreeAt(t, events, k) <==> FreeAt(t, front, k)
    {
      assert events[..k] == front[..k];
    }
  }

  ghost predicate IdAmong(events: seq<Event>, id: Uuid) {
    exists k :: 0 <= k < |events| && events[k].id == id
  }

  lemma IdAmongSnoc(events: seq<Event>, id: Uuid)
    requires events != []
    ensures IdAmong(events, id) <==> IdAmong(events[..|events| - 1], id) || id == events[|events| - 1].id
  {
    var front := events[..|events| - 1];
    if IdAmong(front, id) {
      var k :| 0 <= k < |front| && front[k].id == id;
      assert events[k].id == id;
    }
  }

  lemma LastInsert(t: Table, t1: Table, events: seq<Event>)
    requires events != []
    requires forall w :: t1.Of(w) == t.Of(w) + OfWallet(events[..|events| - 1], w)
    requires forall id :: id in t1.ids <==> id in t.ids || IdAmong(events[..|events| - 1], id)
    ensures var e := events[|events| - 1];
            && (t1.Insert(e).Ok? <==> FreeAt(t, events, |events| - 1))
            && (t1.Insert(e).Ok? ==>
                  && (forall w :: t1.Insert(e).value.Of(w) == t.Of(w) + OfWallet(events, w))
                  && forall id :: id in t1.Insert(e).value.ids <==> id in t.ids || IdAmong(events, id))
  {
    var e := events[|events| - 1];
    LastIsFree(t, t1, events);
    if t1.Insert(e).Ok? {
      forall w
        ensures t1.Insert(e).value.Of(w) == t.Of(w) + OfWallet(events, w)
      {
        InsertGrows(t1, e, w);
        assert t1.Of(w) == t.Of(w) + OfWallet(events[..|events| - 1], w);
      }
      forall id
        ensures id in t1.Insert(e).value.ids <==> id in t.ids || IdAmong(events, id)
      {
        IdAmongSnoc(events, id);
      }
    }
  }

  lemma LastIsFree(t: Table, t1: Table, events: seq<Event>)
    requires events != []
    requires forall w :: t1.Of(w) == t.Of(w) + OfWallet(events[..|events| - 1], w)
    requires forall id :: id in t1.ids <==> id in t.ids || IdAmong(events[..|events| - 1], id)
    ensures t1.Insert(events[|events| - 1]).Ok? <==> FreeAt(t, events, |events| - 1)
  {
    var n, e := |events| - 1, events[|events| - 1];
    assert t1.Of(e.walletId) == t.Of(e.walletId) + OfWallet(events[..n], e.walletId);
    if IdAmong(events[..n], e.id) {
      var k :| 0 <= k < n && events[..n][k].id == e.id;
      assert events[k].id == e.id;
    }
    if j :| 0 <= j < n && events[j].id == e.id {
      assert events[..n][j].id == e.id;
    }
  }

  lemma InsertGrows(t: Table, e: Event, w: Uuid)
    requires t.Insert(e).Ok?
    ensures t.Insert(e).value.Of(w) == if e.walletId == w then t.Of(w) + [e] else t.Of(w)
  {
  }

  // ------------------------------------------------------------------ repositories

  class EventStore {
    var table: Table

    constructor ()
      ensures table == Table(map[], {})
    {
      table := Table(map[], {});
    }

    // One database transaction: check the expected version, insert every event, commit or roll back.
    // Beginning it and reading the version may fail; commit is the fate of the inserts and the commit.
    method AppendEvents(walletId: Uuid, events: seq<Event>, expectedVersion: int, beginFails: bool, commit: Fate)
      returns (err: Option<Code>)
      modifies this
      ensures beginFails ==> err == Some(Internal) && table == old(table)
      ensures !beginFails && MaxVersion(old(table).Of(walletId)) != expectedVersion ==>
                err == Some(Conflict) && table == old(table)
      ensures !beginFails && MaxVersion(old(table).Of(walletId)) == expectedVersion ==>
                match old(table).InsertAll(events)
                case Ok(t) => err == commit.Error() && table == if commit.Happens() then t else old(table)
                case Err(_) => err == Some(Internal) && table == old(table)
    {
      if beginFails {
        return Some(Internal);
      }
      if MaxVersion(table.Of(walletId)) != expectedVersion {
        return Some(Conflict);
      }
      var tx := table;
      for i := 0 to |events|
        invariant table == old(table) && table.InsertAll(events[..i]) == Ok(tx)
      {
        assert events[..i + 1][..i] == events[..i];
        match tx.Insert(events[i])
        case Err(_) =>
          RollbackIsFinal(table, events, i + 1);
          return Some(Internal);
        case Ok(t) => tx := t;
      }
      assert events[..|events|] == events;
      if commit.Happens() {
        table := tx;
      }
      return commit.Error();
    }

    method LoadEvents(walletId: Uuid, afterVersion: int, fails: bool) returns (r: Result<seq<Event>>)
      ensures r == if fails then Err(Internal) else Ok(EventsAfter(table.Of(walletId), afterVersion))
    {
      if fails {
        return Err(Internal);
      }
      var rows := table.Of(walletId);
      var events := [];
      for i := 0 to |rows|
        invariant events == EventsAfter(rows[..i], afterVersion)
      {
        assert rows[..i + 1][..i] == rows[..i];
        if rows[i].version > afterVersion {
          events := Place(events, rows[i]);
        }
      }
      assert rows[..|rows|] == rows;
      return Ok(events);
    }
  }

  // Once an insert of the transaction has failed, no later insert can make it succeed.
  lemma {:induction false} RollbackIsFinal(t: Table, events: seq<Event>, n: nat)
    requires n <= |events| && t.InsertAll(events[..n]) == Err(Internal)
    ensures t.InsertAll(events) == Err(Internal)
    decreases |events|
  {
    if n == |events| {
      assert events[..n] == events;
    } else {
      var front := events[..|events| - 1];
      assert front[..n] == events[..n];
      RollbackIsFinal(t, front, n);
    }
  }

  // INSERT ... ON CONFLICT DO UPDATE: a second save keeps the stored currency and user_id.
  function Upsert(snaps: map<Uuid, State>, w: State): map<Uuid, State> {
    if w.id in snaps then
      snaps[w.id := snaps[w.id].(balance := w.balance, reserved := w.reserved, version := w.version)]
    else snaps[w.id := w]
  }

  class SnapshotStore {
    var snaps: map<Uuid, State>

    constructor ()
      ensures snaps == map[]
    {
      snaps := map[];
    }

    method SaveSnapshot(w: Wallet, fate: Fate) returns (err: Option<Code>)
      modifies this
      ensures err == fate.Error()
      ensures snaps == if fate.Happens() then Upsert(old(snaps), w.Value()) else old(snaps)
      ensures fate.Happens() ==>
                && snaps.Keys == old(snaps).Keys + {w.id}
                && (forall x :: x in old(snaps) && x != w.id ==> snaps[x] == old(snaps)[x])
                && snaps[w.id] == if w.id in old(snaps)
                                  then old(snaps)[w.id].(balance := w.balanceCents, reserved := w.reserved,
                                                         version := w.version)
                                  else State(w.id, w.userId, w.currency, w.balanceCents, w.reserved, w.version)
    {
      if fate.Happens() {
        if w.id in snaps {
          var row := snaps[w.id];
          snaps := snaps[w.id := row.(balance := w.balanceCents, reserved := w.reserved, version := w.version)];
        } else {
          snaps := snaps[w.id := State(w.id, w.userId, w.currency, w.balanceCents, w.reserved, w.version)];
        }
      }
      return fate.Error();
    }

    method LoadSnapshot(walletId: Uuid, fails: bool) returns (r: Result<Wallet>)
      ensures r.Ok? <==> !fails && walletId in snaps
      ensures r.Err? ==> r.code == if fails then Internal else NotFound
      ensures r.Ok? ==> fresh(r.value) && r.value.Valid() && r.value.changes == []
                        && r.value.Value() == snaps[walletId] == r.value.base
    {
      if fails {
        return Err(Internal);
      }
      if walletId !in snaps {
        return Err(NotFound);
      }
      var w := new Wallet(snaps[walletId]);
      return Ok(w);
    }
  }

  // ------------------------------------------------------------------ snapshot soundness

  // The snapshot is the replay of the log's first version events.
  ghost predicate SoundSnapshot(w: Uuid, log: seq<Event>, snap: State) {
    1 <= snap.version <= |log| && snap == Replay(ZERO, log[..snap.version])
  }

  ghost predicate SoundSnapshots(t: Table, snaps: map<Uuid, State>) {
    forall w :: w in snaps ==> SoundSnapshot(w, t.Of(w), snaps[w])
  }

  // Saving any state some prefix of the log replays to keeps the table of snapshots sound, older or
  // newer than the stored one, although a conflict updates only three of the columns.
  lemma UpsertKeepsSound(t: Table, snaps: map<Uuid, State>, w: Uuid, s: State)
    requires ValidTable(t) && SoundSnapshots(t, snaps) && SoundSnapshot(w, t.Of(w), s)
    ensures s.id == w && SoundSnapshots(t, Upsert(snaps, s)) && Upsert(snaps, s) == snaps[w := s]
  {
    var log := t.Of(w);
    assert ValidLog(w, log);
    ValidPrefix(w, log, s.version);
    LogFacts(w, log[..s.version]);
    assert log[..s.version][0] == log[0];
    if w in snaps {
      ValidPrefix(w, log, snaps[w].version);
      LogFacts(w, log[..snaps[w].version]);
      assert log[..snaps[w].version][0] == log[0];
    }
  }

  // Snapshots stay sound while logs grow.
  lemma StillSound(t: Table, snaps: map<Uuid, State>, t': Table)
    requires SoundSnapshots(t, snaps) && forall w :: t.Of(w) <= t'.Of(w)
    ensures SoundSnapshots(t', snaps)
  {
    forall w | w in snaps
      ensures SoundSnapshot(w, t'.Of(w), snaps[w])
    {
      assert SoundSnapshot(w, t.Of(w), snaps[w]) && t.Of(w) <= t'.Of(w);
      assert t'.Of(w)[..snaps[w].version] == t.Of(w)[..snaps[w].version];
    }
  }

  // A whole non-empty log gives a sound snapshot.
  lemma WholeLogIsSound(w: Uuid, log: seq<Event>)
    requires ValidLog(w, log) && log != []
    ensures SoundSnapshot(w, log, Replay(ZERO, log)) && Replay(ZERO, log).version == |log|
  {
    LogFacts(w, log);
    assert log[..|log|] == log;
  }

  // Loading from a sound snapshot, or from none, is a full replay of the log, and the test for a missing
  // wallet holds exactly when that log is empty.
  lemma LoadIsFullReplay(w: Uuid, log: seq<Event>, start: State)
    requires ValidLog(w, log)
    requires start == ZERO || SoundSnapshot(w, log, start)
    ensures var events := EventsAfter(log, start.version);
            && Replay(start, events) == Replay(ZERO, log)
            && |events| == |log| - start.version
            && (events == [] && start.version == 0 <==> log == [])
            && (log != [] ==> SoundSnapshot(w, log, Replay(ZERO, log)) && Replay(ZERO, log).version == |log|)
  {
    if start == ZERO {
      LoadFromScratch(log);
    } else {
      LoadFromSnapshot(w, log, start);
    }
    if log != [] {
      WholeLogIsSound(w, log);
    }
  }

  lemma LoadFromScratch(log: seq<Event>)
    requires forall i :: 0 <= i < |log| ==> log[i].version == i + 1
    ensures EventsAfter(log, 0) == log
  {
    EventsAfterIsSuffix(log, 0);
  }

  lemma LoadFromSnapshot(w: Uuid, log: seq<Event>, start: State)
    requires ValidLog(w, log) && SoundSnapshot(w, log, start)
    ensures var events := EventsAfter(log, start.version);
            Replay(start, events) == Replay(ZERO, log) && |events| == |log| - start.version
  {
    assert EventsAfter(log, start.version) == log[start.version..] by {
      EventsAfterIsSuffix(log, start.version);
    }
    ReplaySplit(ZERO, log, start.version);
  }

  lemma ReplaySplit(s: State, log: seq<Event>, n: nat)
    requires n <= |log|
    ensures Replay(Replay(s, log[..n]), log[n..]) == Replay(s, log)
  {
    assert log[..n] + log[n..] == log;
    ReplayConcat(s, log[..n], log[n..]);
  }
}
