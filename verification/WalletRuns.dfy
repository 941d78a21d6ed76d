// The sequential wallet service is one of the runs of the step model: a call with any failures, while no other
// client moves, is a sequence of the client's steps.
module WalletRuns {
  import opened Base
  import opened Wallets
  import opened EventStores
  import opened WalletServices
  import opened WalletSteps

  ghost predicate IsContinuation(run: seq<Sys>, s: Sys) {
    run != [] && run[0] == s && forall i :: 0 <= i < |run| - 1 ==> Next(run[i], run[i + 1])
  }

  // The state a run ends in.
  function Last(run: seq<Sys>): Sys
    requires run != []
  {
    run[|run| - 1]
  }

  function Moved(s: Sys, c: nat, pc: Client): Sys {
    s.(clients := s.clients[c := pc])
  }

  lemma Prepend(s: Sys, c: nat, s': Sys, rest: seq<Sys>) returns (run: seq<Sys>)
    requires ClientStep(s, c, s') && IsContinuation(rest, s')
    ensures IsContinuation(run, s) && Last(run) == Last(rest)
  {
    run := [s] + rest;
    forall i | 0 <= i < |run| - 1
      ensures Next(run[i], run[i + 1])
    {
      if i > 0 {
        assert Next(rest[i - 1], rest[i]);
      }
    }
  }

  lemma OneStepRun(s: Sys, c: nat, s': Sys) returns (run: seq<Sys>)
    requires ClientStep(s, c, s')
    ensures IsContinuation(run, s) && Last(run) == s'
  {
    run := Prepend(s, c, s', [s']);
  }

  // The reply of a command: the error, or the state of the log.
  function ReplyOf(t: Table, w: Uuid, err: Option<Code>): Result<State> {
    if err.Some? then Err(err.value) else Ok(Replay(ZERO, t.Of(w)))
  }

  function SnapsAfter(snaps: map<Uuid, State>, f: DbFaults, s: State, appended: bool): map<Uuid, State> {
    if appended && f.commit.Works? then MaybeSnap(snaps, s, f.saveSnapshot) else snaps
  }

  // A command with any failures.
  lemma ExecuteIsARun(s: Sys, c: nat, call: Call, f: DbFaults) returns (run: seq<Sys>)
    requires WalletSteps.Inv(s) && s.Pc(c) == Called(call) && call.op.Issue?
    ensures IsContinuation(run, s)
    ensures var (t, err) := ExecuteWith(s.table, call.walletId, call.op.command, call.eventId, f);
            && Last(run).table == t && Last(run).Pc(c) == Done(call, ReplyOf(t, call.walletId, err))
            && Last(run).snaps == SnapsAfter(s.snaps, f, Replay(ZERO, t.Of(call.walletId)), t != s.table)
  {
    var loaded := Moved(s, c, GotSnapshot(call, StartOf(s, call, f)));
    assert LoadSnapshotStep(s, s.Pc(c), loaded.Pc(c));
    var rest := FromSnapshot(loaded, c, call, StartOf(s, call, f), f);
    run := Prepend(s, c, loaded, rest);
  }

  function StartOf(s: Sys, call: Call, f: DbFaults): State {
    if f.loadSnapshot || call.walletId !in s.snaps then ZERO else s.snaps[call.walletId]
  }

  // What is left of the call once the snapshot has been looked up.
  lemma FromSnapshot(s: Sys, c: nat, call: Call, start: State, f: DbFaults) returns (run: seq<Sys>)
    requires ValidTable(s.table) && ClientOk(s, GotSnapshot(call, start))
    requires s.Pc(c) == GotSnapshot(call, start) && call.op.Issue?
    ensures IsContinuation(run, s)
    ensures var (t, err) := ExecuteWith(s.table, call.walletId, call.op.command, call.eventId, f);
            && Last(run).table == t && Last(run).Pc(c) == Done(call, ReplyOf(t, call.walletId, err))
            && Last(run).snaps == SnapsAfter(s.snaps, f, Replay(ZERO, t.Of(call.walletId)), t != s.table)
  {
    if f.loadEvents {
      run := Fails(s, c);
    } else {
      var decided := Moved(s, c, AfterLoad(s, call, start));
      LoadSeesWholeLog(s, call, start);
      assert LocalStep(s, s.Pc(c), decided.Pc(c));
      var before := Replay(ZERO, s.Log(call.walletId));
      if s.Log(call.walletId) == [] || Decide(before, call.op.command).Err? {
        run := OneStepRun(s, c, decided);
      } else {
        var event := NextEvent(before, call.eventId, Decide(before, call.op.command).value);
        var rest := FromDecision(decided, c, call, before, event, f);
        run := Prepend(s, c, decided, rest);
      }
    }
  }

  // Any step of a call may fail.
  lemma Fails(s: Sys, c: nat) returns (run: seq<Sys>)
    requires !s.Pc(c).Idle? && !s.Pc(c).Done?
    ensures IsContinuation(run, s)
    ensures Last(run) == Moved(s, c, Done(s.Pc(c).call, Err(Internal)))
  {
    var failed := Moved(s, c, Done(s.Pc(c).call, Err(Internal)));
    assert LocalStep(s, s.Pc(c), failed.Pc(c));
    run := OneStepRun(s, c, failed);
  }

  lemma FromDecision(s: Sys, c: nat, call: Call, before: State, event: Event, f: DbFaults) returns (run: seq<Sys>)
    requires ValidTable(s.table) && call.op.Issue? && s.Pc(c) == Decided(call, before, event) && !f.loadEvents
    requires s.Log(call.walletId) != [] && before == Replay(ZERO, s.Log(call.walletId))
    requires Decide(before, call.op.command) == Ok(event.payload)
    requires event == NextEvent(before, call.eventId, event.payload)
    ensures IsContinuation(run, s)
    ensures var (t, err) := ExecuteWith(s.table, call.walletId, call.op.command, call.eventId, f);
            && Last(run).table == t && Last(run).Pc(c) == Done(call, ReplyOf(t, call.walletId, err))
            && Last(run).snaps == SnapsAfter(s.snaps, f, Replay(ZERO, t.Of(call.walletId)), t != s.table)
  {
    assert ExecuteIn(s.table, call.walletId, call.op.command, call.eventId) == s.table.Insert(event);
    InsertAllOne(s.table, event);
    if f.begin {
      run := Fails(s, c);
    } else {
      var checked := Moved(s, c, Checked(call, before, event));
      VersionIsLength(s.table, call.walletId);
      assert LocalStep(s, s.Pc(c), checked.Pc(c));
      var rest := FromCheck(checked, c, call, before, event, f);
      run := Prepend(s, c, checked, rest);
    }
  }

  lemma FromCheck(s: Sys, c: nat, call: Call, before: State, event: Event, f: DbFaults) returns (run: seq<Sys>)
    requires ValidTable(s.table) && call.op.Issue? && s.Pc(c) == Checked(call, before, event)
    requires !f.loadEvents && !f.begin && before == Replay(ZERO, s.Log(call.walletId))
    requires ExecuteIn(s.table, call.walletId, call.op.command, call.eventId) == s.table.Insert(event)
    requires s.table.InsertAll([event]) == s.table.Insert(event)
    requires s.Log(call.walletId) != [] && Decide(before, call.op.command) == Ok(event.payload)
    requires event == NextEvent(before, call.eventId, event.payload)
    ensures IsContinuation(run, s)
    ensures var (t, err) := ExecuteWith(s.table, call.walletId, call.op.command, call.eventId, f);
            && Last(run).table == t && Last(run).Pc(c) == Done(call, ReplyOf(t, call.walletId, err))
            && Last(run).snaps == SnapsAfter(s.snaps, f, Replay(ZERO, t.Of(call.walletId)), t != s.table)
  {
    match s.table.Insert(event) {
      case Err(code) =>
        var refused := Moved(s, c, Done(call, Err(code)));
        assert CommitStep(s, s.Pc(c), refused, refused.Pc(c));
        run := OneStepRun(s, c, refused);
      case Ok(t) =>
        assert t != s.table by { ExecutedDiffers(s.table, event, t); }
        if f.commit.Fails? {
          run := Fails(s, c);
        } else {
          ExecuteAppendsOne(s.table, call.walletId, call.op.command, call.eventId);
          var after := Apply(before, event);
          var committed := Moved(s, c, Committed(call, after)).(table := t);
          assert CommitStep(s, s.Pc(c), committed, committed.Pc(c));
          var rest := FromCommit(committed, c, call, after, f);
          run := Prepend(s, c, committed, rest);
        }
    }
  }

  lemma ExecutedDiffers(t: Table, e: Event, t': Table)
    requires t.Insert(e) == Ok(t')
    ensures t' != t
  {
    assert e.id in t'.ids && e.id !in t.ids;
  }

  // After the commit: an error reported at once, or the snapshot.
  lemma FromCommit(s: Sys, c: nat, call: Call, after: State, f: DbFaults) returns (run: seq<Sys>)
    requires s.Pc(c) == Committed(call, after) && !call.op.Create?
    ensures IsContinuation(run, s) && Last(run).table == s.table
    ensures var err := if f.commit.Works? then SnapshotError(after, f.saveSnapshot) else Some(Internal);
            Last(run).Pc(c) == Done(call, if err.Some? then Err(err.value) else Ok(after))
    ensures Last(run).snaps == SnapsAfter(s.snaps, f, after, true)
  {
    if !f.commit.Works? || (after.version % SNAPSHOT_INTERVAL == 0 && f.saveSnapshot.Fails?) {
      run := Fails(s, c);
    } else if after.version % SNAPSHOT_INTERVAL != 0 {
      var done := Moved(s, c, Done(call, Ok(after)));
      assert LocalStep(s, s.Pc(c), done.Pc(c));
      run := OneStepRun(s, c, done);
    } else {
      var reply := if f.saveSnapshot.Works? then Ok(after) else Err(Internal);
      var saved := Moved(s, c, Done(call, reply)).(snaps := Upsert(s.snaps, after));
      assert SaveSnapshotStep(s, s.Pc(c), saved, saved.Pc(c));
      run := OneStepRun(s, c, saved);
    }
  }

  // A creation with any failures.
  lemma CreateIsARun(s: Sys, c: nat, call: Call, f: DbFaults) returns (run: seq<Sys>)
    requires ValidTable(s.table) && s.Pc(c) == Called(call) && call.op.Create?
    ensures IsContinuation(run, s) && Last(run).snaps == s.snaps
    ensures var (t, err) := CreateWith(s.table, call.walletId, call.op.userId, call.op.currency, call.eventId, f);
            Last(run).table == t && Last(run).Pc(c) == Done(call, ReplyOf(t, call.walletId, err))
  {
    var next := Moved(s, c, AfterNewWallet(call));
    assert LocalStep(s, s.Pc(c), next.Pc(c));
    if call.op.currency == "" {
      run := OneStepRun(s, c, next);
    } else {
      var rest := FromCreation(next, c, call, f);
      run := Prepend(s, c, next, rest);
    }
  }

  lemma FromCreation(s: Sys, c: nat, call: Call, f: DbFaults) returns (run: seq<Sys>)
    requires ValidTable(s.table) && call.op.Create? && call.op.currency != "" && s.Pc(c) == AfterNewWallet(call)
    ensures IsContinuation(run, s) && Last(run).snaps == s.snaps
    ensures var (t, err) := CreateWith(s.table, call.walletId, call.op.userId, call.op.currency, call.eventId, f);
            Last(run).table == t && Last(run).Pc(c) == Done(call, ReplyOf(t, call.walletId, err))
  {
    var event := Event(call.eventId, call.walletId, WalletCreated(call.op.userId, call.op.currency), 1);
    if f.begin {
      run := Fails(s, c);
    } else {
      var checked := Moved(s, c, AfterMaxVersion(s, call, ZERO, event));
      assert LocalStep(s, s.Pc(c), checked.Pc(c));
      if MaxVersion(s.Log(call.walletId)) != 0 {
        run := OneStepRun(s, c, checked);
      } else {
        var rest := CommitCreation(checked, c, call, event, f);
        run := Prepend(s, c, checked, rest);
      }
    }
  }

  lemma CommitCreation(s: Sys, c: nat, call: Call, event: Event, f: DbFaults) returns (run: seq<Sys>)
    requires ValidTable(s.table) && call.op.Create? && call.op.currency != "" && !f.begin
    requires s.Pc(c) == Checked(call, ZERO, event) && MaxVersion(s.Log(call.walletId)) == 0
    requires event == Event(call.eventId, call.walletId, WalletCreated(call.op.userId, call.op.currency), 1)
    ensures IsContinuation(run, s) && Last(run).snaps == s.snaps
    ensures var (t, err) := CreateWith(s.table, call.walletId, call.op.userId, call.op.currency, call.eventId, f);
            Last(run).table == t && Last(run).Pc(c) == Done(call, ReplyOf(t, call.walletId, err))
  {
    InsertAllOne(s.table, event);
    CreateStartsLog(s.table, call.walletId, call.op.userId, call.op.currency, call.eventId);
    match s.table.Insert(event) {
      case Err(code) =>
        var refused := Moved(s, c, Done(call, Err(code)));
        assert CommitStep(s, s.Pc(c), refused, refused.Pc(c));
        run := OneStepRun(s, c, refused);
      case Ok(t) =>
        if f.commit.Fails? {
          run := Fails(s, c);
        } else {
          var after := Apply(ZERO, event);
          var committed := Moved(s, c, Committed(call, after)).(table := t);
          assert CommitStep(s, s.Pc(c), committed, committed.Pc(c));
          var done := Moved(committed, c, Done(call, if f.commit.Works? then Ok(after) else Err(Internal)));
          assert LocalStep(committed, committed.Pc(c), done.Pc(c));
          var rest := OneStepRun(committed, c, done);
          run := Prepend(s, c, committed, rest);
        }
    }
  }

  // A balance query with any failures.
  lemma ReadIsARun(s: Sys, c: nat, call: Call, f: DbFaults) returns (run: seq<Sys>)
    requires WalletSteps.Inv(s) && s.Pc(c) == Called(call) && call.op.Read?
    ensures IsContinuation(run, s) && Last(run).table == s.table && Last(run).snaps == s.snaps
    ensures Last(run).Pc(c) == Done(call, if f.loadEvents then Err(Internal)
                                          else if s.Log(call.walletId) == [] then Err(NotFound)
                                          else Ok(Replay(ZERO, s.Log(call.walletId))))
  {
    var start := StartOf(s, call, f);
    var loaded := Moved(s, c, GotSnapshot(call, start));
    assert LoadSnapshotStep(s, s.Pc(c), loaded.Pc(c));
    var rest: seq<Sys>;
    if f.loadEvents {
      rest := Fails(loaded, c);
    } else {
      var read := Moved(loaded, c, AfterLoad(loaded, call, start));
      LoadSeesWholeLog(loaded, call, start);
      assert LocalStep(loaded, loaded.Pc(c), read.Pc(c));
      rest := OneStepRun(loaded, c, read);
    }
    run := Prepend(s, c, loaded, rest);
  }
}
