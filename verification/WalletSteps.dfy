// WalletService run by arbitrarily many clients at once. Loading the snapshot, loading the events,
// reading the maximal version, committing and saving the snapshot are separate steps, and any step of any
// call may fail.
module WalletSteps {
  import opened Base
  import opened Wallets
  import opened EventStores

  datatype Op = Create(userId: Uuid, currency: string) | Read | Issue(command: Command)

  datatype Call = Call(walletId: Uuid, op: Op, eventId: Uuid)

  datatype Client =
    | Idle
    | Called(call: Call)
    | GotSnapshot(call: Call, start: State)
    | Decided(call: Call, before: State, event: Event)
    | Checked(call: Call, before: State, event: Event)
    | Committed(call: Call, after: State)
    | Done(call: Call, reply: Result<State>)

  datatype Sys = Sys(table: Table, snaps: map<Uuid, State>, clients: map<nat, Client>) {
    function Pc(c: nat): Client {
      if c in clients then clients[c] else Idle
    }

    function Log(w: Uuid): seq<Event> {
      table.Of(w)
    }
  }

  // ------------------------------------------------------------------ steps

  // LoadSnapshot: a missing row and a failed query both leave the empty wallet.
  ghost predicate LoadSnapshotStep(s: Sys, pc: Client, pc': Client) {
    && pc.Called? && !pc.call.op.Create?
    && (pc' == GotSnapshot(pc.call, ZERO)
        || (pc.call.walletId in s.snaps && pc' == GotSnapshot(pc.call, s.snaps[pc.call.walletId])))
  }

  // LoadEvents, then the purely local replay and command.
  function AfterLoad(s: Sys, call: Call, start: State): Client
    requires !call.op.Create?
  {
    var events := EventsAfter(s.Log(call.walletId), start.version);
    Respond(call, events == [] && start.version == 0, Replay(start, events))
  }

  function Respond(call: Call, missing: bool, wallet: State): Client
    requires !call.op.Create?
  {
    if missing then Done(call, Err(NotFound))
    else
      match call.op
      case Read => Done(call, Ok(wallet))
      case Issue(command) =>
        match Decide(wallet, command)
        case Err(code) => Done(call, Err(code))
        case Ok(p) => Decided(call, wallet, NextEvent(wallet, call.eventId, p))
  }

  function AfterNewWallet(call: Call): Client
    requires call.op.Create?
  {
    if call.op.currency == "" then Done(call, Err(InvalidArgument))
    else Decided(call, ZERO,
                 Event(call.eventId, call.walletId, WalletCreated(call.op.userId, call.op.currency), 1))
  }

  // SELECT MAX(version) inside the append transaction.
  function AfterMaxVersion(s: Sys, call: Call, before: State, event: Event): Client {
    if MaxVersion(s.Log(call.walletId)) != before.version then Done(call, Err(Conflict))
    else Checked(call, before, event)
  }

  // Steps that touch no table.
  ghost predicate LocalStep(s: Sys, pc: Client, pc': Client) {
    || (pc.Idle? && pc'.Called?)
    || LoadSnapshotStep(s, pc, pc')
    || (pc.GotSnapshot? && !pc.call.op.Create? && pc' == AfterLoad(s, pc.call, pc.start))
    || (pc.Called? && pc.call.op.Create? && pc' == AfterNewWallet(pc.call))
    || (pc.Decided? && pc' == AfterMaxVersion(s, pc.call, pc.before, pc.event))
    || (pc.Committed? && (pc.call.op.Create? || pc.after.version % SNAPSHOT_INTERVAL != 0)
        && pc' == Done(pc.call, Ok(pc.after)))
    || (!pc.Idle? && !pc.Done? && pc' == Done(pc.call, Err(Internal)))
    || (pc.Done? && pc' == Idle)
  }

  // The insert and commit: aborts if a key is taken by now, otherwise appends.
  ghost predicate CommitStep(s: Sys, pc: Client, s': Sys, pc': Client) {
    && pc.Checked? && s'.snaps == s.snaps
    && match s.table.InsertAll([pc.event])
       case Err(code) => s'.table == s.table && pc' == Done(pc.call, Err(code))
       case Ok(t) => s'.table == t && pc' == Committed(pc.call, Apply(pc.before, pc.event))
  }

  // The snapshot may be written although the call reports an error.
  ghost predicate SaveSnapshotStep(s: Sys, pc: Client, s': Sys, pc': Client) {
    && pc.Committed? && !pc.call.op.Create? && pc.after.version % SNAPSHOT_INTERVAL == 0
    && s'.table == s.table && s'.snaps == Upsert(s.snaps, pc.after)
    && pc' in {Done(pc.call, Ok(pc.after)), Done(pc.call, Err(Internal))}
  }

  ghost predicate ClientStep(s: Sys, c: nat, s': Sys) {
    && s'.clients == s.clients[c := s'.Pc(c)]
    && (|| (LocalStep(s, s.Pc(c), s'.Pc(c)) && s'.table == s.table && s'.snaps == s.snaps)
        || CommitStep(s, s.Pc(c), s', s'.Pc(c))
        || SaveSnapshotStep(s, s.Pc(c), s', s'.Pc(c)))
  }

  ghost predicate Next(s: Sys, s': Sys) {
    exists c :: ClientStep(s, c, s')
  }

  ghost predicate Init(s: Sys) {
    s == Sys(Table(map[], {}), map[], map[])
  }

  ghost predicate IsRun(run: seq<Sys>) {
    && run != [] && Init(run[0])
    && forall i :: 0 <= i < |run| - 1 ==> Next(run[i], run[i + 1])
  }

  // ------------------------------------------------------------------ the invariant

  // The event was validated on the replay of the first event.version - 1 events.
  ghost predicate Candidate(s: Sys, call: Call, before: State, event: Event) {
    var log := s.Log(call.walletId);
    && event.id == call.eventId && event.walletId == call.walletId && event.version == before.version + 1
    && 0 <= before.version <= |log| && before == Replay(ZERO, log[..before.version])
    && Validated(before, event.payload)
    && match call.op
       case Create(userId, currency) => event.payload == WalletCreated(userId, currency)
       case Read => false
       case Issue(command) => before.version >= 1 && Decide(before, command) == Ok(event.payload)
  }

  ghost predicate ClientOk(s: Sys, pc: Client) {
    match pc
    case Idle => true
    case Called(_) => true
    case GotSnapshot(call, start) =>
      !call.op.Create? && (start == ZERO || SoundSnapshot(call.walletId, s.Log(call.walletId), start))
    case Decided(call, before, event) => Candidate(s, call, before, event)
    case Checked(call, before, event) => Candidate(s, call, before, event)
    case Committed(call, after) => SoundSnapshot(call.walletId, s.Log(call.walletId), after)
    case Done(call, reply) => reply.Ok? ==> SoundSnapshot(call.walletId, s.Log(call.walletId), reply.value)
  }

  ghost predicate Inv(s: Sys) {
    && ValidTable(s.table)
    && SoundSnapshots(s.table, s.snaps)
    && forall c :: ClientOk(s, s.Pc(c))
  }

  // Logs only grow, and what a client knows about a prefix stays true.
  ghost predicate Grows(s: Sys, s': Sys) {
    forall w :: s.Log(w) <= s'.Log(w)
  }

  lemma StillOk(s: Sys, s': Sys, pc: Client)
    requires ClientOk(s, pc) && Grows(s, s')
    ensures ClientOk(s', pc)
  {
    if !pc.Idle? {
      var log, log' := s.Log(pc.call.walletId), s'.Log(pc.call.walletId);
      assert log <= log';
      forall n | 0 <= n <= |log|
        ensures log'[..n] == log[..n]
      {
      }
    }
  }

  // Whatever snapshot a client started from, what it loads is the full replay of the log at this moment,
  // and it reports not found exactly when that log is empty.
  lemma LoadSeesWholeLog(s: Sys, call: Call, start: State)
    requires ValidTable(s.table) && ClientOk(s, GotSnapshot(call, start))
    ensures var log := s.Log(call.walletId);
            && AfterLoad(s, call, start) == Respond(call, log == [], Replay(ZERO, log))
            && (AfterLoad(s, call, start) == Done(call, Err(NotFound)) <==> log == [])
            && (log != [] ==> SoundSnapshot(call.walletId, log, Replay(ZERO, log))
                              && Replay(ZERO, log).version == |log|)
  {
    LoadFromTable(s.table, call.walletId, start);
  }

  lemma LoadFromTable(t: Table, w: Uuid, start: State)
    requires ValidTable(t) && (start == ZERO || SoundSnapshot(w, t.Of(w), start))
    ensures var events := EventsAfter(t.Of(w), start.version);
            && Replay(start, events) == Replay(ZERO, t.Of(w))
            && (events == [] && start.version == 0 <==> t.Of(w) == [])
            && (t.Of(w) != [] ==> SoundSnapshot(w, t.Of(w), Replay(ZERO, t.Of(w)))
                                  && Replay(ZERO, t.Of(w)).version == |t.Of(w)|)
  {
    assert ValidLog(w, t.Of(w));
    LoadIsFullReplay(w, t.Of(w), start);
  }

  lemma LoadKeepsOk(s: Sys, call: Call, start: State)
    requires Inv(s) && ClientOk(s, GotSnapshot(call, start))
    ensures ClientOk(s, AfterLoad(s, call, start))
  {
    LoadSeesWholeLog(s, call, start);
    var log := s.Log(call.walletId);
    if log != [] && call.op.Issue? && Decide(Replay(ZERO, log), call.op.command).Ok? {
      assert ValidLog(call.walletId, log);
      LogFacts(call.walletId, log);
      assert log[..|log|] == log;
      assert CommandOf(Decide(Replay(ZERO, log), call.op.command).value) == call.op.command;
    }
  }

  // If the commit goes through, the log had not moved since the client loaded it.
  lemma CommitAppends(s: Sys, pc: Client, s': Sys)
    requires ValidTable(s.table) && pc.Checked? && ClientOk(s, pc)
    requires s.table.InsertAll([pc.event]) == Ok(s'.table)
    ensures var w, log := pc.call.walletId, s.Log(pc.call.walletId);
            && pc.before == Replay(ZERO, log) && s'.Log(w) == log + [pc.event]
            && (log != [] ==> pc.before.id == w)
            && s'.table.rows == s.table.rows[w := log + [pc.event]]
            && Apply(pc.before, pc.event) == Replay(ZERO, s'.Log(w))
            && ValidTable(s'.table)
            && SoundSnapshot(w, s'.Log(w), Replay(ZERO, s'.Log(w)))
            && Replay(ZERO, s'.Log(w)).version == |s'.Log(w)|
  {
    var w, log, e := pc.call.walletId, s.Log(pc.call.walletId), pc.event;
    InsertAllOne(s.table, e);
    assert e.version == |log| + 1 && pc.before == Replay(ZERO, log) by {
      InsertIntoValid(s.table, e);
      assert log[..|log|] == log;
    }
    assert ValidLog(w, s.table.Of(w));
    LogFacts(w, log);
    InsertKeepsValid(s.table, e);
    ReplaySnoc(ZERO, log, e);
    assert ValidLog(w, s'.table.Of(w));
    WholeLogIsSound(w, s'.Log(w));
  }

  lemma TableStepGrows(s: Sys, c: nat, s': Sys)
    requires Inv(s) && ClientStep(s, c, s')
    ensures Grows(s, s') && ValidTable(s'.table)
  {
    assert ClientOk(s, s.Pc(c));
    if s'.table != s.table {
      CommitAppends(s, s.Pc(c), s');
    }
  }

  lemma LoadStepOk(s: Sys, c: nat, s': Sys)
    requires Inv(s) && ClientStep(s, c, s') && s.Pc(c).GotSnapshot? && ClientOk(s, s.Pc(c))
    ensures ClientOk(s', s'.Pc(c))
  {
    var pc := s.Pc(c);
    LoadKeepsOk(s, pc.call, pc.start);
    StillOk(s, s', AfterLoad(s, pc.call, pc.start));
  }

  lemma ClientStepOk(s: Sys, c: nat, s': Sys)
    requires Inv(s) && ClientStep(s, c, s')
    ensures ClientOk(s', s'.Pc(c))
  {
    var pc, pc' := s.Pc(c), s'.Pc(c);
    assert ClientOk(s, pc);
    if pc.Checked? && pc'.Committed? {
      CommitAppends(s, pc, s');
    } else if pc.GotSnapshot? {
      LoadStepOk(s, c, s');
    } else if pc.Called? && pc'.Decided? {
      assert s.Log(pc.call.walletId)[..0] == [];
    }
  }

  lemma SnapshotsStaySound(s: Sys, c: nat, s': Sys)
    requires Inv(s) && ClientStep(s, c, s')
    ensures SoundSnapshots(s'.table, s'.snaps)
  {
    TableStepGrows(s, c, s');
    forall w
      ensures s.table.Of(w) <= s'.table.Of(w)
    {
      assert s.Log(w) <= s'.Log(w);
    }
    StillSound(s.table, s.snaps, s'.table);
    if s'.snaps != s.snaps {
      assert ClientOk(s, s.Pc(c));
      UpsertKeepsSound(s.table, s.snaps, s.Pc(c).call.walletId, s.Pc(c).after);
    }
  }

  lemma StepKeepsInv(s: Sys, s': Sys)
    requires Inv(s) && Next(s, s')
    ensures Inv(s') && Grows(s, s')
  {
    var c :| ClientStep(s, c, s');
    TableStepGrows(s, c, s');
    SnapshotsStaySound(s, c, s');
    forall d
      ensures ClientOk(s', s'.Pc(d))
    {
      if d == c {
        ClientStepOk(s, c, s');
      } else {
        assert s'.Pc(d) == s.Pc(d) && ClientOk(s, s.Pc(d));
        StillOk(s, s', s.Pc(d));
      }
    }
  }

  // ------------------------------------------------------------------ theorems over whole runs

  // No lost update: in every reachable state every wallet's versions are exactly 1..n, the event at version
  // v was validated on precisely the v - 1 events before it, and every stored snapshot is sound.
  lemma {:induction false} NoLostUpdate(run: seq<Sys>, i: nat)
    requires IsRun(run) && i < |run|
    ensures Inv(run[i])
  {
    if i > 0 {
      NoLostUpdate(run, i - 1);
      StepKeepsInv(run[i - 1], run[i]);
    }
  }

  lemma {:induction false} LogsGrow(run: seq<Sys>, i: nat, j: nat, w: Uuid)
    requires IsRun(run) && i <= j < |run|
    ensures run[i].Log(w) <= run[j].Log(w)
    decreases j
  {
    if i < j {
      LogsGrow(run, i, j - 1, w);
      StepGrows(run, j, w);
    }
  }

  lemma StepGrows(run: seq<Sys>, j: nat, w: Uuid)
    requires IsRun(run) && 0 < j < |run|
    ensures run[j - 1].Log(w) <= run[j].Log(w)
  {
    NoLostUpdate(run, j - 1);
    StepKeepsInv(run[j - 1], run[j]);
  }

  // After the step from s to s' the reply is the replay of the entire log; for a command or a creation,
  // this step is the one that appended the call's own event, decided on exactly the log before it.
  ghost predicate TakesEffect(s: Sys, s': Sys, call: Call, reply: State) {
    var before, log := s.Log(call.walletId), s'.Log(call.walletId);
    && log != [] && reply == Replay(ZERO, log) && reply.version == |log|
    && match call.op
       case Read => before == log
       case Create(userId, currency) =>
         before == [] && log == [Event(call.eventId, call.walletId, WalletCreated(userId, currency), 1)]
       case Issue(command) =>
         && before != [] && Decide(Replay(ZERO, before), command).Ok?
         && log == before + [NextEvent(Replay(ZERO, before), call.eventId,
                                       Decide(Replay(ZERO, before), command).value)]
  }

  ghost predicate InOneCall(run: seq<Sys>, c: nat, call: Call, i: nat, j: nat) {
    && i <= j < |run| && run[i].Pc(c) == Called(call)
    && forall k :: i <= k <= j ==> !run[k].Pc(c).Idle?
  }

  function Outcome(pc: Client): Option<State> {
    match pc
    case Committed(_, after) => Some(after)
    case Done(_, Ok(reply)) => Some(reply)
    case _ => None
  }

  // Linearizability: a successful reply is the state of the entire log at one moment between the call and
  // its return, and the call's own event, if any, was appended at that very moment.
  lemma {:induction false} Linearizable(run: seq<Sys>, c: nat, call: Call, i: nat, j: nat)
    requires IsRun(run) && InOneCall(run, c, call, i, j)
    ensures run[j].Pc(c).call == call
    ensures Outcome(run[j].Pc(c)).Some? ==>
              exists k :: i < k <= j && TakesEffect(run[k - 1], run[k], call, Outcome(run[j].Pc(c)).value)
    decreases j
  {
    if i < j {
      assert InOneCall(run, c, call, i, j - 1);
      Linearizable(run, c, call, i, j - 1);
      OneStep(run, c, j);
    }
  }

  lemma OneStep(run: seq<Sys>, c: nat, j: nat)
    requires IsRun(run) && 0 < j < |run| && !run[j - 1].Pc(c).Idle? && !run[j].Pc(c).Idle?
    ensures run[j].Pc(c).call == run[j - 1].Pc(c).call
    ensures var was, now := Outcome(run[j - 1].Pc(c)), Outcome(run[j].Pc(c));
            now.Some? && now != was ==> TakesEffect(run[j - 1], run[j], run[j].Pc(c).call, now.value)
  {
    var s, s' := run[j - 1], run[j];
    assert Next(s, s');
    var d :| ClientStep(s, d, s');
    assert ValidTable(s.table) && ClientOk(s, s.Pc(c)) by { NoLostUpdate(run, j - 1); }
    if d == c {
      TakesEffectNow(s, c, s');
    }
  }

  lemma TakesEffectNow(s: Sys, c: nat, s': Sys)
    requires ValidTable(s.table) && ClientOk(s, s.Pc(c)) && ClientStep(s, c, s')
    requires !s.Pc(c).Idle? && !s'.Pc(c).Idle?
    ensures s'.Pc(c).call == s.Pc(c).call
    ensures var was, now := Outcome(s.Pc(c)), Outcome(s'.Pc(c));
            now.Some? && now != was ==> TakesEffect(s, s', s.Pc(c).call, now.value)
  {
    var pc, pc' := s.Pc(c), s'.Pc(c);
    if pc.Checked? && pc'.Committed? {
      CommitTakesEffect(s, pc, s');
    } else if pc.GotSnapshot? && Outcome(pc').Some? {
      ReadTakesEffect(s, pc, s', pc');
    }
  }

  lemma CommitTakesEffect(s: Sys, pc: Client, s': Sys)
    requires ValidTable(s.table) && pc.Checked? && ClientOk(s, pc)
    requires s.table.InsertAll([pc.event]) == Ok(s'.table)
    ensures TakesEffect(s, s', pc.call, Apply(pc.before, pc.event))
  {
    CommitAppends(s, pc, s');
    var log := s.Log(pc.call.walletId);
    assert ValidLog(pc.call.walletId, log);
    LogFacts(pc.call.walletId, log);
  }

  lemma ReadTakesEffect(s: Sys, pc: Client, s': Sys, pc': Client)
    requires ValidTable(s.table) && pc.GotSnapshot? && ClientOk(s, pc)
    requires pc' == AfterLoad(s, pc.call, pc.start) && Outcome(pc').Some? && s'.table == s.table
    ensures TakesEffect(s, s', pc.call, Outcome(pc').value)
  {
    LoadSeesWholeLog(s, pc.call, pc.start);
  }

  // Every reply stays true of the log for good: it is the replay of the first version events.
  lemma RepliesStayTrue(run: seq<Sys>, c: nat, i: nat, j: nat, w: Uuid)
    requires IsRun(run) && i <= j < |run|
    requires run[i].Pc(c).Done? && run[i].Pc(c).reply.Ok? && run[i].Pc(c).call.walletId == w
    ensures SoundSnapshot(w, run[j].Log(w), run[i].Pc(c).reply.value)
  {
    NoLostUpdate(run, i);
    assert ClientOk(run[i], run[i].Pc(c));
    LogsGrow(run, i, j, w);
    var n := run[i].Pc(c).reply.value.version;
    assert run[j].Log(w)[..n] == run[i].Log(w)[..n];
  }
}
