// Any number of outbox workers over one table, each with its own batch, publish failures, ambiguous retries
// and failed marks, while new rows are being saved.
module OutboxSteps {
  import opened Base
  import opened Messages
  import opened Outbox
  import opened Streams

  // Sending: batch[next] is being published, sent says a copy may already be on the topic. Marking: it was
  // acknowledged and its row is about to be marked.
  datatype Worker<+P> =
    | Idle
    | Sending(batch: seq<Message<P>>, next: nat, sent: bool)
    | Marking(batch: seq<Message<P>>, next: nat)

  datatype Sys<+P> = Sys(rows: seq<Row<P>>, topic: seq<Message<P>>, workers: map<nat, Worker<P>>) {
    function Pc(w: nat): Worker<P> {
      if w in workers then workers[w] else Idle
    }
  }

  // What the worker still has to deal with.
  function Left<P>(pc: Worker<P>): seq<Message<P>> {
    if pc.Idle? || pc.next >= |pc.batch| then [] else pc.batch[pc.next..]
  }

  // ------------------------------------------------------------------ steps

  ghost predicate FetchStep<P>(s: Sys<P>, pc: Worker<P>, s': Sys<P>, pc': Worker<P>) {
    pc.Idle? && pc' == Sending(Unpublished(s.rows, BATCH_SIZE), 0, false) && s'.rows == s.rows && s'.topic == s.topic
  }

  // Any number of copies may reach the topic before an acknowledgement does.
  ghost predicate PublishStep<P>(s: Sys<P>, pc: Worker<P>, s': Sys<P>, pc': Worker<P>) {
    && pc.Sending? && pc.next < |pc.batch| && pc' == pc.(sent := true)
    && s'.rows == s.rows && s'.topic == s.topic + [pc.batch[pc.next]]
  }

  ghost predicate AckStep<P>(s: Sys<P>, pc: Worker<P>, s': Sys<P>, pc': Worker<P>) {
    && pc.Sending? && pc.sent && pc.next < |pc.batch| && pc' == Marking(pc.batch, pc.next)
    && s'.rows == s.rows && s'.topic == s.topic
  }

  // The mark may fail; the worker carries on with the next event either way.
  ghost predicate MarkStep<P>(s: Sys<P>, pc: Worker<P>, s': Sys<P>, pc': Worker<P>) {
    && pc.Marking? && pc.next < |pc.batch| && pc' == Sending(pc.batch, pc.next + 1, false)
    && (s'.rows == s.rows || s'.rows == Mark(s.rows, pc.batch[pc.next].id)) && s'.topic == s.topic
  }

  // The end of the batch, a publish given up, or a crash.
  ghost predicate StopStep<P>(s: Sys<P>, s': Sys<P>, pc': Worker<P>) {
    pc' == Idle && s'.rows == s.rows && s'.topic == s.topic
  }

  ghost predicate WorkerStep<P>(s: Sys<P>, w: nat, s': Sys<P>) {
    var pc, pc' := s.Pc(w), s'.Pc(w);
    && s'.workers == s.workers[w := pc']
    && (|| FetchStep(s, pc, s', pc') || PublishStep(s, pc, s', pc') || AckStep(s, pc, s', pc')
        || MarkStep(s, pc, s', pc') || StopStep(s, s', pc'))
  }

  ghost predicate SaveStep<P>(s: Sys<P>, m: Message<P>, s': Sys<P>) {
    && (forall i :: 0 <= i < |s.rows| ==> s.rows[i].msg.createdAt != m.createdAt && s.rows[i].msg.id != m.id)
    && s' == s.(rows := Insert(s.rows, m))
  }

  // Some row that is published already or is in a worker's hands was created later than m.
  ghost predicate Overtaken<P>(s: Sys<P>, m: Message<P>) {
    || (exists p :: p in s.topic && p.createdAt > m.createdAt)
    || (exists w :: OvertakenBy(s.Pc(w), m))
  }

  ghost predicate OvertakenBy<P>(pc: Worker<P>, m: Message<P>) {
    exists p :: p in Left(pc) && p.createdAt > m.createdAt
  }

  // Rows become visible in created_at order, as far as any worker has looked.
  ghost predicate Next<P(!new)>(s: Sys<P>, s': Sys<P>) {
    || (exists w :: WorkerStep(s, w, s'))
    || (exists m :: SaveStep(s, m, s') && !Overtaken(s, m))
  }

  ghost predicate IsContinuation<P(!new)>(run: seq<Sys<P>>, s: Sys<P>) {
    run != [] && run[0] == s && forall i :: 0 <= i < |run| - 1 ==> Next(run[i], run[i + 1])
  }

  ghost predicate IsRun<P(!new)>(run: seq<Sys<P>>) {
    IsContinuation(run, Sys([], [], map[]))
  }

  // ------------------------------------------------------------------ the invariant

  // The topic with repeats removed is a prefix of the rows in created_at order.
  ghost predicate InOrder<P>(s: Sys<P>) {
    FirstOccurrences(s.topic) <= Msgs(s.rows)
  }

  // Every row older than one the worker still has is published or also still with this worker.
  ghost predicate NoGaps<P>(s: Sys<P>, left: seq<Message<P>>) {
    && (forall m :: m in left ==> m in Msgs(s.rows))
    && (forall i, j :: 0 <= i < j < |left| ==> left[i].createdAt < left[j].createdAt)
    && (forall m, p :: m in Msgs(s.rows) && p in left && m.createdAt < p.createdAt ==> m in s.topic || m in left)
  }

  ghost predicate WorkerOk<P>(s: Sys<P>, pc: Worker<P>) {
    && NoGaps(s, Left(pc))
    && (pc.Marking? || (pc.Sending? && pc.sent) ==> pc.next < |pc.batch| && pc.batch[pc.next] in s.topic)
  }

  ghost predicate Inv<P>(s: Sys<P>) {
    && Ordered(s.rows) && InOrder(s)
    && (forall i :: 0 <= i < |s.rows| && s.rows[i].published ==> s.rows[i].msg in s.topic)
    && forall w :: WorkerOk(s, s.Pc(w))
  }

  // Publishing the oldest row not yet published extends the prefix by one.
  lemma PublishExtends<P>(s: Sys<P>, m: Message<P>)
    requires Ordered(s.rows) && InOrder(s) && m in Msgs(s.rows)
    requires forall p :: p in Msgs(s.rows) && p.createdAt < m.createdAt ==> p in s.topic
    ensures FirstOccurrences(s.topic + [m]) <= Msgs(s.rows)
  {
    var seen := FirstOccurrences(s.topic);
    FirstSnoc(s.topic, m);
    FirstSameElements(s.topic, m);
    if m !in seen {
      var i :| 0 <= i < |s.rows| && Msgs(s.rows)[i] == m;
      if i > 0 {
        FirstSameElements(s.topic, Msgs(s.rows)[i - 1]);
      }
      IsNext(s.rows, seen, i);
    }
  }

  // A row outside the prefix whose predecessor is in it is the next one.
  lemma IsNext<P>(rows: seq<Row<P>>, seen: seq<Message<P>>, i: nat)
    requires Ordered(rows) && seen <= Msgs(rows) && i < |rows| && Msgs(rows)[i] !in seen
    requires i > 0 ==> Msgs(rows)[i - 1] in seen
    ensures seen + [Msgs(rows)[i]] <= Msgs(rows)
  {
    var ms := Msgs(rows);
    forall k | 0 <= k < |seen|
      ensures ms[k] != ms[i]
    {
      assert seen[k] in seen;
    }
    if i > 0 {
      InPrefix(rows, |seen|, i - 1);
    }
    assert i == |seen|;
  }

  lemma InPrefix<P>(rows: seq<Row<P>>, n: nat, q: nat)
    requires Ordered(rows) && n <= |rows| && q < |rows| && Msgs(rows)[q] in Msgs(rows)[..n]
    ensures q < n
  {
    var k :| 0 <= k < n && Msgs(rows)[..n][k] == Msgs(rows)[q];
    assert rows[k].msg == rows[q].msg;
  }

  lemma StillNoGaps<P>(s: Sys<P>, s': Sys<P>, left: seq<Message<P>>)
    requires NoGaps(s, left) && Msgs(s'.rows) == Msgs(s.rows) && forall m :: m in s.topic ==> m in s'.topic
    ensures NoGaps(s', left)
  {
  }

  lemma MarkKeepsMsgs<P>(rows: seq<Row<P>>, id: Uuid)
    ensures Msgs(Mark(rows, id)) == Msgs(rows)
  {
  }

  // The first message a worker has left is older than the others, so everything older is published.
  lemma HeadIsNext<P>(s: Sys<P>, left: seq<Message<P>>)
    requires left != [] && NoGaps(s, left)
    ensures forall p :: p in Msgs(s.rows) && p.createdAt < left[0].createdAt ==> p in s.topic
  {
    forall p | p in left
      ensures left[0].createdAt <= p.createdAt
    {
      var j :| 0 <= j < |left| && left[j] == p;
    }
  }

  lemma TailHasNoGaps<P>(s: Sys<P>, left: seq<Message<P>>)
    requires left != [] && NoGaps(s, left) && left[0] in s.topic
    ensures NoGaps(s, left[1..])
  {
    assert left == [left[0]] + left[1..];
  }

  lemma FetchHasNoGaps<P>(s: Sys<P>)
    requires Inv(s)
    ensures NoGaps(s, Unpublished(s.rows, BATCH_SIZE))
  {
    var batch := Unpublished(s.rows, BATCH_SIZE);
    FetchIsGood(s.rows, BATCH_SIZE);
    forall m | m in batch
      ensures m in Msgs(s.rows)
    {
      var i :| 0 <= i < |s.rows| && s.rows[i] == Row(m, false);
      assert Msgs(s.rows)[i] == m;
    }
    forall m, p | m in Msgs(s.rows) && p in batch && m.createdAt < p.createdAt
      ensures m in s.topic || m in batch
    {
      var i :| 0 <= i < |s.rows| && Msgs(s.rows)[i] == m;
      assert s.rows[i] in s.rows;
    }
  }

  // ------------------------------------------------------------------ preservation

  lemma WorkerStepParts<P>(s: Sys<P>, w: nat, s': Sys<P>)
    requires Inv(s) && WorkerStep(s, w, s')
    ensures Msgs(s'.rows) == Msgs(s.rows) && Ordered(s'.rows) && InOrder(s')
    ensures forall m :: m in s.topic ==> m in s'.topic
    ensures forall i :: 0 <= i < |s'.rows| && s'.rows[i].published ==> s'.rows[i].msg in s'.topic
  {
    var pc, pc' := s.Pc(w), s'.Pc(w);
    assert WorkerOk(s, pc);
    if PublishStep(s, pc, s', pc') {
      assert Left(pc)[0] == pc.batch[pc.next];
      HeadIsNext(s, Left(pc));
      PublishExtends(s, pc.batch[pc.next]);
    } else if MarkStep(s, pc, s', pc') && s'.rows != s.rows {
      MarkKeepsMsgs(s.rows, pc.batch[pc.next].id);
      MarkKeepsOrder(s.rows, pc.batch[pc.next].id);
      MarkedWasPublished(s, pc.batch[pc.next]);
    }
  }

  lemma MarkedWasPublished<P>(s: Sys<P>, m: Message<P>)
    requires Ordered(s.rows) && m in Msgs(s.rows) && m in s.topic
    requires forall i :: 0 <= i < |s.rows| && s.rows[i].published ==> s.rows[i].msg in s.topic
    ensures var rows := Mark(s.rows, m.id);
            forall i :: 0 <= i < |rows| && rows[i].published ==> rows[i].msg in s.topic
  {
    var k :| 0 <= k < |s.rows| && Msgs(s.rows)[k] == m;
    forall i | 0 <= i < |s.rows| && s.rows[i].msg.id == m.id
      ensures i == k
    {
    }
  }

  lemma StepperOk<P>(s: Sys<P>, w: nat, s': Sys<P>)
    requires Inv(s) && WorkerStep(s, w, s')
    ensures WorkerOk(s', s'.Pc(w))
  {
    var pc, pc' := s.Pc(w), s'.Pc(w);
    assert WorkerOk(s, pc);
    WorkerStepParts(s, w, s');
    if FetchStep(s, pc, s', pc') {
      FetchHasNoGaps(s);
      assert pc'.batch[0..] == pc'.batch;
    } else if MarkStep(s, pc, s', pc') {
      assert Left(pc)[0] == pc.batch[pc.next] && Left(pc') == Left(pc)[1..];
      TailHasNoGaps(s, Left(pc));
      StillNoGaps(s, s', Left(pc'));
    } else if !StopStep(s, s', pc') {
      assert Left(pc') == Left(pc);
      StillNoGaps(s, s', Left(pc));
    }
  }

  lemma WorkerStepKeepsInv<P>(s: Sys<P>, w: nat, s': Sys<P>)
    requires Inv(s) && WorkerStep(s, w, s')
    ensures Inv(s')
  {
    WorkerStepParts(s, w, s');
    forall v
      ensures WorkerOk(s', s'.Pc(v))
    {
      if v == w {
        StepperOk(s, w, s');
      } else {
        assert s'.Pc(v) == s.Pc(v) && WorkerOk(s, s.Pc(v));
        StillNoGaps(s, s', Left(s.Pc(v)));
      }
    }
  }

  lemma InsertedMsgs<P>(rows: seq<Row<P>>, m: Message<P>)
    ensures forall p :: p in Msgs(Insert(rows, m)) <==> p in Msgs(rows) || p == m
    ensures forall r :: r in Insert(rows, m) <==> r in rows || r == Row(m, false)
  {
    InsertAdds(rows, m);
    forall r
      ensures r in Insert(rows, m) <==> r in rows || r == Row(m, false)
    {
      assert r in Insert(rows, m) <==> r in multiset(Insert(rows, m));
    }
    forall p
      ensures p in Msgs(Insert(rows, m)) <==> p in Msgs(rows) || p == m
    {
      InMsgs(Insert(rows, m), p);
      InMsgs(rows, p);
    }
  }

  lemma InMsgs<P>(rows: seq<Row<P>>, p: Message<P>)
    ensures p in Msgs(rows) <==> Row(p, false) in rows || Row(p, true) in rows
  {
    if p in Msgs(rows) {
      var i :| 0 <= i < |rows| && Msgs(rows)[i] == p;
      assert rows[i] == Row(p, rows[i].published);
    }
    if Row(p, false) in rows {
      var i :| 0 <= i < |rows| && rows[i] == Row(p, false);
      assert Msgs(rows)[i] == p;
    }
    if Row(p, true) in rows {
      var i :| 0 <= i < |rows| && rows[i] == Row(p, true);
      assert Msgs(rows)[i] == p;
    }
  }

  lemma SaveStepKeepsInv<P>(s: Sys<P>, m: Message<P>, s': Sys<P>)
    requires Inv(s) && SaveStep(s, m, s') && !Overtaken(s, m)
    ensures Inv(s')
  {
    InsertKeepsOrder(s.rows, m);
    InsertedMsgs(s.rows, m);
    SavePreservesOrder(s, m);
    forall i | 0 <= i < |s'.rows| && s'.rows[i].published
      ensures s'.rows[i].msg in s'.topic
    {
      assert s'.rows[i] in s'.rows;
      assert s'.rows[i] in s.rows;
    }
    forall w
      ensures WorkerOk(s', s'.Pc(w))
    {
      assert s'.Pc(w) == s.Pc(w) && WorkerOk(s, s.Pc(w));
      SaveKeepsNoGaps(s, m, s', w);
    }
  }

  lemma SaveKeepsNoGaps<P>(s: Sys<P>, m: Message<P>, s': Sys<P>, w: nat)
    requires NoGaps(s, Left(s.Pc(w))) && !Overtaken(s, m) && s'.topic == s.topic
    requires forall p :: p in Msgs(s'.rows) <==> p in Msgs(s.rows) || p == m
    ensures NoGaps(s', Left(s.Pc(w)))
  {
    assert !OvertakenBy(s.Pc(w), m);
  }

  lemma SavePreservesOrder<P>(s: Sys<P>, m: Message<P>)
    requires InOrder(s) && forall p :: p in s.topic ==> p.createdAt <= m.createdAt
    requires forall i :: 0 <= i < |s.rows| ==> s.rows[i].msg.createdAt != m.createdAt
    ensures InOrder(s.(rows := Insert(s.rows, m)))
  {
    var n := |FirstOccurrences(s.topic)|;
    forall i | 0 <= i < n
      ensures s.rows[i].msg.createdAt < m.createdAt
    {
      assert FirstOccurrences(s.topic)[i] == Msgs(s.rows)[i];
      FirstSameElements(s.topic, Msgs(s.rows)[i]);
    }
    InsertKeepsPrefix(s.rows, m, n);
    forall i | 0 <= i < n
      ensures Msgs(Insert(s.rows, m))[i] == Msgs(s.rows)[i]
    {
      assert Insert(s.rows, m)[..n][i] == s.rows[..n][i];
    }
  }

  lemma StepKeepsInv<P(!new)>(s: Sys<P>, s': Sys<P>)
    requires Inv(s) && Next(s, s')
    ensures Inv(s')
  {
    if w :| WorkerStep(s, w, s') {
      WorkerStepKeepsInv(s, w, s');
    } else {
      var m :| SaveStep(s, m, s') && !Overtaken(s, m);
      SaveStepKeepsInv(s, m, s');
    }
  }

  // ------------------------------------------------------------------ theorems over whole runs

  lemma {:induction false} StaysSafe<P(!new)>(run: seq<Sys<P>>, s: Sys<P>, i: nat)
    requires Inv(s) && IsContinuation(run, s) && i < |run|
    ensures Inv(run[i])
  {
    if i > 0 {
      StaysSafe(run, s, i - 1);
      StepKeepsInv(run[i - 1], run[i]);
    }
  }

  lemma StartIsSafe<P>()
    ensures Inv<P>(Sys([], [], map[]))
  {
    var start: Sys<P> := Sys([], [], map[]);
    forall w
      ensures WorkerOk(start, start.Pc(w))
    {
      assert Left(start.Pc(w)) == [];
    }
  }

  // Despite failures, ambiguous retries, failed marks and several workers, the topic with repeats removed is
  // in every reachable state a prefix of the outbox rows in created_at order, and every marked row is on it.
  lemma OutboxOrder<P(!new)>(run: seq<Sys<P>>, i: nat)
    requires IsRun(run) && i < |run|
    ensures Ordered(run[i].rows) && FirstOccurrences(run[i].topic) <= Msgs(run[i].rows)
    ensures forall k :: 0 <= k < |run[i].rows| && run[i].rows[k].published ==> run[i].rows[k].msg in run[i].topic
  {
    StartIsSafe<P>();
    StaysSafe(run, Sys([], [], map[]), i);
  }

  // The order survives one more saved row in every continuation, if and only if no later row was published
  // or fetched before it. The condition is about the moment of the save alone.
  lemma OrderSurvivesExactly<P(!new)>(s: Sys<P>, m: Message<P>, s': Sys<P>)
    requires Inv(s) && SaveStep(s, m, s')
    ensures !Overtaken(s, m) <==> forall run :: IsContinuation(run, s') ==> InOrder(run[|run| - 1])
  {
    if !Overtaken(s, m) {
      SaveStepKeepsInv(s, m, s');
      forall run | IsContinuation(run, s')
        ensures InOrder(run[|run| - 1])
      {
        StaysSafe(run, s', |run| - 1);
      }
    } else {
      SavedFacts(s, m, s');
      var run := BrokenRun(s', m);
      assert IsContinuation(run, s') && !InOrder(run[|run| - 1]);
    }
  }

  // It does break: a row saved, fetched and published before an older one becomes visible.
  lemma OvertakingHappens<P(!new)>(m: Message<P>, later: Message<P>) returns (run: seq<Sys<P>>, late: Sys<P>)
    requires m.createdAt < later.createdAt && m.id != later.id
    ensures IsRun(run) && Overtaken(run[|run| - 1], m) && SaveStep(run[|run| - 1], m, late)
    ensures exists rest :: IsContinuation(rest, late) && !InOrder(rest[|rest| - 1])
  {
    run := FirstFetch(later);
    var fetched := run[|run| - 1];
    assert later in Left(fetched.Pc(0));
    assert OvertakenBy(fetched.Pc(0), m);
    late := fetched.(rows := Insert(fetched.rows, m));
    StaysReachable(run);
    OrderSurvivesExactly(fetched, m, late);
  }

  // One row is saved and fetched.
  lemma FirstFetch<P(!new)>(m: Message<P>) returns (run: seq<Sys<P>>)
    ensures IsRun(run)
    ensures var last := run[|run| - 1];
            last.rows == [Row(m, false)] && last.topic == [] && Left(last.Pc(0)) == [m]
  {
    var start: Sys<P> := Sys([], [], map[]);
    var saved: Sys<P> := Sys([Row(m, false)], [], map[]);
    var fetched := saved.(workers := map[0 := Sending([m], 0, false)]);
    assert Unpublished(saved.rows, BATCH_SIZE) == [m] by {
      assert saved.rows[1..] == [];
    }
    assert SaveStep(start, m, saved) && !Overtaken(start, m) by {
      assert forall w :: Left(start.Pc(w)) == [];
    }
    assert WorkerStep(saved, 0, fetched);
    run := [start, saved, fetched];
  }

  lemma StaysReachable<P(!new)>(run: seq<Sys<P>>)
    requires IsRun(run)
    ensures Inv(run[|run| - 1])
  {
    StartIsSafe<P>();
    StaysSafe(run, Sys([], [], map[]), |run| - 1);
  }

  // The later row is published already, or its worker carries on and publishes it.
  lemma BrokenRun<P(!new)>(s: Sys<P>, m: Message<P>) returns (run: seq<Sys<P>>)
    requires Ordered(s.rows) && m in Msgs(s.rows) && Nowhere(s, m) && Overtaken(s, m)
    requires forall w :: AckedIsPublished(s, s.Pc(w))
    ensures IsContinuation(run, s) && !InOrder(run[|run| - 1])
  {
    if p :| p in s.topic && p.createdAt > m.createdAt {
      run := [s];
      OutOfOrder(s, m, p);
    } else {
      var w :| OvertakenBy(s.Pc(w), m);
      var p :| p in Left(s.Pc(w)) && p.createdAt > m.createdAt;
      var j :| 0 <= j < |Left(s.Pc(w))| && Left(s.Pc(w))[j] == p;
      assert AckedIsPublished(s, s.Pc(w));
      run := Publishes(s, w, j, m);
      OutOfOrder(run[|run| - 1], m, p);
    }
  }

  ghost predicate Nowhere<P>(s: Sys<P>, m: Message<P>) {
    m !in s.topic && forall w :: m !in Left(s.Pc(w))
  }

  ghost predicate AckedIsPublished<P>(s: Sys<P>, pc: Worker<P>) {
    pc.Marking? && Left(pc) != [] ==> Left(pc)[0] in s.topic
  }

  // A row that was just saved is not on the topic and in nobody's hands.
  lemma SavedFacts<P>(s: Sys<P>, m: Message<P>, s': Sys<P>)
    requires Inv(s) && SaveStep(s, m, s')
    ensures Ordered(s'.rows) && m in Msgs(s'.rows) && Nowhere(s', m)
    ensures forall w :: AckedIsPublished(s', s'.Pc(w))
    ensures Overtaken(s', m) == Overtaken(s, m)
  {
    InsertKeepsOrder(s.rows, m);
    InsertedMsgs(s.rows, m);
    assert m !in Msgs(s.rows);
    FirstSameElements(s.topic, m);
    forall w
      ensures m !in Left(s'.Pc(w)) && AckedIsPublished(s', s'.Pc(w)) && s'.Pc(w) == s.Pc(w)
    {
      assert WorkerOk(s, s.Pc(w));
    }
  }

  lemma OlderIsPublished<P>(s: Sys<P>, m: Message<P>, p: Message<P>)
    requires Ordered(s.rows) && InOrder(s) && m in Msgs(s.rows) && p in s.topic && p.createdAt > m.createdAt
    ensures m in s.topic
  {
    var seen, ms := FirstOccurrences(s.topic), Msgs(s.rows);
    FirstSameElements(s.topic, p);
    FirstSameElements(s.topic, m);
    var i :| 0 <= i < |seen| && seen[i] == p;
    var k :| 0 <= k < |ms| && ms[k] == m;
    assert ms[i] == p;
    assert k < i;
    assert seen[k] == m;
  }

  lemma OutOfOrder<P>(s: Sys<P>, m: Message<P>, p: Message<P>)
    requires Ordered(s.rows) && m in Msgs(s.rows) && m !in s.topic
    requires p in s.topic && p.createdAt > m.createdAt
    ensures !InOrder(s)
  {
    if InOrder(s) {
      OlderIsPublished(s, m, p);
    }
  }

  // The worker carries on, without further failures, until it has published the j-th event it has left.
  lemma {:induction false} Publishes<P(!new)>(s: Sys<P>, w: nat, j: nat, m: Message<P>) returns (run: seq<Sys<P>>)
    requires j < |Left(s.Pc(w))| && m !in s.topic && m !in Left(s.Pc(w))
    requires s.Pc(w).Marking? ==> Left(s.Pc(w))[0] in s.topic
    ensures IsContinuation(run, s) && run[|run| - 1].rows == s.rows
    ensures Left(s.Pc(w))[j] in run[|run| - 1].topic && m !in run[|run| - 1].topic
    decreases j, if s.Pc(w).Marking? then 0 else 1
  {
    var pc := s.Pc(w);
    var left := Left(pc);
    assert left[0] == pc.batch[pc.next];
    var sent := s.(topic := s.topic + [left[0]],
                   workers := s.workers[w := Sending(pc.batch, pc.next, true)]);
    var ready := s.(workers := s.workers[w := Sending(pc.batch, pc.next + 1, false)]);
    if pc.Marking? {
      if j == 0 {
        run := [s];
      } else {
        assert WorkerStep(s, w, ready);
        assert Left(ready.Pc(w)) == left[1..];
        var rest := Publishes(ready, w, j - 1, m);
        run := [s] + rest;
      }
    } else {
      assert WorkerStep(s, w, sent);
      if j == 0 {
        run := [s, sent];
      } else {
        var acked := sent.(workers := sent.workers[w := Marking(pc.batch, pc.next)]);
        assert WorkerStep(sent, w, acked);
        assert Left(acked.Pc(w)) == left;
        var rest := Publishes(acked, w, j, m);
        run := [s, sent] + rest;
      }
    }
  }

  // ------------------------------------------------------------------ the code's flush is such a run

  lemma JoinRuns<P(!new)>(first: seq<Sys<P>>, second: seq<Sys<P>>, s: Sys<P>)
    requires IsContinuation(first, s) && IsContinuation(second, first[|first| - 1])
    ensures IsContinuation(first + second[1..], s)
    ensures (first + second[1..])[|first + second[1..]| - 1] == second[|second| - 1]
  {
    var run := first + second[1..];
    forall i | 0 <= i < |run| - 1
      ensures Next(run[i], run[i + 1])
    {
      if i < |first| - 1 {
        assert Next(first[i], first[i + 1]);
      } else {
        assert run[i] == second[i + 1 - |first|];
        assert Next(second[i + 1 - |first|], second[i + 2 - |first|]);
      }
    }
  }

  lemma {:induction false} PublishCopies<P(!new)>(s: Sys<P>, w: nat, n: nat) returns (run: seq<Sys<P>>)
    requires s.Pc(w).Sending? && s.Pc(w).next < |s.Pc(w).batch|
    ensures IsContinuation(run, s)
    ensures var last, pc := run[|run| - 1], s.Pc(w);
            && last.rows == s.rows && last.topic == s.topic + Copies(pc.batch[pc.next], n)
            && last.Pc(w) == if n == 0 then pc else pc.(sent := true)
    decreases n
  {
    if n == 0 {
      run := [s];
      assert s.topic + Copies(s.Pc(w).batch[s.Pc(w).next], 0) == s.topic;
    } else {
      var pc := s.Pc(w);
      var m := pc.batch[pc.next];
      var sent := s.(topic := s.topic + [m], workers := s.workers[w := pc.(sent := true)]);
      assert WorkerStep(s, w, sent);
      var rest := PublishCopies(sent, w, n - 1);
      run := [s] + rest;
      assert s.topic + Copies(m, n) == sent.topic + Copies(m, n - 1);
    }
  }

  // Whatever fails, one flush from any point of its batch does exactly what some sequence of worker steps
  // does, so everything proved of the steps holds of the code.
  lemma {:induction false} FlushIsARun<P(!new)>(s: Sys<P>, w: nat, batch: seq<Message<P>>, fate: nat -> Publication,
                                                k: nat) returns (run: seq<Sys<P>>)
    requires k <= |batch| && s.Pc(w) == Sending(batch, k, false)
    ensures IsContinuation(run, s) && run[|run| - 1].Pc(w) == Idle
    ensures (run[|run| - 1].rows, run[|run| - 1].topic) == FlushFrom(s.rows, s.topic, batch, fate, k)
    decreases |batch| - k
  {
    if k == |batch| {
      run := Stops(s, w);
    } else {
      run := OneEvent(s, w, fate(k));
      if fate(k).acked {
        var rest := FlushIsARun(run[|run| - 1], w, batch, fate, k + 1);
        JoinRuns(run, rest, s);
        run := run + rest[1..];
      }
    }
  }

  // One event of the batch: its copies, then either the acknowledgement and the mark, or the end.
  lemma OneEvent<P(!new)>(s: Sys<P>, w: nat, a: Publication) returns (run: seq<Sys<P>>)
    requires s.Pc(w).Sending? && !s.Pc(w).sent && s.Pc(w).next < |s.Pc(w).batch|
    ensures IsContinuation(run, s)
    ensures var last, pc := run[|run| - 1], s.Pc(w);
            && last.topic == s.topic + Sent(pc.batch[pc.next], a)
            && last.rows == (if a.acked && a.mark.Happens() then Mark(s.rows, pc.batch[pc.next].id) else s.rows)
            && last.Pc(w) == if a.acked then Sending(pc.batch, pc.next + 1, false) else Idle
  {
    var published := PublishCopies(s, w, a.copies + if a.acked then 1 else 0);
    var last := published[|published| - 1];
    var rest: seq<Sys<P>>;
    if a.acked {
      rest := AckAndMark(last, w, a.mark.Happens());
    } else {
      rest := Stops(last, w);
    }
    JoinRuns(published, rest, s);
    run := published + rest[1..];
  }

  lemma Stops<P(!new)>(s: Sys<P>, w: nat) returns (run: seq<Sys<P>>)
    ensures IsContinuation(run, s)
    ensures run[|run| - 1].rows == s.rows && run[|run| - 1].topic == s.topic && run[|run| - 1].Pc(w) == Idle
  {
    var stopped := s.(workers := s.workers[w := Idle]);
    assert WorkerStep(s, w, stopped);
    run := [s, stopped];
  }

  lemma AckAndMark<P(!new)>(s: Sys<P>, w: nat, marked: bool) returns (run: seq<Sys<P>>)
    requires s.Pc(w).Sending? && s.Pc(w).sent && s.Pc(w).next < |s.Pc(w).batch|
    ensures IsContinuation(run, s)
    ensures var last, pc := run[|run| - 1], s.Pc(w);
            && last.topic == s.topic && last.Pc(w) == Sending(pc.batch, pc.next + 1, false)
            && last.rows == if marked then Mark(s.rows, pc.batch[pc.next].id) else s.rows
  {
    var pc := s.Pc(w);
    var acked := s.(workers := s.workers[w := Marking(pc.batch, pc.next)]);
    var done := acked.(rows := if marked then Mark(s.rows, pc.batch[pc.next].id) else s.rows,
                       workers := acked.workers[w := Sending(pc.batch, pc.next + 1, false)]);
    assert WorkerStep(s, w, acked) && WorkerStep(acked, w, done);
    run := [s, acked, done];
  }
}
