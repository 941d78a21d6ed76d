// The transactional outbox and its worker. Both services run the same worker over their own table.
module Outbox {
  import opened Base
  import opened Messages

  const BATCH_SIZE := 100

  datatype Row<+P> = Row(msg: Message<P>, published: bool)

  // ------------------------------------------------------------------ the table

  // Rows are kept ORDER BY created_at.
  ghost predicate Ordered<P>(rows: seq<Row<P>>) {
    && (forall i, j :: 0 <= i < j < |rows| ==> rows[i].msg.createdAt < rows[j].msg.createdAt)
    && (forall i, j :: 0 <= i < j < |rows| ==> rows[i].msg.id != rows[j].msg.id)
  }

  function Insert<P>(rows: seq<Row<P>>, m: Message<P>): seq<Row<P>>
    decreases |rows|
  {
    if rows == [] || rows[|rows| - 1].msg.createdAt < m.createdAt then rows + [Row(m, false)]
    else Insert(rows[..|rows| - 1], m) + [rows[|rows| - 1]]
  }

  function Msgs<P>(rows: seq<Row<P>>): (ms: seq<Message<P>>)
    ensures |ms| == |rows| && forall i :: 0 <= i < |rows| ==> ms[i] == rows[i].msg
  {
    seq(|rows|, i requires 0 <= i < |rows| => rows[i].msg)
  }

  // WHERE published_at IS NULL ORDER BY created_at LIMIT limit
  function Unpublished<P>(rows: seq<Row<P>>, limit: nat): seq<Message<P>> {
    if rows == [] || limit == 0 then []
    else if rows[0].published then Unpublished(rows[1..], limit)
    else [rows[0].msg] + Unpublished(rows[1..], limit - 1)
  }

  lemma UnpublishedFrom<P>(rows: seq<Row<P>>, i: nat, limit: nat)
    requires i < |rows| && limit > 0
    ensures Unpublished(rows[i..], limit)
         == if rows[i].published then Unpublished(rows[i + 1..], limit)
            else [rows[i].msg] + Unpublished(rows[i + 1..], limit - 1)
  {
    assert rows[i..][1..] == rows[i + 1..];
  }

  // UPDATE ... SET published_at WHERE id
  function Mark<P>(rows: seq<Row<P>>, id: Uuid): (r: seq<Row<P>>)
    ensures |r| == |rows|
    ensures forall i :: 0 <= i < |rows| ==>
              r[i] == if rows[i].msg.id == id then rows[i].(published := true) else rows[i]
  {
    seq(|rows|, i requires 0 <= i < |rows| => if rows[i].msg.id == id then rows[i].(published := true) else rows[i])
  }

  // A fetched batch is unpublished, in order, and skips no older unpublished row.
  ghost predicate GoodBatch<P>(rows: seq<Row<P>>, batch: seq<Message<P>>) {
    && (forall m :: m in batch ==> Row(m, false) in rows)
    && (forall i, j :: 0 <= i < j < |batch| ==> batch[i].createdAt < batch[j].createdAt)
    && (forall r, m :: r in rows && m in batch && r.msg.createdAt < m.createdAt ==> r.published || r.msg in batch)
  }

  lemma {:induction false} FetchIsGood<P>(rows: seq<Row<P>>, limit: nat)
    requires Ordered(rows)
    ensures GoodBatch(rows, Unpublished(rows, limit)) && |Unpublished(rows, limit)| <= limit
    decreases |rows|
  {
    if rows != [] && limit > 0 {
      assert rows == [rows[0]] + rows[1..];
      if rows[0].published {
        FetchIsGood(rows[1..], limit);
        assert forall m :: m in Unpublished(rows[1..], limit) ==> Row(m, false) in rows[1..];
      } else {
        FetchIsGood(rows[1..], limit - 1);
        GoodBatchCons(rows, Unpublished(rows[1..], limit - 1));
      }
    }
  }

  lemma GoodBatchCons<P>(rows: seq<Row<P>>, rest: seq<Message<P>>)
    requires Ordered(rows) && rows != [] && !rows[0].published && GoodBatch(rows[1..], rest)
    ensures GoodBatch(rows, [rows[0].msg] + rest)
  {
    var first := rows[0];
    assert rows == [first] + rows[1..];
    forall j | 0 <= j < |rest|
      ensures first.msg.createdAt < rest[j].createdAt
    {
      assert rest[j] in rest;
      var i :| 0 <= i < |rows[1..]| && rows[1..][i] == Row(rest[j], false);
      assert rows[i + 1] == rows[1..][i];
    }
    forall r, m | r in rows && m in [first.msg] + rest && r.msg.createdAt < m.createdAt
      ensures r.published || r.msg in [first.msg] + rest
    {
      if r != first {
        var i :| 0 <= i < |rows| && rows[i] == r;
        assert rows[0].msg.createdAt < rows[i].msg.createdAt;
        assert m in rest;
      }
    }
  }

  lemma {:induction false} InsertKeepsOrder<P>(rows: seq<Row<P>>, m: Message<P>)
    requires Ordered(rows)
    requires forall i :: 0 <= i < |rows| ==> rows[i].msg.createdAt != m.createdAt && rows[i].msg.id != m.id
    ensures Ordered(Insert(rows, m))
    decreases |rows|
  {
    if rows != [] && !(rows[|rows| - 1].msg.createdAt < m.createdAt) {
      InsertKeepsOrder(rows[..|rows| - 1], m);
      InsertStaysApart(rows[..|rows| - 1], m, rows[|rows| - 1].msg);
    }
  }

  lemma {:induction false} InsertStaysApart<P>(rows: seq<Row<P>>, m: Message<P>, last: Message<P>)
    requires m.createdAt < last.createdAt && m.id != last.id
    requires forall i :: 0 <= i < |rows| ==> rows[i].msg.createdAt < last.createdAt && rows[i].msg.id != last.id
    ensures forall i :: 0 <= i < |Insert(rows, m)| ==>
              Insert(rows, m)[i].msg.createdAt < last.createdAt && Insert(rows, m)[i].msg.id != last.id
    decreases |rows|
  {
    if rows != [] && !(rows[|rows| - 1].msg.createdAt < m.createdAt) {
      InsertStaysApart(rows[..|rows| - 1], m, last);
    }
  }

  lemma {:induction false} InsertAdds<P>(rows: seq<Row<P>>, m: Message<P>)
    ensures multiset(Insert(rows, m)) == multiset(rows) + multiset{Row(m, false)}
    decreases |rows|
  {
    if rows != [] && !(rows[|rows| - 1].msg.createdAt < m.createdAt) {
      InsertAdds(rows[..|rows| - 1], m);
      assert rows == rows[..|rows| - 1] + [rows[|rows| - 1]];
    }
  }

  // The rows older than the new one stay where they are.
  lemma {:induction false} InsertKeepsPrefix<P>(rows: seq<Row<P>>, m: Message<P>, n: nat)
    requires n <= |rows| && forall i :: 0 <= i < n ==> rows[i].msg.createdAt < m.createdAt
    ensures |Insert(rows, m)| == |rows| + 1 && Insert(rows, m)[..n] == rows[..n]
    decreases |rows|
  {
    if rows != [] && !(rows[|rows| - 1].msg.createdAt < m.createdAt) {
      InsertKeepsPrefix(rows[..|rows| - 1], m, n);
    }
  }

  // ------------------------------------------------------------------ the worker, run serially

  // What becomes of one event: copies that reached the topic before the last attempt, whether that attempt
  // was acknowledged, and how the update that marks the row ends.
  datatype Publication = Publication(copies: nat, acked: bool, mark: Fate)

  const CLEAN := Publication(0, true, Works)

  function NoFailures(k: nat): Publication {
    CLEAN
  }

  function Least(a: nat, b: nat): nat {
    if a < b then a else b
  }

  function Copies<P>(m: Message<P>, n: nat): (r: seq<Message<P>>)
    ensures |r| == n && forall i :: 0 <= i < n ==> r[i] == m
  {
    seq(n, _ => m)
  }

  function Sent<P>(m: Message<P>, a: Publication): seq<Message<P>> {
    Copies(m, a.copies + if a.acked then 1 else 0)
  }

  // The rows and the topic after flushing the batch from position k: stop at the first event that is not
  // acknowledged, carry on past a failed mark.
  function FlushFrom<P>(rows: seq<Row<P>>, topic: seq<Message<P>>, batch: seq<Message<P>>, fate: nat -> Publication,
                        k: nat): (seq<Row<P>>, seq<Message<P>>)
    requires k <= |batch|
    decreases |batch| - k
  {
    if k == |batch| then (rows, topic)
    else if !fate(k).acked then (rows, topic + Sent(batch[k], fate(k)))
    else FlushFrom(if fate(k).mark.Happens() then Mark(rows, batch[k].id) else rows, topic + Sent(batch[k], fate(k)),
                   batch, fate, k + 1)
  }

  class OutboxRepository<P> {
    var rows: seq<Row<P>>

    constructor ()
      ensures rows == []
    {
      rows := [];
    }

    // The insert is refused when the id is taken, and may fail otherwise.
    method Save(m: Message<P>, fate: Fate) returns (err: Option<Code>)
      modifies this
      ensures err == if IdTaken(Msgs(old(rows)), m.id) then Some(Internal) else fate.Error()
      ensures rows == if !IdTaken(Msgs(old(rows)), m.id) && fate.Happens() then Insert(old(rows), m) else old(rows)
    {
      if IdTaken(Msgs(rows), m.id) {
        return Some(Internal);
      }
      if fate.Happens() {
        rows := Insert(rows, m);
      }
      return fate.Error();
    }

    method FetchUnpublished(limit: nat, fails: bool) returns (r: Result<seq<Message<P>>>)
      ensures r == if fails then Err(Internal) else Ok(Unpublished(rows, limit))
    {
      if fails {
        return Err(Internal);
      }
      var events := [];
      var i := 0;
      while i < |rows| && |events| < limit
        invariant 0 <= i <= |rows| && |events| <= limit
        invariant Unpublished(rows, limit) == events + Unpublished(rows[i..], limit - |events|)
      {
        UnpublishedFrom(rows, i, limit - |events|);
        if !rows[i].published {
          events := events + [rows[i].msg];
        }
        i := i + 1;
      }
      assert events == Unpublished(rows, limit);
      return Ok(events);
    }

    // Exactly the rows with the id become published if the update takes effect; messages and order stay.
    method MarkPublished(id: Uuid, fate: Fate) returns (err: Option<Code>)
      modifies this
      ensures err == fate.Error() && Msgs(rows) == Msgs(old(rows))
      ensures forall i :: 0 <= i < |rows| ==>
                (rows[i].published <==> old(rows)[i].published || (fate.Happens() && rows[i].msg.id == id))
      ensures rows == if fate.Happens() then Mark(old(rows), id) else old(rows)
    {
      if fate.Happens() {
        rows := Mark(rows, id);
      }
      return fate.Error();
    }
  }

  class OutboxWorker<P> {
    const outbox: OutboxRepository<P>
    var topic: seq<Message<P>>

    constructor (outbox: OutboxRepository<P>)
      ensures this.outbox == outbox && topic == []
    {
      this.outbox := outbox;
      topic := [];
    }

    method Flush(fetchFails: bool, fate: nat -> Publication)
      modifies this, outbox
      ensures (outbox.rows, topic)
           == if fetchFails then (old(outbox.rows), old(topic))
              else FlushFrom(old(outbox.rows), old(topic), Unpublished(old(outbox.rows), BATCH_SIZE), fate, 0)
    {
      var fetched := outbox.FetchUnpublished(BATCH_SIZE, fetchFails);
      if fetched.Err? {
        return;
      }
      var events := fetched.value;
      var i := 0;
      while i < |events|
        invariant 0 <= i <= |events|
        invariant FlushFrom(outbox.rows, topic, events, fate, i)
               == FlushFrom(old(outbox.rows), old(topic), events, fate, 0)
      {
        topic := topic + Sent(events[i], fate(i));
        if !fate(i).acked {
          return;
        }
        var failed := outbox.MarkPublished(events[i].id, fate(i).mark);
        i := i + 1;
      }
    }
  }

  // ------------------------------------------------------------------ draining

  function Pending<P>(rows: seq<Row<P>>): seq<Message<P>> {
    Unpublished(rows, |rows|)
  }

  lemma {:induction false} FetchIsPrefix<P>(rows: seq<Row<P>>, limit: nat, more: nat)
    requires limit <= more && more >= |rows|
    ensures var all := Unpublished(rows, more);
            && |all| <= |rows|
            && Unpublished(rows, limit) == if limit <= |all| then all[..limit] else all
    decreases |rows|
  {
    if rows != [] && limit > 0 {
      if rows[0].published {
        FetchIsPrefix(rows[1..], limit, more);
      } else {
        FetchIsPrefix(rows[1..], limit - 1, more - 1);
      }
    } else if rows != [] {
      FetchIsPrefix(rows[1..], 0, if rows[0].published then more else more - 1);
    }
  }

  // Marking the oldest pending row removes exactly it from the pending rows.
  lemma {:induction false} MarkPops<P>(rows: seq<Row<P>>, limit: nat)
    requires Ordered(rows) && limit >= |rows| && Unpublished(rows, limit) != []
    ensures Unpublished(Mark(rows, Unpublished(rows, limit)[0].id), limit) == Unpublished(rows, limit)[1..]
    decreases |rows|
  {
    var id := Unpublished(rows, limit)[0].id;
    assert Mark(rows, id)[1..] == Mark(rows[1..], id);
    if rows[0].published {
      MarkPops(rows[1..], limit);
    } else {
      assert Mark(rows[1..], id) == rows[1..];
      FetchIsPrefix(rows[1..], limit - 1, limit);
      FetchIsPrefix(rows[1..], limit, limit);
    }
  }

  lemma MarkKeepsOrder<P>(rows: seq<Row<P>>, id: Uuid)
    requires Ordered(rows)
    ensures Ordered(Mark(rows, id))
  {
  }

  // A failure-free flush publishes the oldest pending rows once each, in order, and marks exactly those.
  lemma {:induction false} CleanFlush<P>(rows: seq<Row<P>>, topic: seq<Message<P>>, batch: seq<Message<P>>, k: nat,
                                         rest: seq<Message<P>>)
    requires Ordered(rows) && k <= |batch| && rest == batch[k..] && rest <= Pending(rows)
    ensures var next := FlushFrom(rows, topic, batch, NoFailures, k);
            && Ordered(next.0) && next.1 == topic + rest && Pending(next.0) == Pending(rows)[|rest|..]
    decreases |batch| - k
  {
    if k < |batch| {
      CleanStep(rows, topic, batch, k);
      Tails(topic, rest, Pending(rows));
      CleanFlush(Mark(rows, batch[k].id), topic + [batch[k]], batch, k + 1, rest[1..]);
    }
  }

  lemma Tails<T>(topic: seq<T>, rest: seq<T>, all: seq<T>)
    requires rest != [] && rest <= all
    ensures topic + [rest[0]] + rest[1..] == topic + rest
    ensures rest[1..] <= all[1..] && all[1..][|rest| - 1..] == all[|rest|..]
  {
  }

  lemma CleanStep<P>(rows: seq<Row<P>>, topic: seq<Message<P>>, batch: seq<Message<P>>, k: nat)
    requires Ordered(rows) && k < |batch| && batch[k..] <= Pending(rows)
    ensures var rows' := Mark(rows, batch[k].id);
            && Ordered(rows') && Pending(rows') == Pending(rows)[1..]
            && FlushFrom(rows, topic, batch, NoFailures, k)
               == FlushFrom(rows', topic + [batch[k]], batch, NoFailures, k + 1)
  {
    assert batch[k..][0] == batch[k];
    PopOldest(rows, batch[k]);
    assert Sent(batch[k], CLEAN) == [batch[k]];
  }

  lemma PopOldest<P>(rows: seq<Row<P>>, m: Message<P>)
    requires Ordered(rows) && [m] <= Pending(rows)
    ensures Ordered(Mark(rows, m.id)) && Pending(Mark(rows, m.id)) == Pending(rows)[1..]
  {
    assert Pending(rows)[0] == m;
    MarkPops(rows, |rows|);
    MarkKeepsOrder(rows, m.id);
  }

  // The table after a number of failure-free flushes.
  function FlushTimes<P>(rows: seq<Row<P>>, topic: seq<Message<P>>, times: nat): (seq<Row<P>>, seq<Message<P>>)
    decreases times
  {
    if times == 0 then (rows, topic) else
      var (rows', topic') := FlushFrom(rows, topic, Unpublished(rows, BATCH_SIZE), NoFailures, 0);
      FlushTimes(rows', topic', times - 1)
  }

  // Failure-free flushes publish the pending rows in order, 100 at a time, each once.
  lemma {:induction false} Drains<P>(rows: seq<Row<P>>, topic: seq<Message<P>>, times: nat)
    requires Ordered(rows)
    ensures var all := Pending(rows);
            var sent := Least(times * 100, |all|);
            && FlushTimes(rows, topic, times).1 == topic + all[..sent]
            && Pending(FlushTimes(rows, topic, times).0) == all[sent..]
    decreases times
  {
    var all := Pending(rows);
    if times > 0 {
      var next := FlushFrom(rows, topic, Unpublished(rows, BATCH_SIZE), NoFailures, 0);
      OneFlush(rows, topic);
      Drains(next.0, next.1, times - 1);
      SliceTwice(topic, all, times);
    }
  }

  lemma SliceTwice<T>(topic: seq<T>, all: seq<T>, times: nat)
    requires times > 0
    ensures var first := Least(BATCH_SIZE, |all|);
            var rest := all[first..];
            var more, sent := Least((times - 1) * BATCH_SIZE, |rest|), Least(times * BATCH_SIZE, |all|);
            topic + all[..first] + rest[..more] == topic + all[..sent] && rest[more..] == all[sent..]
  {
    var first := Least(BATCH_SIZE, |all|);
    var sent := Least(times * BATCH_SIZE, |all|);
    assert Least((times - 1) * BATCH_SIZE, |all| - first) == sent - first;
    assert all[..sent] == all[..first] + all[first..][..sent - first];
  }

  // n pending rows drain in exactly ceil(n / 100) failure-free flushes.
  lemma DrainedExactlyWhen<P>(rows: seq<Row<P>>, topic: seq<Message<P>>, times: nat)
    requires Ordered(rows)
    ensures Pending(FlushTimes(rows, topic, times).0) == []
            <==> times >= (|Pending(rows)| + 99) / 100
  {
    Drains(rows, topic, times);
    CeilingDivides(|Pending(rows)|, times);
  }

  lemma CeilingDivides(n: nat, times: nat)
    ensures times * BATCH_SIZE >= n <==> times >= (n + BATCH_SIZE - 1) / BATCH_SIZE
  {
  }

  lemma OneFlush<P>(rows: seq<Row<P>>, topic: seq<Message<P>>)
    requires Ordered(rows)
    ensures var all := Pending(rows);
            var first := Least(BATCH_SIZE, |all|);
            var next := FlushFrom(rows, topic, Unpublished(rows, BATCH_SIZE), NoFailures, 0);
            Ordered(next.0) && next.1 == topic + all[..first] && Pending(next.0) == all[first..]
  {
    var batch := Unpublished(rows, BATCH_SIZE);
    FetchIsPrefix(rows, if BATCH_SIZE <= |rows| then BATCH_SIZE else |rows|, |rows|);
    EnoughIsEnough(rows, |rows|, BATCH_SIZE);
    assert batch[0..] == batch;
    CleanFlush(rows, topic, batch, 0, batch);
  }

  lemma {:induction false} EnoughIsEnough<P>(rows: seq<Row<P>>, a: nat, b: nat)
    requires a >= |rows|
    ensures b >= |rows| ==> Unpublished(rows, b) == Unpublished(rows, a)
    decreases |rows|
  {
    if rows != [] && b >= |rows| {
      if rows[0].published {
        EnoughIsEnough(rows[1..], a, b);
      } else {
        EnoughIsEnough(rows[1..], a - 1, b - 1);
      }
    }
  }
}
