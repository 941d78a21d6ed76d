// From the outbox to the effects: what deduplicating consumers make of a topic with repeats, with and
// without failures between an effect and its mark.
module Delivery {
  import opened Base
  import opened Messages
  import opened Outbox
  import opened OutboxSteps
  import opened Streams
  import opened SagaHandlers

  // ------------------------------------------------------------------ exactly once, by composition

  // Each record of every key is delivered without skipping, but possibly again and again.
  ghost predicate Delivered<P>(topic: seq<Message<P>>, d: seq<Message<P>>) {
    forall key :: IsRead(OfKey(topic, key), OfKey(d, key))
  }

  // Whatever the outbox workers and the consumer repeat, the distinct events of a key reach the consumer in
  // outbox order, as a prefix of the outbox rows of that key.
  lemma EachKeyInOutboxOrder<P(!new)>(run: seq<OutboxSteps.Sys<P>>, i: nat, d: seq<Message<P>>, key: Uuid)
    requires OutboxSteps.IsRun(run) && i < |run| && Delivered(run[i].topic, d)
    ensures OfKey(FirstOccurrences(d), key) <= OfKey(Msgs(run[i].rows), key)
  {
    OutboxOrder(run, i);
    assert IsRead(OfKey(run[i].topic, key), OfKey(d, key));
    KeyOfReadIsPrefix(run[i].topic, d, Msgs(run[i].rows), key);
  }

  lemma KeyOfReadIsPrefix<P>(topic: seq<Message<P>>, d: seq<Message<P>>, rows: seq<Message<P>>, key: Uuid)
    requires FirstOccurrences(topic) <= rows && IsRead(OfKey(topic, key), OfKey(d, key))
    ensures OfKey(FirstOccurrences(d), key) <= OfKey(rows, key)
  {
    var seen := FirstOccurrences(topic);
    FirstOfKey(d, key);
    FirstOfKey(topic, key);
    ReadDropsTail(OfKey(topic, key), OfKey(d, key));
    OfKeyPrefix(rows, |seen|, key);
    assert rows[..|seen|] == seen;
    Prefixes(OfKey(FirstOccurrences(d), key), OfKey(seen, key), OfKey(rows, key));
  }

  lemma Prefixes<T>(a: seq<T>, b: seq<T>, c: seq<T>)
    requires a <= b <= c
    ensures a <= c
  {
  }

  lemma ReadDropsTail<T>(partition: seq<T>, d: seq<T>)
    requires IsRead(partition, d)
    ensures FirstOccurrences(d) <= FirstOccurrences(partition)
  {
    var offsets: seq<nat> :| NoSkips(offsets) && (forall k :: 0 <= k < |offsets| ==> offsets[k] < |partition|)
                             && d == Deliver(partition, offsets);
    var h := ReadIsPrefix(partition, offsets);
    FirstOfPrefix(partition, h);
  }

  function Received(d: seq<Attempt>): (ms: seq<Message<TxEvent>>)
    ensures |ms| == |d| && forall i :: 0 <= i < |d| ==> ms[i] == d[i].msg
  {
    seq(|d|, i requires 0 <= i < |d| => d[i].msg)
  }

  // The deliveries that are the first of their message.
  function Firsts(d: seq<Attempt>): seq<Attempt>
    decreases |d|
  {
    if d == [] then [] else
      var before := d[..|d| - 1];
      if d[|d| - 1].msg in Received(before) then Firsts(before) else Firsts(before) + [d[|d| - 1]]
  }

  lemma {:induction false} FirstsAreFirst(d: seq<Attempt>)
    ensures Received(Firsts(d)) == FirstOccurrences(Received(d))
    decreases |d|
  {
    if d != [] {
      var before, last := d[..|d| - 1], d[|d| - 1];
      FirstsAreFirst(before);
      assert Received(d) == Received(before) + [last.msg];
      FirstSnoc(Received(before), last.msg);
      FirstSameElements(Received(before), last.msg);
    }
  }

  // Every delivery is handled through to its end.
  ghost predicate AllSucceed(s: Stores, d: seq<Attempt>) {
    forall n :: 0 <= n < |d| ==> SucceedsAt(s, d, n)
  }

  ghost predicate SucceedsAt(s: Stores, d: seq<Attempt>, n: int)
    requires 0 <= n < |d|
  {
    Handled(HandleAll(s, d[..n]), d[n]).1 == None
  }

  // An event that asks for something is marked once it has been delivered.
  lemma {:induction false} DeliveredAreMarked(s: Stores, d: seq<Attempt>, m: Message<TxEvent>)
    requires AllSucceed(s, d) && m in Received(d) && JobOf(m.payload).Some?
    ensures m.id in HandleAll(s, d).processed
    decreases |d|
  {
    var before, last := d[..|d| - 1], d[|d| - 1];
    SucceededBefore(s, d);
    if last.msg != m {
      assert Received(d) == Received(before) + [last.msg];
      DeliveredAreMarked(s, before, m);
    }
  }

  // Handling a stream with repeats leaves the wallets, the notices and the marks exactly as handling each
  // distinct event once, in the order of first arrival.
  lemma {:induction false} RepeatsChangeNothing(s: Stores, d: seq<Attempt>)
    requires AllSucceed(s, d)
    ensures HandleAll(s, d) == HandleAll(s, Firsts(d))
    decreases |d|
  {
    if d != [] {
      var before, last := d[..|d| - 1], d[|d| - 1];
      SucceededBefore(s, d);
      RepeatsChangeNothing(s, before);
      if last.msg in Received(before) {
        if JobOf(last.msg.payload).Some? {
          DeliveredAreMarked(s, before, last.msg);
        }
        assert Firsts(d) == Firsts(before);
      } else {
        assert Firsts(d)[..|Firsts(d)| - 1] == Firsts(before);
      }
    }
  }

  lemma SucceededBefore(s: Stores, d: seq<Attempt>)
    requires AllSucceed(s, d) && d != []
    ensures AllSucceed(s, d[..|d| - 1])
    ensures Handled(HandleAll(s, d[..|d| - 1]), d[|d| - 1]).1 == None
  {
    var before := d[..|d| - 1];
    forall k | 0 <= k < |before|
      ensures SucceedsAt(s, before, k)
    {
      assert SucceedsAt(s, d, k) && before[..k] == d[..k];
    }
    assert SucceedsAt(s, d, |d| - 1);
  }

  // No delivery stops between its wallet append and its mark.
  ghost predicate NoneStopsUnmarked(s: Stores, d: seq<Attempt>)
    decreases |d|
  {
    d == [] ||
    (var before, last := d[..|d| - 1], d[|d| - 1];
     NoneStopsUnmarked(s, before) && !StopsUnmarked(HandleAll(s, before), last))
  }

  // The deliveries that changed something.
  function Effective(s: Stores, d: seq<Attempt>): seq<Attempt>
    decreases |d|
  {
    if d == [] then [] else
      var before, last := d[..|d| - 1], d[|d| - 1];
      if Handled(HandleAll(s, before), last).0 == HandleAll(s, before) then Effective(s, before)
      else Effective(s, before) + [last]
  }

  // Even when wallets refuse some deliveries and operations fail, as long as none stops unmarked: the stores
  // end up as if only the effective deliveries had happened, no message is effective twice, and a message is
  // marked exactly when it was effective.
  lemma {:induction false} AtMostOnce(s: Stores, d: seq<Attempt>, m: Message<TxEvent>)
    requires NoneStopsUnmarked(s, d) && m.id !in s.processed
    requires forall n :: 0 <= n < |d| && d[n].msg.id == m.id ==> d[n].msg == m
    ensures HandleAll(s, Effective(s, d)) == HandleAll(s, d)
    ensures Times(Effective(s, d), m) == if m.id in HandleAll(s, d).processed then 1 else 0
    decreases |d|
  {
    if d != [] {
      var before, last := d[..|d| - 1], d[|d| - 1];
      AtMostOnce(s, before, m);
      ChangeIsMark(HandleAll(s, before), last);
      EffectiveSnoc(s, d, m);
      assert last.msg.id == m.id ==> last.msg == m;
    }
  }

  // A delivery that does not stop unmarked changes the stores exactly when it marks its message.
  lemma ChangeIsMark(s: Stores, one: Attempt)
    requires !StopsUnmarked(s, one)
    ensures var after := Handled(s, one).0;
            after == s || (one.msg.id !in s.processed && after.processed == s.processed + {one.msg.id})
  {
    if JobOf(one.msg.payload).Some? {
      ExecutedTableDiffers(s.table, JobOf(one.msg.payload).value, one.ids.eventId);
    }
  }

  lemma EffectiveSnoc(s: Stores, d: seq<Attempt>, m: Message<TxEvent>)
    requires d != []
    ensures var before, last := d[..|d| - 1], d[|d| - 1];
            if HandleAll(s, d) == HandleAll(s, before) then Effective(s, d) == Effective(s, before) else
              && Times(Effective(s, d), m) == Times(Effective(s, before), m) + (if last.msg == m then 1 else 0)
              && HandleAll(s, Effective(s, d))
                 == Handled(HandleAll(s, Effective(s, before)), last).0
  {
    var all := Effective(s, d);
    if all != Effective(s, d[..|d| - 1]) {
      assert all[..|all| - 1] == Effective(s, d[..|d| - 1]);
    }
  }

  function Times(d: seq<Attempt>, m: Message<TxEvent>): nat
    decreases |d|
  {
    if d == [] then 0 else Times(d[..|d| - 1], m) + if d[|d| - 1].msg == m then 1 else 0
  }

  // Exactly once: any outbox run, any repetition on the topic, any rewinding delivery. The stores end up as
  // if each distinct event had been handled once, and per key those events are a prefix of the outbox rows.
  lemma ExactlyOnce(run: seq<OutboxSteps.Sys<TxEvent>>, i: nat, s: Stores, d: seq<Attempt>, key: Uuid)
    requires OutboxSteps.IsRun(run) && i < |run| && Delivered(run[i].topic, Received(d)) && AllSucceed(s, d)
    ensures HandleAll(s, d) == HandleAll(s, Firsts(d))
    ensures OfKey(Received(Firsts(d)), key) <= OfKey(Msgs(run[i].rows), key)
  {
    RepeatsChangeNothing(s, d);
    FirstsAreFirst(d);
    EachKeyInOutboxOrder(run, i, Received(d), key);
  }
}
