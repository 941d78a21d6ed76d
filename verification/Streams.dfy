// Sequences with repeats: first occurrences, restriction to a key, and reads that may rewind.
module Streams {
  import opened Base
  import opened Messages

  // The sequence with repeats removed.
  function FirstOccurrences<T(==)>(s: seq<T>): seq<T>
    decreases |s|
  {
    if s == [] then [] else
      var before := FirstOccurrences(s[..|s| - 1]);
      if s[|s| - 1] in before then before else before + [s[|s| - 1]]
  }

  lemma FirstSnoc<T>(s: seq<T>, x: T)
    ensures FirstOccurrences(s + [x])
         == if x in FirstOccurrences(s) then FirstOccurrences(s) else FirstOccurrences(s) + [x]
  {
    assert (s + [x])[..|s|] == s;
  }

  lemma {:induction false} FirstSameElements<T>(s: seq<T>, x: T)
    ensures x in FirstOccurrences(s) <==> x in s
    decreases |s|
  {
    if s != [] {
      FirstSameElements(s[..|s| - 1], x);
      assert s == s[..|s| - 1] + [s[|s| - 1]];
    }
  }

  lemma {:induction false} FirstOfPrefix<T>(s: seq<T>, n: nat)
    requires n <= |s|
    ensures FirstOccurrences(s[..n]) <= FirstOccurrences(s)
    decreases |s|
  {
    if n == |s| {
      assert s[..n] == s;
    } else {
      FirstOfPrefix(s[..|s| - 1], n);
      assert s[..|s| - 1][..n] == s[..n];
    }
  }

  // ------------------------------------------------------------------ one partition

  // The messages of one key, in order: what a partition holds of them.
  function OfKey<P>(s: seq<Message<P>>, key: Uuid): seq<Message<P>>
    decreases |s|
  {
    if s == [] then [] else
      var front := OfKey(s[..|s| - 1], key);
      if s[|s| - 1].key == key then front + [s[|s| - 1]] else front
  }

  lemma {:induction false} OfKeyElements<P>(s: seq<Message<P>>, key: Uuid, m: Message<P>)
    ensures m in OfKey(s, key) <==> m in s && m.key == key
    decreases |s|
  {
    if s != [] {
      OfKeyElements(s[..|s| - 1], key, m);
      assert s == s[..|s| - 1] + [s[|s| - 1]];
    }
  }

  lemma {:induction false} OfKeyPrefix<P>(s: seq<Message<P>>, n: nat, key: Uuid)
    requires n <= |s|
    ensures OfKey(s[..n], key) <= OfKey(s, key)
    decreases |s|
  {
    if n == |s| {
      assert s[..n] == s;
    } else {
      OfKeyPrefix(s[..|s| - 1], n, key);
      assert s[..|s| - 1][..n] == s[..n];
    }
  }

  // Restricting to a key and removing repeats commute.
  lemma {:induction false} FirstOfKey<P>(s: seq<Message<P>>, key: Uuid)
    ensures FirstOccurrences(OfKey(s, key)) == OfKey(FirstOccurrences(s), key)
    decreases |s|
  {
    if s != [] {
      var front, m := s[..|s| - 1], s[|s| - 1];
      FirstOfKey(front, key);
      OfKeySnoc(FirstOccurrences(front), m, key);
      FirstSnoc(OfKey(front, key), m);
      OfKeyElements(FirstOccurrences(front), key, m);
      assert m.key != key ==> OfKey(s, key) == OfKey(front, key);
    }
  }

  lemma OfKeySnoc<P>(s: seq<Message<P>>, m: Message<P>, key: Uuid)
    ensures OfKey(s + [m], key) == if m.key == key then OfKey(s, key) + [m] else OfKey(s, key)
  {
    assert (s + [m])[..|s|] == s;
  }

  // ------------------------------------------------------------------ reads that rewind

  // Offsets a consumer may deliver: it may go back at any time but never skips ahead.
  predicate NoSkips(offsets: seq<nat>)
    decreases |offsets|
  {
    offsets == [] ||
    (var front, last := offsets[..|offsets| - 1], offsets[|offsets| - 1];
     NoSkips(front) && (last == 0 || last - 1 in front))
  }

  function Deliver<T>(partition: seq<T>, offsets: seq<nat>): (d: seq<T>)
    requires forall k :: 0 <= k < |offsets| ==> offsets[k] < |partition|
    ensures |d| == |offsets| && forall k :: 0 <= k < |offsets| ==> d[k] == partition[offsets[k]]
  {
    seq(|offsets|, k requires 0 <= k < |offsets| => partition[offsets[k]])
  }

  ghost predicate IsRead<T>(partition: seq<T>, delivered: seq<T>) {
    exists offsets: seq<nat> ::
      NoSkips(offsets) && (forall k :: 0 <= k < |offsets| ==> offsets[k] < |partition|)
      && delivered == Deliver(partition, offsets)
  }

  // One more delivery: either a repeat or the next record.
  lemma ReadOneMore<T>(partition: seq<T>, delivered: seq<T>, h: nat, o: nat)
    requires o <= h <= |partition| && o < |partition|
    requires FirstOccurrences(delivered) == FirstOccurrences(partition[..h])
    ensures FirstOccurrences(delivered + [partition[o]])
         == FirstOccurrences(partition[..if o < h then h else h + 1])
  {
    FirstSnoc(delivered, partition[o]);
    if o < h {
      assert partition[..h][o] == partition[o];
      FirstSameElements(partition[..h], partition[o]);
    } else {
      assert partition[..h + 1] == partition[..h] + [partition[h]];
      FirstSnoc(partition[..h], partition[h]);
    }
  }

  // The offsets delivered are exactly 0..h-1.
  ghost predicate Covers(offsets: seq<nat>, h: nat) {
    && (forall k :: 0 <= k < |offsets| ==> offsets[k] < h)
    && (forall o: nat :: o < h ==> o in offsets)
  }

  lemma CoversMore(offsets: seq<nat>, o: nat, h: nat)
    requires Covers(offsets, h) && (o == 0 || o - 1 in offsets)
    ensures o <= h && Covers(offsets + [o], if o < h then h else h + 1)
  {
    forall x: nat | x < if o < h then h else h + 1
      ensures x in offsets + [o]
    {
      assert x in offsets || x in [o];
    }
  }

  lemma DeliverSnoc<T>(partition: seq<T>, offsets: seq<nat>, o: nat)
    requires o < |partition| && forall k :: 0 <= k < |offsets| ==> offsets[k] < |partition|
    ensures forall k :: 0 <= k < |offsets + [o]| ==> (offsets + [o])[k] < |partition|
    ensures Deliver(partition, offsets + [o]) == Deliver(partition, offsets) + [partition[o]]
  {
  }

  // Without repeats, a delivery is the partition's first h records without repeats.
  lemma {:induction false} ReadIsPrefix<T>(partition: seq<T>, offsets: seq<nat>) returns (h: nat)
    requires NoSkips(offsets) && forall k :: 0 <= k < |offsets| ==> offsets[k] < |partition|
    ensures h <= |partition| && Covers(offsets, h)
    ensures FirstOccurrences(Deliver(partition, offsets)) == FirstOccurrences(partition[..h])
    decreases |offsets|
  {
    if offsets == [] {
      h := 0;
    } else {
      var front, o := offsets[..|offsets| - 1], offsets[|offsets| - 1];
      var before := ReadIsPrefix(partition, front);
      assert offsets == front + [o];
      h := ReadTheNext(partition, front, o, before);
    }
  }

  lemma ReadTheNext<T>(partition: seq<T>, offsets: seq<nat>, o: nat, before: nat) returns (h: nat)
    requires o < |partition| && forall k :: 0 <= k < |offsets| ==> offsets[k] < |partition|
    requires Covers(offsets, before) && before <= |partition| && (o == 0 || o - 1 in offsets)
    requires FirstOccurrences(Deliver(partition, offsets)) == FirstOccurrences(partition[..before])
    ensures h <= |partition| && Covers(offsets + [o], h)
    ensures forall k :: 0 <= k < |offsets + [o]| ==> (offsets + [o])[k] < |partition|
    ensures FirstOccurrences(Deliver(partition, offsets + [o])) == FirstOccurrences(partition[..h])
  {
    CoversMore(offsets, o, before);
    DeliverSnoc(partition, offsets, o);
    ReadOneMore(partition, Deliver(partition, offsets), before, o);
    h := if o < before then before else before + 1;
  }
}
