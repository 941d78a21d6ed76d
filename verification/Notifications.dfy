// The notification consumer: deduplicate, send, mark.
module Notifications {
  import opened Base

  // A payload value: a string, or anything else with its JSON rendering.
  datatype Value = Text(text: string) | Other(json: string)

  // A record as the consumer sees it; a payload that does not parse is None.
  datatype Record = Record(eventId: Uuid, eventType: string, payload: Option<map<string, Value>>)

  datatype Notification = Notification(id: Uuid, eventType: string, sentAt: nat, payload: map<string, string>)

  // A notification that went out, with the event it was sent for.
  datatype Sending = Sending(eventId: Uuid, notification: Notification)

  // The identifier and the clock reading one attempt draws.
  datatype Draw = Draw(id: Uuid, now: nat)

  // Which operations of one attempt go wrong. A misreported send went out.
  datatype Faults = Faults(lookup: bool, send: Fate, mark: Fate)

  datatype Stores = Stores(sent: seq<Sending>, processed: set<Uuid>)

  function Flatten(m: map<string, Value>): map<string, string> {
    map k | k in m :: match m[k] case Text(text) => text case Other(json) => json
  }

  function SendingOf(m: Record, d: Draw): Sending
    requires m.payload.Some?
  {
    Sending(m.eventId, Notification(d.id, m.eventType, d.now, Flatten(m.payload.value)))
  }

  function HandleIn(s: Stores, m: Record, d: Draw, f: Faults): (Stores, Option<Code>) {
    if f.lookup then (s, Some(Internal))
    else if m.eventId in s.processed then (s, None)
    else if m.payload.None? then (s, Some(Internal))
    else
      var out := if f.send.Happens() then s.(sent := s.sent + [SendingOf(m, d)]) else s;
      if f.send.Error().Some? then (out, f.send.Error())
      else (if f.mark.Happens() then out.(processed := s.processed + {m.eventId}) else out, f.mark.Error())
  }

  // Whatever fails: what goes out carries the record's event type and its payload key by key, it goes out
  // exactly when the record is new and readable and the send takes effect, and the mark follows a send that
  // answered success.
  lemma AttemptAnswers(s: Stores, m: Record, d: Draw, f: Faults)
    ensures var (s', err) := HandleIn(s, m, d, f);
            if f.lookup then s' == s && err == Some(Internal)
            else if m.eventId in s.processed then s' == s && err == None
            else if m.payload.None? then s' == s && err == Some(Internal)
            else
              && (f.send.Fails? ==> s'.sent == s.sent)
              && (!f.send.Fails? ==>
                    && |s'.sent| == |s.sent| + 1 && s'.sent[..|s.sent|] == s.sent
                    && Carries(s'.sent[|s.sent|], m, d))
              && s'.processed == (if f.send.Works? && !f.mark.Fails? then s.processed + {m.eventId} else s.processed)
              && err == if f.send.Works? && f.mark.Works? then None else Some(Internal)
  {
  }

  predicate Carries(x: Sending, m: Record, d: Draw) {
    && x.eventId == m.eventId && m.payload.Some?
    && x.notification.id == d.id && x.notification.eventType == m.eventType && x.notification.sentAt == d.now
    && x.notification.payload.Keys == m.payload.value.Keys
    && forall k :: k in m.payload.value ==>
         (m.payload.value[k].Text? ==> x.notification.payload[k] == m.payload.value[k].text)
         && (m.payload.value[k].Other? ==> x.notification.payload[k] == m.payload.value[k].json)
  }

  class NotificationService {
    var sent: seq<Sending>
    var processed: set<Uuid>

    function Value(): Stores
      reads this
    {
      Stores(sent, processed)
    }

    constructor ()
      ensures Value() == Stores([], {})
    {
      sent, processed := [], {};
    }

    method Handle(m: Record, d: Draw, f: Faults) returns (err: Option<Code>)
      modifies this
      ensures (Value(), err) == HandleIn(old(Value()), m, d, f)
    {
      if f.lookup {
        return Some(Internal);
      }
      if m.eventId in processed {
        return None;
      }
      if m.payload.None? {
        return Some(Internal);
      }
      var flat := FlattenPayload(m.payload.value);
      err := Send(Sending(m.eventId, Notification(d.id, m.eventType, d.now, flat)), f.send);
      if err.Some? {
        return err;
      }
      err := MarkProcessed(m.eventId, f.mark);
    }

    // Strings stay, anything else becomes its JSON rendering.
    method FlattenPayload(m: map<string, Value>) returns (result: map<string, string>)
      ensures result == Flatten(m)
    {
      result := map[];
      var keys := m.Keys;
      while keys != {}
        invariant keys <= m.Keys && result.Keys == m.Keys - keys
        invariant forall k :: k in result ==> result[k] == Flatten(m)[k]
        decreases |keys|
      {
        var k :| k in keys;
        match m[k] {
          case Text(text) => result := result[k := text];
          case Other(json) => result := result[k := json];
        }
        keys := keys - {k};
      }
    }

    method Send(x: Sending, fate: Fate) returns (err: Option<Code>)
      modifies this`sent
      ensures sent == (if fate.Happens() then old(sent) + [x] else old(sent)) && err == fate.Error()
    {
      if fate.Happens() {
        sent := sent + [x];
      }
      return fate.Error();
    }

    method MarkProcessed(eventId: Uuid, fate: Fate) returns (err: Option<Code>)
      modifies this`processed
      ensures processed == (if fate.Happens() then old(processed) + {eventId} else old(processed))
      ensures err == fate.Error()
    {
      if fate.Happens() {
        processed := processed + {eventId};
      }
      return fate.Error();
    }
  }

  // ------------------------------------------------------------------ the exact duplicate law

  datatype Attempt = Attempt(record: Record, draw: Draw, faults: Faults)

  const EMPTY := Stores([], {})

  function HandleAll(attempts: seq<Attempt>): Stores
    decreases |attempts|
  {
    if attempts == [] then EMPTY else
      var last := attempts[|attempts| - 1];
      HandleIn(HandleAll(attempts[..|attempts| - 1]), last.record, last.draw, last.faults).0
  }

  function SentFor(sent: seq<Sending>, id: Uuid): nat
    decreases |sent|
  {
    if sent == [] then 0 else
      SentFor(sent[..|sent| - 1], id) + if sent[|sent| - 1].eventId == id then 1 else 0
  }

  // The attempt sent its notification and ended without a mark.
  predicate Unmarked(before: Stores, a: Attempt) {
    && !a.faults.lookup && a.record.eventId !in before.processed && a.record.payload.Some?
    && a.faults.send.Happens() && !(a.faults.send.Works? && a.faults.mark.Happens())
  }

  function UnmarkedAttempts(attempts: seq<Attempt>, id: Uuid): nat
    decreases |attempts|
  {
    if attempts == [] then 0 else
      var before, last := attempts[..|attempts| - 1], attempts[|attempts| - 1];
      UnmarkedAttempts(before, id) + if last.record.eventId == id && Unmarked(HandleAll(before), last) then 1 else 0
  }

  // For every event id, at every moment: the notifications sent are exactly the attempts that sent and then
  // ended unmarked, plus one if the id is marked.
  lemma {:induction false} ExactDuplicates(attempts: seq<Attempt>, id: Uuid)
    ensures var s := HandleAll(attempts);
            SentFor(s.sent, id) == UnmarkedAttempts(attempts, id) + if id in s.processed then 1 else 0
    decreases |attempts|
  {
    if attempts != [] {
      var before, last := attempts[..|attempts| - 1], attempts[|attempts| - 1];
      ExactDuplicates(before, id);
      OneAttempt(HandleAll(before), last, id);
    }
  }

  lemma OneAttempt(s: Stores, a: Attempt, id: Uuid)
    ensures var after := HandleIn(s, a.record, a.draw, a.faults).0;
            && SentFor(after.sent, id) - (if id in after.processed then 1 else 0)
               == SentFor(s.sent, id) - (if id in s.processed then 1 else 0)
                  + if a.record.eventId == id && Unmarked(s, a) then 1 else 0
  {
    if a.record.payload.Some? {
      assert (s.sent + [SendingOf(a.record, a.draw)])[..|s.sent|] == s.sent;
    }
  }

  // No notification follows the mark, whatever is delivered and whatever fails.
  lemma {:induction false} NothingAfterTheMark(attempts: seq<Attempt>, n: nat, id: Uuid)
    requires n <= |attempts| && id in HandleAll(attempts[..n]).processed
    ensures id in HandleAll(attempts).processed
    ensures SentFor(HandleAll(attempts).sent, id) == SentFor(HandleAll(attempts[..n]).sent, id)
    decreases |attempts|
  {
    if n == |attempts| {
      assert attempts[..n] == attempts;
    } else {
      var before, last := attempts[..|attempts| - 1], attempts[|attempts| - 1];
      assert before[..n] == attempts[..n];
      NothingAfterTheMark(before, n, id);
      MarkedStaysQuiet(HandleAll(before), last, id);
    }
  }

  lemma MarkedStaysQuiet(s: Stores, a: Attempt, id: Uuid)
    requires id in s.processed
    ensures var after := HandleIn(s, a.record, a.draw, a.faults).0;
            id in after.processed && SentFor(after.sent, id) == SentFor(s.sent, id)
  {
    if a.record.payload.Some? {
      assert (s.sent + [SendingOf(a.record, a.draw)])[..|s.sent|] == s.sent;
    }
  }

  // Everything that ever went out carries a delivered record.
  lemma {:induction false} SentWasDelivered(attempts: seq<Attempt>, i: nat)
    requires i < |HandleAll(attempts).sent|
    ensures exists k :: 0 <= k < |attempts|
                        && Carries(HandleAll(attempts).sent[i], attempts[k].record, attempts[k].draw)
    decreases |attempts|
  {
    if attempts != [] {
      var before, last := attempts[..|attempts| - 1], attempts[|attempts| - 1];
      AttemptAnswers(HandleAll(before), last.record, last.draw, last.faults);
      if i < |HandleAll(before).sent| {
        SentWasDelivered(before, i);
        var k :| 0 <= k < |before| && Carries(HandleAll(before).sent[i], before[k].record, before[k].draw);
        assert HandleAll(attempts).sent[i] == HandleAll(before).sent[i];
        assert attempts[k] == before[k];
      } else {
        assert Carries(HandleAll(attempts).sent[i], last.record, last.draw);
      }
    }
  }
}
