// The sequential transaction service is one of the runs of the step model: InitiateTransfer with any failures,
// while no other client moves, is a sequence of the client's steps. Completing and failing are steps already.
module TransactionRuns {
  import opened Base
  import opened Messages
  import opened Transactions
  import opened TransactionSteps

  ghost predicate IsContinuation(run: seq<Sys>, s: Sys) {
    run != [] && run[0] == s && forall i :: 0 <= i < |run| - 1 ==> Next(run[i], run[i + 1])
  }

  // The state a run ends in.
  function Last(run: seq<Sys>): Sys
    requires run != []
  {
    run[|run| - 1]
  }

  function Moved(s: Sys, c: nat, pc: Client): Sys {
    s.(clients := s.clients[c := pc])
  }

  lemma Prepend(s: Sys, c: nat, s': Sys, rest: seq<Sys>) returns (run: seq<Sys>)
    requires ClientStep(s, c, s') && IsContinuation(rest, s')
    ensures IsContinuation(run, s) && Last(run) == Last(rest)
  {
    run := [s] + rest;
    forall i | 0 <= i < |run| - 1
      ensures Next(run[i], run[i + 1])
    {
      if i > 0 {
        assert Next(rest[i - 1], rest[i]);
      }
    }
  }

  lemma OneStepRun(s: Sys, c: nat, s': Sys) returns (run: seq<Sys>)
    requires ClientStep(s, c, s')
    ensures IsContinuation(run, s) && Last(run) == s'
  {
    run := Prepend(s, c, s', [s']);
  }

  // Any step of a call may fail; between the two writes the message is lost for good.
  lemma Fails(s: Sys, c: nat) returns (run: seq<Sys>)
    requires !s.Pc(c).Idle? && !s.Pc(c).Done?
    ensures IsContinuation(run, s)
    ensures Last(run) == Moved(s, c, Done(s.Pc(c).call, Err(Internal))).(
                           tornStart := s.tornStart + if s.Pc(c).Saved? then {s.Pc(c).call.draw.txId} else {})
  {
    var pc := s.Pc(c);
    var failed := Moved(s, c, Done(pc.call, Err(Internal))).(
                    tornStart := s.tornStart + if pc.Saved? then {pc.call.draw.txId} else {});
    assert FailStep(s, pc, failed, failed.Pc(c));
    run := OneStepRun(s, c, failed);
  }

  // An acceptable call takes a free id and a free key, its insert takes effect, and its message is not written.
  predicate Torn(s: Store, call: Call, f: TxFaults) {
    && Acceptable(call) && call.draw.txId !in s.txs
    && (call.transfer.key == "" || call.transfer.key !in s.byKey) && f.save.Happens()
    && !(f.save.Works? && !IdTaken(s.outbox, call.draw.eventId) && f.outbox.Happens())
  }

  // The call ends with this store and reply, and it is recorded whether it was torn.
  ghost predicate EndsWith(s: Sys, last: Sys, c: nat, call: Call, store: Store, r: Result<InitiateResult>, torn: bool) {
    && last.store == store && last.tornEnd == s.tornEnd
    && last.Pc(c) == Done(call, match r case Ok(result) => Ok(result.transactionId) case Err(code) => Err(code))
    && last.tornStart == s.tornStart + if torn then {call.draw.txId} else {}
  }

  lemma InitiateIsARun(s: Sys, c: nat, call: Call, f: TxFaults) returns (run: seq<Sys>)
    requires ValidIndex(s.store) && s.Pc(c) == Called(call)
    ensures IsContinuation(run, s)
    ensures var (store, r) := InitiateIn(s.store, call.transfer, call.fraud, call.draw, f);
            EndsWith(s, Last(run), c, call, store, r, Torn(s.store, call, f))
  {
    var p := call.transfer;
    if p.key != "" && !f.lookup && p.key in s.store.byKey {
      var found := Moved(s, c, Done(call, Ok(s.store.byKey[p.key])));
      assert LookupStep(s, s.Pc(c), found.Pc(c));
      run := OneStepRun(s, c, found);
    } else {
      var checked := Moved(s, c, match Refusal(p, call.fraud)
                                 case Some(code) => Done(call, Err(code))
                                 case None => Built(call));
      assert LookupStep(s, s.Pc(c), checked.Pc(c));
      if Refusal(p, call.fraud).Some? {
        run := OneStepRun(s, c, checked);
      } else {
        var rest := FromBuilt(checked, c, call, f);
        run := Prepend(s, c, checked, rest);
      }
    }
  }

  // The two writes of an accepted transfer.
  function WritesIn(s: Store, call: Call, f: TxFaults): (Store, Result<InitiateResult>) {
    var row := NewRow(call.transfer, call.draw.txId);
    match s.Insert(row)
    case Err(code) => (s, Err(code))
    case Ok(saved) =>
      if f.save.Error().Some? then (if f.save.Happens() then saved else s, Err(Internal))
      else
        var (queued, err) := EnqueueIn(saved, InitiatedMessage(row, call.draw), f.outbox);
        (queued, if err.Some? then Err(err.value) else Ok(InitiateResult(call.draw.txId, Pending)))
  }

  lemma FromBuilt(s: Sys, c: nat, call: Call, f: TxFaults) returns (run: seq<Sys>)
    requires s.Pc(c) == Built(call) && Acceptable(call)
    ensures IsContinuation(run, s)
    ensures EndsWith(s, Last(run), c, call, WritesIn(s.store, call, f).0, WritesIn(s.store, call, f).1,
                     Torn(s.store, call, f))
  {
    match s.store.Insert(NewRow(call.transfer, call.draw.txId)) {
      case Err(code) =>
        var refused := Moved(s, c, Done(call, Err(code)));
        assert InsertStep(s, s.Pc(c), refused, refused.Pc(c));
        run := OneStepRun(s, c, refused);
      case Ok(saved) =>
        assert call.draw.txId in saved.txs && call.draw.txId !in s.store.txs;
        if f.save.Fails? {
          run := Fails(s, c);
        } else {
          var inserted := Moved(s, c, Saved(call)).(store := saved);
          assert InsertStep(s, s.Pc(c), inserted, inserted.Pc(c));
          var rest: seq<Sys>;
          if f.save.Misreported? {
            rest := Fails(inserted, c);
          } else {
            rest := FromSaved(inserted, c, call, f.outbox);
          }
          run := Prepend(s, c, inserted, rest);
        }
    }
  }

  lemma FromSaved(s: Sys, c: nat, call: Call, fate: Fate) returns (run: seq<Sys>)
    requires s.Pc(c) == Saved(call)
    ensures IsContinuation(run, s)
    ensures var m := InitiatedMessage(NewRow(call.transfer, call.draw.txId), call.draw);
            var (queued, err) := EnqueueIn(s.store, m, fate);
            && Last(run).store == queued && Last(run).tornEnd == s.tornEnd
            && Last(run).Pc(c) == Done(call, if err.Some? then Err(err.value) else Ok(call.draw.txId))
            && Last(run).tornStart == s.tornStart
                                      + if IdTaken(s.store.outbox, call.draw.eventId) || fate.Fails?
                                        then {call.draw.txId} else {}
  {
    var m := InitiatedMessage(NewRow(call.transfer, call.draw.txId), call.draw);
    match s.store.Enqueue(m) {
      case Err(code) =>
        var lost := Moved(s, c, Done(call, Err(code))).(tornStart := s.tornStart + {call.draw.txId});
        assert EnqueueStep(s, s.Pc(c), lost, lost.Pc(c));
        run := OneStepRun(s, c, lost);
      case Ok(queued) =>
        assert |queued.outbox| == |s.store.outbox| + 1;
        if fate.Fails? {
          run := Fails(s, c);
        } else {
          var reply := if fate.Works? then Ok(call.draw.txId) else Err(Internal);
          var done := Moved(s, c, Done(call, reply)).(store := queued);
          assert EnqueueStep(s, s.Pc(c), done, done.Pc(c));
          run := OneStepRun(s, c, done);
        }
    }
  }
}
