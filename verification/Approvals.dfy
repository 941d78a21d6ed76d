// No transaction without an acceptable transfer: what every run says of the call that stored one.
module Approvals {
  import opened Base
  import opened Transactions
  import opened TransactionSteps

  // The client has just stored this transaction, on terms and with a fraud reply that allow it.
  ghost predicate Opens(s: Sys, c: nat, t: Uuid) {
    && Holds(s.Pc(c), t) && Acceptable(s.Pc(c).call)
    && t in s.store.txs && s.store.txs[t] == NewRow(s.Pc(c).call.transfer, t)
  }

  // In every run each stored transaction was stored by a call that the fraud check did not reject.
  lemma {:induction false} StoredWasApproved(run: seq<Sys>, i: nat, t: Uuid)
    requires IsRun(run) && i < |run| && t in run[i].store.txs
    ensures exists k: nat, c: nat :: k <= i && Opens(run[k], c, t)
  {
    if i > 0 {
      if t in run[i - 1].store.txs {
        StoredWasApproved(run, i - 1, t);
      } else {
        ClientsReached(run, i - 1);
        var c := StoredNow(run[i - 1], run[i], t);
      }
    }
  }

  lemma ClientsReached(run: seq<Sys>, i: nat)
    requires IsRun(run) && i < |run|
    ensures ValidIndex(run[i].store) && (forall c :: ClientOk(run[i], run[i].Pc(c)))
    ensures i + 1 < |run| ==> Next(run[i], run[i + 1])
  {
    LifecycleAndOutboxAgree(run, i);
  }

  lemma StoredNow(s: Sys, s': Sys, t: Uuid) returns (c: nat)
    requires ValidIndex(s.store) && (forall c :: ClientOk(s, s.Pc(c))) && Next(s, s')
    requires t !in s.store.txs && t in s'.store.txs
    ensures Opens(s', c, t)
  {
    OnlyClientsStore(s, s');
    c :| ClientStep(s, c, s');
    StoredByClient(s, c, s', t);
  }

  lemma OnlyClientsStore(s: Sys, s': Sys)
    requires ValidIndex(s.store) && Next(s, s')
    ensures (exists c :: ClientStep(s, c, s')) || s'.store.txs.Keys == s.store.txs.Keys
  {
    if !exists c :: ClientStep(s, c, s') {
      var txId, status, reason, d, f :| SettleStep(s, s', txId, status, reason, d, f);
      SettlingStoresNothing(s, s', txId, status, reason, d, f);
    }
  }

  lemma StoredByClient(s: Sys, c: nat, s': Sys, t: Uuid)
    requires ClientStep(s, c, s') && ClientOk(s, s.Pc(c)) && t !in s.store.txs && t in s'.store.txs
    ensures Opens(s', c, t)
  {
  }

  lemma SettlingStoresNothing(s: Sys, s': Sys, txId: Uuid, status: Status, reason: string, d: Draw, f: TxFaults)
    requires ValidIndex(s.store) && SettleStep(s, s', txId, status, reason, d, f)
    ensures s'.store.txs.Keys == s.store.txs.Keys
  {
    SettleAnswers(s.store, txId, status, reason, d, f);
  }
}
