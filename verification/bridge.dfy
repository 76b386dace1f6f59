/** The two chains together: the Cosmos module beside the event log of the Ethereum contract. Whatever the order
    of messages, votes, blocks and Ethereum events, no transfer is paid twice, paid and refunded, or lost. */
module Bridge {
  import opened Types
  import Outgoing
  import Selection
  import Ledger
  import Oracle

  const BATCH_SIZE := 50

  // ---------- The Ethereum side ----------

  function BatchOf(e: Claim): Outgoing.BatchKey
    requires e.BatchSendToEth?
  {
    Outgoing.BatchKey(e.contract, e.batchNonce)
  }

  type Created = map<Outgoing.BatchKey, Batch>

  /** The Ethereum height of the n-th event; zero before the first. */
  function HeightAt(log: seq<Claim>, n: nat): nat
    requires n <= |log|
  {
    if n == 0 then 0 else log[n - 1].height
  }

  /** Events that the contract can emit next: the event nonce counts up, heights do not decrease, and an executed
      batch was once created, is not past its timeout and has a nonce above all executed ones of its token. */
  ghost predicate CanEmit(created: Created, log: seq<Claim>, e: Claim) {
    && e.eventNonce == |log| + 1
    && e.height >= HeightAt(log, |log|)
    && (e.BatchSendToEth? ==>
          && BatchOf(e) in created
          && e.height <= created[BatchOf(e)].timeout
          && forall i | 0 <= i < |log| && log[i].BatchSendToEth? && log[i].contract == e.contract ::
               log[i].batchNonce < e.batchNonce)
  }

  ghost predicate LogOk(created: Created, log: seq<Claim>) {
    forall i | 0 <= i < |log| :: CanEmit(created, log[..i], log[i])
  }

  /** The transfers of the batches executed by the first n events. */
  ghost function Paid(created: Created, log: seq<Claim>, n: nat): set<Transfer>
    requires n <= |log|
  {
    if n == 0 then {}
    else Paid(created, log, n - 1) + PaidBy(created, log[n - 1])
  }

  ghost function PaidBy(created: Created, e: Claim): set<Transfer> {
    if e.BatchSendToEth? && BatchOf(e) in created then Outgoing.TxSet(created[BatchOf(e)].txs) else {}
  }

  /** No transfer id occurs in two executed batches, or twice in one. */
  ghost predicate PaidOnce(created: Created, log: seq<Claim>, n: nat)
    requires n <= |log|
  {
    forall i, j, a, b | 0 <= i < n && 0 <= j < n
        && log[i].BatchSendToEth? && BatchOf(log[i]) in created && 0 <= a < |created[BatchOf(log[i])].txs|
        && log[j].BatchSendToEth? && BatchOf(log[j]) in created && 0 <= b < |created[BatchOf(log[j])].txs|
        && created[BatchOf(log[i])].txs[a].id == created[BatchOf(log[j])].txs[b].id ::
      i == j && a == b
  }

  // ---------- The invariant of the joint system, with n events processed ----------

  ghost predicate LiveAreCreated(s: Outgoing.State, created: Created) {
    && (forall bk | bk in s.batches :: bk in created && created[bk] == s.batches[bk])
    && (forall bk | bk in created :: bk.nonce < s.nextBatchId)
  }

  /** Every executed batch that is not processed yet is still live. */
  ghost predicate ExecutedAreLive(s: Outgoing.State, log: seq<Claim>, n: nat) {
    forall i | n <= i < |log| && log[i].BatchSendToEth? :: BatchOf(log[i]) in s.batches
  }

  ghost predicate Overtaken(log: seq<Claim>, n: nat, bk: Outgoing.BatchKey)
    requires n <= |log|
  {
    exists i :: 0 <= i < n && log[i].BatchSendToEth? && log[i].contract == bk.contract && log[i].batchNonce >= bk.nonce
  }

  /** Ethereum can no longer execute the batch: it is past its timeout there, or a batch of its token with the same or
      a higher nonce was executed. */
  ghost predicate OutOfReach(created: Created, log: seq<Claim>, bk: Outgoing.BatchKey)
    requires bk in created
  {
    created[bk].timeout < HeightAt(log, |log|) || Overtaken(log, |log|, bk)
  }

  /** A batch that is no longer live can no longer be executed. */
  ghost predicate DeadAreDead(s: Outgoing.State, created: Created, log: seq<Claim>) {
    forall bk | bk in created && bk !in s.batches :: OutOfReach(created, log, bk)
  }

  ghost predicate Apart(a: set<Transfer>, b: set<Transfer>) {
    forall t, u | t in a && u in b :: t.id != u.id
  }

  ghost predicate Below(txs: set<Transfer>, id: nat) {
    forall t | t in txs :: 1 <= t.id < id
  }

  /** Pending, paid and refunded transfers have different ids, and no id below the counter is missing. */
  ghost predicate Accounted(s: Outgoing.State, paid: set<Transfer>, refunded: set<Transfer>) {
    && Apart(Outgoing.Pending(s), paid)
    && Apart(Outgoing.Pending(s), refunded)
    && Apart(paid, refunded)
    && Below(paid + refunded, s.nextTxId)
    && forall id | 1 <= id < s.nextTxId :: HasTransfer(Outgoing.Pending(s) + paid + refunded, id)
  }

  ghost predicate HasTransfer(txs: set<Transfer>, id: nat) {
    exists t :: t in txs && t.id == id
  }

  ghost predicate Joint(s: Outgoing.State, created: Created, refunded: set<Transfer>, log: seq<Claim>, n: nat) {
    && n <= |log|
    && Outgoing.Inv(s)
    && LogOk(created, log)
    && LiveAreCreated(s, created)
    && ExecutedAreLive(s, log, n)
    && DeadAreDead(s, created, log)
    && PaidOnce(created, log, n)
    && Accounted(s, Paid(created, log, n), refunded)
  }

  // ---------- Facts about the log ----------

  lemma {:induction false} HeightsGrow(created: Created, log: seq<Claim>, m: nat, n: nat)
    requires LogOk(created, log) && m <= n <= |log|
    ensures HeightAt(log, m) <= HeightAt(log, n)
  {
    if m < n {
      HeightsGrow(created, log, m, n - 1);
      assert CanEmit(created, log[..n - 1], log[n - 1]);
      assert n > 1 ==> log[..n - 1][n - 2] == log[n - 2];
    }
  }

  lemma BatchNoncesGrow(created: Created, log: seq<Claim>, i: nat, j: nat)
    requires LogOk(created, log) && i < j < |log|
    requires log[i].BatchSendToEth? && log[j].BatchSendToEth? && log[i].contract == log[j].contract
    ensures log[i].batchNonce < log[j].batchNonce
  {
    assert CanEmit(created, log[..j], log[j]);
    assert log[..j][i] == log[i];
  }

  lemma {:induction false} PaidMembers(created: Created, log: seq<Claim>, n: nat, t: Transfer)
    requires n <= |log|
    ensures t in Paid(created, log, n) <==> exists i :: 0 <= i < n && t in PaidBy(created, log[i])
  {
    if n > 0 {
      PaidMembers(created, log, n - 1, t);
    }
  }

  // ---------- Processing the next event ----------

  ghost function Processed(s: Outgoing.State, e: Claim): Outgoing.State {
    if e.BatchSendToEth? && BatchOf(e) in s.batches then Outgoing.Executed(s, e.contract, e.batchNonce) else s
  }

  lemma ProcessKeepsLive(s: Outgoing.State, created: Created, log: seq<Claim>, n: nat)
    requires n < |log| && LogOk(created, log) && Outgoing.Keyed(s)
    requires LiveAreCreated(s, created) && ExecutedAreLive(s, log, n)
    ensures LiveAreCreated(Processed(s, log[n]), created) && ExecutedAreLive(Processed(s, log[n]), log, n + 1)
  {
    var e := log[n];
    if e.BatchSendToEth? {
      Outgoing.ExecutedBatches(s, e.contract, e.batchNonce);
      forall i | n + 1 <= i < |log| && log[i].BatchSendToEth? ensures BatchOf(log[i]) in Processed(s, e).batches {
        if log[i].contract == e.contract {
          BatchNoncesGrow(created, log, n, i);
        }
      }
    }
  }

  lemma ProcessKeepsDead(s: Outgoing.State, created: Created, log: seq<Claim>, n: nat)
    requires n < |log| && Outgoing.Keyed(s) && DeadAreDead(s, created, log)
    ensures DeadAreDead(Processed(s, log[n]), created, log)
  {
    var s', e := Processed(s, log[n]), log[n];
    if e.BatchSendToEth? {
      Outgoing.ExecutedBatches(s, e.contract, e.batchNonce);
    }
    forall bk | bk in created && bk !in s'.batches ensures OutOfReach(created, log, bk) {
      if bk in s.batches {
        assert log[n].contract == bk.contract && log[n].batchNonce >= bk.nonce;
      }
    }
  }

  /** The batch that is processed next is live, so its transfers are pending. */
  lemma NextIsPending(s: Outgoing.State, created: Created, log: seq<Claim>, n: nat)
    requires n < |log| && LiveAreCreated(s, created) && ExecutedAreLive(s, log, n)
    ensures log[n].BatchSendToEth? ==> BatchOf(log[n]) in s.batches
    ensures PaidBy(created, log[n]) <= Outgoing.Pending(s)
  {
    forall t | t in PaidBy(created, log[n]) ensures t in Outgoing.Pending(s) {
      var bk := BatchOf(log[n]);
      var i :| 0 <= i < |s.batches[bk].txs| && s.batches[bk].txs[i] == t;
      Outgoing.PlaceIsPending(s, Outgoing.InBatch(bk, i));
    }
  }

  lemma ProcessMovesPending(s: Outgoing.State, created: Created, log: seq<Claim>, n: nat)
    requires n < |log| && Outgoing.Inv(s) && LiveAreCreated(s, created) && ExecutedAreLive(s, log, n)
    ensures var s' := Processed(s, log[n]);
      && Outgoing.Inv(s')
      && s'.nextTxId == s.nextTxId
      && Outgoing.Pending(s') == Outgoing.Pending(s) - PaidBy(created, log[n])
      && Paid(created, log, n + 1) == Paid(created, log, n) + PaidBy(created, log[n])
  {
    var e := log[n];
    if e.BatchSendToEth? {
      Outgoing.ExecuteEffect(s, e.contract, e.batchNonce);
    }
  }

  lemma PendingIsUnique(s: Outgoing.State, t: Transfer, u: Transfer)
    requires Outgoing.Inv(s) && t in Outgoing.Pending(s) && u in Outgoing.Pending(s) && t.id == u.id
    ensures t == u
  {
    var p := Outgoing.PendingHasPlace(s, t);
    var q := Outgoing.PendingHasPlace(s, u);
  }

  lemma ProcessKeepsAccounts(s: Outgoing.State, created: Created, refunded: set<Transfer>, log: seq<Claim>, n: nat)
    requires n < |log| && Outgoing.Inv(s) && LiveAreCreated(s, created) && ExecutedAreLive(s, log, n)
    requires Accounted(s, Paid(created, log, n), refunded)
    ensures Accounted(Processed(s, log[n]), Paid(created, log, n + 1), refunded)
  {
    hide Outgoing.Inv, Outgoing.Pending, LiveAreCreated, ExecutedAreLive, Paid, PaidBy, Processed;
    var s', moved := Processed(s, log[n]), PaidBy(created, log[n]);
    var before, paid := Outgoing.Pending(s), Paid(created, log, n);
    NextIsPending(s, created, log, n);
    ProcessMovesPending(s, created, log, n);
    forall t, u | t in before - moved && u in moved ensures t.id != u.id {
      if t.id == u.id {
        PendingIsUnique(s, t, u);
      }
    }
    InvBounds(s, moved);
    assert before - moved + (paid + moved) + refunded == before + paid + refunded;
  }

  lemma InvBounds(s: Outgoing.State, txs: set<Transfer>)
    requires Outgoing.Inv(s) && txs <= Outgoing.Pending(s)
    ensures Below(txs, s.nextTxId)
  {
    forall t | t in txs ensures 1 <= t.id < s.nextTxId {
      var p := Outgoing.PendingHasPlace(s, t);
    }
  }

  lemma ProcessKeepsPaidOnce(s: Outgoing.State, created: Created, log: seq<Claim>, n: nat)
    requires n < |log| && Outgoing.Inv(s) && LiveAreCreated(s, created) && ExecutedAreLive(s, log, n)
    requires PaidOnce(created, log, n) && Apart(Outgoing.Pending(s), Paid(created, log, n))
    ensures PaidOnce(created, log, n + 1)
  {
    forall i, j, a, b | 0 <= i < n + 1 && 0 <= j < n + 1
      && log[i].BatchSendToEth? && BatchOf(log[i]) in created && 0 <= a < |created[BatchOf(log[i])].txs|
      && log[j].BatchSendToEth? && BatchOf(log[j]) in created && 0 <= b < |created[BatchOf(log[j])].txs|
      && created[BatchOf(log[i])].txs[a].id == created[BatchOf(log[j])].txs[b].id
      ensures i == j && a == b
    {
      if i == n && j == n {
        LiveIsUnique(s, BatchOf(log[n]), a, b);
      } else if i == n {
        NextIsNotPaid(s, created, log, n, a, j, b);
      } else if j == n {
        NextIsNotPaid(s, created, log, n, b, i, a);
      }
    }
  }

  lemma LiveIsUnique(s: Outgoing.State, bk: Outgoing.BatchKey, a: nat, b: nat)
    requires Outgoing.Partition(s) && bk in s.batches
    requires a < |s.batches[bk].txs| && b < |s.batches[bk].txs| && s.batches[bk].txs[a].id == s.batches[bk].txs[b].id
    ensures a == b
  {
    assert Outgoing.Occupied(s, Outgoing.InBatch(bk, a)) && Outgoing.Occupied(s, Outgoing.InBatch(bk, b));
  }

  lemma NextIsNotPaid(s: Outgoing.State, created: Created, log: seq<Claim>, n: nat, a: nat, j: nat, b: nat)
    requires j < n < |log| && LiveAreCreated(s, created) && ExecutedAreLive(s, log, n)
    requires Apart(Outgoing.Pending(s), Paid(created, log, n))
    requires log[n].BatchSendToEth? && BatchOf(log[n]) in created && a < |created[BatchOf(log[n])].txs|
    requires log[j].BatchSendToEth? && BatchOf(log[j]) in created && b < |created[BatchOf(log[j])].txs|
    ensures created[BatchOf(log[n])].txs[a].id != created[BatchOf(log[j])].txs[b].id
  {
    Outgoing.PlaceIsPending(s, Outgoing.InBatch(BatchOf(log[n]), a));
    PaidMembers(created, log, n, created[BatchOf(log[j])].txs[b]);
    assert created[BatchOf(log[j])].txs[b] in PaidBy(created, log[j]);
  }

  /** Processing the next event keeps the joint invariant; if it is an executed batch, the batch is live. */
  lemma ProcessPreserves(s: Outgoing.State, created: Created, refunded: set<Transfer>, log: seq<Claim>, n: nat)
    requires Joint(s, created, refunded, log, n) && n < |log|
    ensures log[n].BatchSendToEth? ==> BatchOf(log[n]) in s.batches
    ensures Joint(Processed(s, log[n]), created, refunded, log, n + 1)
  {
    hide Outgoing.Keyed, Outgoing.Numbered, Outgoing.Partition, Outgoing.Pending, LogOk, LiveAreCreated, ExecutedAreLive,
      DeadAreDead, PaidOnce, Apart, Below, HasTransfer, Paid, Processed;
    NextIsPending(s, created, log, n);
    ProcessMovesPending(s, created, log, n);
    ProcessKeepsLive(s, created, log, n);
    ProcessKeepsDead(s, created, log, n);
    ProcessKeepsPaidOnce(s, created, log, n);
    ProcessKeepsAccounts(s, created, refunded, log, n);
  }

  // ---------- Timing batches out ----------

  ghost predicate ExecutedLater(log: seq<Claim>, n: nat, bk: Outgoing.BatchKey) {
    exists i :: n <= i < |log| && log[i].BatchSendToEth? && BatchOf(log[i]) == bk
  }

  /** Cleaning up at a height cancels no batch that Ethereum has executed or can still execute. */
  ghost predicate Spares(s: Outgoing.State, created: Created, log: seq<Claim>, n: nat, ethHeight: nat) {
    forall bk | bk in Outgoing.TimedOut(s, ethHeight) ::
      !ExecutedLater(log, n, bk) && (bk in created ==> OutOfReach(created, log, bk))
  }

  /** A cleanup that spares those batches keeps the joint invariant. */
  lemma CleanupPreserves(s: Outgoing.State, created: Created, refunded: set<Transfer>, log: seq<Claim>, n: nat, ethHeight: nat)
    requires Joint(s, created, refunded, log, n) && Spares(s, created, log, n, ethHeight)
    ensures Joint(Outgoing.Cancelled(s, Outgoing.TimedOut(s, ethHeight)), created, refunded, log, n)
  {
    var keys := Outgoing.TimedOut(s, ethHeight);
    assert forall i | n <= i < |log| && log[i].BatchSendToEth? :: ExecutedLater(log, n, BatchOf(log[i]));
    Outgoing.CancelPreserves(s, keys);
    Outgoing.CancelKeepsPending(s, keys);
    hide Outgoing.Inv, Outgoing.Pending, LogOk, PaidOnce, Apart, Below, HasTransfer, Paid, Outgoing.BatchTxs, Outgoing.AsPool,
      OutOfReach, ExecutedLater, Outgoing.TimedOut;
  }

  /** At or below the height of the last processed event a cleanup spares them: the events still to come are at or
      above that height, and their batches were executed before their timeouts. */
  lemma LowHeightSpares(s: Outgoing.State, created: Created, log: seq<Claim>, n: nat, ethHeight: nat)
    requires n <= |log| && ethHeight <= HeightAt(log, n) && LogOk(created, log) && LiveAreCreated(s, created)
    ensures Spares(s, created, log, n, ethHeight)
  {
    HeightsGrow(created, log, n, |log|);
    forall i | n <= i < |log| && log[i].BatchSendToEth?
      ensures BatchOf(log[i]) !in Outgoing.TimedOut(s, ethHeight)
    {
      HeightsGrow(created, log, n, i + 1);
      assert CanEmit(created, log[..i], log[i]);
    }
  }

  /** A transfer of an executed batch is pending or already counted as paid. */
  lemma ExecutedIsPendingOrPaid(s: Outgoing.State, created: Created, log: seq<Claim>, n: nat, i: nat, t: Transfer)
    requires n <= |log| && i < |log| && LiveAreCreated(s, created) && ExecutedAreLive(s, log, n)
    requires t in PaidBy(created, log[i])
    ensures if i < n then t in Paid(created, log, n) else t in Outgoing.Pending(s)
  {
    if i < n {
      PaidMembers(created, log, n, t);
    } else {
      var bk := BatchOf(log[i]);
      var a :| 0 <= a < |s.batches[bk].txs| && s.batches[bk].txs[a] == t;
      Outgoing.PlaceIsPending(s, Outgoing.InBatch(bk, a));
    }
  }

  // ---------- The Ethereum contract emits an event ----------

  lemma {:induction false} PaidIgnoresRest(created: Created, log: seq<Claim>, e: Claim, n: nat)
    requires n <= |log|
    ensures Paid(created, log + [e], n) == Paid(created, log, n)
    ensures HeightAt(log + [e], n) == HeightAt(log, n)
  {
    if n > 0 {
      PaidIgnoresRest(created, log, e, n - 1);
    }
  }

  lemma LogGrows(created: Created, log: seq<Claim>, e: Claim)
    requires LogOk(created, log) && CanEmit(created, log, e)
    ensures LogOk(created, log + [e])
  {
    var log' := log + [e];
    forall i | 0 <= i < |log'| ensures CanEmit(created, log'[..i], log'[i]) {
      if i < |log| {
        assert log'[..i] == log[..i];
        assert CanEmit(created, log[..i], log[i]);
      } else {
        assert log'[..i] == log;
      }
    }
  }

  /** A batch that Ethereum can execute now is live on Cosmos. */
  lemma ExecutableIsLive(s: Outgoing.State, created: Created, log: seq<Claim>, e: Claim)
    requires DeadAreDead(s, created, log)
    requires CanEmit(created, log, e) && e.BatchSendToEth?
    ensures BatchOf(e) in s.batches
  {
  }

  lemma StaysOutOfReach(created: Created, log: seq<Claim>, e: Claim, bk: Outgoing.BatchKey)
    requires bk in created && OutOfReach(created, log, bk) && CanEmit(created, log, e)
    ensures OutOfReach(created, log + [e], bk)
  {
    var log' := log + [e];
    if Overtaken(log, |log|, bk) {
      var i :| 0 <= i < |log| && log[i].BatchSendToEth? && log[i].contract == bk.contract && log[i].batchNonce >= bk.nonce;
      assert log'[i] == log[i];
    }
  }

  lemma EmitPreserves(s: Outgoing.State, created: Created, refunded: set<Transfer>, log: seq<Claim>, n: nat, e: Claim)
    requires Joint(s, created, refunded, log, n) && CanEmit(created, log, e)
    ensures Joint(s, created, refunded, log + [e], n)
  {
    var log' := log + [e];
    LogGrows(created, log, e);
    PaidIgnoresRest(created, log, e, n);
    if e.BatchSendToEth? {
      ExecutableIsLive(s, created, log, e);
    }
    hide Outgoing.Inv, CanEmit, Apart, Below, HasTransfer, Paid, Outgoing.Pending, OutOfReach;
    assert ExecutedAreLive(s, log', n);
    forall bk | bk in created && bk !in s.batches ensures OutOfReach(created, log', bk) {
      StaysOutOfReach(created, log, e, bk);
    }
    assert forall i | 0 <= i < n :: log'[i] == log[i];
  }

  // ---------- Messages ----------

  lemma LoggedAreCreated(created: Created, log: seq<Claim>, i: nat)
    requires LogOk(created, log) && i < |log| && log[i].BatchSendToEth?
    ensures BatchOf(log[i]) in created
  {
    assert CanEmit(created, log[..i], log[i]);
  }

  lemma {:induction false} PaidIgnoresNew(created: Created, log: seq<Claim>, n: nat, bk: Outgoing.BatchKey, b: Batch)
    requires LogOk(created, log) && n <= |log| && bk !in created
    ensures Paid(created[bk := b], log, n) == Paid(created, log, n)
  {
    if n > 0 {
      PaidIgnoresNew(created, log, n - 1, bk, b);
      if log[n - 1].BatchSendToEth? {
        LoggedAreCreated(created, log, n - 1);
      }
    }
  }

  lemma LogIgnoresNew(created: Created, log: seq<Claim>, n: nat, bk: Outgoing.BatchKey, b: Batch)
    requires LogOk(created, log) && n <= |log| && bk !in created
    ensures LogOk(created[bk := b], log)
    ensures PaidOnce(created, log, n) ==> PaidOnce(created[bk := b], log, n)
  {
    forall i | 0 <= i < |log| ensures CanEmit(created[bk := b], log[..i], log[i]) {
      assert CanEmit(created, log[..i], log[i]);
    }
    forall i | 0 <= i < |log| && log[i].BatchSendToEth? ensures BatchOf(log[i]) in created {
      LoggedAreCreated(created, log, i);
    }
  }

  lemma StillOutOfReach(created: Created, log: seq<Claim>, bk: Outgoing.BatchKey, b: Batch)
    requires bk !in created
    ensures forall k | k in created && OutOfReach(created, log, k) :: OutOfReach(created[bk := b], log, k)
  {
  }

  lemma BuildPreserves(s: Outgoing.State, created: Created, refunded: set<Transfer>, log: seq<Claim>, n: nat,
                       contract: string, max: nat, timeout: nat, block: nat)
    requires Joint(s, created, refunded, log, n)
    ensures var s' := Selection.Moved(s, contract, max, timeout, block);
      var bk := Outgoing.BatchKey(contract, s.nextBatchId);
      Joint(s', created[bk := s'.batches[bk]], refunded, log, n)
  {
    var s' := Selection.Moved(s, contract, max, timeout, block);
    var bk := Outgoing.BatchKey(contract, s.nextBatchId);
    Selection.MovedPreserves(s, contract, max, timeout, block);
    Selection.MovedKeepsPending(s, contract, max, timeout, block);
    PaidIgnoresNew(created, log, n, bk, s'.batches[bk]);
    LogIgnoresNew(created, log, n, bk, s'.batches[bk]);
    StillOutOfReach(created, log, bk, s'.batches[bk]);
    hide Outgoing.Inv, Apart, Below, HasTransfer, Paid, Outgoing.Pending, LogOk, PaidOnce, Selection.Picked, Selection.PickedKeys, OutOfReach;
  }

  lemma EnqueuePreserves(s: Outgoing.State, created: Created, refunded: set<Transfer>, log: seq<Claim>, n: nat,
                         sender: string, dest: string, contract: string, amount: nat, fee: nat)
    requires Joint(s, created, refunded, log, n)
    ensures Joint(Outgoing.Enqueue(s, sender, dest, contract, amount, fee), created, refunded, log, n)
  {
    var s' := Outgoing.Enqueue(s, sender, dest, contract, amount, fee);
    var tx := Transfer(s.nextTxId, sender, dest, ERC20Token(contract, amount), ERC20Token(contract, fee));
    Outgoing.EnqueuePreserves(s, sender, dest, contract, amount, fee);
    hide Outgoing.Inv, Paid, Outgoing.Pending, LogOk, PaidOnce;
    var paid := Paid(created, log, n);
    forall id | 1 <= id < s'.nextTxId ensures HasTransfer(Outgoing.Pending(s') + paid + refunded, id) {
      if id == s.nextTxId {
        assert tx in Outgoing.Pending(s') + paid + refunded;
      } else {
        assert HasTransfer(Outgoing.Pending(s) + paid + refunded, id);
      }
    }
  }

  lemma RefundPreserves(s: Outgoing.State, created: Created, refunded: set<Transfer>, log: seq<Claim>, n: nat, k: Outgoing.PoolKey)
    requires Joint(s, created, refunded, log, n) && k in s.pool
    ensures Joint(Outgoing.Drop(s, k), created, refunded + {s.pool[k]}, log, n)
  {
    var s', tx := Outgoing.Drop(s, k), s.pool[k];
    Outgoing.DropPreserves(s, k);
    Outgoing.PlaceIsPending(s, Outgoing.InPool(k));
    forall t | t in Outgoing.Pending(s') ensures t.id != tx.id {
      if t.id == tx.id {
        PendingIsUnique(s, t, tx);
      }
    }
    InvBounds(s, {tx});
    hide Outgoing.Inv, Paid, Outgoing.Pending, LogOk, PaidOnce, HasTransfer;
    var paid := Paid(created, log, n);
    assert Outgoing.Pending(s') + paid + (refunded + {tx}) == Outgoing.Pending(s) + paid + refunded;
  }
}
