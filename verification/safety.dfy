/** Exactly which cleanups are safe over whole runs. The runs here are honest, but nothing is assumed about the heights
    that their blocks observe. */
module Safety {
  import opened Types
  import opened Bridge
  import opened Run
  import Ethereum
  import Ledger
  import Oracle
  import Outgoing
  import Selection

  // ---------- What a cleanup must not cancel ----------

  /** Ethereum has paid the transfer with this id, or can pay it next. */
  ghost predicate Payable(created: Created, log: seq<Claim>, id: nat) {
    exists t: Transfer :: t.id == id && PaysFor(created, log, t)
  }

  ghost predicate PaysFor(created: Created, log: seq<Claim>, t: Transfer) {
    t in Paid(created, log, |log|) || exists e :: CanEmit(created, log, e) && t in PaidBy(created, e)
  }

  /** No transfer that its sender could take back has been or can be paid. */
  ghost predicate PoolIsSafe(s: Outgoing.State, created: Created, log: seq<Claim>) {
    forall k | k in s.pool :: !Payable(created, log, s.pool[k].id)
  }

  /** Being out of reach is exactly that no next event can execute the batch. */
  lemma OutOfReachIff(created: Created, log: seq<Claim>, bk: Outgoing.BatchKey)
    requires bk in created
    ensures OutOfReach(created, log, bk) <==> !exists e :: CanEmit(created, log, e) && e.BatchSendToEth? && BatchOf(e) == bk
  {
    if !OutOfReach(created, log, bk) {
      var e := BatchSendToEth(|log| + 1, HeightAt(log, |log|), bk.nonce, bk.contract);
      assert forall i | 0 <= i < |log| && log[i].BatchSendToEth? && log[i].contract == bk.contract :: log[i].batchNonce < bk.nonce;
      assert CanEmit(created, log, e) && BatchOf(e) == bk;
    }
  }

  /** Transfers of live batches have other ids than those in the pool. */
  lemma LiveIsNotInPool(s: Outgoing.State, bk: Outgoing.BatchKey, t: Transfer, k: Outgoing.PoolKey)
    requires Outgoing.Partition(s) && bk in s.batches && t in s.batches[bk].txs && k in s.pool
    ensures t.id != s.pool[k].id
  {
    var a :| 0 <= a < |s.batches[bk].txs| && s.batches[bk].txs[a] == t;
    assert Outgoing.Occupied(s, Outgoing.InBatch(bk, a)) && Outgoing.Occupied(s, Outgoing.InPool(k));
  }

  lemma PaidIsNotInPool(s: Outgoing.State, created: Created, refunded: set<Transfer>, log: seq<Claim>, n: nat, t: Transfer, k: Outgoing.PoolKey)
    requires Joint(s, created, refunded, log, n) && t in Paid(created, log, |log|) && k in s.pool
    ensures t.id != s.pool[k].id
  {
    PaidMembers(created, log, |log|, t);
    var i :| 0 <= i < |log| && t in PaidBy(created, log[i]);
    if i < n {
      PaidMembers(created, log, n, t);
      Outgoing.PlaceIsPending(s, Outgoing.InPool(k));
      hide Outgoing.Inv, LogOk, DeadAreDead, PaidOnce, Paid, PaidBy, Outgoing.Pending;
    } else {
      LiveIsNotInPool(s, BatchOf(log[i]), t, k);
    }
  }

  /** In a state of the joint invariant the pool is safe. */
  lemma JointPoolIsSafe(s: Outgoing.State, created: Created, refunded: set<Transfer>, log: seq<Claim>, n: nat)
    requires Joint(s, created, refunded, log, n)
    ensures PoolIsSafe(s, created, log)
  {
    forall k, t: Transfer | k in s.pool && PaysFor(created, log, t) ensures t.id != s.pool[k].id {
      if t in Paid(created, log, |log|) {
        PaidIsNotInPool(s, created, refunded, log, n, t, k);
      } else {
        var e :| CanEmit(created, log, e) && t in PaidBy(created, e);
        ExecutableIsLive(s, created, log, e);
        LiveIsNotInPool(s, BatchOf(e), t, k);
      }
    }
  }

  /** A batch that a cleanup must not cancel has a transfer that Ethereum has paid or can pay next. */
  lemma UnsparedIsPayable(s: Outgoing.State, created: Created, log: seq<Claim>, n: nat, bk: Outgoing.BatchKey)
    requires LiveAreCreated(s, created) && bk in s.batches && s.batches[bk].txs != []
    requires ExecutedLater(log, n, bk) || !OutOfReach(created, log, bk)
    ensures PaysFor(created, log, s.batches[bk].txs[0])
  {
    var t := s.batches[bk].txs[0];
    if ExecutedLater(log, n, bk) {
      var i :| n <= i < |log| && log[i].BatchSendToEth? && BatchOf(log[i]) == bk;
      assert t in PaidBy(created, log[i]);
      PaidMembers(created, log, |log|, t);
    } else {
      OutOfReachIff(created, log, bk);
      var e :| CanEmit(created, log, e) && e.BatchSendToEth? && BatchOf(e) == bk;
      assert t in PaidBy(created, e);
    }
  }

  /** A cleanup leaves a safe pool exactly if it spares what Ethereum has executed or can still execute. */
  lemma CleanupIsSafeIff(s: Outgoing.State, created: Created, refunded: set<Transfer>, log: seq<Claim>, n: nat, ethHeight: nat)
    requires Joint(s, created, refunded, log, n) && forall bk | bk in s.batches :: s.batches[bk].txs != []
    ensures PoolIsSafe(Outgoing.Cancelled(s, Outgoing.TimedOut(s, ethHeight)), created, log) <==> Spares(s, created, log, n, ethHeight)
  {
    var keys := Outgoing.TimedOut(s, ethHeight);
    var s' := Outgoing.Cancelled(s, keys);
    if Spares(s, created, log, n, ethHeight) {
      CleanupPreserves(s, created, refunded, log, n, ethHeight);
      JointPoolIsSafe(s', created, refunded, log, n);
    } else {
      var bk :| bk in keys && !(!ExecutedLater(log, n, bk) && (bk in created ==> OutOfReach(created, log, bk)));
      UnsparedIsPayable(s, created, log, n, bk);
      var t := s.batches[bk].txs[0];
      Outgoing.ReleasedIsInPool(s, keys, t) by {
        assert t in Outgoing.BatchTxs(s, keys);
      }
      assert Payable(created, log, s'.pool[Outgoing.KeyOf(t)].id);
    }
  }

  // ---------- Honest runs ----------

  /** A run, but for what its cleanups cancel. */
  ghost predicate IsHonestRun(ws: seq<World>, steps: seq<Step>, honest: set<string>) {
    && |ws| == |steps| + 1
    && IsStart(ws[0])
    && forall i | 0 <= i < |steps| :: Next(ws[i], steps[i], ws[i + 1]) && Honest(ws[i], steps[i], honest)
  }

  /** No sender can take back a transfer that Ethereum has paid or can pay next. */
  ghost predicate IsSafe(w: World) {
    PoolIsSafe(w.ledger.outgoing, w.created, w.log)
  }

  // ---------- Batches are never empty ----------

  ghost predicate NoneEmpty(w: World) {
    forall bk | bk in w.created :: w.created[bk].txs != []
  }

  lemma BuiltIsNotEmpty(s: Outgoing.State, last: Option<Batch>, contract: string, timeout: nat, block: nat)
    ensures var r := Selection.Build(s, last, contract, BATCH_SIZE, timeout, block).1; r.Built? ==> r.batch.txs != []
  {
  }

  lemma NextKeepsNoneEmpty(w: World, step: Step, w': World)
    requires NoneEmpty(w) && Next(w, step, w')
    ensures NoneEmpty(w')
  {
    if step.RequestBatch? && Ledger.DenomToERC20(w.ledger, step.denom).Some? {
      var timeout := Outgoing.BatchTimeout(step.params, w.oracle.ethHeight, w.oracle.cosmosHeight, w.height);
      BuiltIsNotEmpty(w.ledger.outgoing, step.last, Ledger.DenomToERC20(w.ledger, step.denom).value.name, timeout, w.height);
      hide Selection.Build, Outgoing.BatchTimeout, Ledger.DenomToERC20, Selection.IsLast;
    } else {
      assert w'.created == w.created;
    }
  }

  // ---------- One block ----------

  /** A block leaves a safe pool exactly if its cleanup spares what Ethereum has executed or can still execute. */
  lemma BlockIsSafeIff(w: World, step: Step, w': World, honest: set<string>)
    requires Run.Inv(w, honest) && NoneEmpty(w) && step.EndBlock? && Next(w, step, w') && Honest(w, step, honest)
    ensures IsSafe(w') <==> Spared(w, step)
  {
    var oracle, claims := BlockPreserves(w, step.m, step.pw, step.env, honest);
    var l := Ledger.HandleAll(w.ledger, claims, step.env).value;
    LiveAreNotEmpty(l.outgoing, w, oracle.lastObserved);
    hide Joint, Oracle.Inv, HonestVotes, Oracle.IsMapping, Oracle.Tally, Ledger.HandleAll, Honest, Spares, PoolIsSafe,
      Outgoing.Cancelled, Outgoing.TimedOut, NoneEmpty;
    CleanupIsSafeIff(l.outgoing, w.created, w.refunded, w.log, oracle.lastObserved, oracle.ethHeight);
  }

  lemma LiveAreNotEmpty(s: Outgoing.State, w: World, n: nat)
    requires Joint(s, w.created, w.refunded, w.log, n) && NoneEmpty(w)
    ensures forall bk | bk in s.batches :: s.batches[bk].txs != []
  {
  }

  // ---------- Runs ----------

  lemma InvIsSafe(w: World, honest: set<string>)
    requires Run.Inv(w, honest)
    ensures IsSafe(w)
  {
    JointPoolIsSafe(w.ledger.outgoing, w.created, w.refunded, w.log, w.oracle.lastObserved);
  }

  lemma OnlyBlocksCleanUp(w: World, step: Step)
    requires !step.EndBlock?
    ensures Spared(w, step)
  {
  }

  lemma StartIsFine(w: World, honest: set<string>)
    requires IsStart(w)
    ensures Run.Inv(w, honest) && NoneEmpty(w)
  {
    StartSatisfies(w, honest);
  }

  lemma {:induction false} SafeRunIsSpared(ws: seq<World>, steps: seq<Step>, honest: set<string>, i: nat)
    requires IsHonestRun(ws, steps, honest) && i < |ws| && forall j | 0 <= j < |ws| :: IsSafe(ws[j])
    ensures Run.Inv(ws[i], honest) && NoneEmpty(ws[i])
    ensures forall j | 0 <= j < i :: Spared(ws[j], steps[j])
  {
    hide Next, Honest, Spared, Run.Inv, NoneEmpty, IsSafe, IsStart;
    if i == 0 {
      StartIsFine(ws[0], honest);
    } else {
      var w, step, w' := ws[i - 1], steps[i - 1], ws[i];
      SafeRunIsSpared(ws, steps, honest, i - 1);
      assert Next(w, step, w') && Honest(w, step, honest) && IsSafe(ws[i]);
      if step.EndBlock? {
        BlockIsSafeIff(w, step, w', honest);
      } else {
        OnlyBlocksCleanUp(w, step);
      }
      NextKeepsNoneEmpty(w, step, w');
      NextPreserves(w, step, w', honest);
    }
  }

  /** Over every honest run: the pool is safe all the time exactly if every cleanup spares the batches that Ethereum
      has executed or can still execute. */
  lemma SafeIffSpared(ws: seq<World>, steps: seq<Step>, honest: set<string>)
    requires IsHonestRun(ws, steps, honest)
    ensures (forall i | 0 <= i < |ws| :: IsSafe(ws[i])) <==> forall i | 0 <= i < |steps| :: Spared(ws[i], steps[i])
  {
    hide Next, Honest, Spared, Run.Inv, NoneEmpty, IsSafe, IsStart;
    if forall i | 0 <= i < |ws| :: IsSafe(ws[i]) {
      SafeRunIsSpared(ws, steps, honest, |steps|);
    }
    if forall i | 0 <= i < |steps| :: Spared(ws[i], steps[i]) {
      assert IsRun(ws, steps, honest);
      forall i | 0 <= i < |ws| ensures IsSafe(ws[i]) {
        RunsSatisfy(ws, steps, honest, i);
        InvIsSafe(ws[i], honest);
      }
    }
  }

  // ---------- Right heights are enough ----------

  /** No observed height of an executed batch is above the one in the log. */
  ghost predicate HeightsBounded(claims: seq<Claim>, log: seq<Claim>) {
    forall c | c in claims && c.BatchSendToEth? && 1 <= c.eventNonce <= |log| && ClaimHash(c) == ClaimHash(log[c.eventNonce - 1]) ::
      c.height <= log[c.eventNonce - 1].height
  }

  ghost predicate HeightsHold(w: World, step: Step) {
    step.EndBlock? && Oracle.KeyedByNonce(step.m) ==> HeightsBounded(Oracle.Tally(w.oracle, step.m, step.pw, w.height).1, w.log)
  }

  ghost predicate HeightIsLow(w: World) {
    w.oracle.lastObserved <= |w.log| && w.oracle.ethHeight <= HeightAt(w.log, w.oracle.lastObserved)
  }

  /** Only the height of an executed batch can differ, and it is not overstated. */
  lemma HeightIsBounded(claims: seq<Claim>, log: seq<Claim>, c: Claim)
    requires c in claims && HeightsBounded(claims, log)
    requires 1 <= c.eventNonce <= |log| && ClaimHash(c) == ClaimHash(log[c.eventNonce - 1])
    ensures c.height <= log[c.eventNonce - 1].height
  {
  }

  lemma LastHeight(o: Oracle.State, o': Oracle.State, pw: Oracle.Powers, claims: seq<Claim>, log: seq<Claim>)
    requires Matches(claims, log, o.lastObserved) && HeightsBounded(claims, log) && Oracle.InOrder(o, pw, claims)
    requires o.ethHeight <= HeightAt(log, o.lastObserved) && o'.lastObserved == o.lastObserved + |claims|
    requires o'.ethHeight == (if claims == [] then o.ethHeight else claims[|claims| - 1].height)
    ensures o'.lastObserved <= |log| && o'.ethHeight <= HeightAt(log, o'.lastObserved)
  {
    hide HeightsBounded, ClaimHash, Oracle.HasQuorum;
    if claims != [] {
      HeightIsBounded(claims, log, claims[|claims| - 1]);
    }
  }

  lemma BoundedBlockSpares(w: World, step: Step, w': World, honest: set<string>)
    requires Run.Inv(w, honest) && HeightIsLow(w) && step.EndBlock? && Next(w, step, w') && Honest(w, step, honest)
    requires HeightsHold(w, step)
    ensures Spared(w, step) && HeightIsLow(w')
  {
    var oracle, claims := BlockPreserves(w, step.m, step.pw, step.env, honest);
    Oracle.MappingFrom(step.m, w.oracle);
    Oracle.TallyObservesInOrder(w.oracle, step.m, step.pw, w.height);
    hide Oracle.Inv, HonestVotes, Oracle.IsMapping, Oracle.Tally, Ledger.HandleAll, Honest, Spares, Matches, Oracle.InOrder, HeightsBounded, Joint;
    LastHeight(w.oracle, oracle, step.pw, claims, w.log);
    PrunedSame(oracle);
    var l := Ledger.HandleAll(w.ledger, claims, step.env).value;
    JointSpares(l.outgoing, w, oracle.lastObserved, oracle.ethHeight);
  }

  lemma JointSpares(s: Outgoing.State, w: World, n: nat, ethHeight: nat)
    requires Joint(s, w.created, w.refunded, w.log, n) && ethHeight <= HeightAt(w.log, n)
    ensures Spares(s, w.created, w.log, n, ethHeight)
  {
    LowHeightSpares(s, w.created, w.log, n, ethHeight);
  }

  lemma OthersKeepLow(w: World, step: Step, w': World)
    requires HeightIsLow(w) && !step.EndBlock? && Next(w, step, w')
    ensures HeightIsLow(w')
  {
    if step.Emit? {
      PaidIgnoresRest(w.created, w.log, step.event, w.oracle.lastObserved);
    }
  }

  lemma StartIsLow(w: World, honest: set<string>)
    requires IsStart(w)
    ensures Run.Inv(w, honest) && HeightIsLow(w)
  {
    StartSatisfies(w, honest);
  }

  lemma {:induction false} BoundedUpTo(ws: seq<World>, steps: seq<Step>, honest: set<string>, i: nat)
    requires IsHonestRun(ws, steps, honest) && i < |ws| && forall j | 0 <= j < |steps| :: HeightsHold(ws[j], steps[j])
    ensures Run.Inv(ws[i], honest) && HeightIsLow(ws[i])
    ensures forall j | 0 <= j < i :: Spared(ws[j], steps[j])
  {
    hide Next, Honest, Spared, Run.Inv, IsStart, HeightsHold, HeightIsLow;
    if i == 0 {
      StartIsLow(ws[0], honest);
    } else {
      var w, step, w' := ws[i - 1], steps[i - 1], ws[i];
      BoundedUpTo(ws, steps, honest, i - 1);
      assert Next(w, step, w') && Honest(w, step, honest) && HeightsHold(w, step);
      if step.EndBlock? {
        BoundedBlockSpares(w, step, w', honest);
      } else {
        OnlyBlocksCleanUp(w, step);
        OthersKeepLow(w, step, w');
      }
      NextPreserves(w, step, w', honest);
    }
  }

  /** Where no observed height is overstated, every cleanup spares what it must. An overstated height that times out
      no batch which Ethereum has executed or can still execute does no harm either. */
  lemma BoundedHeightsSuffice(ws: seq<World>, steps: seq<Step>, honest: set<string>)
    requires IsHonestRun(ws, steps, honest) && forall i | 0 <= i < |steps| :: HeightsHold(ws[i], steps[i])
    ensures IsRun(ws, steps, honest)
  {
    BoundedUpTo(ws, steps, honest, |steps|);
    hide Next, Honest, Spared, Run.Inv, IsStart, HeightsHold, HeightIsLow;
  }

  // ---------- An unsafe pool leads to a double payment ----------

  ghost predicate DoublyPaid(w: World) {
    exists t, u :: t in Paid(w.created, w.log, |w.log|) && u in w.refunded && t.id == u.id
  }

  /** Places are right, and every transfer has a sender, whatever the cleanups cancel. */
  ghost predicate Sent(s: Outgoing.State) {
    Outgoing.Inv(s) && forall t | t in Outgoing.Pending(s) :: t.sender != ""
  }

  lemma FewerStaySent(s: Outgoing.State, s': Outgoing.State)
    requires Sent(s) && Outgoing.Inv(s') && Outgoing.Pending(s') <= Outgoing.Pending(s)
    ensures Sent(s')
  {
  }

  lemma HandleKeepsSent(l: Ledger.State, c: Claim, env: Ledger.Env)
    requires Sent(l.outgoing) && Ledger.Handle(l, c, env).Ok?
    ensures Sent(Ledger.Handle(l, c, env).value.outgoing)
  {
    if c.BatchSendToEth? {
      Outgoing.ExecuteEffect(l.outgoing, c.contract, c.batchNonce);
      hide Outgoing.Inv, Outgoing.Pending, Outgoing.Executed;
      FewerStaySent(l.outgoing, Outgoing.Executed(l.outgoing, c.contract, c.batchNonce));
    }
  }

  lemma {:induction false} HandleAllKeepsSent(l: Ledger.State, claims: seq<Claim>, env: Ledger.Env)
    requires Sent(l.outgoing) && Ledger.HandleAll(l, claims, env).Some?
    ensures Sent(Ledger.HandleAll(l, claims, env).value.outgoing)
    decreases |claims|
  {
    hide Ledger.Handle, Sent;
    if claims != [] {
      match Ledger.Handle(l, claims[0], env)
      case Ok(l1) =>
        HandleKeepsSent(l, claims[0], env);
        HandleAllKeepsSent(l1, claims[1..], env);
      case Failed =>
        HandleAllKeepsSent(l, claims[1..], env);
    }
  }

  lemma CleanupKeepsSent(s: Outgoing.State, ethHeight: nat)
    requires Sent(s)
    ensures Sent(Outgoing.Cancelled(s, Outgoing.TimedOut(s, ethHeight)))
  {
    Outgoing.CancelPreserves(s, Outgoing.TimedOut(s, ethHeight));
    Outgoing.CancelKeepsPending(s, Outgoing.TimedOut(s, ethHeight));
  }

  lemma BlockKeepsSent(w: World, step: Step, w': World)
    requires Sent(w.ledger.outgoing) && step.EndBlock? && Next(w, step, w')
    ensures Sent(w'.ledger.outgoing)
  {
    assert Oracle.KeyedByNonce(step.m);
    hide Sent, Oracle.IsMapping, Oracle.Tally, Ledger.HandleAll;
    var (oracle, claims) := Oracle.Tally(w.oracle, step.m, step.pw, w.height);
    HandleAllKeepsSent(w.ledger, claims, step.env);
    CleanupKeepsSent(Ledger.HandleAll(w.ledger, claims, step.env).value.outgoing, oracle.ethHeight);
  }

  lemma SendKeepsSent(w: World, step: Step, w': World)
    requires Sent(w.ledger.outgoing) && step.SendToEth? && Next(w, step, w')
    ensures Sent(w'.ledger.outgoing)
  {
    if Ledger.AddToPool(w.ledger, step.sender, step.dest, step.amount, step.fee).Ok? {
      var contract := Ledger.DenomToERC20(w.ledger, step.amount.denom).value.name;
      Outgoing.EnqueuePreserves(w.ledger.outgoing, step.sender, step.dest, contract, step.amount.amount, step.fee.amount);
      hide Outgoing.Inv, Outgoing.Pending, Outgoing.Enqueue, Ledger.DenomToERC20, Ledger.Send, Ledger.Burn;
    }
  }

  lemma CancelKeepsSent(w: World, step: Step, w': World)
    requires Sent(w.ledger.outgoing) && step.CancelSendToEth? && Next(w, step, w')
    ensures Sent(w'.ledger.outgoing)
  {
    if Ledger.RemoveAndRefund(w.ledger, step.id, step.sender).Ok? {
      Outgoing.DropPreserves(w.ledger.outgoing, Ledger.EntryOf(w.ledger.outgoing, step.id));
      hide Outgoing.Inv, Outgoing.Pending, Outgoing.Drop;
    }
  }

  lemma RequestKeepsSent(w: World, step: Step, w': World)
    requires Sent(w.ledger.outgoing) && step.RequestBatch? && Next(w, step, w')
    ensures Sent(w'.ledger.outgoing)
  {
    if Ledger.DenomToERC20(w.ledger, step.denom).Some? {
      var timeout := Outgoing.BatchTimeout(step.params, w.oracle.ethHeight, w.oracle.cosmosHeight, w.height);
      var contract := Ledger.DenomToERC20(w.ledger, step.denom).value.name;
      Selection.MovedPreserves(w.ledger.outgoing, contract, BATCH_SIZE, timeout, w.height);
      Selection.MovedKeepsPending(w.ledger.outgoing, contract, BATCH_SIZE, timeout, w.height);
      hide Outgoing.Inv, Outgoing.Pending, Selection.Moved, Outgoing.BatchTimeout, Ledger.DenomToERC20;
    }
  }

  lemma {:induction false} HonestRunIsSent(ws: seq<World>, steps: seq<Step>, honest: set<string>, i: nat)
    requires IsHonestRun(ws, steps, honest) && i < |ws|
    ensures Sent(ws[i].ledger.outgoing)
  {
    if i > 0 {
      hide Honest, Sent, IsStart, Next;
      var w, step, w' := ws[i - 1], steps[i - 1], ws[i];
      HonestRunIsSent(ws, steps, honest, i - 1);
      assert Next(w, step, w');
      match step
      case SendToEth(_, _, _, _) => SendKeepsSent(w, step, w');
      case CancelSendToEth(_, _) => CancelKeepsSent(w, step, w');
      case RequestBatch(_, _, _) => RequestKeepsSent(w, step, w');
      case EndBlock(_, _, _) => BlockKeepsSent(w, step, w');
      case _ => SameOutgoing(w, step, w');
    }
  }

  lemma SameOutgoing(w: World, step: Step, w': World)
    requires (step.Vote? || step.Emit?) && Next(w, step, w')
    ensures w'.ledger == w.ledger
  {
  }

  lemma RefundSucceeds(l: Ledger.State, k: Outgoing.PoolKey)
    requires Outgoing.Inv(l.outgoing) && k in l.outgoing.pool
    requires var t := l.outgoing.pool[k]; t.sender != "" && t.token.contract !in l.erc20ToDenom
    ensures var t := l.outgoing.pool[k];
      && Ledger.RemoveAndRefund(l, t.id, t.sender).Ok?
      && Ledger.HasId(l.outgoing, t.id) && Ledger.EntryOf(l.outgoing, t.id) == k
  {
    var t := l.outgoing.pool[k];
    assert Outgoing.Occupied(l.outgoing, Outgoing.InPool(k)) && Outgoing.At(l.outgoing, Outgoing.InPool(k)) == t;
    assert Ledger.HasId(l.outgoing, t.id);
    var k' := Ledger.EntryOf(l.outgoing, t.id);
    assert Outgoing.Occupied(l.outgoing, Outgoing.InPool(k')) && Outgoing.At(l.outgoing, Outgoing.InPool(k')).id == t.id;
    hide Outgoing.Inv, Ethereum.GravityDenom;
  }

  /** Where the pool is not safe, and the transfer is of a token that is not cosmos-originated, its sender can take
      it back and, if Ethereum has not paid it yet, Ethereum can pay it then. */
  lemma UnsafeLeadsToDoublePay(w: World, k: Outgoing.PoolKey, honest: set<string>) returns (w1: World, w2: World, cancel: Step)
    requires Outgoing.Inv(w.ledger.outgoing) && k in w.ledger.outgoing.pool
    requires var t := w.ledger.outgoing.pool[k];
      Payable(w.created, w.log, t.id) && t.sender != "" && t.token.contract !in w.ledger.erc20ToDenom
    ensures cancel.CancelSendToEth? && Next(w, cancel, w1) && Honest(w, cancel, honest)
    ensures w2 == w1 || exists e :: Next(w1, Emit(e), w2) && Honest(w1, Emit(e), honest)
    ensures DoublyPaid(w2)
  {
    var t := w.ledger.outgoing.pool[k];
    RefundSucceeds(w.ledger, k);
    cancel := CancelSendToEth(t.id, t.sender);
    hide Ledger.RemoveAndRefund, Outgoing.Inv, CanEmit;
    w1 := w.(ledger := Ledger.RemoveAndRefund(w.ledger, t.id, t.sender).value, refunded := w.refunded + {t});
    var u: Transfer :| u.id == t.id && PaysFor(w.created, w.log, u);
    if u in Paid(w.created, w.log, |w.log|) {
      w2 := w1;
    } else {
      var e :| CanEmit(w.created, w.log, e) && u in PaidBy(w.created, e);
      w2 := w1.(log := w1.log + [e]);
      assert Next(w1, Emit(e), w2);
      PaidIgnoresRest(w.created, w.log, e, |w.log|);
    }
    assert t in w2.refunded && u in Paid(w2.created, w2.log, |w2.log|);
  }

  /** So at every unsafe point of an honest run, if the transfer is of a token that is not cosmos-originated, one or two
      more honest steps lead to a transfer id that is both paid and refunded. */
  lemma UnsafeRunLeadsToDoublePay(ws: seq<World>, steps: seq<Step>, honest: set<string>, k: Outgoing.PoolKey)
      returns (w1: World, w2: World, cancel: Step)
    requires IsHonestRun(ws, steps, honest)
    requires var w := ws[|steps|];
      && k in w.ledger.outgoing.pool && Payable(w.created, w.log, w.ledger.outgoing.pool[k].id)
      && w.ledger.outgoing.pool[k].token.contract !in w.ledger.erc20ToDenom
    ensures cancel.CancelSendToEth? && Next(ws[|steps|], cancel, w1) && Honest(ws[|steps|], cancel, honest)
    ensures w2 == w1 || exists e :: Next(w1, Emit(e), w2) && Honest(w1, Emit(e), honest)
    ensures DoublyPaid(w2)
  {
    var w := ws[|steps|];
    HonestRunIsSent(ws, steps, honest, |steps|);
    assert w.ledger.outgoing.pool[k] in Outgoing.Pending(w.ledger.outgoing);
    w1, w2, cancel := UnsafeLeadsToDoublePay(w, k, honest);
  }
}
