/** The fees of successive batches over whole runs: exactly when the live batches of a token stay in fee order. */
module Fees {
  import opened Types
  import opened Bridge
  import opened Run
  import Outgoing
  import Selection
  import Ledger
  import Oracle

  ghost predicate InFeeOrder(s: Outgoing.State) {
    forall contract :: Selection.FeesNonDecreasing(s, contract)
  }

  /** The result of a request for a batch. */
  ghost function BuildOf(w: World, contract: string, last: Option<Batch>, params: Outgoing.TimeParams): Selection.BuildResult
    requires params.averageEthereumBlockTime > 0
  {
    var timeout := Outgoing.BatchTimeout(params, w.oracle.ethHeight, w.oracle.cosmosHeight, w.height);
    Selection.Build(w.ledger.outgoing, last, contract, BATCH_SIZE, timeout, w.height).1
  }

  /** The step is no request that builds a batch although the last live batch of the contract has more fees than
      predicted: the test that the reported fees were meant for. */
  ghost predicate Guarded(w: World, step: Step) {
    step.RequestBatch? && step.params.averageEthereumBlockTime > 0 && step.last.Some? ==>
      match Ledger.DenomToERC20(w.ledger, step.denom)
      case None => true
      case Some(lookup) =>
        BuildOf(w, lookup.name, step.last, step.params).Built? ==>
          Selection.FeeSum(step.last.value.txs) <= Selection.PredictedFee(w.ledger.outgoing.pool, lookup.name, BATCH_SIZE)
  }

  // ---------- Steps that only delete batches ----------

  ghost predicate Fewer(s: Outgoing.State, s': Outgoing.State) {
    forall bk | bk in s'.batches :: bk in s.batches && s'.batches[bk] == s.batches[bk]
  }

  lemma FewerKeepOrder(s: Outgoing.State, s': Outgoing.State)
    requires InFeeOrder(s) && Fewer(s, s')
    ensures InFeeOrder(s')
  {
    forall contract ensures Selection.FeesNonDecreasing(s', contract) {
      Selection.FewerBatchesKeepFeeOrder(s, s', contract);
    }
  }

  lemma HandleDeletes(l: Ledger.State, e: Claim, env: Ledger.Env)
    requires Ledger.Handle(l, e, env).Ok?
    ensures Fewer(l.outgoing, Ledger.Handle(l, e, env).value.outgoing)
  {
  }

  lemma {:induction false} HandleAllDeletes(l: Ledger.State, claims: seq<Claim>, env: Ledger.Env)
    requires Ledger.HandleAll(l, claims, env).Some?
    ensures Fewer(l.outgoing, Ledger.HandleAll(l, claims, env).value.outgoing)
    decreases |claims|
  {
    hide Ledger.Handle;
    if claims != [] {
      match Ledger.Handle(l, claims[0], env)
      case Ok(l1) =>
        HandleDeletes(l, claims[0], env);
        HandleAllDeletes(l1, claims[1..], env);
      case Failed =>
        HandleAllDeletes(l, claims[1..], env);
    }
  }

  lemma BlockDeletes(w: World, step: Step, w': World)
    requires step.EndBlock? && Next(w, step, w')
    ensures Fewer(w.ledger.outgoing, w'.ledger.outgoing)
  {
    assert Oracle.KeyedByNonce(step.m);
    hide Oracle.IsMapping, Oracle.Tally, Ledger.HandleAll, Outgoing.AsPool, Outgoing.BatchTxs;
    HandleAllDeletes(w.ledger, Oracle.Tally(w.oracle, step.m, step.pw, w.height).1, step.env);
  }

  // ---------- Requests ----------

  lemma RequestKeepsOrderIff(w: World, step: Step, w': World)
    requires Outgoing.Inv(w.ledger.outgoing) && InFeeOrder(w.ledger.outgoing)
    requires step.RequestBatch? && Next(w, step, w')
    ensures InFeeOrder(w'.ledger.outgoing) <==> Guarded(w, step)
  {
    var s := w.ledger.outgoing;
    if Ledger.DenomToERC20(w.ledger, step.denom).Some? {
      var contract := Ledger.DenomToERC20(w.ledger, step.denom).value.name;
      var timeout := Outgoing.BatchTimeout(step.params, w.oracle.ethHeight, w.oracle.cosmosHeight, w.height);
      hide Outgoing.BatchTimeout, Ledger.DenomToERC20, Outgoing.Inv, Selection.FeeSum, Selection.PredictedFee, Selection.Picked;
      if BuildOf(w, contract, step.last, step.params).Built? {
        assert Selection.FeesNonDecreasing(s, contract);
        Selection.BuildKeepsFeeOrderIff(s, step.last, contract, BATCH_SIZE, timeout, w.height);
        OthersStayInOrder(s, contract, timeout, w.height);
        hide Selection.FeesNonDecreasing, Selection.IsLast;
      }
    }
  }

  lemma OthersStayInOrder(s: Outgoing.State, contract: string, timeout: nat, block: nat)
    requires InFeeOrder(s)
    ensures forall c | c != contract ::
              Selection.FeesNonDecreasing(Selection.Moved(s, contract, BATCH_SIZE, timeout, block), c)
  {
    hide Selection.FeeSum, Selection.Picked, Selection.PickedKeys;
    var s' := Selection.Moved(s, contract, BATCH_SIZE, timeout, block);
    forall c | c != contract ensures Selection.FeesNonDecreasing(s', c) {
      assert Selection.FeesNonDecreasing(s, c);
      assert forall bk | bk in s'.batches && bk.contract == c :: bk in s.batches && s'.batches[bk] == s.batches[bk];
    }
  }

  // ---------- Runs ----------

  lemma NextKeepsOrderIff(w: World, step: Step, w': World)
    requires Outgoing.Inv(w.ledger.outgoing) && InFeeOrder(w.ledger.outgoing) && Next(w, step, w')
    ensures InFeeOrder(w'.ledger.outgoing) <==> Guarded(w, step)
  {
    if step.RequestBatch? {
      RequestKeepsOrderIff(w, step, w');
    } else {
      if step.EndBlock? {
        BlockDeletes(w, step, w');
      } else {
        assert w'.ledger.outgoing.batches == w.ledger.outgoing.batches;
      }
      FewerKeepOrder(w.ledger.outgoing, w'.ledger.outgoing);
    }
  }

  /** Over every run, the live batches of every token are in fee order all the time exactly if every request that
      built a batch would have passed the guard with the right fees of the last batch. */
  lemma {:induction false} FeeOrderIff(ws: seq<World>, steps: seq<Step>, honest: set<string>)
    requires IsRun(ws, steps, honest)
    ensures (forall i | 0 <= i < |ws| :: InFeeOrder(ws[i].ledger.outgoing)) <==> forall i | 0 <= i < |steps| :: Guarded(ws[i], steps[i])
  {
    forall i | 0 <= i < |ws| ensures Outgoing.Inv(ws[i].ledger.outgoing) {
      RunsSatisfy(ws, steps, honest, i);
    }
    hide Outgoing.Inv, Next, Assumed, InFeeOrder, Guarded;
    if forall i | 0 <= i < |steps| :: Guarded(ws[i], steps[i]) {
      forall i | 0 <= i < |ws| ensures InFeeOrder(ws[i].ledger.outgoing) {
        GuardedRunInOrder(ws, steps, honest, i);
      }
    }
    if forall i | 0 <= i < |ws| :: InFeeOrder(ws[i].ledger.outgoing) {
      forall i | 0 <= i < |steps| ensures Guarded(ws[i], steps[i]) {
        assert InFeeOrder(ws[i + 1].ledger.outgoing);
        NextKeepsOrderIff(ws[i], steps[i], ws[i + 1]);
      }
    }
  }

  lemma {:induction false} GuardedRunInOrder(ws: seq<World>, steps: seq<Step>, honest: set<string>, i: nat)
    requires IsRun(ws, steps, honest) && i < |ws| && forall j | 0 <= j < |steps| :: Guarded(ws[j], steps[j])
    ensures InFeeOrder(ws[i].ledger.outgoing)
  {
    if i == 0 {
      StartInOrder(ws[0]);
    } else {
      RunsSatisfy(ws, steps, honest, i - 1);
      assert Outgoing.Inv(ws[i - 1].ledger.outgoing);
      hide Outgoing.Inv, Next, Assumed, InFeeOrder, Guarded, IsStart;
      GuardedRunInOrder(ws, steps, honest, i - 1);
      NextKeepsOrderIff(ws[i - 1], steps[i - 1], ws[i]);
    }
  }

  lemma StartInOrder(w: World)
    requires IsStart(w)
    ensures InFeeOrder(w.ledger.outgoing)
  {
  }
}
