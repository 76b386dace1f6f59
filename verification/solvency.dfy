/** Conservation of the vouchers of an Ethereum-originated token over whole runs, and what follows for the token's
    holdings on Ethereum. */
module Solvency {
  import opened Types
  import opened Bridge
  import opened Run
  import opened Accounting
  import Ethereum
  import Outgoing
  import Selection
  import Ledger
  import Oracle

  /** What the first n events of the log deposited of a contract. */
  function Deposits(log: seq<Claim>, n: nat, contract: string): nat
    requires n <= |log|
  {
    if n == 0 then 0 else Deposits(log, n - 1, contract) + Deposited(log[n - 1], contract)
  }

  /** No event makes the contract or its voucher a cosmos-originated asset. */
  ghost predicate NotDeployed(log: seq<Claim>, contract: string) {
    forall e | e in log && e.ERC20Deployed? :: e.contract != contract && e.denom != Ethereum.GravityDenom(contract)
  }

  /** Vouchers, transfers on their way and transfers paid by processed batches add up to the deposits. */
  ghost predicate Balanced(l: Ledger.State, created: Created, log: seq<Claim>, n: nat, contract: string)
    requires n <= |log|
  {
    && EthOriginated(l, contract)
    && Indexed(l)
    && Claimable(l, contract) + Value(Paid(created, log, n), contract) == Deposits(log, n, contract)
  }

  lemma {:induction false} DepositsGrow(log: seq<Claim>, m: nat, n: nat, contract: string)
    requires m <= n <= |log|
    ensures Deposits(log, m, contract) <= Deposits(log, n, contract)
  {
    if m < n {
      DepositsGrow(log, m, n - 1, contract);
    }
  }

  lemma {:induction false} DepositsIgnoreRest(log: seq<Claim>, e: Claim, n: nat, contract: string)
    requires n <= |log|
    ensures Deposits(log + [e], n, contract) == Deposits(log, n, contract)
  {
    if n > 0 {
      DepositsIgnoreRest(log, e, n - 1, contract);
    }
  }

  // ---------- Applying observed events ----------

  lemma HandleKeepsIndex(l: Ledger.State, e: Claim, env: Ledger.Env, contract: string)
    requires EthOriginated(l, contract) && Indexed(l)
    requires e.ERC20Deployed? ==> e.contract != contract && e.denom != Ethereum.GravityDenom(contract)
    ensures EthOriginated(After(l, e, env), contract) && Indexed(After(l, e, env))
  {
  }

  lemma HandleKeepsBalance(l: Ledger.State, w: World, n: nat, env: Ledger.Env, contract: string)
    requires Joint(l.outgoing, w.created, w.refunded, w.log, n) && n < |w.log|
    requires Balanced(l, w.created, w.log, n, contract) && NotDeployed(w.log, contract) && NotSwapped(env, contract)
    ensures Balanced(After(l, w.log[n], env), w.created, w.log, n + 1, contract)
  {
    var e, paid := w.log[n], Paid(w.created, w.log, n);
    HandleKeepsIndex(l, e, env, contract);
    HandleChangesClaimable(l, e, env, contract);
    assert PaidOut(l.outgoing, e) == PaidBy(w.created, e) && Paid(w.created, w.log, n + 1) == paid + PaidBy(w.created, e);
    hide Outgoing.Inv, Outgoing.Pending, LogOk, LiveAreCreated, ExecutedAreLive, DeadAreDead, PaidOnce, Paid, PaidBy, PaidOut, EthOriginated;
    var moved := PaidBy(w.created, e);
    assert moved !! paid;
    ValueSplit(paid + moved, paid, contract);
    assert paid + moved - paid == moved;
  }

  lemma {:induction false} HandleAllKeepsBalance(l: Ledger.State, w: World, n: nat, claims: seq<Claim>, env: Ledger.Env, contract: string)
    requires Joint(l.outgoing, w.created, w.refunded, w.log, n)
    requires Matches(claims, w.log, n)
    requires Balanced(l, w.created, w.log, n, contract) && NotDeployed(w.log, contract) && NotSwapped(env, contract)
    requires Ledger.HandleAll(l, claims, env).Some?
    ensures Balanced(Ledger.HandleAll(l, claims, env).value, w.created, w.log, n + |claims|, contract)
    decreases |claims|
  {
    hide Joint, Balanced, Ledger.Handle, NotDeployed, ClaimHash;
    if claims != [] {
      assert ClaimHash(claims[0]) == ClaimHash(w.log[n]);
      HandleByHash(l, claims[0], w.log[n], env);
      HandleKeepsBalance(l, w, n, env, contract);
      ProcessPreserves(l.outgoing, w.created, w.refunded, w.log, n);
      HandleProcesses(l, claims[0], env);
      HandleAllKeepsBalance(After(l, claims[0], env), w, n + 1, claims[1..], env, contract);
    }
  }

  // ---------- Steps ----------

  ghost predicate Inv(w: World, honest: set<string>, contract: string) {
    && Run.Inv(w, honest)
    && Balanced(w.ledger, w.created, w.log, w.oracle.lastObserved, contract)
  }

  lemma SendKeepsBalance(w: World, step: Step, w': World, honest: set<string>, contract: string)
    requires Inv(w, honest, contract) && step.SendToEth? && Next(w, step, w')
    ensures Balanced(w'.ledger, w'.created, w'.log, w.oracle.lastObserved, contract)
  {
    var r := Ledger.AddToPool(w.ledger, step.sender, step.dest, step.amount, step.fee);
    if r.Ok? {
      AddKeepsClaimable(w.ledger, step.sender, step.dest, step.amount, step.fee, contract);
    }
  }

  lemma CancelKeepsBalance(w: World, step: Step, w': World, honest: set<string>, contract: string)
    requires Inv(w, honest, contract) && step.CancelSendToEth? && Next(w, step, w')
    ensures Balanced(w'.ledger, w'.created, w'.log, w.oracle.lastObserved, contract)
  {
    hide Oracle.Inv, HonestVotes, Outgoing.Inv, LogOk, LiveAreCreated, ExecutedAreLive, DeadAreDead, PaidOnce, Accounted, Claimable, Paid;
    if Ledger.RemoveAndRefund(w.ledger, step.id, step.sender).Ok? {
      RefundKeepsClaimable(w.ledger, step.id, step.sender, contract);
    }
  }

  lemma RequestKeepsBalance(w: World, step: Step, w': World, honest: set<string>, contract: string)
    requires Inv(w, honest, contract) && step.RequestBatch? && Next(w, step, w')
    ensures Balanced(w'.ledger, w'.created, w'.log, w.oracle.lastObserved, contract)
  {
    if Ledger.DenomToERC20(w.ledger, step.denom).Some? {
      var c := Ledger.DenomToERC20(w.ledger, step.denom).value.name;
      BuildKeepsBalance(w, c, step.last, step.params, contract);
    }
  }

  lemma BuildKeepsBalance(w: World, c: string, last: Option<Batch>, params: Outgoing.TimeParams, contract: string)
    requires Joint(w.ledger.outgoing, w.created, w.refunded, w.log, w.oracle.lastObserved)
    requires Balanced(w.ledger, w.created, w.log, w.oracle.lastObserved, contract) && params.averageEthereumBlockTime > 0
    ensures var w' := Requested(w, c, last, params); Balanced(w'.ledger, w'.created, w'.log, w.oracle.lastObserved, contract)
  {
    var s := w.ledger.outgoing;
    var timeout := Outgoing.BatchTimeout(params, w.oracle.ethHeight, w.oracle.cosmosHeight, w.height);
    var bk := Outgoing.BatchKey(c, s.nextBatchId);
    Selection.MovedKeepsPending(s, c, BATCH_SIZE, timeout, w.height);
    PaidIgnoresNew(w.created, w.log, w.oracle.lastObserved, bk, Selection.Moved(s, c, BATCH_SIZE, timeout, w.height).batches[bk]);
    MovedUnderNextId(s, c, BATCH_SIZE, timeout, w.height);
    hide Outgoing.Inv, LogOk, LiveAreCreated, ExecutedAreLive, DeadAreDead, PaidOnce, Accounted, Paid, Outgoing.Pending, Selection.Moved, Outgoing.BatchTimeout;
  }

  lemma BlockKeepsBalance(w: World, step: Step, w': World, honest: set<string>, contract: string)
    requires Inv(w, honest, contract) && step.EndBlock? && Next(w, step, w') && Assumed(w, step, honest)
    requires NotDeployed(w.log, contract) && NotSwapped(step.env, contract)
    ensures w'.oracle.lastObserved <= |w'.log|
    ensures Balanced(w'.ledger, w'.created, w'.log, w'.oracle.lastObserved, contract)
  {
    hide Joint, Balanced, Oracle.Inv, HonestVotes, NotDeployed, Ledger.HandleAll, Oracle.Tally, Cleaned, Honest, Spared;
    var oracle, claims := BlockPreserves(w, step.m, step.pw, step.env, honest);
    HandleAllPreserves(w.ledger, w, w.oracle.lastObserved, claims, step.env);
    HandleAllKeepsBalance(w.ledger, w, w.oracle.lastObserved, claims, step.env, contract);
    var l := Ledger.HandleAll(w.ledger, claims, step.env).value;
    CleanupKeepsBalance(l, w, oracle.lastObserved, oracle.ethHeight, contract);
    PrunedSame(oracle);
  }

  lemma CleanupKeepsBalance(l: Ledger.State, w: World, n: nat, ethHeight: nat, contract: string)
    requires Joint(l.outgoing, w.created, w.refunded, w.log, n) && Balanced(l, w.created, w.log, n, contract)
    ensures Balanced(Cleaned(l, ethHeight), w.created, w.log, n, contract)
  {
    Outgoing.CancelKeepsPending(l.outgoing, Outgoing.TimedOut(l.outgoing, ethHeight));
    hide Outgoing.Inv, Outgoing.Pending, Joint, Paid;
  }

  lemma EmitKeepsBalance(w: World, e: Claim, contract: string)
    requires w.oracle.lastObserved <= |w.log| && Balanced(w.ledger, w.created, w.log, w.oracle.lastObserved, contract)
    ensures Balanced(w.ledger, w.created, w.log + [e], w.oracle.lastObserved, contract)
  {
    PaidIgnoresRest(w.created, w.log, e, w.oracle.lastObserved);
    DepositsIgnoreRest(w.log, e, w.oracle.lastObserved, contract);
  }

  lemma NextKeepsBalance(w: World, step: Step, w': World, honest: set<string>, contract: string)
    requires Inv(w, honest, contract) && Next(w, step, w') && Assumed(w, step, honest)
    requires NotDeployed(w.log, contract) && (step.EndBlock? ==> NotSwapped(step.env, contract))
    ensures Inv(w', honest, contract)
  {
    NextPreserves(w, step, w', honest);
    JointBounds(w, w.oracle.lastObserved);
    hide Run.Inv, Balanced, NotDeployed, NotSwapped, Assumed;
    match step
    case SendToEth(_, _, _, _) => SendKeepsBalance(w, step, w', honest, contract);
    case CancelSendToEth(_, _) => CancelKeepsBalance(w, step, w', honest, contract);
    case RequestBatch(_, _, _) => RequestKeepsBalance(w, step, w', honest, contract);
    case Vote(_, _) =>
    case Emit(e) => EmitKeepsBalance(w, e, contract);
    case EndBlock(_, _, _) => BlockKeepsBalance(w, step, w', honest, contract);
  }

  // ---------- Runs ----------

  /** The run starts without vouchers of the contract and never swaps them for something else. */
  ghost predicate Clean(ws: seq<World>, steps: seq<Step>, contract: string)
    requires |ws| == |steps| + 1
  {
    && Ledger.Supply(ws[0].ledger.bank, Ethereum.GravityDenom(contract)) == 0
    && (forall i | 0 <= i < |steps| && steps[i].EndBlock? :: NotSwapped(steps[i].env, contract))
    && NotDeployed(ws[|steps|].log, contract)
  }

  lemma {:induction false} LogOnlyGrows(ws: seq<World>, steps: seq<Step>, honest: set<string>, i: nat, j: nat)
    requires IsRun(ws, steps, honest) && i <= j < |ws|
    ensures ws[i].log <= ws[j].log
  {
    if i < j {
      LogOnlyGrows(ws, steps, honest, i, j - 1);
      assert Next(ws[j - 1], steps[j - 1], ws[j]);
      LogGrowsOneStep(ws[j - 1], steps[j - 1], ws[j]);
    }
  }

  lemma LogGrowsOneStep(w: World, step: Step, w': World)
    requires Next(w, step, w')
    ensures w.log <= w'.log
  {
  }

  lemma {:induction false} RunsBalance(ws: seq<World>, steps: seq<Step>, honest: set<string>, contract: string, i: nat)
    requires IsRun(ws, steps, honest) && i < |ws| && Clean(ws, steps, contract)
    ensures Inv(ws[i], honest, contract)
  {
    hide Run.Inv, Balanced, Next, Assumed, IsStart;
    if i == 0 {
      StartSatisfies(ws[0], honest);
      StartBalances(ws[0], contract);
    } else {
      RunsBalance(ws, steps, honest, contract, i - 1);
      LogOnlyGrows(ws, steps, honest, i - 1, |steps|);
      assert NotDeployed(ws[i - 1].log, contract);
      NextKeepsBalance(ws[i - 1], steps[i - 1], ws[i], honest, contract);
    }
  }

  lemma StartBalances(w: World, contract: string)
    requires IsStart(w) && Ledger.Supply(w.ledger.bank, Ethereum.GravityDenom(contract)) == 0
    ensures w.oracle.lastObserved <= |w.log| && Balanced(w.ledger, w.created, w.log, w.oracle.lastObserved, contract)
  {
    assert Outgoing.Pending(w.ledger.outgoing) == {};
  }

  /** In every state of every run the deposits that were processed equal the vouchers in circulation plus the
      transfers on their way plus the transfers paid by processed batches. */
  lemma VouchersConserved(ws: seq<World>, steps: seq<Step>, honest: set<string>, contract: string, i: nat)
    requires IsRun(ws, steps, honest) && i < |ws| && Clean(ws, steps, contract)
    ensures var w := ws[i];
      var n := w.oracle.lastObserved;
      && n <= |w.log|
      && Deposits(w.log, n, contract)
         == Ledger.Supply(w.ledger.bank, Ethereum.GravityDenom(contract))
            + Value(Outgoing.Pending(w.ledger.outgoing), contract)
            + Value(Paid(w.created, w.log, n), contract)
  {
    RunsBalance(ws, steps, honest, contract, i);
  }

  /** So the contract on Ethereum never pays out more of the token than was deposited into it: what was executed
      but not yet processed is still pending on Cosmos. */
  lemma EthereumStaysSolvent(ws: seq<World>, steps: seq<Step>, honest: set<string>, contract: string, i: nat)
    requires IsRun(ws, steps, honest) && i < |ws| && Clean(ws, steps, contract)
    ensures var w := ws[i]; Value(Paid(w.created, w.log, |w.log|), contract) <= Deposits(w.log, |w.log|, contract)
  {
    RunsBalance(ws, steps, honest, contract, i);
    JointIsSolvent(ws[i], contract);
  }

  lemma JointIsSolvent(w: World, contract: string)
    requires Joint(w.ledger.outgoing, w.created, w.refunded, w.log, w.oracle.lastObserved)
    requires Balanced(w.ledger, w.created, w.log, w.oracle.lastObserved, contract)
    ensures Value(Paid(w.created, w.log, |w.log|), contract) <= Deposits(w.log, |w.log|, contract)
  {
    var s, n := w.ledger.outgoing, w.oracle.lastObserved;
    var paid, pending, all := Paid(w.created, w.log, n), Outgoing.Pending(s), Paid(w.created, w.log, |w.log|);
    forall t | t in all ensures t in paid + pending {
      PaidMembers(w.created, w.log, |w.log|, t);
      var i :| 0 <= i < |w.log| && t in PaidBy(w.created, w.log[i]);
      ExecutedIsPendingOrPaid(s, w.created, w.log, n, i, t);
    }
    assert paid !! pending;
    hide Joint, Outgoing.Pending, Paid;
    ValueSplit(paid + pending, all, contract);
    ValueSplit(paid + pending, paid, contract);
    assert paid + pending - paid == pending;
    DepositsGrow(w.log, n, |w.log|, contract);
  }
}
