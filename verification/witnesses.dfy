/** Runs that show what fails: fees that fall, a chain that stops, and a transfer that is paid and refunded because
    an observed height was overstated. */
module Witnesses {
  import opened Types
  import opened Bridge
  import opened Run
  import Accounting
  import Ethereum
  import Outgoing
  import Selection
  import Ledger
  import Oracle
  import Safety

  const Params := Outgoing.TimeParams(5000, 15000, 43200000)

  const NoEnv := Ledger.Env("", "", map[])

  /** A start with an account "a" that holds `amount` vouchers of the contract. */
  function Start(contract: string, amount: nat): World {
    var denom := Ethereum.GravityDenom(contract);
    var bank := Ledger.Bank(map[Ledger.Holding("a", denom) := amount], map[denom := amount]);
    World(Ledger.Genesis.(bank := bank), Oracle.Genesis, 1, [], map[], {})
  }

  function Tx(id: nat, contract: string, amount: nat, fee: nat): Transfer {
    Transfer(id, "a", "b", ERC20Token(contract, amount), ERC20Token(contract, fee))
  }

  predicate HasVouchers(w: World, contract: string, amount: nat) {
    var denom := Ethereum.GravityDenom(contract);
    Ledger.Balance(w.ledger.bank, "a", denom) == amount == Ledger.Supply(w.ledger.bank, denom)
  }

  // ---------- Single steps ----------

  lemma SendStep(w: World, contract: string, amount: nat, fee: nat, held: nat) returns (step: Step, w': World)
    requires Ethereum.ValidEthAddress(contract) && HasVouchers(w, contract, held) && 0 < amount + fee <= held
    ensures step == SendToEth("a", "b", Ledger.Coin(Ethereum.GravityDenom(contract), amount), Ledger.Coin(Ethereum.GravityDenom(contract), fee))
    ensures Next(w, step, w')
    ensures HasVouchers(w', contract, held - (amount + fee))
    ensures w'.ledger.outgoing == Outgoing.Enqueue(w.ledger.outgoing, "a", "b", contract, amount, fee)
    ensures w' == w.(ledger := w'.ledger) && w'.ledger == w.ledger.(outgoing := w'.ledger.outgoing, bank := w'.ledger.bank)
  {
    var denom := Ethereum.GravityDenom(contract);
    Ethereum.DenomRoundTrip(denom, contract);
    hide Ethereum.GravityDenom, Ethereum.GravityDenomToERC20, Ethereum.ValidEthAddress;
    step := SendToEth("a", "b", Ledger.Coin(denom, amount), Ledger.Coin(denom, fee));
    w' := w.(ledger := Ledger.AddToPool(w.ledger, "a", "b", step.amount, step.fee).value.0);
  }

  /** A request while the pool holds one entry, before any event was observed. */
  lemma RequestStep(w: World, tx: Transfer, contract: string, last: Option<Batch>) returns (step: Step, w': World)
    requires Ethereum.ValidEthAddress(contract) && w.ledger.outgoing.pool == map[Outgoing.KeyOf(tx) := tx] && tx.fee.contract == contract
    requires Selection.IsLast(w.ledger.outgoing, contract, last) && w.oracle.ethHeight == 0
    ensures step == RequestBatch(Ethereum.GravityDenom(contract), last, Params)
    ensures Next(w, step, w')
    ensures var n := w.ledger.outgoing.nextBatchId;
      var b := Batch(n, 0, [tx], contract, w.height);
      w' == w.(ledger := w.ledger.(outgoing := w.ledger.outgoing.(pool := map[],
                                                                  batches := w.ledger.outgoing.batches[Outgoing.BatchKey(contract, n) := b],
                                                                  nextBatchId := n + 1)),
               created := w.created[Outgoing.BatchKey(contract, n) := b])
  {
    Ethereum.DenomRoundTrip(Ethereum.GravityDenom(contract), contract);
    var s := w.ledger.outgoing;
    Selection.SingletonPick(s.pool, Outgoing.KeyOf(tx), BATCH_SIZE);
    assert s.pool - Selection.Elements([Outgoing.KeyOf(tx)]) == map[];
    hide Ethereum.GravityDenom, Ethereum.GravityDenomToERC20, Ethereum.ValidEthAddress, Selection.IsLast, Selection.Picked,
         Selection.PickedKeys, Selection.PredictedFee;
    step := RequestBatch(Ethereum.GravityDenom(contract), last, Params);
    w' := Requested(w, contract, last, Params);
  }

  // ---------- Two batches ----------

  function AfterTwo(contract: string, fee1: nat, fee2: nat): Outgoing.State {
    Outgoing.State(map[],
                   map[Outgoing.BatchKey(contract, 1) := Batch(1, 0, [Tx(1, contract, 10, fee1)], contract, 1),
                       Outgoing.BatchKey(contract, 2) := Batch(2, 0, [Tx(2, contract, 10, fee2)], contract, 1)],
                   3, 3)
  }

  lemma SingleFee(tx: Transfer)
    ensures Selection.FeeSum([tx]) == tx.fee.amount
  {
    assert [tx][..0] == [];
  }

  lemma Extend(ws: seq<World>, steps: seq<Step>, honest: set<string>, step: Step, w: World)
    requires IsRun(ws, steps, honest) && Next(ws[|steps|], step, w) && Assumed(ws[|steps|], step, honest)
    ensures IsRun(ws + [w], steps + [step], honest)
  {
    hide Next, Assumed, IsStart;
    assert (ws + [w])[0] == ws[0];
  }

  lemma StartRun(w: World, honest: set<string>)
    requires IsStart(w)
    ensures IsRun([w], [], honest)
  {
  }

  /** A transfer of 10 into the empty pool, and a batch of it. */
  lemma SendAndRequest(ws0: seq<World>, steps0: seq<Step>, contract: string, fee: nat, held: nat, last: Option<Batch>, honest: set<string>)
      returns (ws: seq<World>, steps: seq<Step>)
    requires Ethereum.ValidEthAddress(contract) && IsRun(ws0, steps0, honest) && HasVouchers(ws0[|steps0|], contract, held)
    requires var w := ws0[|steps0|];
      w.ledger.outgoing.pool == map[] && Selection.IsLast(w.ledger.outgoing, contract, last) && w.oracle.ethHeight == 0 && 10 + fee <= held
    ensures IsRun(ws, steps, honest) && |steps| == |steps0| + 2 && HasVouchers(ws[|steps|], contract, held - (10 + fee))
    ensures var (w, w') := (ws0[|steps0|], ws[|steps|]);
      var s := w.ledger.outgoing;
      var bk := Outgoing.BatchKey(contract, s.nextBatchId);
      var b := Batch(s.nextBatchId, 0, [Tx(s.nextTxId, contract, 10, fee)], contract, w.height);
      && w'.ledger.outgoing == Outgoing.State(map[], s.batches[bk := b], s.nextTxId + 1, s.nextBatchId + 1)
      && w' == w.(ledger := w.ledger.(outgoing := w'.ledger.outgoing, bank := w'.ledger.bank), created := w.created[bk := b])
  {
    var w := ws0[|steps0|];
    var step1, w1 := SendStep(w, contract, 10, fee, held);
    Extend(ws0, steps0, honest, step1, w1);
    var tx := Tx(w.ledger.outgoing.nextTxId, contract, 10, fee);
    assert w1.ledger.outgoing.pool == map[Outgoing.KeyOf(tx) := tx];
    var step2, w2 := RequestStep(w1, tx, contract, last);
    ws, steps := ws0 + [w1] + [w2], steps0 + [step1] + [step2];
    hide Next, HasVouchers;
    Extend(ws0 + [w1], steps0 + [step1], honest, step2, w2);
    SameVouchers(w1, w2, contract, held - (10 + fee));
  }

  lemma SameVouchers(w: World, w': World, contract: string, held: nat)
    requires HasVouchers(w, contract, held) && w'.ledger.bank == w.ledger.bank
    ensures HasVouchers(w', contract, held)
  {
  }

  /** Two transfers of 10, each put into a batch of its own. */
  lemma TwoBatches(contract: string, fee1: nat, fee2: nat, honest: set<string>) returns (ws: seq<World>, steps: seq<Step>)
    requires Ethereum.ValidEthAddress(contract)
    ensures IsRun(ws, steps, honest) && |steps| == 4
    ensures var w := ws[4];
      && w.ledger.outgoing == AfterTwo(contract, fee1, fee2)
      && w == World(w.ledger, Oracle.Genesis, 1, [], w.ledger.outgoing.batches, {})
      && w.ledger == Ledger.Genesis.(outgoing := w.ledger.outgoing, bank := w.ledger.bank)
  {
    var held := 20 + fee1 + fee2;
    StartRun(Start(contract, held), honest);
    var ws2, steps2 := SendAndRequest([Start(contract, held)], [], contract, fee1, held, None, honest);
    var b := Batch(1, 0, [Tx(1, contract, 10, fee1)], contract, 1);
    ws, steps := SendAndRequest(ws2, steps2, contract, fee2, held - (10 + fee1), Some(b), honest);
  }

  /** The fee order fails in a run: a batch with fee 5 is followed by one with fee 1. */
  lemma FeeOrderFailsInRun(contract: string) returns (ws: seq<World>, steps: seq<Step>)
    requires Ethereum.ValidEthAddress(contract)
    ensures IsRun(ws, steps, {})
    ensures !Selection.FeesNonDecreasing(ws[|steps|].ledger.outgoing, contract)
  {
    ws, steps := TwoBatches(contract, 5, 1, {});
    SingleFee(Tx(1, contract, 10, 5));
    SingleFee(Tx(2, contract, 10, 1));
    var s := ws[4].ledger.outgoing;
    var bk1, bk2 := Outgoing.BatchKey(contract, 1), Outgoing.BatchKey(contract, 2);
    assert Selection.FeeSum(s.batches[bk1].txs) == 5 && Selection.FeeSum(s.batches[bk2].txs) == 1;
  }

  // ---------- Blocks with one observed event ----------

  const Validators := Oracle.Powers(map["h" := 9, "f" := 1], 10)

  lemma {:induction false} HonestMajority()
    ensures Oracle.FaultyBelowThreshold(Validators, {"h"})
  {
    forall vs: set<string> | vs !! {"h"} ensures Oracle.PowerSum(Validators, vs) < Oracle.Threshold(10) {
      Oracle.PowerSumOutside(Validators, vs, Validators.power.Keys);
      Oracle.PowerSumMono(Validators, vs * Validators.power.Keys, {"f"});
      Oracle.PowerSumRemove(Validators, {"f"}, "f");
      assert {"f"} - {"f"} == {};
    }
  }

  /** A tally over one stored attestation that the validator "h" voted for. */
  lemma TallyOfOne(o: Oracle.State, att: Oracle.Attestation, height: nat) returns (m: Oracle.Mapping)
    requires o.atts == map[Oracle.KeyOf(att.claim) := att] && att.claim.eventNonce == 1 && o.lastObserved == 0
    requires att.votes == ["h"] || att.votes == ["f", "h"]
    ensures Oracle.IsMapping(m, o, 0)
    ensures Oracle.Tally(o, m, Validators, height) == (Oracle.Observe(o, att, height), [att.claim])
  {
    m := map[1 := [att]];
    assert Oracle.VotePower(Validators, att.votes) >= 9 by {
      if att.votes == ["f", "h"] {
        assert ["f", "h"][..1] == ["f"];
      }
    }
    assert Oracle.FirstQuorum(Validators, m[1]) == Some(att);
    assert 2 !in m && Oracle.Observe(o, att, height).lastObserved == 1;
    assert Oracle.Tally(Oracle.Observe(o, att, height), m, Validators, height) == (Oracle.Observe(o, att, height), []);
    assert [att.claim] + [] == [att.claim];
  }

  // ---------- A logic call stops the chain ----------

  /** Ethereum executes a logic call, the honest validators vote for it, and the next block has no successor. */
  lemma LogicCallStopsChain() returns (ws: seq<World>, steps: seq<Step>, m: Oracle.Mapping)
    ensures IsRun(ws, steps, {"h"}) && Assumed(ws[|steps|], EndBlock(m, Validators, NoEnv), {"h"})
    ensures Oracle.IsMapping(m, ws[|steps|].oracle, 0)
    ensures forall w' :: !Next(ws[|steps|], EndBlock(m, Validators, NoEnv), w')
  {
    var e := LogicCallExecuted(1, 0, "", 0);
    ws, steps := EmitAndVote(e);
    var w := ws[2];
    var att := Oracle.Attestation(false, ["h"], 1, e);
    m := TallyOfOne(w.oracle, att, 1);
    HonestMajority();
    BlocksStopOnlyOnUnsupported(ws, steps, {"h"}, m, Validators, NoEnv);
    assert StopsAt(IndexOf(w.ledger), [e], NoEnv, 0) by { assert [e][..0] == []; }
  }

  /** Ethereum emits its first event, and the honest validator votes for it. */
  lemma EmitAndVote(e: Claim) returns (ws: seq<World>, steps: seq<Step>)
    requires e.eventNonce == 1 && !e.BatchSendToEth?
    ensures IsRun(ws, steps, {"h"}) && |steps| == 2
    ensures ws[2].oracle == Oracle.State(map[Oracle.KeyOf(e) := Oracle.Attestation(false, ["h"], 1, e)], map["h" := 1], 0, 0, 0)
    ensures ws[2].log == [e] && ws[2].height == 1
  {
    var w0 := Start(Ethereum.ZERO_ADDRESS, 0);
    var w1 := w0.(log := [e]);
    var w2 := w1.(oracle := Oracle.Attest(w1.oracle, "h", e, 1).value);
    StartRun(w0, {"h"});
    assert [] + [e] == [e];
    assert Next(w0, Emit(e), w1);
    Extend([w0], [], {"h"}, Emit(e), w1);
    assert Next(w1, Vote("h", e), w2);
    Extend([w0] + [w1], [] + [Emit(e)], {"h"}, Vote("h", e), w2);
    assert [] + ["h"] == ["h"];
    ws, steps := [w0] + [w1] + [w2], [] + [Emit(e)] + [Vote("h", e)];
  }

  // ---------- An overstated height ----------

  /** Steps that follow on each other, whatever heights their blocks observe. */
  ghost predicate Chained(ws: seq<World>, steps: seq<Step>, honest: set<string>) {
    && |ws| == |steps| + 1
    && forall i | 0 <= i < |steps| :: Next(ws[i], steps[i], ws[i + 1]) && Honest(ws[i], steps[i], honest)
  }

  lemma RunIsChained(ws: seq<World>, steps: seq<Step>, honest: set<string>)
    requires IsRun(ws, steps, honest)
    ensures IsStart(ws[0]) && Chained(ws, steps, honest) && forall i | 0 <= i < |steps| :: Spared(ws[i], steps[i])
  {
    hide Next, Honest, Spared, IsStart;
  }

  lemma Link(ws: seq<World>, steps: seq<Step>, honest: set<string>, step: Step, w: World)
    requires Chained(ws, steps, honest) && Next(ws[|steps|], step, w) && Honest(ws[|steps|], step, honest)
    ensures Chained(ws + [w], steps + [step], honest)
  {
    hide Next, Honest;
  }

  /** The first batch is executed, and the second one is timed out at height 1. */
  lemma SecondTimesOut(contract: string)
    ensures var s := Outgoing.Executed(AfterTwo(contract, 5, 5), contract, 1);
      var tx := Tx(2, contract, 10, 5);
      Outgoing.Cancelled(s, Outgoing.TimedOut(s, 1)) == Outgoing.State(map[Outgoing.KeyOf(tx) := tx], map[], 3, 3)
  {
    var s0, tx := AfterTwo(contract, 5, 5), Tx(2, contract, 10, 5);
    var bk2 := Outgoing.BatchKey(contract, 2);
    assert Outgoing.LowerBatches(s0, contract, 1) == {};
    assert Outgoing.BatchTxs(s0, {}) == {};
    var s := Outgoing.Executed(s0, contract, 1);
    assert s == Outgoing.State(map[], map[bk2 := Batch(2, 0, [tx], contract, 1)], 3, 3);
    assert Outgoing.TimedOut(s, 1) == {bk2};
    assert Outgoing.BatchTxs(s, {bk2}) == {tx} by { assert s.batches[bk2].txs[0] == tx; }
    assert Outgoing.AsPool({tx}) == map[Outgoing.KeyOf(tx) := tx];
  }

  /** The votes of "f", who overstates the height, and then of "h". */
  lemma TwoVotes(o: Oracle.State, c: Claim, e: Claim) returns (o1: Oracle.State, o2: Oracle.State)
    requires o == Oracle.Genesis && c.eventNonce == 1 && ClaimHash(c) == ClaimHash(e) && e.eventNonce == 1
    ensures Oracle.Attest(o, "f", c, 1) == Some(o1) && Oracle.Attest(o1, "h", e, 1) == Some(o2)
    ensures o2 == Oracle.State(map[Oracle.KeyOf(c) := Oracle.Attestation(false, ["f", "h"], 1, c)], map["f" := 1, "h" := 1], 0, 0, 0)
  {
    o1 := Oracle.Attest(o, "f", c, 1).value;
    assert [] + ["f"] == ["f"] && ["f"] + ["h"] == ["f", "h"];
    o2 := Oracle.Attest(o1, "h", e, 1).value;
  }

  /** A block over one executed batch. */
  lemma ExecuteStep(w: World, contract: string, att: Oracle.Attestation) returns (step: Step, w': World)
    requires w.ledger.outgoing == AfterTwo(contract, 5, 5) && w.oracle.atts == map[Oracle.KeyOf(att.claim) := att]
    requires att.claim == BatchSendToEth(1, 1, 1, contract) && att.votes == ["f", "h"] && w.oracle.lastObserved == 0
    ensures step.EndBlock? && step.pw == Validators && Next(w, step, w')
    ensures var tx := Tx(2, contract, 10, 5);
      w'.ledger == w.ledger.(outgoing := Outgoing.State(map[Outgoing.KeyOf(tx) := tx], map[], 3, 3))
    ensures w' == w.(ledger := w'.ledger, oracle := w'.oracle, height := w.height + 1)
    ensures Oracle.IsMapping(step.m, w.oracle, 0) && Oracle.Tally(w.oracle, step.m, Validators, w.height).1 == [att.claim]
  {
    var m := TallyOfOne(w.oracle, att, w.height);
    SecondTimesOut(contract);
    hide Outgoing.Executed, Outgoing.Cancelled, Outgoing.TimedOut, Oracle.IsMapping, Oracle.Tally, Oracle.Prune;
    step := EndBlock(m, Validators, NoEnv);
    var o := Oracle.Observe(w.oracle, att, w.height);
    var l := w.ledger.(outgoing := Outgoing.Executed(w.ledger.outgoing, contract, 1));
    assert Ledger.Handle(w.ledger, att.claim, NoEnv) == Ledger.Ok(l);
    assert Ledger.HandleAll(w.ledger, [att.claim], NoEnv) == Some(l);
    w' := w.(ledger := Cleaned(l, o.ethHeight), oracle := Oracle.Prune(o), height := w.height + 1);
  }

  /** The sender takes the only transfer in the pool back. */
  lemma CancelStep(w: World, contract: string) returns (w': World)
    requires var tx := Tx(2, contract, 10, 5); w.ledger.outgoing.pool == map[Outgoing.KeyOf(tx) := tx]
    requires w.ledger.erc20ToDenom == map[]
    ensures Next(w, CancelSendToEth(2, "a"), w')
    ensures w' == w.(ledger := w'.ledger, refunded := w.refunded + {Tx(2, contract, 10, 5)})
  {
    var tx := Tx(2, contract, 10, 5);
    var key := Outgoing.KeyOf(tx);
    assert key in w.ledger.outgoing.pool && w.ledger.outgoing.pool[key].id == 2;
    assert Ledger.HasId(w.ledger.outgoing, 2) && Ledger.EntryOf(w.ledger.outgoing, 2) == key;
    hide Ethereum.GravityDenom;
    w' := w.(ledger := Ledger.RemoveAndRefund(w.ledger, 2, "a").value, refunded := w.refunded + {tx});
  }

  /** Ethereum executes the first batch, and both validators vote. */
  lemma VoteSteps(ws4: seq<World>, steps4: seq<Step>, contract: string) returns (ws: seq<World>, steps: seq<Step>)
    requires Chained(ws4, steps4, {"h"}) && |steps4| == 4
    requires var w := ws4[4];
      && w.ledger.outgoing == AfterTwo(contract, 5, 5)
      && w == World(w.ledger, Oracle.Genesis, 1, [], w.ledger.outgoing.batches, {})
    ensures Chained(ws, steps, {"h"}) && |steps| == 7 && ws[..5] == ws4 && steps[..4] == steps4
    ensures forall i | 4 <= i < 7 :: !steps[i].EndBlock?
    ensures var c := BatchSendToEth(1, 1, 1, contract);
      ws[7] == ws4[4].(log := [BatchSendToEth(1, 0, 1, contract)],
                       oracle := Oracle.State(map[Oracle.KeyOf(c) := Oracle.Attestation(false, ["f", "h"], 1, c)], map["f" := 1, "h" := 1], 0, 0, 0))
  {
    var w4 := ws4[4];
    var e, c := BatchSendToEth(1, 0, 1, contract), BatchSendToEth(1, 1, 1, contract);
    var w5 := w4.(log := [e]);
    assert [] + [e] == [e];
    assert Next(w4, Emit(e), w5);
    var o1, o2 := TwoVotes(w5.oracle, c, e);
    var w6, w7 := w5.(oracle := o1), w5.(oracle := o2);
    assert Next(w5, Vote("f", c), w6) && Next(w6, Vote("h", e), w7);
    assert Honest(w6, Vote("h", e), {"h"});
    hide Next;
    Link(ws4, steps4, {"h"}, Emit(e), w5);
    Link(ws4 + [w5], steps4 + [Emit(e)], {"h"}, Vote("f", c), w6);
    Link(ws4 + [w5] + [w6], steps4 + [Emit(e)] + [Vote("f", c)], {"h"}, Vote("h", e), w7);
    ws, steps := ws4 + [w5] + [w6] + [w7], steps4 + [Emit(e)] + [Vote("f", c)] + [Vote("h", e)];
  }

  /** Without an assumption on what cleanups cancel, a transfer can be paid and refunded. The first voter for an
      executed batch overstates its height by one, the block cancels another batch, its transfer is refunded, and then
      Ethereum executes that batch. No other step of the run cancels what it must spare, and the faulty validator has
      a tenth of the power. */
  lemma OverstatedHeightPaysAndRefunds(contract: string) returns (ws: seq<World>, steps: seq<Step>, t: Transfer)
    requires Ethereum.ValidEthAddress(contract)
    ensures |steps| == 10 && Safety.IsHonestRun(ws, steps, {"h"})
    ensures forall i | 0 <= i < |steps| :: i != 7 <==> Spared(ws[i], steps[i])
    ensures var w := ws[|steps|]; t in Paid(w.created, w.log, |w.log|) && t in w.refunded
  {
    var ws7, steps7 := FirstSteps(contract);
    t := Tx(2, contract, 10, 5);
    var w8, w9, w10, step7, e2 := LastSteps(ws7[7], contract);
    HonestUnlessVote(w8, CancelSendToEth(2, "a"));
    HonestUnlessVote(w9, Emit(e2));
    hide *;
    ws, steps := ThreeMore(ws7, steps7, step7, w8, CancelSendToEth(2, "a"), w9, Emit(e2), w10);
    assert forall i | 0 <= i < 7 :: ws[i] == ws7[i] && steps[i] == steps7[i];
    ChainIsHonest(ws, steps);
    if Spared(ws[7], steps[7]) {
      NotBoth(ws, steps, t);
    }
  }

  lemma ChainIsHonest(ws: seq<World>, steps: seq<Step>)
    requires Chained(ws, steps, {"h"}) && IsStart(ws[0])
    ensures Safety.IsHonestRun(ws, steps, {"h"})
  {
    hide Next, Honest, IsStart;
  }

  /** A chain of steps that all spare what they must is a run, and no run pays and refunds a transfer. */
  lemma NotBoth(ws: seq<World>, steps: seq<Step>, t: Transfer)
    requires Chained(ws, steps, {"h"}) && IsStart(ws[0]) && forall i | 0 <= i < |steps| :: Spared(ws[i], steps[i])
    ensures var w := ws[|steps|]; !(t in Paid(w.created, w.log, |w.log|) && t in w.refunded)
  {
    assert IsRun(ws, steps, {"h"}) by { hide Next, Honest, Spared, IsStart; }
    NoDoublePay(ws, steps, {"h"}, |steps|);
  }

  lemma FirstSteps(contract: string) returns (ws: seq<World>, steps: seq<Step>)
    requires Ethereum.ValidEthAddress(contract)
    ensures |ws| == 8 && |steps| == 7 && IsStart(ws[0]) && Chained(ws, steps, {"h"})
    ensures forall i | 0 <= i < 7 :: Spared(ws[i], steps[i])
    ensures AwaitsBlock(ws[7], contract)
  {
    var ws4, steps4 := TwoBatches(contract, 5, 5, {"h"});
    RunIsChained(ws4, steps4, {"h"});
    ws, steps := VoteSteps(ws4, steps4, contract);
    hide Next, Honest, Spared, IsStart, AfterTwo;
    assert ws[..5][0] == ws4[0];
    forall i | 0 <= i < 7 ensures Spared(ws[i], steps[i]) {
      if i < 4 {
        assert ws[..5][i] == ws4[i] && steps[..4][i] == steps4[i];
      } else {
        OnlyBlocksObserve(ws[i], steps[i]);
      }
    }
  }

  lemma ThreeMore(ws0: seq<World>, steps0: seq<Step>, step1: Step, w1: World, step2: Step, w2: World, step3: Step, w3: World)
      returns (ws: seq<World>, steps: seq<Step>)
    requires Chained(ws0, steps0, {"h"}) && !step2.EndBlock? && !step3.EndBlock?
    requires Next(ws0[|steps0|], step1, w1) && Honest(ws0[|steps0|], step1, {"h"})
    requires Next(w1, step2, w2) && Honest(w1, step2, {"h"}) && Next(w2, step3, w3) && Honest(w2, step3, {"h"})
    ensures ws == ws0 + [w1, w2, w3] && steps == steps0 + [step1, step2, step3] && Chained(ws, steps, {"h"})
    ensures forall i | |steps0| < i < |steps| :: Spared(ws[i], steps[i])
  {
    OnlyBlocksObserve(w1, step2);
    OnlyBlocksObserve(w2, step3);
    hide Next, Honest, Spared;
    Link(ws0, steps0, {"h"}, step1, w1);
    Link(ws0 + [w1], steps0 + [step1], {"h"}, step2, w2);
    Link(ws0 + [w1] + [w2], steps0 + [step1] + [step2], {"h"}, step3, w3);
    ws, steps := ws0 + [w1, w2, w3], steps0 + [step1, step2, step3];
    assert ws == ws0 + [w1] + [w2] + [w3] && steps == steps0 + [step1] + [step2] + [step3];
  }

  lemma HonestUnlessVote(w: World, step: Step)
    requires !step.EndBlock? && !step.Vote?
    ensures Honest(w, step, {"h"})
  {
  }

  lemma OnlyBlocksObserve(w: World, step: Step)
    requires !step.EndBlock?
    ensures Spared(w, step)
  {
  }

  /** Both batches are live, the first one is executed, and both validators have voted for that. */
  ghost predicate AwaitsBlock(w: World, contract: string) {
    var c := BatchSendToEth(1, 1, 1, contract);
    && w.ledger.outgoing == AfterTwo(contract, 5, 5) && w.created == w.ledger.outgoing.batches && w.ledger.erc20ToDenom == map[]
    && w.log == [BatchSendToEth(1, 0, 1, contract)] && w.oracle.lastObserved == 0
    && w.oracle.atts == map[Oracle.KeyOf(c) := Oracle.Attestation(false, ["f", "h"], 1, c)]
  }

  /** The block over the first batch, the refund from the second, and the execution of the second. */
  lemma LastSteps(w7: World, contract: string) returns (w8: World, w9: World, w10: World, step7: Step, e: Claim)
    requires AwaitsBlock(w7, contract)
    ensures step7.EndBlock? && Next(w7, step7, w8) && Honest(w7, step7, {"h"})
    ensures Next(w8, CancelSendToEth(2, "a"), w9) && Next(w9, Emit(e), w10)
    ensures var t := Tx(2, contract, 10, 5); t in Paid(w10.created, w10.log, |w10.log|) && t in w10.refunded
  {
    var c := BatchSendToEth(1, 1, 1, contract);
    step7, w8 := ExecuteStep(w7, contract, Oracle.Attestation(false, ["f", "h"], 1, c));
    HonestMajority();
    w9 := CancelStep(w8, contract);
    e := BatchSendToEth(2, 0, 2, contract);
    w10 := w9.(log := w9.log + [e]);
    hide Oracle.IsMapping, Oracle.Tally, Oracle.FaultyBelowThreshold, Outgoing.Executed, Outgoing.Cancelled;
    assert w9.created[Outgoing.BatchKey(contract, 2)] == Batch(2, 0, [Tx(2, contract, 10, 5)], contract, 1);
    assert Next(w9, Emit(e), w10);
    PaidLast(w9.created, w9.log, e, Tx(2, contract, 10, 5)) by {
      assert w9.created[BatchOf(e)].txs[0] == Tx(2, contract, 10, 5);
    }
  }

  lemma PaidLast(created: Created, log: seq<Claim>, e: Claim, t: Transfer)
    requires t in PaidBy(created, e)
    ensures t in Paid(created, log + [e], |log| + 1)
  {
  }
}
