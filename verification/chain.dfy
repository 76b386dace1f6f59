/** The keeper at work: the messages and blocks that it is given, together with the events of Ethereum, are the steps of
    the joint state machine that it goes through. So what is proved about runs holds of the keeper's own tables. */
module Chain {
  import opened Types
  import Bridge
  import Ledger
  import NabKeeper
  import Oracle
  import Outgoing
  import Power
  import Run
  import Safety
  import Selection
  import ValsetKeeper
  import Valsets

  /** What staking, parameters and the other parts of slashing contribute to the end of a block. */
  datatype BlockInput = BlockInput(
    pw: Oracle.Powers,
    env: Ledger.Env,
    window: nat,
    unbondWindow: nat,
    staking: nat -> Valsets.Staking,
    othersJailed: bool,
    vals: seq<Power.Bonded>,
    coin: Ledger.Coin)

  datatype Call =
    | SendToEth(sender: string, dest: string, amount: Ledger.Coin, fee: Ledger.Coin)
    | CancelSendToEth(id: nat, sender: string)
    | RequestBatch(denom: string, params: Outgoing.TimeParams)
    | Vote(v: string, claim: Claim)
    | EndBlock(input: BlockInput)
    | Event(event: Claim)

  /** The tables of the keeper are those of the world. */
  ghost predicate Mirrors(k: NabKeeper.Keeper, w: Run.World)
    reads k, k.outgoing, k.oracle, k.valsets
  {
    w.ledger == k.LedgerView() && w.oracle == k.oracle.View() && w.height == k.height
  }

  /** The step is that of the call: it differs only in what the call leaves open, which is the last batch that the
      request finds and the order in which the block lists the attestations. */
  ghost predicate Stands(c: Call, step: Run.Step) {
    match c
    case SendToEth(sender, dest, amount, fee) => step == Run.SendToEth(sender, dest, amount, fee)
    case CancelSendToEth(id, sender) => step == Run.CancelSendToEth(id, sender)
    case RequestBatch(denom, params) => step.RequestBatch? && step.denom == denom && step.params == params
    case Vote(v, claim) => step == Run.Vote(v, claim)
    case EndBlock(input) => step.EndBlock? && step.pw == input.pw && step.env == input.env
    case Event(e) => step == Run.Emit(e)
  }

  ghost predicate CannotHappen(c: Call, w: Run.World) {
    c.Event? && !Bridge.CanEmit(w.created, w.log, c.event)
  }

  /** The block stops the chain: for some order of the attestations a claim panics, or the current validator set cannot
      be made afterwards. */
  ghost predicate Stops(w: Run.World, input: BlockInput) {
    exists m :: Oracle.IsMapping(m, w.oracle, 0) && StopsWith(w, input, m)
  }

  ghost predicate StopsWith(w: Run.World, input: BlockInput, m: Oracle.Mapping) {
    && Oracle.KeyedByNonce(m)
    && var l := Ledger.HandleAll(w.ledger, Oracle.Tally(w.oracle, m, input.pw, w.height).1, input.env);
    !(l.Some? && NabKeeper.HasCurrentValset(l.value, input.vals, input.coin))
  }

  lemma StopsBy(w: Run.World, input: BlockInput, m: Oracle.Mapping)
    requires Oracle.IsMapping(m, w.oracle, 0) && StopsWith(w, input, m)
    ensures Stops(w, input)
  {
  }

  /** The step is the call's answer in the world w; a block that stops the chain has none. */
  ghost predicate Answers(c: Call, w: Run.World, step: Run.Step) {
    !CannotHappen(c, w) && Stands(c, step) && (c.EndBlock? ==> !StopsWith(w, c.input, step.m))
  }

  /** The steps are those of the calls, one for one and in their order; only events that the contract could not emit
      at their time have none. */
  ghost predicate Follows(calls: seq<Call>, ws: seq<Run.World>, steps: seq<Run.Step>)
    decreases |calls|
  {
    && |ws| == |steps| + 1
    && if calls == [] then steps == []
       else
         var before, c, n := calls[..|calls| - 1], calls[|calls| - 1], |steps|;
         || (CannotHappen(c, ws[n]) && Follows(before, ws, steps))
         || (n > 0 && Answers(c, ws[n - 1], steps[n - 1]) && Follows(before, ws[..n], steps[..n - 1]))
  }

  lemma FollowsStart(w: Run.World)
    ensures Follows([], [w], [])
  {
  }

  lemma FollowsStep(calls: seq<Call>, ws: seq<Run.World>, steps: seq<Run.Step>, c: Call, step: Run.Step, w: Run.World)
    requires Follows(calls, ws, steps) && Answers(c, ws[|steps|], step)
    ensures Follows(calls + [c], ws + [w], steps + [step])
  {
    var ws', steps', n := ws + [w], steps + [step], |steps| + 1;
    assert (calls + [c])[..|calls|] == calls && ws'[..n] == ws && steps'[..n - 1] == steps;
    hide CannotHappen, Answers;
  }

  lemma FollowsSkip(calls: seq<Call>, ws: seq<Run.World>, steps: seq<Run.Step>, c: Call)
    requires Follows(calls, ws, steps) && CannotHappen(c, ws[|steps|])
    ensures Follows(calls + [c], ws, steps)
  {
    assert (calls + [c])[..|calls|] == calls;
    hide CannotHappen, Answers;
  }

  ghost predicate WellFormed(c: Call) {
    c.RequestBatch? ==> c.params.averageEthereumBlockTime > 0
  }

  method DeliverRequest(k: NabKeeper.Keeper, denom: string, params: Outgoing.TimeParams, ghost w: Run.World)
      returns (ghost step: Run.Step, ghost w': Run.World)
    requires k.Valid() && Mirrors(k, w) && params.averageEthereumBlockTime > 0
    modifies k.outgoing
    ensures k.Valid() && Mirrors(k, w') && Run.Next(w, step, w') && Stands(RequestBatch(denom, params), step)
  {
    hide Oracle.Inv, Outgoing.Inv, Valsets.Inv, Selection.Moved, Selection.IsLast, Selection.Picked, Selection.PredictedFee;
    var r := k.RequestBatch(denom, params);
    match Ledger.DenomToERC20(w.ledger, denom) {
      case None =>
        step, w' := Run.RequestBatch(denom, None, params), w;
      case Some(lookup) =>
        ghost var timeout := Outgoing.BatchTimeout(params, w.oracle.ethHeight, w.oracle.cosmosHeight, w.height);
        ghost var last :| Selection.IsLast(w.ledger.outgoing, lookup.name, last)
          && (k.outgoing.View(), r) == Selection.Build(w.ledger.outgoing, last, lookup.name, Bridge.BATCH_SIZE, timeout, w.height);
        step, w' := Run.RequestBatch(denom, last, params), Run.Requested(w, lookup.name, last, params);
    }
  }

  /** Every message is its step. */
  method Deliver(k: NabKeeper.Keeper, c: Call, ghost w: Run.World) returns (ghost step: Run.Step, ghost w': Run.World)
    requires k.Valid() && Mirrors(k, w) && WellFormed(c) && !c.EndBlock? && !c.Event?
    modifies k, k.outgoing, k.oracle, k.valsets
    ensures k.Valid() && Mirrors(k, w') && Run.Next(w, step, w') && Stands(c, step)
  {
    hide Oracle.Inv, Outgoing.Inv, Valsets.Inv, Ledger.AddToPool, Ledger.RemoveAndRefund;
    match c {
      case SendToEth(sender, dest, amount, fee) =>
        var r := k.SendToEth(sender, dest, amount, fee);
        step, w' := Run.SendToEth(sender, dest, amount, fee), w.(ledger := k.LedgerView());
      case CancelSendToEth(id, sender) =>
        var ok := k.CancelSendToEth(id, sender);
        step := Run.CancelSendToEth(id, sender);
        w' := match Ledger.RemoveAndRefund(w.ledger, id, sender)
          case Ok(l) => w.(ledger := l, refunded := w.refunded + {RefundedTx(w.ledger, id, sender)})
          case _ => w;
        RefundedIs(w.ledger, id, sender);
      case RequestBatch(denom, params) =>
        step, w' := DeliverRequest(k, denom, params, w);
      case Vote(v, claim) =>
        var ok := k.oracle.Attest(v, claim, k.height);
        step, w' := Run.Vote(v, claim), w.(oracle := k.oracle.View());
    }
  }

  ghost function RefundedTx(l: Ledger.State, id: nat, sender: string): Transfer
    requires Ledger.RemoveAndRefund(l, id, sender).Ok?
  {
    l.outgoing.pool[Ledger.EntryOf(l.outgoing, id)]
  }

  lemma RefundedIs(l: Ledger.State, id: nat, sender: string)
    ensures Ledger.RemoveAndRefund(l, id, sender).Ok? ==>
              Ledger.HasId(l.outgoing, id) && RefundedTx(l, id, sender) == l.outgoing.pool[Ledger.EntryOf(l.outgoing, id)]
  {
  }

  /** The end of a block is its step, unless it stops the chain. */
  method DeliverBlock(k: NabKeeper.Keeper, input: BlockInput, ghost w: Run.World)
      returns (finished: bool, ghost step: Run.Step, ghost w': Run.World)
    requires k.Valid() && Mirrors(k, w)
    modifies k, k.outgoing, k.oracle, k.valsets
    ensures Stands(EndBlock(input), step) && step.EndBlock? && Oracle.IsMapping(step.m, w.oracle, 0)
    ensures finished <==> !StopsWith(w, input, step.m)
    ensures finished ==> k.Valid() && Mirrors(k, w') && Run.Next(w, step, w')
  {
    hide Oracle.Inv, Outgoing.Inv, Valsets.Inv, Valsets.Step, ValsetKeeper.AllSlashes, ValsetKeeper.Jails, ValsetKeeper.MustCreate,
         NabKeeper.IsCurrentValset, NabKeeper.HasCurrentValset, Run.BlockEnds;
    var slashes;
    ghost var m, ns, block;
    finished, slashes, m, ns, block := k.EndBlocker(input.pw, input.env, input.window, input.unbondWindow, input.staking,
                                                    input.othersJailed, input.vals, input.coin);
    step := Run.EndBlock(m, input.pw, input.env);
    w' := w.(ledger := k.LedgerView(), oracle := k.oracle.View(), height := w.height + 1);
    assert Oracle.KeyedByNonce(m);
    hide Oracle.IsMapping, Oracle.KeyedByNonce, Oracle.Tally, Ledger.HandleAll;
  }

  /** Worlds that follow on each other from a start. */
  ghost predicate IsHistory(ws: seq<Run.World>, steps: seq<Run.Step>) {
    && |ws| == |steps| + 1
    && Run.IsStart(ws[0])
    && forall i | 0 <= i < |steps| :: Run.Next(ws[i], steps[i], ws[i + 1])
  }

  lemma HistoryStart(w: Run.World)
    requires Run.IsStart(w)
    ensures IsHistory([w], [])
  {
  }

  lemma Longer(ws: seq<Run.World>, steps: seq<Run.Step>, step: Run.Step, w: Run.World)
    requires IsHistory(ws, steps) && Run.Next(ws[|steps|], step, w)
    ensures IsHistory(ws + [w], steps + [step])
    ensures |ws| == |steps| + 1
  {
    hide Run.Next, Run.IsStart;
    assert (ws + [w])[0] == ws[0];
  }

  /** One call, or one event, which the keeper does not see. */
  method PlayOne(k: NabKeeper.Keeper, c: Call, ghost w: Run.World) returns (finished: bool, ghost step: Run.Step, ghost w': Run.World)
    requires k.Valid() && Mirrors(k, w) && WellFormed(c)
    modifies k, k.outgoing, k.oracle, k.valsets
    ensures finished ==> k.Valid() && Mirrors(k, w') && if CannotHappen(c, w) then w' == w else Run.Next(w, step, w') && Answers(c, w, step)
    ensures !finished ==> c.EndBlock? && Stops(w, c.input)
  {
    hide Run.Next, Oracle.Inv, Outgoing.Inv, Valsets.Inv, Stands, StopsWith, Oracle.IsMapping, Bridge.CanEmit;
    finished := true;
    if c.EndBlock? {
      finished, step, w' := DeliverBlock(k, c.input, w);
      if !finished {
        StopsBy(w, c.input, step.m);
      }
    } else if c.Event? {
      step, w' := Run.Emit(c.event), w;
      if !CannotHappen(c, w) {
        step, w' := EmitStep(w, c);
      }
    } else {
      step, w' := Deliver(k, c, w);
    }
  }

  lemma PlayedOne(calls: seq<Call>, i: nat, ws: seq<Run.World>, steps: seq<Run.Step>, step: Run.Step, w: Run.World)
      returns (ws': seq<Run.World>, steps': seq<Run.Step>)
    requires i < |calls| && IsHistory(ws, steps) && Follows(calls[..i], ws, steps)
    requires if CannotHappen(calls[i], ws[|steps|]) then w == ws[|steps|] else Run.Next(ws[|steps|], step, w) && Answers(calls[i], ws[|steps|], step)
    ensures IsHistory(ws', steps') && Follows(calls[..i + 1], ws', steps') && |ws'| == |steps'| + 1
    ensures ws'[0] == ws[0] && ws'[|steps'|] == w
  {
    assert calls[..i + 1] == calls[..i] + [calls[i]];
    hide Run.Next, Run.IsStart, Follows, Answers, CannotHappen;
    if CannotHappen(calls[i], ws[|steps|]) {
      FollowsSkip(calls[..i], ws, steps, calls[i]);
      ws', steps' := ws, steps;
    } else {
      Longer(ws, steps, step, w);
      FollowsStep(calls[..i], ws, steps, calls[i], step, w);
      ws', steps' := ws + [w], steps + [step];
    }
  }

  /** Plays calls to a new keeper and events of Ethereum, in any order, up to a block that stops the chain. */
  method Play(bank: Ledger.Bank, calls: seq<Call>)
      returns (k: NabKeeper.Keeper, played: nat, ghost ws: seq<Run.World>, ghost steps: seq<Run.Step>)
    requires forall c | c in calls :: WellFormed(c)
    ensures played <= |calls| && |ws| == |steps| + 1 && IsHistory(ws, steps) && ws[0].ledger.bank == bank
    ensures Follows(calls[..played], ws, steps)
    ensures played == |calls| ==> k.Valid() && Mirrors(k, ws[|steps|])
    ensures played < |calls| ==> calls[played].EndBlock? && Stops(ws[|steps|], calls[played].input)
  {
    k := new NabKeeper.Keeper(bank);
    ghost var w := Run.World(k.LedgerView(), k.oracle.View(), 1, [], map[], {});
    played, ws, steps := 0, [w], [];
    FollowsStart(w);
    HistoryStart(w);
    assert calls[..0] == [];
    hide Run.Next, Run.IsStart, Oracle.Inv, Outgoing.Inv, Valsets.Inv, Follows, Answers, CannotHappen, Stops, IsHistory, WellFormed;
    while played < |calls|
      invariant fresh(k) && fresh(k.outgoing) && fresh(k.oracle) && fresh(k.valsets)
      invariant played <= |calls| && k.Valid() && |ws| == |steps| + 1 && IsHistory(ws, steps) && ws[0].ledger.bank == bank
      invariant Follows(calls[..played], ws, steps)
      invariant w == ws[|steps|] && Mirrors(k, w)
    {
      var finished;
      ghost var step;
      ghost var w';
      finished, step, w' := PlayOne(k, calls[played], w);
      if !finished {
        return;
      }
      ws, steps := PlayedOne(calls, played, ws, steps, step, w');
      w := w';
      played := played + 1;
    }
  }

  lemma EmitStep(w: Run.World, c: Call) returns (step: Run.Step, w': Run.World)
    requires c.Event? && !CannotHappen(c, w)
    ensures Run.Next(w, step, w') && Stands(c, step) && w' == w.(log := w.log + [c.event])
  {
    step, w' := Run.Emit(c.event), w.(log := w.log + [c.event]);
  }

  // ---------- What this says of the keeper ----------

  /** Where the steps that the calls made meet the assumptions on runs, the history is a run, and the keeper's own final
      tables are safe: no transfer id is paid twice, or paid and refunded; each one given out is pending in these tables,
      paid or refunded; and every executed batch that they have not processed yet is live in them. */
  lemma KeeperNeverDoublePays(k: NabKeeper.Keeper, calls: seq<Call>, ws: seq<Run.World>, steps: seq<Run.Step>, honest: set<string>)
    requires IsHistory(ws, steps) && Follows(calls, ws, steps) && Mirrors(k, ws[|steps|])
    requires forall i | 0 <= i < |steps| :: Run.Assumed(ws[i], steps[i], honest)
    ensures Run.IsRun(ws, steps, honest)
    ensures var w := ws[|steps|];
      var outgoing, n := k.outgoing.View(), k.oracle.lastObserved;
      && Bridge.PaidOnce(w.created, w.log, |w.log|)
      && Bridge.Apart(Bridge.Paid(w.created, w.log, |w.log|), w.refunded)
      && n <= |w.log|
      && Bridge.Accounted(outgoing, Bridge.Paid(w.created, w.log, n), w.refunded)
      && Outgoing.Inv(outgoing)
      && Bridge.ExecutedAreLive(outgoing, w.log, n)
      && Bridge.LiveAreCreated(outgoing, w.created)
      && Safety.PoolIsSafe(outgoing, w.created, w.log)
  {
    assert Run.IsRun(ws, steps, honest) by { hide Run.Next, Run.Assumed, Run.IsStart; }
    Run.NoDoublePay(ws, steps, honest, |steps|);
    Run.RunsSatisfy(ws, steps, honest, |steps|);
    Safety.InvIsSafe(ws[|steps|], honest);
    hide *;
    MirrorsTables(k, ws[|steps|]);
  }

  lemma MirrorsTables(k: NabKeeper.Keeper, w: Run.World)
    requires Mirrors(k, w)
    ensures w.ledger.outgoing == k.outgoing.View() && w.oracle.lastObserved == k.oracle.lastObserved
    ensures Safety.IsSafe(w) == Safety.PoolIsSafe(k.outgoing.View(), w.created, w.log)
  {
  }

  /** A block that stops the chain does so over an unsupported event, or because there is no current validator set
      to be made; so an executed batch is never the reason that the keeper stops. */
  lemma KeeperStopsOnlyOn(ws: seq<Run.World>, steps: seq<Run.Step>, honest: set<string>, input: BlockInput, m: Oracle.Mapping)
    requires Run.IsRun(ws, steps, honest) && Oracle.IsMapping(m, ws[|steps|].oracle, 0)
    requires Oracle.FaultyBelowThreshold(input.pw, honest) && StopsWith(ws[|steps|], input, m)
    ensures var w := ws[|steps|];
      var claims := Oracle.Tally(w.oracle, m, input.pw, w.height).1;
      var l := Ledger.HandleAll(w.ledger, claims, input.env);
      || (exists i: nat :: Run.StopsAt(Run.IndexOf(w.ledger), claims, input.env, i))
      || (l.Some? && !NabKeeper.HasCurrentValset(l.value, input.vals, input.coin))
  {
    var w := ws[|steps|];
    Run.RunsSatisfy(ws, steps, honest, |steps|);
    assert Run.Honest(w, Run.EndBlock(m, input.pw, input.env), honest);
    hide Run.Inv, Run.Honest, Run.StopsAt, Ledger.HandleAll, Oracle.Tally, Oracle.IsMapping, NabKeeper.HasCurrentValset, Run.IsRun;
    var oracle, claims := Run.BlockPreserves(w, m, input.pw, input.env, honest);
  }
}
