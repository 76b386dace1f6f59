/** The module's keeper: messages, the handler of observed claims and the end of a block, done step by step on the
    stores. Each does what the specification of the same step says. */
module NabKeeper {
  import opened Types
  import opened Ethereum
  import Accounting
  import Bridge
  import Ledger
  import Nonces
  import Oracle
  import OracleKeeper
  import Outgoing
  import OutgoingKeeper
  import Power
  import Run
  import Selection
  import ValsetKeeper
  import Valsets

  // ---------- The tally on values ----------

  /** The state of the tally after the nonces `passed`: `done` has been observed, the rest is still to come. */
  ghost predicate Progress(s0: Oracle.State, s: Oracle.State, m: Oracle.Mapping, pw: Oracle.Powers, height: nat,
                           done: seq<Claim>, passed: seq<nat>)
  {
    && Oracle.Inv(s) && Oracle.IsMapping(m, s, s.lastObserved + 1) && Oracle.KeyedByNonce(m)
    && Oracle.Tally(s0, m, pw, height) == (Oracle.Tally(s, m, pw, height).0, done + Oracle.Tally(s, m, pw, height).1)
    && (s.lastObserved + 1 in passed ==> Oracle.Tally(s, m, pw, height) == (s, []))
  }

  lemma ProgressStart(s: Oracle.State, m: Oracle.Mapping, pw: Oracle.Powers, height: nat)
    requires Oracle.Inv(s) && Oracle.IsMapping(m, s, 0)
    ensures Progress(s, s, m, pw, height, [], [])
  {
    Oracle.MappingFrom(m, s);
    assert [] + Oracle.Tally(s, m, pw, height).1 == Oracle.Tally(s, m, pw, height).1;
  }

  lemma ProgressSkip(s0: Oracle.State, s: Oracle.State, m: Oracle.Mapping, pw: Oracle.Powers, height: nat,
                     done: seq<Claim>, passed: seq<nat>, n: nat)
    requires Progress(s0, s, m, pw, height, done, passed) && n in m
    requires n == s.lastObserved + 1 ==> Oracle.FirstQuorum(pw, m[n]).None?
    ensures Progress(s0, s, m, pw, height, done, passed + [n])
  {
  }

  lemma ProgressObserve(s0: Oracle.State, s: Oracle.State, m: Oracle.Mapping, pw: Oracle.Powers, height: nat,
                        done: seq<Claim>, passed: seq<nat>, n: nat, att: Oracle.Attestation)
    requires Progress(s0, s, m, pw, height, done, passed) && n in m
    requires n == s.lastObserved + 1 && Oracle.FirstQuorum(pw, m[n]) == Some(att)
    requires forall p | p in passed :: p < n
    ensures Progress(s0, Oracle.Observe(s, att, height), m, pw, height, done + [att.claim], passed + [n])
    ensures exists rest :: Oracle.Tally(s0, m, pw, height).1 == done + [att.claim] + rest
  {
    hide Oracle.Inv, Oracle.IsMapping, Oracle.FirstQuorum, Oracle.HasQuorum, Oracle.Observable;
    var att', s1 := Oracle.TallyStep(s, m, pw, height);
    hide Oracle.Tally;
    var rest := Oracle.Tally(s1, m, pw, height).1;
    assert s1.lastObserved + 1 !in passed + [n];
    assert done + ([att.claim] + rest) == done + [att.claim] + rest;
  }

  lemma ProgressEnd(s0: Oracle.State, s: Oracle.State, m: Oracle.Mapping, pw: Oracle.Powers, height: nat,
                    done: seq<Claim>, passed: seq<nat>)
    requires Progress(s0, s, m, pw, height, done, passed)
    requires forall x: nat :: x in passed <==> x in m
    ensures Oracle.Tally(s0, m, pw, height) == (s, done)
  {
    assert done + [] == done;
  }

  /** The attestations of the next nonce can be observed, and are not observed yet. */
  lemma NextAreObservable(s: Oracle.State, m: Oracle.Mapping, n: nat)
    requires Oracle.Inv(s) && Oracle.IsMapping(m, s, s.lastObserved + 1) && n in m && n == s.lastObserved + 1
    ensures forall i | 0 <= i < |m[n]| :: Oracle.Observable(s, m[n][i]) && !m[n][i].observed
  {
    forall i | 0 <= i < |m[n]| ensures Oracle.Observable(s, m[n][i]) && !m[n][i].observed {
      assert Oracle.Stored(s, m[n][i]);
    }
  }

  // ---------- Claims one after the other ----------

  /** What applying one claim leaves; None if it panics. */
  ghost function HandleOne(l: Ledger.State, c: Claim, env: Ledger.Env): Option<Ledger.State> {
    match Ledger.Handle(l, c, env)
    case Ok(l') => Some(l')
    case Failed => Some(l)
    case Panicked => None
  }

  lemma {:induction false} HandleAllAppend(l: Ledger.State, a: seq<Claim>, c: Claim, rest: seq<Claim>, env: Ledger.Env)
    ensures Ledger.HandleAll(l, a + [c] + rest, env)
         == (match Ledger.HandleAll(l, a, env)
             case None => None
             case Some(l1) => match HandleOne(l1, c, env) case None => None case Some(l2) => Ledger.HandleAll(l2, rest, env))
    decreases |a|
  {
    var all := a + [c] + rest;
    if a == [] {
      assert all[0] == c && all[1..] == rest;
    } else {
      assert all[0] == a[0] && all[1..] == a[1..] + [c] + rest;
      hide Ledger.Handle;
      match Ledger.Handle(l, a[0], env)
      case Ok(l') => HandleAllAppend(l', a[1..], c, rest, env);
      case Failed => HandleAllAppend(l, a[1..], c, rest, env);
      case Panicked =>
    }
  }

  lemma HandleAllSnoc(l: Ledger.State, a: seq<Claim>, c: Claim, l1: Ledger.State, env: Ledger.Env)
    requires Ledger.HandleAll(l, a, env) == Some(l1)
    ensures Ledger.HandleAll(l, a + [c], env) == HandleOne(l1, c, env)
  {
    HandleAllAppend(l, a, c, [], env);
    assert a + [c] + [] == a + [c];
  }

  /** Observed claims keep the outgoing invariant. */
  lemma HandleKeepsOutgoing(l: Ledger.State, c: Claim, env: Ledger.Env)
    requires Outgoing.Inv(l.outgoing)
    ensures var r := HandleOne(l, c, env); r.Some? ==> Outgoing.Inv(r.value.outgoing)
  {
    if c.BatchSendToEth? && Outgoing.BatchKey(c.contract, c.batchNonce) in l.outgoing.batches {
      Outgoing.ExecuteEffect(l.outgoing, c.contract, c.batchNonce);
    }
  }

  // ---------- The keeper ----------

  class Keeper {
    const outgoing: OutgoingKeeper.Keeper
    const oracle: OracleKeeper.Keeper
    const valsets: ValsetKeeper.Keeper
    var bank: Ledger.Bank
    var denomToErc20: map<string, string>
    var erc20ToDenom: map<string, string>
    var height: nat

    function LedgerView(): Ledger.State
      reads this, outgoing, valsets
    {
      Ledger.State(outgoing.View(), bank, denomToErc20, erc20ToDenom, valsets.observedValset)
    }

    ghost predicate Valid()
      reads this, outgoing, oracle, valsets
    {
      && outgoing.Valid() && oracle.Valid()
      && height >= 1 && Valsets.Inv(valsets.View(), height - 1)
    }

    constructor (bank: Ledger.Bank)
      ensures Valid() && height == 1
      ensures fresh(outgoing) && fresh(oracle) && fresh(valsets)
      ensures LedgerView() == Ledger.Genesis.(bank := bank) && oracle.View() == Oracle.Genesis && valsets.View() == Valsets.Genesis
    {
      outgoing := new OutgoingKeeper.Keeper();
      oracle := new OracleKeeper.Keeper();
      valsets := new ValsetKeeper.Keeper();
      this.bank := bank;
      denomToErc20, erc20ToDenom, height := map[], map[], 1;
    }

    /** Drops what was written since `saved`. */
    method Rollback(saved: Ledger.State)
      modifies this, outgoing, valsets
      ensures LedgerView() == saved && height == old(height)
      ensures valsets.observedValset == saved.observedValset
      ensures valsets.valsets == old(valsets.valsets) && valsets.latestNonce == old(valsets.latestNonce)
           && valsets.lastSlashed == old(valsets.lastSlashed) && valsets.lastUnbonding == old(valsets.lastUnbonding)
    {
      outgoing.pool, outgoing.batches := saved.outgoing.pool, saved.outgoing.batches;
      outgoing.nextTxId, outgoing.nextBatchId := saved.outgoing.nextTxId, saved.outgoing.nextBatchId;
      bank, denomToErc20, erc20ToDenom := saved.bank, saved.denomToErc20, saved.erc20ToDenom;
      valsets.SetLastObservedValset(saved.observedValset);
    }

    // ----- messages -----

    method AddToOutgoingPool(sender: string, dest: string, amount: Ledger.Coin, fee: Ledger.Coin) returns (r: Ledger.Outcome<nat>)
      requires Valid()
      modifies this`bank, outgoing
      ensures Valid()
      ensures match Ledger.AddToPool(old(LedgerView()), sender, dest, amount, fee)
        case Ok((l, id)) => r == Ledger.Ok(id) && LedgerView() == l
        case Failed => r == Ledger.Failed && LedgerView() == old(LedgerView())
        case Panicked => r == Ledger.Panicked
    {
      hide Valsets.Inv, Oracle.Inv, Outgoing.Inv;
      if sender == "" || dest == "" || amount.amount < 0 || fee.amount < 0 || fee.denom != amount.denom {
        return Ledger.Failed;
      }
      var total: nat := amount.amount + fee.amount;
      var lookup := Ledger.DenomToERC20(LedgerView(), amount.denom);
      if lookup.None? {
        return Ledger.Failed;
      }
      var locked := Ledger.Send(bank, sender, Ledger.MODULE, amount.denom, total);
      if locked.None? {
        return Ledger.Failed;
      }
      bank := locked.value;
      if !lookup.value.cosmosOriginated {
        var burned := Ledger.Burn(bank, amount.denom, total);
        if burned.None? {
          return Ledger.Panicked;
        }
        bank := burned.value;
      }
      var id := outgoing.Enqueue(sender, dest, lookup.value.name, amount.amount, fee.amount);
      r := Ledger.Ok(id);
    }

    /** The message to send: it takes effect as a whole or not at all. */
    method SendToEth(sender: string, dest: string, amount: Ledger.Coin, fee: Ledger.Coin) returns (r: Ledger.Outcome<nat>)
      requires Valid()
      modifies this, outgoing, valsets
      ensures Valid() && height == old(height) && valsets.View() == old(valsets.View())
      ensures match Ledger.AddToPool(old(LedgerView()), sender, dest, amount, fee)
        case Ok((l, id)) => r == Ledger.Ok(id) && LedgerView() == l
        case _ => !r.Ok? && LedgerView() == old(LedgerView())
    {
      hide Valsets.Inv, Oracle.Inv, Outgoing.Inv, Ledger.AddToPool;
      var saved := LedgerView();
      r := AddToOutgoingPool(sender, dest, amount, fee);
      if !r.Ok? {
        Rollback(saved);
      }
    }

    /** Issues amount and fee of a transfer to its sender again. */
    method Refund(tx: Transfer) returns (ok: bool)
      modifies this`bank
      ensures match Ledger.Refunded(old(LedgerView()), tx)
        case Some(b) => ok && bank == b
        case None => !ok
    {
      var denom := GravityDenom(tx.token.contract);
      var total := tx.token.amount + tx.fee.amount;
      if total == 0 {
        return true;
      }
      if !Ledger.ERC20ToDenom(LedgerView(), tx.token.contract).cosmosOriginated {
        var minted := Ledger.Mint(bank, denom, total);
        if minted.None? {
          return false;
        }
        bank := minted.value;
      }
      var sent := Ledger.Send(bank, Ledger.MODULE, tx.sender, denom, total);
      if sent.None? {
        return false;
      }
      bank := sent.value;
      ok := true;
    }

    method RemoveFromOutgoingPoolAndRefund(id: nat, sender: string) returns (ok: bool)
      requires Valid()
      modifies this`bank, outgoing
      ensures match Ledger.RemoveAndRefund(old(LedgerView()), id, sender)
        case Ok(l) => ok && LedgerView() == l && Valid()
        case _ => !ok
    {
      hide Valsets.Inv, Oracle.Inv, Outgoing.Inv, Outgoing.Pending, Ledger.Mint, Ledger.Send, GravityDenom;
      if id < 1 || sender == "" {
        return false;
      }
      var tx := outgoing.GetUnbatchedTxById(id);
      if tx.None? {
        return false;
      }
      var key := Outgoing.KeyOf(tx.value);
      Accounting.OnlyEntry(outgoing.View(), key, id);
      if tx.value.sender != sender || tx.value.fee.contract != tx.value.token.contract {
        return false;
      }
      Outgoing.DropPreserves(outgoing.View(), key);
      var removed := outgoing.RemoveUnbatchedTX(key);
      assert removed && key !in outgoing.pool;
      ok := Refund(tx.value);
    }

    /** The message to cancel: it takes effect as a whole or not at all. */
    method CancelSendToEth(id: nat, sender: string) returns (ok: bool)
      requires Valid()
      modifies this, outgoing, valsets
      ensures Valid() && height == old(height) && valsets.View() == old(valsets.View())
      ensures match Ledger.RemoveAndRefund(old(LedgerView()), id, sender)
        case Ok(l) => ok && LedgerView() == l
        case _ => !ok && LedgerView() == old(LedgerView())
    {
      hide Valsets.Inv, Oracle.Inv, Outgoing.Inv, Ledger.RemoveAndRefund;
      var saved := LedgerView();
      ok := RemoveFromOutgoingPoolAndRefund(id, sender);
      if !ok {
        Rollback(saved);
      }
    }

    /** The message that asks for a batch; the source fails it where there is nothing to batch. */
    method RequestBatch(denom: string, params: Outgoing.TimeParams) returns (r: Selection.BuildResult)
      requires Valid() && params.averageEthereumBlockTime > 0
      modifies outgoing
      ensures Valid()
      ensures match Ledger.DenomToERC20(old(LedgerView()), denom)
        case None => r == Selection.Rejected && LedgerView() == old(LedgerView())
        case Some(lookup) =>
          var timeout := Outgoing.BatchTimeout(params, oracle.ethHeight, oracle.cosmosHeight, height);
          exists last :: Selection.IsLast(old(outgoing.View()), lookup.name, last)
            && (outgoing.View(), r) == Selection.Build(old(outgoing.View()), last, lookup.name, Bridge.BATCH_SIZE, timeout, height)
            && LedgerView() == old(LedgerView()).(outgoing := outgoing.View())
      ensures r.Built? && height < Outgoing.TWO64 && oracle.cosmosHeight < Outgoing.TWO64 ==>
                var b := r.batch;
                && b.nonce == old(outgoing.nextBatchId) && b.block == height && 1 <= |b.txs| <= 50
                && Outgoing.IsTimeout(params, oracle.ethHeight, oracle.cosmosHeight, height, b.timeout)
                && Outgoing.BatchKey(b.contract, b.nonce) in outgoing.batches && outgoing.batches[Outgoing.BatchKey(b.contract, b.nonce)] == b
    {
      hide Valsets.Inv, Oracle.Inv, Outgoing.Inv;
      var lookup := Ledger.DenomToERC20(LedgerView(), denom);
      if lookup.None? {
        return Selection.Rejected;
      }
      var timeout := Outgoing.BatchTimeout(params, oracle.ethHeight, oracle.cosmosHeight, height);
      ghost var s := outgoing.View();
      r := outgoing.BuildOutgoingTXBatch(lookup.value.name, Bridge.BATCH_SIZE, timeout, height);
      ghost var last :| Selection.IsLast(s, lookup.value.name, last)
        && (outgoing.View(), r) == Selection.Build(s, last, lookup.value.name, Bridge.BATCH_SIZE, timeout, height);
      Selection.BuiltBatch(s, last, lookup.value.name, Bridge.BATCH_SIZE, timeout, height);
      if height < Outgoing.TWO64 && oracle.cosmosHeight < Outgoing.TWO64 {
        Outgoing.BatchTimeoutIs(params, oracle.ethHeight, oracle.cosmosHeight, height);
      }
      hide Selection.Build, Outgoing.BatchTimeout, Outgoing.IsTimeout, Selection.IsLast;
    }

    // ----- observed claims -----

    method HandleDeposit(contract: string, amount: nat, receiver: string, env: Ledger.Env) returns (ok: bool)
      modifies this`bank
      ensures match Ledger.Deposit(old(LedgerView()), env, contract, amount, receiver)
        case Some(l) => ok && LedgerView() == l
        case None => !ok
    {
      var lookup := Ledger.ERC20ToDenom(LedgerView(), contract);
      var denom := lookup.name;
      if !lookup.cosmosOriginated {
        if env.swapErc20 != "" && env.swapDenom != "" && denom == Ledger.MODULE + env.swapErc20 {
          denom := env.swapDenom;
        }
        var minted := Ledger.Mint(bank, denom, amount);
        if minted.None? {
          return false;
        }
        bank := minted.value;
      }
      if receiver == "" {
        return false;
      }
      var sent := Ledger.Send(bank, Ledger.MODULE, receiver, denom, amount);
      if sent.None? {
        return false;
      }
      bank := sent.value;
      ok := true;
    }

    method HandleDeployed(denom: string, contract: string, name: string, symbol: string, decimals: nat, env: Ledger.Env) returns (ok: bool)
      modifies this`denomToErc20, this`erc20ToDenom
      ensures match Ledger.Deployed(old(LedgerView()), env, denom, contract, name, symbol, decimals)
        case Some(l) => ok && LedgerView() == l
        case None => !ok && LedgerView() == old(LedgerView())
    {
      if denom in denomToErc20 || denom !in env.metadata || env.metadata[denom].base == "" {
        return false;
      }
      var m := env.metadata[denom];
      if name != m.display || symbol != m.display {
        return false;
      }
      var exponent := FindExponent(m);
      if exponent != decimals % 0x1_0000_0000 {
        return false;
      }
      denomToErc20 := denomToErc20[denom := contract];
      erc20ToDenom := erc20ToDenom[contract := denom];
      ok := true;
    }

    /** Applies a claim. Where it fails, it may have written something. */
    method Handle(claim: Claim, env: Ledger.Env) returns (r: Ledger.Outcome<()>)
      requires outgoing.Valid()
      modifies this`bank, this`denomToErc20, this`erc20ToDenom, outgoing, valsets`observedValset
      ensures match Ledger.Handle(old(LedgerView()), claim, env)
        case Ok(l) => r == Ledger.Ok(()) && LedgerView() == l
        case Failed => r == Ledger.Failed
        case Panicked => r == Ledger.Panicked
    {
      hide Outgoing.Inv, Outgoing.Executed, Ledger.Deposit, Ledger.Deployed;
      match claim {
        case SendToCosmos(_, _, contract, amount, _, receiver) =>
          var ok := HandleDeposit(contract, amount, receiver, env);
          r := if ok then Ledger.Ok(()) else Ledger.Failed;
        case BatchSendToEth(_, _, batchNonce, contract) =>
          var panicked := outgoing.OutgoingTxBatchExecuted(contract, batchNonce);
          r := if panicked then Ledger.Panicked else Ledger.Ok(());
        case ERC20Deployed(_, _, denom, contract, name, symbol, decimals) =>
          var ok := HandleDeployed(denom, contract, name, symbol, decimals, env);
          r := if ok then Ledger.Ok(()) else Ledger.Failed;
        case ValsetUpdated(_, _, valsetNonce, members, rewardAmount, rewardToken) =>
          valsets.SetLastObservedValset(Some(Valset(valsetNonce, members, 0, rewardAmount, rewardToken)));
          if rewardAmount > 0 && rewardToken != ZERO_ADDRESS {
            var lookup := Ledger.ERC20ToDenom(LedgerView(), rewardToken);
            if !lookup.cosmosOriginated {
              return Ledger.Panicked;
            }
            var minted := Ledger.Mint(bank, lookup.name, rewardAmount);
            if minted.Some? {
              bank := minted.value;
            }
          }
          r := Ledger.Ok(());
        case LogicCallExecuted(_, _, _, _) =>
          r := Ledger.Panicked;
      }
    }

    /** Applies a claim to a cached store and commits it only if that succeeds. */
    method ProcessAttestation(claim: Claim, env: Ledger.Env) returns (panicked: bool)
      requires outgoing.Valid()
      modifies this, outgoing, valsets
      ensures height == old(height)
      ensures valsets.valsets == old(valsets.valsets) && valsets.latestNonce == old(valsets.latestNonce)
           && valsets.lastSlashed == old(valsets.lastSlashed) && valsets.lastUnbonding == old(valsets.lastUnbonding)
      ensures match HandleOne(old(LedgerView()), claim, env)
        case Some(l) => !panicked && LedgerView() == l && outgoing.Valid()
        case None => panicked
    {
      hide Outgoing.Inv, Ledger.Handle;
      var saved := LedgerView();
      HandleKeepsOutgoing(saved, claim, env);
      var r := Handle(claim, env);
      if r.Failed? {
        Rollback(saved);
      }
      panicked := r.Panicked?;
    }

    // ----- the end of a block -----

    /** The attestations of one nonce: the first one with a quorum is observed if the nonce comes next. */
    method TallyNonce(nonce: nat, list: seq<Oracle.Attestation>, pw: Oracle.Powers, env: Ledger.Env)
        returns (panicked: bool, ghost observed: Option<Oracle.Attestation>)
      requires outgoing.Valid()
      requires nonce == oracle.lastObserved + 1 ==>
                 forall i | 0 <= i < |list| :: Oracle.Observable(oracle.View(), list[i]) && !list[i].observed
      modifies this, outgoing, valsets, oracle
      ensures height == old(height)
      ensures valsets.valsets == old(valsets.valsets) && valsets.latestNonce == old(valsets.latestNonce)
           && valsets.lastSlashed == old(valsets.lastSlashed) && valsets.lastUnbonding == old(valsets.lastUnbonding)
      ensures observed == if nonce == old(oracle.lastObserved) + 1 then Oracle.FirstQuorum(pw, list) else None
      ensures oracle.View() == if observed.Some? then Oracle.Observe(old(oracle.View()), observed.value, height) else old(oracle.View())
      ensures match (if observed.Some? then HandleOne(old(LedgerView()), observed.value.claim, env) else Some(old(LedgerView())))
        case Some(l) => !panicked && LedgerView() == l && outgoing.Valid()
        case None => panicked
    {
      hide Outgoing.Inv, HandleOne, Oracle.Reaches;
      observed, panicked := None, false;
      for i := 0 to |list|
        invariant height == old(height)
        invariant valsets.valsets == old(valsets.valsets) && valsets.latestNonce == old(valsets.latestNonce)
               && valsets.lastSlashed == old(valsets.lastSlashed) && valsets.lastUnbonding == old(valsets.lastUnbonding)
        invariant outgoing.Valid() && !panicked
        invariant observed.None? ==> oracle.View() == old(oracle.View()) && LedgerView() == old(LedgerView())
        invariant nonce == old(oracle.lastObserved) + 1 ==>
                    Oracle.FirstQuorum(pw, list) == if observed.Some? then observed else Oracle.FirstQuorum(pw, list[i..])
        invariant nonce != old(oracle.lastObserved) + 1 ==> observed.None?
        invariant observed.Some? ==>
                    && oracle.lastObserved == nonce
                    && oracle.View() == Oracle.Observe(old(oracle.View()), observed.value, height)
                    && HandleOne(old(LedgerView()), observed.value.claim, env) == Some(LedgerView())
      {
        assert list[i..][0] == list[i] && list[i..][1..] == list[i + 1..];
        if nonce == oracle.lastObserved + 1 {
          var verdict := oracle.TryAttestation(list[i], pw, height);
          assert !verdict.Panicked?;
          if verdict.Observed? {
            observed := Some(list[i]);
            panicked := ProcessAttestation(list[i].claim, env);
            if panicked {
              return;
            }
          }
        }
      }
    }

    /** Goes through the nonces in order; panics only if a claim does. */
    method AttestationTally(pw: Oracle.Powers, env: Ledger.Env) returns (panicked: bool, ghost m: Oracle.Mapping)
      requires outgoing.Valid() && oracle.Valid()
      modifies this, outgoing, valsets, oracle
      ensures height == old(height)
      ensures valsets.valsets == old(valsets.valsets) && valsets.latestNonce == old(valsets.latestNonce)
           && valsets.lastSlashed == old(valsets.lastSlashed) && valsets.lastUnbonding == old(valsets.lastUnbonding)
      ensures Oracle.IsMapping(m, old(oracle.View()), 0)
      ensures match Ledger.HandleAll(old(LedgerView()), Oracle.Tally(old(oracle.View()), m, pw, height).1, env)
        case None => panicked
        case Some(l) => !panicked && LedgerView() == l && oracle.View() == Oracle.Tally(old(oracle.View()), m, pw, height).0
                        && outgoing.Valid() && oracle.Valid()
    {
      hide Outgoing.Inv, HandleOne, Oracle.IsMapping, Oracle.Inv, Oracle.KeyedByNonce;
      ghost var s, l := oracle.View(), LedgerView();
      var attmap := oracle.GetAttestationMapping();
      m := attmap;
      var keys := Nonces.Sorted(attmap.Keys);
      ghost var done: seq<Claim> := [];
      ProgressStart(s, m, pw, height);
      panicked := false;
      for i := 0 to |keys|
        invariant height == old(height) && outgoing.Valid() && !panicked
        invariant valsets.valsets == old(valsets.valsets) && valsets.latestNonce == old(valsets.latestNonce)
               && valsets.lastSlashed == old(valsets.lastSlashed) && valsets.lastUnbonding == old(valsets.lastUnbonding)
        invariant Progress(s, oracle.View(), m, pw, height, done, keys[..i])
        invariant Ledger.HandleAll(l, done, env) == Some(LedgerView())
      {
        var n := keys[i];
        assert keys[..i + 1] == keys[..i] + [n] && n in keys;
        ghost var s1, l1 := oracle.View(), LedgerView();
        if n == s1.lastObserved + 1 {
          NextAreObservable(s1, m, n);
        }
        ghost var observed;
        panicked, observed := TallyNonce(n, attmap[n], pw, env);
        if observed.Some? {
          ProgressObserve(s, s1, m, pw, height, done, keys[..i], n, observed.value);
          ghost var rest :| Oracle.Tally(s, m, pw, height).1 == done + [observed.value.claim] + rest;
          HandleAllAppend(l, done, observed.value.claim, rest, env);
          HandleAllSnoc(l, done, observed.value.claim, l1, env);
          done := done + [observed.value.claim];
        } else {
          ProgressSkip(s, s1, m, pw, height, done, keys[..i], n);
        }
        if panicked {
          return;
        }
      }
      assert keys[..|keys|] == keys;
      ProgressEnd(s, oracle.View(), m, pw, height, done, keys);
    }

    /** The validator set as it would be now; None is a panic over powers that are all zero or over the reward. */
    method GetCurrentValset(vals: seq<Power.Bonded>, coin: Ledger.Coin) returns (r: Option<(seq<BridgeValidator>, ERC20Token)>)
      ensures r.Some? <==> HasCurrentValset(LedgerView(), vals, coin)
      ensures r.Some? ==> IsCurrentValset(LedgerView(), vals, coin, r.value.0, r.value.1)
    {
      var members := Power.GetCurrentMembers(vals);
      if members.None? {
        return None;
      }
      var reward := ERC20Token(ZERO_ADDRESS, 0);
      if coin.denom != "" && coin.amount > 0 {
        var lookup := Ledger.DenomToERC20(LedgerView(), coin.denom);
        if lookup.None? || !ValidEthAddress(lookup.value.name) {
          return None;
        }
        reward := ERC20Token(lookup.value.name, coin.amount);
      }
      var sorted := Power.SortMembers(members.value);
      return Some((sorted, reward));
    }

    /** Creates a validator set if one must be created, and prunes old ones. `v` is how the block found the sets,
        and `ns` are those that its slashing has processed. */
    method UpdateValsets(window: nat, vals: seq<Power.Bonded>, coin: Ledger.Coin, ghost v: Valsets.State, ghost ns: seq<nat>)
        returns (ok: bool, ghost block: Valsets.Block)
      requires height >= 1 && Valsets.Inv(v, height - 1) && Valsets.IsUnslashed(ns, v, height, window)
      requires valsets.View() == Valsets.Slashed(v, ns).(lastObserved := valsets.View().lastObserved)
      modifies valsets
      ensures ok <==> HasCurrentValset(old(LedgerView()), vals, coin)
      ensures LedgerView() == old(LedgerView()) && valsets.lastUnbonding == old(valsets.lastUnbonding)
      ensures ok ==>
                && block.height == height && block.window == window
                && Valsets.Step(v, block, ns, valsets.View()) && Valsets.Inv(valsets.View(), height)
                && IsCurrentValset(LedgerView(), vals, coin, block.members, block.reward)
                && (block.create <==> ValsetKeeper.MustCreate(v, valsets.lastUnbonding, height, block.members))
    {
      hide Valsets.Inv, Valsets.IsUnslashed, Valsets.Pruned, Power.PowersMoved, HasCurrentValset, IsCurrentValset;
      ok, block := false, Valsets.Block(height, window, None, false, [], ERC20Token("", 0));
      ghost var observed := valsets.View().lastObserved;
      var current := GetCurrentValset(vals, coin);
      if current.None? {
        return;
      }
      var (members, reward) := current.value;
      var created := valsets.CreateValsets(height, members, reward);
      block := Valsets.Block(height, window, observed, created, members, reward);
      ReadyToPrune(v, block, ns);
      valsets.PruneValsets(height, window);
      Valsets.StepPreserves(v, block, ns, valsets.View(), height - 1);
      ok := true;
    }

    /** The end of a block: slashing, tally, cleanup of batches, creation and pruning of validator sets, pruning of
        attestations, in this order. It does not finish, which stops the chain, exactly if a claim panics or the
        current validator set cannot be made. `othersJailed` says whether the slashing for batches and logic calls
        jailed someone. */
    method EndBlocker(pw: Oracle.Powers, env: Ledger.Env, window: nat, unbondWindow: nat, staking: nat -> Valsets.Staking,
                      othersJailed: bool, vals: seq<Power.Bonded>, coin: Ledger.Coin)
        returns (finished: bool, slashes: seq<Valsets.Slash>, ghost m: Oracle.Mapping, ghost ns: seq<nat>, ghost block: Valsets.Block)
      requires Valid()
      modifies this, outgoing, valsets, oracle
      ensures Oracle.IsMapping(m, old(oracle.View()), 0)
      ensures var l := Ledger.HandleAll(old(LedgerView()), Observed(old(oracle.View()), m, pw, old(height)), env);
        finished <==> l.Some? && HasCurrentValset(l.value, vals, coin)
      ensures finished ==>
                && Valid() && height == old(height) + 1
                && Run.BlockEnds(old(LedgerView()), old(oracle.View()), old(height), m, pw, env, LedgerView(), oracle.View())
                && block.height == old(height) && block.window == window
                && Valsets.Step(old(valsets.View()), block, ns, valsets.View())
                && IsCurrentValset(LedgerView(), vals, coin, block.members, block.reward)
                && valsets.lastUnbonding == (if ValsetKeeper.Jails(slashes) || othersJailed then old(height) else old(valsets.lastUnbonding))
                && (block.create <==> ValsetKeeper.MustCreate(old(valsets.View()), valsets.lastUnbonding, old(height), block.members))
      ensures ValsetKeeper.AreStored(old(valsets.View()), ns)
      ensures slashes == ValsetKeeper.AllSlashes(old(valsets.View()), ns, staking, unbondWindow)
    {
      hide Oracle.Inv, Oracle.IsMapping, Oracle.Prune, Outgoing.Inv, Outgoing.Cancelled, Outgoing.TimedOut, Valsets.Inv,
           Valsets.IsUnslashed, Valsets.Slashed, Valsets.Step, Ledger.HandleAll, Oracle.Tally, ValsetKeeper.AllSlashes,
           ValsetKeeper.MustCreate, ValsetKeeper.Jails, Power.IsSortOf, Power.CurrentMembers;
      finished, block := false, Valsets.Block(height, window, None, false, [], ERC20Token("", 0));
      ghost var v := valsets.View();
      BlockLater(v, height);
      slashes, ns := valsets.ValsetSlashing(height, window, unbondWindow, staking);
      if othersJailed {
        valsets.AfterValidatorBeginUnbonding(height);
      }
      var panicked;
      panicked, m := AttestationTally(pw, env);
      if panicked {
        return;
      }
      outgoing.CleanupTimedOutBatches(oracle.ethHeight);
      finished, block := UpdateValsets(window, vals, coin, v, ns);
      if !finished {
        return;
      }
      oracle.PruneAttestations();
      height := height + 1;
    }
  }

  predicate HasCurrentValset(l: Ledger.State, vals: seq<Power.Bonded>, coin: Ledger.Coin) {
    Power.CurrentMembers(vals).Some? && Ledger.Reward(l, coin).Some?
  }

  /** The members are the normalized ones in order, and the reward is the one that the parameter stands for. */
  ghost predicate IsCurrentValset(l: Ledger.State, vals: seq<Power.Bonded>, coin: Ledger.Coin, members: seq<BridgeValidator>, reward: ERC20Token) {
    && HasCurrentValset(l, vals, coin)
    && Power.IsSortOf(members, Power.CurrentMembers(vals).value)
    && Ledger.Reward(l, coin) == Some(reward)
  }

  /** The claims that the tally of a block hands to the handler. */
  ghost function Observed(o: Oracle.State, m: Oracle.Mapping, pw: Oracle.Powers, height: nat): seq<Claim>
    requires Oracle.IsMapping(m, o, 0)
  {
    Oracle.Tally(o, m, pw, height).1
  }

  lemma BlockLater(v: Valsets.State, height: nat)
    requires height >= 1 && Valsets.Inv(v, height - 1)
    ensures Valsets.Inv(v, height)
  {
  }

  /** Slashing, the tally and a new set leave the sets in order. */
  lemma ReadyToPrune(v: Valsets.State, b: Valsets.Block, ns: seq<nat>)
    requires b.height >= 1 && Valsets.Inv(v, b.height - 1) && Valsets.IsUnslashed(ns, v, b.height, b.window)
    ensures Valsets.Inv(Valsets.AfterCreate(Valsets.AfterTally(Valsets.Slashed(v, ns), b), b), b.height)
  {
    Valsets.SlashingIsContiguous(v, ns, b.height, b.window);
    if b.create {
      Valsets.CreatePreserves(Valsets.AfterTally(Valsets.Slashed(v, ns), b), b.height, b.members, b.reward);
    }
  }

  method FindExponent(m: Ledger.Metadata) returns (exponent: nat)
    ensures exponent == Ledger.Decimals(m)
  {
    exponent := 0;
    for i := 0 to |m.units|
      invariant exponent == 0
      invariant Ledger.UnitExponent(m.units, m.display) == Ledger.UnitExponent(m.units[i..], m.display)
    {
      if m.units[i].0 == m.display {
        return m.units[i].1;
      }
    }
  }
}
