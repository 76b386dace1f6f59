/** What messages and observed claims do to every balance and every table, written out for the caller. */
module Effects {
  import opened Types
  import opened Ethereum
  import opened Ledger
  import Outgoing

  /** All holdings are as before, but for two accounts of one denomination and its supply. */
  ghost predicate OnlyMoved(b: Bank, b': Bank, denom: string, account1: string, account2: string) {
    && (forall d | d != denom :: Supply(b', d) == Supply(b, d))
    && (forall a, d | d != denom || (a != account1 && a != account2) :: Balance(b', a, d) == Balance(b, a, d))
  }

  /** Sending takes amount and fee from the sender in the denomination sent: vouchers leave the supply, other coins go to
      the module. The transfer waits in the pool under the next id, with the contract of the denomination. */
  lemma SendIs(s: State, sender: string, dest: string, amount: Coin, fee: Coin)
    requires sender != MODULE && AddToPool(s, sender, dest, amount, fee).Ok?
    ensures var (s', id) := AddToPool(s, sender, dest, amount, fee).value;
      var total := amount.amount + fee.amount;
      var denom := amount.denom;
      var lookup := DenomToERC20(s, denom).value;
      var tx := Transfer(id, sender, dest, ERC20Token(lookup.name, amount.amount), ERC20Token(lookup.name, fee.amount));
      && total > 0 && fee.denom == denom && sender != "" && dest != "" && id == s.outgoing.nextTxId
      && Balance(s'.bank, sender, denom) == Balance(s.bank, sender, denom) - total
      && Balance(s'.bank, MODULE, denom) == Balance(s.bank, MODULE, denom) + (if lookup.cosmosOriginated then total else 0)
      && Supply(s'.bank, denom) == Supply(s.bank, denom) - (if lookup.cosmosOriginated then 0 else total)
      && OnlyMoved(s.bank, s'.bank, denom, sender, MODULE)
      && s'.outgoing.pool == s.outgoing.pool[Outgoing.PoolKey(lookup.name, fee.amount, id) := tx]
      && s'.outgoing.nextTxId == id + 1 && s'.outgoing.batches == s.outgoing.batches
  {
    hide GravityDenomToERC20;
  }

  /** Cancelling is for the sender of a transfer in the pool only. It pays amount and fee in the voucher denomination:
      minted, or taken from the module if the contract is in the index. */
  lemma CancelIs(s: State, id: nat, sender: string)
    requires Outgoing.Inv(s.outgoing) && sender != MODULE && RemoveAndRefund(s, id, sender).Ok?
    ensures var s' := RemoveAndRefund(s, id, sender).value;
      exists k :: k in s.outgoing.pool
        && var tx := s.outgoing.pool[k];
           tx.id == id && tx.sender == sender && s'.outgoing == s.outgoing.(pool := s.outgoing.pool - {k})
           && Paid(s.bank, s'.bank, sender, "nab" + tx.token.contract, tx.token.amount + tx.fee.amount, tx.token.contract in s.erc20ToDenom)
  {
    var k := EntryOf(s.outgoing, id);
    var tx := s.outgoing.pool[k];
    RefundIs(s, tx);
    hide Outgoing.Inv, Paid;
  }

  /** Coins come to an account, from the module or newly minted. */
  ghost predicate Paid(b: Bank, b': Bank, account: string, denom: string, total: nat, fromModule: bool) {
    && Balance(b', account, denom) == Balance(b, account, denom) + total
    && Balance(b', MODULE, denom) == Balance(b, MODULE, denom) - (if fromModule then total else 0)
    && Supply(b', denom) == Supply(b, denom) + (if fromModule then 0 else total)
    && OnlyMoved(b, b', denom, account, MODULE)
  }

  lemma RefundIs(s: State, tx: Transfer)
    requires tx.sender != MODULE
    ensures var total := tx.token.amount + tx.fee.amount;
      var denom := "nab" + tx.token.contract;
      var indexed := tx.token.contract in s.erc20ToDenom;
      && (Refunded(s, tx).Some? <==> total == 0 || (indexed ==> Balance(s.bank, MODULE, denom) >= total))
      && (Refunded(s, tx).Some? ==> Paid(s.bank, Refunded(s, tx).value, tx.sender, denom, total, indexed))
  {
  }

  /** The denomination in which a deposit is paid: that of the index, that of the permanent swap, or the voucher. */
  function PaidIn(s: State, env: Env, contract: string): string {
    if contract in s.erc20ToDenom then s.erc20ToDenom[contract]
    else if contract == env.swapErc20 && env.swapErc20 != "" && env.swapDenom != "" then env.swapDenom
    else "nab" + contract
  }

  /** An observed deposit pays its amount to its receiver, and fails exactly if the receiver is invalid, there is nothing
      to pay, or coins that were locked are missing. */
  lemma DepositIs(s: State, env: Env, nonce: nat, height: nat, contract: string, amount: nat, ethSender: string, receiver: string)
    requires receiver != MODULE
    ensures var r := Handle(s, SendToCosmos(nonce, height, contract, amount, ethSender, receiver), env);
      var denom := PaidIn(s, env, contract);
      var indexed := contract in s.erc20ToDenom;
      && !r.Panicked?
      && (r.Ok? <==> receiver != "" && amount > 0 && (indexed ==> Balance(s.bank, MODULE, denom) >= amount))
      && (r.Ok? ==> r.value == s.(bank := r.value.bank) && Paid(s.bank, r.value.bank, receiver, denom, amount, indexed))
  {
    SwapIs(env, contract);
    UnlockPays(s.bank, receiver, PaidIn(s, env, contract), amount);
    MintPays(s.bank, receiver, PaidIn(s, env, contract), amount);
    hide GravityDenom, Send, Mint, Paid, Balance;
  }

  lemma UnlockPays(b: Bank, account: string, denom: string, total: nat)
    requires account != MODULE
    ensures var r := Send(b, MODULE, account, denom, total);
      && (r.Some? <==> total > 0 && Balance(b, MODULE, denom) >= total)
      && (r.Some? ==> Paid(b, r.value, account, denom, total, true))
  {
  }

  lemma MintPays(b: Bank, account: string, denom: string, total: nat)
    requires account != MODULE
    ensures (Mint(b, denom, total).Some? <==> total > 0)
    ensures total > 0 ==>
              var r := Send(Mint(b, denom, total).value, MODULE, account, denom, total);
              r.Some? && Paid(b, r.value, account, denom, total, false)
  {
  }

  lemma SwapIs(env: Env, contract: string)
    ensures GravityDenom(contract) == "nab" + contract
    ensures GravityDenom(contract) == MODULE + env.swapErc20 <==> contract == env.swapErc20
  {
    if GravityDenom(contract) == MODULE + env.swapErc20 {
      DenomInjective(contract, env.swapErc20);
    }
  }

  /** An observed validator set update stores the set, without a height, and mints the reward to the module if it is in an
      indexed contract; it panics over another reward. */
  lemma ValsetUpdatedIs(s: State, env: Env, nonce: nat, height: nat, valsetNonce: nat, members: seq<BridgeValidator>,
                        rewardAmount: nat, rewardToken: string)
    ensures var r := Handle(s, ValsetUpdated(nonce, height, valsetNonce, members, rewardAmount, rewardToken), env);
      var rewarded := rewardAmount > 0 && rewardToken != "0x0000000000000000000000000000000000000000";
      && !r.Failed?
      && (r.Panicked? <==> rewarded && rewardToken !in s.erc20ToDenom)
      && (r.Ok? ==>
            && r.value == s.(bank := r.value.bank, observedValset := Some(Valset(valsetNonce, members, 0, rewardAmount, rewardToken)))
            && if !rewarded then r.value.bank == s.bank
               else
                 var denom := s.erc20ToDenom[rewardToken];
                 && Supply(r.value.bank, denom) == Supply(s.bank, denom) + rewardAmount
                 && Balance(r.value.bank, MODULE, denom) == Balance(s.bank, MODULE, denom) + rewardAmount
                 && OnlyMoved(s.bank, r.value.bank, denom, MODULE, MODULE))
  {
  }

  /** The exponent of the first unit with the display name, or 0. */
  ghost predicate IsExponent(m: Metadata, exponent: nat) {
    || (exists i :: 0 <= i < |m.units| && m.units[i] == (m.display, exponent) && forall j | 0 <= j < i :: m.units[j].0 != m.display)
    || (exponent == 0 && forall j | 0 <= j < |m.units| :: m.units[j].0 != m.display)
  }

  lemma {:induction false} UnitExponentIs(m: Metadata, k: nat)
    requires k <= |m.units| && forall j | 0 <= j < k :: m.units[j].0 != m.display
    ensures IsExponent(m, UnitExponent(m.units[k..], m.display))
    decreases |m.units| - k
  {
    if k < |m.units| {
      if m.units[k].0 == m.display {
        assert m.units[k] == (m.display, m.units[k].1);
      } else {
        assert m.units[k..][1..] == m.units[k + 1..];
        UnitExponentIs(m, k + 1);
      }
    }
  }

  /** An observed deployment is accepted exactly if the denomination is new and name, symbol and decimals are those of the
      bank's metadata. It indexes the contract and the denomination by each other, and changes nothing else. */
  lemma DeployedIs(s: State, env: Env, nonce: nat, height: nat, denom: string, contract: string, name: string, symbol: string, decimals: nat)
    ensures var r := Handle(s, ERC20Deployed(nonce, height, denom, contract, name, symbol, decimals), env);
      && !r.Panicked?
      && (r.Ok? <==> denom !in s.denomToErc20 && denom in env.metadata
                     && var m := env.metadata[denom];
                        m.base != "" && m.display == name == symbol && IsExponent(m, decimals % 0x1_0000_0000))
      && (r.Ok? ==> r.value == s.(denomToErc20 := s.denomToErc20[denom := contract], erc20ToDenom := s.erc20ToDenom[contract := denom]))
  {
    if denom in env.metadata {
      var m := env.metadata[denom];
      assert m.units[0..] == m.units;
      UnitExponentIs(m, 0);
      OneExponent(m, Decimals(m), decimals % 0x1_0000_0000);
    }
  }

  lemma OneExponent(m: Metadata, a: nat, b: nat)
    requires IsExponent(m, a)
    ensures IsExponent(m, b) <==> a == b
  {
  }

  /** The reward of a validator set is the parameter's amount in the contract of its denomination; nothing for an empty
      parameter; and a panic exactly if there is no valid contract. */
  lemma RewardIs(s: State, coin: Coin)
    ensures var r := Reward(s, coin);
      var none := coin.denom == "" || coin.amount <= 0;
      && (none ==> r == Some(ERC20Token("0x0000000000000000000000000000000000000000", 0)))
      && (!none ==>
            (match DenomToERC20(s, coin.denom)
             case None => r.None?
             case Some(lookup) => if ValidEthAddress(lookup.name) then r == Some(ERC20Token(lookup.name, coin.amount)) else r.None?))
  {
  }

  /** The contract of a denomination: a voucher names it, other denominations have it in the index. */
  lemma LookupIs(s: State, denom: string)
    ensures DenomToERC20(s, denom).Some? ==>
              var Lookup(originated, contract) := DenomToERC20(s, denom).value;
              if originated then denom in s.denomToErc20 && s.denomToErc20[denom] == contract
              else denom == "nab" + contract && ValidEthAddress(contract)
    ensures forall contract | denom == "nab" + contract && ValidEthAddress(contract) :: DenomToERC20(s, denom) == Some(Lookup(false, contract))
    ensures (forall contract | denom == "nab" + contract :: !ValidEthAddress(contract)) ==>
              (DenomToERC20(s, denom).Some? <==> denom in s.denomToErc20)
  {
    forall contract | denom == "nab" + contract && ValidEthAddress(contract)
      ensures GravityDenomToERC20(denom) == Some(contract)
    {
      DenomRoundTrip(denom, contract);
    }
    if GravityDenomToERC20(denom).Some? {
      DenomRoundTrip(denom, GravityDenomToERC20(denom).value);
    }
  }
}
