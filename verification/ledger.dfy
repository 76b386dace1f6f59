/** Tokens on the Cosmos side: the bank, the index of cosmos-originated assets, and what messages and observed
    claims do to them and to the outgoing transfers. */
module Ledger {
  import opened Types
  import opened Ethereum
  import Outgoing

  // ---------- The bank ----------

  datatype Holding = Holding(account: string, denom: string)

  datatype Bank = Bank(balances: map<Holding, nat>, supply: map<string, nat>)

  /** The account of the module. */
  const MODULE := "nab"

  function Balance(b: Bank, account: string, denom: string): nat {
    var h := Holding(account, denom);
    if h in b.balances then b.balances[h] else 0
  }

  function Supply(b: Bank, denom: string): nat {
    if denom in b.supply then b.supply[denom] else 0
  }

  function WithBalance(b: Bank, account: string, denom: string, amount: nat): Bank {
    b.(balances := b.balances[Holding(account, denom) := amount])
  }

  /** The bank refuses to move nothing and to overdraw. */
  function Send(b: Bank, from: string, to: string, denom: string, amount: nat): Option<Bank> {
    if amount == 0 || Balance(b, from, denom) < amount then None
    else
      var b1 := WithBalance(b, from, denom, Balance(b, from, denom) - amount);
      Some(WithBalance(b1, to, denom, Balance(b1, to, denom) + amount))
  }

  function Mint(b: Bank, denom: string, amount: nat): Option<Bank> {
    if amount == 0 then None
    else
      var b1 := WithBalance(b, MODULE, denom, Balance(b, MODULE, denom) + amount);
      Some(b1.(supply := b1.supply[denom := Supply(b1, denom) + amount]))
  }

  function Burn(b: Bank, denom: string, amount: nat): Option<Bank> {
    if amount == 0 || Balance(b, MODULE, denom) < amount || Supply(b, denom) < amount then None
    else
      var b1 := WithBalance(b, MODULE, denom, Balance(b, MODULE, denom) - amount);
      Some(b1.(supply := b1.supply[denom := Supply(b1, denom) - amount]))
  }

  // ---------- The state ----------

  datatype State = State(
    outgoing: Outgoing.State,
    bank: Bank,
    denomToErc20: map<string, string>,
    erc20ToDenom: map<string, string>,
    observedValset: Option<Valset>)

  const Genesis := State(Outgoing.Genesis, Bank(map[], map[]), map[], map[], None)

  datatype Metadata = Metadata(base: string, display: string, units: seq<(string, nat)>)

  /** What the module reads from elsewhere: the permanent swap parameter and the bank's denom metadata. */
  datatype Env = Env(swapErc20: string, swapDenom: string, metadata: map<string, Metadata>)

  datatype Outcome<+T> = Ok(value: T) | Failed | Panicked

  // ---------- Cosmos-originated assets ----------

  datatype Lookup = Lookup(cosmosOriginated: bool, name: string)

  function DenomToERC20(s: State, denom: string): Option<Lookup> {
    match GravityDenomToERC20(denom)
    case Some(contract) => Some(Lookup(false, contract))
    case None => if denom in s.denomToErc20 then Some(Lookup(true, s.denomToErc20[denom])) else None
  }

  function ERC20ToDenom(s: State, contract: string): Lookup {
    if contract in s.erc20ToDenom then Lookup(true, s.erc20ToDenom[contract]) else Lookup(false, GravityDenom(contract))
  }

  function SetOriginated(s: State, denom: string, contract: string): State {
    s.(denomToErc20 := s.denomToErc20[denom := contract], erc20ToDenom := s.erc20ToDenom[contract := denom])
  }

  datatype Coin = Coin(denom: string, amount: int)

  /** The reward of a validator set: none for an empty or invalid coin; None is a panic. */
  function Reward(s: State, coin: Coin): Option<ERC20Token> {
    if coin.denom == "" || coin.amount <= 0 then Some(ERC20Token(ZERO_ADDRESS, 0))
    else
      match DenomToERC20(s, coin.denom)
      case Some(lookup) => if ValidEthAddress(lookup.name) then Some(ERC20Token(lookup.name, coin.amount)) else None
      case None => None
  }

  // ---------- Sending and cancelling ----------

  /** A transfer enters the pool: its coins are locked in the module, or burned if they are vouchers. */
  function AddToPool(s: State, sender: string, dest: string, amount: Coin, fee: Coin): Outcome<(State, nat)> {
    if sender == "" || dest == "" || amount.amount < 0 || fee.amount < 0 || fee.denom != amount.denom then
      Failed
    else
      var total := amount.amount + fee.amount;
      match DenomToERC20(s, amount.denom)
      case None => Failed
      case Some(Lookup(originated, contract)) =>
        match Send(s.bank, sender, MODULE, amount.denom, total)
        case None => Failed
        case Some(locked) =>
          var paid := if originated then Some(locked) else Burn(locked, amount.denom, total);
          match paid
          case None => Panicked
          case Some(bank) =>
            var s' := s.(bank := bank, outgoing := Outgoing.Enqueue(s.outgoing, sender, dest, contract, amount.amount, fee.amount));
            Ok((s', s.outgoing.nextTxId))
  }

  ghost predicate HasId(s: Outgoing.State, id: nat) {
    exists k :: k in s.pool && s.pool[k].id == id
  }

  /** The pool entry of a transfer id; there is at most one in the reachable states. */
  ghost function EntryOf(s: Outgoing.State, id: nat): (k: Outgoing.PoolKey)
    requires HasId(s, id)
    ensures k in s.pool && s.pool[k].id == id
  {
    var k :| k in s.pool && s.pool[k].id == id;
    k
  }

  /** Coins for a transfer that leaves the pool: unlocked or minted again, amount and fee together. */
  function Refunded(s: State, tx: Transfer): Option<Bank> {
    var denom := GravityDenom(tx.token.contract);
    var total := tx.token.amount + tx.fee.amount;
    if total == 0 then Some(s.bank)
    else if ERC20ToDenom(s, tx.token.contract).cosmosOriginated then
      Send(s.bank, MODULE, tx.sender, denom, total)
    else
      match Mint(s.bank, denom, total)
      case None => None
      case Some(bank) => Send(bank, MODULE, tx.sender, denom, total)
  }

  /** A sender takes its transfer out of the pool and gets the coins back. */
  ghost function RemoveAndRefund(s: State, id: nat, sender: string): Outcome<State> {
    if id < 1 || sender == "" || !HasId(s.outgoing, id) then Failed
    else
      var k := EntryOf(s.outgoing, id);
      var tx := s.outgoing.pool[k];
      if tx.sender != sender || tx.fee.contract != tx.token.contract then Failed
      else
        match Refunded(s, tx)
        case None => Failed
        case Some(bank) => Ok(s.(bank := bank, outgoing := Outgoing.Drop(s.outgoing, k)))
  }

  // ---------- Observed claims ----------

  /** The exponent of the display unit, zero if there is none. */
  function Decimals(m: Metadata): nat {
    UnitExponent(m.units, m.display)
  }

  function UnitExponent(units: seq<(string, nat)>, display: string): nat {
    if units == [] then 0
    else if units[0].0 == display then units[0].1
    else UnitExponent(units[1..], display)
  }

  /** A deposit for an invalid receiver, here the empty string, fails and pays out nothing. */
  function Deposit(s: State, env: Env, contract: string, amount: nat, receiver: string): Option<State> {
    var Lookup(originated, denom0) := ERC20ToDenom(s, contract);
    if receiver == "" then None
    else if originated then
      match Send(s.bank, MODULE, receiver, denom0, amount)
      case None => None
      case Some(bank) => Some(s.(bank := bank))
    else
      var denom := if env.swapErc20 != "" && env.swapDenom != "" && denom0 == MODULE + env.swapErc20 then env.swapDenom else denom0;
      match Mint(s.bank, denom, amount)
      case None => None
      case Some(minted) =>
        match Send(minted, MODULE, receiver, denom, amount)
        case None => None
        case Some(bank) => Some(s.(bank := bank))
  }

  /** What the handler demands of a deployed contract: it fits the bank's metadata of the denomination. */
  predicate FitsMetadata(env: Env, denom: string, name: string, symbol: string, decimals: nat) {
    && denom in env.metadata
    && var m := env.metadata[denom];
    m.base != "" && name == m.display && symbol == m.display && Decimals(m) == decimals % 0x1_0000_0000
  }

  function Deployed(s: State, env: Env, denom: string, contract: string, name: string, symbol: string, decimals: nat): Option<State> {
    if denom in s.denomToErc20 || !FitsMetadata(env, denom, name, symbol, decimals) then None
    else Some(SetOriginated(s, denom, contract))
  }

  /** What applying an observed claim does. A failure leaves the state as it was; a panic stops the chain. */
  ghost function Handle(s: State, claim: Claim, env: Env): Outcome<State> {
    match claim
    case SendToCosmos(_, _, contract, amount, _, receiver) =>
      (match Deposit(s, env, contract, amount, receiver) case None => Failed case Some(s') => Ok(s'))
    case BatchSendToEth(_, _, batchNonce, contract) =>
      if Outgoing.BatchKey(contract, batchNonce) !in s.outgoing.batches then Panicked
      else Ok(s.(outgoing := Outgoing.Executed(s.outgoing, contract, batchNonce)))
    case ERC20Deployed(_, _, denom, contract, name, symbol, decimals) =>
      (match Deployed(s, env, denom, contract, name, symbol, decimals) case None => Failed case Some(s') => Ok(s'))
    case ValsetUpdated(_, _, valsetNonce, members, rewardAmount, rewardToken) =>
      var s' := s.(observedValset := Some(Valset(valsetNonce, members, 0, rewardAmount, rewardToken)));
      if rewardAmount == 0 || rewardToken == ZERO_ADDRESS then Ok(s')
      else
        var Lookup(originated, denom) := ERC20ToDenom(s, rewardToken);
        if originated then
          (match Mint(s.bank, denom, rewardAmount) case None => Ok(s') case Some(bank) => Ok(s'.(bank := bank)))
        else Panicked
    case LogicCallExecuted(_, _, _, _) => Panicked
  }

  /** Applying the claims of one tally in order; None if one of them panics. */
  ghost function HandleAll(s: State, claims: seq<Claim>, env: Env): Option<State>
    decreases |claims|
  {
    if claims == [] then Some(s)
    else
      match Handle(s, claims[0], env)
      case Ok(s') => HandleAll(s', claims[1..], env)
      case Failed => HandleAll(s, claims[1..], env)
      case Panicked => None
  }
}
