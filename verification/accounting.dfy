/** What the vouchers of an Ethereum-originated contract and the transfers of it on their way are worth together,
    and how each operation of the ledger changes that. */
module Accounting {
  import opened Types
  import opened Ethereum
  import opened Ledger
  import Outgoing
  import Selection

  // ---------- Values of sets of transfers ----------

  function Worth(t: Transfer, contract: string): nat {
    if t.token.contract == contract then t.token.amount + t.fee.amount else 0
  }

  ghost function Value(txs: set<Transfer>, contract: string): nat {
    if txs == {} then 0 else
      var t :| t in txs;
      Worth(t, contract) + Value(txs - {t}, contract)
  }

  lemma {:induction false} ValueRemove(txs: set<Transfer>, t: Transfer, contract: string)
    requires t in txs
    ensures Value(txs, contract) == Worth(t, contract) + Value(txs - {t}, contract)
  {
    var u :| u in txs && Value(txs, contract) == Worth(u, contract) + Value(txs - {u}, contract);
    if u != t {
      ValueRemove(txs - {u}, t, contract);
      ValueRemove(txs - {t}, u, contract);
      assert txs - {u} - {t} == txs - {t} - {u};
    }
  }

  lemma ValueAdd(txs: set<Transfer>, t: Transfer, contract: string)
    requires t !in txs
    ensures Value(txs + {t}, contract) == Value(txs, contract) + Worth(t, contract)
  {
    ValueRemove(txs + {t}, t, contract);
    assert txs + {t} - {t} == txs;
  }

  lemma {:induction false} ValueSplit(txs: set<Transfer>, part: set<Transfer>, contract: string)
    requires part <= txs
    ensures Value(txs, contract) == Value(part, contract) + Value(txs - part, contract)
  {
    if part == {} {
      assert txs - part == txs;
    } else {
      var t :| t in part;
      ValueRemove(txs, t, contract);
      ValueRemove(part, t, contract);
      ValueSplit(txs - {t}, part - {t}, contract);
      assert txs - {t} - (part - {t}) == txs - part;
    }
  }

  // ---------- Ethereum-originated contracts ----------

  /** The contract and its voucher stay out of the index of cosmos-originated assets. */
  ghost predicate EthOriginated(s: State, contract: string) {
    contract !in s.erc20ToDenom && GravityDenom(contract) !in s.erc20ToDenom.Values
  }

  predicate NotSwapped(env: Env, contract: string) {
    env.swapErc20 != contract && env.swapDenom != GravityDenom(contract)
  }

  /** The two directions of the index name the same contracts. */
  ghost predicate Indexed(s: State) {
    forall denom | denom in s.denomToErc20 :: s.denomToErc20[denom] in s.erc20ToDenom
  }

  /** Vouchers in circulation plus transfers on their way. */
  ghost function Claimable(s: State, contract: string): nat {
    Supply(s.bank, GravityDenom(contract)) + Value(Outgoing.Pending(s.outgoing), contract)
  }

  lemma AddKeepsClaimable(s: State, sender: string, dest: string, amount: Coin, fee: Coin, contract: string)
    requires Outgoing.Inv(s.outgoing) && Indexed(s) && EthOriginated(s, contract)
    requires AddToPool(s, sender, dest, amount, fee).Ok?
    ensures Claimable(AddToPool(s, sender, dest, amount, fee).value.0, contract) == Claimable(s, contract)
  {
    hide Outgoing.Inv, Outgoing.Pending;
    var s' := AddToPool(s, sender, dest, amount, fee).value.0;
    var Lookup(originated, c) := DenomToERC20(s, amount.denom).value;
    var tx := Transfer(s.outgoing.nextTxId, sender, dest, ERC20Token(c, amount.amount), ERC20Token(c, fee.amount));
    Outgoing.EnqueuePreserves(s.outgoing, sender, dest, c, amount.amount, fee.amount);
    NewIsNotPending(s.outgoing, tx);
    ValueAdd(Outgoing.Pending(s.outgoing), tx, contract);
    DenomRoundTrip(amount.denom, c);
    if !originated && c != contract && GravityDenom(c) == GravityDenom(contract) {
      DenomInjective(c, contract);
    }
  }

  lemma NewIsNotPending(s: Outgoing.State, tx: Transfer)
    requires Outgoing.Inv(s) && tx.id == s.nextTxId
    ensures tx !in Outgoing.Pending(s)
  {
    if tx in Outgoing.Pending(s) {
      var p := Outgoing.PendingHasPlace(s, tx);
    }
  }

  lemma RefundKeepsClaimable(s: State, id: nat, sender: string, contract: string)
    requires Outgoing.Inv(s.outgoing) && EthOriginated(s, contract)
    requires RemoveAndRefund(s, id, sender).Ok?
    ensures Claimable(RemoveAndRefund(s, id, sender).value, contract) == Claimable(s, contract)
  {
    hide Outgoing.Inv;
    var k := EntryOf(s.outgoing, id);
    var tx := s.outgoing.pool[k];
    Outgoing.DropPreserves(s.outgoing, k);
    assert tx in Outgoing.Pending(s.outgoing);
    hide Outgoing.Pending;
    ValueRemove(Outgoing.Pending(s.outgoing), tx, contract);
    if tx.token.contract != contract && GravityDenom(tx.token.contract) == GravityDenom(contract) {
      DenomInjective(tx.token.contract, contract);
    }
  }

  /** What a deposit adds to the claimable value of a contract. */
  function Deposited(claim: Claim, contract: string): nat {
    if claim.SendToCosmos? && claim.contract == contract && claim.receiver != "" then claim.amount else 0
  }

  ghost function PaidOut(s: Outgoing.State, claim: Claim): set<Transfer> {
    if claim.BatchSendToEth? && Outgoing.BatchKey(claim.contract, claim.batchNonce) in s.batches
    then Outgoing.TxSet(s.batches[Outgoing.BatchKey(claim.contract, claim.batchNonce)].txs)
    else {}
  }

  ghost function After(s: State, claim: Claim, env: Env): State {
    var r := Handle(s, claim, env);
    if r.Ok? then r.value else s
  }

  lemma HandleChangesClaimable(s: State, claim: Claim, env: Env, contract: string)
    requires Outgoing.Inv(s.outgoing) && EthOriginated(s, contract) && NotSwapped(env, contract)
    ensures PaidOut(s.outgoing, claim) <= Outgoing.Pending(s.outgoing)
    ensures Claimable(After(s, claim, env), contract) + Value(PaidOut(s.outgoing, claim), contract)
         == Claimable(s, contract) + Deposited(claim, contract)
  {
    var paid := PaidOut(s.outgoing, claim);
    assert paid <= Outgoing.Pending(s.outgoing) by {
      forall t | t in paid ensures t in Outgoing.Pending(s.outgoing) {
        var bk := Outgoing.BatchKey(claim.contract, claim.batchNonce);
        var i :| 0 <= i < |s.outgoing.batches[bk].txs| && s.outgoing.batches[bk].txs[i] == t;
        Outgoing.PlaceIsPending(s.outgoing, Outgoing.InBatch(bk, i));
      }
    }
    hide Outgoing.Inv, Outgoing.Pending, Outgoing.Executed;
    match claim
    case SendToCosmos(_, _, c, amount, _, receiver) =>
      DepositMints(s, env, c, amount, receiver, contract);
    case BatchSendToEth(_, _, nonce, c) =>
      if Outgoing.BatchKey(c, nonce) in s.outgoing.batches {
        Outgoing.ExecuteEffect(s.outgoing, c, nonce);
        ValueSplit(Outgoing.Pending(s.outgoing), paid, contract);
      }
    case _ =>
  }

  lemma DepositMints(s: State, env: Env, c: string, amount: nat, receiver: string, contract: string)
    requires EthOriginated(s, contract) && NotSwapped(env, contract)
    ensures var s' := (match Deposit(s, env, c, amount, receiver) case None => s case Some(t) => t);
      && s'.outgoing == s.outgoing
      && Supply(s'.bank, GravityDenom(contract)) == Supply(s.bank, GravityDenom(contract)) + (if c == contract && receiver != "" then amount else 0)
  {
    if GravityDenom(c) == GravityDenom(contract) {
      DenomInjective(c, contract);
    }
    if GravityDenom(c) == MODULE + env.swapErc20 {
      DenomInjective(c, env.swapErc20);
    }
  }

  // ---------- Sending and cancelling ----------

  ghost predicate SameHoldings(a: Bank, b: Bank) {
    && (forall denom :: Supply(a, denom) == Supply(b, denom))
    && (forall account, denom :: Balance(a, account, denom) == Balance(b, account, denom))
  }

  predicate CanMint(b: Bank, account: string, denom: string, total: nat) {
    Mint(b, denom, total).Some? && Send(Mint(b, denom, total).value, MODULE, account, denom, total).Some?
  }

  /** The bank after coins were minted and given to an account. */
  function Minted(b: Bank, account: string, denom: string, total: nat): Bank
    requires CanMint(b, account, denom, total)
  {
    Send(Mint(b, denom, total).value, MODULE, account, denom, total).value
  }

  /** Minting for the account leads from b back to the holdings of b0. */
  ghost predicate Restores(b: Bank, b0: Bank, account: string, denom: string, total: int) {
    total > 0 && CanMint(b, account, denom, total) && SameHoldings(Minted(b, account, denom, total), b0)
  }

  lemma BurnThenMint(b: Bank, sender: string, denom: string, total: int)
    requires total >= 0 && Send(b, sender, MODULE, denom, total).Some?
    requires Burn(Send(b, sender, MODULE, denom, total).value, denom, total).Some?
    ensures Restores(Burn(Send(b, sender, MODULE, denom, total).value, denom, total).value, b, sender, denom, total)
  {
  }

  /** Sending vouchers to Ethereum and cancelling the transfer gives the sender back the same balance of the
      same denomination, and the supply and the other balances are as before. */
  lemma CancelUndoesSend(s: State, sender: string, dest: string, amount: Coin, fee: Coin, contract: string)
      returns (s1: State, id: nat, s2: State)
    requires Outgoing.Inv(s.outgoing) && amount.denom == GravityDenom(contract) && ValidEthAddress(contract)
    requires EthOriginated(s, contract) && AddToPool(s, sender, dest, amount, fee).Ok?
    ensures AddToPool(s, sender, dest, amount, fee) == Ok((s1, id))
    ensures RemoveAndRefund(s1, id, sender) == Ok(s2)
    ensures Outgoing.Pending(s2.outgoing) == Outgoing.Pending(s.outgoing)
    ensures SameHoldings(s2.bank, s.bank)
  {
    s1, id := SendEffect(s, sender, dest, amount, fee, contract);
    s2 := CancelRestores(s, s1, Transfer(id, sender, dest, ERC20Token(contract, amount.amount), ERC20Token(contract, fee.amount)));
  }

  /** Cancelling a transfer that has just been sent. */
  lemma CancelRestores(s: State, s1: State, tx: Transfer) returns (s2: State)
    requires Outgoing.Inv(s.outgoing) && tx.id == s.outgoing.nextTxId && tx.sender != "" && tx.fee.contract == tx.token.contract
    requires s1.outgoing == Outgoing.Enqueue(s.outgoing, tx.sender, tx.dest, tx.token.contract, tx.token.amount, tx.fee.amount)
    requires tx.token.contract !in s1.erc20ToDenom
    requires Restores(s1.bank, s.bank, tx.sender, GravityDenom(tx.token.contract), tx.token.amount + tx.fee.amount)
    ensures RemoveAndRefund(s1, tx.id, tx.sender) == Ok(s2)
    ensures Outgoing.Pending(s2.outgoing) == Outgoing.Pending(s.outgoing)
    ensures SameHoldings(s2.bank, s.bank)
  {
    hide *;
    NewEntry(s.outgoing, tx);
    RestoresIs(s1.bank, s.bank, tx.sender, GravityDenom(tx.token.contract), tx.token.amount + tx.fee.amount);
    s2 := CancelEffect(s1, tx);
  }

  lemma RestoresIs(b: Bank, b0: Bank, account: string, denom: string, total: int)
    requires Restores(b, b0, account, denom, total)
    ensures total > 0 && CanMint(b, account, denom, total) && SameHoldings(Minted(b, account, denom, total), b0)
  {
  }

  /** What sending vouchers does. */
  lemma SendEffect(s: State, sender: string, dest: string, amount: Coin, fee: Coin, contract: string) returns (s1: State, id: nat)
    requires amount.denom == GravityDenom(contract) && ValidEthAddress(contract)
    requires AddToPool(s, sender, dest, amount, fee).Ok?
    ensures AddToPool(s, sender, dest, amount, fee) == Ok((s1, id))
    ensures amount.amount >= 0 && fee.amount >= 0 && id == s.outgoing.nextTxId && sender != ""
    ensures s1.erc20ToDenom == s.erc20ToDenom
    ensures s1.outgoing == Outgoing.Enqueue(s.outgoing, sender, dest, contract, amount.amount, fee.amount)
    ensures Restores(s1.bank, s.bank, sender, amount.denom, amount.amount + fee.amount)
  {
    DenomRoundTrip(amount.denom, contract);
    var r := AddToPool(s, sender, dest, amount, fee).value;
    s1, id := r.0, r.1;
    BurnThenMint(s.bank, sender, amount.denom, amount.amount + fee.amount);
  }

  /** Taking a transfer out of the pool, where minting its coins succeeds. */
  lemma CancelEffect(s: State, tx: Transfer) returns (s': State)
    requires Outgoing.Inv(s.outgoing) && tx.id >= 1 && tx.sender != "" && tx.fee.contract == tx.token.contract
    requires Outgoing.KeyOf(tx) in s.outgoing.pool && s.outgoing.pool[Outgoing.KeyOf(tx)] == tx
    requires tx.token.contract !in s.erc20ToDenom
    requires CanMint(s.bank, tx.sender, GravityDenom(tx.token.contract), tx.token.amount + tx.fee.amount)
    ensures RemoveAndRefund(s, tx.id, tx.sender) == Ok(s')
    ensures Outgoing.Pending(s'.outgoing) == Outgoing.Pending(s.outgoing) - {tx}
    ensures s'.bank == Minted(s.bank, tx.sender, GravityDenom(tx.token.contract), tx.token.amount + tx.fee.amount)
  {
    var key := Outgoing.KeyOf(tx);
    CancelIsRefund(s, tx);
    RefundMints(s, tx);
    hide Outgoing.Inv, Outgoing.Pending, RemoveAndRefund, Refunded, CanMint, Minted;
    Outgoing.DropPreserves(s.outgoing, key);
    s' := RemoveAndRefund(s, tx.id, tx.sender).value;
  }

  lemma RefundMints(s: State, tx: Transfer)
    requires tx.token.contract !in s.erc20ToDenom
    requires CanMint(s.bank, tx.sender, GravityDenom(tx.token.contract), tx.token.amount + tx.fee.amount)
    ensures Refunded(s, tx) == Some(Minted(s.bank, tx.sender, GravityDenom(tx.token.contract), tx.token.amount + tx.fee.amount))
  {
    hide GravityDenom;
  }

  lemma NewEntry(s: Outgoing.State, tx: Transfer)
    requires Outgoing.Inv(s) && tx.id == s.nextTxId && tx.fee.contract == tx.token.contract
    ensures var s1 := Outgoing.Enqueue(s, tx.sender, tx.dest, tx.token.contract, tx.token.amount, tx.fee.amount);
      && Outgoing.Inv(s1) && tx.id >= 1
      && Outgoing.KeyOf(tx) in s1.pool && s1.pool[Outgoing.KeyOf(tx)] == tx
      && Outgoing.Pending(s1) - {tx} == Outgoing.Pending(s)
  {
    Outgoing.EnqueuePreserves(s, tx.sender, tx.dest, tx.token.contract, tx.token.amount, tx.fee.amount);
    NewIsNotPending(s, tx);
  }

  lemma OnlyEntry(s: Outgoing.State, key: Outgoing.PoolKey, id: nat)
    requires Outgoing.Inv(s) && key in s.pool && s.pool[key].id == id
    ensures HasId(s, id) && EntryOf(s, id) == key
  {
    var k := EntryOf(s, id);
    assert Outgoing.Occupied(s, Outgoing.InPool(k)) && Outgoing.Occupied(s, Outgoing.InPool(key));
  }

  // ---------- Cosmos-originated assets ----------

  /** A refund pays in the voucher denomination of the contract: minted if the contract is not in the index, taken
      from the module if it is. */
  predicate RefundsInKind(s: State, denom: string) {
    match DenomToERC20(s, denom)
    case None => false
    case Some(Lookup(originated, contract)) =>
      if originated then contract in s.erc20ToDenom && denom == GravityDenom(contract) else contract !in s.erc20ToDenom
  }

  /** The holdings after a cancellation that succeeded are those of b. */
  ghost predicate GivesBack(r: Outcome<State>, b: Bank) {
    r.Ok? && SameHoldings(r.value.bank, b)
  }

  /** For every asset: sending and cancelling restores all holdings exactly if the refund pays in the denomination
      and by the way in which the coins were taken. */
  lemma CancelGivesBackIff(s: State, sender: string, dest: string, amount: Coin, fee: Coin) returns (s1: State, id: nat)
    requires Outgoing.Inv(s.outgoing) && sender != MODULE && AddToPool(s, sender, dest, amount, fee).Ok?
    ensures AddToPool(s, sender, dest, amount, fee) == Ok((s1, id))
    ensures GivesBack(RemoveAndRefund(s1, id, sender), s.bank) <==> RefundsInKind(s, amount.denom)
  {
    var lookup := DenomToERC20(s, amount.denom).value;
    var tx := Transfer(s.outgoing.nextTxId, sender, dest, ERC20Token(lookup.name, amount.amount), ERC20Token(lookup.name, fee.amount));
    s1, id := SentEntry(s, sender, dest, amount, fee, lookup, tx);
    CancelIsRefund(s1, tx);
    hide Outgoing.Inv, GravityDenom, DenomToERC20, RemoveAndRefund, Refunded, AddToPool, IsEntry, SameHoldings, Taken;
    if lookup.cosmosOriginated {
      LockThenRefund(s, s1, tx, amount.denom);
    } else {
      VoucherDenom(s, amount.denom);
      BurnThenRefund(s, s1, tx);
    }
  }

  lemma VoucherDenom(s: State, denom: string)
    requires DenomToERC20(s, denom).Some? && !DenomToERC20(s, denom).value.cosmosOriginated
    ensures denom == GravityDenom(DenomToERC20(s, denom).value.name)
  {
    DenomRoundTrip(denom, DenomToERC20(s, denom).value.name);
  }

  /** The state after sending, for both kinds of assets. */
  lemma SentEntry(s: State, sender: string, dest: string, amount: Coin, fee: Coin, lookup: Lookup, tx: Transfer)
      returns (s1: State, id: nat)
    requires Outgoing.Inv(s.outgoing) && AddToPool(s, sender, dest, amount, fee).Ok? && DenomToERC20(s, amount.denom) == Some(lookup)
    requires amount.amount >= 0 && fee.amount >= 0 ==>
      tx == Transfer(s.outgoing.nextTxId, sender, dest, ERC20Token(lookup.name, amount.amount), ERC20Token(lookup.name, fee.amount))
    ensures AddToPool(s, sender, dest, amount, fee) == Ok((s1, id)) && id == tx.id >= 1 && sender == tx.sender != ""
    ensures amount.amount >= 0 && fee.amount >= 0 && tx.token.amount == amount.amount && tx.fee.amount == fee.amount
    ensures Outgoing.Inv(s1.outgoing) && IsEntry(s1.outgoing, tx) && s1.erc20ToDenom == s.erc20ToDenom
    ensures Taken(s.bank, s1.bank, sender, amount.denom, amount.amount + fee.amount, lookup.cosmosOriginated)
  {
    NewEntry(s.outgoing, tx);
    hide Outgoing.Inv, Outgoing.Pending, Outgoing.Enqueue, GravityDenomToERC20, Send, Burn;
    var r := AddToPool(s, sender, dest, amount, fee).value;
    s1, id := r.0, r.1;
  }

  ghost predicate IsEntry(s: Outgoing.State, tx: Transfer) {
    Outgoing.KeyOf(tx) in s.pool && s.pool[Outgoing.KeyOf(tx)] == tx
  }

  /** The coins were locked in the module, or burned. */
  predicate Taken(b: Bank, b1: Bank, sender: string, denom: string, total: nat, originated: bool) {
    var locked := Send(b, sender, MODULE, denom, total);
    && locked.Some?
    && Some(b1) == if originated then locked else Burn(locked.value, denom, total)
  }

  /** Cancelling an entry is refunding it. */
  lemma CancelIsRefund(s: State, tx: Transfer)
    requires Outgoing.Inv(s.outgoing) && IsEntry(s.outgoing, tx) && tx.id >= 1 && tx.sender != "" && tx.fee.contract == tx.token.contract
    ensures var r := RemoveAndRefund(s, tx.id, tx.sender);
      && (r.Ok? <==> Refunded(s, tx).Some?)
      && (r.Ok? ==> r.value.bank == Refunded(s, tx).value && r.value.outgoing == Outgoing.Drop(s.outgoing, Outgoing.KeyOf(tx)))
  {
    hide Outgoing.Inv, Refunded;
    OnlyEntry(s.outgoing, Outgoing.KeyOf(tx), tx.id);
  }

  /** Coins of a cosmos-originated asset come back only if they are vouchers by name. */
  lemma LockThenRefund(s: State, s1: State, tx: Transfer, denom: string)
    requires tx.sender != MODULE && s1.erc20ToDenom == s.erc20ToDenom
    requires Taken(s.bank, s1.bank, tx.sender, denom, tx.token.amount + tx.fee.amount, true)
    ensures Refunded(s1, tx).Some? && SameHoldings(Refunded(s1, tx).value, s.bank)
       <==> tx.token.contract in s.erc20ToDenom && denom == GravityDenom(tx.token.contract)
  {
    var voucher, total := GravityDenom(tx.token.contract), tx.token.amount + tx.fee.amount;
    hide GravityDenom;
    if tx.token.contract in s.erc20ToDenom {
      if denom == voucher {
        LockThenUnlock(s.bank, s1.bank, tx.sender, denom, total);
      } else if Refunded(s1, tx).Some? {
        assert Balance(Refunded(s1, tx).value, tx.sender, denom) == Balance(s.bank, tx.sender, denom) - total;
      }
    } else if Refunded(s1, tx).Some? {
      assert Supply(Refunded(s1, tx).value, voucher) == Supply(s.bank, voucher) + total;
    }
  }

  lemma LockThenUnlock(b: Bank, b1: Bank, sender: string, denom: string, total: nat)
    requires sender != MODULE && Taken(b, b1, sender, denom, total, true)
    ensures var r := Send(b1, MODULE, sender, denom, total); r.Some? && SameHoldings(r.value, b)
  {
  }

  /** Burned vouchers come back where they are minted again, and not where they are taken from the module. */
  lemma BurnThenRefund(s: State, s1: State, tx: Transfer)
    requires s1.erc20ToDenom == s.erc20ToDenom
    requires Taken(s.bank, s1.bank, tx.sender, GravityDenom(tx.token.contract), tx.token.amount + tx.fee.amount, false)
    ensures Refunded(s1, tx).Some? && SameHoldings(Refunded(s1, tx).value, s.bank) <==> tx.token.contract !in s.erc20ToDenom
  {
    hide *;
    TakenRestores(s.bank, s1.bank, tx.sender, GravityDenom(tx.token.contract), tx.token.amount + tx.fee.amount);
    if tx.token.contract !in s.erc20ToDenom {
      RefundMints(s1, tx);
    } else {
      BurnThenUnlock(s, s1, tx);
    }
  }

  lemma TakenRestores(b: Bank, b1: Bank, sender: string, denom: string, total: nat)
    requires Taken(b, b1, sender, denom, total, false)
    ensures CanMint(b1, sender, denom, total) && SameHoldings(Minted(b1, sender, denom, total), b)
  {
    BurnThenMint(b, sender, denom, total);
    RestoresIs(b1, b, sender, denom, total);
  }

  lemma BurnThenUnlock(s: State, s1: State, tx: Transfer)
    requires s1.erc20ToDenom == s.erc20ToDenom && tx.token.contract in s.erc20ToDenom
    requires Taken(s.bank, s1.bank, tx.sender, GravityDenom(tx.token.contract), tx.token.amount + tx.fee.amount, false)
    ensures Refunded(s1, tx).Some? ==> !SameHoldings(Refunded(s1, tx).value, s.bank)
  {
    var voucher, total := GravityDenom(tx.token.contract), tx.token.amount + tx.fee.amount;
    hide GravityDenom;
    if Refunded(s1, tx).Some? {
      assert Supply(Refunded(s1, tx).value, voucher) == Supply(s.bank, voucher) - total;
    }
  }

  /** A cosmos-originated asset of a valid contract can be cancelled exactly if the module happens to hold enough
      vouchers; and then the sender gets those, never its own coins. */
  lemma OriginatedCancelIff(s: State, sender: string, dest: string, amount: Coin, fee: Coin, contract: string)
      returns (s1: State, id: nat)
    requires Outgoing.Inv(s.outgoing) && ValidEthAddress(contract) && contract in s.erc20ToDenom
    requires DenomToERC20(s, amount.denom) == Some(Lookup(true, contract))
    requires AddToPool(s, sender, dest, amount, fee).Ok?
    ensures AddToPool(s, sender, dest, amount, fee) == Ok((s1, id))
    ensures var total := amount.amount + fee.amount;
      var voucher := GravityDenom(contract);
      var r := RemoveAndRefund(s1, id, sender);
      && total > 0 && amount.denom != voucher
      && (r.Ok? <==> Balance(s.bank, MODULE, voucher) >= total)
      && (r.Ok? && sender != MODULE ==>
            && Balance(r.value.bank, sender, amount.denom) == Balance(s.bank, sender, amount.denom) - total
            && Balance(r.value.bank, sender, voucher) == Balance(s.bank, sender, voucher) + total)
  {
    DenomRoundTrip(GravityDenom(contract), contract);
    assert amount.denom != GravityDenom(contract);
    var tx := Transfer(s.outgoing.nextTxId, sender, dest, ERC20Token(contract, amount.amount), ERC20Token(contract, fee.amount));
    s1, id := SentEntry(s, sender, dest, amount, fee, Lookup(true, contract), tx);
    CancelIsRefund(s1, tx);
    hide Outgoing.Inv, GravityDenom, GravityDenomToERC20, RemoveAndRefund, AddToPool, IsEntry;
  }

  /** Account "a" sends 5 atom, the module holds 5 vouchers of the contract that stands for atom, and "a" cancels:
      its atom stay in the module, and it holds the vouchers. */
  lemma OriginatedCancelWitness(contract: string) returns (s: State, s1: State, id: nat, s2: State)
    requires ValidEthAddress(contract)
    ensures AddToPool(s, "a", "b", Coin("atom", 4), Coin("atom", 1)) == Ok((s1, id)) && RemoveAndRefund(s1, id, "a") == Ok(s2)
    ensures Balance(s.bank, "a", "atom") == 5 == Balance(s2.bank, MODULE, "atom") && Balance(s2.bank, "a", "atom") == 0
    ensures Balance(s.bank, MODULE, GravityDenom(contract)) == 5 == Balance(s2.bank, "a", GravityDenom(contract))
  {
    var voucher := GravityDenom(contract);
    DenomRoundTrip("atom", contract);
    assert voucher[0] == 'n';
    s := Genesis.(bank := Bank(map[Holding("a", "atom") := 5, Holding(MODULE, voucher) := 5], map["atom" := 5, voucher := 5]),
                  denomToErc20 := map["atom" := contract], erc20ToDenom := map[contract := "atom"]);
    s1, id := OriginatedCancelIff(s, "a", "b", Coin("atom", 4), Coin("atom", 1), contract);
    s2 := RemoveAndRefund(s1, id, "a").value;
  }

  /** The two tables of the index are inverse to each other. */
  ghost predicate Inverse(s: State) {
    && (forall d | d in s.denomToErc20 :: s.denomToErc20[d] in s.erc20ToDenom && s.erc20ToDenom[s.denomToErc20[d]] == d)
    && (forall c | c in s.erc20ToDenom :: s.erc20ToDenom[c] in s.denomToErc20 && s.denomToErc20[s.erc20ToDenom[c]] == c)
  }

  /** A deployment that is accepted keeps the index one to one exactly if its contract was not indexed before. The
      handler only tests that the denomination was not. */
  lemma DeployKeepsInverseIff(s: State, env: Env, denom: string, contract: string, name: string, symbol: string, decimals: nat)
    requires Inverse(s) && Deployed(s, env, denom, contract, name, symbol, decimals).Some?
    ensures Inverse(Deployed(s, env, denom, contract, name, symbol, decimals).value) <==> contract !in s.erc20ToDenom
  {
    var s' := Deployed(s, env, denom, contract, name, symbol, decimals).value;
    assert s'.erc20ToDenom[contract] == denom;
    if contract in s.erc20ToDenom {
      var d := s.erc20ToDenom[contract];
      assert d in s'.denomToErc20 && s'.denomToErc20[d] == contract && d != denom;
    }
  }
}
