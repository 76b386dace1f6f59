/** The keeper of the outgoing transfers: what the functions of the specification say, done step by step on the
    store's tables. */
module OutgoingKeeper {
  import opened Types
  import opened Outgoing
  import opened Selection

  // ---------- Store iterators ----------

  /** The keys that a reverse iterator yields. */
  method ReverseIterator(keys: set<PoolKey>) returns (d: seq<PoolKey>)
    ensures d == Descending(keys)
  {
    d := [];
    var rest := keys;
    while rest != {}
      invariant rest <= keys && IsDescending(d) && Elements(d) == keys - rest
      decreases |rest|
    {
      var k :| k in rest;
      assert k !in Elements(d);
      InsertDescending(d, k);
      d := Insert(d, k);
      rest := rest - {k};
    }
    DescendingIsUnique(d, Descending(keys));
  }

  ghost function Members(d: seq<BatchKey>): set<BatchKey> {
    set k | k in d
  }

  ghost predicate Unique(d: seq<BatchKey>) {
    forall i, j | 0 <= i < j < |d| :: d[i] != d[j]
  }

  /** A snapshot of batch keys, in any order. */
  method Snapshot(keys: set<BatchKey>) returns (d: seq<BatchKey>)
    ensures Unique(d) && Members(d) == keys
  {
    d := [];
    var rest := keys;
    while rest != {}
      invariant rest <= keys && Unique(d) && Members(d) == keys - rest
      decreases |rest|
    {
      var k :| k in rest;
      assert k !in Members(d);
      MembersSnoc(d, k);
      d := d + [k];
      rest := rest - {k};
    }
  }

  lemma MembersSnoc(d: seq<BatchKey>, k: BatchKey)
    ensures Members(d + [k]) == Members(d) + {k}
  {
  }

  // ---------- Putting the transfers of a batch back ----------

  lemma AsPoolSnoc(txs: seq<Transfer>, i: nat)
    requires i < |txs|
    requires forall a, b | 0 <= a < |txs| && 0 <= b < |txs| && txs[a].id == txs[b].id :: a == b
    ensures KeyOf(txs[i]) !in AsPool(TxSet(txs[..i]))
    ensures AsPool(TxSet(txs[..i + 1])) == AsPool(TxSet(txs[..i]))[KeyOf(txs[i]) := txs[i]]
  {
    var before, after := TxSet(txs[..i]), TxSet(txs[..i + 1]);
    assert after == before + {txs[i]} by { assert txs[..i + 1] == txs[..i] + [txs[i]]; }
    forall t | t in before ensures KeyOf(t) != KeyOf(txs[i]) {
      var a :| 0 <= a < i && txs[a] == t;
    }
    forall k | k in Keys(before) ensures WithKey(after, k) == WithKey(before, k) {
      var t, u := WithKey(before, k), WithKey(after, k);
      var a :| 0 <= a < i && txs[a] == t;
      var b :| 0 <= b <= i && txs[b] == u;
    }
  }

  /** The transfers of a live batch differ in their ids, and none of them has its key in the pool. */
  lemma BatchFitsPool(s: State, bk: BatchKey)
    requires Inv(s) && bk in s.batches
    ensures var txs := s.batches[bk].txs;
      && (forall a, b | 0 <= a < |txs| && 0 <= b < |txs| && txs[a].id == txs[b].id :: a == b)
      && (forall a | 0 <= a < |txs| :: KeyOf(txs[a]) !in s.pool)
      && BatchTxs(s, {bk}) == TxSet(txs)
  {
    var txs := s.batches[bk].txs;
    forall a, b | 0 <= a < |txs| && 0 <= b < |txs| && txs[a].id == txs[b].id ensures a == b {
      assert At(s, InBatch(bk, a)) == txs[a] && At(s, InBatch(bk, b)) == txs[b];
    }
    forall a | 0 <= a < |txs| ensures KeyOf(txs[a]) !in s.pool {
      forall k | k in s.pool ensures k != KeyOf(txs[a]) {
        assert At(s, InPool(k)) == s.pool[k] && At(s, InBatch(bk, a)) == txs[a];
      }
    }
  }

  /** Writing the contract of the batch into its transfers changes nothing. */
  lemma ContractsAreRight(s: State, bk: BatchKey)
    requires Inv(s) && bk in s.batches
    ensures Repaired(s.batches[bk], bk.contract) == s.batches[bk]
  {
    var b := s.batches[bk];
    forall i | 0 <= i < |b.txs| ensures RepairedTx(b.txs[i], bk.contract) == b.txs[i] {
      assert At(s, InBatch(bk, i)) == b.txs[i];
    }
  }

  function RepairedTx(t: Transfer, contract: string): Transfer {
    t.(token := t.token.(contract := contract), fee := t.fee.(contract := contract))
  }

  /** A batch as it is loaded: its transfers get the contract that was asked for. */
  function Repaired(b: Batch, contract: string): Batch {
    b.(txs := seq(|b.txs|, i requires 0 <= i < |b.txs| => RepairedTx(b.txs[i], contract)))
  }

  lemma CancelledNothing(s: State)
    ensures Cancelled(s, {}) == s
  {
    assert s.pool + AsPool({}) == s.pool;
    assert BatchTxs(s, {}) == {};
  }

  // ---------- One pass over all fees ----------

  /** The two maps are right about contract c, whose keys among those passed are o. */
  ghost predicate RightAbout(c: string, o: seq<PoolKey>, max: nat, fees: map<string, nat>, counts: map<string, nat>) {
    && (c in fees <==> o != [])
    && (c in counts <==> o != [])
    && Count(counts, c) == Limit(max, |o|)
    && Count(fees, c) == FeeTotal(o[..Limit(max, |o|)])
  }

  ghost predicate FeesUpTo(d: seq<PoolKey>, max: nat, fees: map<string, nat>, counts: map<string, nat>) {
    forall c :: RightAbout(c, OnlyContract(d, c), max, fees, counts)
  }

  ghost function Count(counts: map<string, nat>, c: string): nat {
    if c in counts then counts[c] else 0
  }

  lemma OnlyContractSnoc(d: seq<PoolKey>, k: PoolKey)
    ensures OnlyContract(d + [k], k.contract) == OnlyContract(d, k.contract) + [k]
    ensures forall c | c != k.contract :: OnlyContract(d + [k], c) == OnlyContract(d, c)
  {
    assert (d + [k])[..|d|] == d;
  }

  lemma LimitedFees(o: seq<PoolKey>, k: PoolKey, max: nat)
    requires max >= 1
    ensures var n := Limit(max, |o|); var n' := Limit(max, |o| + 1);
      if n < max then n == |o| && n' == n + 1 && FeeTotal((o + [k])[..n']) == FeeTotal(o[..n]) + k.fee
      else n' == n && (o + [k])[..n'] == o[..n]
  {
    var n := Limit(max, |o|);
    if n < max {
      assert o[..n] == o && (o + [k])[..n + 1] == o + [k] && (o + [k])[..n] == o;
    } else {
      assert (o + [k])[..n] == o[..n];
    }
  }

  lemma FeesUpToStep(d: seq<PoolKey>, k: PoolKey, max: nat, fees: map<string, nat>, counts: map<string, nat>)
      returns (fees': map<string, nat>, counts': map<string, nat>)
    requires max >= 1 && FeesUpTo(d, max, fees, counts)
    ensures if Count(counts, k.contract) < max
            then fees' == fees[k.contract := Count(fees, k.contract) + k.fee]
                 && counts' == counts[k.contract := Count(counts, k.contract) + 1]
            else fees' == fees && counts' == counts
    ensures FeesUpTo(d + [k], max, fees', counts')
  {
    var o := OnlyContract(d, k.contract);
    OnlyContractSnoc(d, k);
    LimitedFees(o, k, max);
    hide OnlyContract, FeeTotal;
    assert RightAbout(k.contract, o, max, fees, counts);
    if Count(counts, k.contract) < max {
      fees' := fees[k.contract := Count(fees, k.contract) + k.fee];
      counts' := counts[k.contract := Count(counts, k.contract) + 1];
    } else {
      fees', counts' := fees, counts;
    }
    forall c ensures RightAbout(c, OnlyContract(d + [k], c), max, fees', counts') {
      assert RightAbout(c, OnlyContract(d, c), max, fees, counts);
    }
  }

  lemma NoFeesYet(d: seq<PoolKey>, max: nat)
    ensures FeesUpTo(d[..0], max, map[], map[])
  {
  }

  lemma FeesUpToEnd(pool: map<PoolKey, Transfer>, max: nat, fees: map<string, nat>, counts: map<string, nat>)
    requires FeesUpTo(Descending(pool.Keys), max, fees, counts)
    ensures fees == AllFees(pool, max)
  {
    forall c ensures c in fees <==> c in Contracts(pool) {
      assert RightAbout(c, OnlyContract(Descending(pool.Keys), c), max, fees, counts);
      ContractScanIsFilteredScan(pool, c);
      var d := Descending(ContractKeys(pool, c));
      assert forall i | 0 <= i < |d| :: d[i] in Elements(d);
      if c in Contracts(pool) {
        var k :| k in pool && k.contract == c;
        assert k in Elements(d);
      }
    }
    forall c | c in fees ensures fees[c] == PredictedFee(pool, c, max) {
      assert RightAbout(c, OnlyContract(Descending(pool.Keys), c), max, fees, counts);
      ContractScanIsFilteredScan(pool, c);
    }
  }

  // ---------- Scanning a contract ----------

  lemma ScanFacts(s: State, keys: set<PoolKey>)
    requires Inv(s) && keys <= s.pool.Keys
    ensures forall n | 0 <= n < |Descending(keys)| :: 
      Descending(keys)[n] in keys && KeyOf(s.pool[Descending(keys)[n]]) == Descending(keys)[n]
  {
    assert forall n | 0 <= n < |Descending(keys)| :: Descending(keys)[n] in Elements(Descending(keys));
  }

  lemma NoFees(d: seq<PoolKey>)
    ensures FeeTotal(d[..0]) == 0
  {
  }

  lemma FeeTotalSnoc(d: seq<PoolKey>, n: nat)
    requires n < |d|
    ensures FeeTotal(d[..n + 1]) == FeeTotal(d[..n]) + d[n].fee
  {
    assert d[..n + 1][..n] == d[..n];
  }

  lemma PickNothing(pool: map<PoolKey, Transfer>, d: seq<PoolKey>)
    requires forall k | k in d :: k in pool
    ensures Elements(d[..0]) == {} && Transfers(pool, d[..0]) == []
  {
  }

  lemma PickStep(pool: map<PoolKey, Transfer>, d: seq<PoolKey>, n: nat)
    requires IsDescending(d) && n < |d| && forall k | k in d :: k in pool
    ensures d[n] !in Elements(d[..n])
    ensures Elements(d[..n + 1]) == Elements(d[..n]) + {d[n]}
    ensures Transfers(pool, d[..n + 1]) == Transfers(pool, d[..n]) + [pool[d[n]]]
  {
    assert d[..n + 1] == d[..n] + [d[n]];
    forall i | 0 <= i < n ensures d[i] != d[n] {
      KeyLessTotal(d[i], d[n]);
    }
  }

  // ---------- The keeper ----------

  /** Adds up the fees of a batch, and drops the sums. */
  method GetFees(b: Batch) returns (sum: nat)
    ensures sum == ReportedFees(b)
  {
    sum := 0;
    for i := 0 to |b.txs|
      invariant sum == 0
    {
      var _ := sum + b.txs[i].fee.amount;
    }
  }

  class Keeper {
    var pool: map<PoolKey, Transfer>
    var batches: map<BatchKey, Batch>
    var nextTxId: nat
    var nextBatchId: nat

    function View(): State
      reads this
    {
      State(pool, batches, nextTxId, nextBatchId)
    }

    ghost predicate Valid()
      reads this
    {
      Inv(View())
    }

    constructor ()
      ensures Valid() && View() == Genesis
    {
      pool, batches, nextTxId, nextBatchId := map[], map[], 1, 1;
    }

    // ----- the pool -----

    method AddUnbatchedTX(tx: Transfer) returns (ok: bool)
      modifies this`pool
      ensures ok == (KeyOf(tx) !in old(pool))
      ensures pool == if ok then old(pool)[KeyOf(tx) := tx] else old(pool)
    {
      ok := KeyOf(tx) !in pool;
      if ok {
        pool := pool[KeyOf(tx) := tx];
      }
    }

    method RemoveUnbatchedTX(key: PoolKey) returns (ok: bool)
      modifies this`pool
      ensures ok == (key in old(pool))
      ensures pool == old(pool) - {key}
    {
      ok := key in pool;
      pool := pool - {key};
    }

    /** Puts a new transfer under the next id into the pool. Its key is never taken. */
    method Enqueue(sender: string, dest: string, contract: string, amount: nat, fee: nat) returns (id: nat)
      requires Valid()
      modifies this`pool, this`nextTxId
      ensures Valid()
      ensures id == old(nextTxId) && View() == Outgoing.Enqueue(old(View()), sender, dest, contract, amount, fee)
    {
      EnqueuePreserves(View(), sender, dest, contract, amount, fee);
      id := nextTxId;
      nextTxId := id + 1;
      var ok := AddUnbatchedTX(Transfer(id, sender, dest, ERC20Token(contract, amount), ERC20Token(contract, fee)));
    }

    /** Looks through the whole pool. */
    method GetUnbatchedTxById(id: nat) returns (r: Option<Transfer>)
      requires Valid()
      ensures r.None? ==> forall k | k in pool :: pool[k].id != id
      ensures r.Some? ==> r.value.id == id && KeyOf(r.value) in pool && pool[KeyOf(r.value)] == r.value
    {
      var d := ReverseIterator(pool.Keys);
      for n := 0 to |d|
        invariant forall i | 0 <= i < n :: d[i] in pool && pool[d[i]].id != id
      {
        assert d[n] in Elements(d);
        if pool[d[n]].id == id {
          return Some(pool[d[n]]);
        }
      }
      assert forall k | k in pool :: k in Elements(d);
      return None;
    }

    // ----- fees -----

    method GetBatchFeeByTokenType(contract: string, max: nat) returns (fee: nat)
      requires Valid()
      ensures fee == PredictedFee(pool, contract, max)
    {
      hide Inv, FeeTotal, Descending;
      var d := ReverseIterator(ContractKeys(pool, contract));
      ScanFacts(View(), ContractKeys(pool, contract));
      NoFees(d);
      fee := 0;
      var n := 0;
      while n < |d|
        invariant n <= |d| && (n == 0 || max == 0 || n < max)
        invariant fee == FeeTotal(d[..n])
      {
        FeeTotalSnoc(d, n);
        var tx := pool[d[n]];
        assert tx.fee.contract == contract;
        fee := fee + tx.fee.amount;
        n := n + 1;
        if n == max {
          break;
        }
      }
      assert n == Limit(max, |d|);
    }

    /** The fees of the next batch of every contract, counted in one pass. */
    method CreateBatchFees(max: nat) returns (fees: map<string, nat>)
      requires Valid()
      ensures fees == if max == 0 then map[] else AllFees(pool, max)
    {
      hide Inv, Descending, FeesUpTo;
      var d := ReverseIterator(pool.Keys);
      ScanFacts(View(), pool.Keys);
      var counts: map<string, nat> := map[];
      fees := map[];
      NoFeesYet(d, max);
      for n := 0 to |d|
        invariant max == 0 ==> fees == map[] && counts == map[]
        invariant max >= 1 ==> FeesUpTo(d[..n], max, fees, counts)
      {
        var fee := pool[d[n]].fee;
        if max >= 1 {
          var f, c := FeesUpToStep(d[..n], d[n], max, fees, counts);
          assert d[..n] + [d[n]] == d[..n + 1];
        }
        var count := if fee.contract in counts then counts[fee.contract] else 0;
        if count < max {
          counts := counts[fee.contract := count + 1];
          fees := fees[fee.contract := (if fee.contract in fees then fees[fee.contract] else 0) + fee.amount];
        }
      }
      assert d[..|d|] == d;
      if max >= 1 {
        FeesUpToEnd(pool, max, fees, counts);
      }
    }

    // ----- batches -----

    method GetOutgoingTXBatch(contract: string, nonce: nat) returns (r: Option<Batch>)
      requires Valid()
      ensures r == var bk := BatchKey(contract, nonce); if bk in batches then Some(batches[bk]) else None
    {
      var bk := BatchKey(contract, nonce);
      if bk !in batches {
        return None;
      }
      ContractsAreRight(View(), bk);
      return Some(Repaired(batches[bk], contract));
    }

    method GetLastOutgoingBatchByTokenType(contract: string) returns (last: Option<Batch>)
      requires Valid()
      ensures IsLast(View(), contract, last)
    {
      var d := Snapshot(batches.Keys);
      last := None;
      var lastNonce := 0;
      for n := 0 to |d|
        invariant forall k | k in d[..n] && k.contract == contract :: k.nonce <= lastNonce
        invariant match last
          case None => lastNonce == 0
          case Some(b) => b.nonce == lastNonce && BatchKey(contract, lastNonce) in batches && batches[BatchKey(contract, lastNonce)] == b
      {
        assert d[n] in Members(d);
        assert d[..n + 1] == d[..n] + [d[n]];
        var b := batches[d[n]];
        if b.contract == contract && b.nonce > lastNonce {
          last := Some(b);
          lastNonce := b.nonce;
        }
      }
      assert d[..|d|] == d;
      assert forall k | k in batches :: k in Members(d);
    }

    /** Takes the transfers with the highest fees out of the pool. No key is found twice. */
    method PickUnbatchedTX(contract: string, max: nat) returns (selected: seq<Transfer>)
      requires Valid()
      modifies this`pool
      ensures selected == Picked(old(pool), contract, max)
      ensures pool == old(pool) - Elements(PickedKeys(old(pool), contract, max))
    {
      hide Inv, Descending, Transfers, Elements;
      var d := ReverseIterator(ContractKeys(pool, contract));
      ghost var was := pool;
      ScanFacts(View(), ContractKeys(pool, contract));
      PickNothing(was, d);
      selected := [];
      var n := 0;
      while n < |d|
        invariant n <= |d| && |selected| == n && (n == 0 || max == 0 || n < max)
        invariant pool == was - Elements(d[..n])
        invariant selected == Transfers(was, d[..n])
      {
        PickStep(was, d, n);
        var tx := pool[d[n]];
        selected := selected + [tx];
        var ok := RemoveUnbatchedTX(KeyOf(tx));
        assert ok && KeyOf(tx) !in pool;
        n := n + 1;
        if |selected| == max {
          break;
        }
      }
      assert n == Limit(max, |d|);
    }

    /** Moves the best transfers of a contract into a new batch. */
    method BuildOutgoingTXBatch(contract: string, max: nat, timeout: nat, block: nat) returns (r: BuildResult)
      requires Valid()
      modifies this`pool, this`batches, this`nextBatchId
      ensures Valid()
      ensures exists last :: IsLast(old(View()), contract, last)
                          && (View(), r) == Build(old(View()), last, contract, max, timeout, block)
    {
      ghost var s := View();
      var last := GetLastOutgoingBatchByTokenType(contract);
      assert IsLast(s, contract, last);
      MovedPreserves(s, contract, max, timeout, block);
      hide Inv, IsLast, Elements, PickedKeys, Picked, PredictedFee;
      if max == 0 {
        return Rejected;
      }
      if last.Some? {
        var currentFees := GetBatchFeeByTokenType(contract, max);
        var lastFees := GetFees(last.value);
        if lastFees > currentFees {
          return Rejected;
        }
      }
      var selected := PickUnbatchedTX(contract, max);
      if |selected| == 0 {
        PickedNothing(s.pool, contract, max);
        return NothingToBatch;
      }
      var id := nextBatchId;
      nextBatchId := id + 1;
      var batch := Batch(id, timeout, selected, contract, block);
      batches := batches[BatchKey(contract, id) := batch];
      r := Built(batch);
    }

    /** Puts every transfer of the batch back into the pool and deletes the batch. No transfer is found in the
        pool already, so the source's panic is never reached. */
    method CancelOutgoingTXBatch(contract: string, nonce: nat) returns (ok: bool)
      requires Valid()
      modifies this`pool, this`batches
      ensures Valid()
      ensures ok == (BatchKey(contract, nonce) in old(batches))
      ensures View() == if ok then Cancelled(old(View()), {BatchKey(contract, nonce)}) else old(View())
    {
      hide Inv, AsPool, BatchTxs, TxSet;
      var bk := BatchKey(contract, nonce);
      var batch := GetOutgoingTXBatch(contract, nonce);
      if batch.None? {
        return false;
      }
      ghost var s := View();
      BatchFitsPool(s, bk);
      CancelPreserves(s, {bk});
      var txs := batch.value.txs;
      EmptyPool(txs);
      for i := 0 to |txs|
        invariant pool == s.pool + AsPool(TxSet(txs[..i]))
        invariant batches == s.batches
      {
        AsPoolSnoc(txs, i);
        var added := AddUnbatchedTX(txs[i]);
        assert added;
      }
      assert txs[..|txs|] == txs;
      batches := batches - {bk};
      ok := true;
    }

    /** Forgets an executed batch and cancels the lower ones of its contract; panics if the batch is unknown. */
    method OutgoingTxBatchExecuted(contract: string, nonce: nat) returns (panicked: bool)
      requires Valid()
      modifies this`pool, this`batches
      ensures Valid()
      ensures panicked == (BatchKey(contract, nonce) !in old(batches))
      ensures View() == if panicked then old(View()) else Executed(old(View()), contract, nonce)
    {
      hide Inv, AsPool, BatchTxs;
      ghost var s := View();
      var b := GetOutgoingTXBatch(contract, nonce);
      if b.None? {
        return true;
      }
      ExecuteEffect(s, contract, nonce);
      var live := batches;
      var d := Snapshot(live.Keys);
      CancelledNothing(s);
      KeyedBatches(s);
      assert Lower(Members(d[..0]), contract, nonce) == {};
      for i := 0 to |d|
        invariant Valid()
        invariant View() == Cancelled(s, Lower(Members(d[..i]), contract, nonce))
      {
        LowerSnoc(d, i, contract, nonce);
        var k := d[i];
        if live[k].nonce < b.value.nonce && live[k].contract == contract {
          ghost var lower := Lower(Members(d[..i]), contract, nonce);
          CancelOneMore(s, lower, k);
          var ok := CancelOutgoingTXBatch(contract, live[k].nonce);
          assert ok && View() == Cancelled(s, lower + {k});
        }
      }
      assert d[..|d|] == d;
      assert Lower(Members(d), contract, nonce) == LowerBatches(s, contract, nonce);
      batches := batches - {BatchKey(contract, nonce)};
      panicked := false;
    }

    /** Cancels the batches that have timed out at the last observed Ethereum height. */
    method CleanupTimedOutBatches(ethHeight: nat)
      requires Valid()
      modifies this`pool, this`batches
      ensures Valid()
      ensures View() == Cancelled(old(View()), TimedOut(old(View()), ethHeight))
    {
      hide Inv, AsPool, BatchTxs;
      ghost var s := View();
      var live := batches;
      var d := Snapshot(live.Keys);
      CancelledNothing(s);
      KeyedBatches(s);
      assert Late(s, Members(d[..0]), ethHeight) == {};
      assert forall i | 0 <= i < |d| :: d[i] in Members(d);
      for i := 0 to |d|
        invariant Valid()
        invariant View() == Cancelled(s, Late(s, Members(d[..i]), ethHeight))
      {
        LateSnoc(s, d, i, ethHeight);
        var k := d[i];
        if live[k].timeout < ethHeight {
          ghost var late := Late(s, Members(d[..i]), ethHeight);
          CancelOneMore(s, late, k);
          var ok := CancelOutgoingTXBatch(live[k].contract, live[k].nonce);
          assert ok && View() == Cancelled(s, late + {k});
        }
      }
      assert d[..|d|] == d;
      assert Late(s, Members(d), ethHeight) == TimedOut(s, ethHeight);
    }
  }

  lemma PickedNothing(pool: map<PoolKey, Transfer>, contract: string, max: nat)
    requires Picked(pool, contract, max) == []
    ensures pool - Elements(PickedKeys(pool, contract, max)) == pool
  {
  }

  lemma EmptyPool(txs: seq<Transfer>)
    ensures AsPool(TxSet(txs[..0])) == map[]
  {
  }

  ghost function Lower(keys: set<BatchKey>, contract: string, nonce: nat): set<BatchKey> {
    set k | k in keys && k.contract == contract && k.nonce < nonce
  }

  lemma LowerSnoc(d: seq<BatchKey>, i: nat, contract: string, nonce: nat)
    requires Unique(d) && i < |d|
    ensures d[i] in Members(d) && d[i] !in Members(d[..i])
    ensures Lower(Members(d[..i + 1]), contract, nonce)
         == var lower := Lower(Members(d[..i]), contract, nonce);
            if d[i].contract == contract && d[i].nonce < nonce then lower + {d[i]} else lower
  {
    assert d[..i + 1] == d[..i] + [d[i]];
  }

  lemma LateSnoc(s: State, d: seq<BatchKey>, i: nat, ethHeight: nat)
    requires Unique(d) && i < |d| && d[i] in s.batches
    ensures d[i] in Members(d) && d[i] !in Members(d[..i])
    ensures Late(s, Members(d[..i + 1]), ethHeight)
         == var late := Late(s, Members(d[..i]), ethHeight);
            if s.batches[d[i]].timeout < ethHeight then late + {d[i]} else late
  {
    assert d[..i + 1] == d[..i] + [d[i]];
  }

  lemma KeyedBatches(s: State)
    requires Inv(s)
    ensures forall k | k in s.batches :: BatchKey(s.batches[k].contract, s.batches[k].nonce) == k
  {
  }

  ghost function Late(s: State, keys: set<BatchKey>, ethHeight: nat): set<BatchKey> {
    set k | k in keys && k in s.batches && s.batches[k].timeout < ethHeight
  }
}
