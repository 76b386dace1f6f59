/** The transfers to Ethereum: the pool of unbatched transfers, the batches made of them, and the two id
    counters. Every transfer is in one place at a time. */
module Outgoing {
  import opened Types
  import Lex

  /** The store key of a pool entry: contract of the fee, amount of the fee, transfer id. */
  datatype PoolKey = PoolKey(contract: string, fee: nat, id: nat)

  datatype BatchKey = BatchKey(contract: string, nonce: nat)

  datatype State = State(
    pool: map<PoolKey, Transfer>,
    batches: map<BatchKey, Batch>,
    nextTxId: nat,
    nextBatchId: nat)

  const Genesis := State(map[], map[], 1, 1)

  function KeyOf(tx: Transfer): PoolKey {
    PoolKey(tx.fee.contract, tx.fee.amount, tx.id)
  }

  // ---------- Timeouts ----------

  /** Average block times of the two chains and the target timeout, in milliseconds. */
  datatype TimeParams = TimeParams(averageBlockTime: nat, averageEthereumBlockTime: nat, targetBatchTimeout: nat)

  /** The Ethereum height at which a batch built now times out, projected from the last observed heights. The
      difference of the Cosmos heights is one of unsigned 64 bit integers. */
  function BatchTimeout(p: TimeParams, ethHeight: nat, cosmosHeight: nat, height: nat): nat
    requires p.averageEthereumBlockTime > 0
  {
    if cosmosHeight == 0 || ethHeight == 0 then 0
    else
      var elapsed := (height - cosmosHeight) % 0x1_0000_0000_0000_0000;
      elapsed * p.averageBlockTime / p.averageEthereumBlockTime + ethHeight + p.targetBatchTimeout / p.averageEthereumBlockTime
  }

  const TWO64: nat := 0x1_0000_0000_0000_0000

  /** So many whole blocks fit into a span of time. */
  predicate BlocksIn(millis: nat, blockTime: nat, n: nat) {
    n * blockTime <= millis < (n + 1) * blockTime
  }

  /** The milliseconds from one Cosmos height to another, as 64 bit heights. */
  function Elapsed(p: TimeParams, cosmosHeight: nat, height: nat): nat
    requires cosmosHeight < TWO64
  {
    p.averageBlockTime * if cosmosHeight <= height then height - cosmosHeight else TWO64 + height - cosmosHeight
  }

  ghost predicate IsSum(p: TimeParams, millis: nat, ethHeight: nat, timeout: nat, a: nat, b: nat) {
    && timeout == ethHeight + a + b
    && BlocksIn(millis, p.averageEthereumBlockTime, a)
    && BlocksIn(p.targetBatchTimeout, p.averageEthereumBlockTime, b)
  }

  /** The timeout lies at the last observed Ethereum height plus the Ethereum blocks that fit into the time since then
      plus those that fit into the target; it is 0 while a height is unknown. */
  ghost predicate IsTimeout(p: TimeParams, ethHeight: nat, cosmosHeight: nat, height: nat, timeout: nat)
    requires cosmosHeight < TWO64
  {
    if cosmosHeight == 0 || ethHeight == 0 then timeout == 0
    else exists a: nat, b: nat :: IsSum(p, Elapsed(p, cosmosHeight, height), ethHeight, timeout, a, b)
  }

  lemma QuotientFits(millis: nat, blockTime: nat)
    requires blockTime > 0
    ensures BlocksIn(millis, blockTime, millis / blockTime)
  {
  }

  /** For heights of 64 bits. */
  lemma BatchTimeoutIs(p: TimeParams, ethHeight: nat, cosmosHeight: nat, height: nat)
    requires p.averageEthereumBlockTime > 0 && height < TWO64 && cosmosHeight < TWO64
    ensures IsTimeout(p, ethHeight, cosmosHeight, height, BatchTimeout(p, ethHeight, cosmosHeight, height))
  {
    if cosmosHeight != 0 && ethHeight != 0 {
      var millis := Elapsed(p, cosmosHeight, height);
      assert millis == (height - cosmosHeight) % TWO64 * p.averageBlockTime;
      QuotientFits(millis, p.averageEthereumBlockTime);
      QuotientFits(p.targetBatchTimeout, p.averageEthereumBlockTime);
      hide BlocksIn, Elapsed;
      assert IsSum(p, millis, ethHeight, BatchTimeout(p, ethHeight, cosmosHeight, height),
                   millis / p.averageEthereumBlockTime, p.targetBatchTimeout / p.averageEthereumBlockTime);
    }
  }

  // ---------- Places ----------

  datatype Place = InPool(key: PoolKey) | InBatch(batch: BatchKey, index: nat)

  predicate Occupied(s: State, p: Place) {
    match p
    case InPool(k) => k in s.pool
    case InBatch(bk, i) => bk in s.batches && i < |s.batches[bk].txs|
  }

  function At(s: State, p: Place): Transfer
    requires Occupied(s, p)
  {
    match p
    case InPool(k) => s.pool[k]
    case InBatch(bk, i) => s.batches[bk].txs[i]
  }

  ghost function BatchTxs(s: State, keys: set<BatchKey>): set<Transfer> {
    set bk, i | bk in keys && bk in s.batches && 0 <= i < |s.batches[bk].txs| :: s.batches[bk].txs[i]
  }

  /** All transfers that are still on their way. */
  ghost function Pending(s: State): set<Transfer> {
    s.pool.Values + BatchTxs(s, s.batches.Keys)
  }

  ghost predicate Keyed(s: State) {
    && s.nextTxId >= 1 && s.nextBatchId >= 1
    && (forall k | k in s.pool :: KeyOf(s.pool[k]) == k)
    && (forall bk | bk in s.batches ::
          bk == BatchKey(s.batches[bk].contract, s.batches[bk].nonce) && 1 <= bk.nonce < s.nextBatchId)
    && (forall bk, i | bk in s.batches && 0 <= i < |s.batches[bk].txs| :: s.batches[bk].txs[i].fee.contract == bk.contract)
  }

  ghost predicate Numbered(s: State) {
    forall p | Occupied(s, p) :: 1 <= At(s, p).id < s.nextTxId && At(s, p).token.contract == At(s, p).fee.contract
  }

  /** No transfer id is in two places. */
  ghost predicate Partition(s: State) {
    forall p, q | Occupied(s, p) && Occupied(s, q) && At(s, p).id == At(s, q).id :: p == q
  }

  ghost predicate Inv(s: State) {
    Keyed(s) && Numbered(s) && Partition(s)
  }

  lemma PendingHasPlace(s: State, t: Transfer) returns (p: Place)
    requires t in Pending(s)
    ensures Occupied(s, p) && At(s, p) == t
  {
    if t in s.pool.Values {
      var k :| k in s.pool && s.pool[k] == t;
      p := InPool(k);
    } else {
      var bk, i :| bk in s.batches && 0 <= i < |s.batches[bk].txs| && s.batches[bk].txs[i] == t;
      p := InBatch(bk, i);
    }
  }

  lemma PlaceIsPending(s: State, p: Place)
    requires Occupied(s, p)
    ensures At(s, p) in Pending(s)
  {
    match p
    case InPool(k) => assert s.pool[k] in s.pool.Values;
    case InBatch(bk, i) => assert s.batches[bk].txs[i] in BatchTxs(s, s.batches.Keys);
  }

  // ---------- Entering and leaving the pool ----------

  /** A new transfer takes the next id. */
  function Enqueue(s: State, sender: string, dest: string, contract: string, amount: nat, fee: nat): State {
    var tx := Transfer(s.nextTxId, sender, dest, ERC20Token(contract, amount), ERC20Token(contract, fee));
    s.(pool := s.pool[KeyOf(tx) := tx], nextTxId := s.nextTxId + 1)
  }

  function Drop(s: State, key: PoolKey): State {
    s.(pool := s.pool - {key})
  }

  // ---------- Cancelling batches ----------

  ghost function Keys(txs: set<Transfer>): set<PoolKey> {
    set t | t in txs :: KeyOf(t)
  }

  ghost function WithKey(txs: set<Transfer>, k: PoolKey): (t: Transfer)
    requires k in Keys(txs)
    ensures t in txs && KeyOf(t) == k
  {
    var t :| t in txs && KeyOf(t) == k;
    t
  }

  ghost function AsPool(txs: set<Transfer>): map<PoolKey, Transfer> {
    map k | k in Keys(txs) :: WithKey(txs, k)
  }

  /** The batches of `keys` are deleted and their transfers go back to the pool. */
  ghost function Cancelled(s: State, keys: set<BatchKey>): State {
    s.(pool := s.pool + AsPool(BatchTxs(s, keys)), batches := s.batches - keys)
  }

  ghost function LowerBatches(s: State, contract: string, nonce: nat): set<BatchKey> {
    set bk | bk in s.batches && bk.contract == contract && bk.nonce < nonce
  }

  /** Batch `nonce` of `contract` was executed: its transfers are gone, the lower batches of the contract are
      cancelled. */
  ghost function Executed(s: State, contract: string, nonce: nat): State {
    var c := Cancelled(s, LowerBatches(s, contract, nonce));
    c.(batches := c.batches - {BatchKey(contract, nonce)})
  }

  ghost function TimedOut(s: State, ethHeight: nat): set<BatchKey> {
    set bk | bk in s.batches && s.batches[bk].timeout < ethHeight
  }

  /** Where a transfer of the state after a cancellation was before it. */
  ghost function Origin(s: State, keys: set<BatchKey>, p: Place): (q: Place)
    requires Occupied(Cancelled(s, keys), p)
    ensures Occupied(s, q) && At(s, q) == At(Cancelled(s, keys), p)
    ensures q == p || (p.InPool? && q.InBatch? && q.batch in keys)
    ensures p.InBatch? ==> p.batch !in keys
  {
    match p
    case InPool(k) =>
      if k in AsPool(BatchTxs(s, keys)) then
        var t := WithKey(BatchTxs(s, keys), k);
        var bk, i :| bk in keys && bk in s.batches && 0 <= i < |s.batches[bk].txs| && s.batches[bk].txs[i] == t;
        InBatch(bk, i)
      else p
    case InBatch(_, _) => p
  }

  lemma CancelPreserves(s: State, keys: set<BatchKey>)
    requires Inv(s)
    ensures Inv(Cancelled(s, keys))
  {
    var s' := Cancelled(s, keys);
    CancelKeepsKeys(s, keys);
    forall p | Occupied(s', p)
      ensures 1 <= At(s', p).id < s'.nextTxId && At(s', p).token.contract == At(s', p).fee.contract
    {
      var q := Origin(s, keys, p);
    }
    forall p, q | Occupied(s', p) && Occupied(s', q) && At(s', p).id == At(s', q).id
      ensures p == q
    {
      var p0, q0 := Origin(s, keys, p), Origin(s, keys, q);
      assert p0 == q0;
    }
  }

  lemma CancelKeepsKeys(s: State, keys: set<BatchKey>)
    requires Keyed(s)
    ensures Keyed(Cancelled(s, keys))
  {
  }

  lemma ReleasedIsInPool(s: State, keys: set<BatchKey>, t: Transfer)
    requires Inv(s) && t in s.pool.Values + BatchTxs(s, keys)
    ensures var pool := Cancelled(s, keys).pool; KeyOf(t) in pool && pool[KeyOf(t)] == t
  {
    var released := BatchTxs(s, keys);
    if KeyOf(t) in Keys(released) {
      var u := WithKey(released, KeyOf(t));
      var bk, i :| bk in keys && bk in s.batches && 0 <= i < |s.batches[bk].txs| && s.batches[bk].txs[i] == u;
      assert At(s, InBatch(bk, i)) == u;
      assert t in Pending(s) by {
        assert BatchTxs(s, keys) <= BatchTxs(s, s.batches.Keys);
      }
      var p := PendingHasPlace(s, t);
      assert p == InBatch(bk, i);
    }
  }

  lemma CancelFillsPool(s: State, keys: set<BatchKey>)
    requires Inv(s)
    ensures Cancelled(s, keys).pool.Values == s.pool.Values + BatchTxs(s, keys)
  {
    var s' := Cancelled(s, keys);
    forall t | t in s.pool.Values + BatchTxs(s, keys) ensures t in s'.pool.Values {
      ReleasedIsInPool(s, keys, t);
    }
  }

  lemma BatchTxsSplit(s: State, keys: set<BatchKey>)
    ensures BatchTxs(s, s.batches.Keys) == BatchTxs(s, keys) + BatchTxs(s, s.batches.Keys - keys)
  {
  }

  lemma BatchTxsSame(s: State, s': State, keys: set<BatchKey>)
    requires forall bk | bk in keys :: (bk in s.batches <==> bk in s'.batches) && (bk in s.batches ==> s.batches[bk] == s'.batches[bk])
    ensures BatchTxs(s, keys) == BatchTxs(s', keys)
  {
  }

  /** Cancelling loses no transfer and makes none up. */
  lemma CancelKeepsPending(s: State, keys: set<BatchKey>)
    requires Inv(s)
    ensures Pending(Cancelled(s, keys)) == Pending(s)
  {
    hide Inv, BatchTxs, AsPool;
    CancelFillsPool(s, keys);
    BatchTxsSplit(s, keys);
    BatchTxsSame(s, Cancelled(s, keys), s.batches.Keys - keys);
  }

  predicate KeyedPool(pool: map<PoolKey, Transfer>) {
    forall k | k in pool :: KeyOf(pool[k]) == k
  }

  lemma KeyedPoolsEqual(a: map<PoolKey, Transfer>, b: map<PoolKey, Transfer>)
    requires KeyedPool(a) && KeyedPool(b) && a.Values == b.Values
    ensures a == b
  {
    forall k | k in a ensures k in b && a[k] == b[k] {
      assert a[k] in b.Values;
    }
    forall k | k in b ensures k in a {
      assert b[k] in a.Values;
    }
  }

  /** Cancelling batches one by one is cancelling them together, so the order does not matter. */
  lemma CancelOneMore(s: State, keys: set<BatchKey>, bk: BatchKey)
    requires Inv(s) && bk !in keys
    ensures Cancelled(Cancelled(s, keys), {bk}) == Cancelled(s, keys + {bk})
  {
    hide BatchTxs, AsPool, Inv;
    var s1 := Cancelled(s, keys);
    CancelPreserves(s, keys);
    CancelPreserves(s1, {bk});
    CancelPreserves(s, keys + {bk});
    CancelFillsPool(s, keys);
    CancelFillsPool(s1, {bk});
    CancelFillsPool(s, keys + {bk});
    assert BatchTxs(s1, {bk}) == BatchTxs(s, {bk}) by { BatchTxsSame(s1, s, {bk}); }
    BatchTxsAdd(s, keys, bk);
    assert KeyedPool(Cancelled(s1, {bk}).pool) && KeyedPool(Cancelled(s, keys + {bk}).pool) by { InvKeysPools(); }
    KeyedPoolsEqual(Cancelled(s1, {bk}).pool, Cancelled(s, keys + {bk}).pool);
    assert s.batches - keys - {bk} == s.batches - (keys + {bk});
  }

  lemma InvKeysPools()
    ensures forall s | Inv(s) :: KeyedPool(s.pool)
  {
  }

  lemma BatchTxsAdd(s: State, keys: set<BatchKey>, bk: BatchKey)
    ensures BatchTxs(s, keys + {bk}) == BatchTxs(s, keys) + BatchTxs(s, {bk})
  {
  }

  /** After a cleanup exactly the batches with a timeout at or above the height are live, and the transfers of the
      others are in the pool. */
  lemma CleanupEffect(s: State, ethHeight: nat)
    requires Inv(s)
    ensures var s' := Cancelled(s, TimedOut(s, ethHeight));
      && (forall bk :: bk in s'.batches <==> bk in s.batches && s.batches[bk].timeout >= ethHeight)
      && (forall bk | bk in s'.batches :: s'.batches[bk] == s.batches[bk])
      && (forall t :: t in s'.pool.Values
           <==> t in s.pool.Values || exists bk :: bk in s.batches && s.batches[bk].timeout < ethHeight && t in s.batches[bk].txs)
      && s'.nextTxId == s.nextTxId && s'.nextBatchId == s.nextBatchId
  {
    var keys := TimedOut(s, ethHeight);
    CancelFillsPool(s, keys);
    forall t ensures t in BatchTxs(s, keys) <==> exists bk :: bk in s.batches && s.batches[bk].timeout < ethHeight && t in s.batches[bk].txs {
      if bk :| bk in s.batches && s.batches[bk].timeout < ethHeight && t in s.batches[bk].txs {
        var i :| 0 <= i < |s.batches[bk].txs| && s.batches[bk].txs[i] == t;
        assert bk in keys;
      }
    }
    hide Inv, AsPool, BatchTxs;
  }

  // ---------- Executing a batch ----------

  ghost function TxSet(txs: seq<Transfer>): set<Transfer> {
    set t | t in txs
  }

  /** Executing batch `nonce` of `contract` removes exactly its transfers, moves exactly those of the lower
      batches of the contract to the pool and touches no other batch. */
  lemma ExecuteEffect(s: State, contract: string, nonce: nat)
    requires Inv(s) && BatchKey(contract, nonce) in s.batches
    ensures var s' := Executed(s, contract, nonce);
      && Inv(s')
      && Pending(s') == Pending(s) - TxSet(s.batches[BatchKey(contract, nonce)].txs)
      && s'.pool.Values == s.pool.Values + BatchTxs(s, LowerBatches(s, contract, nonce))
      && s'.batches == (map bk | bk in s.batches && !(bk.contract == contract && bk.nonce <= nonce) :: s.batches[bk])
  {
    var lower := LowerBatches(s, contract, nonce);
    var s1 := Cancelled(s, lower);
    CancelPreserves(s, lower);
    CancelKeepsPending(s, lower);
    CancelFillsPool(s, lower);
    DeletePreserves(s1, BatchKey(contract, nonce));
    ExecutedBatches(s, contract, nonce);
  }

  lemma ExecutedBatches(s: State, contract: string, nonce: nat)
    requires Keyed(s)
    ensures Executed(s, contract, nonce).batches
         == (map bk | bk in s.batches && !(bk.contract == contract && bk.nonce <= nonce) :: s.batches[bk])
  {
  }

  lemma DeletePreserves(s: State, bk: BatchKey)
    requires Inv(s) && bk in s.batches
    ensures var s' := s.(batches := s.batches - {bk}); Inv(s') && Pending(s') == Pending(s) - TxSet(s.batches[bk].txs)
  {
    var s' := s.(batches := s.batches - {bk});
    assert forall p | Occupied(s', p) :: Occupied(s, p) && At(s', p) == At(s, p);
    assert forall i | 0 <= i < |s.batches[bk].txs| ::
        Occupied(s, InBatch(bk, i)) && At(s, InBatch(bk, i)) == s.batches[bk].txs[i];
    forall t | t in Pending(s') ensures t in Pending(s) && t !in s.batches[bk].txs {
      var p := PendingHasPlace(s', t);
      PlaceIsPending(s, p);
    }
    forall t | t in Pending(s) && t !in s.batches[bk].txs ensures t in Pending(s') {
      var p := PendingHasPlace(s, t);
      PlaceIsPending(s', p);
    }
  }

  // ---------- New transfers and refunds ----------

  lemma EnqueuePreserves(s: State, sender: string, dest: string, contract: string, amount: nat, fee: nat)
    requires Inv(s)
    ensures var s' := Enqueue(s, sender, dest, contract, amount, fee);
      var tx := Transfer(s.nextTxId, sender, dest, ERC20Token(contract, amount), ERC20Token(contract, fee));
      && Inv(s')
      && KeyOf(tx) !in s.pool
      && Pending(s') == Pending(s) + {tx}
  {
    var s' := Enqueue(s, sender, dest, contract, amount, fee);
    var tx := Transfer(s.nextTxId, sender, dest, ERC20Token(contract, amount), ERC20Token(contract, fee));
    if KeyOf(tx) in s.pool {
      assert Occupied(s, InPool(KeyOf(tx)));
    }
    assert forall p | Occupied(s', p) :: p == InPool(KeyOf(tx)) || (Occupied(s, p) && At(s', p) == At(s, p));
    assert s'.pool.Values == s.pool.Values + {tx} by {
      forall t | t in s.pool.Values ensures t in s'.pool.Values {
        var k :| k in s.pool && s.pool[k] == t;
        assert s'.pool[k] == t;
      }
      assert s'.pool[KeyOf(tx)] == tx;
    }
    assert BatchTxs(s', s'.batches.Keys) == BatchTxs(s, s.batches.Keys);
  }

  lemma DropPreserves(s: State, key: PoolKey)
    requires Inv(s) && key in s.pool
    ensures Inv(Drop(s, key)) && Pending(Drop(s, key)) == Pending(s) - {s.pool[key]}
  {
    var s' := Drop(s, key);
    assert forall p | Occupied(s', p) :: Occupied(s, p) && At(s', p) == At(s, p);
    forall t | t in Pending(s') ensures t in Pending(s) && t != s.pool[key] {
      var p := PendingHasPlace(s', t);
      PlaceIsPending(s, p);
      assert Occupied(s, InPool(key));
    }
    forall t | t in Pending(s) && t != s.pool[key] ensures t in Pending(s') {
      var p := PendingHasPlace(s, t);
      PlaceIsPending(s', p);
    }
  }
}
