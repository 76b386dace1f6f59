/** Which transfers the next batch of a contract takes: the store is scanned in descending key order, that is by
    contract, then fee, then id, so a batch gets the highest fees. */
module Selection {
  import opened Types
  import opened Outgoing
  import Lex

  // ---------- The order of pool keys ----------

  predicate KeyLess(a: PoolKey, b: PoolKey) {
    if a.contract != b.contract then Lex.Less(Lex.Codes(a.contract), Lex.Codes(b.contract))
    else a.fee < b.fee || (a.fee == b.fee && a.id < b.id)
  }

  lemma KeyLessTransitive(a: PoolKey, b: PoolKey, c: PoolKey)
    requires KeyLess(a, b) && KeyLess(b, c)
    ensures KeyLess(a, c)
  {
    if a.contract != b.contract && b.contract != c.contract {
      Lex.Transitive(Lex.Codes(a.contract), Lex.Codes(b.contract), Lex.Codes(c.contract));
      Lex.Irreflexive(Lex.Codes(a.contract));
    }
  }

  lemma KeyLessTotal(a: PoolKey, b: PoolKey)
    ensures a == b || KeyLess(a, b) || KeyLess(b, a)
    ensures !(KeyLess(a, b) && KeyLess(b, a))
  {
    Lex.Total(Lex.Codes(a.contract), Lex.Codes(b.contract));
    if a.contract != b.contract {
      if Lex.Codes(a.contract) == Lex.Codes(b.contract) {
        Lex.CodesInjective(a.contract, b.contract);
      }
      if KeyLess(a, b) && KeyLess(b, a) {
        Lex.Transitive(Lex.Codes(a.contract), Lex.Codes(b.contract), Lex.Codes(a.contract));
        Lex.Irreflexive(Lex.Codes(a.contract));
      }
    }
  }

  ghost predicate IsDescending(d: seq<PoolKey>) {
    forall i, j | 0 <= i < j < |d| :: KeyLess(d[j], d[i])
  }

  ghost function Elements(d: seq<PoolKey>): set<PoolKey> {
    set k | k in d
  }

  function Insert(d: seq<PoolKey>, k: PoolKey): seq<PoolKey> {
    if d == [] then [k]
    else if KeyLess(d[0], k) then [k] + d
    else [d[0]] + Insert(d[1..], k)
  }

  lemma {:induction false} InsertDescending(d: seq<PoolKey>, k: PoolKey)
    requires IsDescending(d) && k !in d
    ensures IsDescending(Insert(d, k)) && Elements(Insert(d, k)) == Elements(d) + {k}
  {
    if d != [] {
      KeyLessTotal(d[0], k);
      if KeyLess(d[0], k) {
        forall j | 0 <= j < |d| ensures KeyLess(d[j], k) {
          if j > 0 {
            KeyLessTransitive(d[j], d[0], k);
          }
        }
      } else {
        InsertDescending(d[1..], k);
        var rest := Insert(d[1..], k);
        forall j | 0 <= j < |rest| ensures KeyLess(rest[j], d[0]) {
          assert rest[j] in Elements(rest);
          if rest[j] != k {
            var i :| 1 <= i < |d| && d[i] == rest[j];
          }
        }
        assert Elements(d) == {d[0]} + Elements(d[1..]);
        assert Elements([d[0]] + rest) == {d[0]} + Elements(rest);
      }
    }
  }

  /** The keys as a reverse store iterator yields them. */
  ghost function Descending(keys: set<PoolKey>): (d: seq<PoolKey>)
    ensures IsDescending(d) && Elements(d) == keys
  {
    if keys == {} then [] else
      var k :| k in keys;
      InsertDescending(Descending(keys - {k}), k);
      Insert(Descending(keys - {k}), k)
  }

  lemma {:induction false} DescendingIsUnique(a: seq<PoolKey>, b: seq<PoolKey>)
    requires IsDescending(a) && IsDescending(b) && Elements(a) == Elements(b)
    ensures a == b
  {
    assert b == [] || b[0] in Elements(b);
    if a != [] {
      assert a[0] in Elements(b) && b != [];
      assert b[0] in Elements(a);
      KeyLessTotal(a[0], b[0]);
      assert a[0] == b[0];
      TailElements(a);
      TailElements(b);
      DescendingIsUnique(a[1..], b[1..]);
    }
  }

  lemma TailElements(a: seq<PoolKey>)
    requires IsDescending(a) && a != []
    ensures Elements(a[1..]) == Elements(a) - {a[0]}
  {
    forall j | 0 < j < |a| ensures a[j] != a[0] {
      KeyLessTotal(a[j], a[0]);
    }
  }

  lemma {:induction false} DescendingLength(d: seq<PoolKey>)
    requires IsDescending(d)
    ensures |Elements(d)| == |d|
  {
    if d != [] {
      TailElements(d);
      DescendingLength(d[1..]);
    }
  }

  // ---------- What a batch picks ----------

  function ContractKeys(pool: map<PoolKey, Transfer>, contract: string): set<PoolKey> {
    set k | k in pool && k.contract == contract
  }

  /** The scan stops when it has `max` elements, which it never has if `max` is zero. */
  function Limit(max: nat, n: nat): nat {
    if max == 0 || n <= max then n else max
  }

  ghost function PickedKeys(pool: map<PoolKey, Transfer>, contract: string, max: nat): seq<PoolKey> {
    var d := Descending(ContractKeys(pool, contract));
    d[..Limit(max, |d|)]
  }

  ghost function Transfers(pool: map<PoolKey, Transfer>, ks: seq<PoolKey>): seq<Transfer>
    requires forall k | k in ks :: k in pool
  {
    seq(|ks|, i requires 0 <= i < |ks| => pool[ks[i]])
  }

  ghost function Picked(pool: map<PoolKey, Transfer>, contract: string, max: nat): seq<Transfer> {
    var ks := PickedKeys(pool, contract, max);
    PickedAreKeys(pool, contract, max);
    Transfers(pool, ks)
  }

  lemma PickedAreKeys(pool: map<PoolKey, Transfer>, contract: string, max: nat)
    ensures IsDescending(PickedKeys(pool, contract, max))
    ensures forall k | k in PickedKeys(pool, contract, max) :: k in pool && k.contract == contract
  {
    var d := Descending(ContractKeys(pool, contract));
    forall k | k in PickedKeys(pool, contract, max) ensures k in pool && k.contract == contract {
      assert k in Elements(d);
    }
  }

  function FeeTotal(ks: seq<PoolKey>): nat {
    if ks == [] then 0 else FeeTotal(ks[..|ks| - 1]) + ks[|ks| - 1].fee
  }

  function FeeSum(txs: seq<Transfer>): nat {
    if txs == [] then 0 else FeeSum(txs[..|txs| - 1]) + txs[|txs| - 1].fee.amount
  }

  /** The fee total that the next batch of the contract would have. */
  ghost function PredictedFee(pool: map<PoolKey, Transfer>, contract: string, max: nat): nat {
    FeeTotal(PickedKeys(pool, contract, max))
  }

  lemma {:induction false} FeesOfTransfers(pool: map<PoolKey, Transfer>, ks: seq<PoolKey>)
    requires KeyedPool(pool) && forall k | k in ks :: k in pool
    ensures FeeSum(Transfers(pool, ks)) == FeeTotal(ks)
  {
    if ks != [] {
      var init := ks[..|ks| - 1];
      FeesOfTransfers(pool, init);
      assert Transfers(pool, ks)[..|ks| - 1] == Transfers(pool, init);
      assert pool[ks[|ks| - 1]].fee.amount == ks[|ks| - 1].fee;
    }
  }

  /** The prediction is the fee sum of the batch that would be picked. */
  lemma PredictionIsExact(pool: map<PoolKey, Transfer>, contract: string, max: nat)
    requires KeyedPool(pool)
    ensures FeeSum(Picked(pool, contract, max)) == PredictedFee(pool, contract, max)
  {
    PickedAreKeys(pool, contract, max);
    FeesOfTransfers(pool, PickedKeys(pool, contract, max));
  }

  // ---------- The picked fees are the highest possible ----------

  ghost function SetFees(ks: set<PoolKey>): nat {
    if ks == {} then 0 else
      var k :| k in ks;
      k.fee + SetFees(ks - {k})
  }

  lemma {:induction false} SetFeesRemove(ks: set<PoolKey>, k: PoolKey)
    requires k in ks
    ensures SetFees(ks) == k.fee + SetFees(ks - {k})
  {
    var j :| j in ks && SetFees(ks) == j.fee + SetFees(ks - {j});
    if j != k {
      SetFeesRemove(ks - {j}, k);
      SetFeesRemove(ks - {k}, j);
      assert ks - {j} - {k} == ks - {k} - {j};
    }
  }

  ghost predicate OfContract(d: seq<PoolKey>, contract: string) {
    forall k | k in d :: k.contract == contract
  }

  lemma LastIsSmallest(d: seq<PoolKey>, contract: string, n: nat)
    requires IsDescending(d) && OfContract(d, contract) && n < |d|
    ensures FeeTotal(d[..n]) + d[|d| - 1].fee <= FeeTotal(d[..n + 1])
  {
    assert d[..n + 1][..n] == d[..n];
    assert d[n] in d && d[|d| - 1] in d;
    assert n == |d| - 1 || KeyLess(d[|d| - 1], d[n]);
  }

  lemma InitDescending(d: seq<PoolKey>, contract: string)
    requires IsDescending(d) && OfContract(d, contract) && d != []
    ensures var init := d[..|d| - 1];
      IsDescending(init) && OfContract(init, contract) && Elements(d) == Elements(init) + {d[|d| - 1]}
  {
    assert d == d[..|d| - 1] + [d[|d| - 1]];
  }

  lemma WithSmallest(d: seq<PoolKey>, contract: string, ks: set<PoolKey>, n: nat)
    requires IsDescending(d) && OfContract(d, contract) && n < |d| && d[|d| - 1] in ks
    requires SetFees(ks - {d[|d| - 1]}) <= FeeTotal(d[..n])
    ensures SetFees(ks) <= FeeTotal(d[..n + 1])
  {
    hide *;
    SetFeesRemove(ks, d[|d| - 1]);
    LastIsSmallest(d, contract, n);
  }

  /** A subset of d without the smallest element is one of the rest of d. */
  lemma WithoutSmallest(d: seq<PoolKey>, contract: string, ks: set<PoolKey>)
    requires IsDescending(d) && OfContract(d, contract) && d != [] && ks <= Elements(d)
    ensures var init := d[..|d| - 1];
      IsDescending(init) && OfContract(init, contract) && ks - {d[|d| - 1]} <= Elements(init) && (d[|d| - 1] !in ks ==> ks <= Elements(init))
      && forall n | 0 <= n < |d| :: init[..n] == d[..n]
  {
    InitDescending(d, contract);
  }

  lemma {:induction false} PrefixBeatsSubset(d: seq<PoolKey>, contract: string, ks: set<PoolKey>, n: nat)
    requires IsDescending(d) && OfContract(d, contract) && ks <= Elements(d) && n == |ks|
    ensures n <= |d| && SetFees(ks) <= FeeTotal(d[..n])
    decreases |d|
  {
    if d == [] {
      assert ks == {};
    } else {
      hide *;
      var last, init := d[|d| - 1], d[..|d| - 1];
      WithoutSmallest(d, contract, ks);
      if last in ks {
        PrefixBeatsSubset(init, contract, ks - {last}, n - 1);
        WithSmallest(d, contract, ks, n - 1);
      } else {
        PrefixBeatsSubset(init, contract, ks, n);
      }
    }
  }

  lemma {:induction false} FeeTotalGrows(d: seq<PoolKey>, m: nat, n: nat)
    requires m <= n <= |d|
    ensures FeeTotal(d[..m]) <= FeeTotal(d[..n])
  {
    if m < n {
      FeeTotalGrows(d, m, n - 1);
      assert d[..n][..n - 1] == d[..n - 1];
    }
  }

  /** A batch of at most `max` transfers takes min(max, available) of them, all of its contract, in descending
      order; and no other choice of that many transfers of the contract has a larger fee total. */
  lemma PickIsOptimal(pool: map<PoolKey, Transfer>, contract: string, max: nat, ks: set<PoolKey>)
    requires max >= 1 && ks <= ContractKeys(pool, contract) && |ks| <= max
    ensures |PickedKeys(pool, contract, max)| == (var n := |ContractKeys(pool, contract)|; if n <= max then n else max)
    ensures IsDescending(PickedKeys(pool, contract, max)) && OfContract(PickedKeys(pool, contract, max), contract)
    ensures SetFees(ks) <= PredictedFee(pool, contract, max)
  {
    var d := Descending(ContractKeys(pool, contract));
    DescendingLength(d);
    assert OfContract(d, contract) by {
      forall k | k in d ensures k.contract == contract {
        assert k in Elements(d);
      }
    }
    PickedAreKeys(pool, contract, max);
    PrefixBeatsSubset(d, contract, ks, |ks|);
    FeeTotalGrows(d, |ks|, Limit(max, |d|));
  }

  // ---------- The fees of all contracts in one pass ----------

  ghost function Contracts(pool: map<PoolKey, Transfer>): set<string> {
    set k | k in pool :: k.contract
  }

  ghost function AllFees(pool: map<PoolKey, Transfer>, max: nat): map<string, nat> {
    map c | c in Contracts(pool) :: PredictedFee(pool, c, max)
  }

  ghost function OnlyContract(d: seq<PoolKey>, contract: string): seq<PoolKey> {
    if d == [] then []
    else
      var init := OnlyContract(d[..|d| - 1], contract);
      if d[|d| - 1].contract == contract then init + [d[|d| - 1]] else init
  }

  lemma {:induction false} OnlyContractElements(d: seq<PoolKey>, contract: string)
    ensures Elements(OnlyContract(d, contract)) == set k | k in d && k.contract == contract
  {
    if d != [] {
      OnlyContractElements(d[..|d| - 1], contract);
      var init := OnlyContract(d[..|d| - 1], contract);
      assert d == d[..|d| - 1] + [d[|d| - 1]];
      assert Elements(init + [d[|d| - 1]]) == Elements(init) + {d[|d| - 1]};
    }
  }

  lemma {:induction false} OnlyContractDescending(d: seq<PoolKey>, contract: string)
    requires IsDescending(d)
    ensures IsDescending(OnlyContract(d, contract))
  {
    if d != [] {
      var init := OnlyContract(d[..|d| - 1], contract);
      OnlyContractDescending(d[..|d| - 1], contract);
      OnlyContractElements(d[..|d| - 1], contract);
      forall j | 0 <= j < |init| ensures KeyLess(d[|d| - 1], init[j]) {
        assert init[j] in Elements(init);
        var i :| 0 <= i < |d| - 1 && d[i] == init[j];
      }
    }
  }

  /** The scan of the whole pool passes the keys of each contract in the order of the contract's own scan. */
  lemma ContractScanIsFilteredScan(pool: map<PoolKey, Transfer>, contract: string)
    ensures OnlyContract(Descending(pool.Keys), contract) == Descending(ContractKeys(pool, contract))
  {
    var d := Descending(pool.Keys);
    OnlyContractElements(d, contract);
    OnlyContractDescending(d, contract);
    assert (set k | k in d && k.contract == contract) == ContractKeys(pool, contract) by {
      assert forall k :: k in d <==> k in Elements(d);
    }
    DescendingIsUnique(OnlyContract(d, contract), Descending(ContractKeys(pool, contract)));
  }

  // ---------- Building a batch ----------

  datatype BuildResult = Rejected | NothingToBatch | Built(batch: Batch)

  /** The total fees that a batch reports about itself. The source adds the fees up with sdk.Int.Add, which
      returns the sum and leaves its receiver alone, and drops what it returns; so the report is always zero. */
  function ReportedFees(b: Batch): nat {
    0
  }

  ghost predicate IsLast(s: State, contract: string, b: Option<Batch>) {
    match b
    case None => forall bk | bk in s.batches && bk.contract == contract :: bk.nonce == 0
    case Some(last) =>
      && BatchKey(contract, last.nonce) in s.batches
      && s.batches[BatchKey(contract, last.nonce)] == last
      && forall bk | bk in s.batches && bk.contract == contract :: bk.nonce <= last.nonce
  }

  /** The batch moves from the pool to the live batches under the next batch id. */
  ghost function Moved(s: State, contract: string, max: nat, timeout: nat, block: nat): State {
    var b := Batch(s.nextBatchId, timeout, Picked(s.pool, contract, max), contract, block);
    s.(pool := s.pool - Elements(PickedKeys(s.pool, contract, max)),
       batches := s.batches[BatchKey(contract, s.nextBatchId) := b],
       nextBatchId := s.nextBatchId + 1)
  }

  ghost function Build(s: State, last: Option<Batch>, contract: string, max: nat, timeout: nat, block: nat): (State, BuildResult) {
    if max == 0 then (s, Rejected)
    else if last.Some? && ReportedFees(last.value) > PredictedFee(s.pool, contract, max) then (s, Rejected)
    else if Picked(s.pool, contract, max) == [] then (s, NothingToBatch)
    else
      var s' := Moved(s, contract, max, timeout, block);
      (s', Built(s'.batches[BatchKey(contract, s.nextBatchId)]))
  }

  /** What a batch that was built holds, and where it is stored. */
  lemma BuiltBatch(s: State, last: Option<Batch>, contract: string, max: nat, timeout: nat, block: nat)
    ensures var (s', r) := Build(s, last, contract, max, timeout, block);
      r.Built? ==>
        var b := r.batch;
        && b.nonce == s.nextBatchId && s'.nextBatchId == s.nextBatchId + 1
        && b.contract == contract && b.timeout == timeout && b.block == block
        && 1 <= |b.txs| <= max
        && (KeyedPool(s.pool) ==> forall t | t in b.txs :: t in s.pool.Values && t.fee.contract == contract && KeyOf(t) !in s'.pool)
        && BatchKey(contract, b.nonce) in s'.batches && s'.batches[BatchKey(contract, b.nonce)] == b
  {
    var ks := PickedKeys(s.pool, contract, max);
    PickedAreKeys(s.pool, contract, max);
    assert forall i | 0 <= i < |ks| :: ks[i] in Elements(ks) && ks[i] in s.pool && ks[i].contract == contract;
  }

  /** Where a transfer was before the batch was built. */
  ghost function Before(s: State, contract: string, max: nat, timeout: nat, block: nat, p: Place): (q: Place)
    requires Occupied(Moved(s, contract, max, timeout, block), p)
    requires BatchKey(contract, s.nextBatchId) !in s.batches
    ensures Occupied(s, q) && At(s, q) == At(Moved(s, contract, max, timeout, block), p)
    ensures p != q ==> p.InBatch? && p.batch == BatchKey(contract, s.nextBatchId)
    ensures p.InBatch? && p.batch == BatchKey(contract, s.nextBatchId) ==>
              p.index < |PickedKeys(s.pool, contract, max)| && q == InPool(PickedKeys(s.pool, contract, max)[p.index])
  {
    PickedAreKeys(s.pool, contract, max);
    if p.InBatch? && p.batch == BatchKey(contract, s.nextBatchId)
    then InPool(PickedKeys(s.pool, contract, max)[p.index])
    else p
  }

  lemma DescendingIsInjective(d: seq<PoolKey>, i: nat, j: nat)
    requires IsDescending(d) && i < |d| && j < |d| && d[i] == d[j]
    ensures i == j
  {
    KeyLessTotal(d[i], d[j]);
  }

  lemma MovedKeepsKeys(s: State, contract: string, max: nat, timeout: nat, block: nat)
    requires Keyed(s)
    ensures Keyed(Moved(s, contract, max, timeout, block))
  {
    PickedAreKeys(s.pool, contract, max);
    var ks := PickedKeys(s.pool, contract, max);
    assert forall i | 0 <= i < |ks| :: KeyOf(s.pool[ks[i]]).contract == contract;
  }

  lemma MovedPreserves(s: State, contract: string, max: nat, timeout: nat, block: nat)
    requires Inv(s)
    ensures Inv(Moved(s, contract, max, timeout, block))
  {
    var s' := Moved(s, contract, max, timeout, block);
    var bk := BatchKey(contract, s.nextBatchId);
    MovedKeepsKeys(s, contract, max, timeout, block);
    forall p | Occupied(s', p)
      ensures 1 <= At(s', p).id < s'.nextTxId && At(s', p).token.contract == At(s', p).fee.contract
    {
      var q := Before(s, contract, max, timeout, block, p);
    }
    forall p, q | Occupied(s', p) && Occupied(s', q) && At(s', p).id == At(s', q).id
      ensures p == q
    {
      MovedApart(s, contract, max, timeout, block, p, q);
    }
  }

  lemma MovedApart(s: State, contract: string, max: nat, timeout: nat, block: nat, p: Place, q: Place)
    requires Partition(s) && BatchKey(contract, s.nextBatchId) !in s.batches
    requires var s' := Moved(s, contract, max, timeout, block);
      Occupied(s', p) && Occupied(s', q) && At(s', p).id == At(s', q).id
    ensures p == q
  {
    var ks := PickedKeys(s.pool, contract, max);
    var p0, q0 := Before(s, contract, max, timeout, block, p), Before(s, contract, max, timeout, block, q);
    assert p0 == q0;
    PickedAreKeys(s.pool, contract, max);
    assert forall i | 0 <= i < |ks| :: ks[i] in Elements(ks);
    if p0 != p && q0 != q {
      DescendingIsInjective(ks, p.index, q.index);
    }
  }

  /** Building a batch moves transfers but neither loses nor adds one. */
  lemma MovedKeepsPending(s: State, contract: string, max: nat, timeout: nat, block: nat)
    requires Inv(s)
    ensures Pending(Moved(s, contract, max, timeout, block)) == Pending(s)
  {
    var s' := Moved(s, contract, max, timeout, block);
    var bk := BatchKey(contract, s.nextBatchId);
    var ks := PickedKeys(s.pool, contract, max);
    PickedAreKeys(s.pool, contract, max);
    forall t | t in Pending(s') ensures t in Pending(s) {
      var p := PendingHasPlace(s', t);
      PlaceIsPending(s, Before(s, contract, max, timeout, block, p));
    }
    forall t | t in Pending(s) ensures t in Pending(s') {
      var p := PendingHasPlace(s, t);
      if p.InPool? && p.key in Elements(ks) {
        var i :| 0 <= i < |ks| && ks[i] == p.key;
        PlaceIsPending(s', InBatch(bk, i));
      } else {
        PlaceIsPending(s', p);
      }
    }
  }

  // ---------- Fees of successive batches ----------

  /** The live batches of a contract have non-decreasing fee totals in nonce order. */
  ghost predicate FeesNonDecreasing(s: State, contract: string) {
    forall bk, bk' | bk in s.batches && bk' in s.batches && bk.contract == contract == bk'.contract && bk.nonce < bk'.nonce ::
      FeeSum(s.batches[bk].txs) <= FeeSum(s.batches[bk'].txs)
  }

  /** Cancelling, timing out and executing batches keep the fee order, since they only delete batches. */
  lemma FewerBatchesKeepFeeOrder(s: State, s': State, contract: string)
    requires FeesNonDecreasing(s, contract)
    requires forall bk | bk in s'.batches :: bk in s.batches && s'.batches[bk] == s.batches[bk]
    ensures FeesNonDecreasing(s', contract)
  {
  }

  /** A new batch keeps the fee order exactly if the last live batch of the contract has no more fees than
      the new one is predicted to have, which is the test that the reported fees were meant for. */
  lemma BuildKeepsFeeOrderIff(s: State, last: Option<Batch>, contract: string, max: nat, timeout: nat, block: nat)
    requires Inv(s) && IsLast(s, contract, last) && FeesNonDecreasing(s, contract)
    requires Build(s, last, contract, max, timeout, block).1.Built?
    ensures FeesNonDecreasing(Build(s, last, contract, max, timeout, block).0, contract)
       <==> (last.Some? ==> FeeSum(last.value.txs) <= PredictedFee(s.pool, contract, max))
  {
    var s' := Moved(s, contract, max, timeout, block);
    var bk := BatchKey(contract, s.nextBatchId);
    PredictionIsExact(s.pool, contract, max);
    assert FeeSum(s'.batches[bk].txs) == PredictedFee(s.pool, contract, max);
    if last.Some? {
      var lk := BatchKey(contract, last.value.nonce);
      assert lk in s'.batches && s'.batches[lk] == last.value && lk.nonce < bk.nonce;
      forall k | k in s.batches && k.contract == contract
        ensures FeeSum(s.batches[k].txs) <= FeeSum(last.value.txs)
      {
        assert k == lk || k.nonce < lk.nonce;
      }
    }
  }

  lemma SingletonPick(pool: map<PoolKey, Transfer>, k: PoolKey, max: nat)
    requires pool.Keys == {k} && max >= 1
    ensures PickedKeys(pool, k.contract, max) == [k]
    ensures Picked(pool, k.contract, max) == [pool[k]]
    ensures FeeSum(Picked(pool, k.contract, max)) == pool[k].fee.amount
  {
    assert ContractKeys(pool, k.contract) == {k};
    DescendingIsUnique(Descending({k}), [k]);
    assert [pool[k]][..0] == [];
  }
}
