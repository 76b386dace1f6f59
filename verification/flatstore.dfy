/** The one flat store refines the typed tables: reading, writing and deleting a typed key touches its entry and no
    other, and the reverse scan of a contract's prefix is the descending list of its pool entries. */
module FlatStore {
  import opened Types
  import opened Lex
  import opened Keys
  import Outgoing
  import Selection

  // ---------- Tables in the flat store ----------

  ghost predicate WfTable<V>(t: map<Key, V>) {
    forall k | k in t :: Wf(k)
  }

  ghost function FlatKeys(keys: set<Key>): set<Bytes> {
    set k | k in keys :: Encode(k)
  }

  ghost function Decode(keys: set<Key>, b: Bytes): (k: Key)
    requires b in FlatKeys(keys)
    ensures k in keys && Encode(k) == b
  {
    var k :| k in keys && Encode(k) == b;
    k
  }

  /** The bytes that hold the typed entries. */
  ghost function Flatten<V>(t: map<Key, V>): map<Bytes, V> {
    map b | b in FlatKeys(t.Keys) :: t[Decode(t.Keys, b)]
  }

  lemma GetRefines<V>(t: map<Key, V>, k: Key)
    requires WfTable(t) && Wf(k)
    ensures Encode(k) in Flatten(t) <==> k in t
    ensures k in t ==> Flatten(t)[Encode(k)] == t[k]
  {
    if Encode(k) in Flatten(t) {
      EncodeInjective(Decode(t.Keys, Encode(k)), k);
    }
    if k in t {
      assert Encode(k) in FlatKeys(t.Keys);
    }
  }

  lemma FlatKeyOf<V>(t: map<Key, V>, b: Bytes) returns (k: Key)
    requires b in Flatten(t)
    ensures k in t && Encode(k) == b
  {
    k := Decode(t.Keys, b);
  }

  /** Setting a key changes exactly one typed entry. */
  lemma SetRefines<V>(t: map<Key, V>, k: Key, v: V)
    requires WfTable(t) && Wf(k)
    ensures Flatten(t)[Encode(k) := v] == Flatten(t[k := v])
  {
    var t' := t[k := v];
    var m, m' := Flatten(t)[Encode(k) := v], Flatten(t');
    hide Flatten, Encode, Wf;
    forall b | b in m ensures b in m' && m[b] == m'[b] {
      var j := k;
      if b != Encode(k) {
        j := FlatKeyOf(t, b);
        GetRefines(t, j);
      }
      GetRefines(t', j);
    }
    forall b | b in m' ensures b in m {
      var j := FlatKeyOf(t', b);
      if j != k {
        GetRefines(t, j);
      }
    }
  }

  /** Deleting a key removes exactly one typed entry. */
  lemma DeleteRefines<V>(t: map<Key, V>, k: Key)
    requires WfTable(t) && Wf(k)
    ensures Flatten(t) - {Encode(k)} == Flatten(t - {k})
  {
    var t' := t - {k};
    var m, m' := Flatten(t) - {Encode(k)}, Flatten(t');
    hide Flatten, Encode, Wf;
    forall b | b in m ensures b in m' && m[b] == m'[b] {
      var j := FlatKeyOf(t, b);
      GetRefines(t, j);
      GetRefines(t', j);
    }
    forall b | b in m' ensures b in m {
      var j := FlatKeyOf(t', b);
      GetRefines(t, j);
      if b == Encode(k) {
        EncodeInjective(j, k);
      }
    }
  }

  // ---------- Pool entries ----------

  predicate IsAscii(s: string) {
    forall i | 0 <= i < |s| :: (s[i] as int) < 128
  }

  predicate WfPool(k: Outgoing.PoolKey) {
    |k.contract| == CONTRACT_LEN && IsAscii(k.contract) && k.fee < Pow256(AMOUNT_LEN) && IsUint64(k.id)
  }

  function PoolBytes(k: Outgoing.PoolKey): Key {
    PoolEntry(Ascii(k.contract), k.fee, k.id)
  }

  lemma AsciiIsCodes(s: string)
    requires IsAscii(s)
    ensures Ascii(s) == Codes(s)
  {
    assert |Ascii(s)| == |Codes(s)|;
    forall i | 0 <= i < |s| ensures Ascii(s)[i] == Codes(s)[i] {
    }
  }

  lemma AsciiInjective(s: string, t: string)
    requires IsAscii(s) && IsAscii(t) && Ascii(s) == Ascii(t)
    ensures s == t
  {
    AsciiIsCodes(s);
    AsciiIsCodes(t);
    CodesInjective(s, t);
  }

  lemma FeeOrder(a: Outgoing.PoolKey, b: Outgoing.PoolKey)
    requires WfPool(a) && WfPool(b)
    ensures Less(BigEndian(a.fee, AMOUNT_LEN) + BigEndian(a.id, UINT64_LEN), BigEndian(b.fee, AMOUNT_LEN) + BigEndian(b.id, UINT64_LEN))
       <==> a.fee < b.fee || (a.fee == b.fee && a.id < b.id)
  {
    var f, g := BigEndian(a.fee, AMOUNT_LEN), BigEndian(b.fee, AMOUNT_LEN);
    var i, j := BigEndian(a.id, UINT64_LEN), BigEndian(b.id, UINT64_LEN);
    BigEndianOrder(a.fee, b.fee, AMOUNT_LEN);
    BigEndianOrder(a.id, b.id, UINT64_LEN);
    hide *;
    if a.fee != b.fee {
      DifferentHeads(f, g, i, j);
    } else {
      CommonPrefix(f, i, j);
    }
  }

  /** The byte order of pool keys is contract, then fee, then id. */
  lemma PoolOrder(a: Outgoing.PoolKey, b: Outgoing.PoolKey)
    requires WfPool(a) && WfPool(b)
    ensures Less(Encode(PoolBytes(a)), Encode(PoolBytes(b))) <==> Selection.KeyLess(a, b)
  {
    AsciiIsCodes(a.contract);
    AsciiIsCodes(b.contract);
    var c, d := Ascii(a.contract), Ascii(b.contract);
    var s := BigEndian(a.fee, AMOUNT_LEN) + BigEndian(a.id, UINT64_LEN);
    var t := BigEndian(b.fee, AMOUNT_LEN) + BigEndian(b.id, UINT64_LEN);
    assert Encode(PoolBytes(a)) == [0x7] + (c + s) && Encode(PoolBytes(b)) == [0x7] + (d + t);
    hide Encode, PoolBytes, BigEndian, Less, Ascii, Codes, IsAscii;
    CommonPrefix([0x7], c + s, d + t);
    FeeOrder(a, b);
    if a.contract != b.contract {
      if c == d {
        AsciiInjective(a.contract, b.contract);
      }
      DifferentHeads(c, d, s, t);
    } else {
      CommonPrefix(c, s, t);
    }
  }

  // ---------- The scan of one contract ----------

  function ContractPrefix(contract: string): Bytes {
    [0x7] + Ascii(contract)
  }

  lemma EntryRange(contract: string, end: Option<Bytes>, k: Key)
    requires |contract| == CONTRACT_LEN && IsAscii(contract) && IsEnd(ContractPrefix(contract), end)
    requires k.PoolEntry? && |k.contract| == CONTRACT_LEN
    ensures InRange(Encode(k), Some(ContractPrefix(contract)), end) <==> k.contract == Ascii(contract)
  {
    hide BigEndian, IsEnd, InRange, IsAscii;
    var p, b := ContractPrefix(contract), Encode(k);
    RangeIsPrefix(p, end, b);
    var rest := BigEndian(k.fee, AMOUNT_LEN) + BigEndian(k.id, UINT64_LEN);
    assert b == ([0x7] + k.contract) + rest;
    if p <= b {
      SplitConcat([0x7] + k.contract, rest, p, b[|p|..]);
      SplitConcat([0x7], k.contract, [0x7], Ascii(contract));
    }
  }

  /** Of all the keys of all tables, the range of a contract's prefix holds exactly its pool entries. */
  lemma ContractRange(contract: string, end: Option<Bytes>, k: Key)
    requires |contract| == CONTRACT_LEN && IsAscii(contract) && IsEnd(ContractPrefix(contract), end) && Wf(k)
    ensures InRange(Encode(k), Some(ContractPrefix(contract)), end) <==> k.PoolEntry? && k.contract == Ascii(contract)
  {
    var p, b := ContractPrefix(contract), Encode(k);
    if Tag(k) == 0x7 {
      EntryRange(contract, end, k);
    } else {
      assert p[1] == Ascii(contract)[0] && p[1] < 128;
      var e := end.value;
      var l: nat :| CarriedTo(p, e, l);
      assert p[1] != 255;
      assert e[0] == p[..l][0] == 0x7;
      assert b[0] == Tag(k);
    }
  }

  ghost function Members(scan: seq<Bytes>): set<Bytes> {
    set b | b in scan
  }

  ghost predicate Descends(scan: seq<Bytes>) {
    forall i, j | 0 <= i < j < |scan| :: Less(scan[j], scan[i])
  }

  lemma {:induction false} ScanIsUnique(a: seq<Bytes>, b: seq<Bytes>)
    requires Descends(a) && Descends(b) && Members(a) == Members(b)
    ensures a == b
  {
    assert a == [] || a[0] in Members(a);
    assert b == [] || b[0] in Members(b);
    if a != [] {
      assert a[0] in Members(b) && b[0] in Members(a);
      if a[0] != b[0] {
        Transitive(a[0], b[0], a[0]);
        Irreflexive(a[0]);
      }
      TailMembers(a);
      TailMembers(b);
      ScanIsUnique(a[1..], b[1..]);
    }
  }

  lemma TailMembers(a: seq<Bytes>)
    requires Descends(a) && a != []
    ensures Members(a[1..]) == Members(a) - {a[0]}
  {
    forall j | 0 < j < |a| ensures a[j] != a[0] {
      Irreflexive(a[0]);
    }
  }

  /** `keys` are the typed keys of the whole store and `pool` those of its pool entries. */
  ghost predicate HoldsPool(keys: set<Key>, pool: set<Outgoing.PoolKey>) {
    && (forall k | k in keys :: Wf(k))
    && (forall p | p in pool :: WfPool(p))
    && (forall p | p in pool :: PoolBytes(p) in keys)
    && (forall k | k in keys && k.PoolEntry? :: exists p :: p in pool && PoolBytes(p) == k)
  }

  ghost function InScan(keys: set<Key>, start: Option<Bytes>, end: Option<Bytes>): set<Bytes> {
    set b | b in FlatKeys(keys) && InRange(b, start, end)
  }

  ghost function Encoded(d: seq<Outgoing.PoolKey>): seq<Bytes> {
    seq(|d|, i requires 0 <= i < |d| => Encode(PoolBytes(d[i])))
  }

  ghost function OfContract(pool: set<Outgoing.PoolKey>, contract: string): set<Outgoing.PoolKey> {
    set p | p in pool && p.contract == contract
  }

  lemma EncodedDescends(d: seq<Outgoing.PoolKey>)
    requires Selection.IsDescending(d) && forall p | p in d :: WfPool(p)
    ensures Descends(Encoded(d))
  {
    forall i, j | 0 <= i < j < |d| ensures Less(Encoded(d)[j], Encoded(d)[i]) {
      PoolOrder(d[j], d[i]);
    }
  }

  lemma ScanOfEntry(keys: set<Key>, pool: set<Outgoing.PoolKey>, contract: string, end: Option<Bytes>, b: Bytes)
    requires HoldsPool(keys, pool) && |contract| == CONTRACT_LEN && IsAscii(contract) && IsEnd(ContractPrefix(contract), end)
    ensures b in InScan(keys, Some(ContractPrefix(contract)), end)
       <==> exists p :: p in OfContract(pool, contract) && Encode(PoolBytes(p)) == b
  {
    if b in InScan(keys, Some(ContractPrefix(contract)), end) {
      var k := Decode(keys, b);
      ContractRange(contract, end, k);
      var p :| p in pool && PoolBytes(p) == k;
      AsciiInjective(p.contract, contract);
      assert p in OfContract(pool, contract);
    }
    if p :| p in OfContract(pool, contract) && Encode(PoolBytes(p)) == b {
      ContractRange(contract, end, PoolBytes(p));
      assert b in FlatKeys(keys);
    }
  }

  lemma EncodedMembers(d: seq<Outgoing.PoolKey>, b: Bytes)
    ensures b in Members(Encoded(d)) <==> exists p :: p in Selection.Elements(d) && Encode(PoolBytes(p)) == b
  {
    if b in Members(Encoded(d)) {
      var i :| 0 <= i < |d| && Encoded(d)[i] == b;
      assert d[i] in Selection.Elements(d);
    }
    if p :| p in Selection.Elements(d) && Encode(PoolBytes(p)) == b {
      var i :| 0 <= i < |d| && d[i] == p;
      assert Encoded(d)[i] == b;
    }
  }

  /** Whatever else the store holds, the reverse iterator over the prefix range of a contract yields the pool
      entries of this contract, highest fee first and among equal fees the highest id first. */
  lemma ContractScan(keys: set<Key>, pool: set<Outgoing.PoolKey>, contract: string, end: Option<Bytes>, scan: seq<Bytes>)
    requires HoldsPool(keys, pool) && |contract| == CONTRACT_LEN && IsAscii(contract) && IsEnd(ContractPrefix(contract), end)
    requires Descends(scan) && Members(scan) == InScan(keys, Some(ContractPrefix(contract)), end)
    ensures scan == Encoded(Selection.Descending(OfContract(pool, contract)))
  {
    var d := Selection.Descending(OfContract(pool, contract));
    forall p | p in d ensures WfPool(p) {
      assert p in Selection.Elements(d);
    }
    EncodedDescends(d);
    hide HoldsPool, Encoded, IsEnd, InScan, OfContract, Selection.Descending, Descends, Members;
    forall b ensures b in Members(scan) <==> b in Members(Encoded(d)) {
      ScanOfEntry(keys, pool, contract, end, b);
      EncodedMembers(d, b);
    }
    ScanIsUnique(scan, Encoded(d));
  }

  // ---------- The scan of the whole pool ----------

  const POOL_PREFIX: Bytes := [0x7]

  /** Of all the keys of all tables, the range of the pool's prefix holds exactly the pool entries. */
  lemma TableRange(end: Option<Bytes>, k: Key)
    requires IsEnd(POOL_PREFIX, end) && Wf(k)
    ensures InRange(Encode(k), Some(POOL_PREFIX), end) <==> k.PoolEntry?
  {
    RangeIsPrefix(POOL_PREFIX, end, Encode(k));
    assert Encode(k)[0] == Tag(k);
  }

  lemma TableScanOfEntry(keys: set<Key>, pool: set<Outgoing.PoolKey>, end: Option<Bytes>, b: Bytes)
    requires HoldsPool(keys, pool) && IsEnd(POOL_PREFIX, end)
    ensures b in InScan(keys, Some(POOL_PREFIX), end) <==> exists p :: p in pool && Encode(PoolBytes(p)) == b
  {
    if b in InScan(keys, Some(POOL_PREFIX), end) {
      var k := Decode(keys, b);
      TableRange(end, k);
      var p :| p in pool && PoolBytes(p) == k;
    }
    if p :| p in pool && Encode(PoolBytes(p)) == b {
      TableRange(end, PoolBytes(p));
      assert b in FlatKeys(keys);
    }
  }

  /** Whatever else the store holds, the reverse iterator over the prefix range of the pool yields all its entries in
      descending order of contract, fee and id. */
  lemma TableScan(keys: set<Key>, pool: set<Outgoing.PoolKey>, end: Option<Bytes>, scan: seq<Bytes>)
    requires HoldsPool(keys, pool) && IsEnd(POOL_PREFIX, end)
    requires Descends(scan) && Members(scan) == InScan(keys, Some(POOL_PREFIX), end)
    ensures scan == Encoded(Selection.Descending(pool))
  {
    var d := Selection.Descending(pool);
    forall p | p in d ensures WfPool(p) {
      assert p in Selection.Elements(d);
    }
    EncodedDescends(d);
    hide HoldsPool, Encoded, IsEnd, InScan, Selection.Descending, Descends, Members;
    forall b ensures b in Members(scan) <==> b in Members(Encoded(d)) {
      TableScanOfEntry(keys, pool, end, b);
      EncodedMembers(d, b);
    }
    ScanIsUnique(scan, Encoded(d));
  }
}
