/** Normalizing the powers of a validator set to shares of 2^32 - 1. */
module Power {
  import opened Types
  import Lex

  const MAX_UINT32: nat := 0xffff_ffff

  /** A bonded validator: its power and, if it has set one, its Ethereum address. */
  datatype Bonded = Bonded(power: nat, ethAddress: Option<string>)

  /** The validators with an Ethereum address, with their powers. */
  function Keyed(vals: seq<Bonded>): seq<BridgeValidator> {
    if vals == [] then []
    else
      var v := vals[|vals| - 1];
      match v.ethAddress
      case None => Keyed(vals[..|vals| - 1])
      case Some(addr) => Keyed(vals[..|vals| - 1]) + [BridgeValidator(v.power, addr)]
  }

  /** A member stands for exactly each validator that has set an address, with its power, in their order. */
  lemma {:induction false} KeyedAre(vals: seq<Bonded>)
    ensures forall power, address ::
              BridgeValidator(power, address) in Keyed(vals) <==> exists i :: 0 <= i < |vals| && vals[i] == Bonded(power, Some(address))
  {
    if vals != [] {
      var init, last := vals[..|vals| - 1], vals[|vals| - 1];
      KeyedAre(init);
      forall power, address
        ensures BridgeValidator(power, address) in Keyed(vals) <==> exists i :: 0 <= i < |vals| && vals[i] == Bonded(power, Some(address))
      {
        if BridgeValidator(power, address) in Keyed(init) {
          var i :| 0 <= i < |init| && init[i] == Bonded(power, Some(address));
          assert vals[i] == init[i];
        }
        if i :| 0 <= i < |vals| && vals[i] == Bonded(power, Some(address)) {
          assert i < |init| ==> init[i] == vals[i];
        }
        assert vals[|vals| - 1] == last;
      }
    }
  }

  function Total(bvs: seq<BridgeValidator>): nat {
    if bvs == [] then 0 else Total(bvs[..|bvs| - 1]) + bvs[|bvs| - 1].power
  }

  function Share(power: nat, total: nat): nat
    requires total > 0
  {
    power * MAX_UINT32 / total
  }

  function Normalized(bvs: seq<BridgeValidator>, total: nat): seq<BridgeValidator>
    requires total > 0
  {
    seq(|bvs|, i requires 0 <= i < |bvs| => bvs[i].(power := Share(bvs[i].power, total)))
  }

  lemma ShareBounds(power: nat, total: nat)
    requires total > 0
    ensures total * Share(power, total) <= power * MAX_UINT32 < total * Share(power, total) + total
  {
  }

  lemma CancelFactor(t: nat, a: nat, b: nat)
    requires t * a < t * b
    ensures a < b
  {
  }

  lemma ShareMonotone(p: nat, q: nat, total: nat)
    requires total > 0 && p <= q
    ensures Share(p, total) <= Share(q, total)
  {
    ShareBounds(p, total);
    ShareBounds(q, total);
    assert total * (Share(q, total) + 1) == total * Share(q, total) + total;
    CancelFactor(total, Share(p, total), Share(q, total) + 1);
  }

  lemma {:induction false} SumBounds(bvs: seq<BridgeValidator>, total: nat)
    requires total > 0
    ensures var s := Total(Normalized(bvs, total));
      && total * s <= Total(bvs) * MAX_UINT32
      && Total(bvs) * MAX_UINT32 <= total * s + total * |bvs|
      && (bvs != [] ==> Total(bvs) * MAX_UINT32 < total * s + total * |bvs|)
  {
    if bvs != [] {
      var init, last := bvs[..|bvs| - 1], bvs[|bvs| - 1];
      SumBounds(init, total);
      ShareBounds(last.power, total);
      assert Normalized(bvs, total)[..|bvs| - 1] == Normalized(init, total);
      AddShare(total, Total(init) * MAX_UINT32, last.power * MAX_UINT32, Total(Normalized(init, total)),
               Share(last.power, total), |init|);
    }
  }

  lemma AddShare(t: nat, a: nat, b: nat, s: nat, x: nat, n: nat)
    requires t * s <= a <= t * s + t * n && t * x <= b < t * x + t
    ensures t * (s + x) <= a + b < t * (s + x) + t * (n + 1)
  {
    assert t * (s + x) == t * s + t * x && t * (n + 1) == t * n + t;
  }

  lemma {:induction false} PartOfTotal(bvs: seq<BridgeValidator>, i: nat)
    requires i < |bvs|
    ensures bvs[i].power <= Total(bvs)
  {
    if i < |bvs| - 1 {
      PartOfTotal(bvs[..|bvs| - 1], i);
    }
  }

  /** The shares keep the order of the powers, each fits 32 bits, and truncation takes less than one unit per
      validator off the sum. */
  lemma NormalizationBounds(bvs: seq<BridgeValidator>)
    requires Total(bvs) > 0
    ensures var ns := Normalized(bvs, Total(bvs));
      && (forall i, j | 0 <= i < |bvs| && 0 <= j < |bvs| && bvs[i].power <= bvs[j].power :: ns[i].power <= ns[j].power)
      && (forall i | 0 <= i < |bvs| :: ns[i].power <= MAX_UINT32 && ns[i].ethAddress == bvs[i].ethAddress)
      && 4294967295 - |bvs| < Total(ns) <= 4294967295
  {
    var t, ns := Total(bvs), Normalized(bvs, Total(bvs));
    forall i, j | 0 <= i < |bvs| && 0 <= j < |bvs| && bvs[i].power <= bvs[j].power ensures ns[i].power <= ns[j].power {
      ShareMonotone(bvs[i].power, bvs[j].power, t);
    }
    forall i | 0 <= i < |bvs| ensures ns[i].power <= MAX_UINT32 {
      PartOfTotal(bvs, i);
      ShareMonotone(bvs[i].power, t, t);
      WholeShare(t);
    }
    SumBounds(bvs, t);
    Cancel(t, Total(ns), MAX_UINT32, |bvs|);
  }

  lemma WholeShare(t: nat)
    requires t > 0
    ensures Share(t, t) == MAX_UINT32
  {
    ShareBounds(t, t);
    Cancel(t, Share(t, t), MAX_UINT32, 1);
  }

  lemma Cancel(t: nat, s: nat, m: nat, n: nat)
    requires t > 0 && t * s <= t * m < t * s + t * n
    ensures m - n < s <= m
  {
    assert t * (m + 1) == t * m + t && t * (s + n) == t * s + t * n;
    CancelFactor(t, s, m + 1);
    CancelFactor(t, m, s + n);
  }

  /** None is the division by a total power of zero. */
  function CurrentMembers(vals: seq<Bonded>): Option<seq<BridgeValidator>> {
    var bvs := Keyed(vals);
    if bvs == [] then Some([])
    else if Total(bvs) == 0 then None
    else Some(Normalized(bvs, Total(bvs)))
  }

  /** The member list of the current validator set; None is the division by a total power of zero. The powers are
      collected first and then rescaled in place. */
  method GetCurrentMembers(vals: seq<Bonded>) returns (members: Option<seq<BridgeValidator>>)
    ensures members == CurrentMembers(vals)
  {
    var bvs: seq<BridgeValidator> := [];
    var total: nat := 0;
    for i := 0 to |vals|
      invariant bvs == Keyed(vals[..i]) && total == Total(bvs)
    {
      assert vals[..i + 1][..i] == vals[..i];
      match vals[i].ethAddress {
        case None =>
        case Some(addr) =>
          var bv := BridgeValidator(vals[i].power, addr);
          assert (bvs + [bv])[..|bvs|] == bvs;
          bvs := bvs + [bv];
          total := total + vals[i].power;
      }
    }
    assert vals[..|vals|] == vals;
    ghost var before := bvs;
    var i := 0;
    while i < |bvs|
      invariant i <= |bvs| == |before|
      invariant total == 0 ==> i == 0
      invariant forall j | i <= j < |bvs| :: bvs[j] == before[j]
      invariant total > 0 ==> forall j | 0 <= j < i :: bvs[j] == before[j].(power := Share(before[j].power, total))
    {
      if total == 0 {
        return None;
      }
      bvs := bvs[i := bvs[i].(power := bvs[i].power * MAX_UINT32 / total)];
      i := i + 1;
    }
    if bvs != [] {
      assert bvs == Normalized(before, total);
    }
    members := Some(bvs);
  }

  // ---------- Sorting members ----------

  /** Higher powers come first, and among equal powers lower addresses. */
  predicate Precedes(a: BridgeValidator, b: BridgeValidator) {
    a.power > b.power || (a.power == b.power && !Lex.Less(Lex.Codes(b.ethAddress), Lex.Codes(a.ethAddress)))
  }

  ghost predicate IsSorted(bvs: seq<BridgeValidator>) {
    forall i, j | 0 <= i < j < |bvs| :: Precedes(bvs[i], bvs[j])
  }

  /** A sorted rearrangement; the only one where the addresses differ. */
  ghost predicate IsSortOf(r: seq<BridgeValidator>, bvs: seq<BridgeValidator>) {
    IsSorted(r) && multiset(r) == multiset(bvs)
  }

  function Insert(bvs: seq<BridgeValidator>, v: BridgeValidator): seq<BridgeValidator> {
    if bvs == [] then [v]
    else if Precedes(v, bvs[0]) then [v] + bvs
    else [bvs[0]] + Insert(bvs[1..], v)
  }

  lemma PrecedesIsOrder(a: BridgeValidator, b: BridgeValidator, c: BridgeValidator)
    ensures Precedes(a, b) || Precedes(b, a)
    ensures Precedes(a, b) && Precedes(b, c) ==> Precedes(a, c)
    ensures Precedes(a, b) && Precedes(b, a) ==> a == b
  {
    var x, y, z := Lex.Codes(a.ethAddress), Lex.Codes(b.ethAddress), Lex.Codes(c.ethAddress);
    Lex.Total(x, y);
    Lex.Total(y, z);
    if Lex.Less(x, y) && Lex.Less(y, x) {
      Lex.Transitive(x, y, x);
      Lex.Irreflexive(x);
    }
    if x == y {
      Lex.CodesInjective(a.ethAddress, b.ethAddress);
    }
    if Lex.Less(z, x) {
      if Lex.Less(x, y) {
        Lex.Transitive(z, x, y);
      } else if Lex.Less(y, z) {
        Lex.Transitive(y, z, x);
      }
    }
  }

  lemma {:induction false} InsertMembers(bvs: seq<BridgeValidator>, v: BridgeValidator)
    ensures multiset(Insert(bvs, v)) == multiset(bvs) + multiset{v}
  {
    hide Precedes;
    if bvs != [] {
      assert bvs == [bvs[0]] + bvs[1..];
      InsertMembers(bvs[1..], v);
    }
  }

  lemma PrependSorted(v: BridgeValidator, bvs: seq<BridgeValidator>)
    requires IsSorted(bvs) && forall x | x in bvs :: Precedes(v, x)
    ensures IsSorted([v] + bvs)
  {
    hide Precedes;
    assert forall j | 0 <= j < |bvs| :: bvs[j] in bvs;
  }

  lemma {:induction false} InsertSorted(bvs: seq<BridgeValidator>, v: BridgeValidator)
    requires IsSorted(bvs)
    ensures IsSorted(Insert(bvs, v))
  {
    if bvs != [] {
      PrecedesIsOrder(v, bvs[0], bvs[0]);
      assert forall j | 0 <= j < |bvs| :: j == 0 || Precedes(bvs[0], bvs[j]);
      hide Precedes;
      if Precedes(v, bvs[0]) {
        forall x | x in bvs ensures Precedes(v, x) {
          PrecedesIsOrder(v, bvs[0], x);
        }
        PrependSorted(v, bvs);
      } else {
        InsertSorted(bvs[1..], v);
        var rest := Insert(bvs[1..], v);
        InsertMembers(bvs[1..], v);
        forall x | x in rest ensures Precedes(bvs[0], x) {
          assert x in multiset(rest);
          assert x == v || x in bvs[1..];
        }
        PrependSorted(bvs[0], rest);
      }
    }
  }

  lemma SameFirst(a: seq<BridgeValidator>, b: seq<BridgeValidator>)
    requires IsSorted(a) && IsSorted(b) && multiset(a) == multiset(b) && a != [] && b != []
    ensures a[0] == b[0]
  {
    assert a[0] in multiset(a) && b[0] in multiset(b);
    var i :| 0 <= i < |b| && b[i] == a[0];
    var j :| 0 <= j < |a| && a[j] == b[0];
    PrecedesIsOrder(a[0], b[0], b[0]);
  }

  lemma TailMembers(a: seq<BridgeValidator>)
    requires a != []
    ensures multiset(a[1..]) == multiset(a) - multiset{a[0]}
  {
    assert a == [a[0]] + a[1..];
  }

  /** What the order means: powers do not increase, and among equal powers addresses do not decrease. */
  lemma SortedMeans(bvs: seq<BridgeValidator>)
    requires IsSorted(bvs)
    ensures forall i, j | 0 <= i < j < |bvs| ::
              && bvs[i].power >= bvs[j].power
              && (bvs[i].power == bvs[j].power ==> !Lex.Less(Lex.Codes(bvs[j].ethAddress), Lex.Codes(bvs[i].ethAddress)))
  {
  }

  /** There is one sorted list of given members. */
  lemma {:induction false} SortIsUnique(a: seq<BridgeValidator>, b: seq<BridgeValidator>)
    requires IsSorted(a) && IsSorted(b) && multiset(a) == multiset(b)
    ensures a == b
    decreases |a|
  {
    assert |a| == |multiset(a)| == |multiset(b)| == |b|;
    if a != [] {
      SameFirst(a, b);
      TailMembers(a);
      TailMembers(b);
      hide Precedes;
      SortIsUnique(a[1..], b[1..]);
      assert a == [a[0]] + a[1..] && b == [b[0]] + b[1..];
    }
  }

  method SortMembers(bvs: seq<BridgeValidator>) returns (r: seq<BridgeValidator>)
    ensures IsSortOf(r, bvs)
    ensures forall i, j | 0 <= i < j < |r| :: r[i].power >= r[j].power
  {
    r := [];
    for i := 0 to |bvs|
      invariant IsSortOf(r, bvs[..i])
    {
      assert bvs[..i + 1] == bvs[..i] + [bvs[i]];
      InsertSorted(r, bvs[i]);
      InsertMembers(r, bvs[i]);
      r := Insert(r, bvs[i]);
    }
    assert bvs[..|bvs|] == bvs;
  }

  // ---------- The difference of two sets ----------

  /** The power of each address; a later entry for the same address replaces an earlier one. */
  function PowersOf(bvs: seq<BridgeValidator>): map<string, int> {
    if bvs == [] then map[]
    else
      var last := bvs[|bvs| - 1];
      PowersOf(bvs[..|bvs| - 1])[last.ethAddress := last.power]
  }

  function At(m: map<string, int>, address: string): int {
    if address in m then m[address] else 0
  }

  function Minus(m: map<string, int>, bvs: seq<BridgeValidator>): map<string, int> {
    if bvs == [] then m
    else
      var last, m' := bvs[|bvs| - 1], Minus(m, bvs[..|bvs| - 1]);
      m'[last.ethAddress := At(m', last.ethAddress) - last.power]
  }

  function Abs(x: int): nat {
    if x < 0 then -x else x
  }

  ghost function AbsSum(m: map<string, int>, keys: set<string>): nat {
    if keys == {} then 0 else
      var k :| k in keys;
      Abs(At(m, k)) + AbsSum(m, keys - {k})
  }

  lemma {:induction false} AbsSumRemove(m: map<string, int>, keys: set<string>, k: string)
    requires k in keys
    ensures AbsSum(m, keys) == Abs(At(m, k)) + AbsSum(m, keys - {k})
  {
    var j :| j in keys && AbsSum(m, keys) == Abs(At(m, j)) + AbsSum(m, keys - {j});
    if j != k {
      AbsSumRemove(m, keys - {j}, k);
      AbsSumRemove(m, keys - {k}, j);
      assert keys - {j} - {k} == keys - {k} - {j};
    }
  }

  /** The sum of all changes of power. */
  ghost function Delta(b: seq<BridgeValidator>, c: seq<BridgeValidator>): nat {
    var m := Minus(PowersOf(b), c);
    AbsSum(m, m.Keys)
  }

  /** The difference of the powers is more than five percent of 2^32 - 1. The source divides as floating point
      numbers; no sum of whole powers is so close to the limit that this would matter. */
  ghost predicate PowersMoved(b: seq<BridgeValidator>, c: seq<BridgeValidator>) {
    20 * Delta(b, c) > MAX_UINT32
  }

  /** The three loops over a map of powers. */
  method PowerDiff(b: seq<BridgeValidator>, c: seq<BridgeValidator>) returns (delta: nat)
    ensures delta == Delta(b, c)
  {
    var powers: map<string, int> := map[];
    for i := 0 to |b|
      invariant powers == PowersOf(b[..i])
    {
      assert b[..i + 1][..i] == b[..i];
      powers := powers[b[i].ethAddress := b[i].power];
    }
    assert b[..|b|] == b;
    for i := 0 to |c|
      invariant powers == Minus(PowersOf(b), c[..i])
    {
      assert c[..i + 1][..i] == c[..i];
      if c[i].ethAddress in powers {
        powers := powers[c[i].ethAddress := powers[c[i].ethAddress] - c[i].power];
      } else {
        powers := powers[c[i].ethAddress := 0 - c[i].power];
      }
    }
    assert c[..|c|] == c;
    delta := 0;
    var rest := powers.Keys;
    while rest != {}
      invariant rest <= powers.Keys
      invariant delta + AbsSum(powers, rest) == AbsSum(powers, powers.Keys)
      decreases |rest|
    {
      var k :| k in rest;
      AbsSumRemove(powers, rest, k);
      delta := delta + Abs(powers[k]);
      rest := rest - {k};
    }
  }

  ghost predicate DistinctAddresses(bvs: seq<BridgeValidator>) {
    forall i, j | 0 <= i < j < |bvs| :: bvs[i].ethAddress != bvs[j].ethAddress
  }

  lemma {:induction false} PowersOfKeys(bvs: seq<BridgeValidator>)
    ensures forall a :: a in PowersOf(bvs) <==> exists i :: 0 <= i < |bvs| && bvs[i].ethAddress == a
  {
    if bvs != [] {
      var init := bvs[..|bvs| - 1];
      PowersOfKeys(init);
      forall a ensures a in PowersOf(bvs) <==> exists i :: 0 <= i < |bvs| && bvs[i].ethAddress == a {
        if a in PowersOf(init) {
          var i :| 0 <= i < |init| && init[i].ethAddress == a;
          assert bvs[i].ethAddress == a;
        }
        if i :| 0 <= i < |bvs| && bvs[i].ethAddress == a {
          assert i < |init| ==> init[i].ethAddress == a;
        }
      }
    }
  }

  lemma {:induction false} MinusAt(m: map<string, int>, c: seq<BridgeValidator>)
    requires DistinctAddresses(c)
    ensures Minus(m, c).Keys == m.Keys + PowersOf(c).Keys
    ensures forall a :: At(Minus(m, c), a) == At(m, a) - At(PowersOf(c), a)
  {
    if c != [] {
      var init, last := c[..|c| - 1], c[|c| - 1];
      MinusAt(m, init);
      PowersOfKeys(init);
      assert last.ethAddress !in PowersOf(init);
    }
  }

  lemma {:induction false} AbsSumEqual(m: map<string, int>, m': map<string, int>, keys: set<string>)
    requires forall k | k in keys :: Abs(At(m, k)) == Abs(At(m', k))
    ensures AbsSum(m, keys) == AbsSum(m', keys)
  {
    if keys != {} {
      var k :| k in keys;
      AbsSumRemove(m, keys, k);
      AbsSumRemove(m', keys, k);
      AbsSumEqual(m, m', keys - {k});
    }
  }

  lemma {:induction false} AbsSumZero(m: map<string, int>, keys: set<string>)
    ensures AbsSum(m, keys) == 0 <==> forall k | k in keys :: At(m, k) == 0
  {
    if keys != {} {
      var k :| k in keys;
      AbsSumRemove(m, keys, k);
      AbsSumZero(m, keys - {k});
      assert forall j | j in keys :: j == k || j in keys - {k};
    }
  }

  /** Between sets without repeated addresses the difference does not depend on which is the new one, and it is zero
      exactly if every address has the same power in both. */
  lemma DeltaIsDistance(b: seq<BridgeValidator>, c: seq<BridgeValidator>)
    requires DistinctAddresses(b) && DistinctAddresses(c)
    ensures Delta(b, c) == Delta(c, b)
    ensures Delta(b, c) == 0 <==> forall a :: At(PowersOf(b), a) == At(PowersOf(c), a)
  {
    var m, m' := Minus(PowersOf(b), c), Minus(PowersOf(c), b);
    MinusAt(PowersOf(b), c);
    MinusAt(PowersOf(c), b);
    assert m.Keys == m'.Keys;
    AbsSumEqual(m, m', m.Keys);
    AbsSumZero(m, m.Keys);
    if forall k | k in m.Keys :: At(m, k) == 0 {
      forall a ensures At(PowersOf(b), a) == At(PowersOf(c), a) {
        assert At(m, a) == At(PowersOf(b), a) - At(PowersOf(c), a);
        assert a in m || At(m, a) == 0;
      }
    }
  }

  // ---------- The size of the difference ----------

  /** The power of an address in a member list, zero if it is not there. */
  function PowerIn(bvs: seq<BridgeValidator>, address: string): nat {
    if bvs == [] then 0
    else if bvs[|bvs| - 1].ethAddress == address then bvs[|bvs| - 1].power
    else PowerIn(bvs[..|bvs| - 1], address)
  }

  /** What both lists give to the same addresses: of each the smaller power. */
  function Common(b: seq<BridgeValidator>, c: seq<BridgeValidator>): nat {
    if b == [] then 0
    else
      var p, q := b[|b| - 1].power, PowerIn(c, b[|b| - 1].ethAddress);
      Common(b[..|b| - 1], c) + if p <= q then p else q
  }

  lemma {:induction false} PowerInIsAt(bvs: seq<BridgeValidator>, address: string)
    ensures At(PowersOf(bvs), address) == PowerIn(bvs, address)
  {
    if bvs != [] {
      PowerInIsAt(bvs[..|bvs| - 1], address);
    }
  }

  /** The smaller power of each address. */
  function Shared(b: seq<BridgeValidator>, c: seq<BridgeValidator>): map<string, int> {
    map a | a in PowersOf(b) :: var p, q := PowersOf(b)[a], PowerIn(c, a); if p <= q then p else q
  }

  lemma {:induction false} AbsSumAdds(m: map<string, int>, n: map<string, int>, x: map<string, int>, y: map<string, int>, keys: set<string>)
    requires forall k | k in keys :: Abs(At(m, k)) + 2 * Abs(At(n, k)) == Abs(At(x, k)) + Abs(At(y, k))
    ensures AbsSum(m, keys) + 2 * AbsSum(n, keys) == AbsSum(x, keys) + AbsSum(y, keys)
  {
    if keys != {} {
      var k :| k in keys;
      AbsSumRemove(m, keys, k);
      AbsSumRemove(n, keys, k);
      AbsSumRemove(x, keys, k);
      AbsSumRemove(y, keys, k);
      AbsSumAdds(m, n, x, y, keys - {k});
    }
  }

  /** Changing one entry of a map from zero adds that entry. */
  lemma AbsSumUpdate(m: map<string, int>, keys: set<string>, k: string, v: int)
    requires k in keys && At(m, k) == 0
    ensures AbsSum(m[k := v], keys) == AbsSum(m, keys) + Abs(v)
  {
    AbsSumRemove(m, keys, k);
    AbsSumRemove(m[k := v], keys, k);
    AbsSumEqual(m, m[k := v], keys - {k});
  }

  lemma {:induction false} TotalIsSum(b: seq<BridgeValidator>, keys: set<string>)
    requires DistinctAddresses(b) && PowersOf(b).Keys <= keys
    ensures AbsSum(PowersOf(b), keys) == Total(b)
  {
    if b == [] {
      AbsSumZero(map[], keys);
    } else {
      var init, last := b[..|b| - 1], b[|b| - 1];
      PowersOfKeys(init);
      TotalIsSum(init, keys);
      AbsSumUpdate(PowersOf(init), keys, last.ethAddress, last.power);
    }
  }

  lemma SharedSnoc(init: seq<BridgeValidator>, c: seq<BridgeValidator>, last: BridgeValidator)
    requires DistinctAddresses(init + [last])
    ensures At(Shared(init, c), last.ethAddress) == 0
    ensures var p, q := last.power, PowerIn(c, last.ethAddress);
      Shared(init + [last], c) == Shared(init, c)[last.ethAddress := if p <= q then p else q]
  {
    var b := init + [last];
    assert b[..|init|] == init && b[|init|] == last;
    assert forall i | 0 <= i < |init| :: b[i] == init[i] && b[i].ethAddress != b[|init|].ethAddress;
    PowersOfKeys(init);
    assert last.ethAddress !in PowersOf(init);
    assert PowersOf(b) == PowersOf(init)[last.ethAddress := last.power];
    hide PowersOf, PowerIn;
  }

  lemma {:induction false} CommonIsSum(b: seq<BridgeValidator>, c: seq<BridgeValidator>, keys: set<string>)
    requires DistinctAddresses(b) && PowersOf(b).Keys <= keys
    ensures AbsSum(Shared(b, c), keys) == Common(b, c)
  {
    if b == [] {
      AbsSumZero(Shared(b, c), keys);
    } else {
      var init, last := b[..|b| - 1], b[|b| - 1];
      assert PowersOf(b) == PowersOf(init)[last.ethAddress := last.power];
      SharedSnoc(init, c, last);
      assert init + [last] == b;
      hide PowersOf, Shared, PowerIn, At;
      CommonIsSum(init, c, keys);
      var p, q := last.power, PowerIn(c, last.ethAddress);
      AbsSumUpdate(Shared(init, c), keys, last.ethAddress, if p <= q then p else q);
    }
  }

  /** How large the difference is: together with twice what both lists have in common it makes up both totals. */
  lemma DeltaIsSize(b: seq<BridgeValidator>, c: seq<BridgeValidator>)
    requires DistinctAddresses(b) && DistinctAddresses(c)
    ensures Delta(b, c) + 2 * Common(b, c) == Total(b) + Total(c)
  {
    var m := Minus(PowersOf(b), c);
    MinusAt(PowersOf(b), c);
    TotalIsSum(b, m.Keys);
    TotalIsSum(c, m.Keys);
    CommonIsSum(b, c, m.Keys);
    forall k | k in m.Keys
      ensures Abs(At(m, k)) + 2 * Abs(At(Shared(b, c), k)) == Abs(At(PowersOf(b), k)) + Abs(At(PowersOf(c), k))
    {
      PowerInIsAt(b, k);
      PowerInIsAt(c, k);
      assert At(m, k) == At(PowersOf(b), k) - At(PowersOf(c), k);
    }
    AbsSumAdds(m, Shared(b, c), PowersOf(b), PowersOf(c), m.Keys);
  }
}
