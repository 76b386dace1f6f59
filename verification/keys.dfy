/** The byte keys of the flat store: every table lives under its own prefix byte, numbers are big-endian so that
    byte order is numeric order, and a prefix scan reads one table. */
module Keys {
  import opened Types
  import opened Lex
  import Outgoing
  import Selection

  // ---------- Big-endian numbers ----------

  function Pow256(n: nat): nat {
    if n == 0 then 1 else 256 * Pow256(n - 1)
  }

  /** The `len` low bytes of n, most significant first. */
  function BigEndian(n: nat, len: nat): (b: Bytes)
    ensures |b| == len
  {
    if len == 0 then [] else BigEndian(n / 256, len - 1) + [n % 256]
  }

  function ToNat(b: Bytes): nat {
    if b == [] then 0 else 256 * ToNat(b[..|b| - 1]) + b[|b| - 1]
  }

  lemma {:induction false} BigEndianRoundTrip(n: nat, len: nat)
    requires n < Pow256(len)
    ensures ToNat(BigEndian(n, len)) == n
  {
    if len > 0 {
      BigEndianRoundTrip(n / 256, len - 1);
      assert BigEndian(n, len)[..len - 1] == BigEndian(n / 256, len - 1);
    }
  }

  lemma {:induction false} ToNatBound(b: Bytes)
    ensures ToNat(b) < Pow256(|b|)
  {
    if b != [] {
      ToNatBound(b[..|b| - 1]);
    }
  }

  lemma {:induction false} ToNatInjective(a: Bytes, b: Bytes)
    requires |a| == |b| && ToNat(a) == ToNat(b)
    ensures a == b
  {
    if a != [] {
      var a', b' := a[..|a| - 1], b[..|b| - 1];
      ToNatInjective(a', b');
      assert a == a' + [a[|a| - 1]] && b == b' + [b[|b| - 1]];
    }
  }

  /** On strings of one length, byte order is numeric order. */
  lemma {:induction false} LessIsNumeric(a: Bytes, b: Bytes)
    requires |a| == |b|
    ensures Less(a, b) <==> ToNat(a) < ToNat(b)
  {
    if a != [] {
      var a', b' := a[..|a| - 1], b[..|b| - 1];
      var x, y := a[|a| - 1], b[|b| - 1];
      LessIsNumeric(a', b');
      assert a == a' + [x] && b == b' + [y];
      if a' == b' {
        CommonPrefix(a', [x], [y]);
      } else {
        DifferentHeads(a', b', [x], [y]);
        if ToNat(a') == ToNat(b') {
          ToNatInjective(a', b');
        }
      }
    }
  }

  lemma BigEndianOrder(m: nat, n: nat, len: nat)
    requires m < Pow256(len) && n < Pow256(len)
    ensures Less(BigEndian(m, len), BigEndian(n, len)) <==> m < n
    ensures BigEndian(m, len) == BigEndian(n, len) <==> m == n
  {
    BigEndianRoundTrip(m, len);
    BigEndianRoundTrip(n, len);
    LessIsNumeric(BigEndian(m, len), BigEndian(n, len));
  }

  // ---------- Prefix ranges ----------

  /** The keys of an iterator over start..end, the end excluded; None is an open end. */
  predicate InRange(k: Bytes, start: Option<Bytes>, end: Option<Bytes>) {
    && (start.Some? ==> !Less(k, start.value))
    && (end.Some? ==> Less(k, end.value))
  }

  /** Adding one to a byte wraps around. */
  function Plus1(b: Byte): Byte {
    if b == 255 then 0 else b + 1
  }

  /** `e` is `p` with the byte at `l` one higher and the all-ones bytes after it zero. */
  ghost predicate CarriedTo(p: Bytes, e: Bytes, l: nat) {
    && |p| == |e| && l < |p|
    && p[..l] == e[..l] && p[l] < 255 && e[l] == Plus1(p[l])
    && forall j | l < j < |p| :: p[j] == 255 && e[j] == 0
  }

  /** The end of the range of a non-empty prefix: the prefix plus one, or open if that does not fit. */
  ghost predicate IsEnd(prefix: Bytes, end: Option<Bytes>) {
    match end
    case None => forall j | 0 <= j < |prefix| :: prefix[j] == 255
    case Some(e) => exists l :: CarriedTo(prefix, e, l)
  }

  lemma {:induction false} Increment(p: Bytes, e: Bytes, l: nat)
    requires CarriedTo(p, e, l)
    ensures ToNat(e) == ToNat(p) + 1
  {
    if l < |p| - 1 {
      var p', e' := p[..|p| - 1], e[..|e| - 1];
      assert p'[..l] == p[..l] && e'[..l] == e[..l];
      Increment(p', e', l);
    } else {
      assert p[..|p| - 1] == e[..|e| - 1];
    }
  }

  lemma {:induction false} AllOnes(p: Bytes)
    requires forall j | 0 <= j < |p| :: p[j] == 255
    ensures ToNat(p) + 1 == Pow256(|p|)
  {
    if p != [] {
      AllOnes(p[..|p| - 1]);
    }
  }

  /** Turns a prefix into a range; both ends are open for the empty prefix. */
  method PrefixRange(prefix: Bytes) returns (start: Option<Bytes>, end: Option<Bytes>)
    ensures prefix == [] ==> start.None? && end.None?
    ensures prefix != [] ==> start == Some(prefix) && IsEnd(prefix, end)
  {
    if |prefix| == 0 {
      return None, None;
    }
    var e := new Byte[|prefix|](i requires 0 <= i < |prefix| => prefix[i]);
    var l := e.Length - 1;
    e[l] := Plus1(e[l]);
    while e[l] == 0 && l > 0
      invariant 0 <= l < e.Length
      invariant e[l] == Plus1(prefix[l])
      invariant forall j | 0 <= j < l :: e[j] == prefix[j]
      invariant forall j | l < j < e.Length :: e[j] == 0 && prefix[j] == 255
    {
      l := l - 1;
      e[l] := Plus1(e[l]);
    }
    if l == 0 && e[0] == 0 {
      return Some(prefix), None;
    }
    assert CarriedTo(prefix, e[..], l);
    return Some(prefix), Some(e[..]);
  }

  /** A key that is at least as long as the prefix is in the range exactly if it has the prefix. */
  lemma RangeIsPrefix(prefix: Bytes, end: Option<Bytes>, k: Bytes)
    requires prefix != [] && |k| >= |prefix| && IsEnd(prefix, end)
    ensures InRange(k, Some(prefix), end) <==> prefix <= k
  {
    var head, tail := k[..|prefix|], k[|prefix|..];
    assert k == head + tail;
    HeadDecides(head, tail, prefix);
    ToNatBound(head);
    if end.Some? {
      var l :| CarriedTo(prefix, end.value, l);
      Increment(prefix, end.value, l);
      HeadDecides(head, tail, end.value);
    } else {
      AllOnes(prefix);
    }
    if ToNat(head) == ToNat(prefix) {
      ToNatInjective(head, prefix);
    }
    assert prefix <= k <==> head == prefix;
  }

  lemma HeadDecides(head: Bytes, tail: Bytes, b: Bytes)
    requires |head| == |b|
    ensures Less(head + tail, b) <==> ToNat(head) < ToNat(b)
  {
    assert b + [] == b && head + [] == head;
    LessIsNumeric(head, b);
    if head == b {
      CommonPrefix(head, tail, []);
    } else {
      DifferentHeads(head, b, tail, []);
    }
  }

  // ---------- The keys of all tables ----------

  const CONTRACT_LEN := 42
  const ADDR_LEN := 20
  const UINT64_LEN := 8
  const AMOUNT_LEN := 32

  datatype Key =
    | EthAddressByValidator(validator: Bytes)
    | ValidatorByEthAddress(ethAddress: Bytes)
    | ValsetRequest(nonce: nat)
    | ValsetConfirm(nonce: nat, validator: Bytes)
    | OracleClaim(claimType: Byte, claimer: Bytes, nonce: nat, hash: Bytes)
    | OracleAttestation(nonce: nat, hash: Bytes)
    | PoolEntry(contract: Bytes, fee: nat, id: nat)
    | OutgoingBatch(contract: Bytes, nonce: nat)
    | BatchAtBlock(block: nat)
    | BatchConfirm(contract: Bytes, nonce: nat, validator: Bytes)
    | LastEventNonceByValidator(validator: Bytes)
    | LastObservedEventNonce
    | LastTxPoolId
    | LastOutgoingBatchId
    | OrchestratorAddress(orchestrator: Bytes)
    | OutgoingLogicCall(invalidationId: Bytes, nonce: nat)
    | LogicConfirm(invalidationId: Bytes, nonce: nat, validator: Bytes)
    | LastObservedEthereumBlockHeight
    | DenomToERC20(denom: Bytes)
    | ERC20ToDenom(erc20: Bytes)
    | LastSlashedValsetNonce
    | LatestValsetNonce
    | LastSlashedBatchBlock
    | LastSlashedLogicCallBlock
    | LastUnBondingBlockHeight
    | LastObservedValset
    | PastEthSignatureCheckpoint(checkpoint: Bytes)

  function Tag(k: Key): Byte {
    match k
    case EthAddressByValidator(_) => 0x1
    case ValidatorByEthAddress(_) => 0x2
    case ValsetRequest(_) => 0x3
    case ValsetConfirm(_, _) => 0x4
    case OracleClaim(_, _, _, _) => 0x5
    case OracleAttestation(_, _) => 0x6
    case PoolEntry(_, _, _) => 0x7
    case OutgoingBatch(_, _) => 0xa
    case BatchAtBlock(_) => 0xb
    case BatchConfirm(_, _, _) => 0xc
    case LastEventNonceByValidator(_) => 0xe
    case LastObservedEventNonce => 0xf
    case LastTxPoolId => 0x10
    case LastOutgoingBatchId => 0x10
    case OrchestratorAddress(_) => 0x11
    case OutgoingLogicCall(_, _) => 0x12
    case LogicConfirm(_, _, _) => 0x13
    case LastObservedEthereumBlockHeight => 0x14
    case DenomToERC20(_) => 0x15
    case ERC20ToDenom(_) => 0x16
    case LastSlashedValsetNonce => 0x17
    case LatestValsetNonce => 0x18
    case LastSlashedBatchBlock => 0x19
    case LastSlashedLogicCallBlock => 0x20
    case LastUnBondingBlockHeight => 0xf8
    case LastObservedValset => 0xfa
    case PastEthSignatureCheckpoint(_) => 0x1b
  }

  function Ascii(s: string): Bytes {
    seq(|s|, i requires 0 <= i < |s| => (s[i] as int) % 256)
  }

  const TX_POOL_ID := Ascii("lastTxPoolId")
  const BATCH_ID := Ascii("lastBatchId")

  /** What follows the prefix byte. */
  function Rest(k: Key): Bytes {
    match k
    case EthAddressByValidator(v) => v
    case ValidatorByEthAddress(a) => a
    case ValsetRequest(n) => BigEndian(n, UINT64_LEN)
    case ValsetConfirm(n, v) => BigEndian(n, UINT64_LEN) + v
    case OracleClaim(t, c, n, h) => [t] + c + BigEndian(n, UINT64_LEN) + h
    case OracleAttestation(n, h) => BigEndian(n, UINT64_LEN) + h
    case PoolEntry(c, f, id) => c + (BigEndian(f, AMOUNT_LEN) + BigEndian(id, UINT64_LEN))
    case OutgoingBatch(c, n) => c + BigEndian(n, UINT64_LEN)
    case BatchAtBlock(b) => BigEndian(b, UINT64_LEN)
    case BatchConfirm(c, n, v) => c + (BigEndian(n, UINT64_LEN) + v)
    case LastEventNonceByValidator(v) => v
    case LastTxPoolId => TX_POOL_ID
    case LastOutgoingBatchId => BATCH_ID
    case OrchestratorAddress(o) => o
    case OutgoingLogicCall(i, n) => i + BigEndian(n, UINT64_LEN)
    case LogicConfirm(i, n, v) => i + BigEndian(n, UINT64_LEN) + v
    case DenomToERC20(d) => d
    case ERC20ToDenom(e) => e
    case PastEthSignatureCheckpoint(c) => c
    case _ => []
  }

  function Encode(k: Key): Bytes {
    [Tag(k)] + Rest(k)
  }

  predicate IsUint64(n: nat) {
    n < Pow256(UINT64_LEN)
  }

  /** The fields that a key can be made of: contracts of 42 characters, addresses of 20 bytes, 64 bit numbers and
      amounts of at most 256 bits. */
  predicate Wf(k: Key) {
    match k
    case ValsetRequest(n) => IsUint64(n)
    case ValsetConfirm(n, v) => IsUint64(n)
    case OracleClaim(_, c, n, _) => |c| == ADDR_LEN && IsUint64(n)
    case OracleAttestation(n, _) => IsUint64(n)
    case PoolEntry(c, f, id) => |c| == CONTRACT_LEN && f < Pow256(AMOUNT_LEN) && IsUint64(id)
    case OutgoingBatch(c, n) => |c| == CONTRACT_LEN && IsUint64(n)
    case BatchAtBlock(b) => IsUint64(b)
    case BatchConfirm(c, n, v) => |c| == CONTRACT_LEN && IsUint64(n)
    case OutgoingLogicCall(_, n) => IsUint64(n)
    case LogicConfirm(_, n, v) => IsUint64(n) && |v| == ADDR_LEN
    case _ => true
  }

  lemma SplitConcat(a: Bytes, b: Bytes, c: Bytes, d: Bytes)
    requires a + b == c + d && (|a| == |c| || |b| == |d|)
    ensures a == c && b == d
  {
    assert |a| == |c|;
    assert a == (a + b)[..|a|] == (c + d)[..|c|] == c;
    assert b == (a + b)[|a|..] == (c + d)[|c|..] == d;
  }

  lemma BigEndianInjective(m: nat, n: nat, len: nat)
    requires m < Pow256(len) && n < Pow256(len) && BigEndian(m, len) == BigEndian(n, len)
    ensures m == n
  {
    BigEndianOrder(m, n, len);
  }

  lemma SameTable(a: Key, b: Key)
    requires Encode(a) == Encode(b)
    ensures Tag(a) == Tag(b) && Rest(a) == Rest(b)
  {
    SplitConcat([Tag(a)], Rest(a), [Tag(b)], Rest(b));
  }

  lemma ClaimInjective(a: Key, b: Key)
    requires a.OracleClaim? && b.OracleClaim? && Wf(a) && Wf(b) && Rest(a) == Rest(b)
    ensures a == b
  {
    var m, n := BigEndian(a.nonce, UINT64_LEN), BigEndian(b.nonce, UINT64_LEN);
    SplitConcat([a.claimType] + a.claimer + m, a.hash, [b.claimType] + b.claimer + n, b.hash);
    SplitConcat([a.claimType] + a.claimer, m, [b.claimType] + b.claimer, n);
    SplitConcat([a.claimType], a.claimer, [b.claimType], b.claimer);
    BigEndianInjective(a.nonce, b.nonce, UINT64_LEN);
  }

  lemma EntryInjective(a: Key, b: Key)
    requires a.PoolEntry? && b.PoolEntry? && Wf(a) && Wf(b) && Rest(a) == Rest(b)
    ensures a == b
  {
    var f, g := BigEndian(a.fee, AMOUNT_LEN), BigEndian(b.fee, AMOUNT_LEN);
    var i, j := BigEndian(a.id, UINT64_LEN), BigEndian(b.id, UINT64_LEN);
    SplitConcat(a.contract, f + i, b.contract, g + j);
    SplitConcat(f, i, g, j);
    BigEndianInjective(a.fee, b.fee, AMOUNT_LEN);
    BigEndianInjective(a.id, b.id, UINT64_LEN);
  }

  lemma BatchConfirmInjective(a: Key, b: Key)
    requires a.BatchConfirm? && b.BatchConfirm? && Wf(a) && Wf(b) && Rest(a) == Rest(b)
    ensures a == b
  {
    var m, n := BigEndian(a.nonce, UINT64_LEN), BigEndian(b.nonce, UINT64_LEN);
    SplitConcat(a.contract, m + a.validator, b.contract, n + b.validator);
    SplitConcat(m, a.validator, n, b.validator);
    BigEndianInjective(a.nonce, b.nonce, UINT64_LEN);
  }

  lemma LogicConfirmInjective(a: Key, b: Key)
    requires a.LogicConfirm? && b.LogicConfirm? && Wf(a) && Wf(b) && Rest(a) == Rest(b)
    ensures a == b
  {
    var m, n := BigEndian(a.nonce, UINT64_LEN), BigEndian(b.nonce, UINT64_LEN);
    SplitConcat(a.invalidationId + m, a.validator, b.invalidationId + n, b.validator);
    SplitConcat(a.invalidationId, m, b.invalidationId, n);
    BigEndianInjective(a.nonce, b.nonce, UINT64_LEN);
  }

  /** No two keys have the same bytes, within a table or across tables. */
  lemma EncodeInjective(a: Key, b: Key)
    requires Wf(a) && Wf(b) && Encode(a) == Encode(b)
    ensures a == b
  {
    SameTable(a, b);
    match a
    case ValsetRequest(n) =>
      BigEndianInjective(n, b.nonce, UINT64_LEN);
    case ValsetConfirm(n, v) =>
      SplitConcat(BigEndian(n, UINT64_LEN), v, BigEndian(b.nonce, UINT64_LEN), b.validator);
      BigEndianInjective(n, b.nonce, UINT64_LEN);
    case OracleClaim(_, _, _, _) =>
      ClaimInjective(a, b);
    case OracleAttestation(n, h) =>
      SplitConcat(BigEndian(n, UINT64_LEN), h, BigEndian(b.nonce, UINT64_LEN), b.hash);
      BigEndianInjective(n, b.nonce, UINT64_LEN);
    case PoolEntry(_, _, _) =>
      EntryInjective(a, b);
    case OutgoingBatch(c, n) =>
      SplitConcat(c, BigEndian(n, UINT64_LEN), b.contract, BigEndian(b.nonce, UINT64_LEN));
      BigEndianInjective(n, b.nonce, UINT64_LEN);
    case BatchAtBlock(n) =>
      BigEndianInjective(n, b.block, UINT64_LEN);
    case BatchConfirm(_, _, _) =>
      BatchConfirmInjective(a, b);
    case OutgoingLogicCall(i, n) =>
      SplitConcat(i, BigEndian(n, UINT64_LEN), b.invalidationId, BigEndian(b.nonce, UINT64_LEN));
      BigEndianInjective(n, b.nonce, UINT64_LEN);
    case LogicConfirm(_, _, _) =>
      LogicConfirmInjective(a, b);
    case LastTxPoolId =>
      assert |TX_POOL_ID| == 12 && |BATCH_ID| == 11;
    case LastOutgoingBatchId =>
      assert |TX_POOL_ID| == 12 && |BATCH_ID| == 11;
    case _ =>
  }

  // ---------- Where the parts of a key lie ----------

  /** The bytes from `from` up to `to` hold n, most significant first. */
  ghost predicate HoldsNumber(b: Bytes, from: nat, to: nat, n: nat) {
    from <= to <= |b| && ToNat(b[from..to]) == n
  }

  ghost predicate HoldsBytes(b: Bytes, from: nat, to: nat, part: Bytes) {
    from <= to <= |b| && b[from..to] == part
  }

  lemma NumberPart(head: Bytes, n: nat, len: nat, tail: Bytes)
    requires n < Pow256(len)
    ensures HoldsNumber(head + BigEndian(n, len) + tail, |head|, |head| + len, n)
  {
    BigEndianRoundTrip(n, len);
    assert (head + BigEndian(n, len) + tail)[|head|..|head| + len] == BigEndian(n, len);
  }

  /** A pool key is 0x7, the contract, the fee in 32 bytes and the id in 8. */
  lemma PoolEntryParts(contract: Bytes, fee: nat, id: nat, b: Bytes)
    requires Wf(PoolEntry(contract, fee, id)) && b == Encode(PoolEntry(contract, fee, id))
    ensures |b| == 83 && b[0] == 0x7
    ensures HoldsBytes(b, 1, 43, contract) && HoldsNumber(b, 43, 75, fee) && HoldsNumber(b, 75, 83, id)
  {
    var f, i := BigEndian(fee, AMOUNT_LEN), BigEndian(id, UINT64_LEN);
    assert b == [0x7] + contract + f + i && b == ([0x7] + contract + f) + i + [];
    NumberPart([0x7] + contract, fee, AMOUNT_LEN, i);
    NumberPart([0x7] + contract + f, id, UINT64_LEN, []);
  }

  /** A batch key is 0xa, the contract and the nonce in 8 bytes. */
  lemma BatchParts(contract: Bytes, nonce: nat, b: Bytes)
    requires Wf(OutgoingBatch(contract, nonce)) && b == Encode(OutgoingBatch(contract, nonce))
    ensures |b| == 51 && b[0] == 0xa
    ensures HoldsBytes(b, 1, 43, contract) && HoldsNumber(b, 43, 51, nonce)
  {
    assert b == ([0xa] + contract) + BigEndian(nonce, UINT64_LEN) + [];
    NumberPart([0xa] + contract, nonce, UINT64_LEN, []);
  }

  /** An attestation key is 0x6, the nonce in 8 bytes and the hash of the claim. */
  lemma AttestationParts(nonce: nat, hash: Bytes, b: Bytes)
    requires Wf(OracleAttestation(nonce, hash)) && b == Encode(OracleAttestation(nonce, hash))
    ensures |b| == 9 + |hash| && b[0] == 0x6
    ensures HoldsNumber(b, 1, 9, nonce) && HoldsBytes(b, 9, |b|, hash)
  {
    assert b == [0x6] + BigEndian(nonce, UINT64_LEN) + hash;
    NumberPart([0x6], nonce, UINT64_LEN, hash);
  }

  /** Sets and their confirmations lie under 0x3 and 0x4, by the nonce in 8 bytes. */
  lemma ValsetParts(nonce: nat, validator: Bytes, b: Bytes, c: Bytes)
    requires IsUint64(nonce) && b == Encode(ValsetRequest(nonce)) && c == Encode(ValsetConfirm(nonce, validator))
    ensures |b| == 9 && b[0] == 0x3 && HoldsNumber(b, 1, 9, nonce)
    ensures |c| == 9 + |validator| && c[0] == 0x4
    ensures HoldsNumber(c, 1, 9, nonce) && HoldsBytes(c, 9, |c|, validator)
  {
    assert b == [0x3] + BigEndian(nonce, UINT64_LEN) + [];
    assert c == [0x4] + BigEndian(nonce, UINT64_LEN) + validator;
    NumberPart([0x3], nonce, UINT64_LEN, []);
    NumberPart([0x4], nonce, UINT64_LEN, validator);
  }
}
