/** The protobuf messages of the outgoing bridge: tokens, transfers, batches and sets of ids, each with its size, its
    backward writer and its reader. An amount stands for the bytes of its own codec. */
module Messages {
  import opened Types
  import opened Lex
  import opened Wire

  datatype Token = Token(contract: Bytes, amount: Bytes)

  datatype Tx = Tx(id: nat, sender: Bytes, dest: Bytes, token: Option<Token>, fee: Option<Token>)

  datatype TxBatch = TxBatch(nonce: nat, timeout: nat, txs: seq<Tx>, contract: Bytes, block: nat)

  // ---------- The wire format ----------

  function TokenBytes(t: Token): Bytes {
    BytesField(0xa, t.contract) + MessageField(0x12, t.amount)
  }

  function OptionalToken(key: Byte, t: Option<Token>): Bytes {
    if t.Some? then MessageField(key, TokenBytes(t.value)) else []
  }

  function TxBytes(t: Tx): Bytes {
    UintField(0x8, t.id) + (BytesField(0x12, t.sender) + (BytesField(0x1a, t.dest)
                            + (OptionalToken(0x22, t.token) + OptionalToken(0x2a, t.fee))))
  }

  function TxsBytes(txs: seq<Tx>): Bytes {
    if txs == [] then [] else MessageField(0x1a, TxBytes(txs[0])) + TxsBytes(txs[1..])
  }

  function BatchTail(b: TxBatch): Bytes {
    BytesField(0x22, b.contract) + UintField(0x28, b.block)
  }

  function BatchBytes(b: TxBatch): Bytes {
    UintField(0x8, b.nonce) + (UintField(0x10, b.timeout) + (TxsBytes(b.txs) + BatchTail(b)))
  }

  function IdSetBytes(ids: seq<nat>): Bytes {
    BytesField(0xa, Packed(ids))
  }

  // ---------- Sizes ----------

  function TokenSize(t: Token): nat {
    BytesSize(|t.contract|) + MessageSize(|t.amount|)
  }

  function OptionalSize(t: Option<Token>): nat {
    if t.Some? then MessageSize(TokenSize(t.value)) else 0
  }

  function TxSize(t: Tx): nat {
    UintSize(t.id) + BytesSize(|t.sender|) + BytesSize(|t.dest|) + OptionalSize(t.token) + OptionalSize(t.fee)
  }

  lemma TokenSizeIsExact(t: Token)
    ensures TokenSize(t) == |TokenBytes(t)|
  {
    FieldSizes(0xa, 0, t.contract);
    FieldSizes(0x12, 0, t.amount);
  }

  lemma OptionalSizeIsExact(key: Byte, t: Option<Token>)
    ensures OptionalSize(t) == |OptionalToken(key, t)|
  {
    if t.Some? {
      TokenSizeIsExact(t.value);
      FieldSizes(key, 0, TokenBytes(t.value));
    }
  }

  lemma TxSizeIsExact(t: Tx)
    ensures TxSize(t) == |TxBytes(t)|
  {
    FieldSizes(0x8, t.id, []);
    FieldSizes(0x12, 0, t.sender);
    FieldSizes(0x1a, 0, t.dest);
    OptionalSizeIsExact(0x22, t.token);
    OptionalSizeIsExact(0x2a, t.fee);
  }

  lemma {:induction false} TxsBytesSnoc(txs: seq<Tx>, t: Tx)
    ensures TxsBytes(txs + [t]) == TxsBytes(txs) + MessageField(0x1a, TxBytes(t))
  {
    hide MessageField, TxBytes;
    if txs != [] {
      assert (txs + [t])[1..] == txs[1..] + [t];
      TxsBytesSnoc(txs[1..], t);
    }
  }

  lemma {:induction false} PackedSnoc(ids: seq<nat>, id: nat)
    ensures Packed(ids + [id]) == Packed(ids) + Varint(id)
  {
    hide Varint;
    if ids != [] {
      assert (ids + [id])[1..] == ids[1..] + [id];
      PackedSnoc(ids[1..], id);
    } else {
      assert Packed([id]) == Varint(id) + Packed([id][1..]);
    }
  }

  lemma BatchSizeIsExact(b: TxBatch)
    ensures |BatchBytes(b)| == UintSize(b.nonce) + UintSize(b.timeout) + |TxsBytes(b.txs)| + BytesSize(|b.contract|) + UintSize(b.block)
  {
    hide TxsBytes, UintField, BytesField, UintSize, BytesSize;
    FieldSizes(0x8, b.nonce, []);
    FieldSizes(0x10, b.timeout, []);
    FieldSizes(0x22, 0, b.contract);
    FieldSizes(0x28, b.block, []);
  }

  lemma OneMoreTx(txs: seq<Tx>, k: nat)
    requires k < |txs|
    ensures |TxsBytes(txs[..k + 1])| == |TxsBytes(txs[..k])| + MessageSize(TxSize(txs[k]))
  {
    hide TxsBytes, TxBytes, TxSize, MessageField, MessageSize;
    TxSizeIsExact(txs[k]);
    FieldSizes(0x1a, 0, TxBytes(txs[k]));
    TxsBytesSnoc(txs[..k], txs[k]);
    assert txs[..k] + [txs[k]] == txs[..k + 1];
  }

  method TxsSize(txs: seq<Tx>) returns (n: nat)
    ensures n == |TxsBytes(txs)|
  {
    assert |TxsBytes(txs[..0])| == 0;
    hide TxsBytes, MessageSize, TxSize;
    n := 0;
    for k := 0 to |txs|
      invariant n == |TxsBytes(txs[..k])|
    {
      OneMoreTx(txs, k);
      var l := TxSize(txs[k]);
      n := n + MessageSize(l);
    }
    assert txs[..|txs|] == txs;
  }

  method BatchSize(b: TxBatch) returns (n: nat)
    ensures n == |BatchBytes(b)|
  {
    BatchSizeIsExact(b);
    hide *;
    n := UintSize(b.nonce) + UintSize(b.timeout);
    var l := TxsSize(b.txs);
    n := n + l + BytesSize(|b.contract|) + UintSize(b.block);
  }

  method IdSetSize(ids: seq<nat>) returns (n: nat)
    ensures n == |IdSetBytes(ids)|
  {
    if |ids| == 0 {
      return 0;
    }
    var l := 0;
    for k := 0 to |ids|
      invariant l == |Packed(ids[..k])|
    {
      SovIsLength(ids[k]);
      PackedSnoc(ids[..k], ids[k]);
      assert ids[..k] + [ids[k]] == ids[..k + 1];
      l := l + Sov(ids[k]);
    }
    assert ids[..|ids|] == ids;
    FieldSizes(0xa, 0, Packed(ids));
    n := 1 + Sov(l) + l;
  }

  // ---------- Backward writers ----------

  /** Writes a token in front of position `end` and returns its size. */
  method MarshalTokenTo(d: array<Byte>, end: nat, t: Token) returns (size: nat)
    requires |TokenBytes(t)| <= end <= d.Length
    modifies d
    ensures size == |TokenBytes(t)| && Written(d[..], old(d[..]), end - size, end, TokenBytes(t))
  {
    hide Varint, BytesField, Written;
    ghost var before := d[..];
    var i := PutBytes(d, end, t.amount);
    ghost var mid := d[..];
    i := PutHeader(d, i, 0x12, |t.amount|);
    WrittenInFront(before, mid, d[..], i, end - |t.amount|, end, [0x12] + Varint(|t.amount|), t.amount);
    mid := d[..];
    ghost var j := i;
    i := PutBytesField(d, i, 0xa, t.contract);
    WrittenInFront(before, mid, d[..], i, j, end, BytesField(0xa, t.contract), MessageField(0x12, t.amount));
    size := end - i;
  }

  method PutOptionalToken(d: array<Byte>, i: nat, key: Byte, t: Option<Token>) returns (from: nat)
    requires |OptionalToken(key, t)| <= i <= d.Length
    modifies d
    ensures from == i - |OptionalToken(key, t)| && Written(d[..], old(d[..]), from, i, OptionalToken(key, t))
  {
    if t.None? {
      return i;
    }
    hide Varint, TokenBytes, Written;
    ghost var before := d[..];
    var size := MarshalTokenTo(d, i, t.value);
    ghost var mid := d[..];
    from := PutHeader(d, i - size, key, size);
    WrittenInFront(before, mid, d[..], from, i - size, i, [key] + Varint(size), TokenBytes(t.value));
  }

  method MarshalTxTo(d: array<Byte>, end: nat, t: Tx) returns (size: nat)
    requires |TxBytes(t)| <= end <= d.Length
    modifies d
    ensures size == |TxBytes(t)| && Written(d[..], old(d[..]), end - size, end, TxBytes(t))
  {
    hide UintField, BytesField, OptionalToken, Written;
    ghost var before := d[..];
    var i := PutOptionalToken(d, end, 0x2a, t.fee);
    ghost var mid, j, w := d[..], i, OptionalToken(0x2a, t.fee);
    i := PutOptionalToken(d, i, 0x22, t.token);
    WrittenInFront(before, mid, d[..], i, j, end, OptionalToken(0x22, t.token), w);
    mid, j, w := d[..], i, OptionalToken(0x22, t.token) + w;
    i := PutBytesField(d, i, 0x1a, t.dest);
    WrittenInFront(before, mid, d[..], i, j, end, BytesField(0x1a, t.dest), w);
    mid, j, w := d[..], i, BytesField(0x1a, t.dest) + w;
    i := PutBytesField(d, i, 0x12, t.sender);
    WrittenInFront(before, mid, d[..], i, j, end, BytesField(0x12, t.sender), w);
    mid, j, w := d[..], i, BytesField(0x12, t.sender) + w;
    i := PutUintField(d, i, 0x8, t.id);
    WrittenInFront(before, mid, d[..], i, j, end, UintField(0x8, t.id), w);
    size := end - i;
  }

  /** Writes the transfers, last one first. */
  method PutTxs(d: array<Byte>, i: nat, txs: seq<Tx>) returns (from: nat)
    requires |TxsBytes(txs)| <= i <= d.Length
    modifies d
    ensures from == i - |TxsBytes(txs)| && Written(d[..], old(d[..]), from, i, TxsBytes(txs))
  {
    hide Varint, TxBytes, Written, TxsBytes;
    ghost var before := d[..];
    WrittenNothing(before, i);
    from := i;
    var k := |txs|;
    assert TxsBytes(txs[k..]) == [] by { NoTxs(txs); }
    while k > 0
      invariant 0 <= k <= |txs|
      invariant from == i - |TxsBytes(txs[k..])| && Written(d[..], before, from, i, TxsBytes(txs[k..]))
    {
      k := k - 1;
      TxsFit(txs, k);
      ghost var mid, j, w := d[..], from, TxsBytes(txs[k + 1..]);
      var size := MarshalTxTo(d, from, txs[k]);
      WrittenInFront(before, mid, d[..], from - size, j, i, TxBytes(txs[k]), w);
      mid, j, w := d[..], from - size, TxBytes(txs[k]) + w;
      from := PutHeader(d, from - size, 0x1a, size);
      WrittenInFront(before, mid, d[..], from, j, i, [0x1a] + Varint(size), w);
      assert [0x1a] + Varint(size) + w == TxsBytes(txs[k..]);
    }
    assert txs[0..] == txs;
  }

  lemma NoTxs(txs: seq<Tx>)
    ensures TxsBytes(txs[|txs|..]) == []
  {
  }

  lemma WrittenNothing(before: Bytes, i: nat)
    requires i <= |before|
    ensures Written(before, before, i, i, [])
  {
  }

  lemma {:induction false} TxsFit(txs: seq<Tx>, k: nat)
    requires k < |txs|
    ensures TxsBytes(txs[k..]) == MessageField(0x1a, TxBytes(txs[k])) + TxsBytes(txs[k + 1..])
    ensures |TxsBytes(txs[k..])| <= |TxsBytes(txs)|
  {
    hide MessageField, TxBytes;
    assert txs[k..][0] == txs[k] && txs[k..][1..] == txs[k + 1..];
    if k == 0 {
      assert txs[0..] == txs;
    } else {
      assert txs[1..][k - 1..] == txs[k..];
      TxsFit(txs[1..], k - 1);
    }
  }

  method MarshalBatchTo(d: array<Byte>, end: nat, b: TxBatch) returns (size: nat)
    requires |BatchBytes(b)| <= end <= d.Length
    modifies d
    ensures size == |BatchBytes(b)| && Written(d[..], old(d[..]), end - size, end, BatchBytes(b))
  {
    hide UintField, BytesField, TxsBytes, Written;
    ghost var before := d[..];
    var i := PutUintField(d, end, 0x28, b.block);
    ghost var mid, j, w := d[..], i, UintField(0x28, b.block);
    i := PutBytesField(d, i, 0x22, b.contract);
    WrittenInFront(before, mid, d[..], i, j, end, BytesField(0x22, b.contract), w);
    mid, j, w := d[..], i, BatchTail(b);
    i := PutTxs(d, i, b.txs);
    WrittenInFront(before, mid, d[..], i, j, end, TxsBytes(b.txs), w);
    mid, j, w := d[..], i, TxsBytes(b.txs) + w;
    i := PutUintField(d, i, 0x10, b.timeout);
    WrittenInFront(before, mid, d[..], i, j, end, UintField(0x10, b.timeout), w);
    mid, j, w := d[..], i, UintField(0x10, b.timeout) + w;
    i := PutUintField(d, i, 0x8, b.nonce);
    WrittenInFront(before, mid, d[..], i, j, end, UintField(0x8, b.nonce), w);
    size := end - i;
  }

  /** Packs the ids into a scratch buffer of ten bytes an id. */
  method PackIds(ids: seq<nat>) returns (b: Bytes)
    requires forall k :: 0 <= k < |ids| ==> ids[k] < U64
    ensures b == Packed(ids)
  {
    var scratch := new Byte[10 * |ids|];
    var j := 0;
    for k := 0 to |ids|
      invariant 0 <= j <= 10 * k && scratch[..j] == Packed(ids[..k])
    {
      ghost var done := scratch[..j];
      j := PackId(scratch, j, ids[k]);
      PackedSnoc(ids[..k], ids[k]);
      assert ids[..k] + [ids[k]] == ids[..k + 1];
    }
    assert ids[..|ids|] == ids;
    b := scratch[..j];
  }

  method PackId(scratch: array<Byte>, start: nat, id: nat) returns (j: nat)
    requires id < U64 && start + 10 <= scratch.Length
    modifies scratch
    ensures start <= j <= start + 10 && scratch[..j] == old(scratch[..start]) + Varint(id)
  {
    assert Pow128(0) == 1;
    VarintLength(id, 0);
    j := start;
    var num := id;
    while num >= 128
      invariant start <= j && j + |Varint(num)| <= start + 10
      invariant scratch[..j] + Varint(num) == old(scratch[..start]) + Varint(id)
    {
      scratch[j] := num % 128 + 128;
      assert scratch[..j + 1] == scratch[..j] + [num % 128 + 128];
      num := num / 128;
      j := j + 1;
    }
    scratch[j] := num;
    assert scratch[..j + 1] == scratch[..j] + [num];
    j := j + 1;
  }

  method MarshalIdSetTo(d: array<Byte>, end: nat, ids: seq<nat>) returns (size: nat)
    requires forall k :: 0 <= k < |ids| ==> ids[k] < U64
    requires |IdSetBytes(ids)| <= end <= d.Length
    modifies d
    ensures size == |IdSetBytes(ids)| && Written(d[..], old(d[..]), end - size, end, IdSetBytes(ids))
  {
    var i := end;
    if |ids| > 0 {
      var b := PackIds(ids);
      i := PutBytesField(d, i, 0xa, b);
    }
    size := end - i;
  }

  // ---------- Marshal: a buffer of exactly the size ----------

  lemma WholeBuffer(d: Bytes, before: Bytes, b: Bytes)
    requires |before| == |b| && Written(d, before, 0, |b|, b)
    ensures d == b
  {
  }

  method MarshalToken(t: Token) returns (b: Bytes)
    ensures b == TokenBytes(t)
  {
    TokenSizeIsExact(t);
    var d := new Byte[TokenSize(t)];
    ghost var before := d[..];
    var n := MarshalTokenTo(d, d.Length, t);
    WholeBuffer(d[..], before, TokenBytes(t));
    b := d[..n];
  }

  method MarshalTx(t: Tx) returns (b: Bytes)
    ensures b == TxBytes(t)
  {
    TxSizeIsExact(t);
    var d := new Byte[TxSize(t)];
    ghost var before := d[..];
    var n := MarshalTxTo(d, d.Length, t);
    WholeBuffer(d[..], before, TxBytes(t));
    b := d[..n];
  }

  method MarshalBatch(batch: TxBatch) returns (b: Bytes)
    ensures b == BatchBytes(batch)
  {
    var size := BatchSize(batch);
    var d := new Byte[size];
    ghost var before := d[..];
    var n := MarshalBatchTo(d, d.Length, batch);
    WholeBuffer(d[..], before, BatchBytes(batch));
    b := d[..n];
  }

  method MarshalIdSet(ids: seq<nat>) returns (b: Bytes)
    requires forall k :: 0 <= k < |ids| ==> ids[k] < U64
    ensures b == IdSetBytes(ids)
  {
    var size := IdSetSize(ids);
    var d := new Byte[size];
    ghost var before := d[..];
    var n := MarshalIdSetTo(d, d.Length, ids);
    WholeBuffer(d[..], before, IdSetBytes(ids));
    b := d[..n];
  }

  // ---------- Readers ----------

  const TOKEN: Schema := map[1 := Data, 2 := Data]

  const TX: Schema := map[1 := Uint, 2 := Data, 3 := Data, 4 := Data, 5 := Data]

  const BATCH: Schema := map[1 := Uint, 2 := Uint, 3 := Data, 4 := Data, 5 := Uint]

  const ID_SET: Schema := map[1 := Uints]

  const NoToken := Token([], [])

  const NoTx := Tx(0, [], [], None, None)

  const NoBatch := TxBatch(0, 0, [], [], 0)

  /** Which byte strings the codec of amounts accepts. */
  type Amounts = Bytes -> bool

  function PutToken(ok: Amounts, t: Token, num: int, v: Value): Result<Token> {
    match (num, v)
    case (1, Payload(b)) => Ok(t.(contract := b))
    case (2, Payload(b)) => if ok(b) then Ok(t.(amount := b)) else Failed(InvalidAmount)
    case _ => Failed(WrongWireType)
  }

  function TokenPut(ok: Amounts): (Token, int, Value) -> Result<Token> {
    (t: Token, num: int, v: Value) => PutToken(ok, t, num, v)
  }

  /** A token that occurs again is read into the one that is there. */
  function MergeToken(ok: Amounts, t: Option<Token>, b: Bytes): Result<Option<Token>> {
    match Parse(b, 0, TOKEN, TokenPut(ok), if t.Some? then t.value else NoToken)
    case Ok(t') => Ok(Some(t'))
    case Failed(e) => Failed(e)
  }

  function PutTx(ok: Amounts, t: Tx, num: int, v: Value): Result<Tx> {
    match (num, v)
    case (1, Number(n)) => Ok(t.(id := n))
    case (2, Payload(b)) => Ok(t.(sender := b))
    case (3, Payload(b)) => Ok(t.(dest := b))
    case (4, Payload(b)) => (match MergeToken(ok, t.token, b) case Ok(o) => Ok(t.(token := o)) case Failed(e) => Failed(e))
    case (5, Payload(b)) => (match MergeToken(ok, t.fee, b) case Ok(o) => Ok(t.(fee := o)) case Failed(e) => Failed(e))
    case _ => Failed(WrongWireType)
  }

  function TxPut(ok: Amounts): (Tx, int, Value) -> Result<Tx> {
    (t: Tx, num: int, v: Value) => PutTx(ok, t, num, v)
  }

  function PutBatch(ok: Amounts, m: TxBatch, num: int, v: Value): Result<TxBatch> {
    match (num, v)
    case (1, Number(n)) => Ok(m.(nonce := n))
    case (2, Number(n)) => Ok(m.(timeout := n))
    case (3, Payload(b)) => (
      match Parse(b, 0, TX, TxPut(ok), NoTx)
      case Ok(t) => Ok(m.(txs := m.txs + [t]))
      case Failed(e) => Failed(e))
    case (4, Payload(b)) => Ok(m.(contract := b))
    case (5, Number(n)) => Ok(m.(block := n))
    case _ => Failed(WrongWireType)
  }

  function BatchPut(ok: Amounts): (TxBatch, int, Value) -> Result<TxBatch> {
    (m: TxBatch, num: int, v: Value) => PutBatch(ok, m, num, v)
  }

  function PutIds(ids: seq<nat>, num: int, v: Value): Result<seq<nat>> {
    if v.Numbers? then Ok(ids + v.ns) else Failed(WrongWireType)
  }

  function ReadToken(ok: Amounts, b: Bytes): Result<Token> {
    Parse(b, 0, TOKEN, TokenPut(ok), NoToken)
  }

  function ReadTx(ok: Amounts, b: Bytes): Result<Tx> {
    Parse(b, 0, TX, TxPut(ok), NoTx)
  }

  function ReadBatch(ok: Amounts, b: Bytes): Result<TxBatch> {
    Parse(b, 0, BATCH, BatchPut(ok), NoBatch)
  }

  function ReadIdSet(b: Bytes): Result<seq<nat>> {
    Parse(b, 0, ID_SET, PutIds, [])
  }

  method UnmarshalToken(ok: Amounts, m: Token, d: Bytes) returns (r: Result<Token>)
    ensures r == Parse(d, 0, TOKEN, TokenPut(ok), m)
  {
    var t, i := m, 0;
    while i < |d|
      invariant 0 <= i <= |d| && Parse(d, 0, TOKEN, TokenPut(ok), m) == Parse(d, i, TOKEN, TokenPut(ok), t)
    {
      var f := DecodeField(d, i, TOKEN);
      if f.Failed? {
        return Failed(f.error);
      }
      match f.value.0 {
        case Unknown =>
        case Known(num, v) =>
          match (num, v) {
            case (1, Payload(b)) => t := t.(contract := b);
            case (2, Payload(b)) =>
              if !ok(b) {
                return Failed(InvalidAmount);
              }
              t := t.(amount := b);
            case _ => return Failed(WrongWireType);
          }
      }
      i := f.value.1;
    }
    return Ok(t);
  }

  method UnmarshalTx(ok: Amounts, d: Bytes) returns (r: Result<Tx>)
    ensures r == ReadTx(ok, d)
  {
    var t, i := NoTx, 0;
    while i < |d|
      invariant 0 <= i <= |d| && ReadTx(ok, d) == Parse(d, i, TX, TxPut(ok), t)
    {
      var f := DecodeField(d, i, TX);
      if f.Failed? {
        return Failed(f.error);
      }
      match f.value.0 {
        case Unknown =>
        case Known(num, v) =>
          match (num, v) {
            case (1, Number(n)) => t := t.(id := n);
            case (2, Payload(b)) => t := t.(sender := b);
            case (3, Payload(b)) => t := t.(dest := b);
            case (4, Payload(b)) =>
              var token := UnmarshalToken(ok, if t.token.Some? then t.token.value else NoToken, b);
              if token.Failed? {
                return Failed(token.error);
              }
              t := t.(token := Some(token.value));
            case (5, Payload(b)) =>
              var fee := UnmarshalToken(ok, if t.fee.Some? then t.fee.value else NoToken, b);
              if fee.Failed? {
                return Failed(fee.error);
              }
              t := t.(fee := Some(fee.value));
            case _ => return Failed(WrongWireType);
          }
      }
      i := f.value.1;
    }
    return Ok(t);
  }

  method UnmarshalBatch(ok: Amounts, d: Bytes) returns (r: Result<TxBatch>)
    ensures r == ReadBatch(ok, d)
  {
    var m, i := NoBatch, 0;
    while i < |d|
      invariant 0 <= i <= |d| && ReadBatch(ok, d) == Parse(d, i, BATCH, BatchPut(ok), m)
    {
      var f := DecodeField(d, i, BATCH);
      if f.Failed? {
        return Failed(f.error);
      }
      match f.value.0 {
        case Unknown =>
        case Known(num, v) =>
          match (num, v) {
            case (1, Number(n)) => m := m.(nonce := n);
            case (2, Number(n)) => m := m.(timeout := n);
            case (3, Payload(b)) =>
              var tx := UnmarshalTx(ok, b);
              if tx.Failed? {
                return Failed(tx.error);
              }
              m := m.(txs := m.txs + [tx.value]);
            case (4, Payload(b)) => m := m.(contract := b);
            case (5, Number(n)) => m := m.(block := n);
            case _ => return Failed(WrongWireType);
          }
      }
      i := f.value.1;
    }
    return Ok(m);
  }

  method UnmarshalIdSet(d: Bytes) returns (r: Result<seq<nat>>)
    ensures r == ReadIdSet(d)
  {
    var ids: seq<nat>, i := [], 0;
    while i < |d|
      invariant 0 <= i <= |d| && ReadIdSet(d) == Parse(d, i, ID_SET, PutIds, ids)
    {
      var f := DecodeField(d, i, ID_SET);
      if f.Failed? {
        return Failed(f.error);
      }
      match f.value.0 {
        case Unknown =>
        case Known(_, Numbers(ns)) => ids := ids + ns;
        case _ => return Failed(WrongWireType);
      }
      i := f.value.1;
    }
    return Ok(ids);
  }

  // ---------- Round trips ----------

  lemma TokenRoundTrip(ok: Amounts, t: Token)
    requires |TokenBytes(t)| < MAX_INT && ok(t.amount)
    ensures ReadToken(ok, TokenBytes(t)) == Ok(t)
  {
    hide BytesField, MessageField, Parse;
    var d := TokenBytes(t);
    var rest := MessageField(0x12, t.amount);
    assert d[0..] == d;
    var m := NoToken.(contract := t.contract);
    ParseBytes(d, 0, TOKEN, TokenPut(ok), NoToken, 0xa, t.contract, rest, m);
    assert rest == rest + [];
    ParseMessage(d, |d| - |rest|, TOKEN, TokenPut(ok), m, 0x12, t.amount, [], t);
    ParseEnd(d, TOKEN, TokenPut(ok), t);
  }

  lemma ParseEnd<M>(d: Bytes, schema: Schema, put: (M, int, Value) -> Result<M>, m: M)
    ensures Parse(d, |d|, schema, put, m) == Ok(m)
  {
  }

  lemma ParseOptionalToken(ok: Amounts, d: Bytes, i: nat, m: Tx, key: Byte, t: Option<Token>, rest: Bytes, m': Tx)
    requires i <= |d| < MAX_INT && d[i..] == OptionalToken(key, t) + rest && AmountFits(ok, t)
    requires (key == 0x22 && m.token.None? && m' == m.(token := t)) || (key == 0x2a && m.fee.None? && m' == m.(fee := t))
    ensures var j := |d| - |rest|; j >= i && d[j..] == rest && Parse(d, i, TX, TxPut(ok), m) == Parse(d, j, TX, TxPut(ok), m')
  {
    hide Parse;
    match t
    case None =>
      assert m' == m;
      assert d[i..] == rest;
    case Some(token) =>
      var b := TokenBytes(token);
      assert |MessageField(key, b) + rest| <= |d|;
      TokenRoundTrip(ok, token);
      ParseMessage(d, i, TX, TxPut(ok), m, key, b, rest, m');
  }

  predicate AmountFits(ok: Amounts, t: Option<Token>) {
    t.Some? ==> ok(t.value.amount)
  }

  /** The values of a transfer that the source's types can hold. */
  predicate Fits(ok: Amounts, t: Tx) {
    t.id < U64 && AmountFits(ok, t.token) && AmountFits(ok, t.fee)
  }

  lemma TxRoundTrip(ok: Amounts, t: Tx)
    requires Fits(ok, t) && |TxBytes(t)| < MAX_INT
    ensures ReadTx(ok, TxBytes(t)) == Ok(t)
  {
    hide BytesField, UintField, OptionalToken, Parse;
    var d := TxBytes(t);
    var f5 := OptionalToken(0x2a, t.fee);
    var f4 := OptionalToken(0x22, t.token) + f5;
    var f3 := BytesField(0x1a, t.dest) + f4;
    var f2 := BytesField(0x12, t.sender) + f3;
    assert d[0..] == d == UintField(0x8, t.id) + f2;
    var m1 := NoTx.(id := t.id);
    var m2 := m1.(sender := t.sender);
    var m3 := m2.(dest := t.dest);
    var m4 := m3.(token := t.token);
    ParseUint(d, 0, TX, TxPut(ok), NoTx, 0x8, t.id, f2, m1);
    ParseBytes(d, |d| - |f2|, TX, TxPut(ok), m1, 0x12, t.sender, f3, m2);
    ParseBytes(d, |d| - |f3|, TX, TxPut(ok), m2, 0x1a, t.dest, f4, m3);
    ParseOptionalToken(ok, d, |d| - |f4|, m3, 0x22, t.token, f5, m4);
    assert f5 == f5 + [];
    ParseOptionalToken(ok, d, |d| - |f5|, m4, 0x2a, t.fee, [], t);
    ParseEnd(d, TX, TxPut(ok), t);
  }

  lemma ParseTx(ok: Amounts, d: Bytes, i: nat, m: TxBatch, t: Tx, rest: Bytes)
    requires i <= |d| < MAX_INT && d[i..] == MessageField(0x1a, TxBytes(t)) + rest && Fits(ok, t)
    ensures |d| - |rest| >= i && d[|d| - |rest|..] == rest
    ensures Parse(d, i, BATCH, BatchPut(ok), m) == Parse(d, |d| - |rest|, BATCH, BatchPut(ok), m.(txs := m.txs + [t]))
  {
    hide Parse, TxBytes;
    assert |TxBytes(t)| <= |d[i..]|;
    TxRoundTrip(ok, t);
    ParseMessage(d, i, BATCH, BatchPut(ok), m, 0x1a, TxBytes(t), rest, m.(txs := m.txs + [t]));
  }

  lemma {:induction false} ParseTxs(ok: Amounts, d: Bytes, i: nat, m: TxBatch, txs: seq<Tx>, rest: Bytes)
    requires i <= |d| < MAX_INT && d[i..] == TxsBytes(txs) + rest
    requires forall k :: 0 <= k < |txs| ==> Fits(ok, txs[k])
    ensures |d| - |rest| >= i && d[|d| - |rest|..] == rest
    ensures Parse(d, i, BATCH, BatchPut(ok), m) == Parse(d, |d| - |rest|, BATCH, BatchPut(ok), m.(txs := m.txs + txs))
    decreases |txs|
  {
    hide Parse, MessageField, TxBytes;
    if txs == [] {
      assert d[i..] == rest && m.txs + txs == m.txs;
    } else {
      var after := TxsBytes(txs[1..]) + rest;
      assert MessageField(0x1a, TxBytes(txs[0])) + after == d[i..];
      var m' := m.(txs := m.txs + [txs[0]]);
      ParseTx(ok, d, i, m, txs[0], after);
      ParseTxs(ok, d, |d| - |after|, m', txs[1..], rest);
      assert m'.txs + txs[1..] == m.txs + txs;
    }
  }

  lemma BatchRoundTrip(ok: Amounts, b: TxBatch)
    requires b.nonce < U64 && b.timeout < U64 && b.block < U64 && forall k :: 0 <= k < |b.txs| ==> Fits(ok, b.txs[k])
    requires |BatchBytes(b)| < MAX_INT
    ensures ReadBatch(ok, BatchBytes(b)) == Ok(b)
  {
    hide BytesField, UintField, TxsBytes, Parse;
    var d := BatchBytes(b);
    var f5 := UintField(0x28, b.block);
    var f4 := BatchTail(b);
    var f3 := TxsBytes(b.txs) + f4;
    var f2 := UintField(0x10, b.timeout) + f3;
    assert d[0..] == d == UintField(0x8, b.nonce) + f2;
    var m1 := NoBatch.(nonce := b.nonce);
    var m2 := m1.(timeout := b.timeout);
    var m3 := m2.(txs := b.txs);
    var m4 := m3.(contract := b.contract);
    ParseUint(d, 0, BATCH, BatchPut(ok), NoBatch, 0x8, b.nonce, f2, m1);
    ParseUint(d, |d| - |f2|, BATCH, BatchPut(ok), m1, 0x10, b.timeout, f3, m2);
    ParseTxs(ok, d, |d| - |f3|, m2, b.txs, f4);
    assert m2.txs + b.txs == b.txs;
    ParseBytes(d, |d| - |f4|, BATCH, BatchPut(ok), m3, 0x22, b.contract, f5, m4);
    assert f5 == f5 + [];
    ParseUint(d, |d| - |f5|, BATCH, BatchPut(ok), m4, 0x28, b.block, [], b);
    ParseEnd(d, BATCH, BatchPut(ok), b);
  }

  lemma IdSetRoundTrip(ids: seq<nat>)
    requires forall k :: 0 <= k < |ids| ==> ids[k] < U64
    requires |IdSetBytes(ids)| < MAX_INT
    ensures ReadIdSet(IdSetBytes(ids)) == Ok(ids)
  {
    hide Varint, ReadVarint, ReadKey, ReadPayload;
    var d, p := IdSetBytes(ids), Packed(ids);
    if ids != [] {
      var n := |Varint(|p|)|;
      assert d == [0xa] + Varint(|p|) + p;
      ReadKeyOf(d, 0, 0xa);
      assert d[1..1 + n + |p|] == Varint(|p|) + p;
      ReadPayloadOf(d, 1, p);
      ReadPackedOf(d, 1 + n, ids);
      assert ReadField(d, 0, ID_SET) == Ok((Known(1, Numbers(ids)), |d|));
      assert [] + ids == ids;
      hide ReadField, Packed;
      ParseEnd(d, ID_SET, PutIds, ids);
    }
  }
}
