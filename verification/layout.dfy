/** The wire format of the messages, apart from the functions that write and read them: which field numbers with which
    values a message consists of, and which field number ends up where in the value that is read. */
module Layout {
  import opened Types
  import opened Lex
  import opened Wire
  import opened Messages

  // ---------- The fields of a byte string ----------

  /** A field with its number; a number has wire type 0, a payload wire type 2. */
  datatype Entry = Entry(num: int, value: Value)

  /** The fields from position i on whose numbers are in the schema, in their order. */
  function Entries(d: Bytes, i: nat, schema: Schema): Result<seq<Entry>>
    requires i <= |d|
    decreases |d| - i
  {
    if i == |d| then Ok([])
    else
      match ReadField(d, i, schema)
      case Failed(e) => Failed(e)
      case Ok((Unknown, next)) => Entries(d, next, schema)
      case Ok((Known(num, v), next)) => Prepend([Entry(num, v)], Entries(d, next, schema))
  }

  function Prepend(es: seq<Entry>, r: Result<seq<Entry>>): Result<seq<Entry>> {
    match r
    case Ok(rest) => Ok(es + rest)
    case Failed(e) => Failed(e)
  }

  /** A number that is written unless it is zero. */
  function NumberAt(num: int, n: nat): seq<Entry> {
    if n == 0 then [] else [Entry(num, Number(n))]
  }

  /** A string that is written unless it is empty. */
  function StringAt(num: int, b: Bytes): seq<Entry> {
    if b == [] then [] else [Entry(num, Payload(b))]
  }

  function TokenAt(num: int, t: Option<Token>): seq<Entry> {
    match t
    case None => []
    case Some(token) => [Entry(num, Payload(TokenBytes(token)))]
  }

  function TxsAt(num: int, txs: seq<Tx>): seq<Entry> {
    if txs == [] then [] else [Entry(num, Payload(TxBytes(txs[0])))] + TxsAt(num, txs[1..])
  }

  // ---------- What is written ----------

  lemma UintEntry(d: Bytes, i: nat, schema: Schema, key: Byte, v: nat, rest: Bytes, es: seq<Entry>)
    requires i <= |d| && d[i..] == UintField(key, v) + rest && v < U64
    requires 8 <= key < 128 && key % 8 == 0 && key / 8 in schema && schema[key / 8] == Uint
    requires |d| >= |rest| && Entries(d, |d| - |rest|, schema) == Ok(es)
    ensures Entries(d, i, schema) == Ok(NumberAt(key / 8, v) + es)
  {
    hide Entries, ReadField, Varint;
    SuffixOf(d, i, UintField(key, v), rest);
    if v == 0 {
      assert |UintField(key, v)| == 0 && [] + es == es;
    } else {
      ReadUintField(d, i, schema, key, v, rest);
      OneEntry(d, i, schema, key / 8, Number(v), |d| - |rest|, es);
    }
  }

  lemma OneEntry(d: Bytes, i: nat, schema: Schema, num: int, v: Value, j: nat, es: seq<Entry>)
    requires i < |d| && ReadField(d, i, schema) == Ok((Known(num, v), j)) && j <= |d| && Entries(d, j, schema) == Ok(es)
    ensures Entries(d, i, schema) == Ok([Entry(num, v)] + es)
  {
    hide ReadField;
  }

  lemma MessageEntry(d: Bytes, i: nat, schema: Schema, key: Byte, b: Bytes, rest: Bytes, es: seq<Entry>)
    requires i <= |d| < MAX_INT && d[i..] == MessageField(key, b) + rest
    requires 8 <= key < 128 && key % 8 == 2 && key / 8 in schema && schema[key / 8] == Data
    requires |d| >= |rest| && Entries(d, |d| - |rest|, schema) == Ok(es)
    ensures Entries(d, i, schema) == Ok([Entry(key / 8, Payload(b))] + es)
  {
    hide Entries, ReadField, MessageField;
    ReadMessageField(d, i, schema, key, b, rest);
    assert i < |d|;
    OneEntry(d, i, schema, key / 8, Payload(b), |d| - |rest|, es);
  }

  lemma StringEntry(d: Bytes, i: nat, schema: Schema, key: Byte, b: Bytes, rest: Bytes, es: seq<Entry>)
    requires i <= |d| < MAX_INT && d[i..] == BytesField(key, b) + rest
    requires 8 <= key < 128 && key % 8 == 2 && key / 8 in schema && schema[key / 8] == Data
    requires |d| >= |rest| && Entries(d, |d| - |rest|, schema) == Ok(es)
    ensures Entries(d, i, schema) == Ok(StringAt(key / 8, b) + es)
  {
    hide Entries, MessageField;
    if b == [] {
      assert d[i..] == rest && [] + es == es;
    } else {
      MessageEntry(d, i, schema, key, b, rest, es);
    }
  }

  lemma TokenEntry(d: Bytes, i: nat, key: Byte, t: Option<Token>, rest: Bytes, es: seq<Entry>)
    requires i <= |d| < MAX_INT && d[i..] == OptionalToken(key, t) + rest && (key == 0x22 || key == 0x2a)
    requires |d| >= |rest| && Entries(d, |d| - |rest|, TX) == Ok(es)
    ensures Entries(d, i, TX) == Ok(TokenAt(key / 8, t) + es)
  {
    hide Entries, MessageField, TokenBytes;
    if t.None? {
      assert d[i..] == rest && [] + es == es;
    } else {
      MessageEntry(d, i, TX, key, TokenBytes(t.value), rest, es);
    }
  }

  lemma NoEntry(d: Bytes, schema: Schema)
    ensures Entries(d, |d|, schema) == Ok([])
  {
  }

  /** A suffix that starts where b does. */
  lemma Tail(d: Bytes, a: Bytes, b: Bytes, i: nat)
    requires i <= |d| && d[i..] == a + b
    ensures |b| <= |d| && d[|d| - |b|..] == b
  {
    SuffixOf(d, i, a, b);
  }

  /** A token is its contract as field 1 and its amount, even if empty, as field 2. */
  lemma TokenLayout(t: Token)
    requires |TokenBytes(t)| < MAX_INT
    ensures Entries(TokenBytes(t), 0, TOKEN) == Ok(StringAt(1, t.contract) + [Entry(2, Payload(t.amount))])
  {
    hide BytesField, MessageField, Entries;
    var d := TokenBytes(t);
    var rest := MessageField(0x12, t.amount);
    assert d[0..] == d == BytesField(0xa, t.contract) + rest;
    Tail(d, BytesField(0xa, t.contract), rest, 0);
    NoEntry(d, TOKEN);
    assert rest == rest + [];
    MessageEntry(d, |d| - |rest|, TOKEN, 0x12, t.amount, [], []);
    StringEntry(d, 0, TOKEN, 0xa, t.contract, rest, [Entry(2, Payload(t.amount))] + []);
    assert [Entry(2, Payload(t.amount))] + [] == [Entry(2, Payload(t.amount))];
  }

  /** A transfer is its id as field 1, sender 2, destination 3, token 4 and fee 5. */
  lemma TxLayout(t: Tx)
    requires t.id < U64 && |TxBytes(t)| < MAX_INT
    ensures Entries(TxBytes(t), 0, TX)
         == Ok(NumberAt(1, t.id) + (StringAt(2, t.sender) + (StringAt(3, t.dest) + (TokenAt(4, t.token) + TokenAt(5, t.fee)))))
  {
    hide UintField, BytesField, OptionalToken, Entries, NumberAt, StringAt, TokenAt;
    var d := TxBytes(t);
    var f5 := OptionalToken(0x2a, t.fee);
    var f4 := OptionalToken(0x22, t.token) + f5;
    var f3 := BytesField(0x1a, t.dest) + f4;
    var f2 := BytesField(0x12, t.sender) + f3;
    assert d[0..] == d == UintField(0x8, t.id) + f2;
    Tail(d, UintField(0x8, t.id), f2, 0);
    Tail(d, BytesField(0x12, t.sender), f3, |d| - |f2|);
    Tail(d, BytesField(0x1a, t.dest), f4, |d| - |f3|);
    Tail(d, OptionalToken(0x22, t.token), f5, |d| - |f4|);
    assert f5 == f5 + [];
    NoEntry(d, TX);
    var e5 := TokenAt(5, t.fee);
    assert e5 + [] == e5;
    TokenEntry(d, |d| - |f5|, 0x2a, t.fee, [], []);
    TokenEntry(d, |d| - |f4|, 0x22, t.token, f5, e5);
    var e4 := TokenAt(4, t.token) + e5;
    StringEntry(d, |d| - |f3|, TX, 0x1a, t.dest, f4, e4);
    StringEntry(d, |d| - |f2|, TX, 0x12, t.sender, f3, StringAt(3, t.dest) + e4);
    UintEntry(d, 0, TX, 0x8, t.id, f2, StringAt(2, t.sender) + (StringAt(3, t.dest) + e4));
  }

  lemma {:induction false} TxsEntries(d: Bytes, i: nat, txs: seq<Tx>, rest: Bytes, es: seq<Entry>)
    requires i <= |d| < MAX_INT && d[i..] == TxsBytes(txs) + rest
    requires |d| >= |rest| && Entries(d, |d| - |rest|, BATCH) == Ok(es)
    ensures Entries(d, i, BATCH) == Ok(TxsAt(3, txs) + es)
    decreases |txs|
  {
    hide Entries, MessageField, TxBytes;
    if txs == [] {
      assert d[i..] == rest && [] + es == es;
    } else {
      var first, after := MessageField(0x1a, TxBytes(txs[0])), TxsBytes(txs[1..]) + rest;
      assert d[i..] == first + after;
      Tail(d, first, after, i);
      TxsEntries(d, |d| - |after|, txs[1..], rest, es);
      MessageEntry(d, i, BATCH, 0x1a, TxBytes(txs[0]), after, TxsAt(3, txs[1..]) + es);
      assert [Entry(3, Payload(TxBytes(txs[0])))] + (TxsAt(3, txs[1..]) + es) == TxsAt(3, txs) + es;
    }
  }

  /** A batch is its nonce as field 1, timeout 2, each transfer in order 3, contract 4 and block 5. */
  lemma BatchLayout(b: TxBatch)
    requires b.nonce < U64 && b.timeout < U64 && b.block < U64 && |BatchBytes(b)| < MAX_INT
    ensures Entries(BatchBytes(b), 0, BATCH)
         == Ok(NumberAt(1, b.nonce) + (NumberAt(2, b.timeout) + (TxsAt(3, b.txs) + (StringAt(4, b.contract) + NumberAt(5, b.block)))))
  {
    hide UintField, BytesField, TxsBytes, Entries, NumberAt, StringAt, TxsAt;
    var d := BatchBytes(b);
    var f5 := UintField(0x28, b.block);
    var f4 := BatchTail(b);
    var f3 := TxsBytes(b.txs) + f4;
    var f2 := UintField(0x10, b.timeout) + f3;
    assert d[0..] == d == UintField(0x8, b.nonce) + f2;
    Tail(d, UintField(0x8, b.nonce), f2, 0);
    Tail(d, UintField(0x10, b.timeout), f3, |d| - |f2|);
    Tail(d, TxsBytes(b.txs), f4, |d| - |f3|);
    Tail(d, BytesField(0x22, b.contract), f5, |d| - |f4|);
    assert f5 == f5 + [];
    NoEntry(d, BATCH);
    var e5 := NumberAt(5, b.block);
    assert e5 + [] == e5;
    UintEntry(d, |d| - |f5|, BATCH, 0x28, b.block, [], []);
    StringEntry(d, |d| - |f4|, BATCH, 0x22, b.contract, f5, e5);
    var e4 := StringAt(4, b.contract) + e5;
    TxsEntries(d, |d| - |f3|, b.txs, f4, e4);
    UintEntry(d, |d| - |f2|, BATCH, 0x10, b.timeout, f3, TxsAt(3, b.txs) + e4);
    UintEntry(d, 0, BATCH, 0x8, b.nonce, f2, NumberAt(2, b.timeout) + (TxsAt(3, b.txs) + e4));
  }

  /** A set of ids is one field 1 with all of them packed, or nothing. */
  lemma IdSetLayout(ids: seq<nat>)
    requires |IdSetBytes(ids)| < MAX_INT
    ensures Entries(IdSetBytes(ids), 0, map[1 := Data]) == Ok(StringAt(1, Packed(ids)))
  {
    hide Entries, Packed, BytesField;
    var d := IdSetBytes(ids);
    assert d[0..] == d == d + [];
    NoEntry(d, map[1 := Data]);
    StringEntry(d, 0, map[1 := Data], 0xa, Packed(ids), [], []);
    assert StringAt(1, Packed(ids)) + [] == StringAt(1, Packed(ids));
  }

  /** The bytes of a small transfer, token and batch. */
  lemma Examples()
    ensures TxBytes(Tx(1, [0x61], [0x62], None, None)) == [0x08, 0x01, 0x12, 0x01, 0x61, 0x1a, 0x01, 0x62]
    ensures TokenBytes(Token([0x30], [0x35])) == [0x0a, 0x01, 0x30, 0x12, 0x01, 0x35]
    ensures BatchBytes(TxBatch(1, 2, [], [0x30], 300)) == [0x08, 0x01, 0x10, 0x02, 0x22, 0x01, 0x30, 0x28, 0xac, 0x02]
  {
    assert Varint(300) == [0xac] + Varint(2);
  }

  /** The bytes of a set of two ids. */
  lemma IdSetExample()
    ensures IdSetBytes([3, 270]) == [0x0a, 0x03, 0x03, 0x8e, 0x02]
  {
    assert Varint(270) == [0x8e] + Varint(2);
    var ids := [3, 270];
    assert ids[1..] == [270] && [270][1..] == [];
    assert Packed([270]) == Varint(270) + Packed([]);
    assert Packed(ids) == Varint(3) + Packed([270]) == [0x03, 0x8e, 0x02];
  }

  // ---------- What is read ----------

  /** The last number of a field, or what was there before. */
  function LastNumber(es: seq<Entry>, num: int, before: nat): nat {
    if es == [] then before
    else LastNumber(es[1..], num, if es[0].num == num && es[0].value.Number? then es[0].value.n else before)
  }

  /** The last payload of a field, or what was there before. */
  function LastString(es: seq<Entry>, num: int, before: Bytes): Bytes {
    if es == [] then before
    else LastString(es[1..], num, if es[0].num == num && es[0].value.Payload? then es[0].value.b else before)
  }

  /** The token that the payloads of a field make when read one into the other. */
  function MergedToken(ok: Amounts, es: seq<Entry>, num: int, before: Option<Token>): Option<Token> {
    if es == [] then before
    else
      MergedToken(ok, es[1..], num,
        if es[0].num == num && es[0].value.Payload? && MergeToken(ok, before, es[0].value.b).Ok?
        then MergeToken(ok, before, es[0].value.b).value
        else before)
  }

  /** The transfers that the payloads of a field make. */
  function AllTxs(ok: Amounts, es: seq<Entry>, num: int, before: seq<Tx>): seq<Tx> {
    if es == [] then before
    else
      AllTxs(ok, es[1..], num,
        if es[0].num == num && es[0].value.Payload? && ReadTx(ok, es[0].value.b).Ok?
        then before + [ReadTx(ok, es[0].value.b).value]
        else before)
  }

  /** The last one counts. */
  lemma {:induction false} LastOneCounts(es: seq<Entry>, num: int, n: nat, b: Bytes, before: nat, first: Bytes)
    ensures LastNumber(es + [Entry(num, Number(n))], num, before) == n
    ensures LastString(es + [Entry(num, Payload(b))], num, first) == b
  {
    if es == [] {
      assert ([] + [Entry(num, Number(n))])[1..] == [] && ([] + [Entry(num, Payload(b))])[1..] == [];
    } else {
      var e := es[0];
      assert (es + [Entry(num, Number(n))])[1..] == es[1..] + [Entry(num, Number(n))];
      assert (es + [Entry(num, Payload(b))])[1..] == es[1..] + [Entry(num, Payload(b))];
      LastOneCounts(es[1..], num, n, b, if e.num == num && e.value.Number? then e.value.n else before,
                    if e.num == num && e.value.Payload? then e.value.b else first);
    }
  }

  /** One step of a reader, in terms of entries. */
  lemma ParseStep<M>(d: Bytes, i: nat, schema: Schema, put: (M, int, Value) -> Result<M>, m: M)
      returns (known: bool, num: int, v: Value, m': M, next: nat)
    requires i < |d| && Parse(d, i, schema, put, m).Ok?
    ensures i < next <= |d| && Parse(d, i, schema, put, m) == Parse(d, next, schema, put, m')
    ensures known ==> num in schema && put(m, num, v) == Ok(m') && Entries(d, i, schema) == Prepend([Entry(num, v)], Entries(d, next, schema))
    ensures !known ==> m' == m && Entries(d, i, schema) == Entries(d, next, schema)
  {
    var f := ReadField(d, i, schema).value;
    next, m', num, v := f.1, m, 0, Number(0);
    match f.0 {
      case Unknown => known := false;
      case Known(n, w) =>
        known, num, v := true, n, w;
        m' := put(m, n, w).value;
    }
  }

  /** What a reader takes from the entries es: number for number of a token. */
  ghost predicate TokenFrom(es: seq<Entry>, before: Token, t: Token) {
    t.contract == LastString(es, 1, before.contract) && t.amount == LastString(es, 2, before.amount)
  }

  ghost predicate TxFrom(ok: Amounts, es: seq<Entry>, before: Tx, t: Tx) {
    && t.id == LastNumber(es, 1, before.id)
    && t.sender == LastString(es, 2, before.sender)
    && t.dest == LastString(es, 3, before.dest)
    && t.token == MergedToken(ok, es, 4, before.token)
    && t.fee == MergedToken(ok, es, 5, before.fee)
  }

  ghost predicate BatchFrom(ok: Amounts, es: seq<Entry>, before: TxBatch, b: TxBatch) {
    && b.nonce == LastNumber(es, 1, before.nonce)
    && b.timeout == LastNumber(es, 2, before.timeout)
    && b.txs == AllTxs(ok, es, 3, before.txs)
    && b.contract == LastString(es, 4, before.contract)
    && b.block == LastNumber(es, 5, before.block)
  }

  lemma TokenStep(ok: Amounts, es: seq<Entry>, num: int, v: Value, m: Token, m': Token, t: Token)
    requires PutToken(ok, m, num, v) == Ok(m') && TokenFrom(es, m', t)
    ensures TokenFrom([Entry(num, v)] + es, m, t)
  {
    assert ([Entry(num, v)] + es)[1..] == es;
  }

  lemma TxStep(ok: Amounts, es: seq<Entry>, num: int, v: Value, m: Tx, m': Tx, t: Tx)
    requires PutTx(ok, m, num, v) == Ok(m') && TxFrom(ok, es, m', t)
    ensures TxFrom(ok, [Entry(num, v)] + es, m, t)
  {
    assert ([Entry(num, v)] + es)[1..] == es;
    hide MergeToken;
  }

  lemma BatchStep(ok: Amounts, es: seq<Entry>, num: int, v: Value, m: TxBatch, m': TxBatch, b: TxBatch)
    requires PutBatch(ok, m, num, v) == Ok(m') && BatchFrom(ok, es, m', b)
    ensures BatchFrom(ok, [Entry(num, v)] + es, m, b)
  {
    assert ([Entry(num, v)] + es)[1..] == es;
    hide Parse;
  }

  /** Whatever bytes are read as a token: field 1 is the contract, field 2 the amount, the last one of each counts. */
  lemma {:induction false} TokenReads(ok: Amounts, d: Bytes, i: nat, m: Token, t: Token)
    requires i <= |d| && Parse(d, i, TOKEN, TokenPut(ok), m) == Ok(t)
    ensures Entries(d, i, TOKEN).Ok? && TokenFrom(Entries(d, i, TOKEN).value, m, t)
    decreases |d| - i
  {
    if i < |d| {
      var known, num, v, m', next := ParseStep(d, i, TOKEN, TokenPut(ok), m);
      hide Parse, Entries, TokenFrom;
      TokenReads(ok, d, next, m', t);
      if known {
        TokenStep(ok, Entries(d, next, TOKEN).value, num, v, m, m', t);
      }
    }
  }

  /** Whatever bytes are read as a transfer: field 1 is the id, 2 the sender, 3 the destination, 4 the token, 5 the fee. */
  lemma {:induction false} TxReads(ok: Amounts, d: Bytes, i: nat, m: Tx, t: Tx)
    requires i <= |d| && Parse(d, i, TX, TxPut(ok), m) == Ok(t)
    ensures Entries(d, i, TX).Ok? && TxFrom(ok, Entries(d, i, TX).value, m, t)
    decreases |d| - i
  {
    if i < |d| {
      var known, num, v, m', next := ParseStep(d, i, TX, TxPut(ok), m);
      hide Parse, Entries, TxFrom;
      TxReads(ok, d, next, m', t);
      if known {
        TxStep(ok, Entries(d, next, TX).value, num, v, m, m', t);
      }
    }
  }

  /** Whatever bytes are read as a batch: field 1 is the nonce, 2 the timeout, 3 a transfer, 4 the contract, 5 the block. */
  lemma {:induction false} BatchReads(ok: Amounts, d: Bytes, i: nat, m: TxBatch, b: TxBatch)
    requires i <= |d| && Parse(d, i, BATCH, BatchPut(ok), m) == Ok(b)
    ensures Entries(d, i, BATCH).Ok? && BatchFrom(ok, Entries(d, i, BATCH).value, m, b)
    decreases |d| - i
  {
    if i < |d| {
      var known, num, v, m', next := ParseStep(d, i, BATCH, BatchPut(ok), m);
      hide Parse, Entries, BatchFrom;
      BatchReads(ok, d, next, m', b);
      if known {
        BatchStep(ok, Entries(d, next, BATCH).value, num, v, m, m', b);
      }
    }
  }

  /** All numbers of field 1, packed or not. */
  function AllNumbers(es: seq<Entry>): seq<nat> {
    if es == [] then [] else (if es[0].num == 1 && es[0].value.Numbers? then es[0].value.ns else []) + AllNumbers(es[1..])
  }

  lemma NumbersStep(es: seq<Entry>, v: Value, m: seq<nat>, m': seq<nat>, ids: seq<nat>)
    requires PutIds(m, 1, v) == Ok(m') && ids == m' + AllNumbers(es)
    ensures ids == m + AllNumbers([Entry(1, v)] + es)
  {
    assert ([Entry(1, v)] + es)[1..] == es;
    assert m + v.ns + AllNumbers(es) == m + (v.ns + AllNumbers(es));
  }

  /** Whatever bytes are read as a set of ids: its numbers in their order, and no others. */
  lemma {:induction false} IdSetReads(d: Bytes, i: nat, m: seq<nat>, ids: seq<nat>)
    requires i <= |d| && Parse(d, i, ID_SET, PutIds, m) == Ok(ids)
    ensures Entries(d, i, ID_SET).Ok? && ids == m + AllNumbers(Entries(d, i, ID_SET).value)
    decreases |d| - i
  {
    if i < |d| {
      var known, num, v, m', next := ParseStep(d, i, ID_SET, PutIds, m);
      hide Parse, Entries, AllNumbers, PutIds;
      IdSetReads(d, next, m', ids);
      if known {
        NumbersStep(Entries(d, next, ID_SET).value, v, m, m', ids);
      }
    } else {
      assert m + [] == m;
    }
  }
}
