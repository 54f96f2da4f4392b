/**
 The strict codec for one fixed local transaction profile: nine-field legacy envelopes
 (Appendix B of the Ethereum Yellow Paper for the encoding, the Specification section of
 EIP-155 for the signing form). The byte digest is a parameter.
 */
module LegacyCodec {
  import opened Bytes
  import opened Wrappers

  const CHAIN_ID: int := 31337
  const GAS_PRICE: int := 100000000000
  const MAX_GAS: int := 4000000
  const MAX_RAW_BYTES: int := 16384
  const MAX_DATA_BYTES: int := 8192
  /** Lengths below this bound have a length prefix of at most eight bytes. */
  const ENCODABLE: int := 0x1_0000_0000_0000_0000
  const SECP256K1_N: int := 0xffffffff_ffffffff_ffffffff_fffffffe_baaedce6_af48a03b_bfd25e8c_d0364141

  datatype Error =
    | BadHex | Nonce | GasPrice | GasLimit | Value | ChainId | To | R | S | Parity | RawBound
    | RlpTruncated | RlpLength | RlpSingleByte | RlpEnvelope | RlpNested | RlpCanonical | RlpInteger | FieldCount

  datatype Item = Item(payload: bytes, end: nat, isList: bool)

  datatype Fields = Fields(nonce: int, gasLimit: int, to: Option<string>, data: string, r: int, s: int, parity: int)

  datatype Envelope = Envelope(fields: Fields, gasPrice: int, value: int, chainId: int,
                               raw: string, hash: string, signingHash: string)

  // Encoding.

  lemma SmallWidths()
    ensures Pow256(8) == ENCODABLE
    ensures Pow256(32) == 0x1_00000000_00000000_00000000_00000000_00000000_00000000_00000000_00000000
  {
    assert Pow256(2) == 0x1_0000;
    assert Pow256(4) == 0x1_0000_0000;
    assert Pow256(6) == 0x1_0000_0000_0000;
    assert Pow256(8) == ENCODABLE;
    Pow256Sum(8, 8);
    Pow256Sum(16, 16);
  }

  lemma {:induction false} Pow256Sum(a: nat, b: nat)
    ensures Pow256(a + b) == Pow256(a) * Pow256(b)
  {
    if a != 0 {
      Pow256Sum(a - 1, b);
    }
  }

  function Header(base: int, size: nat): (h: bytes)
    requires base in {0x80, 0xc0} && size < ENCODABLE
    ensures 1 <= |h| <= 9
  {
    if size < 56 then [base + size] else
    SmallWidths();
    ToBigWidth(size, 8);
    [base + 55 + |ToBig(size)|] + ToBig(size)
  }

  predicate SelfEncoded(b: bytes) {
    |b| == 1 && b[0] < 0x80
  }

  function RlpString(b: bytes): (r: bytes)
    requires |b| < ENCODABLE
    ensures 1 <= |r| <= |b| + 9
  {
    if SelfEncoded(b) then b else Header(0x80, |b|) + b
  }

  /** The shortest spelling of a length of one or two bytes. */
  lemma LengthSpelled(n: nat)
    requires 0 < n < 0x1_0000
    ensures ToBig(n) == if n < 0x100 then [n] else [n / 0x100, n % 0x100]
  {
    assert ToBig(n / 0x100) == if n < 0x100 then [] else ToBig(n / 0x100 / 0x100) + [n / 0x100 % 0x100];
  }

  /** Where the standard puts the length of a string or list of fewer than 65536 bytes. */
  function StandardHeader(base: int, n: nat): bytes
    requires base in {0x80, 0xc0} && n < 0x1_0000
  {
    if n < 56 then [base + n] else if n < 0x100 then [base + 56, n] else [base + 57, n / 0x100, n % 0x100]
  }

  lemma StandardForm(base: int, n: nat)
    requires base in {0x80, 0xc0} && n < 0x1_0000
    ensures Header(base, n) == StandardHeader(base, n)
  {
    if 56 <= n {
      LengthSpelled(n);
    }
  }

  /** Strings and lists have the form the standard gives them. */
  lemma SpelledAsStandard(b: bytes, items: seq<bytes>)
    requires |b| < 0x1_0000 && Encodable(items) && |RlpStrings(items)| < 0x1_0000
    ensures RlpString(b) == if |b| == 1 && b[0] < 0x80 then b else StandardHeader(0x80, |b|) + b
    ensures RlpList(items) == StandardHeader(0xc0, |RlpStrings(items)|) + RlpStrings(items)
  {
    StandardForm(0x80, |b|);
    StandardForm(0xc0, |RlpStrings(items)|);
    hide Header, StandardHeader;
  }

  predicate Encodable(items: seq<bytes>) {
    (forall i :: 0 <= i < |items| ==> |items[i]| < ENCODABLE) && |RlpStrings(items)| < ENCODABLE
  }

  /** An upper bound on the encoded length of the items, header bytes included. */
  function Size(items: seq<bytes>): (n: nat) {
    if items == [] then 0 else |items[0]| + 9 + Size(items[1..])
  }

  function RlpStrings(items: seq<bytes>): (r: bytes)
    requires forall i :: 0 <= i < |items| ==> |items[i]| < ENCODABLE
    ensures |items| <= |r| <= Size(items)
  {
    if items == [] then [] else RlpString(items[0]) + RlpStrings(items[1..])
  }

  function RlpList(items: seq<bytes>): (r: bytes)
    requires Encodable(items)
    ensures 1 <= |r| <= Size(items) + 9
  {
    Header(0xc0, |RlpStrings(items)|) + RlpStrings(items)
  }

  // Decoding.

  /** Reads one item at start; nested lists are returned as raw payload. */
  function ReadItem(raw: bytes, start: nat, limit: nat): (r: Result<Item, Error>)
    requires limit <= |raw|
    ensures r.Ok? ==> start < r.value.end <= limit
    ensures r != Err(RlpCanonical)
  {
    if start >= limit then Err(RlpTruncated) else
    var prefix := raw[start];
    if prefix < 0x80 then Ok(Item(raw[start..start + 1], start + 1, false)) else
    var isList := prefix >= 0xc0;
    var base := if isList then 0xc0 else 0x80;
    if prefix <= base + 55 then ReadPayload(raw, start + 1, prefix - base, limit, isList) else
    var lengthSize := prefix - base - 55;
    var begin := start + 1 + lengthSize;
    if begin > limit then Err(RlpTruncated) else
    var lengthRaw := raw[start + 1..begin];
    if lengthRaw[0] == 0 || FromBig(lengthRaw) < 56 then Err(RlpLength)
    else ReadPayload(raw, begin, FromBig(lengthRaw), limit, isList)
  }

  function ReadPayload(raw: bytes, begin: nat, size: nat, limit: nat, isList: bool): (r: Result<Item, Error>)
    requires limit <= |raw|
    ensures r.Ok? ==> begin <= r.value.end <= limit
    ensures r != Err(RlpCanonical)
  {
    if begin + size > limit then Err(RlpTruncated) else
    var payload := raw[begin..begin + size];
    if !isList && size == 1 && payload[0] < 0x80 then Err(RlpSingleByte)
    else Ok(Item(payload, begin + size, isList))
  }

  /** The flat items from cursor on, when have of them have been read already. */
  function ReadFields(payload: bytes, cursor: nat, have: nat): (r: Result<seq<bytes>, Error>)
    requires cursor <= |payload|
    ensures r != Err(RlpCanonical)
    decreases |payload| - cursor
  {
    if cursor == |payload| then Ok([]) else
    var _ :- Need(have < 9, FieldCount);
    var item :- ReadItem(payload, cursor, |payload|);
    var _ :- Need(!item.isList, RlpNested);
    var rest :- ReadFields(payload, item.end, have + 1);
    Ok([item.payload] + rest)
  }

  function DecodedInteger(raw: bytes, width: nat): (r: Result<nat, Error>)
    ensures r.Ok? ==> ToBig(r.value) == raw
    ensures r != Err(RlpCanonical)
  {
    if |raw| <= width && (raw == [] || raw[0] != 0) then
      FromBigShortest(raw);
      Ok(FromBig(raw))
    else Err(RlpInteger)
  }

  function HexData(text: string, maximum: int, minimum: int): (r: Result<bytes, Error>)
    ensures r.Ok? ==> Hex(r.value) == text && minimum <= |r.value| <= maximum
    ensures r != Err(RlpCanonical)
  {
    if !(2 + 2 * minimum <= |text| <= 2 + 2 * maximum) then Err(BadHex) else
    match ParseHex(text)
    case None => Err(BadHex)
    case Some(b) => Ok(b)
  }

  function CoreCheck(f: Fields, gasPrice: int, value: int, chainId: int): (r: Result<(), Error>)
    ensures r != Err(RlpCanonical)
  {
    var _ :- Need(0 <= f.nonce < 0x1_0000_0000_0000_0000, Nonce);
    var _ :- Need(gasPrice == GAS_PRICE, GasPrice);
    var _ :- Need(1 <= f.gasLimit <= MAX_GAS, GasLimit);
    var _ :- Need(value == 0, Value);
    Need(chainId == CHAIN_ID, ChainId)
  }

  function Destination(to: Option<string>): (r: Result<bytes, Error>)
    ensures r != Err(RlpCanonical)
    ensures r.Ok? ==> |r.value| in {0, 20} && to == if r.value == [] then None else Some(Hex(r.value))
  {
    if to.None? then Ok([]) else HexData(to.value, 20, 20)
  }

  function CoreItems(nonce: nat, gasPrice: nat, gasLimit: nat, destination: bytes, value: nat, payload: bytes): (r: seq<bytes>)
    ensures |r| == 6
  {
    [ToBig(nonce), ToBig(gasPrice), ToBig(gasLimit), destination, ToBig(value), payload]
  }

  function Core(f: Fields, gasPrice: int, value: int, chainId: int): (r: Result<seq<bytes>, Error>)
    ensures r != Err(RlpCanonical)
    ensures r.Ok? ==> |r.value| == 6
  {
    var _ :- CoreCheck(f, gasPrice, value, chainId);
    var destination :- Destination(f.to);
    var payload :- HexData(f.data, MAX_DATA_BYTES, 0);
    Ok(CoreItems(f.nonce, gasPrice, f.gasLimit, destination, value, payload))
  }

  /** Six admitted core items and three small integers always fit an envelope. */
  lemma CoreFits(f: Fields, tail: seq<bytes>)
    requires Core(f, GAS_PRICE, 0, CHAIN_ID).Ok? && |tail| == 3
    requires forall i :: 0 <= i < 3 ==> |tail[i]| <= 32
    ensures Encodable(Core(f, GAS_PRICE, 0, CHAIN_ID).value + tail)
    ensures |RlpList(Core(f, GAS_PRICE, 0, CHAIN_ID).value + tail)| <= MAX_RAW_BYTES
  {
    SmallWidths();
    hide Pow256, RlpList, RlpStrings, HexData, Encodable, ParseHex;
    ToBigWidth(f.nonce, 8);
    ToBigWidth(GAS_PRICE, 8);
    ToBigWidth(f.gasLimit, 8);
    var core := Core(f, GAS_PRICE, 0, CHAIN_ID).value;
    assert |core[3]| <= 20 && |core[5]| <= MAX_DATA_BYTES && core[4] == [];
    NineFit(core, tail);
  }

  lemma NineFit(core: seq<bytes>, tail: seq<bytes>)
    requires |core| == 6 && |tail| == 3
    requires forall i :: 0 <= i < 3 ==> |tail[i]| <= 32
    requires forall i :: 0 <= i < 5 ==> |core[i]| <= 20
    requires |core[5]| <= MAX_DATA_BYTES
    ensures Encodable(core + tail) && |RlpList(core + tail)| <= MAX_RAW_BYTES
  {
    var items := core + tail;
    SizeOfNine(items);
    forall i | 0 <= i < 9 ensures |items[i]| <= MAX_DATA_BYTES {
      assert items[i] == if i < 6 then core[i] else tail[i - 6];
    }
  }

  lemma SizeOfNine(items: seq<bytes>)
    requires |items| == 9
    ensures Size(items) == 81 + |items[0]| + |items[1]| + |items[2]| + |items[3]| + |items[4]|
                           + |items[5]| + |items[6]| + |items[7]| + |items[8]|
  {
    SizeFrom(items, 0);
    SizeFrom(items, 1);
    SizeFrom(items, 2);
    SizeFrom(items, 3);
    SizeFrom(items, 4);
    SizeFrom(items, 5);
    SizeFrom(items, 6);
    SizeFrom(items, 7);
    SizeFrom(items, 8);
    assert items[0..] == items;
  }

  lemma SizeFrom(items: seq<bytes>, k: nat)
    requires k < |items|
    ensures Size(items[k..]) == |items[k]| + 9 + Size(items[k + 1..])
  {
    assert items[k..][1..] == items[k + 1..];
  }

  /** The chain identifier and the two empty items that stand in for a signature. */
  function SigningTail(): (r: seq<bytes>)
    ensures |r| == 3 && forall i :: 0 <= i < 3 ==> |r[i]| <= 32
  {
    SmallWidths();
    ToBigWidth(CHAIN_ID, 8);
    [ToBig(CHAIN_ID), [], []]
  }

  function SigningPayload(f: Fields, gasPrice: int, value: int): (r: Result<bytes, Error>)
    ensures r != Err(RlpCanonical)
    ensures r.Ok? <==> Core(f, gasPrice, value, CHAIN_ID).Ok?
  {
    var core :- Core(f, gasPrice, value, CHAIN_ID);
    CoreFits(f, SigningTail());
    Ok(RlpList(core + SigningTail()))
  }

  /** What a canonical item looks like in the input. */
  function Encoded(item: Item): (r: bytes)
    requires |item.payload| < ENCODABLE
  {
    if item.isList then Header(0xc0, |item.payload|) + item.payload else RlpString(item.payload)
  }

  lemma LongHeader(base: int, size: nat, lengthRaw: bytes)
    requires base in {0x80, 0xc0} && 1 <= |lengthRaw| <= 8 && ToBig(size) == lengthRaw && 56 <= size < ENCODABLE
    ensures Header(base, size) == [base + 55 + |lengthRaw|] + lengthRaw
  {
  }

  lemma ShortItemCanonical(raw: bytes, start: nat, limit: nat, base: int)
    requires start < limit <= |raw| && base == (if raw[start] >= 0xc0 then 0xc0 else 0x80) <= raw[start] <= base + 55
    requires ReadItem(raw, start, limit).Ok?
    ensures var item := ReadItem(raw, start, limit).value;
      && item.isList == (base == 0xc0) && |item.payload| < ENCODABLE
      && (!item.isList ==> !SelfEncoded(item.payload))
      && raw[start..item.end] == Header(base, |item.payload|) + item.payload
  {
    var item := ReadItem(raw, start, limit).value;
    assert raw[start..item.end] == [raw[start]] + item.payload;
  }

  lemma LongItemCanonical(raw: bytes, start: nat, limit: nat, base: int)
    requires start < limit <= |raw| && base == (if raw[start] >= 0xc0 then 0xc0 else 0x80) && base + 55 < raw[start]
    requires ReadItem(raw, start, limit).Ok?
    ensures var item := ReadItem(raw, start, limit).value;
      && item.isList == (base == 0xc0) && 56 <= |item.payload| < ENCODABLE
      && raw[start..item.end] == Header(base, |item.payload|) + item.payload
  {
    hide Header, FromBig, ToBig, Pow256, ReadItem;
    LongItemParts(raw, start, limit, base);
    var item, begin := ReadItem(raw, start, limit).value, start + 1 + (raw[start] - base - 55);
    var lengthRaw := raw[start + 1..begin];
    SmallWidths();
    FromBigBound(lengthRaw);
    Pow256Monotone(|lengthRaw|, 8);
    FromBigShortest(lengthRaw);
    LongHeader(base, |item.payload|, lengthRaw);
    assert raw[start..item.end] == ([raw[start]] + lengthRaw) + item.payload;
  }

  /** What the reader has checked of an item with a long header. */
  lemma LongItemParts(raw: bytes, start: nat, limit: nat, base: int)
    requires start < limit <= |raw| && base == (if raw[start] >= 0xc0 then 0xc0 else 0x80) && base + 55 < raw[start]
    requires ReadItem(raw, start, limit).Ok?
    ensures var item, begin := ReadItem(raw, start, limit).value, start + 1 + (raw[start] - base - 55);
      && begin <= limit && raw[start + 1] != 0 && raw[start] - base - 55 <= 64
      && 56 <= FromBig(raw[start + 1..begin]) == |item.payload| && item.end == begin + |item.payload| <= |raw|
      && item.payload == raw[begin..item.end] && item.isList == (base == 0xc0)
  {
    hide FromBig;
  }

  /** Whatever one read accepts is exactly the canonical encoding of what it returns. */
  lemma ReadItemCanonical(raw: bytes, start: nat, limit: nat)
    requires limit <= |raw| && ReadItem(raw, start, limit).Ok?
    ensures var item := ReadItem(raw, start, limit).value;
      |item.payload| < ENCODABLE && raw[start..item.end] == Encoded(item)
  {
    if raw[start] >= 0x80 {
      var base := if raw[start] >= 0xc0 then 0xc0 else 0x80;
      if raw[start] > base + 55 {
        LongItemCanonical(raw, start, limit, base);
      } else {
        ShortItemCanonical(raw, start, limit, base);
      }
    }
  }

  lemma ReadPayloadBack(raw: bytes, begin: nat, payload: bytes, limit: nat, isList: bool)
    requires begin + |payload| <= limit <= |raw| && raw[begin..begin + |payload|] == payload
    requires isList || !SelfEncoded(payload)
    ensures ReadPayload(raw, begin, |payload|, limit, isList) == Ok(Item(payload, begin + |payload|, isList))
  {
  }

  /** The slices of the input that a header and a payload occupy. */
  lemma HeaderSlices(raw: bytes, start: nat, header: bytes, payload: bytes)
    requires header != [] && start + |header| + |payload| <= |raw|
    requires raw[start..start + |header| + |payload|] == header + payload
    ensures raw[start] == header[0] && raw[start + 1..start + |header|] == header[1..]
    ensures raw[start + |header|..start + |header| + |payload|] == payload
  {
    var whole, n := raw[start..start + |header| + |payload|], |header|;
    assert whole[..n] == header && whole[n..] == payload;
    assert raw[start..start + n] == whole[..n];
    assert raw[start + 1..start + n] == raw[start..start + n][1..];
    assert raw[start + n..start + n + |payload|] == whole[n..];
  }

  lemma HeaderParts(base: int, size: nat)
    requires base in {0x80, 0xc0} && size < ENCODABLE
    ensures var h := Header(base, size);
      if size < 56 then h == [base + size]
      else 2 <= |h| <= 9 && h[0] == base + 54 + |h| && h[1] != 0 && FromBig(h[1..]) == size
  {
    if size >= 56 {
      SmallWidths();
      ToBigValue(size);
      ToBigWidth(size, 8);
      assert Header(base, size)[1..] == ToBig(size);
    }
  }

  lemma ReadHeaderBack(raw: bytes, start: nat, payload: bytes, limit: nat, isList: bool, header: bytes)
    requires |payload| < ENCODABLE && (isList || !SelfEncoded(payload))
    requires header == Header(if isList then 0xc0 else 0x80, |payload|)
    requires start + |header| + |payload| <= limit <= |raw|
    requires raw[start..start + |header| + |payload|] == header + payload
    ensures ReadItem(raw, start, limit) == Ok(Item(payload, start + |header| + |payload|, isList))
  {
    HeaderSlices(raw, start, header, payload);
    HeaderParts(if isList then 0xc0 else 0x80, |payload|);
    hide Header, FromBig, ReadPayload, Pow256, ToBig, SelfEncoded;
    if |payload| < 56 {
      assert raw[start] == header[0];
    }
    ReadPayloadBack(raw, start + |header|, payload, limit, isList);
  }

  /** And the canonical encoding of an item is read back as that item. */
  lemma ReadItemBack(raw: bytes, start: nat, item: Item, limit: nat)
    requires |item.payload| < ENCODABLE && item.end == start + |Encoded(item)| <= limit <= |raw|
    requires raw[start..item.end] == Encoded(item)
    ensures ReadItem(raw, start, limit) == Ok(item)
  {
    if !item.isList && SelfEncoded(item.payload) {
      assert raw[start] == raw[start..item.end][0];
    } else {
      ReadHeaderBack(raw, start, item.payload, limit, item.isList,
        Header(if item.isList then 0xc0 else 0x80, |item.payload|));
    }
  }

  lemma FieldsPrepend(payload: bytes, cursor: nat, item: Item, rest: seq<bytes>)
    requires cursor <= item.end <= |payload| && !item.isList && |item.payload| < ENCODABLE
    requires forall i :: 0 <= i < |rest| ==> |rest[i]| < ENCODABLE
    requires payload[cursor..item.end] == Encoded(item) && payload[item.end..] == RlpStrings(rest)
    ensures payload[cursor..] == RlpStrings([item.payload] + rest)
  {
    hide Header, RlpString;
    assert ([item.payload] + rest)[1..] == rest;
    assert payload[cursor..] == payload[cursor..item.end] + payload[item.end..];
  }

  lemma {:induction false} ReadFieldsCanonical(payload: bytes, cursor: nat, have: nat)
    requires cursor <= |payload| && ReadFields(payload, cursor, have).Ok?
    ensures var values := ReadFields(payload, cursor, have).value;
      && (have <= 9 ==> have + |values| <= 9)
      && (forall i :: 0 <= i < |values| ==> |values[i]| < ENCODABLE)
      && payload[cursor..] == RlpStrings(values)
    decreases |payload| - cursor
  {
    if cursor < |payload| {
      var item := ReadItem(payload, cursor, |payload|).value;
      ReadItemCanonical(payload, cursor, |payload|);
      ReadFieldsCanonical(payload, item.end, have + 1);
      hide ReadItem, Encoded, Header;
      FieldsPrepend(payload, cursor, item, ReadFields(payload, item.end, have + 1).value);
    }
  }

  lemma {:induction false} ReadFieldsBack(payload: bytes, cursor: nat, have: nat, values: seq<bytes>)
    requires cursor <= |payload| && have + |values| <= 9
    requires forall i :: 0 <= i < |values| ==> |values[i]| < ENCODABLE
    requires payload[cursor..] == RlpStrings(values)
    ensures ReadFields(payload, cursor, have) == Ok(values)
    decreases |values|
  {
    if values != [] {
      var first := RlpString(values[0]);
      var item := Item(values[0], cursor + |first|, false);
      assert payload[cursor..item.end] == payload[cursor..][..|first|] == first;
      assert payload[item.end..] == payload[cursor..][|first|..] == RlpStrings(values[1..]);
      ReadItemBack(payload, cursor, item, |payload|);
      hide ReadItem, RlpString;
      ReadFieldsBack(payload, item.end, have + 1, values[1..]);
      assert [values[0]] + values[1..] == values;
    }
  }

  /** The nine values of an envelope, before they are interpreted. */
  function Values(raw: bytes): (r: Result<seq<bytes>, Error>)
    ensures r.Ok? ==> |r.value| == 9
    ensures r != Err(RlpCanonical)
  {
    var item :- ReadItem(raw, 0, |raw|);
    var _ :- Need(item.isList && item.end == |raw|, RlpEnvelope);
    var values :- ReadFields(item.payload, 0, 0);
    var _ :- Need(|values| == 9, FieldCount);
    Ok(values)
  }

  /**
   Reading alone already forces the canonical form: whatever nine values come out, the
   encoder turns them back into the very bytes that were read.
   */
  lemma ValuesCanonical(raw: bytes)
    requires Values(raw).Ok?
    ensures Encodable(Values(raw).value) && RlpList(Values(raw).value) == raw
  {
    ReadItemCanonical(raw, 0, |raw|);
    var item := ReadItem(raw, 0, |raw|).value;
    ReadFieldsCanonical(item.payload, 0, 0);
    assert item.payload[0..] == item.payload;
    assert raw[0..item.end] == raw;
  }

  lemma ValuesBack(values: seq<bytes>)
    requires |values| == 9 && Encodable(values)
    ensures Values(RlpList(values)) == Ok(values)
  {
    var payload, raw := RlpStrings(values), RlpList(values);
    var item := Item(payload, |raw|, true);
    assert raw[0..item.end] == raw == Encoded(item);
    ReadItemBack(raw, 0, item, |raw|);
    assert payload[0..] == payload;
    ReadFieldsBack(payload, 0, 0, values);
  }

  /** The numbers and texts that nine values spell, within the bounds of the profile. */
  function Decode(values: seq<bytes>): (r: Result<(Fields, int, int), Error>)
    requires |values| == 9
    ensures r != Err(RlpCanonical)
  {
    var nonce :- DecodedInteger(values[0], 8);
    var gasPrice :- DecodedInteger(values[1], 32);
    var gasLimit :- DecodedInteger(values[2], 32);
    var _ :- Need(|values[3]| in {0, 20}, To);
    var to := if values[3] == [] then None else Some(Hex(values[3]));
    var value :- DecodedInteger(values[4], 32);
    var v :- DecodedInteger(values[6], 32);
    var r :- DecodedInteger(values[7], 32);
    var s :- DecodedInteger(values[8], 32);
    var parity := v - (2 * CHAIN_ID + 35);
    var _ :- Need(0 <= parity <= 1, ChainId);
    var _ :- Need(1 <= r < SECP256K1_N, R);
    var _ :- Need(1 <= s <= SECP256K1_N / 2, S);
    Ok((Fields(nonce, gasLimit, to, Hex(values[5]), r, s, parity), gasPrice, value))
  }

  function Interpret(values: seq<bytes>, raw: bytes, digest: bytes -> bytes): (r: Result<Envelope, Error>)
    requires |values| == 9
    ensures r != Err(RlpCanonical)
  {
    var (fields, gasPrice, value) :- Decode(values);
    var unsigned :- SigningPayload(fields, gasPrice, value);
    Ok(Envelope(fields, gasPrice, value, CHAIN_ID, Hex(raw), Hex(digest(raw)), Hex(digest(unsigned))))
  }

  function Inspect(text: string, digest: bytes -> bytes): (r: Result<Envelope, Error>) {
    var raw :- HexData(text, MAX_RAW_BYTES, 1);
    var values :- Values(raw);
    ValuesCanonical(raw);
    var _ :- Need(RlpList(values) == raw, RlpCanonical);
    Interpret(values, raw, digest)
  }

  function SignatureTail(f: Fields): (tail: seq<bytes>)
    requires 0 <= f.parity <= 1 && 1 <= f.r < SECP256K1_N && 1 <= f.s < SECP256K1_N
    ensures |tail| == 3 && forall i :: 0 <= i < 3 ==> |tail[i]| <= 32
  {
    SmallWidths();
    ToBigWidth(2 * CHAIN_ID + 35 + f.parity, 8);
    ToBigWidth(f.r, 32);
    ToBigWidth(f.s, 32);
    [ToBig(2 * CHAIN_ID + 35 + f.parity), ToBig(f.r), ToBig(f.s)]
  }

  function EncodeSigned(f: Fields, digest: bytes -> bytes): (r: Result<Envelope, Error>) {
    var core :- Core(f, GAS_PRICE, 0, CHAIN_ID);
    var _ :- Need(1 <= f.r < SECP256K1_N, R);
    var _ :- Need(1 <= f.s <= SECP256K1_N / 2, S);
    var _ :- Need(0 <= f.parity <= 1, Parity);
    CoreFits(f, SignatureTail(f));
    var raw := RlpList(core + SignatureTail(f));
    var _ :- Need(|raw| <= MAX_RAW_BYTES, RawBound);
    Inspect(Hex(raw), digest)
  }

  /** The fields a caller may pass: the ranges of the profile and well-formed text. */
  predicate Admissible(f: Fields) {
    && 0 <= f.nonce < 0x1_0000_0000_0000_0000 && 1 <= f.gasLimit <= MAX_GAS
    && (f.to.Some? ==> HexData(f.to.value, 20, 20).Ok?) && HexData(f.data, MAX_DATA_BYTES, 0).Ok?
    && 1 <= f.r < SECP256K1_N && 1 <= f.s <= SECP256K1_N / 2 && 0 <= f.parity <= 1
  }

  lemma DecodedBack(n: nat, width: nat)
    requires n < Pow256(width)
    ensures DecodedInteger(ToBig(n), width) == Ok(n)
  {
    ToBigWidth(n, width);
    ToBigValue(n);
  }

  lemma HexDataBack(b: bytes, maximum: int, minimum: int)
    requires minimum <= |b| <= maximum
    ensures HexData(Hex(b), maximum, minimum) == Ok(b)
  {
    HexRoundTrip(b);
  }

  lemma AdmissibleCore(f: Fields)
    ensures Admissible(f) <==>
      Core(f, GAS_PRICE, 0, CHAIN_ID).Ok? && 1 <= f.r < SECP256K1_N && 1 <= f.s <= SECP256K1_N / 2 && 0 <= f.parity <= 1
    ensures Core(f, GAS_PRICE, 0, CHAIN_ID).Ok? ==>
      Core(f, GAS_PRICE, 0, CHAIN_ID).value == CoreItems(f.nonce, GAS_PRICE, f.gasLimit,
        Destination(f.to).value, 0, HexData(f.data, MAX_DATA_BYTES, 0).value)
  {
  }

  /** Nine values whose numbers read as those of f, and whose texts are f's, decode to f. */
  lemma DecodesTo(f: Fields, values: seq<bytes>)
    requires |values| == 9 && 0 <= f.nonce && 0 <= f.gasLimit && 0 <= f.parity <= 1
    requires 1 <= f.r < SECP256K1_N && 1 <= f.s <= SECP256K1_N / 2
    requires DecodedInteger(values[0], 8) == Ok(f.nonce) && DecodedInteger(values[1], 32) == Ok(GAS_PRICE)
    requires DecodedInteger(values[2], 32) == Ok(f.gasLimit) && DecodedInteger(values[4], 32) == Ok(0)
    requires DecodedInteger(values[6], 32) == Ok(2 * CHAIN_ID + 35 + f.parity)
    requires DecodedInteger(values[7], 32) == Ok(f.r) && DecodedInteger(values[8], 32) == Ok(f.s)
    requires |values[3]| in {0, 20} && f.to == (if values[3] == [] then None else Some(Hex(values[3])))
    requires f.data == Hex(values[5])
    ensures Decode(values) == Ok((f, GAS_PRICE, 0))
  {
  }

  lemma NumbersBack(f: Fields)
    requires 0 <= f.nonce < ENCODABLE && 0 <= f.gasLimit <= MAX_GAS && 0 <= f.parity <= 1
    requires 1 <= f.r < SECP256K1_N && 1 <= f.s < SECP256K1_N
    ensures DecodedInteger(ToBig(f.nonce), 8) == Ok(f.nonce) && DecodedInteger(ToBig(GAS_PRICE), 32) == Ok(GAS_PRICE)
    ensures DecodedInteger(ToBig(f.gasLimit), 32) == Ok(f.gasLimit) && DecodedInteger(ToBig(0), 32) == Ok(0)
    ensures DecodedInteger(ToBig(2 * CHAIN_ID + 35 + f.parity), 32) == Ok(2 * CHAIN_ID + 35 + f.parity)
    ensures DecodedInteger(ToBig(f.r), 32) == Ok(f.r) && DecodedInteger(ToBig(f.s), 32) == Ok(f.s)
  {
    SmallWidths();
    DecodedBack(f.nonce, 8);
    DecodedBack(GAS_PRICE, 32);
    DecodedBack(f.gasLimit, 32);
    DecodedBack(0, 32);
    DecodedBack(2 * CHAIN_ID + 35 + f.parity, 32);
    DecodedBack(f.r, 32);
    DecodedBack(f.s, 32);
  }

  lemma DecodeBack(f: Fields, destination: bytes, payload: bytes)
    requires Admissible(f) && Destination(f.to) == Ok(destination) && HexData(f.data, MAX_DATA_BYTES, 0) == Ok(payload)
    ensures Decode(CoreItems(f.nonce, GAS_PRICE, f.gasLimit, destination, 0, payload) + SignatureTail(f))
         == Ok((f, GAS_PRICE, 0))
  {
    NumbersBack(f);
    var core, tail := CoreItems(f.nonce, GAS_PRICE, f.gasLimit, destination, 0, payload), SignatureTail(f);
    NineValues(core, tail);
    DecodesTo(f, core + tail);
  }

  lemma NineValues(core: seq<bytes>, tail: seq<bytes>)
    requires |core| == 6 && |tail| == 3
    ensures var v := core + tail;
      && v[0] == core[0] && v[1] == core[1] && v[2] == core[2] && v[3] == core[3] && v[4] == core[4]
      && v[5] == core[5] && v[6] == tail[0] && v[7] == tail[1] && v[8] == tail[2]
  {
  }

  lemma InterpretBack(f: Fields, raw: bytes, digest: bytes -> bytes)
    requires Admissible(f)
    ensures Core(f, GAS_PRICE, 0, CHAIN_ID).Ok?
    ensures var values := Core(f, GAS_PRICE, 0, CHAIN_ID).value + SignatureTail(f);
      && Interpret(values, raw, digest).Ok?
      && Interpret(values, raw, digest).value.fields == f
      && Interpret(values, raw, digest).value.raw == Hex(raw)
  {
    AdmissibleCore(f);
    DecodeBack(f, Destination(f.to).value, HexData(f.data, MAX_DATA_BYTES, 0).value);
  }

  /**
   Printing then parsing: admissible fields, and only those, are encoded; the size bound
   on the bytes never decides; the envelope's text is read back as the same envelope.
   */
  lemma EncodeThenInspect(f: Fields, digest: bytes -> bytes)
    ensures EncodeSigned(f, digest).Ok? <==> Admissible(f)
    ensures EncodeSigned(f, digest).Ok? ==>
      var e := EncodeSigned(f, digest).value;
      e.fields == f && Inspect(e.raw, digest) == Ok(e)
  {
    AdmissibleCore(f);
    hide Interpret, Values, RlpList, Encodable, CoreItems, CoreCheck, Destination, SignatureTail, ParseHex, Hex;
    if Admissible(f) {
      var tail := SignatureTail(f);
      var values := Core(f, GAS_PRICE, 0, CHAIN_ID).value + tail;
      CoreFits(f, tail);
      var raw := RlpList(values);
      HexDataBack(raw, MAX_RAW_BYTES, 1);
      ValuesBack(values);
      InterpretBack(f, raw, digest);
    }
  }

  lemma DecodeSpelling(values: seq<bytes>)
    requires |values| == 9 && Decode(values).Ok?
    ensures var (f, gasPrice, value) := Decode(values).value;
      && 0 <= f.nonce && 0 <= f.gasLimit && 0 <= gasPrice && 0 <= value && 0 <= f.parity <= 1
      && 1 <= f.r < SECP256K1_N && 1 <= f.s <= SECP256K1_N / 2
      && |values[3]| in {0, 20} && f.to == (if values[3] == [] then None else Some(Hex(values[3])))
      && f.data == Hex(values[5])
      && values[0] == ToBig(f.nonce) && values[1] == ToBig(gasPrice) && values[2] == ToBig(f.gasLimit)
      && values[4] == ToBig(value) && values[6] == ToBig(2 * CHAIN_ID + 35 + f.parity)
      && values[7] == ToBig(f.r) && values[8] == ToBig(f.s)
  {
  }

  lemma NineItems(values: seq<bytes>)
    requires |values| == 9
    ensures values == [values[0], values[1], values[2], values[3], values[4], values[5]]
                      + [values[6], values[7], values[8]]
  {
  }

  lemma NineDetermine(values: seq<bytes>, f: Fields, gasPrice: nat, value: nat)
    requires |values| == 9 && 0 <= f.nonce && 0 <= f.gasLimit && 0 <= f.parity <= 1
    requires 1 <= f.r < SECP256K1_N && 1 <= f.s <= SECP256K1_N / 2
    requires |values[3]| in {0, 20} && f.to == (if values[3] == [] then None else Some(Hex(values[3])))
    requires f.data == Hex(values[5])
    requires values[0] == ToBig(f.nonce) && values[1] == ToBig(gasPrice) && values[2] == ToBig(f.gasLimit)
    requires values[4] == ToBig(value) && values[6] == ToBig(2 * CHAIN_ID + 35 + f.parity)
    requires values[7] == ToBig(f.r) && values[8] == ToBig(f.s)
    ensures Destination(f.to) == Ok(values[3]) && ParseHex(f.data) == Some(values[5])
    ensures values == CoreItems(f.nonce, gasPrice, f.gasLimit, values[3], value, values[5]) + SignatureTail(f)
  {
    hide ToBig, ParseHex, Hex;
    HexRoundTrip(values[5]);
    if values[3] != [] {
      HexDataBack(values[3], 20, 20);
    }
    NineItems(values);
  }

  /** Nine decoded values are spelled by the fields they decode to, in one way only. */
  lemma DecodeDetermines(values: seq<bytes>)
    requires |values| == 9 && Decode(values).Ok?
    ensures var (f, gasPrice, value) := Decode(values).value;
      && 0 <= f.nonce && 0 <= f.gasLimit && 0 <= gasPrice && 0 <= value && 0 <= f.parity <= 1
      && 1 <= f.r < SECP256K1_N && 1 <= f.s <= SECP256K1_N / 2
      && Destination(f.to) == Ok(values[3]) && ParseHex(f.data) == Some(values[5])
      && values == CoreItems(f.nonce, gasPrice, f.gasLimit, values[3], value, values[5]) + SignatureTail(f)
  {
    DecodeSpelling(values);
    hide Decode, ToBig, Hex, ParseHex;
    var (f, gasPrice, value) := Decode(values).value;
    NineDetermine(values, f, gasPrice, value);
  }

  lemma InterpretDetermines(values: seq<bytes>, raw: bytes, digest: bytes -> bytes)
    requires |values| == 9 && Interpret(values, raw, digest).Ok?
    ensures var e := Interpret(values, raw, digest).value;
      && Admissible(e.fields) && e.gasPrice == GAS_PRICE && e.value == 0 && e.raw == Hex(raw)
      && Core(e.fields, GAS_PRICE, 0, CHAIN_ID).Ok?
      && values == Core(e.fields, GAS_PRICE, 0, CHAIN_ID).value + SignatureTail(e.fields)
  {
    DecodeDetermines(values);
    AdmissibleCore(Interpret(values, raw, digest).value.fields);
  }

  /** What the encoder hands to the reader, once the fields are admissible. */
  lemma EncodesTo(f: Fields, digest: bytes -> bytes)
    requires Admissible(f)
    ensures Core(f, GAS_PRICE, 0, CHAIN_ID).Ok?
    ensures var items := Core(f, GAS_PRICE, 0, CHAIN_ID).value + SignatureTail(f);
      Encodable(items) && EncodeSigned(f, digest) == Inspect(Hex(RlpList(items)), digest)
  {
    AdmissibleCore(f);
    CoreFits(f, SignatureTail(f));
  }

  /** Parsing then printing: encoding the fields of any accepted text gives that text back. */
  lemma InspectThenEncode(text: string, digest: bytes -> bytes)
    requires Inspect(text, digest).Ok?
    ensures var e := Inspect(text, digest).value; e.raw == text && EncodeSigned(e.fields, digest) == Ok(e)
  {
    var e, raw := Inspect(text, digest).value, HexData(text, MAX_RAW_BYTES, 1).value;
    ValuesCanonical(raw);
    InterpretDetermines(Values(raw).value, raw, digest);
    EncodesTo(e.fields, digest);
  }

  /** No two accepted texts carry the same fields. */
  lemma InspectInjective(text1: string, text2: string, digest: bytes -> bytes)
    requires Inspect(text1, digest).Ok? && Inspect(text2, digest).Ok?
    requires Inspect(text1, digest).value.fields == Inspect(text2, digest).value.fields
    ensures text1 == text2
  {
    InspectThenEncode(text1, digest);
    InspectThenEncode(text2, digest);
  }

  /** The hashes and the fields of a record, in terms of nine values; unsigned is what a signer signs. */
  ghost predicate RecordOf(e: Envelope, b: bytes, v: seq<bytes>, unsigned: bytes, digest: bytes -> bytes) {
    && |v| == 9 && e.raw == Hex(b) && e.hash == Hex(digest(b)) && e.signingHash == Hex(digest(unsigned))
    && e.fields.nonce == FromBig(v[0]) && e.gasPrice == FromBig(v[1]) && e.fields.gasLimit == FromBig(v[2])
    && e.fields.to == (if v[3] == [] then None else Some(Hex(v[3])))
    && e.value == FromBig(v[4]) && e.fields.data == Hex(v[5]) && e.chainId == 31337
    && 2 * 31337 + 35 + e.fields.parity == FromBig(v[6]) && e.fields.r == FromBig(v[7]) && e.fields.s == FromBig(v[8])
  }

  /** The bytes to be signed: the first six values, the chain identifier 31337 in two bytes, and two empty strings. */
  lemma SignedBytes(values: seq<bytes>, f: Fields, gasPrice: nat, value: nat)
    requires |values| == 9 && 0 <= f.nonce && 0 <= f.gasLimit && 0 <= f.parity <= 1
    requires 1 <= f.r < SECP256K1_N && 1 <= f.s <= SECP256K1_N / 2 && SigningPayload(f, gasPrice, value).Ok?
    requires Destination(f.to) == Ok(values[3]) && ParseHex(f.data) == Some(values[5])
    requires values == CoreItems(f.nonce, gasPrice, f.gasLimit, values[3], value, values[5]) + SignatureTail(f)
    ensures var items := [values[0], values[1], values[2], values[3], values[4], values[5], [0x7a, 0x69], [], []];
      Encodable(items) && SigningPayload(f, gasPrice, value) == Ok(RlpList(items))
  {
    SignedCore(f, gasPrice, value);
    ChainSpelled();
    hide Core, Encodable, RlpList, SignatureTail, ParseHex, SigningPayload, Destination, ToBig;
    FirstSix(CoreItems(f.nonce, gasPrice, f.gasLimit, values[3], value, values[5]), SignatureTail(f));
    assert Core(f, gasPrice, value, CHAIN_ID).value + SigningTail()
        == [values[0], values[1], values[2], values[3], values[4], values[5], [0x7a, 0x69], [], []];
  }

  lemma SignedCore(f: Fields, gasPrice: nat, value: nat)
    requires SigningPayload(f, gasPrice, value).Ok? && 0 <= f.nonce && 0 <= f.gasLimit
    ensures Core(f, gasPrice, value, CHAIN_ID).Ok? && Destination(f.to).Ok? && ParseHex(f.data).Some?
    ensures var core := Core(f, gasPrice, value, CHAIN_ID).value;
      && core == CoreItems(f.nonce, gasPrice, f.gasLimit, Destination(f.to).value, value, ParseHex(f.data).value)
      && Encodable(core + SigningTail()) && SigningPayload(f, gasPrice, value) == Ok(RlpList(core + SigningTail()))
  {
    CoreFits(f, SigningTail());
    hide Encodable, RlpList, ParseHex;
  }

  lemma FirstSix(core: seq<bytes>, tail: seq<bytes>)
    requires |core| == 6 && |tail| == 3
    ensures var v := core + tail; core == [v[0], v[1], v[2], v[3], v[4], v[5]]
  {
  }

  lemma ChainSpelled()
    ensures SigningTail() == [[0x7a, 0x69], [], []]
  {
    assert ToBig(122) == ToBig(0) + [122] == [122];
    assert ToBig(31337) == ToBig(122) + [105] == [122, 105];
  }

  /**
   What an accepted record says, for any digest: the text spells bytes that are the list
   of nine values; the hash is of those bytes, the signing hash is of the list of the first
   six values, 31337 and two empty strings; every field is the number or text of its value.
   */
  lemma RecordSays(text: string, digest: bytes -> bytes)
    requires Inspect(text, digest).Ok?
    ensures ParseHex(text).Some? && Values(ParseHex(text).value).Ok?
    ensures var b := ParseHex(text).value; var v := Values(b).value;
      var items := [v[0], v[1], v[2], v[3], v[4], v[5], [0x7a, 0x69], [], []];
      && text == Hex(b) && Encodable(v) && b == RlpList(v)
      && Encodable(items) && RecordOf(Inspect(text, digest).value, b, v, RlpList(items), digest)
  {
    var b := ParseHex(text).value;
    var v := Values(b).value;
    ValuesCanonical(b);
    InterpretSays(v, b, digest);
    hide Interpret, RlpList, Encodable, ParseHex, Values;
  }

  lemma InterpretSays(values: seq<bytes>, raw: bytes, digest: bytes -> bytes)
    requires |values| == 9 && Interpret(values, raw, digest).Ok?
    ensures var items := [values[0], values[1], values[2], values[3], values[4], values[5], [0x7a, 0x69], [], []];
      Encodable(items) && RecordOf(Interpret(values, raw, digest).value, raw, values, RlpList(items), digest)
  {
    InterpretUnfolds(values, raw, digest);
    hide *;
    var (f, gasPrice, value) := Decode(values).value;
    DecodeDetermines(values);
    SignedBytes(values, f, gasPrice, value);
    DecodedNumbers(values);
    var unsigned := SigningPayload(f, gasPrice, value).value;
    RecordOfFields(values, raw, unsigned, f, gasPrice, value, digest);
  }

  lemma InterpretUnfolds(values: seq<bytes>, raw: bytes, digest: bytes -> bytes)
    requires |values| == 9 && Interpret(values, raw, digest).Ok?
    ensures Decode(values).Ok?
    ensures var (f, gasPrice, value) := Decode(values).value;
      && SigningPayload(f, gasPrice, value).Ok?
      && Interpret(values, raw, digest).value == Envelope(f, gasPrice, value, CHAIN_ID, Hex(raw), Hex(digest(raw)),
                                                          Hex(digest(SigningPayload(f, gasPrice, value).value)))
  {
    hide Decode, SigningPayload, Hex;
  }

  lemma RecordOfFields(values: seq<bytes>, raw: bytes, unsigned: bytes, f: Fields, gasPrice: nat, value: nat, digest: bytes -> bytes)
    requires |values| == 9
    requires f.nonce == FromBig(values[0]) && gasPrice == FromBig(values[1]) && f.gasLimit == FromBig(values[2])
    requires f.to == (if values[3] == [] then None else Some(Hex(values[3]))) && f.data == Hex(values[5])
    requires value == FromBig(values[4]) && 2 * 31337 + 35 + f.parity == FromBig(values[6])
    requires f.r == FromBig(values[7]) && f.s == FromBig(values[8])
    ensures RecordOf(Envelope(f, gasPrice, value, CHAIN_ID, Hex(raw), Hex(digest(raw)), Hex(digest(unsigned))),
                     raw, values, unsigned, digest)
  {
  }

  lemma DecodedNumbers(values: seq<bytes>)
    requires |values| == 9 && Decode(values).Ok?
    ensures var (f, gasPrice, value) := Decode(values).value;
      && f.nonce == FromBig(values[0]) && gasPrice == FromBig(values[1]) && f.gasLimit == FromBig(values[2])
      && f.to == (if values[3] == [] then None else Some(Hex(values[3]))) && f.data == Hex(values[5])
      && value == FromBig(values[4]) && 2 * 31337 + 35 + f.parity == FromBig(values[6])
      && f.r == FromBig(values[7]) && f.s == FromBig(values[8])
  {
  }

  /** The explicit re-encoding check rejects nothing that reading has let through. */
  lemma CanonicalCheckNeverFails(text: string, digest: bytes -> bytes)
    ensures Inspect(text, digest) != Err(RlpCanonical)
  {
    var raw := HexData(text, MAX_RAW_BYTES, 1);
    if raw.Ok? && Values(raw.value).Ok? {
      ValuesCanonical(raw.value);
    }
  }

  // The reader as it runs: one pass over the payload, with a growing list of values.

  method CollectValues(payload: bytes) returns (r: Result<seq<bytes>, Error>)
    ensures r == ReadFields(payload, 0, 0)
  {
    var values: seq<bytes>, cursor: nat := [], 0;
    assert forall rest: seq<bytes> :: [] + rest == rest;
    while cursor < |payload|
      invariant cursor <= |payload|
      invariant match ReadFields(payload, cursor, |values|)
        case Ok(rest) => ReadFields(payload, 0, 0) == Ok(values + rest)
        case Err(e) => ReadFields(payload, 0, 0) == Err(e)
      decreases |payload| - cursor
    {
      if |values| >= 9 {
        return Err(FieldCount);
      }
      var item := ReadItem(payload, cursor, |payload|);
      if item.Err? {
        return Err(item.error);
      }
      if item.value.isList {
        return Err(RlpNested);
      }
      ghost var before := values;
      cursor := item.value.end;
      values := values + [item.value.payload];
      assert forall rest: seq<bytes> :: before + ([item.value.payload] + rest) == values + rest;
    }
    assert values + [] == values;
    r := Ok(values);
  }

  method InspectLegacy(text: string, digest: bytes -> bytes) returns (r: Result<Envelope, Error>)
    ensures r == Inspect(text, digest)
    ensures r.Ok? ==> r.value.raw == text && EncodeSigned(r.value.fields, digest) == r
  {
    if Inspect(text, digest).Ok? {
      InspectThenEncode(text, digest);
    }
    var raw := HexData(text, MAX_RAW_BYTES, 1);
    if raw.Err? {
      return Err(raw.error);
    }
    var item := ReadItem(raw.value, 0, |raw.value|);
    if item.Err? {
      return Err(item.error);
    }
    if !item.value.isList || item.value.end != |raw.value| {
      return Err(RlpEnvelope);
    }
    var values := CollectValues(item.value.payload);
    if values.Err? {
      return Err(values.error);
    }
    if |values.value| != 9 {
      return Err(FieldCount);
    }
    ValuesCanonical(raw.value);
    if RlpList(values.value) != raw.value {
      return Err(RlpCanonical);
    }
    r := Interpret(values.value, raw.value, digest);
  }
}
