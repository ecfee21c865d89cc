/** The wire format of the last-turns response: the little-endian encoder of the server and the decoder
    of the client. */
module TurnWire {
  import opened Basics

  const TWO_TO_THE_32: nat := 0x1_0000_0000

  type u32 = x: nat | x < TWO_TO_THE_32

  type u64 = x: nat | x < 0x1_0000_0000_0000_0000

  /** A stored turn as the server reads it back; `payload` is None when the client did not ask for it. */
  datatype Item = Item(
    turnId: u64, parentTurnId: u64, depth: u32, declaredTypeId: Bytes, declaredTypeVersion: u32,
    encoding: u32, compression: u32, uncompressedLen: u32, payloadHash: Hash, payload: Option<Bytes>)

  /** A turn as the client sees it. */
  datatype Record = Record(
    turnId: u64, parentId: u64, depth: u32, typeId: Bytes, typeVersion: u32, encoding: u32,
    compression: u32, payloadHash: Hash, payload: Bytes)

  datatype WireError = TooShort | EndOfInput | UnexpectedEnd

  // ---- Little-endian numbers ----

  /** The `k` low bytes of `n`, least significant first. */
  function LittleEndian(n: nat, k: nat): (bs: Bytes)
    ensures |bs| == k
  {
    if k == 0 then [] else [(n % 256) as byte] + LittleEndian(n / 256, k - 1)
  }

  function FromLittleEndian(bs: Bytes): nat {
    if bs == [] then 0 else bs[0] as nat + 256 * FromLittleEndian(bs[1..])
  }

  function Pow256(k: nat): nat {
    if k == 0 then 1 else 256 * Pow256(k - 1)
  }

  lemma {:induction false} LittleEndianInverse(n: nat, k: nat)
    requires n < Pow256(k)
    ensures FromLittleEndian(LittleEndian(n, k)) == n
  {
    if k > 0 {
      LittleEndianInverse(n / 256, k - 1);
    }
  }

  lemma {:induction false} FromLittleEndianBound(bs: Bytes)
    ensures FromLittleEndian(bs) < Pow256(|bs|)
  {
    if bs != [] {
      FromLittleEndianBound(bs[1..]);
    }
  }

  lemma Powers()
    ensures Pow256(4) == TWO_TO_THE_32 && Pow256(8) == 0x1_0000_0000_0000_0000
  {
    assert Pow256(2) == 0x1_0000 && Pow256(3) == 0x100_0000;
    assert Pow256(4) == TWO_TO_THE_32;
    assert Pow256(6) == 0x1_0000_0000_0000;
    assert Pow256(7) == 0x100_0000_0000_0000;
  }

  function U32(n: u32): (bs: Bytes)
    ensures |bs| == 4
  {
    LittleEndian(n, 4)
  }

  function U64(n: u64): (bs: Bytes)
    ensures |bs| == 8
  {
    LittleEndian(n, 8)
  }

  /** A length as it is cast before it is written: the high bits are lost. */
  function Len32(n: nat): u32 {
    n % TWO_TO_THE_32
  }

  // ---- The encoding ----

  /** An item's payload part, if any, in front of the bytes that follow the item. */
  function PayloadThen(payload: Option<Bytes>, rest: Bytes): Bytes {
    if payload.None? then rest else U32(Len32(|payload.value|)) + (payload.value + rest)
  }

  function SentCompression(item: Item): u32 {
    if item.payload.Some? then 0 else item.compression
  }

  function SentLen(item: Item): u32 {
    if item.payload.Some? then Len32(|item.payload.value|) else item.uncompressedLen
  }

  /** The bytes of an item in front of the bytes that follow it. */
  function ItemThen(item: Item, rest: Bytes): Bytes {
    U64(item.turnId) + (U64(item.parentTurnId) + (U32(item.depth)
    + (U32(Len32(|item.declaredTypeId|)) + (item.declaredTypeId + (U32(item.declaredTypeVersion)
    + (U32(item.encoding) + (U32(SentCompression(item)) + (U32(SentLen(item))
    + (item.payloadHash + PayloadThen(item.payload, rest))))))))))
  }

  function Items(items: seq<Item>): Bytes {
    if items == [] then [] else ItemThen(items[0], Items(items[1..]))
  }

  function Encoding(items: seq<Item>): Bytes {
    U32(Len32(|items|)) + Items(items)
  }

  /** Append one item to the response; `rest` is what the response still lacks after it. */
  method WriteItem(resp: Bytes, item: Item, ghost rest: Bytes) returns (out: Bytes)
    ensures out + rest == resp + ItemThen(item, rest)
  {
    ghost var t9 := PayloadThen(item.payload, rest);
    ghost var t8 := item.payloadHash + t9;
    ghost var t7 := U32(SentLen(item)) + t8;
    ghost var t6 := U32(SentCompression(item)) + t7;
    ghost var t5 := U32(item.encoding) + t6;
    ghost var t4 := U32(item.declaredTypeVersion) + t5;
    ghost var t3 := item.declaredTypeId + t4;
    ghost var t2 := U32(Len32(|item.declaredTypeId|)) + t3;
    ghost var t1 := U32(item.depth) + t2;
    ghost var t0 := U64(item.parentTurnId) + t1;
    ghost var all := ItemThen(item, rest);
    assert all == U64(item.turnId) + t0;
    assert t9 == if item.payload.None? then rest else U32(Len32(|item.payload.value|)) + (item.payload.value + rest);
    hide *;
    out := resp + U64(item.turnId);
    ConcatAssociative(resp, U64(item.turnId), t0);
    ConcatAssociative(out, U64(item.parentTurnId), t1);
    out := out + U64(item.parentTurnId);
    ConcatAssociative(out, U32(item.depth), t2);
    out := out + U32(item.depth);
    ConcatAssociative(out, U32(Len32(|item.declaredTypeId|)), t3);
    out := out + U32(Len32(|item.declaredTypeId|));
    ConcatAssociative(out, item.declaredTypeId, t4);
    out := out + item.declaredTypeId;
    ConcatAssociative(out, U32(item.declaredTypeVersion), t5);
    out := out + U32(item.declaredTypeVersion);
    ConcatAssociative(out, U32(item.encoding), t6);
    out := out + U32(item.encoding);
    ConcatAssociative(out, U32(SentCompression(item)), t7);
    out := out + U32(SentCompression(item));
    ConcatAssociative(out, U32(SentLen(item)), t8);
    out := out + U32(SentLen(item));
    ConcatAssociative(out, item.payloadHash, t9);
    out := out + item.payloadHash;
    if item.payload.Some? {
      ConcatAssociative(out, U32(Len32(|item.payload.value|)), item.payload.value + rest);
      out := out + U32(Len32(|item.payload.value|));
      ConcatAssociative(out, item.payload.value, rest);
      out := out + item.payload.value;
    }
  }

  method EncodeGetLast(items: seq<Item>) returns (resp: Bytes)
    ensures resp == Encoding(items)
  {
    resp := U32(Len32(|items|));
    assert items[0..] == items;
    for i := 0 to |items|
      invariant resp + Items(items[i..]) == Encoding(items)
    {
      assert items[i..][1..] == items[i + 1..];
      resp := WriteItem(resp, items[i], Items(items[i + 1..]));
    }
    assert items[|items|..] == [] && resp + [] == resp;
  }

  // ---- The decoding, as functions of the bytes left to read ----

  /** A fixed-size little-endian number. */
  function ReadNumber(k: nat, rest: Bytes): Result<(nat, Bytes), WireError> {
    if rest == [] && k > 0 then Err(EndOfInput)
    else if |rest| < k then Err(UnexpectedEnd)
    else Ok((FromLittleEndian(rest[..k]), rest[k..]))
  }

  function Zeros(n: nat): Bytes {
    seq(n, _ => 0)
  }

  /** One read into a buffer of `n` bytes. At the end of the input it fails, for an empty buffer too;
      a short read is no error and leaves the tail of the buffer zero. */
  function ReadInto(n: nat, rest: Bytes): Result<(Bytes, Bytes), WireError> {
    if rest == [] then Err(EndOfInput)
    else
      var m := if n <= |rest| then n else |rest|;
      Ok((rest[..m] + Zeros(n - m), rest[m..]))
  }

  function ReadU32(rest: Bytes): (r: Result<(u32, Bytes), WireError>) {
    var (n, rest) :- ReadNumber(4, rest);
    Ok((n % TWO_TO_THE_32, rest))
  }

  function ReadU64(rest: Bytes): (r: Result<(u64, Bytes), WireError>) {
    var (n, rest) :- ReadNumber(8, rest);
    Ok((n % 0x1_0000_0000_0000_0000, rest))
  }

  function ReadHash(rest: Bytes): (r: Result<(Hash, Bytes), WireError>) {
    var (bs, rest) :- ReadInto(HASH_LEN, rest);
    Ok((bs, rest))
  }

  function DecodeRecord(rest: Bytes): Result<(Record, Bytes), WireError> {
    var (turnId, rest) :- ReadU64(rest);
    var (parentId, rest) :- ReadU64(rest);
    var (depth, rest) :- ReadU32(rest);
    var (typeLen, rest) :- ReadU32(rest);
    var (typeId, rest) :- ReadInto(typeLen, rest);
    var (typeVersion, rest) :- ReadU32(rest);
    var (encoding, rest) :- ReadU32(rest);
    var (compression, rest) :- ReadU32(rest);
    var (_, rest) :- ReadU32(rest);
    var (payloadHash, rest) :- ReadHash(rest);
    var (payloadLen, rest) :- ReadU32(rest);
    var (payload, rest) :- ReadInto(payloadLen, rest);
    Ok((Record(turnId, parentId, depth, typeId, typeVersion, encoding, compression, payloadHash, payload), rest))
  }

  function DecodeRecords(count: nat, rest: Bytes): Result<(seq<Record>, Bytes), WireError> {
    if count == 0 then Ok(([], rest))
    else
      var (record, rest) :- DecodeRecord(rest);
      var (records, rest) :- DecodeRecords(count - 1, rest);
      Ok(([record] + records, rest))
  }

  /** The records and the bytes left over. */
  function Decode(data: Bytes): Result<(seq<Record>, Bytes), WireError> {
    if |data| < 4 then Err(TooShort)
    else
      var (count, rest) :- ReadU32(data);
      DecodeRecords(count, rest)
  }

  // ---- The decoder ----

  /** A reader over the response bytes. */
  class Cursor {
    const data: Bytes
    var pos: nat

    ghost predicate Valid()
      reads this
    {
      pos <= |data|
    }

    /** The bytes not read yet. */
    ghost function Left(): Bytes
      requires Valid()
      reads this
    {
      data[pos..]
    }

    constructor (data: Bytes)
      ensures Valid() && Left() == data
    {
      this.data := data;
      pos := 0;
    }

    method ReadFull(k: nat) returns (r: Result<nat, WireError>)
      requires Valid()
      modifies this
      ensures Valid()
      ensures match ReadNumber(k, old(Left()))
              case Ok((n, rest)) => r == Ok(n) && Left() == rest
              case Err(e) => r == Err(e)
    {
      if pos == |data| && k > 0 {
        return Err(EndOfInput);
      }
      if |data| - pos < k {
        return Err(UnexpectedEnd);
      }
      assert data[pos..][..k] == data[pos..pos + k] && data[pos..][k..] == data[pos + k..];
      r := Ok(FromLittleEndian(data[pos..pos + k]));
      pos := pos + k;
    }

    method Read(n: nat) returns (r: Result<Bytes, WireError>)
      requires Valid()
      modifies this
      ensures Valid()
      ensures match ReadInto(n, old(Left()))
              case Ok((bs, rest)) => r == Ok(bs) && Left() == rest
              case Err(e) => r == Err(e)
    {
      if pos >= |data| {
        return Err(EndOfInput);
      }
      var m := if n <= |data| - pos then n else |data| - pos;
      assert data[pos..][..m] == data[pos..pos + m] && data[pos..][m..] == data[pos + m..];
      r := Ok(data[pos..pos + m] + Zeros(n - m));
      pos := pos + m;
    }

    method NextU32() returns (r: Result<u32, WireError>)
      requires Valid()
      modifies this
      ensures Valid()
      ensures match ReadU32(old(Left()))
              case Ok((n, rest)) => r == Ok(n) && Left() == rest
              case Err(e) => r == Err(e)
    {
      var n :- ReadFull(4);
      r := Ok(n % TWO_TO_THE_32);
    }

    method NextU64() returns (r: Result<u64, WireError>)
      requires Valid()
      modifies this
      ensures Valid()
      ensures match ReadU64(old(Left()))
              case Ok((n, rest)) => r == Ok(n) && Left() == rest
              case Err(e) => r == Err(e)
    {
      var n :- ReadFull(8);
      r := Ok(n % 0x1_0000_0000_0000_0000);
    }

    method NextRecord() returns (r: Result<Record, WireError>)
      requires Valid()
      modifies this
      ensures Valid()
      ensures match DecodeRecord(old(Left()))
              case Ok((record, rest)) => r == Ok(record) && Left() == rest
              case Err(e) => r == Err(e)
    {
      hide ReadNumber, ReadInto, ReadU32, ReadU64;
      var turnId :- NextU64();
      var parentId :- NextU64();
      var depth :- NextU32();
      var typeLen :- NextU32();
      var typeId :- Read(typeLen);
      var typeVersion :- NextU32();
      var encoding :- NextU32();
      var compression :- NextU32();
      var _ :- NextU32();
      var payloadHash :- NextHash();
      var payloadLen :- NextU32();
      var payload :- Read(payloadLen);
      r := Ok(Record(turnId, parentId, depth, typeId, typeVersion, encoding, compression, payloadHash, payload));
    }

    method NextHash() returns (r: Result<Hash, WireError>)
      requires Valid()
      modifies this
      ensures Valid()
      ensures match ReadHash(old(Left()))
              case Ok((h, rest)) => r == Ok(h) && Left() == rest
              case Err(e) => r == Err(e)
    {
      var bs :- Read(HASH_LEN);
      r := Ok(bs);
    }
  }

  method ParseTurnRecords(data: Bytes) returns (result: Result<seq<Record>, WireError>)
    ensures match Decode(data)
            case Ok((records, rest)) => result == Ok(records)
            case Err(e) => result == Err(e)
  {
    hide DecodeRecord, ReadU32, FromLittleEndian;
    if |data| < 4 {
      return Err(TooShort);
    }
    var cursor := new Cursor(data);
    var count :- cursor.NextU32();
    var records: seq<Record> := [];
    ghost var start := cursor.Left();
    if DecodeRecords(count, start).Ok? {
      assert records + DecodeRecords(count, start).value.0 == DecodeRecords(count, start).value.0;
    }
    for i := 0 to count
      invariant cursor.Valid()
      invariant match DecodeRecords(count - i, cursor.Left())
                case Ok((more, rest)) => DecodeRecords(count, start) == Ok((records + more, rest))
                case Err(e) => DecodeRecords(count, start) == Err(e)
    {
      ghost var before := cursor.Left();
      var record :- cursor.NextRecord();
      ghost var later := DecodeRecords(count - i - 1, cursor.Left());
      if later.Ok? {
        ConcatAssociative(records, [record], later.value.0);
      }
      records := records + [record];
    }
    assert records + [] == records;
    result := Ok(records);
  }

  // ---- Round trip ----

  lemma ReadBackU32(n: u32, rest: Bytes)
    ensures ReadU32(U32(n) + rest) == Ok((n, rest))
  {
    Powers();
    LittleEndianInverse(n, 4);
    assert (U32(n) + rest)[..4] == U32(n) && (U32(n) + rest)[4..] == rest;
  }

  lemma ReadBackU64(n: u64, rest: Bytes)
    ensures ReadU64(U64(n) + rest) == Ok((n, rest))
  {
    Powers();
    LittleEndianInverse(n, 8);
    assert (U64(n) + rest)[..8] == U64(n) && (U64(n) + rest)[8..] == rest;
  }

  /** Bytes are read back when anything at all is left to read; a zero-length read at the end fails. */
  lemma ReadBackBytes(bs: Bytes, rest: Bytes)
    ensures ReadInto(|bs|, bs + rest) == if bs + rest == [] then Err(EndOfInput) else Ok((bs, rest))
  {
    if bs + rest != [] {
      assert (bs + rest)[..|bs|] == bs && (bs + rest)[|bs|..] == rest;
      assert bs + Zeros(0) == bs;
    }
  }

  lemma ReadBackHash(h: Hash, rest: Bytes)
    ensures ReadHash(h + rest) == Ok((h, rest))
  {
    ReadBackBytes(h, rest);
  }

  /** What the client is to get for an item sent with its payload. */
  function RecordOf(item: Item): Record
    requires item.payload.Some?
  {
    Record(item.turnId, item.parentTurnId, item.depth, item.declaredTypeId, item.declaredTypeVersion,
           item.encoding, 0, item.payloadHash, item.payload.value)
  }

  function RecordsOf(items: seq<Item>): seq<Record>
    requires forall i :: i in items ==> i.payload.Some?
  {
    if items == [] then [] else [RecordOf(items[0])] + RecordsOf(items[1..])
  }

  /** Lengths survive the casts. */
  predicate Fits(item: Item) {
    |item.declaredTypeId| < TWO_TO_THE_32 && (item.payload.Some? ==> |item.payload.value| < TWO_TO_THE_32)
  }

  /** Up to the payload length, an item is decoded as it was encoded. */
  lemma ReadBackHeader(item: Item, rest: Bytes)
    requires Fits(item)
    ensures var tail := PayloadThen(item.payload, rest);
            DecodeRecord(ItemThen(item, rest)) ==
            match ReadU32(tail)
            case Err(e) => Err(e)
            case Ok((payloadLen, rest)) =>
              (match ReadInto(payloadLen, rest)
               case Err(e) => Err(e)
               case Ok((payload, rest)) =>
                 Ok((Record(item.turnId, item.parentTurnId, item.depth, item.declaredTypeId, item.declaredTypeVersion,
                            item.encoding, SentCompression(item), item.payloadHash, payload), rest)))
  {
    var t9 := PayloadThen(item.payload, rest);
    var t8 := item.payloadHash + t9;
    var t7 := U32(SentLen(item)) + t8;
    var t6 := U32(SentCompression(item)) + t7;
    var t5 := U32(item.encoding) + t6;
    var t4 := U32(item.declaredTypeVersion) + t5;
    var t3 := item.declaredTypeId + t4;
    var t2 := U32(|item.declaredTypeId|) + t3;
    var t1 := U32(item.depth) + t2;
    var t0 := U64(item.parentTurnId) + t1;
    assert ItemThen(item, rest) == U64(item.turnId) + t0 by {
      assert Len32(|item.declaredTypeId|) == |item.declaredTypeId|;
    }
    assert t3 != [];
    hide U32, U64, ReadU32, ReadU64, ReadHash, ReadInto, PayloadThen, SentLen, SentCompression, ItemThen;
    ReadBackU64(item.turnId, t0);
    ReadBackU64(item.parentTurnId, t1);
    ReadBackU32(item.depth, t2);
    ReadBackU32(|item.declaredTypeId|, t3);
    ReadBackBytes(item.declaredTypeId, t4);
    ReadBackU32(item.declaredTypeVersion, t5);
    ReadBackU32(item.encoding, t6);
    ReadBackU32(SentCompression(item), t7);
    ReadBackU32(SentLen(item), t8);
    ReadBackHash(item.payloadHash, t9);
  }

  /** An item sent with its payload is decoded iff its payload or what follows it is not empty. */
  lemma ReadBackItem(item: Item, rest: Bytes)
    requires Fits(item) && item.payload.Some?
    ensures DecodeRecord(ItemThen(item, rest))
            == if item.payload.value == [] && rest == [] then Err(EndOfInput) else Ok((RecordOf(item), rest))
  {
    var payload := item.payload.value;
    assert Len32(|payload|) == |payload|;
    ReadBackHeader(item, rest);
    hide DecodeRecord, ItemThen, U32, ReadU32, ReadInto, Len32;
    ReadBackU32(|payload|, payload + rest);
    ReadBackBytes(payload, rest);
  }

  lemma ItemsNonEmpty(items: seq<Item>)
    requires items != []
    ensures Items(items) != []
  {
    assert |U64(items[0].turnId)| == 8;
  }

  lemma {:induction false} ReadBackItems(items: seq<Item>)
    requires forall i :: i in items ==> Fits(i) && i.payload.Some?
    ensures DecodeRecords(|items|, Items(items))
            == if items != [] && items[|items| - 1].payload.value == [] then Err(EndOfInput)
               else Ok((RecordsOf(items), []))
    decreases |items|
  {
    hide DecodeRecord, ItemThen, RecordOf, Fits;
    if items != [] {
      var tail := items[1..];
      assert items[0] in items;
      ReadBackItem(items[0], Items(tail));
      if tail != [] {
        ItemsNonEmpty(tail);
      }
      ReadBackItems(tail);
    }
  }

  lemma EncodingStarts(items: seq<Item>)
    requires |items| < TWO_TO_THE_32
    ensures Encoding(items) == U32(|items|) + Items(items)
  {
    hide U32, Items;
  }

  lemma DecodeStarts(count: u32, rest: Bytes)
    ensures Decode(U32(count) + rest) == DecodeRecords(count, rest)
  {
    hide U32, ReadU32, DecodeRecords;
    ReadBackU32(count, rest);
  }

  /** Decoding what the server sends, payloads included, gives back every turn, uncompressed, and uses
      every byte - iff there is no turn or the last payload is not empty; otherwise it fails. */
  lemma RoundTrip(items: seq<Item>)
    requires |items| < TWO_TO_THE_32
    requires forall i :: i in items ==> Fits(i) && i.payload.Some?
    ensures Decode(Encoding(items))
            == if items != [] && items[|items| - 1].payload.value == [] then Err(EndOfInput)
               else Ok((RecordsOf(items), []))
  {
    hide *;
    EncodingStarts(items);
    DecodeStarts(|items|, Items(items));
    ReadBackItems(items);
  }

  /** A turn sent without its payload cannot be decoded: the payload length the decoder asks for is
      never sent. */
  lemma WithoutPayload(item: Item)
    requires Fits(item) && item.payload.None?
    ensures Decode(Encoding([item])) == Err(EndOfInput)
  {
    ReadBackU32(1, Items([item]));
    assert [item][1..] == [] && Items([item]) == ItemThen(item, []);
    ReadBackHeader(item, []);
    assert ReadU32([]) == Err(EndOfInput);
    assert |Encoding([item])| >= 4;
  }

  // ---- The layout on the wire ----

  /** The least significant byte comes first. */
  lemma U32Bytes(n: u32)
    ensures U32(n) == [(n % 256) as byte, (n / 0x100 % 256) as byte, (n / 0x1_0000 % 256) as byte, (n / 0x100_0000 % 256) as byte]
  {
    FourBytes(n);
  }

  lemma FourBytes(n: nat)
    ensures LittleEndian(n, 4)
            == [(n % 256) as byte, (n / 0x100 % 256) as byte, (n / 0x1_0000 % 256) as byte, (n / 0x100_0000 % 256) as byte]
  {
    assert LittleEndian(n / 0x100_0000, 1) == [(n / 0x100_0000 % 256) as byte];
    assert n / 0x1_0000 / 256 == n / 0x100_0000 && n / 0x100 / 256 == n / 0x1_0000;
    assert LittleEndian(n / 0x1_0000, 2) == [(n / 0x1_0000 % 256) as byte] + LittleEndian(n / 0x100_0000, 1);
    assert LittleEndian(n / 0x100, 3) == [(n / 0x100 % 256) as byte] + LittleEndian(n / 0x1_0000, 2);
  }

  lemma {:induction false} LittleEndianConcat(n: nat, a: nat, b: nat)
    ensures LittleEndian(n, a + b) == LittleEndian(n, a) + LittleEndian(Shifted(n, a), b)
    decreases a
  {
    if a > 0 {
      LittleEndianConcat(n / 256, a - 1, b);
      ConcatAssociative([(n % 256) as byte], LittleEndian(n / 256, a - 1), LittleEndian(Shifted(n, a), b));
    } else {
      assert [] + LittleEndian(n, b) == LittleEndian(n, b);
    }
  }

  /** Without its `a` low bytes. */
  function Shifted(n: nat, a: nat): nat {
    if a == 0 then n else Shifted(n / 256, a - 1)
  }

  lemma U64Bytes(n: u64)
    ensures U64(n) == [(n % 256) as byte, (n / 0x100 % 256) as byte, (n / 0x1_0000 % 256) as byte, (n / 0x100_0000 % 256) as byte]
                      + U32(n / TWO_TO_THE_32)
  {
    LittleEndianConcat(n, 4, 4);
    FourBytes(n);
    assert n / 256 / 256 / 256 == n / 0x100_0000 && n / 0x100_0000 / 256 == n / TWO_TO_THE_32;
    assert Shifted(n / 0x100_0000, 1) == Shifted(n / TWO_TO_THE_32, 0);
    assert Shifted(n, 4) == Shifted(n / 256, 3) == Shifted(n / 256 / 256, 2) == Shifted(n / 256 / 256 / 256, 1);
    hide LittleEndian;
  }

  /** The bytes from `from` on start with these. */
  predicate At(bs: Bytes, from: nat, part: Bytes) {
    from + |part| <= |bs| && bs[from..from + |part|] == part
  }

  /** A read takes the bytes asked for as far as there are any; what is missing reads as zero. */
  lemma ShortReads(n: nat, rest: Bytes)
    requires rest != []
    ensures ReadInto(n, rest).Ok?
    ensures var (bs, left) := ReadInto(n, rest).value;
            && |bs| == n && (n <= |rest| ==> rest == bs + left)
            && (n > |rest| ==> left == [] && bs[..|rest|] == rest && forall i :: |rest| <= i < n ==> bs[i] == 0)
  {
  }

  /** Where the fields of a turn stand: its id, that of its parent, its depth, the length and the text of its
      type, and after that text the version, the encoding, the compression, the length, the hash, and the payload
      with its length. */
  lemma ItemLayout(item: Item, rest: Bytes)
    ensures var bs, t := ItemThen(item, rest), 24 + |item.declaredTypeId|;
            && At(bs, 0, U64(item.turnId)) && At(bs, 8, U64(item.parentTurnId)) && At(bs, 16, U32(item.depth))
            && At(bs, 20, U32(Len32(|item.declaredTypeId|))) && At(bs, 24, item.declaredTypeId)
            && At(bs, t, U32(item.declaredTypeVersion)) && At(bs, t + 4, U32(item.encoding))
            && At(bs, t + 8, U32(if item.payload.Some? then 0 else item.compression))
            && At(bs, t + 12, U32(if item.payload.Some? then Len32(|item.payload.value|) else item.uncompressedLen))
            && At(bs, t + 16, item.payloadHash)
            && (item.payload.Some? ==> At(bs, t + 48, U32(Len32(|item.payload.value|))) && At(bs, t + 52, item.payload.value))
  {
    var p := item.payload;
    var t9 := PayloadThen(p, rest);
    var t8 := item.payloadHash + t9;
    var t7 := U32(SentLen(item)) + t8;
    var t6 := U32(SentCompression(item)) + t7;
    var t5 := U32(item.encoding) + t6;
    var t4 := U32(item.declaredTypeVersion) + t5;
    var t3 := item.declaredTypeId + t4;
    var t2 := U32(Len32(|item.declaredTypeId|)) + t3;
    var t1 := U32(item.depth) + t2;
    var t0 := U64(item.parentTurnId) + t1;
    var bs := U64(item.turnId) + t0;
    assert ItemThen(item, rest) == bs;
    Tail(bs, 0, bs, U64(item.turnId), t0);
    Tail(bs, 8, t0, U64(item.parentTurnId), t1);
    Tail(bs, 16, t1, U32(item.depth), t2);
    Tail(bs, 20, t2, U32(Len32(|item.declaredTypeId|)), t3);
    Tail(bs, 24, t3, item.declaredTypeId, t4);
    var t := 24 + |item.declaredTypeId|;
    Tail(bs, t, t4, U32(item.declaredTypeVersion), t5);
    Tail(bs, t + 4, t5, U32(item.encoding), t6);
    Tail(bs, t + 8, t6, U32(SentCompression(item)), t7);
    Tail(bs, t + 12, t7, U32(SentLen(item)), t8);
    Tail(bs, t + 16, t8, item.payloadHash, t9);
    if p.Some? {
      Tail(bs, t + 48, t9, U32(Len32(|p.value|)), p.value + rest);
      Tail(bs, t + 52, p.value + rest, p.value, rest);
    }
    hide U32, U64, Len32, At, ItemThen;
  }

  /** Stepping over one field. */
  lemma Tail(bs: Bytes, from: nat, tail: Bytes, part: Bytes, rest: Bytes)
    requires from <= |bs| && bs[from..] == tail && tail == part + rest
    ensures At(bs, from, part) && from + |part| <= |bs| && bs[from + |part|..] == rest
  {
    assert |bs| == from + |part| + |rest|;
    assert bs == bs[..from] + tail;
    assert tail[..|part|] == part && tail[|part|..] == rest;
  }
}
