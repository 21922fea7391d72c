/**
 Field-level pieces of the wire format shared by all five messages: keys
 (`fieldNum << 3 | wireType`), length-delimited records, the key check at the
 top of every `Unmarshal` loop, the length handling of length-delimited
 fields, and `skipFeegrant` for fields a message does not know.
 */
module Fields {
  import opened Wire
  import opened Varint

  /** The key of a field: `fieldNum << 3 | wireType`. */
  function Tag(fieldNum: nat, wireType: nat): nat
    requires wireType < 8
  {
    fieldNum * 8 + wireType
  }

  function Key(fieldNum: nat, wireType: nat): seq<byte>
    requires wireType < 8
  {
    EncodeVarint(Tag(fieldNum, wireType))
  }

  /** The single key bytes hard-coded in the marshalling code are the keys of
      fields 1-5 with wire type 2 and of field 2 with wire type 0. */
  lemma KeyBytes()
    ensures Key(1, 2) == [0x0a] && Key(2, 2) == [0x12] && Key(3, 2) == [0x1a]
    ensures Key(4, 2) == [0x22] && Key(5, 2) == [0x2a] && Key(2, 0) == [0x10]
  {
  }

  /** Fields 1 to 15 have one-byte keys. */
  lemma KeySingleByte(fieldNum: nat, wireType: nat)
    requires fieldNum < 16 && wireType < 8
    ensures Key(fieldNum, wireType) == [Tag(fieldNum, wireType)]
  {
  }

  /** A length-delimited record: key, varint length, payload. */
  function Record(key: seq<byte>, payload: seq<byte>): seq<byte> {
    key + EncodeVarint(|payload|) + payload
  }

  function LenDelimField(fieldNum: nat, payload: seq<byte>): seq<byte> {
    Record(Key(fieldNum, 2), payload)
  }

  function VarintField(fieldNum: nat, v: nat): seq<byte> {
    Key(fieldNum, 0) + EncodeVarint(v)
  }

  /** A repeated message field: one record per element, in element order. */
  function Records(key: seq<byte>, items: seq<Opaque>): seq<byte> {
    if |items| == 0 then [] else Record(key, items[0].payload) + Records(key, items[1..])
  }

  function RepeatedField(fieldNum: nat, items: seq<Opaque>): seq<byte> {
    Records(Key(fieldNum, 2), items)
  }

  /** Emitting the last element first in front of the others' records gives the
      same bytes as emitting the elements in order. */
  lemma {:induction false} RecordsSnoc(key: seq<byte>, items: seq<Opaque>)
    requires |items| > 0
    ensures Records(key, items) == Records(key, items[..|items| - 1]) + Record(key, items[|items| - 1].payload)
    decreases |items|
  {
    if |items| > 1 {
      RecordsSnoc(key, items[1..]);
      assert items[1..][..|items[1..]| - 1] == items[..|items| - 1][1..];
      assert items[..|items| - 1][0] == items[0];
    } else {
      assert items[..0] == [];
    }
  }

  // ---------------------------------------------------------------------------
  // Decoding

  datatype FieldKey = FieldKey(fieldNum: int, wireType: nat, next: nat)

  /** The key read at the top of each `Unmarshal` loop iteration, with the two
      checks made before the switch on the field number: wire type 4 (end
      group) and a field number that is not positive as an `int32`. */
  function ReadKey(data: seq<byte>, pos: nat): (r: Result<FieldKey>)
    ensures r.Success? ==> pos < r.value.next <= |data|
    ensures r.Success? ==> r.value.fieldNum > 0 && r.value.wireType < 8 && r.value.wireType != 4
  {
    var rd :- ReadVarint(data, pos);
    var fieldNum := Int32Of(rd.value / 8);
    var wireType := rd.value % 8;
    if wireType == 4 then Failure(EndGroupForNonGroup)
    else if fieldNum <= 0 then Failure(IllegalTag(fieldNum))
    else Success(FieldKey(fieldNum, wireType, rd.next))
  }

  datatype Chunk = Chunk(bytes: seq<byte>, next: nat)

  /** The body of a length-delimited field: a varint length read as a Go `int`
      (negative, hence `ErrInvalidLength`, from 2^63 up), the end index
      `postIndex` (negative after overflow, again `ErrInvalidLength`), and
      `io.ErrUnexpectedEOF` when the end lies past the input. */
  function ReadLenDelim(data: seq<byte>, pos: nat): (r: Result<Chunk>)
    ensures r.Success? ==> pos < r.value.next <= |data| && pos + |r.value.bytes| < r.value.next
    ensures r.Success? ==> r.value.bytes == data[r.value.next - |r.value.bytes|..r.value.next]
    ensures r.Success? ==>
      ReadVarint(data, pos).Success?
      && r.value.next == ReadVarint(data, pos).value.next + ReadVarint(data, pos).value.value
    ensures r.Success? ==> r.value.bytes == data[ReadVarint(data, pos).value.next..r.value.next]
  {
    var rd :- ReadVarint(data, pos);
    var length := rd.value;
    if length >= TWO63 then Failure(InvalidLength)
    else if rd.next + length >= TWO63 then Failure(InvalidLength)
    else if rd.next + length > |data| then Failure(UnexpectedEOF)
    else Success(Chunk(data[rd.next..rd.next + length], rd.next + length))
  }

  lemma ReadKeyEncoded(data: seq<byte>, pos: nat, fieldNum: nat, wireType: nat)
    requires wireType < 8 && wireType != 4 && 1 <= fieldNum < TWO31
    requires At(data, pos, Key(fieldNum, wireType))
    ensures ReadKey(data, pos) == Success(FieldKey(fieldNum, wireType, pos + |Key(fieldNum, wireType)|))
  {
    ReadEncoded(data, pos, Tag(fieldNum, wireType));
    KeyFromVarint(data, pos, fieldNum, wireType, pos + |Key(fieldNum, wireType)|);
  }

  lemma KeyFromVarint(data: seq<byte>, pos: nat, fieldNum: nat, wireType: nat, next: nat)
    requires wireType < 8 && wireType != 4 && 1 <= fieldNum < TWO31
    requires ReadVarint(data, pos) == Success(VarintRead(Tag(fieldNum, wireType), next))
    ensures ReadKey(data, pos) == Success(FieldKey(fieldNum, wireType, next))
  {
  }

  /** Reading back a record written by `Record`. */
  lemma ReadLenDelimEncoded(data: seq<byte>, pos: nat, payload: seq<byte>)
    requires |data| < TWO63
    requires At(data, pos, EncodeVarint(|payload|) + payload)
    ensures ReadLenDelim(data, pos) == Success(Chunk(payload, pos + |EncodeVarint(|payload|)| + |payload|))
  {
    var start := pos + |EncodeVarint(|payload|)|;
    AtSplit(data, pos, EncodeVarint(|payload|), payload);
    AtSlice(data, start, payload);
    ReadEncoded(data, pos, |payload|);
    LenDelimFromVarint(data, pos, payload, start);
  }

  lemma LenDelimFromVarint(data: seq<byte>, pos: nat, payload: seq<byte>, start: nat)
    requires |data| < TWO63 && start + |payload| <= |data| && data[start..start + |payload|] == payload
    requires ReadVarint(data, pos) == Success(VarintRead(|payload|, start))
    ensures ReadLenDelim(data, pos) == Success(Chunk(payload, start + |payload|))
  {
  }

  /** The key of a field written by `LenDelimField` reads back, one byte long. */
  lemma ReadLenDelimKey(data: seq<byte>, pos: nat, fieldNum: nat, payload: seq<byte>)
    requires 1 <= fieldNum < 16
    requires At(data, pos, LenDelimField(fieldNum, payload))
    ensures ReadKey(data, pos) == Success(FieldKey(fieldNum, 2, pos + 1))
  {
    KeySingleByte(fieldNum, 2);
    LenDelimFieldParts(data, pos, fieldNum, payload);
    ReadKeyEncoded(data, pos, fieldNum, 2);
  }

  /** After its key, a field written by `LenDelimField` reads back as its payload. */
  lemma ReadLenDelimBody(data: seq<byte>, pos: nat, fieldNum: nat, payload: seq<byte>)
    requires |data| < TWO63 && 1 <= fieldNum < 16
    requires At(data, pos, LenDelimField(fieldNum, payload))
    ensures ReadLenDelim(data, pos + 1) == Success(Chunk(payload, pos + |LenDelimField(fieldNum, payload)|))
  {
    KeySingleByte(fieldNum, 2);
    LenDelimFieldParts(data, pos, fieldNum, payload);
    ReadLenDelimEncoded(data, pos + 1, payload);
  }

  /** A whole field written by `LenDelimField`: key, then payload. */
  lemma ReadLenDelimField(data: seq<byte>, pos: nat, fieldNum: nat, payload: seq<byte>, end: nat)
    requires |data| < TWO63 && 1 <= fieldNum < 16
    requires At(data, pos, LenDelimField(fieldNum, payload)) && end == pos + |LenDelimField(fieldNum, payload)|
    ensures ReadKey(data, pos) == Success(FieldKey(fieldNum, 2, pos + 1))
    ensures ReadLenDelim(data, pos + 1) == Success(Chunk(payload, end))
  {
    ReadLenDelimKey(data, pos, fieldNum, payload);
    ReadLenDelimBody(data, pos, fieldNum, payload);
  }

  lemma LenDelimFieldParts(data: seq<byte>, pos: nat, fieldNum: nat, payload: seq<byte>)
    requires At(data, pos, LenDelimField(fieldNum, payload))
    ensures At(data, pos, Key(fieldNum, 2))
    ensures At(data, pos + |Key(fieldNum, 2)|, EncodeVarint(|payload|) + payload)
    ensures |LenDelimField(fieldNum, payload)| == |Key(fieldNum, 2)| + |EncodeVarint(|payload|)| + |payload|
  {
    var key := Key(fieldNum, 2);
    var body := EncodeVarint(|payload|) + payload;
    assert LenDelimField(fieldNum, payload) == key + body;
    AtSplit(data, pos, key, body);
  }

  /** The key of a field written by `VarintField` reads back, one byte long. */
  lemma ReadVarintKey(data: seq<byte>, pos: nat, fieldNum: nat, v: uint64)
    requires 1 <= fieldNum < 16
    requires At(data, pos, VarintField(fieldNum, v))
    ensures ReadKey(data, pos) == Success(FieldKey(fieldNum, 0, pos + 1))
  {
    KeySingleByte(fieldNum, 0);
    AtSplit(data, pos, Key(fieldNum, 0), EncodeVarint(v));
    ReadKeyEncoded(data, pos, fieldNum, 0);
  }

  /** After its key, a field written by `VarintField` reads back as its value. */
  lemma ReadVarintBody(data: seq<byte>, pos: nat, fieldNum: nat, v: uint64)
    requires 1 <= fieldNum < 16
    requires At(data, pos, VarintField(fieldNum, v))
    ensures ReadVarint(data, pos + 1) == Success(VarintRead(v, pos + |VarintField(fieldNum, v)|))
  {
    KeySingleByte(fieldNum, 0);
    AtSplit(data, pos, Key(fieldNum, 0), EncodeVarint(v));
    ReadEncoded(data, pos + 1, v);
  }

  /** The first record of a repeated field, and the records after it. */
  lemma RepeatedParts(data: seq<byte>, pos: nat, fieldNum: nat, items: seq<Opaque>, mid: nat)
    requires |items| > 0 && At(data, pos, RepeatedField(fieldNum, items))
    requires mid == pos + |LenDelimField(fieldNum, items[0].payload)|
    ensures At(data, pos, LenDelimField(fieldNum, items[0].payload))
    ensures At(data, mid, RepeatedField(fieldNum, items[1..]))
    ensures |RepeatedField(fieldNum, items)| == |LenDelimField(fieldNum, items[0].payload)| + |RepeatedField(fieldNum, items[1..])|
  {
    AtSplit(data, pos, LenDelimField(fieldNum, items[0].payload), RepeatedField(fieldNum, items[1..]));
  }

  /** `int32(wire >> 3)`: a key whose field number does not fit in 31 bits
      wraps; the result is rejected as an illegal tag unless it is positive. */
  lemma ReadKeyFieldNumber(data: seq<byte>, pos: nat, fieldNum: nat, wireType: nat)
    requires wireType < 8 && wireType != 4 && Tag(fieldNum, wireType) < TWO64
    requires At(data, pos, Key(fieldNum, wireType))
    ensures Int32Of(fieldNum) <= 0 ==> ReadKey(data, pos) == Failure(IllegalTag(Int32Of(fieldNum)))
    ensures Int32Of(fieldNum) > 0 ==>
      ReadKey(data, pos) == Success(FieldKey(Int32Of(fieldNum), wireType, pos + |Key(fieldNum, wireType)|))
  {
    ReadEncoded(data, pos, Tag(fieldNum, wireType));
    KeyParts(data, pos, fieldNum, wireType, pos + |Key(fieldNum, wireType)|);
  }

  lemma KeyParts(data: seq<byte>, pos: nat, fieldNum: nat, wireType: nat, next: nat)
    requires wireType < 8 && wireType != 4 && Tag(fieldNum, wireType) < TWO64
    requires ReadVarint(data, pos) == Success(VarintRead(Tag(fieldNum, wireType), next))
    ensures Int32Of(fieldNum) <= 0 ==> ReadKey(data, pos) == Failure(IllegalTag(Int32Of(fieldNum)))
    ensures Int32Of(fieldNum) > 0 ==> ReadKey(data, pos) == Success(FieldKey(Int32Of(fieldNum), wireType, next))
  {
    assert Tag(fieldNum, wireType) / 8 == fieldNum && Tag(fieldNum, wireType) % 8 == wireType;
  }

  /** An end-group key is rejected before its field number is looked at. */
  lemma ReadKeyEndGroup(data: seq<byte>, pos: nat, fieldNum: nat)
    requires Tag(fieldNum, 4) < TWO64 && At(data, pos, Key(fieldNum, 4))
    ensures ReadKey(data, pos) == Failure(EndGroupForNonGroup)
  {
    ReadEncoded(data, pos, Tag(fieldNum, 4));
    assert Tag(fieldNum, 4) % 8 == 4;
  }

  /** A length from 2^63 up is negative as a Go `int`. */
  lemma ReadLenDelimNegative(data: seq<byte>, pos: nat, length: uint64)
    requires length >= TWO63 && At(data, pos, EncodeVarint(length))
    ensures ReadLenDelim(data, pos) == Failure(InvalidLength)
  {
    ReadEncoded(data, pos, length);
  }

  /** A length that runs past the end of the input, with no overflow of the
      end index. */
  lemma ReadLenDelimPastEnd(data: seq<byte>, pos: nat, length: nat)
    requires At(data, pos, EncodeVarint(length))
    requires |data| < pos + |EncodeVarint(length)| + length < TWO63
    ensures ReadLenDelim(data, pos) == Failure(UnexpectedEOF)
  {
    ReadEncoded(data, pos, length);
  }
}
