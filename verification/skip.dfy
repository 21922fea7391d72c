/**
 `skipFeegrant`: how the `default:` branch of every `Unmarshal` steps over a
 field the message does not know, including nested groups.
 */
module Skipping {
  import opened Wire
  import opened Varint
  import opened Fields

  datatype SkipState = SkipState(next: nat, depth: nat)

  /** The switch on the wire type inside `skipFeegrant`'s loop: how far the
      field's body reaches and how the group depth changes. */
  function SkipBody(data: seq<byte>, pos: nat, wireType: nat, depth: nat): (r: Result<SkipState>)
    ensures r.Success? ==> r.value.next >= pos
  {
    if wireType == 0 then
      var rd :- ReadVarint(data, pos);
      Success(SkipState(rd.next, depth))
    else if wireType == 1 then
      Success(SkipState(pos + 8, depth))
    else if wireType == 2 then
      var rd :- ReadVarint(data, pos);
      if rd.value >= TWO63 then Failure(InvalidLength)
      else Success(SkipState(rd.next + rd.value, depth))
    else if wireType == 3 then
      Success(SkipState(pos, depth + 1))
    else if wireType == 4 then
      if depth == 0 then Failure(UnexpectedEndOfGroup)
      else Success(SkipState(pos, depth - 1))
    else if wireType == 5 then
      Success(SkipState(pos + 4, depth))
    else
      Failure(IllegalWireType(wireType))
  }

  /** The loop of `skipFeegrant` from index `pos` at group depth `depth`:
      returns the index just after the field once the depth is back to zero.
      Fixed-width and length-delimited bodies are not checked against the end
      of the input here; the caller does that. */
  function SkipFrom(data: seq<byte>, pos: nat, depth: nat): (r: Result<nat>)
    requires pos < |data|
    ensures r.Success? ==> r.value > pos
    decreases |data| - pos
  {
    var rd :- ReadVarint(data, pos);
    var st :- SkipBody(data, rd.next, rd.value % 8, depth);
    if st.next >= TWO63 then Failure(InvalidLength)
    else if st.depth == 0 then Success(st.next)
    else if st.next >= |data| then Failure(UnexpectedEOF)
    else SkipFrom(data, st.next, st.depth)
  }

  /** `skipFeegrant(dAtA)`: the length of the field at the front of `data`. */
  function Skip(data: seq<byte>): (r: Result<nat>)
    ensures r.Success? ==> r.value >= 1
  {
    if |data| == 0 then Failure(UnexpectedEOF) else SkipFrom(data, 0, 0)
  }

  /** The `default:` branch of every `Unmarshal`: skip the field starting at
      `preIndex`, then check the new index against the input's end. */
  function SkipUnknown(data: seq<byte>, preIndex: nat): (r: Result<nat>)
    requires preIndex < |data|
    ensures r.Success? ==> preIndex < r.value <= |data|
  {
    var skippy :- Skip(data[preIndex..]);
    if preIndex + skippy >= TWO63 then Failure(InvalidLength)
    else if preIndex + skippy > |data| then Failure(UnexpectedEOF)
    else Success(preIndex + skippy)
  }

  // ---------------------------------------------------------------------------
  // Well-formed fields a message does not know, for stating what Skip measures

  datatype Unknown =
    | VarintUnknown(fieldNum: nat, value: nat)
    | Fixed64Unknown(fieldNum: nat, bytes: seq<byte>)
    | BytesUnknown(fieldNum: nat, payload: seq<byte>)
    | GroupUnknown(fieldNum: nat, fields: seq<Unknown>)
    | Fixed32Unknown(fieldNum: nat, bytes: seq<byte>)

  function WireTypeOf(f: Unknown): nat {
    match f
    case VarintUnknown(_, _) => 0
    case Fixed64Unknown(_, _) => 1
    case BytesUnknown(_, _) => 2
    case GroupUnknown(_, _) => 3
    case Fixed32Unknown(_, _) => 5
  }

  /** A field on the wire: its key, then what follows the key. */
  function EncodeUnknown(f: Unknown): seq<byte>
    decreases f, 1
  {
    Key(f.fieldNum, WireTypeOf(f)) + UnknownBody(f)
  }

  /** What follows the key: a varint, fixed bytes, a length and payload, or a
      group's fields and its end-group key. */
  function UnknownBody(f: Unknown): seq<byte>
    decreases f, 0
  {
    match f
    case VarintUnknown(_, v) => EncodeVarint(v)
    case Fixed64Unknown(_, b) => b
    case BytesUnknown(_, p) => EncodeVarint(|p|) + p
    case GroupUnknown(n, fs) => EncodeUnknowns(fs) + Key(n, 4)
    case Fixed32Unknown(_, b) => b
  }

  function EncodeUnknowns(fs: seq<Unknown>): seq<byte>
    decreases fs
  {
    if |fs| == 0 then [] else EncodeUnknown(fs[0]) + EncodeUnknowns(fs[1..])
  }

  predicate WellFormed(f: Unknown)
    decreases f
  {
    && Tag(f.fieldNum, 7) < TWO64
    && match f
       case VarintUnknown(_, v) => v < TWO64
       case Fixed64Unknown(_, b) => |b| == 8
       case BytesUnknown(_, p) => |p| < TWO63
       case GroupUnknown(_, fs) => AllWellFormed(fs)
       case Fixed32Unknown(_, b) => |b| == 4
  }

  predicate AllWellFormed(fs: seq<Unknown>)
    decreases fs
  {
    |fs| == 0 || (WellFormed(fs[0]) && AllWellFormed(fs[1..]))
  }

  /** Reading a key inside `skipFeegrant` yields its wire type in the low three bits. */
  lemma KeyRead(data: seq<byte>, pos: nat, fieldNum: nat, wireType: nat)
    requires wireType < 8 && Tag(fieldNum, 7) < TWO64
    requires At(data, pos, Key(fieldNum, wireType))
    ensures ReadVarint(data, pos) == Success(VarintRead(Tag(fieldNum, wireType), pos + |Key(fieldNum, wireType)|))
    ensures Tag(fieldNum, wireType) % 8 == wireType
  {
    ReadEncoded(data, pos, Tag(fieldNum, wireType));
  }

  /** One pass of the loop that stays inside a group continues the loop. */
  lemma Advance(data: seq<byte>, pos: nat, depth: nat, tag: uint64, wireType: nat, q: nat, end: nat, depth': nat)
    requires pos < |data| && ReadVarint(data, pos) == Success(VarintRead(tag, q)) && tag % 8 == wireType
    requires SkipBody(data, q, wireType, depth) == Success(SkipState(end, depth'))
    requires depth' >= 1 && end < |data| < TWO63
    ensures SkipFrom(data, pos, depth) == SkipFrom(data, end, depth')
  {
  }

  /** One pass of the loop that brings the depth to zero ends it. */
  lemma Finish(data: seq<byte>, pos: nat, depth: nat, tag: uint64, wireType: nat, q: nat, end: nat)
    requires pos < |data| && ReadVarint(data, pos) == Success(VarintRead(tag, q)) && tag % 8 == wireType
    requires SkipBody(data, q, wireType, depth) == Success(SkipState(end, 0))
    requires end < TWO63
    ensures SkipFrom(data, pos, depth) == Success(end)
  {
  }

  lemma SkipBodyLength(data: seq<byte>, pos: nat, length: nat, next: nat, depth: nat)
    requires length < TWO63
    requires ReadVarint(data, pos) == Success(VarintRead(length, next))
    ensures SkipBody(data, pos, 2, depth) == Success(SkipState(next + length, depth))
  {
  }

  /** The switch steps over the body of a field that is not a group. */
  lemma ScalarBody(data: seq<byte>, q: nat, depth: nat, f: Unknown)
    requires WellFormed(f) && !f.GroupUnknown?
    requires At(data, q, UnknownBody(f))
    ensures SkipBody(data, q, WireTypeOf(f), depth) == Success(SkipState(q + |UnknownBody(f)|, depth))
  {
    match f
    case VarintUnknown(_, v) => VarintBody(data, q, depth, v);
    case Fixed64Unknown(_, _) =>
    case Fixed32Unknown(_, _) =>
    case BytesUnknown(_, p) => BytesBody(data, q, depth, p);
  }

  lemma VarintBody(data: seq<byte>, q: nat, depth: nat, v: uint64)
    requires At(data, q, EncodeVarint(v))
    ensures SkipBody(data, q, 0, depth) == Success(SkipState(q + |EncodeVarint(v)|, depth))
  {
    ReadEncoded(data, q, v);
  }

  lemma BytesBody(data: seq<byte>, q: nat, depth: nat, p: seq<byte>)
    requires |p| < TWO63 && At(data, q, EncodeVarint(|p|) + p)
    ensures SkipBody(data, q, 2, depth) == Success(SkipState(q + |EncodeVarint(|p|) + p|, depth))
  {
    AtSplit(data, q, EncodeVarint(|p|), p);
    ReadEncoded(data, q, |p|);
    SkipBodyLength(data, q, |p|, q + |EncodeVarint(|p|)|, depth);
  }

  /** Where a field lies in `data`, its key and its body lie one after the other. */
  lemma FieldParts(data: seq<byte>, pos: nat, f: Unknown)
    requires At(data, pos, EncodeUnknown(f))
    ensures At(data, pos, Key(f.fieldNum, WireTypeOf(f)))
    ensures At(data, pos + |Key(f.fieldNum, WireTypeOf(f))|, UnknownBody(f))
    ensures |EncodeUnknown(f)| == |Key(f.fieldNum, WireTypeOf(f))| + |UnknownBody(f)|
  {
    AtSplit(data, pos, Key(f.fieldNum, WireTypeOf(f)), UnknownBody(f));
  }

  /** The key of a well-formed field reads back with the field's wire type. */
  lemma FieldKeyRead(data: seq<byte>, pos: nat, f: Unknown, q: nat)
    requires WellFormed(f) && At(data, pos, EncodeUnknown(f))
    requires q == pos + |Key(f.fieldNum, WireTypeOf(f))|
    ensures ReadVarint(data, pos) == Success(VarintRead(Tag(f.fieldNum, WireTypeOf(f)), q))
    ensures Tag(f.fieldNum, WireTypeOf(f)) % 8 == WireTypeOf(f)
  {
    FieldParts(data, pos, f);
    KeyRead(data, pos, f.fieldNum, WireTypeOf(f));
  }

  /** Where a group lies in `data`, its fields and its end-group key lie
      one after the other after the opening key. */
  lemma GroupParts(data: seq<byte>, pos: nat, f: Unknown)
    requires f.GroupUnknown? && At(data, pos, EncodeUnknown(f))
    ensures At(data, pos + |Key(f.fieldNum, 3)|, EncodeUnknowns(f.fields))
    ensures At(data, pos + |Key(f.fieldNum, 3)| + |EncodeUnknowns(f.fields)|, Key(f.fieldNum, 4))
    ensures |EncodeUnknown(f)| == |Key(f.fieldNum, 3)| + |EncodeUnknowns(f.fields)| + |Key(f.fieldNum, 4)|
  {
    FieldParts(data, pos, f);
    AtSplit(data, pos + |Key(f.fieldNum, 3)|, EncodeUnknowns(f.fields), Key(f.fieldNum, 4));
  }

  /** After the key of a scalar field, the switch steps over its body. */
  lemma ScalarStep(data: seq<byte>, pos: nat, depth: nat, f: Unknown, q: nat, end: nat)
    requires WellFormed(f) && !f.GroupUnknown?
    requires At(data, pos, EncodeUnknown(f))
    requires q == pos + |Key(f.fieldNum, WireTypeOf(f))| && end == pos + |EncodeUnknown(f)|
    ensures SkipBody(data, q, WireTypeOf(f), depth) == Success(SkipState(end, depth))
  {
    FieldParts(data, pos, f);
    ScalarBody(data, q, depth, f);
  }

  /** The opening key of a group raises the depth by one. */
  lemma GroupOpen(data: seq<byte>, pos: nat, depth: nat, f: Unknown, q: nat)
    requires WellFormed(f) && f.GroupUnknown?
    requires At(data, pos, EncodeUnknown(f)) && |data| < TWO63
    requires q == pos + |Key(f.fieldNum, 3)|
    ensures q < |data| && SkipFrom(data, pos, depth) == SkipFrom(data, q, depth + 1)
  {
    FieldKeyRead(data, pos, f, q);
    GroupParts(data, pos, f);
    Advance(data, pos, depth, Tag(f.fieldNum, 3), 3, q, q, depth + 1);
  }

  /** From a group's opening key, the loop steps over the group's fields and
      arrives at its end-group key (at index `close`) one level deeper. */
  lemma {:induction false} GroupInside(data: seq<byte>, pos: nat, depth: nat, f: Unknown, close: nat)
    requires WellFormed(f) && f.GroupUnknown?
    requires At(data, pos, EncodeUnknown(f)) && |data| < TWO63
    requires close == pos + |Key(f.fieldNum, 3)| + |EncodeUnknowns(f.fields)|
    ensures close < |data| && SkipFrom(data, pos, depth) == SkipFrom(data, close, depth + 1)
    decreases |EncodeUnknown(f)|, 0
  {
    var q := pos + |Key(f.fieldNum, 3)|;
    assert q < |data| && SkipFrom(data, pos, depth) == SkipFrom(data, q, depth + 1) by {
      GroupOpen(data, pos, depth, f, q);
    }
    assert close < |data| && SkipFrom(data, q, depth + 1) == SkipFrom(data, close, depth + 1) by {
      GroupParts(data, pos, f);
      SkipInsideAll(data, q, depth + 1, f.fields, close);
    }
  }

  /** The end-group key of a group brings the depth back from `inner` to `outer`. */
  lemma GroupClose(data: seq<byte>, pos: nat, f: Unknown, close: nat, end: nat, inner: nat, outer: nat)
    requires WellFormed(f) && f.GroupUnknown?
    requires At(data, pos, EncodeUnknown(f))
    requires close == pos + |Key(f.fieldNum, 3)| + |EncodeUnknowns(f.fields)| && end == pos + |EncodeUnknown(f)|
    requires inner == outer + 1
    ensures close < |data|
    ensures ReadVarint(data, close) == Success(VarintRead(Tag(f.fieldNum, 4), end))
    ensures Tag(f.fieldNum, 4) % 8 == 4
    ensures SkipBody(data, end, 4, inner) == Success(SkipState(end, outer))
  {
    GroupParts(data, pos, f);
    KeyRead(data, close, f.fieldNum, 4);
  }

  /** Inside an open group, a well-formed field is stepped over as a whole
      and the loop goes on at the same depth. */
  lemma {:induction false} SkipInside(data: seq<byte>, pos: nat, depth: nat, f: Unknown, end: nat)
    requires WellFormed(f) && depth >= 1
    requires At(data, pos, EncodeUnknown(f)) && end == pos + |EncodeUnknown(f)| && end < |data| < TWO63
    ensures SkipFrom(data, pos, depth) == SkipFrom(data, end, depth)
    decreases |EncodeUnknown(f)|, 2
  {
    if !f.GroupUnknown? {
      ScalarInside(data, pos, depth, f, end);
    } else {
      GroupInsideWhole(data, pos, depth, f, end);
    }
  }

  /** A scalar field inside an open group is stepped over in one pass. */
  lemma ScalarInside(data: seq<byte>, pos: nat, depth: nat, f: Unknown, end: nat)
    requires WellFormed(f) && !f.GroupUnknown? && depth >= 1
    requires At(data, pos, EncodeUnknown(f)) && end == pos + |EncodeUnknown(f)| && end < |data| < TWO63
    ensures SkipFrom(data, pos, depth) == SkipFrom(data, end, depth)
  {
    var q := pos + |Key(f.fieldNum, WireTypeOf(f))|;
    FieldKeyRead(data, pos, f, q);
    ScalarStep(data, pos, depth, f, q, end);
    Advance(data, pos, depth, Tag(f.fieldNum, WireTypeOf(f)), WireTypeOf(f), q, end, depth);
  }

  /** A nested group is stepped over as a whole. */
  lemma {:induction false} GroupInsideWhole(data: seq<byte>, pos: nat, depth: nat, f: Unknown, end: nat)
    requires WellFormed(f) && f.GroupUnknown? && depth >= 1
    requires At(data, pos, EncodeUnknown(f)) && end == pos + |EncodeUnknown(f)| && end < |data| < TWO63
    ensures SkipFrom(data, pos, depth) == SkipFrom(data, end, depth)
    decreases |EncodeUnknown(f)|, 1
  {
    var close := pos + |Key(f.fieldNum, 3)| + |EncodeUnknowns(f.fields)|;
    GroupInside(data, pos, depth, f, close);
    GroupClose(data, pos, f, close, end, depth + 1, depth);
    Advance(data, close, depth + 1, Tag(f.fieldNum, 4), 4, end, end, depth);
  }

  lemma {:induction false} SkipInsideAll(data: seq<byte>, pos: nat, depth: nat, fs: seq<Unknown>, end: nat)
    requires AllWellFormed(fs) && depth >= 1
    requires At(data, pos, EncodeUnknowns(fs)) && end == pos + |EncodeUnknowns(fs)| && end < |data| < TWO63
    ensures SkipFrom(data, pos, depth) == SkipFrom(data, end, depth)
    decreases |EncodeUnknowns(fs)|, 4
  {
    if |fs| == 0 {
      assert end == pos;
    } else {
      var mid := pos + |EncodeUnknown(fs[0])|;
      UnknownsParts(data, pos, fs, mid, end);
      SkipInsideCons(data, pos, depth, fs[0], fs[1..], mid, end);
    }
  }

  lemma {:induction false} SkipInsideCons(data: seq<byte>, pos: nat, depth: nat, f: Unknown, fs: seq<Unknown>, mid: nat, end: nat)
    requires WellFormed(f) && AllWellFormed(fs) && depth >= 1
    requires At(data, pos, EncodeUnknown(f)) && mid == pos + |EncodeUnknown(f)|
    requires At(data, mid, EncodeUnknowns(fs)) && end == mid + |EncodeUnknowns(fs)| && end < |data| < TWO63
    ensures SkipFrom(data, pos, depth) == SkipFrom(data, end, depth)
    decreases |EncodeUnknown(f)| + |EncodeUnknowns(fs)|, 3
  {
    SkipInside(data, pos, depth, f, mid);
    SkipInsideAll(data, mid, depth, fs, end);
  }

  /** A non-empty run of fields is its first field followed by the rest. */
  lemma UnknownsParts(data: seq<byte>, pos: nat, fs: seq<Unknown>, mid: nat, end: nat)
    requires |fs| > 0 && AllWellFormed(fs)
    requires At(data, pos, EncodeUnknowns(fs)) && mid == pos + |EncodeUnknown(fs[0])| && end == pos + |EncodeUnknowns(fs)|
    ensures WellFormed(fs[0]) && AllWellFormed(fs[1..])
    ensures At(data, pos, EncodeUnknown(fs[0]))
    ensures At(data, mid, EncodeUnknowns(fs[1..]))
    ensures end == mid + |EncodeUnknowns(fs[1..])|
  {
    AtSplit(data, pos, EncodeUnknown(fs[0]), EncodeUnknowns(fs[1..]));
  }

  /** From the front of `data`, the loop of `skipFeegrant` ends right after
      a well-formed field. */
  lemma SkipField(data: seq<byte>, f: Unknown)
    requires WellFormed(f) && At(data, 0, EncodeUnknown(f)) && |data| < TWO63
    ensures SkipFrom(data, 0, 0) == Success(|EncodeUnknown(f)|)
  {
    var end := |EncodeUnknown(f)|;
    if !f.GroupUnknown? {
      var q := |Key(f.fieldNum, WireTypeOf(f))|;
      FieldKeyRead(data, 0, f, q);
      ScalarStep(data, 0, 0, f, q, end);
      Finish(data, 0, 0, Tag(f.fieldNum, WireTypeOf(f)), WireTypeOf(f), q, end);
    } else {
      var close := |Key(f.fieldNum, 3)| + |EncodeUnknowns(f.fields)|;
      GroupInside(data, 0, 0, f, close);
      GroupClose(data, 0, f, close, end, 1, 0);
      Finish(data, close, 1, Tag(f.fieldNum, 4), 4, end, end);
    }
  }

  /** `skipFeegrant` returns exactly the length of one well-formed field of
      wire type 0, 1, 2 or 5, or of a balanced group, whatever follows it. */
  lemma SkipWellFormed(f: Unknown, rest: seq<byte>)
    requires WellFormed(f) && |EncodeUnknown(f) + rest| < TWO63
    ensures Skip(EncodeUnknown(f) + rest) == Success(|EncodeUnknown(f)|)
  {
    AtFront(EncodeUnknown(f), rest);
    SkipField(EncodeUnknown(f) + rest, f);
  }

  /** What `skipFeegrant` does with the key at the front of `data`, by wire
      type: an end-group key with no group open and wire types 6 and 7 are
      errors; a fixed-width field is measured without looking at its body. */
  lemma SkipFirstKey(data: seq<byte>, tag: uint64, q: nat)
    requires |data| > 0 && ReadVarint(data, 0) == Success(VarintRead(tag, q))
    ensures tag % 8 == 4 ==> Skip(data) == Failure(UnexpectedEndOfGroup)
    ensures tag % 8 == 6 || tag % 8 == 7 ==> Skip(data) == Failure(IllegalWireType(tag % 8))
    ensures tag % 8 == 1 ==> Skip(data) == Success(q + 8)
    ensures tag % 8 == 5 ==> Skip(data) == Success(q + 4)
  {
  }

  /** A key read back from the front of `data`. */
  lemma FrontKey(fieldNum: nat, wireType: nat, rest: seq<byte>)
    requires wireType < 8 && Tag(fieldNum, 7) < TWO64
    ensures ReadVarint(Key(fieldNum, wireType) + rest, 0)
         == Success(VarintRead(Tag(fieldNum, wireType), |Key(fieldNum, wireType)|))
    ensures Tag(fieldNum, wireType) % 8 == wireType
  {
    AtFront(Key(fieldNum, wireType), rest);
    KeyRead(Key(fieldNum, wireType) + rest, 0, fieldNum, wireType);
  }

  /** An end-group key with no group open is rejected. */
  lemma SkipRejectsStrayEndGroup(fieldNum: nat, rest: seq<byte>)
    requires Tag(fieldNum, 7) < TWO64
    ensures Skip(Key(fieldNum, 4) + rest) == Failure(UnexpectedEndOfGroup)
  {
    FrontKey(fieldNum, 4, rest);
    SkipFirstKey(Key(fieldNum, 4) + rest, Tag(fieldNum, 4), |Key(fieldNum, 4)|);
  }

  /** Wire types 6 and 7 are rejected. */
  lemma SkipRejectsWireType(fieldNum: nat, wireType: nat, rest: seq<byte>)
    requires wireType == 6 || wireType == 7
    requires Tag(fieldNum, 7) < TWO64
    ensures Skip(Key(fieldNum, wireType) + rest) == Failure(IllegalWireType(wireType))
  {
    FrontKey(fieldNum, wireType, rest);
    SkipFirstKey(Key(fieldNum, wireType) + rest, Tag(fieldNum, wireType), |Key(fieldNum, wireType)|);
  }

  /** The caller's bound check after `skipFeegrant`. */
  lemma PastEnd(data: seq<byte>, pre: nat, n: nat)
    requires pre < |data| && Skip(data[pre..]) == Success(n) && |data| < pre + n < TWO63
    ensures SkipUnknown(data, pre) == Failure(UnexpectedEOF)
  {
  }

  /** A fixed-width field cut short is measured in full by `skipFeegrant`,
      and the caller's bound check turns it into `io.ErrUnexpectedEOF`. */
  lemma SkipFixedPastEnd(data: seq<byte>, pre: nat, fieldNum: nat, wireType: nat)
    requires wireType == 1 || wireType == 5
    requires Tag(fieldNum, 7) < TWO64 && pre < |data|
    requires pre + |Key(fieldNum, wireType)| + (if wireType == 1 then 8 else 4) < TWO63
    requires At(data, pre, Key(fieldNum, wireType))
    requires pre + |Key(fieldNum, wireType)| + (if wireType == 1 then 8 else 4) > |data|
    ensures SkipUnknown(data, pre) == Failure(UnexpectedEOF)
  {
    var d := data[pre..];
    var q := |Key(fieldNum, wireType)|;
    AtSuffix(data, pre, Key(fieldNum, wireType));
    KeyRead(d, 0, fieldNum, wireType);
    SkipFirstKey(d, Tag(fieldNum, wireType), q);
    PastEnd(data, pre, q + (if wireType == 1 then 8 else 4));
  }

  /** A length-delimited field whose length runs past the end likewise. */
  lemma SkipLengthPastEnd(data: seq<byte>, pre: nat, fieldNum: nat, length: nat)
    requires Tag(fieldNum, 7) < TWO64 && pre < |data|
    requires pre + |Key(fieldNum, 2)| + |EncodeVarint(length)| + length < TWO63
    requires At(data, pre, Key(fieldNum, 2) + EncodeVarint(length))
    requires pre + |Key(fieldNum, 2)| + |EncodeVarint(length)| + length > |data|
    ensures SkipUnknown(data, pre) == Failure(UnexpectedEOF)
  {
    var d := data[pre..];
    var q := |Key(fieldNum, 2)|;
    var end := q + |EncodeVarint(length)| + length;
    assert ReadVarint(d, 0) == Success(VarintRead(Tag(fieldNum, 2), q)) && Tag(fieldNum, 2) % 8 == 2
        && ReadVarint(d, q) == Success(VarintRead(length, q + |EncodeVarint(length)|)) by {
      AtSuffix(data, pre, Key(fieldNum, 2) + EncodeVarint(length));
      AtSplit(d, 0, Key(fieldNum, 2), EncodeVarint(length));
      KeyRead(d, 0, fieldNum, 2);
      ReadEncoded(d, q, length);
    }
    SkipBodyLength(d, q, length, q + |EncodeVarint(length)|, 0);
    Finish(d, 0, 0, Tag(fieldNum, 2), 2, q, end);
    PastEnd(data, pre, end);
  }

  /** A well-formed field a message does not know, at `pos`: its key passes
      the key tests before the switch, and the `default:` branch steps right over it. */
  lemma UnknownFieldSkipped(data: seq<byte>, pos: nat, f: Unknown, q: nat, end: nat)
    requires WellFormed(f) && 1 <= f.fieldNum < TWO31
    requires At(data, pos, EncodeUnknown(f)) && |data| < TWO63
    requires q == pos + |Key(f.fieldNum, WireTypeOf(f))| && end == pos + |EncodeUnknown(f)|
    ensures pos < |data|
    ensures ReadKey(data, pos) == Success(FieldKey(f.fieldNum, WireTypeOf(f), q))
    ensures SkipUnknown(data, pos) == Success(end)
  {
    UnknownKey(data, pos, f, q);
    UnknownSkip(data, pos, f, end);
  }

  lemma UnknownKey(data: seq<byte>, pos: nat, f: Unknown, q: nat)
    requires 1 <= f.fieldNum < TWO31 && At(data, pos, EncodeUnknown(f))
    requires q == pos + |Key(f.fieldNum, WireTypeOf(f))|
    ensures ReadKey(data, pos) == Success(FieldKey(f.fieldNum, WireTypeOf(f), q))
  {
    FieldParts(data, pos, f);
    ReadKeyEncoded(data, pos, f.fieldNum, WireTypeOf(f));
  }

  lemma UnknownSkip(data: seq<byte>, pos: nat, f: Unknown, end: nat)
    requires WellFormed(f) && At(data, pos, EncodeUnknown(f)) && |data| < TWO63
    requires end == pos + |EncodeUnknown(f)|
    ensures pos < |data|
    ensures SkipUnknown(data, pos) == Success(end)
  {
    AtSuffix(data, pos, EncodeUnknown(f));
    SkipField(data[pos..], f);
    SkippedInBounds(data, pos, |EncodeUnknown(f)|, end);
  }

  lemma SkippedInBounds(data: seq<byte>, pre: nat, n: nat, end: nat)
    requires pre < |data| && SkipFrom(data[pre..], 0, 0) == Success(n) && pre + n <= |data| < TWO63
    requires end == pre + n
    ensures SkipUnknown(data, pre) == Success(end)
  {
  }
}
