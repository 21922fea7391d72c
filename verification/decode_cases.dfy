/**
 How the five `Unmarshal` methods treat particular inputs: the errors raised
 on a bad key, a wrong wire type, a bad length or a truncated varint; fields
 the message does not know; and repeated occurrences of a singular field
 (the last one wins for scalars, strings and timestamps; `Any` values merge).
 */
module DecodeCases {
  import opened Wire
  import opened Varint
  import opened Fields
  import opened Skipping
  import opened Messages
  import opened Unmarshal
  import opened RoundTrip

  // ---------------------------------------------------------------------------
  // One loop iteration, from what the key and body readers return

  /** A key that cannot be read, or is rejected, ends decoding with that error. */
  lemma KeyFailureStops(data: seq<byte>, pos: nat, e: ExpiresAt, d: Duration, b: BasicFeeAllowance,
                        p: PeriodicFeeAllowance, g: FeeAllowanceGrant)
    requires pos < |data| && ReadKey(data, pos).Failure?
    ensures MergeExpiresAt(data, pos, e) == Failure(ReadKey(data, pos).error)
    ensures MergeDuration(data, pos, d) == Failure(ReadKey(data, pos).error)
    ensures MergeBasic(data, pos, b) == Failure(ReadKey(data, pos).error)
    ensures MergePeriodic(data, pos, p) == Failure(ReadKey(data, pos).error)
    ensures MergeGrant(data, pos, g) == Failure(ReadKey(data, pos).error)
  {
  }

  /** A known field number with a wire type other than the field's own. */
  lemma WrongWireTypeStep(data: seq<byte>, pos: nat, fieldNum: nat, wireType: nat, q: nat,
                          e: ExpiresAt, d: Duration, b: BasicFeeAllowance, p: PeriodicFeeAllowance, g: FeeAllowanceGrant)
    requires pos < |data| && ReadKey(data, pos) == Success(FieldKey(fieldNum, wireType, q))
    ensures (fieldNum == 1 && wireType != 2) || (fieldNum == 2 && wireType != 0) ==>
      MergeExpiresAt(data, pos, e) == Failure(WrongWireType(fieldNum, wireType))
    ensures (fieldNum == 1 && wireType != 2) || (fieldNum == 2 && wireType != 0) ==>
      MergeDuration(data, pos, d) == Failure(WrongWireType(fieldNum, wireType))
    ensures 1 <= fieldNum <= 2 && wireType != 2 ==> MergeBasic(data, pos, b) == Failure(WrongWireType(fieldNum, wireType))
    ensures 1 <= fieldNum <= 5 && wireType != 2 ==> MergePeriodic(data, pos, p) == Failure(WrongWireType(fieldNum, wireType))
    ensures 1 <= fieldNum <= 3 && wireType != 2 ==> MergeGrant(data, pos, g) == Failure(WrongWireType(fieldNum, wireType))
  {
  }

  /** Field 1 of every message is length-delimited; a bad length stops decoding. */
  lemma FirstFieldLengthStep(data: seq<byte>, pos: nat, q: nat,
                             e: ExpiresAt, d: Duration, b: BasicFeeAllowance, p: PeriodicFeeAllowance, g: FeeAllowanceGrant)
    requires pos < |data| && ReadKey(data, pos) == Success(FieldKey(1, 2, q))
    requires ReadLenDelim(data, q).Failure?
    ensures MergeExpiresAt(data, pos, e) == Failure(ReadLenDelim(data, q).error)
    ensures MergeDuration(data, pos, d) == Failure(ReadLenDelim(data, q).error)
    ensures MergeBasic(data, pos, b) == Failure(ReadLenDelim(data, q).error)
    ensures MergePeriodic(data, pos, p) == Failure(ReadLenDelim(data, q).error)
    ensures MergeGrant(data, pos, g) == Failure(ReadLenDelim(data, q).error)
  {
  }

  /** A field number the message does not know is stepped over by `skipFeegrant`. */
  lemma UnknownStep(data: seq<byte>, pos: nat, fieldNum: int, wireType: nat, q: nat, next: nat,
                    e: ExpiresAt, d: Duration, b: BasicFeeAllowance, p: PeriodicFeeAllowance, g: FeeAllowanceGrant)
    requires pos < |data| && ReadKey(data, pos) == Success(FieldKey(fieldNum, wireType, q))
    requires SkipUnknown(data, pos) == Success(next)
    ensures fieldNum >= 3 ==> MergeExpiresAt(data, pos, e) == MergeExpiresAt(data, next, e)
    ensures fieldNum >= 3 ==> MergeDuration(data, pos, d) == MergeDuration(data, next, d)
    ensures fieldNum >= 3 ==> MergeBasic(data, pos, b) == MergeBasic(data, next, b)
    ensures fieldNum >= 6 ==> MergePeriodic(data, pos, p) == MergePeriodic(data, next, p)
    ensures fieldNum >= 4 ==> MergeGrant(data, pos, g) == MergeGrant(data, next, g)
  {
  }

  /** The varint of `Height` or `Block` cannot be read. */
  lemma VarintBodyStep(data: seq<byte>, pos: nat, q: nat, e: ExpiresAt, d: Duration)
    requires pos < |data| && ReadKey(data, pos) == Success(FieldKey(2, 0, q))
    requires ReadVarint(data, q).Failure?
    ensures MergeExpiresAt(data, pos, e) == Failure(ReadVarint(data, q).error)
    ensures MergeDuration(data, pos, d) == Failure(ReadVarint(data, q).error)
  {
  }

  // ---------------------------------------------------------------------------
  // Errors, for inputs built from keys and varints

  /** A key with wire type 4 (end group) is rejected before its field number
      is looked at, whatever the field number. */
  lemma EndGroupRejected(data: seq<byte>, pos: nat, fieldNum: nat,
                         e: ExpiresAt, d: Duration, b: BasicFeeAllowance, p: PeriodicFeeAllowance, g: FeeAllowanceGrant)
    requires Tag(fieldNum, 4) < TWO64 && At(data, pos, Key(fieldNum, 4))
    ensures MergeExpiresAt(data, pos, e) == Failure(EndGroupForNonGroup)
    ensures MergeDuration(data, pos, d) == Failure(EndGroupForNonGroup)
    ensures MergeBasic(data, pos, b) == Failure(EndGroupForNonGroup)
    ensures MergePeriodic(data, pos, p) == Failure(EndGroupForNonGroup)
    ensures MergeGrant(data, pos, g) == Failure(EndGroupForNonGroup)
  {
    ReadKeyEndGroup(data, pos, fieldNum);
    KeyFailureStops(data, pos, e, d, b, p, g);
  }

  /** A field number that is not positive once cut to an `int32` (zero, or
      2^31 up to 2^32 and their wrap-arounds) is an illegal tag. */
  lemma IllegalTagRejected(data: seq<byte>, pos: nat, fieldNum: nat, wireType: nat,
                           e: ExpiresAt, d: Duration, b: BasicFeeAllowance, p: PeriodicFeeAllowance, g: FeeAllowanceGrant)
    requires wireType < 8 && wireType != 4 && Tag(fieldNum, wireType) < TWO64
    requires Int32Of(fieldNum) <= 0 && At(data, pos, Key(fieldNum, wireType))
    ensures MergeExpiresAt(data, pos, e) == Failure(IllegalTag(Int32Of(fieldNum)))
    ensures MergeDuration(data, pos, d) == Failure(IllegalTag(Int32Of(fieldNum)))
    ensures MergeBasic(data, pos, b) == Failure(IllegalTag(Int32Of(fieldNum)))
    ensures MergePeriodic(data, pos, p) == Failure(IllegalTag(Int32Of(fieldNum)))
    ensures MergeGrant(data, pos, g) == Failure(IllegalTag(Int32Of(fieldNum)))
  {
    ReadKeyFieldNumber(data, pos, fieldNum, wireType);
    KeyFailureStops(data, pos, e, d, b, p, g);
  }

  /** A key varint of ten or more continuation bytes overflows. */
  lemma KeyOverflowRejected(data: seq<byte>, pos: nat,
                            e: ExpiresAt, d: Duration, b: BasicFeeAllowance, p: PeriodicFeeAllowance, g: FeeAllowanceGrant)
    requires pos + 10 <= |data|
    requires forall j :: pos <= j < pos + 10 ==> data[j] >= 128
    ensures MergeExpiresAt(data, pos, e) == Failure(IntOverflow)
    ensures MergeDuration(data, pos, d) == Failure(IntOverflow)
    ensures MergeBasic(data, pos, b) == Failure(IntOverflow)
    ensures MergePeriodic(data, pos, p) == Failure(IntOverflow)
    ensures MergeGrant(data, pos, g) == Failure(IntOverflow)
  {
    ReadOverflow(data, pos);
    KeyFailureStops(data, pos, e, d, b, p, g);
  }

  /** Input that ends inside a key varint is truncated. */
  lemma KeyTruncatedRejected(data: seq<byte>, pos: nat,
                             e: ExpiresAt, d: Duration, b: BasicFeeAllowance, p: PeriodicFeeAllowance, g: FeeAllowanceGrant)
    requires pos < |data| < pos + 10
    requires forall j :: pos <= j < |data| ==> data[j] >= 128
    ensures MergeExpiresAt(data, pos, e) == Failure(UnexpectedEOF)
    ensures MergeDuration(data, pos, d) == Failure(UnexpectedEOF)
    ensures MergeBasic(data, pos, b) == Failure(UnexpectedEOF)
    ensures MergePeriodic(data, pos, p) == Failure(UnexpectedEOF)
    ensures MergeGrant(data, pos, g) == Failure(UnexpectedEOF)
  {
    ReadTruncated(data, pos);
    KeyFailureStops(data, pos, e, d, b, p, g);
  }

  /** A known field with a wire type other than its own is rejected with the
      field number and the wire type found. */
  lemma WrongWireTypeRejected(data: seq<byte>, pos: nat, fieldNum: nat, wireType: nat,
                              e: ExpiresAt, d: Duration, b: BasicFeeAllowance, p: PeriodicFeeAllowance, g: FeeAllowanceGrant)
    requires wireType < 8 && wireType != 4 && 1 <= fieldNum < TWO31
    requires At(data, pos, Key(fieldNum, wireType))
    ensures (fieldNum == 1 && wireType != 2) || (fieldNum == 2 && wireType != 0) ==>
      MergeExpiresAt(data, pos, e) == Failure(WrongWireType(fieldNum, wireType))
    ensures (fieldNum == 1 && wireType != 2) || (fieldNum == 2 && wireType != 0) ==>
      MergeDuration(data, pos, d) == Failure(WrongWireType(fieldNum, wireType))
    ensures 1 <= fieldNum <= 2 && wireType != 2 ==> MergeBasic(data, pos, b) == Failure(WrongWireType(fieldNum, wireType))
    ensures 1 <= fieldNum <= 5 && wireType != 2 ==> MergePeriodic(data, pos, p) == Failure(WrongWireType(fieldNum, wireType))
    ensures 1 <= fieldNum <= 3 && wireType != 2 ==> MergeGrant(data, pos, g) == Failure(WrongWireType(fieldNum, wireType))
  {
    ReadKeyEncoded(data, pos, fieldNum, wireType);
    WrongWireTypeStep(data, pos, fieldNum, wireType, pos + |Key(fieldNum, wireType)|, e, d, b, p, g);
  }

  /** A length of 2^63 or more for field 1 is negative as a Go `int`. */
  lemma NegativeLengthRejected(data: seq<byte>, pos: nat, length: uint64,
                               e: ExpiresAt, d: Duration, b: BasicFeeAllowance, p: PeriodicFeeAllowance, g: FeeAllowanceGrant)
    requires length >= TWO63 && At(data, pos, Key(1, 2) + EncodeVarint(length))
    ensures MergeExpiresAt(data, pos, e) == Failure(InvalidLength)
    ensures MergeDuration(data, pos, d) == Failure(InvalidLength)
    ensures MergeBasic(data, pos, b) == Failure(InvalidLength)
    ensures MergePeriodic(data, pos, p) == Failure(InvalidLength)
    ensures MergeGrant(data, pos, g) == Failure(InvalidLength)
  {
    KeyBytes();
    AtSplitAt(data, pos, Key(1, 2), EncodeVarint(length), pos + 1);
    ReadKeyEncoded(data, pos, 1, 2);
    ReadLenDelimNegative(data, pos + 1, length);
    FirstFieldLengthStep(data, pos, pos + 1, e, d, b, p, g);
  }

  /** A field-1 payload that would run past the end of the input is truncated. */
  lemma LengthPastEndRejected(data: seq<byte>, pos: nat, length: nat,
                              e: ExpiresAt, d: Duration, b: BasicFeeAllowance, p: PeriodicFeeAllowance, g: FeeAllowanceGrant)
    requires At(data, pos, Key(1, 2) + EncodeVarint(length))
    requires |data| < pos + 1 + |EncodeVarint(length)| + length < TWO63
    ensures MergeExpiresAt(data, pos, e) == Failure(UnexpectedEOF)
    ensures MergeDuration(data, pos, d) == Failure(UnexpectedEOF)
    ensures MergeBasic(data, pos, b) == Failure(UnexpectedEOF)
    ensures MergePeriodic(data, pos, p) == Failure(UnexpectedEOF)
    ensures MergeGrant(data, pos, g) == Failure(UnexpectedEOF)
  {
    KeyBytes();
    AtSplitAt(data, pos, Key(1, 2), EncodeVarint(length), pos + 1);
    ReadKeyEncoded(data, pos, 1, 2);
    ReadLenDelimPastEnd(data, pos + 1, length);
    FirstFieldLengthStep(data, pos, pos + 1, e, d, b, p, g);
  }

  /** A `Height` or `Block` varint of ten continuation bytes overflows. */
  lemma HeightOverflowRejected(data: seq<byte>, pos: nat, e: ExpiresAt, d: Duration)
    requires At(data, pos, Key(2, 0)) && pos + 11 <= |data|
    requires forall j :: pos + 1 <= j < pos + 11 ==> data[j] >= 128
    ensures MergeExpiresAt(data, pos, e) == Failure(IntOverflow)
    ensures MergeDuration(data, pos, d) == Failure(IntOverflow)
  {
    KeyBytes();
    ReadKeyEncoded(data, pos, 2, 0);
    ReadOverflow(data, pos + 1);
    VarintBodyStep(data, pos, pos + 1, e, d);
  }

  // ---------------------------------------------------------------------------
  // Fields the message does not know

  /** A well-formed field with a number the message does not define (a
      varint, fixed-width, length-delimited or group field) is skipped
      without changing the value decoded so far. */
  lemma UnknownFieldIgnored(data: seq<byte>, pos: nat, f: Unknown, end: nat,
                            e: ExpiresAt, d: Duration, b: BasicFeeAllowance, p: PeriodicFeeAllowance, g: FeeAllowanceGrant)
    requires WellFormed(f) && 1 <= f.fieldNum < TWO31
    requires At(data, pos, EncodeUnknown(f)) && |data| < TWO63 && end == pos + |EncodeUnknown(f)|
    ensures f.fieldNum >= 3 ==> MergeExpiresAt(data, pos, e) == MergeExpiresAt(data, end, e)
    ensures f.fieldNum >= 3 ==> MergeDuration(data, pos, d) == MergeDuration(data, end, d)
    ensures f.fieldNum >= 3 ==> MergeBasic(data, pos, b) == MergeBasic(data, end, b)
    ensures f.fieldNum >= 6 ==> MergePeriodic(data, pos, p) == MergePeriodic(data, end, p)
    ensures f.fieldNum >= 4 ==> MergeGrant(data, pos, g) == MergeGrant(data, end, g)
  {
    var q := pos + |Key(f.fieldNum, WireTypeOf(f))|;
    UnknownFieldSkipped(data, pos, f, q, end);
    UnknownStep(data, pos, f.fieldNum, WireTypeOf(f), q, end, e, d, b, p, g);
  }

  // ---------------------------------------------------------------------------
  // A singular field that occurs twice

  /** `m.Height = 0` before each read: a second `Height` replaces the first,
      negative values included. */
  lemma HeightLastWins(data: seq<byte>, pos: nat, m: ExpiresAt, v1: uint64, v2: uint64, mid: nat, end: nat)
    requires At(data, pos, VarintField(2, v1) + VarintField(2, v2))
    requires mid == pos + |VarintField(2, v1)| && end == mid + |VarintField(2, v2)|
    ensures MergeExpiresAt(data, pos, m) == MergeExpiresAt(data, end, m.(height := Int64Of(v2)))
  {
    AtSplitAt(data, pos, VarintField(2, v1), VarintField(2, v2), mid);
    ExpiresAtHeightField(data, pos, m, v1, mid);
    ExpiresAtHeightField(data, mid, m.(height := Int64Of(v1)), v2, end);
  }

  lemma BlockLastWins(data: seq<byte>, pos: nat, m: Duration, v1: uint64, v2: uint64, mid: nat, end: nat)
    requires At(data, pos, VarintField(2, v1) + VarintField(2, v2))
    requires mid == pos + |VarintField(2, v1)| && end == mid + |VarintField(2, v2)|
    ensures MergeDuration(data, pos, m) == MergeDuration(data, end, m.(block := Int64Of(v2)))
  {
    AtSplitAt(data, pos, VarintField(2, v1), VarintField(2, v2), mid);
    DurationBlockField(data, pos, m, v1, mid);
    DurationBlockField(data, mid, m.(block := Int64Of(v1)), v2, end);
  }

  /** `StdTimeUnmarshal` replaces the time rather than merging into it. */
  lemma TimeLastWins(data: seq<byte>, pos: nat, m: ExpiresAt, p1: seq<byte>, p2: seq<byte>, mid: nat, end: nat)
    requires |data| < TWO63 && At(data, pos, LenDelimField(1, p1) + LenDelimField(1, p2))
    requires mid == pos + |LenDelimField(1, p1)| && end == mid + |LenDelimField(1, p2)|
    ensures MergeExpiresAt(data, pos, m) == MergeExpiresAt(data, end, m.(time := Opaque(p2)))
  {
    AtSplitAt(data, pos, LenDelimField(1, p1), LenDelimField(1, p2), mid);
    ExpiresAtTimeField(data, pos, m, p1, mid);
    ExpiresAtTimeField(data, mid, m.(time := Opaque(p1)), p2, end);
  }

  /** `m.Granter = string(...)` assigns: a second granter replaces the first. */
  lemma GranterLastWins(data: seq<byte>, pos: nat, m: FeeAllowanceGrant, p1: seq<byte>, p2: seq<byte>, mid: nat, end: nat)
    requires |data| < TWO63 && At(data, pos, LenDelimField(1, p1) + LenDelimField(1, p2))
    requires mid == pos + |LenDelimField(1, p1)| && end == mid + |LenDelimField(1, p2)|
    ensures MergeGrant(data, pos, m) == MergeGrant(data, end, m.(granter := p2))
  {
    AtSplitAt(data, pos, LenDelimField(1, p1), LenDelimField(1, p2), mid);
    GrantField(data, pos, m, 1, p1, mid);
    GrantField(data, mid, m.(granter := p1), 1, p2, end);
  }

  /** A second `Allowance` is unmarshalled into the first, which for an
      `Any` amounts to reading the two encodings one after the other. */
  lemma AllowancesMerge(data: seq<byte>, pos: nat, m: FeeAllowanceGrant, a1: seq<byte>, a2: seq<byte>, mid: nat, end: nat)
    requires |data| < TWO63 && At(data, pos, LenDelimField(3, a1) + LenDelimField(3, a2))
    requires mid == pos + |LenDelimField(3, a1)| && end == mid + |LenDelimField(3, a2)|
    ensures var prior := if m.allowance.Some? then m.allowance.value.payload else [];
      MergeGrant(data, pos, m) == MergeGrant(data, end, m.(allowance := Some(Opaque(prior + a1 + a2))))
  {
    AtSplitAt(data, pos, LenDelimField(3, a1), LenDelimField(3, a2), mid);
    var m1 := m.(allowance := Some(MergeAny(m.allowance, a1)));
    GrantField(data, pos, m, 3, a1, mid);
    GrantField(data, mid, m1, 3, a2, end);
    MergeAnyTwice(m.allowance, a1, a2);
  }

  /** Merging two encodings into an `Any` one after the other appends both. */
  lemma MergeAnyTwice(a: Option<Opaque>, a1: seq<byte>, a2: seq<byte>)
    ensures var prior := if a.Some? then a.value.payload else [];
      MergeAny(Some(MergeAny(a, a1)), a2) == Opaque(prior + a1 + a2)
  {
  }
}
