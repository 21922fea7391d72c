/**
 The five messages of the fee-grant module and their encoding: `Size`, the
 back-to-front `MarshalToSizedBuffer`, and `Marshal`, each tied to a forward
 reference encoder that lays the fields out in ascending field order.

 `MarshalToSizedBuffer` fills its buffer from the end: every write steps the
 index `i` down and puts bytes in front of what is already there. The model
 keeps only the written part `dAtA[i:]`, so each write is a prepend to the
 bytes written so far (`tail`), in the order the statements run.
 */
module Messages {
  import opened Wire
  import opened Varint
  import opened Fields

  /** A point in time where something expires: block time or block height. */
  datatype ExpiresAt = ExpiresAt(time: Opaque, height: int64)

  /** A repeating unit of clock time or of blocks. */
  datatype Duration = Duration(clock: Opaque, block: int64)

  datatype BasicFeeAllowance = BasicFeeAllowance(spendLimit: seq<Opaque>, expiration: ExpiresAt)

  datatype PeriodicFeeAllowance = PeriodicFeeAllowance(
    basic: BasicFeeAllowance,
    period: Duration,
    periodSpendLimit: seq<Opaque>,
    periodCanSpend: seq<Opaque>,
    periodReset: ExpiresAt)

  /** `Allowance` is a nullable `*Any`: `None` is Go's `nil`. */
  datatype FeeAllowanceGrant = FeeAllowanceGrant(granter: seq<byte>, grantee: seq<byte>, allowance: Option<Opaque>)

  /** Go's zero values, the start of every `Unmarshal` into a fresh value. */
  const ZeroExpiresAt := ExpiresAt(Opaque([]), 0)
  const ZeroDuration := Duration(Opaque([]), 0)
  const ZeroBasic := BasicFeeAllowance([], ZeroExpiresAt)
  const ZeroPeriodic := PeriodicFeeAllowance(ZeroBasic, ZeroDuration, [], [], ZeroExpiresAt)
  const ZeroGrant := FeeAllowanceGrant([], [], None)

  // ---------------------------------------------------------------------------
  // Reference encoders: the fields in ascending field order

  function EncodeExpiresAt(m: ExpiresAt): (r: seq<byte>)
    ensures |r| >= |m.time.payload| + (if m.height != 0 then 4 else 2)
  {
    LenDelimField(1, m.time.payload)
    + (if m.height != 0 then VarintField(2, Uint64Of(m.height)) else [])
  }

  function EncodeDuration(m: Duration): (r: seq<byte>)
    ensures |r| >= |m.clock.payload| + (if m.block != 0 then 4 else 2)
  {
    LenDelimField(1, m.clock.payload)
    + (if m.block != 0 then VarintField(2, Uint64Of(m.block)) else [])
  }

  function EncodeBasic(m: BasicFeeAllowance): (r: seq<byte>)
    ensures |r| >= 4
  {
    RepeatedField(1, m.spendLimit) + LenDelimField(2, EncodeExpiresAt(m.expiration))
  }

  function EncodePeriodic(m: PeriodicFeeAllowance): (r: seq<byte>)
    ensures |r| >= 14
  {
    LenDelimField(1, EncodeBasic(m.basic))
    + LenDelimField(2, EncodeDuration(m.period))
    + RepeatedField(3, m.periodSpendLimit)
    + RepeatedField(4, m.periodCanSpend)
    + LenDelimField(5, EncodeExpiresAt(m.periodReset))
  }

  function EncodeGrant(m: FeeAllowanceGrant): (r: seq<byte>)
    ensures |r| >= |m.granter| + |m.grantee|
  {
    (if |m.granter| > 0 then LenDelimField(1, m.granter) else [])
    + (if |m.grantee| > 0 then LenDelimField(2, m.grantee) else [])
    + (if m.allowance.Some? then LenDelimField(3, m.allowance.value.payload) else [])
  }

  /** Where each field of a grant lies in its encoding: `Granter` first when
      non-empty, `Grantee` right after it, and `Allowance` at the end. */
  lemma GrantFieldsPlaced(m: FeeAllowanceGrant)
    ensures var r := EncodeGrant(m);
      |m.granter| > 0 ==>
        |LenDelimField(1, m.granter)| <= |r| && r[..|LenDelimField(1, m.granter)|] == LenDelimField(1, m.granter)
    ensures var r := EncodeGrant(m);
      var start := if |m.granter| > 0 then |LenDelimField(1, m.granter)| else 0;
      |m.grantee| > 0 ==>
        start + |LenDelimField(2, m.grantee)| <= |r|
        && r[start..start + |LenDelimField(2, m.grantee)|] == LenDelimField(2, m.grantee)
    ensures m.allowance.Some? ==>
      var r, field := EncodeGrant(m), LenDelimField(3, m.allowance.value.payload);
      |field| <= |r| && r[|r| - |field|..] == field
  {
  }

  // ---------------------------------------------------------------------------
  // Size

  /** `1 + l + sovFeegrant(uint64(l))`: a length-delimited field with a one-byte key. */
  function FieldSize(l: nat): (r: nat)
    ensures r >= l + 2
  {
    1 + l + Sov(l)
  }

  function SizeExpiresAt(m: ExpiresAt): (r: nat)
    ensures r >= |m.time.payload| + (if m.height != 0 then 4 else 2)
  {
    FieldSize(|m.time.payload|) + (if m.height != 0 then 1 + Sov(Uint64Of(m.height)) else 0)
  }

  function SizeDuration(m: Duration): (r: nat)
    ensures r >= |m.clock.payload| + (if m.block != 0 then 4 else 2)
  {
    FieldSize(|m.clock.payload|) + (if m.block != 0 then 1 + Sov(Uint64Of(m.block)) else 0)
  }

  /** The `for _, e := range coins` loop of `Size`. */
  function SizeCoins(items: seq<Opaque>): (r: nat)
    ensures r >= 2 * |items|
  {
    if |items| == 0 then 0 else FieldSize(|items[0].payload|) + SizeCoins(items[1..])
  }

  function SizeBasic(m: BasicFeeAllowance): (r: nat)
    ensures r >= 2 * |m.spendLimit| + 4
  {
    SizeCoins(m.spendLimit) + FieldSize(SizeExpiresAt(m.expiration))
  }

  function SizePeriodic(m: PeriodicFeeAllowance): (r: nat)
    ensures r >= 2 * (|m.periodSpendLimit| + |m.periodCanSpend|) + 14
  {
    FieldSize(SizeBasic(m.basic))
    + FieldSize(SizeDuration(m.period))
    + SizeCoins(m.periodSpendLimit)
    + SizeCoins(m.periodCanSpend)
    + FieldSize(SizeExpiresAt(m.periodReset))
  }

  function SizeGrant(m: FeeAllowanceGrant): (r: nat)
    ensures r == 0 <==> m == ZeroGrant
  {
    (if |m.granter| > 0 then FieldSize(|m.granter|) else 0)
    + (if |m.grantee| > 0 then FieldSize(|m.grantee|) else 0)
    + (if m.allowance.Some? then FieldSize(|m.allowance.value.payload|) else 0)
  }

  /** A length-delimited field with a one-byte key takes `FieldSize` bytes. */
  lemma LenDelimFieldSize(fieldNum: nat, payload: seq<byte>)
    requires fieldNum < 16
    ensures |LenDelimField(fieldNum, payload)| == FieldSize(|payload|)
  {
    KeySingleByte(fieldNum, 2);
    SovIsVarintLength(|payload|);
  }

  lemma VarintFieldSize(fieldNum: nat, v: nat)
    requires fieldNum < 16
    ensures |VarintField(fieldNum, v)| == 1 + Sov(v)
  {
    KeySingleByte(fieldNum, 0);
    SovIsVarintLength(v);
  }

  lemma {:induction false} SizeCoinsExact(fieldNum: nat, items: seq<Opaque>)
    requires fieldNum < 16
    ensures SizeCoins(items) == |RepeatedField(fieldNum, items)|
    decreases |items|
  {
    if |items| > 0 {
      SizeCoinsExact(fieldNum, items[1..]);
      LenDelimFieldSize(fieldNum, items[0].payload);
    }
  }

  /** `Size` counts exactly the bytes of the encoding. */
  lemma SizeExpiresAtExact(m: ExpiresAt)
    ensures SizeExpiresAt(m) == |EncodeExpiresAt(m)|
  {
    LenDelimFieldSize(1, m.time.payload);
    VarintFieldSize(2, Uint64Of(m.height));
  }

  lemma SizeDurationExact(m: Duration)
    ensures SizeDuration(m) == |EncodeDuration(m)|
  {
    LenDelimFieldSize(1, m.clock.payload);
    VarintFieldSize(2, Uint64Of(m.block));
  }

  lemma SizeBasicExact(m: BasicFeeAllowance)
    ensures SizeBasic(m) == |EncodeBasic(m)|
  {
    SizeCoinsExact(1, m.spendLimit);
    SizeExpiresAtExact(m.expiration);
    LenDelimFieldSize(2, EncodeExpiresAt(m.expiration));
  }

  lemma SizePeriodicExact(m: PeriodicFeeAllowance)
    ensures SizePeriodic(m) == |EncodePeriodic(m)|
  {
    SizeBasicExact(m.basic);
    LenDelimFieldSize(1, EncodeBasic(m.basic));
    SizeDurationExact(m.period);
    LenDelimFieldSize(2, EncodeDuration(m.period));
    SizeCoinsExact(3, m.periodSpendLimit);
    SizeCoinsExact(4, m.periodCanSpend);
    SizeExpiresAtExact(m.periodReset);
    LenDelimFieldSize(5, EncodeExpiresAt(m.periodReset));
  }

  lemma SizeGrantExact(m: FeeAllowanceGrant)
    ensures SizeGrant(m) == |EncodeGrant(m)|
  {
    LenDelimFieldSize(1, m.granter);
    LenDelimFieldSize(2, m.grantee);
    if m.allowance.Some? {
      LenDelimFieldSize(3, m.allowance.value.payload);
    }
  }

  // ---------------------------------------------------------------------------
  // MarshalToSizedBuffer: prepending to the bytes already written

  /** A nested message or a string already in front of `tail` (written by the
      nested `MarshalToSizedBuffer` or by `copy`) gets its length and then its
      one-byte key put in front: `encodeVarintFeegrant(dAtA, i, uint64(size))`,
      `i--`, `dAtA[i] = key`. */
  function Frame(key: byte, written: seq<byte>, tail: seq<byte>): seq<byte>
    requires |tail| <= |written|
  {
    var size := |written| - |tail|;
    [key] + EncodeVarint(size) + written
  }

  lemma FrameIsField(key: byte, fieldNum: nat, payload: seq<byte>, tail: seq<byte>)
    requires 1 <= fieldNum < 16 && key == Tag(fieldNum, 2)
    ensures Frame(key, payload + tail, tail) == LenDelimField(fieldNum, payload) + tail
  {
    KeySingleByte(fieldNum, 2);
  }

  /** A string copied in front of `tail` (`i -= len(s)`, `copy(dAtA[i:], s)`),
      then framed as field `fieldNum`. */
  function PutString(key: byte, fieldNum: nat, s: seq<byte>, tail: seq<byte>): (r: seq<byte>)
    requires 1 <= fieldNum < 16 && key == Tag(fieldNum, 2)
    ensures r == LenDelimField(fieldNum, s) + tail
  {
    FrameIsField(key, fieldNum, s, tail);
    Frame(key, s + tail, tail)
  }

  /** The loop `for iNdEx := len(items) - 1; iNdEx >= 0; iNdEx--` over a
      repeated field: the last element is written first, so it ends up last. */
  function PutRecordsBackward(fieldNum: nat, items: seq<Opaque>, tail: seq<byte>): (r: seq<byte>)
    requires 1 <= fieldNum < 16
    ensures r == RepeatedField(fieldNum, items) + tail
    decreases |items|
  {
    if |items| == 0 then tail
    else
      var written := PutString(Tag(fieldNum, 2), fieldNum, items[|items| - 1].payload, tail);
      RecordsSnoc(Key(fieldNum, 2), items);
      PutRecordsBackward(fieldNum, items[..|items| - 1], written)
  }

  /** `ExpiresAt.MarshalToSizedBuffer`: `Height` only when non-zero, as its
      `uint64` cast, then `Time` always. */
  function MarshalExpiresAtTo(m: ExpiresAt, tail: seq<byte>): (r: seq<byte>)
    ensures r == EncodeExpiresAt(m) + tail
  {
    KeyBytes();
    var afterHeight := if m.height != 0 then [0x10] + EncodeVarint(Uint64Of(m.height)) + tail else tail;
    PutString(0x0a, 1, m.time.payload, afterHeight)
  }

  /** `Duration.MarshalToSizedBuffer`: `Block` only when non-zero, then `Clock` always. */
  function MarshalDurationTo(m: Duration, tail: seq<byte>): (r: seq<byte>)
    ensures r == EncodeDuration(m) + tail
  {
    KeyBytes();
    var afterBlock := if m.block != 0 then [0x10] + EncodeVarint(Uint64Of(m.block)) + tail else tail;
    PutString(0x0a, 1, m.clock.payload, afterBlock)
  }

  /** A nested message written in front of `tail` by its own
      `MarshalToSizedBuffer`, then framed as field `fieldNum`. */
  function PutNested(key: byte, fieldNum: nat, written: seq<byte>, tail: seq<byte>, ghost payload: seq<byte>): (r: seq<byte>)
    requires 1 <= fieldNum < 16 && key == Tag(fieldNum, 2) && written == payload + tail
    ensures r == LenDelimField(fieldNum, payload) + tail
  {
    FrameIsField(key, fieldNum, payload, tail);
    Frame(key, written, tail)
  }

  /** `BasicFeeAllowance.MarshalToSizedBuffer`: `Expiration` always, then the
      `SpendLimit` coins from last to first. */
  function MarshalBasicTo(m: BasicFeeAllowance, tail: seq<byte>): (r: seq<byte>)
    ensures r == EncodeBasic(m) + tail
  {
    var afterExpiration :=
      PutNested(0x12, 2, MarshalExpiresAtTo(m.expiration, tail), tail, EncodeExpiresAt(m.expiration));
    var r := PutRecordsBackward(1, m.spendLimit, afterExpiration);
    BasicLayout(m, tail);
    r
  }

  lemma BasicLayout(m: BasicFeeAllowance, tail: seq<byte>)
    ensures EncodeBasic(m) + tail
         == RepeatedField(1, m.spendLimit) + (LenDelimField(2, EncodeExpiresAt(m.expiration)) + tail)
  {
  }

  /** `PeriodicFeeAllowance.MarshalToSizedBuffer`: fields 5, 4, 3, 2, 1, in that order. */
  function MarshalPeriodicTo(m: PeriodicFeeAllowance, tail: seq<byte>): (r: seq<byte>)
    ensures r == EncodePeriodic(m) + tail
  {
    var afterReset :=
      PutNested(0x2a, 5, MarshalExpiresAtTo(m.periodReset, tail), tail, EncodeExpiresAt(m.periodReset));
    var afterCanSpend := PutRecordsBackward(4, m.periodCanSpend, afterReset);
    var afterSpendLimit := PutRecordsBackward(3, m.periodSpendLimit, afterCanSpend);
    var afterPeriod :=
      PutNested(0x12, 2, MarshalDurationTo(m.period, afterSpendLimit), afterSpendLimit, EncodeDuration(m.period));
    var r := PutNested(0x0a, 1, MarshalBasicTo(m.basic, afterPeriod), afterPeriod, EncodeBasic(m.basic));
    PeriodicLayout(m, tail);
    r
  }

  lemma PeriodicLayout(m: PeriodicFeeAllowance, tail: seq<byte>)
    ensures EncodePeriodic(m) + tail
         == LenDelimField(1, EncodeBasic(m.basic))
            + (LenDelimField(2, EncodeDuration(m.period))
               + (RepeatedField(3, m.periodSpendLimit)
                  + (RepeatedField(4, m.periodCanSpend)
                     + (LenDelimField(5, EncodeExpiresAt(m.periodReset)) + tail))))
  {
    var f1, f2 := LenDelimField(1, EncodeBasic(m.basic)), LenDelimField(2, EncodeDuration(m.period));
    var f3, f4 := RepeatedField(3, m.periodSpendLimit), RepeatedField(4, m.periodCanSpend);
    var f5 := LenDelimField(5, EncodeExpiresAt(m.periodReset));
    assert EncodePeriodic(m) == f1 + f2 + f3 + f4 + f5;
    SeqAssoc5(f1, f2, f3, f4, f5 + tail);
  }

  /** `FeeAllowanceGrant.MarshalToSizedBuffer`: `Allowance` when non-nil, then
      `Grantee` and `Granter` when non-empty. */
  function MarshalGrantTo(m: FeeAllowanceGrant, tail: seq<byte>): (r: seq<byte>)
    ensures r == EncodeGrant(m) + tail
  {
    var afterAllowance :=
      if m.allowance.Some? then PutNested(0x1a, 3, m.allowance.value.payload + tail, tail, m.allowance.value.payload)
      else tail;
    var afterGrantee := if |m.grantee| > 0 then PutString(0x12, 2, m.grantee, afterAllowance) else afterAllowance;
    var r := if |m.granter| > 0 then PutString(0x0a, 1, m.granter, afterGrantee) else afterGrantee;
    var f1 := if |m.granter| > 0 then LenDelimField(1, m.granter) else [];
    var f2 := if |m.grantee| > 0 then LenDelimField(2, m.grantee) else [];
    var f3 := if m.allowance.Some? then LenDelimField(3, m.allowance.value.payload) else [];
    assert afterAllowance == f3 + tail;
    assert afterGrantee == f2 + (f3 + tail);
    assert r == f1 + (f2 + (f3 + tail));
    GrantLayout(m, tail);
    r
  }

  lemma GrantLayout(m: FeeAllowanceGrant, tail: seq<byte>)
    ensures EncodeGrant(m) + tail
         == (if |m.granter| > 0 then LenDelimField(1, m.granter) else [])
            + ((if |m.grantee| > 0 then LenDelimField(2, m.grantee) else [])
               + ((if m.allowance.Some? then LenDelimField(3, m.allowance.value.payload) else []) + tail))
  {
  }

  // ---------------------------------------------------------------------------
  // Marshal

  /** `dAtA = make([]byte, size)`, filled from the back by `MarshalToSizedBuffer`,
      which reports `n` written bytes; `Marshal` returns `dAtA[:n]`. */
  function SizedBuffer(size: nat, written: seq<byte>): (r: seq<byte>)
    requires |written| <= size
    ensures |r| == |written|
    ensures |written| == size ==> r == written
  {
    var dAtA := seq(size - |written|, _ => 0) + written;
    dAtA[..|written|]
  }

  function MarshalExpiresAt(m: ExpiresAt): (r: seq<byte>)
    ensures r == EncodeExpiresAt(m) && |r| == SizeExpiresAt(m)
  {
    SizeExpiresAtExact(m);
    SizedBuffer(SizeExpiresAt(m), MarshalExpiresAtTo(m, []))
  }

  function MarshalDuration(m: Duration): (r: seq<byte>)
    ensures r == EncodeDuration(m) && |r| == SizeDuration(m)
  {
    SizeDurationExact(m);
    SizedBuffer(SizeDuration(m), MarshalDurationTo(m, []))
  }

  function MarshalBasic(m: BasicFeeAllowance): (r: seq<byte>)
    ensures r == EncodeBasic(m) && |r| == SizeBasic(m)
  {
    SizeBasicExact(m);
    SizedBuffer(SizeBasic(m), MarshalBasicTo(m, []))
  }

  function MarshalPeriodic(m: PeriodicFeeAllowance): (r: seq<byte>)
    ensures r == EncodePeriodic(m) && |r| == SizePeriodic(m)
  {
    SizePeriodicExact(m);
    SizedBuffer(SizePeriodic(m), MarshalPeriodicTo(m, []))
  }

  function MarshalGrant(m: FeeAllowanceGrant): (r: seq<byte>)
    ensures r == EncodeGrant(m) && |r| == SizeGrant(m)
  {
    SizeGrantExact(m);
    SizedBuffer(SizeGrant(m), MarshalGrantTo(m, []))
  }

  // ---------------------------------------------------------------------------
  // Which fields are written

  /** A zero `Height` is left out, and only then is the encoding the `Time` field alone. */
  lemma ExpiresAtOmitsZeroHeight(m: ExpiresAt)
    ensures MarshalExpiresAt(m) == LenDelimField(1, m.time.payload) <==> m.height == 0
  {
  }

  /** `Time` is written even when it is the zero value. */
  lemma ExpiresAtAlwaysWritesTime(m: ExpiresAt)
    ensures |MarshalExpiresAt(m)| >= 2 && MarshalExpiresAt(m)[0] == 0x0a
  {
    KeyBytes();
  }

  /** A zero `Block` is left out, and only then is the encoding the `Clock` field alone. */
  lemma DurationOmitsZeroBlock(m: Duration)
    ensures MarshalDuration(m) == LenDelimField(1, m.clock.payload) <==> m.block == 0
  {
  }

  /** A grant encodes to nothing exactly when it is the zero grant. */
  lemma GrantEmptyIffZero(m: FeeAllowanceGrant)
    ensures MarshalGrant(m) == [] <==> m == ZeroGrant
  {
  }

  /** The encoding starts with the `Granter` key exactly when `Granter` is non-empty. */
  lemma GrantWritesGranterIffNonEmpty(m: FeeAllowanceGrant)
    ensures (|MarshalGrant(m)| > 0 && MarshalGrant(m)[0] == 0x0a) <==> |m.granter| > 0
  {
    KeyBytes();
  }

  /** The coins of a repeated field are written in list order. */
  lemma {:induction false} CoinsInOrder(fieldNum: nat, items: seq<Opaque>, i: nat)
    requires 1 <= fieldNum < 16 && i < |items|
    ensures RepeatedField(fieldNum, items)
         == RepeatedField(fieldNum, items[..i]) + LenDelimField(fieldNum, items[i].payload)
            + RepeatedField(fieldNum, items[i + 1..])
    decreases i
  {
    if i > 0 {
      CoinsInOrder(fieldNum, items[1..], i - 1);
      assert items[1..][..i - 1] == items[..i][1..];
      assert items[1..][i - 1 + 1..] == items[i + 1..];
    }
  }
}
