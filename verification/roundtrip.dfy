/**
 Decoding inverts encoding. Reading the encoding of `x` into a value `m`
 gives `m` overlaid with `x` as protobuf merging defines it, and into a fresh
 value gives `x` itself, so `Unmarshal(Marshal(x)) == x` for all five messages.
 */
module RoundTrip {
  import opened Wire
  import opened Varint
  import opened Fields
  import opened Messages
  import opened Unmarshal

  // ---------------------------------------------------------------------------
  // Merging, field by field: a scalar or a string on the wire (non-zero,
  // non-empty) overwrites, a repeated field appends, an embedded message merges

  function OverlayExpiresAt(m: ExpiresAt, x: ExpiresAt): ExpiresAt {
    ExpiresAt(x.time, if x.height != 0 then x.height else m.height)
  }

  function OverlayDuration(m: Duration, x: Duration): Duration {
    Duration(x.clock, if x.block != 0 then x.block else m.block)
  }

  function OverlayBasic(m: BasicFeeAllowance, x: BasicFeeAllowance): BasicFeeAllowance {
    BasicFeeAllowance(m.spendLimit + x.spendLimit, OverlayExpiresAt(m.expiration, x.expiration))
  }

  function OverlayPeriodic(m: PeriodicFeeAllowance, x: PeriodicFeeAllowance): PeriodicFeeAllowance {
    PeriodicFeeAllowance(
      OverlayBasic(m.basic, x.basic),
      OverlayDuration(m.period, x.period),
      m.periodSpendLimit + x.periodSpendLimit,
      m.periodCanSpend + x.periodCanSpend,
      OverlayExpiresAt(m.periodReset, x.periodReset))
  }

  function OverlayGrant(m: FeeAllowanceGrant, x: FeeAllowanceGrant): FeeAllowanceGrant {
    FeeAllowanceGrant(
      if |x.granter| > 0 then x.granter else m.granter,
      if |x.grantee| > 0 then x.grantee else m.grantee,
      if x.allowance.Some? then Some(MergeAny(m.allowance, x.allowance.value.payload)) else m.allowance)
  }

  /** Overlaying onto a freshly zeroed message yields the overlaid message. */
  lemma OverlayBasicZero(x: BasicFeeAllowance)
    ensures OverlayBasic(ZeroBasic, x) == x
  {
    assert [] + x.spendLimit == x.spendLimit;
  }

  lemma OverlayPeriodicZero(x: PeriodicFeeAllowance)
    ensures OverlayPeriodic(ZeroPeriodic, x) == x
  {
    OverlayBasicZero(x.basic);
    assert [] + x.periodSpendLimit == x.periodSpendLimit;
    assert [] + x.periodCanSpend == x.periodCanSpend;
  }

  lemma OverlayGrantZero(x: FeeAllowanceGrant)
    ensures OverlayGrant(ZeroGrant, x) == x
  {
    if x.allowance.Some? {
      assert [] + x.allowance.value.payload == x.allowance.value.payload;
    }
  }

  // ---------------------------------------------------------------------------
  // One field at a time, for a field as the reference encoder writes it

  lemma ExpiresAtTimeField(data: seq<byte>, pos: nat, m: ExpiresAt, p: seq<byte>, end: nat)
    requires |data| < TWO63 && At(data, pos, LenDelimField(1, p)) && end == pos + |LenDelimField(1, p)|
    ensures MergeExpiresAt(data, pos, m) == MergeExpiresAt(data, end, m.(time := Opaque(p)))
  {
    ReadLenDelimKey(data, pos, 1, p);
    ReadLenDelimBody(data, pos, 1, p);
    ExpiresAtTimeStep(data, pos, m, pos + 1, p, end);
  }

  lemma ExpiresAtHeightField(data: seq<byte>, pos: nat, m: ExpiresAt, v: uint64, end: nat)
    requires At(data, pos, VarintField(2, v)) && end == pos + |VarintField(2, v)|
    ensures MergeExpiresAt(data, pos, m) == MergeExpiresAt(data, end, m.(height := Int64Of(v)))
  {
    ReadVarintKey(data, pos, 2, v);
    ReadVarintBody(data, pos, 2, v);
    ExpiresAtHeightStep(data, pos, m, pos + 1, v, end);
  }

  lemma DurationClockField(data: seq<byte>, pos: nat, m: Duration, p: seq<byte>, end: nat)
    requires |data| < TWO63 && At(data, pos, LenDelimField(1, p)) && end == pos + |LenDelimField(1, p)|
    ensures MergeDuration(data, pos, m) == MergeDuration(data, end, m.(clock := Opaque(p)))
  {
    ReadLenDelimKey(data, pos, 1, p);
    ReadLenDelimBody(data, pos, 1, p);
    DurationClockStep(data, pos, m, pos + 1, p, end);
  }

  lemma DurationBlockField(data: seq<byte>, pos: nat, m: Duration, v: uint64, end: nat)
    requires At(data, pos, VarintField(2, v)) && end == pos + |VarintField(2, v)|
    ensures MergeDuration(data, pos, m) == MergeDuration(data, end, m.(block := Int64Of(v)))
  {
    ReadVarintKey(data, pos, 2, v);
    ReadVarintBody(data, pos, 2, v);
    DurationBlockStep(data, pos, m, pos + 1, v, end);
  }

  lemma BasicCoinField(data: seq<byte>, pos: nat, m: BasicFeeAllowance, p: seq<byte>, end: nat)
    requires |data| < TWO63 && At(data, pos, LenDelimField(1, p)) && end == pos + |LenDelimField(1, p)|
    ensures MergeBasic(data, pos, m) == MergeBasic(data, end, m.(spendLimit := m.spendLimit + [Opaque(p)]))
  {
    ReadLenDelimKey(data, pos, 1, p);
    ReadLenDelimBody(data, pos, 1, p);
    BasicCoinStep(data, pos, m, pos + 1, p, end);
  }

  /** An encoded `Expiration` record is unmarshalled into the existing expiration. */
  lemma BasicExpirationField(data: seq<byte>, pos: nat, m: BasicFeeAllowance, e: ExpiresAt, end: nat)
    requires |data| < TWO63 && At(data, pos, LenDelimField(2, EncodeExpiresAt(e)))
    requires end == pos + |LenDelimField(2, EncodeExpiresAt(e))|
    ensures MergeBasic(data, pos, m) == MergeBasic(data, end, m.(expiration := OverlayExpiresAt(m.expiration, e)))
  {
    var p := EncodeExpiresAt(e);
    assert |LenDelimField(2, p)| >= |p|;
    ExpiresAtMerge(e, m.expiration);
    BasicExpirationRead(data, pos, m, p, end, OverlayExpiresAt(m.expiration, e));
  }

  lemma BasicExpirationRead(data: seq<byte>, pos: nat, m: BasicFeeAllowance, p: seq<byte>, end: nat, merged: ExpiresAt)
    requires |data| < TWO63 && At(data, pos, LenDelimField(2, p)) && end == pos + |LenDelimField(2, p)|
    requires MergeExpiresAt(p, 0, m.expiration) == Success(merged)
    ensures MergeBasic(data, pos, m) == MergeBasic(data, end, m.(expiration := merged))
  {
    ReadLenDelimField(data, pos, 2, p, end);
    BasicExpirationStep(data, pos, m, pos + 1, p, end, merged);
  }

  /** Each coin record appends one coin, in the order of the records. */
  lemma {:induction false} BasicCoins(data: seq<byte>, pos: nat, m: BasicFeeAllowance, items: seq<Opaque>, end: nat)
    requires |data| < TWO63 && At(data, pos, RepeatedField(1, items)) && end == pos + |RepeatedField(1, items)|
    ensures MergeBasic(data, pos, m) == MergeBasic(data, end, m.(spendLimit := m.spendLimit + items))
    decreases |items|, 1
  {
    if |items| == 0 {
      assert m.spendLimit + items == m.spendLimit;
    } else {
      var mid := pos + |LenDelimField(1, items[0].payload)|;
      RepeatedParts(data, pos, 1, items, mid);
      BasicCoinsCons(data, pos, m, items, mid, end);
    }
  }

  lemma {:induction false} BasicCoinsCons(data: seq<byte>, pos: nat, m: BasicFeeAllowance, items: seq<Opaque>, mid: nat, end: nat)
    requires |items| > 0 && |data| < TWO63
    requires At(data, pos, LenDelimField(1, items[0].payload)) && mid == pos + |LenDelimField(1, items[0].payload)|
    requires At(data, mid, RepeatedField(1, items[1..])) && end == mid + |RepeatedField(1, items[1..])|
    ensures MergeBasic(data, pos, m) == MergeBasic(data, end, m.(spendLimit := m.spendLimit + items))
    decreases |items|, 0
  {
    var m1 := m.(spendLimit := m.spendLimit + [Opaque(items[0].payload)]);
    var m2 := m1.(spendLimit := m1.spendLimit + items[1..]);
    BasicCoinField(data, pos, m, items[0].payload, mid);
    BasicCoins(data, mid, m1, items[1..], end);
    assert m2 == m.(spendLimit := m.spendLimit + items) by {
      assert Opaque(items[0].payload) == items[0];
      AppendCons(m.spendLimit, items);
    }
  }

  lemma PeriodicCoinField(data: seq<byte>, pos: nat, m: PeriodicFeeAllowance, fieldNum: nat, p: seq<byte>, end: nat)
    requires fieldNum == 3 || fieldNum == 4
    requires |data| < TWO63 && At(data, pos, LenDelimField(fieldNum, p)) && end == pos + |LenDelimField(fieldNum, p)|
    ensures MergePeriodic(data, pos, m) == MergePeriodic(data, end, WithCoins(m, fieldNum, [Opaque(p)]))
  {
    ReadLenDelimKey(data, pos, fieldNum, p);
    ReadLenDelimBody(data, pos, fieldNum, p);
    PeriodicCoinStep(data, pos, m, fieldNum, pos + 1, p, end);
  }

  lemma {:induction false} PeriodicCoins(data: seq<byte>, pos: nat, m: PeriodicFeeAllowance, fieldNum: nat, items: seq<Opaque>, end: nat)
    requires fieldNum == 3 || fieldNum == 4
    requires |data| < TWO63 && At(data, pos, RepeatedField(fieldNum, items))
    requires end == pos + |RepeatedField(fieldNum, items)|
    ensures MergePeriodic(data, pos, m) == MergePeriodic(data, end, WithCoins(m, fieldNum, items))
    decreases |items|, 1
  {
    if |items| == 0 {
      assert WithCoins(m, fieldNum, items) == m;
    } else {
      var mid := pos + |LenDelimField(fieldNum, items[0].payload)|;
      RepeatedParts(data, pos, fieldNum, items, mid);
      PeriodicCoinsCons(data, pos, m, fieldNum, items, mid, end);
    }
  }

  lemma {:induction false} PeriodicCoinsCons(data: seq<byte>, pos: nat, m: PeriodicFeeAllowance, fieldNum: nat, items: seq<Opaque>, mid: nat, end: nat)
    requires fieldNum == 3 || fieldNum == 4
    requires |items| > 0 && |data| < TWO63
    requires At(data, pos, LenDelimField(fieldNum, items[0].payload)) && mid == pos + |LenDelimField(fieldNum, items[0].payload)|
    requires At(data, mid, RepeatedField(fieldNum, items[1..])) && end == mid + |RepeatedField(fieldNum, items[1..])|
    ensures MergePeriodic(data, pos, m) == MergePeriodic(data, end, WithCoins(m, fieldNum, items))
    decreases |items|, 0
  {
    var m1 := WithCoins(m, fieldNum, [Opaque(items[0].payload)]);
    PeriodicCoinField(data, pos, m, fieldNum, items[0].payload, mid);
    PeriodicCoins(data, mid, m1, fieldNum, items[1..], end);
    assert WithCoins(m1, fieldNum, items[1..]) == WithCoins(m, fieldNum, items) by {
      assert Opaque(items[0].payload) == items[0];
      WithCoinsTwice(m, fieldNum, [items[0]], items[1..]);
      HeadTail(items);
    }
  }

  lemma WithCoinsTwice(m: PeriodicFeeAllowance, fieldNum: nat, a: seq<Opaque>, b: seq<Opaque>)
    ensures WithCoins(WithCoins(m, fieldNum, a), fieldNum, b) == WithCoins(m, fieldNum, a + b)
  {
  }

  /** An encoded `PeriodReset` record is unmarshalled into the existing reset time. */
  lemma PeriodicResetField(data: seq<byte>, pos: nat, m: PeriodicFeeAllowance, e: ExpiresAt, end: nat)
    requires |data| < TWO63 && At(data, pos, LenDelimField(5, EncodeExpiresAt(e)))
    requires end == pos + |LenDelimField(5, EncodeExpiresAt(e))|
    ensures MergePeriodic(data, pos, m) == MergePeriodic(data, end, m.(periodReset := OverlayExpiresAt(m.periodReset, e)))
  {
    var p := EncodeExpiresAt(e);
    assert |LenDelimField(5, p)| >= |p|;
    ExpiresAtMerge(e, m.periodReset);
    PeriodicResetRead(data, pos, m, p, end, OverlayExpiresAt(m.periodReset, e));
  }

  lemma PeriodicResetRead(data: seq<byte>, pos: nat, m: PeriodicFeeAllowance, p: seq<byte>, end: nat, merged: ExpiresAt)
    requires |data| < TWO63 && At(data, pos, LenDelimField(5, p)) && end == pos + |LenDelimField(5, p)|
    requires MergeExpiresAt(p, 0, m.periodReset) == Success(merged)
    ensures MergePeriodic(data, pos, m) == MergePeriodic(data, end, m.(periodReset := merged))
  {
    ReadLenDelimField(data, pos, 5, p, end);
    PeriodicResetStep(data, pos, m, pos + 1, p, end, merged);
  }

  lemma GrantField(data: seq<byte>, pos: nat, m: FeeAllowanceGrant, fieldNum: nat, p: seq<byte>, end: nat)
    requires 1 <= fieldNum <= 3
    requires |data| < TWO63 && At(data, pos, LenDelimField(fieldNum, p)) && end == pos + |LenDelimField(fieldNum, p)|
    ensures fieldNum == 1 ==> MergeGrant(data, pos, m) == MergeGrant(data, end, m.(granter := p))
    ensures fieldNum == 2 ==> MergeGrant(data, pos, m) == MergeGrant(data, end, m.(grantee := p))
    ensures fieldNum == 3 ==>
      MergeGrant(data, pos, m) == MergeGrant(data, end, m.(allowance := Some(MergeAny(m.allowance, p))))
  {
    ReadLenDelimKey(data, pos, fieldNum, p);
    ReadLenDelimBody(data, pos, fieldNum, p);
    GrantStep(data, pos, m, fieldNum, pos + 1, p, end);
  }

  // ---------------------------------------------------------------------------
  // Whole messages

  /** The time is overwritten; so is the height unless the encoded one is zero,
      since a zero height is not on the wire. */
  lemma ExpiresAtMerge(x: ExpiresAt, m: ExpiresAt)
    requires |EncodeExpiresAt(x)| < TWO63
    ensures MergeExpiresAt(EncodeExpiresAt(x), 0, m) == Success(OverlayExpiresAt(m, x))
  {
    var data := EncodeExpiresAt(x);
    var p := x.time.payload;
    var f1 := LenDelimField(1, p);
    if x.height == 0 {
      assert data == f1 + [];
      AtFront(f1, []);
      ExpiresAtTimeField(data, 0, m, p, |data|);
      ExpiresAtEnd(data, m.(time := Opaque(p)));
    } else {
      var u := Uint64Of(x.height);
      var f2 := VarintField(2, u);
      assert data == f1 + f2;
      AtFront(f1, f2);
      AtBack(f1, f2);
      ExpiresAtTimeField(data, 0, m, p, |f1|);
      ExpiresAtHeightField(data, |f1|, m.(time := Opaque(p)), u, |data|);
      ExpiresAtEnd(data, m.(time := Opaque(p), height := Int64Of(u)));
      SignedRoundTrip(x.height, u);
    }
  }

  lemma DurationMerge(x: Duration, m: Duration)
    requires |EncodeDuration(x)| < TWO63
    ensures MergeDuration(EncodeDuration(x), 0, m) == Success(OverlayDuration(m, x))
  {
    var data := EncodeDuration(x);
    var p := x.clock.payload;
    var f1 := LenDelimField(1, p);
    if x.block == 0 {
      assert data == f1 + [];
      AtFront(f1, []);
      DurationClockField(data, 0, m, p, |data|);
      DurationEnd(data, m.(clock := Opaque(p)));
    } else {
      var u := Uint64Of(x.block);
      var f2 := VarintField(2, u);
      assert data == f1 + f2;
      AtFront(f1, f2);
      AtBack(f1, f2);
      DurationClockField(data, 0, m, p, |f1|);
      DurationBlockField(data, |f1|, m.(clock := Opaque(p)), u, |data|);
      DurationEnd(data, m.(clock := Opaque(p), block := Int64Of(u)));
      SignedRoundTrip(x.block, u);
    }
  }

  /** The coins are appended after those already there; the expiration merges. */
  lemma BasicMerge(x: BasicFeeAllowance, m: BasicFeeAllowance)
    requires |EncodeBasic(x)| < TWO63
    ensures MergeBasic(EncodeBasic(x), 0, m) == Success(OverlayBasic(m, x))
  {
    var data := EncodeBasic(x);
    var coins := RepeatedField(1, x.spendLimit);
    var expiration := LenDelimField(2, EncodeExpiresAt(x.expiration));
    AtFront(coins, expiration);
    AtBack(coins, expiration);
    var m1 := m.(spendLimit := m.spendLimit + x.spendLimit);
    var e := OverlayExpiresAt(m.expiration, x.expiration);
    BasicCoins(data, 0, m, x.spendLimit, |coins|);
    ExpiresAtMerge(x.expiration, m.expiration);
    ReadLenDelimField(data, |coins|, 2, EncodeExpiresAt(x.expiration), |data|);
    BasicExpirationStep(data, |coins|, m1, |coins| + 1, EncodeExpiresAt(x.expiration), |data|, e);
    BasicEnd(data, m1.(expiration := e));
  }

  lemma PeriodicMerge(x: PeriodicFeeAllowance, m: PeriodicFeeAllowance)
    requires |EncodePeriodic(x)| < TWO63
    ensures MergePeriodic(EncodePeriodic(x), 0, m) == Success(OverlayPeriodic(m, x))
  {
    var data := EncodePeriodic(x);
    var p1 := |LenDelimField(1, EncodeBasic(x.basic))|;
    var p2 := p1 + |LenDelimField(2, EncodeDuration(x.period))|;
    var p3 := p2 + |RepeatedField(3, x.periodSpendLimit)|;
    var p4 := p3 + |RepeatedField(4, x.periodCanSpend)|;
    PeriodicFieldsAt(x, data, p1, p2, p3, p4);
    BasicMerge(x.basic, m.basic);
    DurationMerge(x.period, m.period);
    ExpiresAtMerge(x.periodReset, m.periodReset);
    PeriodicChain(x, m, data, p1, p2, p3, p4);
  }

  /** The five fields of a periodic allowance, read one after the other. */
  lemma PeriodicChain(x: PeriodicFeeAllowance, m: PeriodicFeeAllowance, data: seq<byte>, p1: nat, p2: nat, p3: nat, p4: nat)
    requires |data| < TWO63 && p4 < |data|
    requires ReadKey(data, 0) == Success(FieldKey(1, 2, 1))
    requires ReadLenDelim(data, 1) == Success(Chunk(EncodeBasic(x.basic), p1))
    requires ReadKey(data, p1) == Success(FieldKey(2, 2, p1 + 1))
    requires ReadLenDelim(data, p1 + 1) == Success(Chunk(EncodeDuration(x.period), p2))
    requires At(data, p2, RepeatedField(3, x.periodSpendLimit)) && p3 == p2 + |RepeatedField(3, x.periodSpendLimit)|
    requires At(data, p3, RepeatedField(4, x.periodCanSpend)) && p4 == p3 + |RepeatedField(4, x.periodCanSpend)|
    requires ReadKey(data, p4) == Success(FieldKey(5, 2, p4 + 1))
    requires ReadLenDelim(data, p4 + 1) == Success(Chunk(EncodeExpiresAt(x.periodReset), |data|))
    requires MergeBasic(EncodeBasic(x.basic), 0, m.basic) == Success(OverlayBasic(m.basic, x.basic))
    requires MergeDuration(EncodeDuration(x.period), 0, m.period) == Success(OverlayDuration(m.period, x.period))
    requires MergeExpiresAt(EncodeExpiresAt(x.periodReset), 0, m.periodReset)
          == Success(OverlayExpiresAt(m.periodReset, x.periodReset))
    ensures MergePeriodic(data, 0, m) == Success(OverlayPeriodic(m, x))
  {
    var m2 := m.(basic := OverlayBasic(m.basic, x.basic)).(period := OverlayDuration(m.period, x.period));
    PeriodicHead(m, data, p1, p2, EncodeBasic(x.basic), EncodeDuration(x.period),
                 OverlayBasic(m.basic, x.basic), OverlayDuration(m.period, x.period));
    var m4 := WithCoins(WithCoins(m2, 3, x.periodSpendLimit), 4, x.periodCanSpend);
    PeriodicCoinLists(x, m2, data, p2, p3, p4);
    assert m4.periodReset == m.periodReset;
    PeriodicLast(data, p4, m4, EncodeExpiresAt(x.periodReset), OverlayExpiresAt(m.periodReset, x.periodReset));
    PeriodicOverlaySteps(m, x);
  }

  /** The first two fields of a periodic allowance: its basic part and its period. */
  lemma PeriodicHead(m: PeriodicFeeAllowance, data: seq<byte>, p1: nat, p2: nat,
                     basicBytes: seq<byte>, periodBytes: seq<byte>, b: BasicFeeAllowance, d: Duration)
    requires p2 <= |data|
    requires ReadKey(data, 0) == Success(FieldKey(1, 2, 1))
    requires ReadLenDelim(data, 1) == Success(Chunk(basicBytes, p1))
    requires ReadKey(data, p1) == Success(FieldKey(2, 2, p1 + 1))
    requires ReadLenDelim(data, p1 + 1) == Success(Chunk(periodBytes, p2))
    requires MergeBasic(basicBytes, 0, m.basic) == Success(b)
    requires MergeDuration(periodBytes, 0, m.period) == Success(d)
    ensures MergePeriodic(data, 0, m) == MergePeriodic(data, p2, m.(basic := b).(period := d))
  {
    PeriodicBasicStep(data, 0, m, 1, basicBytes, p1, b);
    PeriodicPeriodStep(data, p1, m.(basic := b), p1 + 1, periodBytes, p2, d);
  }

  /** The two coin lists of a periodic allowance, fields 3 and 4. */
  lemma PeriodicCoinLists(x: PeriodicFeeAllowance, m2: PeriodicFeeAllowance, data: seq<byte>, p2: nat, p3: nat, p4: nat)
    requires |data| < TWO63 && p4 <= |data|
    requires At(data, p2, RepeatedField(3, x.periodSpendLimit)) && p3 == p2 + |RepeatedField(3, x.periodSpendLimit)|
    requires At(data, p3, RepeatedField(4, x.periodCanSpend)) && p4 == p3 + |RepeatedField(4, x.periodCanSpend)|
    ensures MergePeriodic(data, p2, m2)
         == MergePeriodic(data, p4, WithCoins(WithCoins(m2, 3, x.periodSpendLimit), 4, x.periodCanSpend))
  {
    PeriodicCoins(data, p2, m2, 3, x.periodSpendLimit, p3);
    PeriodicCoins(data, p3, WithCoins(m2, 3, x.periodSpendLimit), 4, x.periodCanSpend, p4);
  }

  /** The last field of a periodic allowance, its period reset, ends the input. */
  lemma PeriodicLast(data: seq<byte>, p4: nat, m4: PeriodicFeeAllowance, bytes: seq<byte>, e: ExpiresAt)
    requires p4 < |data|
    requires ReadKey(data, p4) == Success(FieldKey(5, 2, p4 + 1))
    requires ReadLenDelim(data, p4 + 1) == Success(Chunk(bytes, |data|))
    requires MergeExpiresAt(bytes, 0, m4.periodReset) == Success(e)
    ensures MergePeriodic(data, p4, m4) == Success(m4.(periodReset := e))
  {
    PeriodicResetStep(data, p4, m4, p4 + 1, bytes, |data|, e);
    PeriodicEnd(data, m4.(periodReset := e));
  }

  /** The overlay of a periodic allowance, one field at a time in field order. */
  lemma PeriodicOverlaySteps(m: PeriodicFeeAllowance, x: PeriodicFeeAllowance)
    ensures var m1 := m.(basic := OverlayBasic(m.basic, x.basic));
      var m2 := m1.(period := OverlayDuration(m.period, x.period));
      var m4 := WithCoins(WithCoins(m2, 3, x.periodSpendLimit), 4, x.periodCanSpend);
      m4.(periodReset := OverlayExpiresAt(m.periodReset, x.periodReset)) == OverlayPeriodic(m, x)
  {
  }

  /** Where the fields of a periodic allowance's encoding lie, and how the
      length-delimited ones read back. */
  lemma PeriodicFieldsAt(x: PeriodicFeeAllowance, data: seq<byte>, p1: nat, p2: nat, p3: nat, p4: nat)
    requires data == EncodePeriodic(x) && |data| < TWO63
    requires p1 == |LenDelimField(1, EncodeBasic(x.basic))|
    requires p2 == p1 + |LenDelimField(2, EncodeDuration(x.period))|
    requires p3 == p2 + |RepeatedField(3, x.periodSpendLimit)|
    requires p4 == p3 + |RepeatedField(4, x.periodCanSpend)|
    ensures ReadKey(data, 0) == Success(FieldKey(1, 2, 1))
    ensures ReadLenDelim(data, 1) == Success(Chunk(EncodeBasic(x.basic), p1))
    ensures ReadKey(data, p1) == Success(FieldKey(2, 2, p1 + 1))
    ensures ReadLenDelim(data, p1 + 1) == Success(Chunk(EncodeDuration(x.period), p2))
    ensures At(data, p2, RepeatedField(3, x.periodSpendLimit))
    ensures At(data, p3, RepeatedField(4, x.periodCanSpend))
    ensures p4 <= |data|
    ensures ReadKey(data, p4) == Success(FieldKey(5, 2, p4 + 1))
    ensures ReadLenDelim(data, p4 + 1) == Success(Chunk(EncodeExpiresAt(x.periodReset), |data|))
  {
    PeriodicParts(x, data, p1, p2, p3, p4);
    assert ReadKey(data, 0) == Success(FieldKey(1, 2, 1))
        && ReadLenDelim(data, 1) == Success(Chunk(EncodeBasic(x.basic), p1)) by {
      ReadLenDelimField(data, 0, 1, EncodeBasic(x.basic), p1);
    }
    assert ReadKey(data, p1) == Success(FieldKey(2, 2, p1 + 1))
        && ReadLenDelim(data, p1 + 1) == Success(Chunk(EncodeDuration(x.period), p2)) by {
      ReadLenDelimField(data, p1, 2, EncodeDuration(x.period), p2);
    }
    ReadLenDelimField(data, p4, 5, EncodeExpiresAt(x.periodReset), |data|);
  }

  lemma PeriodicParts(x: PeriodicFeeAllowance, data: seq<byte>, p1: nat, p2: nat, p3: nat, p4: nat)
    requires data == EncodePeriodic(x)
    requires p1 == |LenDelimField(1, EncodeBasic(x.basic))|
    requires p2 == p1 + |LenDelimField(2, EncodeDuration(x.period))|
    requires p3 == p2 + |RepeatedField(3, x.periodSpendLimit)|
    requires p4 == p3 + |RepeatedField(4, x.periodCanSpend)|
    ensures At(data, 0, LenDelimField(1, EncodeBasic(x.basic)))
    ensures At(data, p1, LenDelimField(2, EncodeDuration(x.period)))
    ensures At(data, p2, RepeatedField(3, x.periodSpendLimit))
    ensures At(data, p3, RepeatedField(4, x.periodCanSpend))
    ensures At(data, p4, LenDelimField(5, EncodeExpiresAt(x.periodReset)))
    ensures |data| == p4 + |LenDelimField(5, EncodeExpiresAt(x.periodReset))|
  {
    var f1 := LenDelimField(1, EncodeBasic(x.basic));
    var f2 := LenDelimField(2, EncodeDuration(x.period));
    var f3 := RepeatedField(3, x.periodSpendLimit);
    var f4 := RepeatedField(4, x.periodCanSpend);
    var f5 := LenDelimField(5, EncodeExpiresAt(x.periodReset));
    AtParts5(f1, f2, f3, f4, f5, p1, p2, p3, p4);
  }

  lemma GrantMerge(x: FeeAllowanceGrant, m: FeeAllowanceGrant)
    requires |EncodeGrant(x)| < TWO63
    ensures MergeGrant(EncodeGrant(x), 0, m) == Success(OverlayGrant(m, x))
  {
    var data := EncodeGrant(x);
    var e1 := |if |x.granter| > 0 then LenDelimField(1, x.granter) else []|;
    var e2 := e1 + |if |x.grantee| > 0 then LenDelimField(2, x.grantee) else []|;
    GrantPartsAt(x, data, e1, e2);
    GrantChain(x, m, data, e1, e2);
  }

  /** Where the three optional fields of a grant's encoding lie. */
  lemma GrantPartsAt(x: FeeAllowanceGrant, data: seq<byte>, e1: nat, e2: nat)
    requires data == EncodeGrant(x)
    requires e1 == |if |x.granter| > 0 then LenDelimField(1, x.granter) else []|
    requires e2 == e1 + |if |x.grantee| > 0 then LenDelimField(2, x.grantee) else []|
    ensures At(data, 0, if |x.granter| > 0 then LenDelimField(1, x.granter) else [])
    ensures At(data, e1, if |x.grantee| > 0 then LenDelimField(2, x.grantee) else [])
    ensures At(data, e2, if x.allowance.Some? then LenDelimField(3, x.allowance.value.payload) else [])
    ensures |data| == e2 + |if x.allowance.Some? then LenDelimField(3, x.allowance.value.payload) else []|
  {
    var g1 := if |x.granter| > 0 then LenDelimField(1, x.granter) else [];
    var g2 := if |x.grantee| > 0 then LenDelimField(2, x.grantee) else [];
    var g3 := if x.allowance.Some? then LenDelimField(3, x.allowance.value.payload) else [];
    AtParts3(g1, g2, g3, e1, e2);
  }

  /** The three optional fields of a grant, read one after the other. */
  lemma GrantChain(x: FeeAllowanceGrant, m: FeeAllowanceGrant, data: seq<byte>, e1: nat, e2: nat)
    requires |data| < TWO63
    requires At(data, 0, if |x.granter| > 0 then LenDelimField(1, x.granter) else [])
    requires e1 == |if |x.granter| > 0 then LenDelimField(1, x.granter) else []|
    requires At(data, e1, if |x.grantee| > 0 then LenDelimField(2, x.grantee) else [])
    requires e2 == e1 + |if |x.grantee| > 0 then LenDelimField(2, x.grantee) else []|
    requires At(data, e2, if x.allowance.Some? then LenDelimField(3, x.allowance.value.payload) else [])
    requires |data| == e2 + |if x.allowance.Some? then LenDelimField(3, x.allowance.value.payload) else []|
    ensures MergeGrant(data, 0, m) == Success(OverlayGrant(m, x))
  {
    var m1 := if |x.granter| > 0 then m.(granter := x.granter) else m;
    var m2 := if |x.grantee| > 0 then m1.(grantee := x.grantee) else m1;
    GrantGranterPart(data, m, x.granter, e1);
    GrantGranteePart(data, e1, m1, x.grantee, e2);
    GrantAllowancePart(data, e2, m2, x.allowance);
    GrantOverlaySteps(m, x);
  }

  /** The overlay of a grant, one field at a time in field order. */
  lemma GrantOverlaySteps(m: FeeAllowanceGrant, x: FeeAllowanceGrant)
    ensures var m1 := if |x.granter| > 0 then m.(granter := x.granter) else m;
      var m2 := if |x.grantee| > 0 then m1.(grantee := x.grantee) else m1;
      (if x.allowance.Some? then m2.(allowance := Some(MergeAny(m2.allowance, x.allowance.value.payload))) else m2)
      == OverlayGrant(m, x)
  {
  }

  /** The granter field: written, and then read, only when it is non-empty. */
  lemma GrantGranterPart(data: seq<byte>, m: FeeAllowanceGrant, p: seq<byte>, end: nat)
    requires |data| < TWO63
    requires At(data, 0, if |p| > 0 then LenDelimField(1, p) else [])
    requires end == |if |p| > 0 then LenDelimField(1, p) else []|
    ensures MergeGrant(data, 0, m) == MergeGrant(data, end, if |p| > 0 then m.(granter := p) else m)
  {
    if |p| > 0 {
      GrantField(data, 0, m, 1, p, end);
    }
  }

  lemma GrantGranteePart(data: seq<byte>, pos: nat, m: FeeAllowanceGrant, p: seq<byte>, end: nat)
    requires |data| < TWO63
    requires At(data, pos, if |p| > 0 then LenDelimField(2, p) else [])
    requires end == pos + |if |p| > 0 then LenDelimField(2, p) else []|
    ensures MergeGrant(data, pos, m) == MergeGrant(data, end, if |p| > 0 then m.(grantee := p) else m)
  {
    if |p| > 0 {
      GrantField(data, pos, m, 2, p, end);
    }
  }

  /** The allowance field, the last one: merged into whatever allowance is present. */
  lemma GrantAllowancePart(data: seq<byte>, pos: nat, m: FeeAllowanceGrant, a: Option<Opaque>)
    requires |data| < TWO63
    requires At(data, pos, if a.Some? then LenDelimField(3, a.value.payload) else [])
    requires |data| == pos + |if a.Some? then LenDelimField(3, a.value.payload) else []|
    ensures MergeGrant(data, pos, m)
         == Success(if a.Some? then m.(allowance := Some(MergeAny(m.allowance, a.value.payload))) else m)
  {
    if a.Some? {
      GrantField(data, pos, m, 3, a.value.payload, |data|);
      GrantEnd(data, m.(allowance := Some(MergeAny(m.allowance, a.value.payload))));
    } else {
      GrantEnd(data, m);
    }
  }

  // ---------------------------------------------------------------------------
  // Round trips

  /** `Unmarshal` into a fresh value recovers what `Marshal` wrote, negative
      heights included. */
  lemma ExpiresAtRoundTrip(x: ExpiresAt)
    requires |MarshalExpiresAt(x)| < TWO63
    ensures UnmarshalExpiresAt(MarshalExpiresAt(x)) == Success(x)
  {
    ExpiresAtMerge(x, ZeroExpiresAt);
  }

  lemma DurationRoundTrip(x: Duration)
    requires |MarshalDuration(x)| < TWO63
    ensures UnmarshalDuration(MarshalDuration(x)) == Success(x)
  {
    DurationMerge(x, ZeroDuration);
  }

  lemma BasicRoundTrip(x: BasicFeeAllowance)
    requires |MarshalBasic(x)| < TWO63
    ensures UnmarshalBasic(MarshalBasic(x)) == Success(x)
  {
    BasicMerge(x, ZeroBasic);
    OverlayBasicZero(x);
  }

  lemma PeriodicRoundTrip(x: PeriodicFeeAllowance)
    requires |MarshalPeriodic(x)| < TWO63
    ensures UnmarshalPeriodic(MarshalPeriodic(x)) == Success(x)
  {
    PeriodicMerge(x, ZeroPeriodic);
    OverlayPeriodicZero(x);
  }

  lemma GrantRoundTrip(x: FeeAllowanceGrant)
    requires |MarshalGrant(x)| < TWO63
    ensures UnmarshalGrant(MarshalGrant(x)) == Success(x)
  {
    GrantMerge(x, ZeroGrant);
    OverlayGrantZero(x);
  }
}
