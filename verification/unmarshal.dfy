/**
 The five `Unmarshal` methods. Each runs `for iNdEx < l`: read a key, reject
 end-group keys and non-positive field numbers, then switch on the field
 number; a known field with the wrong wire type is an error, an unknown one
 is stepped over by `skipFeegrant`. `Unmarshal` merges into its receiver:
 scalar and string fields are overwritten, repeated fields appended to, and
 embedded messages merged into.

 The final `if iNdEx > l` check of the source cannot fire: every step stops
 at or before the end of the input, which the model's positions carry as
 `pos <= |data|`.
 */
module Unmarshal {
  import opened Wire
  import opened Varint
  import opened Fields
  import opened Skipping
  import opened Messages

  function MergeExpiresAt(data: seq<byte>, pos: nat, m: ExpiresAt): Result<ExpiresAt>
    requires pos <= |data|
    decreases |data| - pos
  {
    if pos == |data| then Success(m)
    else
      var key :- ReadKey(data, pos);
      if key.fieldNum == 1 then
        if key.wireType != 2 then Failure(WrongWireType(1, key.wireType))
        else
          // StdTimeUnmarshal replaces the time
          var chunk :- ReadLenDelim(data, key.next);
          MergeExpiresAt(data, chunk.next, m.(time := Opaque(chunk.bytes)))
      else if key.fieldNum == 2 then
        if key.wireType != 0 then Failure(WrongWireType(2, key.wireType))
        else
          // `m.Height = 0`, then the varint loop into an int64
          var rd :- ReadVarint(data, key.next);
          MergeExpiresAt(data, rd.next, m.(height := Int64Of(rd.value)))
      else
        var next :- SkipUnknown(data, pos);
        MergeExpiresAt(data, next, m)
  }

  function MergeDuration(data: seq<byte>, pos: nat, m: Duration): Result<Duration>
    requires pos <= |data|
    decreases |data| - pos
  {
    if pos == |data| then Success(m)
    else
      var key :- ReadKey(data, pos);
      if key.fieldNum == 1 then
        if key.wireType != 2 then Failure(WrongWireType(1, key.wireType))
        else
          var chunk :- ReadLenDelim(data, key.next);
          MergeDuration(data, chunk.next, m.(clock := Opaque(chunk.bytes)))
      else if key.fieldNum == 2 then
        if key.wireType != 0 then Failure(WrongWireType(2, key.wireType))
        else
          var rd :- ReadVarint(data, key.next);
          MergeDuration(data, rd.next, m.(block := Int64Of(rd.value)))
      else
        var next :- SkipUnknown(data, pos);
        MergeDuration(data, next, m)
  }

  function MergeBasic(data: seq<byte>, pos: nat, m: BasicFeeAllowance): (r: Result<BasicFeeAllowance>)
    requires pos <= |data|
    ensures r.Success? ==> m.spendLimit <= r.value.spendLimit
    decreases |data| - pos
  {
    if pos == |data| then Success(m)
    else
      var key :- ReadKey(data, pos);
      if key.fieldNum == 1 then
        if key.wireType != 2 then Failure(WrongWireType(1, key.wireType))
        else
          // `append(m.SpendLimit, types.Coin{})`, then the coin's own Unmarshal
          var chunk :- ReadLenDelim(data, key.next);
          MergeBasic(data, chunk.next, m.(spendLimit := m.spendLimit + [Opaque(chunk.bytes)]))
      else if key.fieldNum == 2 then
        if key.wireType != 2 then Failure(WrongWireType(2, key.wireType))
        else
          var chunk :- ReadLenDelim(data, key.next);
          var expiration :- MergeExpiresAt(chunk.bytes, 0, m.expiration);
          MergeBasic(data, chunk.next, m.(expiration := expiration))
      else
        var next :- SkipUnknown(data, pos);
        MergeBasic(data, next, m)
  }

  /** Appends to the repeated field `fieldNum` (3 or 4) of a periodic allowance. */
  function WithCoins(m: PeriodicFeeAllowance, fieldNum: nat, items: seq<Opaque>): PeriodicFeeAllowance {
    if fieldNum == 3 then m.(periodSpendLimit := m.periodSpendLimit + items)
    else m.(periodCanSpend := m.periodCanSpend + items)
  }

  function MergePeriodic(data: seq<byte>, pos: nat, m: PeriodicFeeAllowance): (r: Result<PeriodicFeeAllowance>)
    requires pos <= |data|
    ensures r.Success? ==> m.basic.spendLimit <= r.value.basic.spendLimit
    ensures r.Success? ==> m.periodSpendLimit <= r.value.periodSpendLimit
    ensures r.Success? ==> m.periodCanSpend <= r.value.periodCanSpend
    decreases |data| - pos
  {
    if pos == |data| then Success(m)
    else
      var key :- ReadKey(data, pos);
      if 1 <= key.fieldNum <= 5 then
        if key.wireType != 2 then Failure(WrongWireType(key.fieldNum, key.wireType))
        else
          var chunk :- ReadLenDelim(data, key.next);
          if key.fieldNum == 1 then
            var basic :- MergeBasic(chunk.bytes, 0, m.basic);
            MergePeriodic(data, chunk.next, m.(basic := basic))
          else if key.fieldNum == 2 then
            var period :- MergeDuration(chunk.bytes, 0, m.period);
            MergePeriodic(data, chunk.next, m.(period := period))
          else if key.fieldNum == 5 then
            var reset :- MergeExpiresAt(chunk.bytes, 0, m.periodReset);
            MergePeriodic(data, chunk.next, m.(periodReset := reset))
          else
            MergePeriodic(data, chunk.next, WithCoins(m, key.fieldNum, [Opaque(chunk.bytes)]))
      else
        var next :- SkipUnknown(data, pos);
        MergePeriodic(data, next, m)
  }

  /** `Any.Unmarshal` into an existing `Any` overwrites the fields it reads;
      on encodings that is the same as reading the two encodings one after the
      other, which is how the model merges an opaque value. */
  function MergeAny(existing: Option<Opaque>, bytes: seq<byte>): Opaque {
    if existing.None? then Opaque(bytes) else Opaque(existing.value.payload + bytes)
  }

  function MergeGrant(data: seq<byte>, pos: nat, m: FeeAllowanceGrant): (r: Result<FeeAllowanceGrant>)
    requires pos <= |data|
    ensures r.Success? && m.allowance.Some? ==>
      r.value.allowance.Some? && m.allowance.value.payload <= r.value.allowance.value.payload
    decreases |data| - pos
  {
    if pos == |data| then Success(m)
    else
      var key :- ReadKey(data, pos);
      if 1 <= key.fieldNum <= 3 then
        if key.wireType != 2 then Failure(WrongWireType(key.fieldNum, key.wireType))
        else
          var chunk :- ReadLenDelim(data, key.next);
          if key.fieldNum == 1 then MergeGrant(data, chunk.next, m.(granter := chunk.bytes))
          else if key.fieldNum == 2 then MergeGrant(data, chunk.next, m.(grantee := chunk.bytes))
          else MergeGrant(data, chunk.next, m.(allowance := Some(MergeAny(m.allowance, chunk.bytes))))
      else
        var next :- SkipUnknown(data, pos);
        MergeGrant(data, next, m)
  }

  /** `Unmarshal` into a fresh value. */
  function UnmarshalExpiresAt(data: seq<byte>): Result<ExpiresAt> {
    MergeExpiresAt(data, 0, ZeroExpiresAt)
  }

  function UnmarshalDuration(data: seq<byte>): Result<Duration> {
    MergeDuration(data, 0, ZeroDuration)
  }

  function UnmarshalBasic(data: seq<byte>): Result<BasicFeeAllowance> {
    MergeBasic(data, 0, ZeroBasic)
  }

  function UnmarshalPeriodic(data: seq<byte>): Result<PeriodicFeeAllowance> {
    MergePeriodic(data, 0, ZeroPeriodic)
  }

  function UnmarshalGrant(data: seq<byte>): Result<FeeAllowanceGrant> {
    MergeGrant(data, 0, ZeroGrant)
  }

  // ---------------------------------------------------------------------------
  // One pass of each loop, for a key and a body already read

  lemma ExpiresAtTimeStep(data: seq<byte>, pos: nat, m: ExpiresAt, q: nat, bytes: seq<byte>, next: nat)
    requires pos <= |data| && ReadKey(data, pos) == Success(FieldKey(1, 2, q))
    requires ReadLenDelim(data, q) == Success(Chunk(bytes, next))
    ensures MergeExpiresAt(data, pos, m) == MergeExpiresAt(data, next, m.(time := Opaque(bytes)))
  {
  }

  lemma ExpiresAtHeightStep(data: seq<byte>, pos: nat, m: ExpiresAt, q: nat, v: uint64, next: nat)
    requires pos <= |data| && ReadKey(data, pos) == Success(FieldKey(2, 0, q))
    requires ReadVarint(data, q) == Success(VarintRead(v, next))
    ensures MergeExpiresAt(data, pos, m) == MergeExpiresAt(data, next, m.(height := Int64Of(v)))
  {
  }

  lemma ExpiresAtEnd(data: seq<byte>, m: ExpiresAt)
    ensures MergeExpiresAt(data, |data|, m) == Success(m)
  {
  }

  lemma DurationClockStep(data: seq<byte>, pos: nat, m: Duration, q: nat, bytes: seq<byte>, next: nat)
    requires pos <= |data| && ReadKey(data, pos) == Success(FieldKey(1, 2, q))
    requires ReadLenDelim(data, q) == Success(Chunk(bytes, next))
    ensures MergeDuration(data, pos, m) == MergeDuration(data, next, m.(clock := Opaque(bytes)))
  {
  }

  lemma DurationBlockStep(data: seq<byte>, pos: nat, m: Duration, q: nat, v: uint64, next: nat)
    requires pos <= |data| && ReadKey(data, pos) == Success(FieldKey(2, 0, q))
    requires ReadVarint(data, q) == Success(VarintRead(v, next))
    ensures MergeDuration(data, pos, m) == MergeDuration(data, next, m.(block := Int64Of(v)))
  {
  }

  lemma DurationEnd(data: seq<byte>, m: Duration)
    ensures MergeDuration(data, |data|, m) == Success(m)
  {
  }

  lemma BasicCoinStep(data: seq<byte>, pos: nat, m: BasicFeeAllowance, q: nat, bytes: seq<byte>, next: nat)
    requires pos <= |data| && ReadKey(data, pos) == Success(FieldKey(1, 2, q))
    requires ReadLenDelim(data, q) == Success(Chunk(bytes, next))
    ensures MergeBasic(data, pos, m) == MergeBasic(data, next, m.(spendLimit := m.spendLimit + [Opaque(bytes)]))
  {
  }

  lemma BasicExpirationStep(data: seq<byte>, pos: nat, m: BasicFeeAllowance, q: nat, bytes: seq<byte>, next: nat, e: ExpiresAt)
    requires pos <= |data| && ReadKey(data, pos) == Success(FieldKey(2, 2, q))
    requires ReadLenDelim(data, q) == Success(Chunk(bytes, next))
    requires MergeExpiresAt(bytes, 0, m.expiration) == Success(e)
    ensures MergeBasic(data, pos, m) == MergeBasic(data, next, m.(expiration := e))
  {
  }

  lemma BasicEnd(data: seq<byte>, m: BasicFeeAllowance)
    ensures MergeBasic(data, |data|, m) == Success(m)
  {
  }

  lemma PeriodicBasicStep(data: seq<byte>, pos: nat, m: PeriodicFeeAllowance, q: nat, bytes: seq<byte>, next: nat, b: BasicFeeAllowance)
    requires pos <= |data| && ReadKey(data, pos) == Success(FieldKey(1, 2, q))
    requires ReadLenDelim(data, q) == Success(Chunk(bytes, next))
    requires MergeBasic(bytes, 0, m.basic) == Success(b)
    ensures MergePeriodic(data, pos, m) == MergePeriodic(data, next, m.(basic := b))
  {
  }

  lemma PeriodicPeriodStep(data: seq<byte>, pos: nat, m: PeriodicFeeAllowance, q: nat, bytes: seq<byte>, next: nat, d: Duration)
    requires pos <= |data| && ReadKey(data, pos) == Success(FieldKey(2, 2, q))
    requires ReadLenDelim(data, q) == Success(Chunk(bytes, next))
    requires MergeDuration(bytes, 0, m.period) == Success(d)
    ensures MergePeriodic(data, pos, m) == MergePeriodic(data, next, m.(period := d))
  {
  }

  lemma PeriodicCoinStep(data: seq<byte>, pos: nat, m: PeriodicFeeAllowance, fieldNum: nat, q: nat, bytes: seq<byte>, next: nat)
    requires fieldNum == 3 || fieldNum == 4
    requires pos <= |data| && ReadKey(data, pos) == Success(FieldKey(fieldNum, 2, q))
    requires ReadLenDelim(data, q) == Success(Chunk(bytes, next))
    ensures MergePeriodic(data, pos, m) == MergePeriodic(data, next, WithCoins(m, fieldNum, [Opaque(bytes)]))
  {
  }

  lemma PeriodicResetStep(data: seq<byte>, pos: nat, m: PeriodicFeeAllowance, q: nat, bytes: seq<byte>, next: nat, e: ExpiresAt)
    requires pos <= |data| && ReadKey(data, pos) == Success(FieldKey(5, 2, q))
    requires ReadLenDelim(data, q) == Success(Chunk(bytes, next))
    requires MergeExpiresAt(bytes, 0, m.periodReset) == Success(e)
    ensures MergePeriodic(data, pos, m) == MergePeriodic(data, next, m.(periodReset := e))
  {
  }

  lemma PeriodicEnd(data: seq<byte>, m: PeriodicFeeAllowance)
    ensures MergePeriodic(data, |data|, m) == Success(m)
  {
  }

  lemma GrantStep(data: seq<byte>, pos: nat, m: FeeAllowanceGrant, fieldNum: nat, q: nat, bytes: seq<byte>, next: nat)
    requires 1 <= fieldNum <= 3
    requires pos <= |data| && ReadKey(data, pos) == Success(FieldKey(fieldNum, 2, q))
    requires ReadLenDelim(data, q) == Success(Chunk(bytes, next))
    ensures fieldNum == 1 ==> MergeGrant(data, pos, m) == MergeGrant(data, next, m.(granter := bytes))
    ensures fieldNum == 2 ==> MergeGrant(data, pos, m) == MergeGrant(data, next, m.(grantee := bytes))
    ensures fieldNum == 3 ==>
      MergeGrant(data, pos, m) == MergeGrant(data, next, m.(allowance := Some(MergeAny(m.allowance, bytes))))
  {
  }

  lemma GrantEnd(data: seq<byte>, m: FeeAllowanceGrant)
    ensures MergeGrant(data, |data|, m) == Success(m)
  {
  }
}
