# Fee-grant wire codec

This project is a Dafny model of the Protocol Buffers codec generated for the
fee-grant module of the Cosmos SDK (`x/feegrant/types/feegrant.pb.go`). The
codec covers five messages:

- `BasicFeeAllowance`: a repeated `SpendLimit` coin list and an `Expiration`.
- `PeriodicFeeAllowance`: `Basic`, `Period`, two coin lists `PeriodSpendLimit` and `PeriodCanSpend`, and `PeriodReset`.
- `Duration`: a clock `Clock` or a block count `Block`.
- `ExpiresAt`: a `Time` or a `Height`.
- `FeeAllowanceGrant`: the `Granter` and `Grantee` addresses and a nullable `Allowance` packed as an `Any`.

The model covers three groups of code, and proves the properties listed after them.

**The varint helpers.** `encodeVarintFeegrant` is the method `Varint.EncodeVarintInto`. It writes into a buffer at an offset and proves where the bytes land. The marshal functions below write their varints as the functional `Varint.EncodeVarint`; `Varint.EncodeVarintPrepends` is the bridge, showing that the method's write is that varint prepended to the bytes after the offset. `sovFeegrant` and `sozFeegrant` are `Varint.Sov` and `Varint.Soz`.

**The encoder.** Each message has three functions:

- `Size`: the `Messages.Size*` functions.
- `MarshalToSizedBuffer`: the `Messages.Marshal*To` functions. The Go code fills its buffer from the end, so each write is modelled as a prepend to the bytes already written.
- `Marshal`: the `Messages.Marshal*` functions, which sit on a buffer of exactly `Size` bytes.

Each message also has a forward reference encoder, `Messages.Encode*`. It lays the fields out in ascending field order.

**The decoder.** Each message's `Unmarshal` is a `Unmarshal.Merge*` function. It reads from a position into an existing value, so repeated decoding merges the way Go's does. `Unmarshal.Unmarshal*` starts from the zero value. The inline varint loops are `Varint.ReadVarint`, the key decoding is `Fields.ReadKey`, and the length-delimited reads are `Fields.ReadLenDelim`. `skipFeegrant` is `Skipping.Skip`, including nested groups. The `default:` branch is `Skipping.SkipUnknown`.

**What is proved:**

- `Size` counts exactly the bytes `MarshalToSizedBuffer` writes.
- Fields are written in ascending order under fixed one-byte keys.
- Zero scalars and empty strings are omitted, while `Time` and `Clock` are always written.
- Decoding a freshly marshalled message gives the message back, including negative heights.
- Decoding into a non-empty value overlays the encoded fields: coins are appended and embedded messages merge.
- Scalars and strings are taken from their last occurrence.
- Every error the decoder returns is reached by a specific input.
  `ErrUnexpectedEndOfGroupFeegrant` is the exception. No `Unmarshal` can return it, because the key check rejects wire type 4 before `skipFeegrant` runs, and a group opened inside `skipFeegrant` is closed before its depth can fall below zero. Only a direct call of `Skipping.Skip` reaches it.
- Unknown fields are skipped.

The coins (`types.Coin`), the `Any`, and the standard `Timestamp`/`Duration` are codecs outside this file. Each is modelled as `Wire.Opaque`, a value identified with its wire bytes.

Integers are unbounded in Dafny. The model writes out the Go widths where they matter:

- The decoded varint is taken mod 2^64.
- `int32(wire >> 3)` is `Wire.Int32Of`.
- `int64` fields are read back through `Wire.Int64Of`.
- A length of 2^63 or more is negative as a Go `int`.

## Model

| member | source | states |
|---|---|---|
| Varint.ContinuationBits | x/feegrant/types/feegrant.pb.go:637-647 | every byte written but the last has the continuation bit 0x80 set, the last is below 0x80 |
| Varint.EncodeVarint | x/feegrant/types/feegrant.pb.go:637-647 | a varint is at least one byte long; Varint.ContinuationBits gives its byte layout and Varint.ReadEncoded reads it back |
| Varint.EncodeVarintInto | x/feegrant/types/feegrant.pb.go:637-647 | the returned index is `offset - sovFeegrant(v)`, the bytes between it and `offset` are the varint of `v`, and nothing before or after them changes |
| Varint.EncodeVarintPrepends | x/feegrant/types/feegrant.pb.go:637-647 | seen from the back-to-front fill, the varint write puts the varint of `v` in front of the bytes already written |
| Varint.SovIsVarintLength | x/feegrant/types/feegrant.pb.go:741-743 | `sovFeegrant(x)`, the bit length of `x` with its low bit set, in sevens rounded up, is exactly the number of bytes the encoder writes for `x` |
| Varint.Sov | x/feegrant/types/feegrant.pb.go:741-743 | every value, zero included, takes at least one byte; Varint.SovIsVarintLength shows it is the varint's length |
| Varint.SovIsLeastPower | x/feegrant/types/feegrant.pb.go:741-743 | `sovFeegrant(x)` is the least n ≥ 1 with x < 128^n |
| Varint.SovBounds | x/feegrant/types/feegrant.pb.go:741-743 | a 64-bit value takes 1 to 10 bytes, and 10 exactly when it is at least 2^63 |
| Varint.NegativeTakesTenBytes | x/feegrant/types/feegrant.pb.go:572-576 | a negative `Height` (or `Block`) cast to `uint64` is written in ten bytes |
| Varint.ZigZag | x/feegrant/types/feegrant.pb.go:744-746 | the zig-zag argument of `sozFeegrant` is odd exactly for negative signed values |
| Varint.ZigZagSigned | x/feegrant/types/feegrant.pb.go:744-746 | the zig-zag map sends s to 2s when s ≥ 0 and to −2s−1 otherwise |
| Varint.ZigZagRoundTrip | x/feegrant/types/feegrant.pb.go:744-746 | the zig-zag map is inverted by the signed-reading decoder map |
| Varint.SozSmall | x/feegrant/types/feegrant.pb.go:744-746 | values in −64..63 take one byte under `sozFeegrant` |
| Varint.Soz | x/feegrant/types/feegrant.pb.go:744-746 | every signed value takes at least one byte; Varint.ZigZagSigned and Varint.SozSmall state the rest |
| Varint.ScanVarint | x/feegrant/types/feegrant.pb.go:753-766 | a successful scan consumes at least one byte, stays inside the input and stops within the bytes the shift counter allows |
| Varint.ReadVarint | x/feegrant/types/feegrant.pb.go:753-766 | a successful inline varint read ends after 1 to 10 bytes and inside the input |
| Varint.ReadEncoded | x/feegrant/types/feegrant.pb.go:753-766 | reading the bytes the encoder wrote for v yields v and stops right after them |
| Varint.ReadEncodedSigned | x/feegrant/types/feegrant.pb.go:1254-1272 | an `int64` written through its `uint64` cast reads back as the same signed value |
| Varint.ReadOverflow | x/feegrant/types/feegrant.pb.go:753-756 | ten continuation bytes in a row make the loop fail with the integer-overflow error |
| Varint.ReadTruncated | x/feegrant/types/feegrant.pb.go:757-759 | input that ends while every byte asks for more fails with unexpected EOF |
| Fields.KeyBytes | x/feegrant/types/feegrant.pb.go:450-514 | the hard-coded bytes 0x0a, 0x12, 0x1a, 0x22, 0x2a and 0x10 are the keys of fields 1 to 5 as length-delimited and of field 2 as varint |
| Fields.KeySingleByte | x/feegrant/types/feegrant.pb.go:657 | the `1 +` in `Size`: keys of fields below 16 take one byte |
| Fields.RecordsSnoc | x/feegrant/types/feegrant.pb.go:418-431 | writing the last coin first, in front of the rest, yields the coins' records in list order |
| Fields.ReadKey | x/feegrant/types/feegrant.pb.go:767-774 | a key that is accepted has a positive field number and a wire type other than 4, and advances the index inside the input |
| Fields.ReadLenDelim | x/feegrant/types/feegrant.pb.go:780-804 | an accepted length-delimited body is exactly the bytes after the length varint, as many as that varint says, and ends inside the input |
| Fields.ReadKeyEncoded | x/feegrant/types/feegrant.pb.go:753-774 | a written key reads back as its field number and wire type, just past itself |
| Fields.ReadLenDelimEncoded | x/feegrant/types/feegrant.pb.go:780-809 | a written length and payload read back as that payload, with `iNdEx` set to `postIndex` |
| Fields.ReadLenDelimField | x/feegrant/types/feegrant.pb.go:776-809 | a whole length-delimited field reads back as its key and then its payload |
| Fields.ReadVarintBody | x/feegrant/types/feegrant.pb.go:1149-1167 | after its key, a varint field reads back as its value |
| Fields.ReadKeyFieldNumber | x/feegrant/types/feegrant.pb.go:767-774 | the field number is cut to `int32`; when that is not positive the key fails with the illegal-tag error carrying it, otherwise it is accepted with the cut number |
| Fields.ReadKeyEndGroup | x/feegrant/types/feegrant.pb.go:769-771 | an end-group key is rejected whatever its field number |
| Fields.ReadLenDelimNegative | x/feegrant/types/feegrant.pb.go:795-797 | a length of 2^63 or more is negative as an `int` and fails with the invalid-length error |
| Fields.ReadLenDelimPastEnd | x/feegrant/types/feegrant.pb.go:802-804 | a length that runs past the end of the input fails with unexpected EOF |
| Skipping.SkipBody | x/feegrant/types/feegrant.pb.go:1471-1518 | the wire-type switch never moves the index backwards |
| Skipping.SkipFrom | x/feegrant/types/feegrant.pb.go:1454-1526 | a successful skip loop ends strictly after where it started |
| Skipping.Skip | x/feegrant/types/feegrant.pb.go:1450-1527 | a successful `skipFeegrant` returns a positive length |
| Skipping.SkipUnknown | x/feegrant/types/feegrant.pb.go:843-858 | the `default:` branch, when it succeeds, moves the index forward and not past the end |
| Skipping.SkipWellFormed | x/feegrant/types/feegrant.pb.go:1450-1527 | `skipFeegrant` returns exactly the length of one well-formed field (varint, fixed64, bytes, fixed32 or a nested group), whatever follows it |
| Skipping.SkipInsideAll | x/feegrant/types/feegrant.pb.go:1454-1525 | inside an open group, a run of well-formed fields is stepped over without changing the depth |
| Skipping.GroupInsideWhole | x/feegrant/types/feegrant.pb.go:1507-1513 | a nested group is stepped over as a whole: depth rises at its start key and falls back at its end key |
| Skipping.SkipFirstKey | x/feegrant/types/feegrant.pb.go:1470-1517 | by wire type of the first key: 4 fails with unexpected end of group, 6 and 7 fail with illegal wire type, 1 and 5 measure 8 and 4 bytes past the key |
| Skipping.SkipRejectsStrayEndGroup | x/feegrant/types/feegrant.pb.go:1509-1512 | an end-group key with no group open is rejected |
| Skipping.SkipRejectsWireType | x/feegrant/types/feegrant.pb.go:1516-1517 | wire types 6 and 7 are rejected with the illegal-wire-type error carrying the type |
| Skipping.SkipFixedPastEnd | x/feegrant/types/feegrant.pb.go:1485-1486 | a fixed64 or fixed32 field cut short is measured in full and then fails the caller's bound check with unexpected EOF |
| Skipping.SkipLengthPastEnd | x/feegrant/types/feegrant.pb.go:1487-1506 | a bytes field whose length runs past the end fails the caller's bound check with unexpected EOF |
| Skipping.UnknownFieldSkipped | x/feegrant/types/feegrant.pb.go:843-858 | an unknown well-formed field passes the key checks and is skipped to just past its end |
| Messages.LenDelimFieldSize | x/feegrant/types/feegrant.pb.go:660-661 | `1 + l + sovFeegrant(l)` is the length of a length-delimited field with a payload of l bytes |
| Messages.VarintFieldSize | x/feegrant/types/feegrant.pb.go:714-716 | `1 + sovFeegrant(v)` is the length of a varint field |
| Messages.SizeCoinsExact | x/feegrant/types/feegrant.pb.go:654-659 | the coin loop of `Size` counts exactly the bytes of the coins' records |
| Messages.SizeExpiresAtExact | x/feegrant/types/feegrant.pb.go:706-718 | `ExpiresAt.Size` is the length of its encoding |
| Messages.SizeDurationExact | x/feegrant/types/feegrant.pb.go:692-704 | `Duration.Size` is the length of its encoding |
| Messages.SizeBasicExact | x/feegrant/types/feegrant.pb.go:648-663 | `BasicFeeAllowance.Size` is the length of its encoding |
| Messages.SizePeriodicExact | x/feegrant/types/feegrant.pb.go:665-690 | `PeriodicFeeAllowance.Size` is the length of its encoding |
| Messages.SizeGrantExact | x/feegrant/types/feegrant.pb.go:720-739 | `FeeAllowanceGrant.Size` is the length of its encoding |
| Messages.SizeCoins | x/feegrant/types/feegrant.pb.go:654-659 | every coin record counts at least its key and length bytes, two per coin |
| Messages.SizeExpiresAt | x/feegrant/types/feegrant.pb.go:706-718 | the size counts the always-written `Time` field, payload and two bytes, and two more bytes for a non-zero `Height`; Messages.SizeExpiresAtExact makes it exact |
| Messages.SizeDuration | x/feegrant/types/feegrant.pb.go:692-704 | the size counts the always-written `Clock` field, and two more bytes for a non-zero `Block`; Messages.SizeDurationExact makes it exact |
| Messages.SizeBasic | x/feegrant/types/feegrant.pb.go:648-663 | the size counts two bytes per coin and at least four for the always-written `Expiration`; Messages.SizeBasicExact makes it exact |
| Messages.SizePeriodic | x/feegrant/types/feegrant.pb.go:665-690 | the size counts two bytes per coin of both lists and at least fourteen for the three always-written embedded messages; Messages.SizePeriodicExact makes it exact |
| Messages.SizeGrant | x/feegrant/types/feegrant.pb.go:720-739 | the size is zero exactly for the zero grant; Messages.SizeGrantExact makes it exact |
| Messages.EncodeExpiresAt | x/feegrant/types/feegrant.pb.go:567-587 | the wire layout `MarshalToSizedBuffer` produces holds the `Time` payload and at least two more bytes, four with a non-zero `Height`; Messages.MarshalExpiresAtTo and RoundTrip.ExpiresAtRoundTrip tie it to the Go code |
| Messages.EncodeDuration | x/feegrant/types/feegrant.pb.go:531-551 | the layout holds the `Clock` payload and at least two more bytes, four with a non-zero `Block`; Messages.MarshalDurationTo and RoundTrip.DurationRoundTrip tie it to the Go code |
| Messages.EncodeBasic | x/feegrant/types/feegrant.pb.go:403-434 | the layout is never empty: the `Expiration` record alone takes four bytes; Messages.MarshalBasicTo and RoundTrip.BasicRoundTrip tie it to the Go code |
| Messages.EncodePeriodic | x/feegrant/types/feegrant.pb.go:450-515 | the layout takes at least fourteen bytes for its three always-written embedded messages; Messages.MarshalPeriodicTo and RoundTrip.PeriodicRoundTrip tie it to the Go code |
| Messages.EncodeGrant | x/feegrant/types/feegrant.pb.go:603-636 | the layout is at least as long as `Granter` and `Grantee` together; Messages.GrantFieldsPlaced places each field, and Messages.MarshalGrantTo and RoundTrip.GrantRoundTrip tie it to the Go code |
| Messages.GrantFieldsPlaced | x/feegrant/types/feegrant.pb.go:603-636 | a non-empty `Granter` field opens the encoding, a non-empty `Grantee` field follows right after it, and a present `Allowance` field closes it |
| Messages.PutString | x/feegrant/types/feegrant.pb.go:620-626 | copying a string, then its length and key, in front of the written bytes puts a whole length-delimited field there |
| Messages.PutRecordsBackward | x/feegrant/types/feegrant.pb.go:418-431 | the backward coin loop leaves the coins' records in list order in front of the written bytes |
| Messages.PutNested | x/feegrant/types/feegrant.pb.go:408-417 | a nested message written in place, then its length and key, forms one length-delimited field |
| Messages.MarshalExpiresAtTo | x/feegrant/types/feegrant.pb.go:567-586 | the back-to-front fill produces the ascending-order encoding (`Time`, then `Height` if non-zero) in front of the bytes after it |
| Messages.MarshalDurationTo | x/feegrant/types/feegrant.pb.go:531-550 | the back-to-front fill produces the ascending-order encoding (`Clock`, then `Block` if non-zero) |
| Messages.MarshalBasicTo | x/feegrant/types/feegrant.pb.go:403-433 | the back-to-front fill produces the coins in order, then `Expiration` |
| Messages.MarshalPeriodicTo | x/feegrant/types/feegrant.pb.go:450-514 | the back-to-front fill produces fields 1, 2, 3, 4, 5 in ascending order |
| Messages.MarshalGrantTo | x/feegrant/types/feegrant.pb.go:603-635 | the back-to-front fill produces `Granter`, `Grantee` and `Allowance` in that order, each only when set |
| Messages.SizedBuffer | x/feegrant/types/feegrant.pb.go:388-396 | the result has the length of the written bytes, and is exactly them when they fill the `Size`-long buffer |
| Messages.MarshalExpiresAt | x/feegrant/types/feegrant.pb.go:552-560 | `Marshal` returns the ascending-order encoding, and its length is `Size` |
| Messages.MarshalDuration | x/feegrant/types/feegrant.pb.go:516-524 | `Marshal` returns the ascending-order encoding, and its length is `Size` |
| Messages.MarshalBasic | x/feegrant/types/feegrant.pb.go:388-396 | `Marshal` returns the ascending-order encoding, and its length is `Size` |
| Messages.MarshalPeriodic | x/feegrant/types/feegrant.pb.go:435-443 | `Marshal` returns the ascending-order encoding, and its length is `Size` |
| Messages.MarshalGrant | x/feegrant/types/feegrant.pb.go:588-596 | `Marshal` returns the ascending-order encoding, and its length is `Size` |
| Messages.ExpiresAtOmitsZeroHeight | x/feegrant/types/feegrant.pb.go:572-576 | the encoding is the `Time` field alone if and only if `Height` is zero |
| Messages.ExpiresAtAlwaysWritesTime | x/feegrant/types/feegrant.pb.go:577-584 | `Time` is written even when zero: the encoding starts with key 0x0a |
| Messages.DurationOmitsZeroBlock | x/feegrant/types/feegrant.pb.go:536-540 | the encoding is the `Clock` field alone if and only if `Block` is zero |
| Messages.GrantEmptyIffZero | x/feegrant/types/feegrant.pb.go:603-635 | a grant encodes to no bytes if and only if it is the zero grant |
| Messages.GrantWritesGranterIffNonEmpty | x/feegrant/types/feegrant.pb.go:627-633 | the encoding starts with the `Granter` key if and only if `Granter` is non-empty |
| Messages.CoinsInOrder | x/feegrant/types/feegrant.pb.go:418-431 | the i-th coin's record sits after the records of the coins before it |
| RoundTrip.ExpiresAtTimeField | x/feegrant/types/feegrant.pb.go:1221-1253 | an encoded `Time` record replaces the time with its payload, and decoding carries on just past the record |
| RoundTrip.ExpiresAtHeightField | x/feegrant/types/feegrant.pb.go:1254-1272 | an encoded `Height` varint replaces the height with the `int64` reading of the value written |
| RoundTrip.DurationClockField | x/feegrant/types/feegrant.pb.go:1116-1148 | an encoded `Clock` record replaces the clock with its payload |
| RoundTrip.DurationBlockField | x/feegrant/types/feegrant.pb.go:1149-1167 | an encoded `Block` varint replaces the block count with the `int64` reading of the value written |
| RoundTrip.BasicCoinField | x/feegrant/types/feegrant.pb.go:776-809 | an encoded `SpendLimit` record appends exactly its coin to the existing list |
| RoundTrip.BasicExpirationField | x/feegrant/types/feegrant.pb.go:810-842 | an encoded `Expiration` record is merged into the existing expiration: the overlay of the encoded value on the old one |
| RoundTrip.PeriodicCoinField | x/feegrant/types/feegrant.pb.go:962-1029 | an encoded `PeriodSpendLimit` or `PeriodCanSpend` record appends its coin to that list only |
| RoundTrip.PeriodicResetField | x/feegrant/types/feegrant.pb.go:1030-1062 | an encoded `PeriodReset` record is merged into the existing reset time: the overlay of the encoded value on the old one |
| RoundTrip.BasicCoins | x/feegrant/types/feegrant.pb.go:776-809 | a run of coin records appends the coins in record order |
| RoundTrip.PeriodicCoins | x/feegrant/types/feegrant.pb.go:962-1029 | a run of records of one coin field appends those coins in order to that list only |
| RoundTrip.GrantField | x/feegrant/types/feegrant.pb.go:1326-1425 | each grant field written by the encoder is read back into its own member |
| RoundTrip.ExpiresAtMerge | x/feegrant/types/feegrant.pb.go:1192-1296 | `Unmarshal.MergeExpiresAt`, decoding an encoding into an existing value, replaces the time, and the height unless the encoded one is zero |
| RoundTrip.DurationMerge | x/feegrant/types/feegrant.pb.go:1087-1191 | `Unmarshal.MergeDuration`, decoding an encoding into an existing value, replaces the clock, and the block count unless the encoded one is zero |
| RoundTrip.BasicMerge | x/feegrant/types/feegrant.pb.go:747-866 | decoding into an existing value appends the coins and merges the expiration |
| RoundTrip.PeriodicMerge | x/feegrant/types/feegrant.pb.go:867-1086 | decoding into an existing value merges the embedded messages and appends both coin lists |
| RoundTrip.GrantMerge | x/feegrant/types/feegrant.pb.go:1297-1449 | decoding into an existing value replaces the non-empty strings and merges a present allowance |
| RoundTrip.ExpiresAtRoundTrip | x/feegrant/types/feegrant.pb.go:1192-1296 | `Unmarshal.UnmarshalExpiresAt` of `Marshal(x)`, decoding into a fresh value, succeeds with `x` |
| RoundTrip.DurationRoundTrip | x/feegrant/types/feegrant.pb.go:1087-1191 | `Unmarshal.UnmarshalDuration` of `Marshal(x)`, decoding into a fresh value, succeeds with `x` |
| RoundTrip.BasicRoundTrip | x/feegrant/types/feegrant.pb.go:747-866 | `Unmarshal.UnmarshalBasic` of `Marshal(x)`, decoding into a fresh value, succeeds with `x` |
| RoundTrip.PeriodicRoundTrip | x/feegrant/types/feegrant.pb.go:867-1086 | `Unmarshal.UnmarshalPeriodic` of `Marshal(x)`, decoding into a fresh value, succeeds with `x` |
| RoundTrip.GrantRoundTrip | x/feegrant/types/feegrant.pb.go:1297-1449 | `Unmarshal.UnmarshalGrant` of `Marshal(x)`, decoding into a fresh value, succeeds with `x` |
| Unmarshal.MergeBasic | x/feegrant/types/feegrant.pb.go:747-866 | unmarshalling into an existing value never drops a `SpendLimit` coin already there; RoundTrip.BasicMerge gives the whole result on an encoding |
| Unmarshal.MergePeriodic | x/feegrant/types/feegrant.pb.go:867-1086 | unmarshalling into an existing value keeps every coin already in `Basic.SpendLimit`, `PeriodSpendLimit` and `PeriodCanSpend`; RoundTrip.PeriodicMerge gives the whole result on an encoding |
| Unmarshal.MergeGrant | x/feegrant/types/feegrant.pb.go:1297-1449 | an `Allowance` already present stays present, and its bytes stay at the front; RoundTrip.GrantMerge gives the whole result on an encoding |
| DecodeCases.EndGroupRejected | x/feegrant/types/feegrant.pb.go:769-771 | every message rejects an end-group key with the end-group-for-non-group error |
| DecodeCases.IllegalTagRejected | x/feegrant/types/feegrant.pb.go:772-774 | every message rejects a key whose `int32` field number is not positive, with the illegal-tag error |
| DecodeCases.KeyOverflowRejected | x/feegrant/types/feegrant.pb.go:753-756 | every message fails with integer overflow on a key of ten continuation bytes |
| DecodeCases.KeyTruncatedRejected | x/feegrant/types/feegrant.pb.go:757-759 | every message fails with unexpected EOF when the input ends inside a key |
| DecodeCases.WrongWireTypeRejected | x/feegrant/types/feegrant.pb.go:777-779 | a known field with a wire type other than its own is rejected in every message that defines it |
| DecodeCases.NegativeLengthRejected | x/feegrant/types/feegrant.pb.go:795-801 | every message fails with invalid length when field 1's length is 2^63 or more |
| DecodeCases.LengthPastEndRejected | x/feegrant/types/feegrant.pb.go:802-804 | every message fails with unexpected EOF when field 1's payload runs past the end |
| DecodeCases.HeightOverflowRejected | x/feegrant/types/feegrant.pb.go:1258-1264 | a `Height` or `Block` varint of ten continuation bytes fails with integer overflow |
| DecodeCases.UnknownFieldIgnored | x/feegrant/types/feegrant.pb.go:843-858 | a well-formed field with a number the message does not define is skipped and leaves the value unchanged |
| DecodeCases.HeightLastWins | x/feegrant/types/feegrant.pb.go:1258-1268 | of two `Height` fields the second one is kept |
| DecodeCases.BlockLastWins | x/feegrant/types/feegrant.pb.go:1153-1163 | of two `Block` fields the second one is kept |
| DecodeCases.TimeLastWins | x/feegrant/types/feegrant.pb.go:1250-1252 | of two `Time` fields the second one is kept |
| DecodeCases.GranterLastWins | x/feegrant/types/feegrant.pb.go:1356 | of two `Granter` fields the second one is kept |
| DecodeCases.AllowancesMerge | x/feegrant/types/feegrant.pb.go:1419-1424 | two `Allowance` fields are merged into one `Any` after any allowance already present |

## Left out

- The foreign codecs `types.Coin`, `types1.Any`, and the standard `Timestamp` and `Duration` (`StdTimeMarshalTo`, `StdDurationUnmarshal` and the rest) are not part of this model. Their values are `Wire.Opaque` payloads taken as their own encoding. Errors those codecs would return while decoding a payload are not modelled.
- The zero `Time` and `Clock` are modelled as an empty payload. In Go, the zero `time.Time` encodes to non-empty bytes. Both fields are always written, so the round trips do not depend on this.
- `Unmarshal.MergeAny`: a second `Allowance` is unmarshalled into the existing `Any`. The model concatenates the wire bytes, which is what a Protocol Buffers merge of two encodings means. It does not model `Any`'s own field-by-field overwrite.
- Bytes are a subtype of `int` in 0..255, not `bv8`.
- Nil receivers (`if m == nil { return 0 }` in `Size`) cannot be expressed with Dafny datatypes, which are never nil.
- `MarshalTo` (which only slices to `Size` and calls `MarshalToSizedBuffer`) is left out. So are the descriptor, `XXX_` and registration plumbing, and the getters.
- The rest of the fee-grant module (keeper, allowance accounting, messages, queries) is not part of this model.
- `Unmarshal.Merge*`: the wrong-wire-type error records the field number and the wire type, not the field name Go prints.
- `Wire.Error` does not record which message reported an error. Go's messages name it (`proto: BasicFeeAllowance: wiretype end group for non-group`, and the same for the other four messages), so the model cannot tell an error inside a nested `ExpiresAt` from one in the enclosing message. `IllegalTag` keeps the field number but not the raw key value Go prints with it.
- `Unmarshal.Merge*`: on an error, Go has already changed the receiver in place. It appends an empty coin before reading the coin, zeroes `Height` and `Block` before reading the varint, and replaces `Granter` or `Grantee`. A caller reusing the value after an error sees that partial merge. The model returns only the error and does not describe the receiver's state on the error paths.
- `Messages.Marshal*` and `Messages.Marshal*To` always succeed. Go's `Marshal` and `MarshalToSizedBuffer` pass on errors from the embedded messages' encoders and from the foreign ones (`types.Coin`, `Any`, `StdTimeMarshalTo`, `StdDurationMarshalTo`). The embedded messages of this file can fail only through the foreign codecs they call, and those are opaque here, so their encode-side errors are not modelled.
- The final `if iNdEx > l` check of each `Unmarshal` cannot fire. Every step stops at or before the end of the input, so the model has no such branch.
- RoundTrip.ExpiresAtRoundTrip: stated for encodings shorter than 2^63 bytes, the longest a Go `int` length can describe.
- RoundTrip.DurationRoundTrip: stated for encodings shorter than 2^63 bytes, the longest a Go `int` length can describe.
- RoundTrip.BasicRoundTrip: stated for encodings shorter than 2^63 bytes, the longest a Go `int` length can describe.
- RoundTrip.PeriodicRoundTrip: stated for encodings shorter than 2^63 bytes, the longest a Go `int` length can describe.
- RoundTrip.GrantRoundTrip: stated for encodings shorter than 2^63 bytes, the longest a Go `int` length can describe.
- Go's slice bounds checks (a panic on a short buffer) are not modelled as errors. Every index in the model is proved to be in bounds, and `MarshalToSizedBuffer` always gets a buffer of exactly `Size` bytes.
