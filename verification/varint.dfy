/**
 Base-128 varints as written by `encodeVarintFeegrant`, measured by
 `sovFeegrant`/`sozFeegrant`, and read back by the decode loop that every
 `Unmarshal` of the file repeats inline.
 */
module Varint {
  import opened Wire

  /** The bytes `encodeVarintFeegrant` writes for `v`: seven bits per byte,
      least significant group first, high bit set on all bytes but the last. */
  function EncodeVarint(v: nat): (r: seq<byte>)
    ensures |r| >= 1
    decreases v
  {
    if v < 128 then [v] else [v % 128 + 128] + EncodeVarint(v / 128)
  }

  /** Every byte but the last carries the continuation bit; the last does not. */
  lemma {:induction false} ContinuationBits(v: nat)
    ensures var r := EncodeVarint(v);
      && r[|r| - 1] < 128
      && forall i :: 0 <= i < |r| - 1 ==> r[i] >= 128
    decreases v
  {
    if v >= 128 {
      ContinuationBits(v / 128);
      var r := EncodeVarint(v);
      assert r == [v % 128 + 128] + EncodeVarint(v / 128);
      forall i | 1 <= i < |r| - 1
        ensures r[i] >= 128
      {
        assert r[i] == EncodeVarint(v / 128)[i - 1];
      }
    }
  }

  /** `math/bits.Len64`: the number of bits needed to write `x`. */
  function BitLen(x: nat): nat {
    if x == 0 then 0 else 1 + BitLen(x / 2)
  }

  /** `x | 1` */
  function Or1(x: nat): nat {
    if x % 2 == 0 then x + 1 else x
  }

  /** `sovFeegrant`: `(Len64(x|1) + 6) / 7`. */
  function Sov(x: nat): (r: nat)
    ensures r >= 1
  {
    (BitLen(Or1(x)) + 6) / 7
  }

  function Pow128(n: nat): (r: nat)
    ensures r >= 1
  {
    if n == 0 then 1 else 128 * Pow128(n - 1)
  }

  lemma BitLenOr1(y: nat)
    requires y >= 1
    ensures BitLen(Or1(y)) == BitLen(y)
  {
    if y % 2 == 0 {
      assert (y + 1) / 2 == y / 2;
    }
  }

  function Pow2(n: nat): (r: nat)
    ensures r >= 1
  {
    if n == 0 then 1 else 2 * Pow2(n - 1)
  }

  lemma {:induction false} BitLenBelow(x: nat, n: nat)
    requires x < Pow2(n)
    ensures BitLen(x) <= n
    decreases n
  {
    if x > 0 {
      BitLenBelow(x / 2, n - 1);
    }
  }

  lemma BitLenSmall(x: nat)
    requires 1 <= x < 128
    ensures 1 <= BitLen(x) <= 7
  {
    assert Pow2(7) == 128 by {
      assert Pow2(1) == 2 && Pow2(2) == 4 && Pow2(3) == 8 && Pow2(4) == 16 && Pow2(5) == 32;
    }
    BitLenBelow(x, 7);
  }

  lemma BitLenShift7(x: nat)
    requires x >= 128
    ensures BitLen(x) == 7 + BitLen(x / 128)
  {
    var x1 := x / 2;
    var x2 := x1 / 2;
    var x3 := x2 / 2;
    var x4 := x3 / 2;
    var x5 := x4 / 2;
    var x6 := x5 / 2;
    assert x6 / 2 == x / 128;
    assert BitLen(x) == 1 + BitLen(x1);
    assert BitLen(x1) == 1 + BitLen(x2);
    assert BitLen(x2) == 1 + BitLen(x3);
    assert BitLen(x3) == 1 + BitLen(x4);
    assert BitLen(x4) == 1 + BitLen(x5);
    assert BitLen(x5) == 1 + BitLen(x6);
    assert BitLen(x6) == 1 + BitLen(x6 / 2);
  }

  /** `sovFeegrant(v)` is the number of bytes `encodeVarintFeegrant` writes. */
  lemma {:induction false} SovIsVarintLength(v: nat)
    ensures Sov(v) == |EncodeVarint(v)|
    decreases v
  {
    if v < 128 {
      BitLenSmall(Or1(v));
    } else {
      SovIsVarintLength(v / 128);
      BitLenOr1(v);
      BitLenOr1(v / 128);
      BitLenShift7(v);
    }
  }

  /** `Sov(v)` is the least `n >= 1` with `v < 128^n`, i.e. ceil(bitlen(v|1) / 7). */
  lemma {:induction false} SovIsLeastPower(v: nat)
    ensures v < Pow128(Sov(v))
    ensures Sov(v) >= 2 ==> Pow128(Sov(v) - 1) <= v
    decreases v
  {
    SovIsVarintLength(v);
    if v >= 128 {
      SovIsLeastPower(v / 128);
      SovIsVarintLength(v / 128);
    }
  }

  lemma {:induction false} VarintLengthBound(v: nat, n: nat)
    requires n >= 1 && v < Pow128(n)
    ensures |EncodeVarint(v)| <= n
    decreases n
  {
    if v >= 128 {
      VarintLengthBound(v / 128, n - 1);
    }
  }

  lemma Pow128Nine()
    ensures Pow128(9) == TWO63
    ensures Pow128(10) == 128 * TWO63
  {
    assert Pow128(1) == 0x80;
    assert Pow128(2) == 0x4000;
    assert Pow128(3) == 0x20_0000;
    assert Pow128(4) == 0x1000_0000;
    assert Pow128(5) == 0x8_0000_0000;
    assert Pow128(6) == 0x400_0000_0000;
    assert Pow128(7) == 0x2_0000_0000_0000;
    assert Pow128(8) == 0x100_0000_0000_0000;
  }

  /** Every 64-bit value takes between one and ten bytes. */
  lemma SovBounds(v: uint64)
    ensures 1 <= Sov(v) <= 10
    ensures Sov(v) == 10 <==> v >= TWO63
  {
    Pow128Nine();
    SovIsVarintLength(v);
    VarintLengthBound(v, 10);
    SovIsLeastPower(v);
    if v < TWO63 {
      VarintLengthBound(v, 9);
    }
  }

  /** A negative `Height`/`Block`, cast to `uint64`, always takes ten bytes. */
  lemma NegativeTakesTenBytes(x: int64)
    requires x < 0
    ensures |EncodeVarint(Uint64Of(x))| == 10
  {
    SovBounds(Uint64Of(x));
    SovIsVarintLength(Uint64Of(x));
  }

  /**
   `encodeVarintFeegrant(dAtA, offset, v)`: steps `offset` back by `Sov(v)`,
   writes the varint forwards from there and returns the new start. Only the
   bytes in `[base, offset)` change.
   */
  method EncodeVarintInto(buf: seq<byte>, offset: nat, v: uint64) returns (out: seq<byte>, base: nat)
    requires Sov(v) <= offset <= |buf|
    ensures base == offset - Sov(v)
    ensures |out| == |buf|
    ensures out[base..offset] == EncodeVarint(v)
    ensures out[..base] == buf[..base]
    ensures out[offset..] == buf[offset..]
  {
    SovIsVarintLength(v);
    base := offset - Sov(v);
    var off := base;
    var w: nat := v;
    ghost var written: seq<byte> := [];
    out := buf;
    assert out == buf[..base] + written + buf[off..];
    while w >= 128
      invariant base <= off && off + |EncodeVarint(w)| == offset
      invariant |written| == off - base
      invariant out == buf[..base] + written + buf[off..]
      invariant written + EncodeVarint(w) == EncodeVarint(v)
      decreases w
    {
      var b: byte := w % 128 + 128;
      WriteStep(buf, base, written, off, w, v);
      out := out[off := b];
      written := written + [b];
      w := w / 128;
      off := off + 1;
    }
    LastStep(buf, base, written, off, w, v, offset);
    out := out[off := w];
    written := written + [w];
  }

  /** The final store of `encodeVarintFeegrant` completes the varint. */
  lemma LastStep(buf: seq<byte>, base: nat, written: seq<byte>, off: nat, w: nat, v: nat, offset: nat)
    requires w < 128
    requires base + |written| == off && off + |EncodeVarint(w)| == offset <= |buf|
    requires written + EncodeVarint(w) == EncodeVarint(v)
    ensures var out := (buf[..base] + written + buf[off..])[off := w];
      && |out| == |buf|
      && out[base..offset] == EncodeVarint(v)
      && out[..base] == buf[..base]
      && out[offset..] == buf[offset..]
  {
    Overwrite(buf, base, written, off, w);
    Framed(buf, base, written + [w], offset, buf[..base] + (written + [w]) + buf[off + 1..]);
  }

  lemma Framed(buf: seq<byte>, base: nat, written: seq<byte>, offset: nat, out: seq<byte>)
    requires base + |written| == offset <= |buf|
    requires out == buf[..base] + written + buf[offset..]
    ensures |out| == |buf|
    ensures out[base..offset] == written
    ensures out[..base] == buf[..base]
    ensures out[offset..] == buf[offset..]
  {
  }

  /** One iteration of the loop in `encodeVarintFeegrant` keeps its invariant. */
  lemma WriteStep(buf: seq<byte>, base: nat, written: seq<byte>, off: nat, w: nat, v: nat)
    requires w >= 128
    requires base + |written| == off && off + |EncodeVarint(w)| <= |buf|
    requires written + EncodeVarint(w) == EncodeVarint(v)
    ensures off + 1 + |EncodeVarint(w / 128)| == off + |EncodeVarint(w)|
    ensures (buf[..base] + written + buf[off..])[off := w % 128 + 128]
         == buf[..base] + (written + [w % 128 + 128]) + buf[off + 1..]
    ensures (written + [w % 128 + 128]) + EncodeVarint(w / 128) == EncodeVarint(v)
  {
    UnfoldVarint(w);
    Overwrite(buf, base, written, off, w % 128 + 128);
  }

  lemma UnfoldVarint(w: nat)
    requires w >= 128
    ensures EncodeVarint(w) == [w % 128 + 128] + EncodeVarint(w / 128)
    ensures |EncodeVarint(w)| == 1 + |EncodeVarint(w / 128)|
  {
  }

  lemma Overwrite(buf: seq<byte>, base: nat, written: seq<byte>, off: nat, b: byte)
    requires base + |written| == off < |buf|
    ensures (buf[..base] + written + buf[off..])[off := b] == buf[..base] + (written + [b]) + buf[off + 1..]
  {
  }

  /** The varint-writing step of the back-to-front fill, seen from the tail:
      it puts `EncodeVarint(v)` in front of what was already written. */
  lemma EncodeVarintPrepends(buf: seq<byte>, offset: nat, v: uint64, out: seq<byte>, base: nat)
    requires Sov(v) <= offset <= |buf|
    requires base == offset - Sov(v) && |out| == |buf|
    requires out[base..offset] == EncodeVarint(v) && out[offset..] == buf[offset..]
    ensures out[base..] == EncodeVarint(v) + buf[offset..]
  {
    assert out[base..] == out[base..offset] + out[offset..];
  }

  /** `sozFeegrant`'s argument: `(x << 1) ^ uint64(int64(x) >> 63)`, where the
      arithmetic shift yields all ones for a negative `x` and zero otherwise. */
  function ZigZag(x: uint64): (z: uint64)
    ensures z % 2 == (if Int64Of(x) < 0 then 1 else 0)
  {
    var shifted := (2 * x) % TWO64;
    if Int64Of(x) < 0 then TWO64 - 1 - shifted else shifted
  }

  /** `sozFeegrant`. */
  function Soz(x: uint64): (r: nat)
    ensures r >= 1
  {
    Sov(ZigZag(x))
  }

  /** ZigZag maps the signed value `s` to `2s` or `-2s - 1`. */
  lemma ZigZagSigned(x: uint64)
    ensures var s := Int64Of(x); ZigZag(x) == if s >= 0 then 2 * s else -2 * s - 1
  {
  }

  /** The decoder's inverse of ZigZag (defined independently, from the signed reading). */
  function UnZigZag(z: uint64): uint64 {
    if z % 2 == 0 then z / 2 else Uint64Of(-(z + 1) / 2)
  }

  lemma ZigZagRoundTrip(x: uint64)
    ensures UnZigZag(ZigZag(x)) == x
  {
    ZigZagSigned(x);
  }

  /** Small magnitudes of either sign take one byte under ZigZag. */
  lemma SozSmall(s: int64)
    requires -64 <= s < 64
    ensures Soz(Uint64Of(s)) == 1
  {
    ZigZagSigned(Uint64Of(s));
    var z := ZigZag(Uint64Of(s));
    assert z < 128;
    SovIsVarintLength(z);
  }

  /** One step of the inline decode loop, before truncation to 64 bits: `k`
      bytes have been read already; the loop stops on a byte below 0x80, on
      the eleventh byte (shift >= 64) or at the end of the input. On success
      yields the untruncated value and the index after the last byte. */
  function ScanVarint(data: seq<byte>, pos: nat, k: nat): (r: Result<(nat, nat)>)
    requires k <= 10
    ensures r.Success? ==> pos < r.value.1 <= |data| && r.value.1 - pos <= 10 - k
    decreases 10 - k
  {
    if k >= 10 then Failure(IntOverflow)
    else if pos >= |data| then Failure(UnexpectedEOF)
    else if data[pos] < 128 then Success((data[pos], pos + 1))
    else
      match ScanVarint(data, pos + 1, k + 1)
      case Failure(e) => Failure(e)
      case Success((v, next)) => Success((data[pos] - 128 + 128 * v, next))
  }

  datatype VarintRead = VarintRead(value: uint64, next: nat)

  /** The decode loop `for shift := uint(0); ; shift += 7 { ... x |= uint64(b&0x7F) << shift ... }`.
      The seven-bit groups land in disjoint bit ranges, so the OR is a sum, and
      the shift into a `uint64` drops whatever lies above bit 63. */
  function ReadVarint(data: seq<byte>, pos: nat): (r: Result<VarintRead>)
    ensures r.Success? ==> pos < r.value.next <= |data| && r.value.next <= pos + 10
  {
    var scan :- ScanVarint(data, pos, 0);
    Success(VarintRead(scan.0 % TWO64, scan.1))
  }

  lemma {:induction false} ScanEncoded(data: seq<byte>, pos: nat, k: nat, v: nat)
    requires k + |EncodeVarint(v)| <= 10
    requires At(data, pos, EncodeVarint(v))
    ensures ScanVarint(data, pos, k) == Success((v, pos + |EncodeVarint(v)|))
    decreases v
  {
    if v < 128 {
      assert data[pos] == EncodeVarint(v)[0] == v;
    } else {
      var rest := EncodeVarint(v / 128);
      assert EncodeVarint(v) == [v % 128 + 128] + rest;
      AtSplit(data, pos, [v % 128 + 128], rest);
      assert data[pos] == v % 128 + 128;
      ScanEncoded(data, pos + 1, k + 1, v / 128);
      assert ScanVarint(data, pos + 1, k + 1) == Success((v / 128, pos + 1 + |rest|));
      assert (v % 128 + 128) - 128 + 128 * (v / 128) == v;
    }
  }

  /** Decoding the bytes of `encodeVarintFeegrant` recovers `v` and stops right after them. */
  lemma ReadEncoded(data: seq<byte>, pos: nat, v: uint64)
    requires At(data, pos, EncodeVarint(v))
    ensures ReadVarint(data, pos) == Success(VarintRead(v, pos + |EncodeVarint(v)|))
  {
    EncodedFitsLoop(v);
    ScanEncoded(data, pos, 0, v);
    ReadFromScan(data, pos, v, pos + |EncodeVarint(v)|);
  }

  /** The encoding of a 64-bit value fits in the ten bytes the decode loop reads. */
  lemma EncodedFitsLoop(v: uint64)
    ensures |EncodeVarint(v)| <= 10
  {
    SovBounds(v);
    SovIsVarintLength(v);
  }

  /** A value below 2^64 survives the truncation to 64 bits. */
  lemma ReadFromScan(data: seq<byte>, pos: nat, v: nat, next: nat)
    requires v < TWO64 && ScanVarint(data, pos, 0) == Success((v, next))
    ensures ReadVarint(data, pos) == Success(VarintRead(v, next))
  {
  }

  /** A signed field written through its `uint64` cast reads back as the same signed value. */
  lemma ReadEncodedSigned(data: seq<byte>, pos: nat, x: int64)
    requires At(data, pos, EncodeVarint(Uint64Of(x)))
    ensures ReadVarint(data, pos).Success?
    ensures Int64Of(ReadVarint(data, pos).value.value) == x
    ensures ReadVarint(data, pos).value.next == pos + |EncodeVarint(Uint64Of(x))|
  {
    ReadEncoded(data, pos, Uint64Of(x));
  }

  /** Ten continuation bytes in a row make the loop reach shift 70: integer overflow. */
  lemma {:induction false} ScanOverflow(data: seq<byte>, pos: nat, k: nat)
    requires k <= 10
    requires pos + (10 - k) <= |data|
    requires forall j :: pos <= j < pos + (10 - k) ==> data[j] >= 128
    ensures ScanVarint(data, pos, k) == Failure(IntOverflow)
    decreases 10 - k
  {
    if k < 10 {
      ScanOverflow(data, pos + 1, k + 1);
    }
  }

  lemma ReadOverflow(data: seq<byte>, pos: nat)
    requires pos + 10 <= |data|
    requires forall j :: pos <= j < pos + 10 ==> data[j] >= 128
    ensures ReadVarint(data, pos) == Failure(IntOverflow)
  {
    ScanOverflow(data, pos, 0);
  }

  /** Input that ends (within ten bytes) while every byte so far asks for more: EOF. */
  lemma {:induction false} ScanTruncated(data: seq<byte>, pos: nat, k: nat)
    requires k <= 10 && pos <= |data|
    requires |data| < pos + (10 - k)
    requires forall j :: pos <= j < |data| ==> data[j] >= 128
    ensures ScanVarint(data, pos, k) == Failure(UnexpectedEOF)
    decreases 10 - k
  {
    if pos < |data| {
      ScanTruncated(data, pos + 1, k + 1);
    }
  }

  lemma ReadTruncated(data: seq<byte>, pos: nat)
    requires pos <= |data| < pos + 10
    requires forall j :: pos <= j < |data| ==> data[j] >= 128
    ensures ReadVarint(data, pos) == Failure(UnexpectedEOF)
  {
    ScanTruncated(data, pos, 0);
  }
}
