/**
 Machine types, wrappers and error values shared by the fee-grant codec model.

 Go's fixed-width integers are modelled as subsets of `int`; every place where the
 generated code relies on a wrap-around or a truncating conversion spells it out
 with one of the conversion functions below.
 */
module Wire {

  const TWO31: int := 0x8000_0000
  const TWO32: int := 0x1_0000_0000
  const TWO63: int := 0x8000_0000_0000_0000
  const TWO64: int := 0x1_0000_0000_0000_0000

  type byte = b: int | 0 <= b < 256
  type uint64 = x: int | 0 <= x < TWO64
  type int64 = x: int | -TWO63 <= x < TWO63

  /** `uint64(x)` for an `int64` x: two's-complement reinterpretation. */
  function Uint64Of(x: int64): (r: uint64)
    ensures x >= 0 ==> r == x
    ensures x < 0 ==> r >= TWO63
  {
    if x < 0 then x + TWO64 else x
  }

  /** `int64(x)` for a `uint64` x: two's-complement reinterpretation. */
  function Int64Of(x: uint64): (r: int64)
    ensures (r < 0) == (x >= TWO63)
  {
    if x < TWO63 then x else x - TWO64
  }

  lemma SignedRoundTrip(x: int64, u: uint64)
    ensures Int64Of(Uint64Of(x)) == x
    ensures Uint64Of(Int64Of(u)) == u
  {
  }

  /** `int32(x)` for a `uint64` x: keeps the low 32 bits, read as signed. */
  function Int32Of(x: nat): (r: int)
    ensures -TWO31 <= r < TWO31
    ensures x < TWO31 ==> r == x
  {
    var low := x % TWO32;
    if low < TWO31 then low else low - TWO32
  }

  /** A value of a message type whose code is not part of this model
      (a coin, an `Any`, a standard timestamp or duration), carried as
      the bytes of its own encoding. */
  datatype Opaque = Opaque(payload: seq<byte>)

  datatype Option<+T> = None | Some(value: T)

  /** The error outcomes of the generated unmarshalling code. */
  datatype Error =
    | IntOverflow            // ErrIntOverflowFeegrant: a varint longer than ten bytes
    | UnexpectedEOF          // io.ErrUnexpectedEOF: input ends inside a field
    | InvalidLength          // ErrInvalidLengthFeegrant: a length that is negative as a Go int
    | UnexpectedEndOfGroup   // ErrUnexpectedEndOfGroupFeegrant: end-group with no open group
    | EndGroupForNonGroup    // "wiretype end group for non-group"
    | IllegalTag(fieldNum: int)
    | WrongWireType(fieldNum: int, wireType: nat)
    | IllegalWireType(wireType: nat)

  datatype Result<+T> = Success(value: T) | Failure(error: Error) {
    predicate IsFailure() {
      Failure?
    }

    function PropagateFailure<U>(): Result<U>
      requires Failure?
    {
      Failure(error)
    }

    function Extract(): T
      requires Success?
    {
      value
    }
  }

  lemma HeadTail<T>(s: seq<T>)
    requires |s| > 0
    ensures [s[0]] + s[1..] == s
  {
  }

  /** Appending the head and then the rest of `s` appends `s`. */
  lemma AppendCons<T>(a: seq<T>, s: seq<T>)
    requires |s| > 0
    ensures a + [s[0]] + s[1..] == a + s
  {
    assert s == [s[0]] + s[1..];
  }

  /** `x` occurs in `data` starting at index `pos`, stated byte by byte. */
  predicate At(data: seq<byte>, pos: nat, x: seq<byte>)
    ensures At(data, pos, x) ==> pos + |x| <= |data|
    decreases |x|
  {
    if |x| == 0 then pos <= |data|
    else pos < |data| && data[pos] == x[0] && At(data, pos + 1, x[1..])
  }

  lemma {:induction false} AtSlice(data: seq<byte>, pos: nat, x: seq<byte>)
    ensures At(data, pos, x) <==> pos + |x| <= |data| && data[pos..pos + |x|] == x
    decreases |x|
  {
    if |x| > 0 {
      AtSlice(data, pos + 1, x[1..]);
      if pos + |x| <= |data| {
        assert data[pos..pos + |x|] == [data[pos]] + data[pos + 1..pos + |x|];
        assert x == [x[0]] + x[1..];
      }
    }
  }

  lemma AtSplit(data: seq<byte>, pos: nat, x: seq<byte>, y: seq<byte>)
    requires At(data, pos, x + y)
    ensures At(data, pos, x) && At(data, pos + |x|, y)
  {
    AtSlice(data, pos, x + y);
    AtSlice(data, pos, x);
    AtSlice(data, pos + |x|, y);
    assert data[pos..pos + |x|] == (x + y)[..|x|];
    assert data[pos + |x|..pos + |x| + |y|] == (x + y)[|x|..];
  }

  /** Every sequence occurs in itself at index 0. */
  lemma AtWhole(x: seq<byte>)
    ensures At(x, 0, x)
  {
    AtSlice(x, 0, x);
  }

  /** A sequence that starts with `x` has `x` at index 0. */
  lemma AtFront(x: seq<byte>, rest: seq<byte>)
    ensures At(x + rest, 0, x)
  {
    AtSlice(x + rest, 0, x);
    assert (x + rest)[..|x|] == x;
  }

  /** A sequence that ends with `y` has `y` right after its first part. */
  lemma AtBack(x: seq<byte>, y: seq<byte>)
    ensures At(x + y, |x|, y)
  {
    AtSlice(x + y, |x|, y);
    assert (x + y)[|x|..|x| + |y|] == y;
  }

  /** Where each of five consecutive pieces sits in their concatenation. */
  lemma AtParts5(a: seq<byte>, b: seq<byte>, c: seq<byte>, d: seq<byte>, e: seq<byte>,
                 p1: nat, p2: nat, p3: nat, p4: nat)
    requires p1 == |a| && p2 == p1 + |b| && p3 == p2 + |c| && p4 == p3 + |d|
    ensures At(a + b + c + d + e, 0, a) && At(a + b + c + d + e, p1, b) && At(a + b + c + d + e, p2, c)
    ensures At(a + b + c + d + e, p3, d) && At(a + b + c + d + e, p4, e)
    ensures |a + b + c + d + e| == p4 + |e|
  {
    var r := b + (c + (d + e));
    SeqAssoc5(a, b, c, d, e);
    AtFront(a, r);
    AtBack(a, r);
    AtSplitAt(a + r, p1, b, c + (d + e), p2);
    AtSplitAt(a + r, p2, c, d + e, p3);
    AtSplitAt(a + r, p3, d, e, p4);
  }

  /** Where each of three consecutive pieces sits in their concatenation. */
  lemma AtParts3(a: seq<byte>, b: seq<byte>, c: seq<byte>, p1: nat, p2: nat)
    requires p1 == |a| && p2 == p1 + |b|
    ensures At(a + b + c, 0, a) && At(a + b + c, p1, b) && At(a + b + c, p2, c)
    ensures |a + b + c| == p2 + |c|
  {
    var r := b + c;
    assert a + b + c == a + r;
    AtFront(a, r);
    AtBack(a, r);
    AtSplitAt(a + r, p1, b, c, p2);
  }

  lemma SeqAssoc5<T>(a: seq<T>, b: seq<T>, c: seq<T>, d: seq<T>, e: seq<T>)
    ensures a + b + c + d + e == a + (b + (c + (d + e)))
  {
  }

  /** AtSplit with the second piece's position given by the caller. */
  lemma AtSplitAt(data: seq<byte>, pos: nat, x: seq<byte>, y: seq<byte>, q: nat)
    requires At(data, pos, x + y) && q == pos + |x|
    ensures At(data, pos, x) && At(data, q, y) && pos + |x + y| <= |data|
  {
    AtSplit(data, pos, x, y);
    AtSlice(data, pos, x + y);
  }

  /** What occurs at `pos` occurs at the front of the suffix from `pos`. */
  lemma AtSuffix(data: seq<byte>, pos: nat, x: seq<byte>)
    requires At(data, pos, x)
    ensures At(data[pos..], 0, x)
  {
    AtSlice(data, pos, x);
    AtSlice(data[pos..], 0, x);
    assert data[pos..][..|x|] == data[pos..pos + |x|];
  }
}
