/**
 * Bit-level conversion primitives of the link simulator.
 *
 * Bit sequences are most-significant-bit first (the bitarray default).
 * Integers are packed at a fixed width, unsigned or in two's complement;
 * bit sequences are concatenated (`join`) and cut into equal-width pieces
 * (`split`); channel values in [-1, 1] are quantised to indices in
 * [0, 2^bits - 1] and back, with Python's round-half-to-even.
 */
module Converters {
  import opened Options

  type Bit = b: nat | b < 2
  type Bits = seq<Bit>

  function Pow2(n: nat): (r: int)
    ensures r >= 1
  {
    if n == 0 then 1 else 2 * Pow2(n - 1)
  }

  /** The width-`n` sequence of zero bits. */
  function Zeros(n: nat): (r: Bits)
    ensures |r| == n && forall i :: 0 <= i < n ==> r[i] == 0
  {
    if n == 0 then [] else Zeros(n - 1) + [0]
  }

  /** The width-`n` sequence of one bits. */
  function Ones(n: nat): (r: Bits)
    ensures |r| == n && forall i :: 0 <= i < n ==> r[i] == 1
  {
    if n == 0 then [] else Ones(n - 1) + [1]
  }

  // ---------------------------------------------------------------------------
  // Fixed-width integers (i2b / b2i)
  // ---------------------------------------------------------------------------

  /** Unsigned value of a bit sequence, most significant bit first. */
  function UValue(b: Bits): (r: nat)
    ensures r < Pow2(|b|)
  {
    if b == [] then 0 else 2 * UValue(b[..|b| - 1]) + b[|b| - 1]
  }

  /** The leading bit is set exactly when the unsigned value reaches 2^(n-1). */
  lemma {:induction false} LeadingBit(b: Bits)
    requires |b| > 0
    ensures b[0] == 1 <==> UValue(b) >= Pow2(|b| - 1)
  {
    if |b| > 1 {
      var p := b[..|b| - 1];
      LeadingBit(p);
      assert p[0] == b[0];
    }
  }

  /** Two's-complement value: the leading bit weighs -2^(n-1). */
  function SValue(b: Bits): (r: int)
    requires |b| > 0
    ensures -Pow2(|b| - 1) <= r < Pow2(|b| - 1)
    ensures r < 0 <==> b[0] == 1
  {
    LeadingBit(b);
    if b[0] == 1 then UValue(b) - Pow2(|b|) else UValue(b)
  }

  /**
   * Whether `v` can be packed into `width` bits: the packing routine refuses a
   * width below one and a value outside the range of the width.
   */
  predicate Fits(v: int, width: nat, signed: bool)
  {
    width >= 1 &&
    if signed then -Pow2(width - 1) <= v < Pow2(width - 1) else 0 <= v < Pow2(width)
  }

  /** The `width`-bit unsigned pattern of `v`. */
  function UBits(v: nat, width: nat): (r: Bits)
    requires v < Pow2(width)
    ensures |r| == width
  {
    if width == 0 then [] else UBits(v / 2, width - 1) + [v % 2]
  }

  lemma {:induction false} UValueOfUBits(v: nat, width: nat)
    requires v < Pow2(width)
    ensures UValue(UBits(v, width)) == v
  {
    if width > 0 {
      UValueOfUBits(v / 2, width - 1);
      var r := UBits(v, width);
      assert r[..width - 1] == UBits(v / 2, width - 1);
    }
  }

  lemma {:induction false} UBitsOfUValue(b: Bits)
    ensures UBits(UValue(b), |b|) == b
  {
    if b != [] {
      var p := b[..|b| - 1];
      UBitsOfUValue(p);
      assert UValue(b) / 2 == UValue(p) && UValue(b) % 2 == b[|b| - 1];
      assert b == p + [b[|b| - 1]];
    }
  }

  /** b2i: the value of a non-empty bit sequence, in two's complement when `signed`. */
  function BitsToInt(b: Bits, signed: bool): (r: int)
    requires |b| > 0
    ensures Fits(r, |b|, signed)
  {
    if signed then SValue(b) else UValue(b)
  }

  /**
   * i2b: `v` packed into exactly `width` bits, or None where packing raises
   * (a width below one, or a value out of range). Decoding gives `v` back.
   */
  function IntToBits(v: int, width: nat, signed: bool): (r: Option<Bits>)
    ensures r.Some? <==> Fits(v, width, signed)
    ensures r.Some? ==> |r.value| == width && BitsToInt(r.value, signed) == v
  {
    if !Fits(v, width, signed) then None
    else
      var u := if v < 0 then v + Pow2(width) else v;
      UValueOfUBits(u, width);
      LeadingBit(UBits(u, width));
      Some(UBits(u, width))
  }

  /** Every bit sequence is the packing of its own value: b2i then i2b is the identity. */
  lemma BitsToIntRoundTrip(b: Bits, signed: bool)
    requires |b| > 0
    ensures IntToBits(BitsToInt(b, signed), |b|, signed) == Some(b)
  {
    UBitsOfUValue(b);
    LeadingBit(b);
  }

  // ---------------------------------------------------------------------------
  // Elementwise variants (i2b_s / b2i_s)
  // ---------------------------------------------------------------------------

  /** i2b_s: i2b on every value, in order; None as soon as one value cannot be packed. */
  function IntsToBits(values: seq<int>, width: nat, signed: bool): (r: Option<seq<Bits>>)
    ensures r.Some? <==> forall i :: 0 <= i < |values| ==> Fits(values[i], width, signed)
    ensures r.Some? ==>
              && |r.value| == |values|
              && forall i :: 0 <= i < |values| ==> IntToBits(values[i], width, signed) == Some(r.value[i])
  {
    if values == [] then Some([])
    else
      match IntToBits(values[0], width, signed)
      case None => None
      case Some(b) =>
        match IntsToBits(values[1..], width, signed)
        case None => None
        case Some(bs) => Some([b] + bs)
  }

  predicate AllNonEmpty(pieces: seq<Bits>)
  {
    forall i :: 0 <= i < |pieces| ==> |pieces[i]| > 0
  }

  predicate AllOfWidth(pieces: seq<Bits>, w: nat)
  {
    forall i :: 0 <= i < |pieces| ==> |pieces[i]| == w
  }

  /** b2i_s: b2i on every piece, in order. */
  function BitsToInts(pieces: seq<Bits>, signed: bool): (r: seq<int>)
    requires AllNonEmpty(pieces)
    ensures |r| == |pieces| && forall i :: 0 <= i < |r| ==> r[i] == BitsToInt(pieces[i], signed)
  {
    if pieces == [] then [] else [BitsToInt(pieces[0], signed)] + BitsToInts(pieces[1..], signed)
  }

  /** Packing a list of in-range values and decoding the pieces gives the values back. */
  lemma IntsRoundTrip(values: seq<int>, width: nat, signed: bool)
    requires forall i :: 0 <= i < |values| ==> Fits(values[i], width, signed)
    ensures IntsToBits(values, width, signed).Some?
    ensures AllOfWidth(IntsToBits(values, width, signed).value, width)
    ensures AllNonEmpty(IntsToBits(values, width, signed).value)
    ensures BitsToInts(IntsToBits(values, width, signed).value, signed) == values
  {
  }

  /** Decoding equal-width pieces and packing the values again gives the pieces back. */
  lemma PiecesRoundTrip(pieces: seq<Bits>, width: nat, signed: bool)
    requires width >= 1 && AllOfWidth(pieces, width)
    ensures IntsToBits(BitsToInts(pieces, signed), width, signed) == Some(pieces)
  {
    var values := BitsToInts(pieces, signed);
    forall i | 0 <= i < |pieces|
      ensures IntToBits(values[i], width, signed) == Some(pieces[i])
    {
      BitsToIntRoundTrip(pieces[i], signed);
    }
    var r := IntsToBits(values, width, signed);
    assert r.Some?;
    assert r.value == pieces;
  }

  // ---------------------------------------------------------------------------
  // Concatenation (join) and chunking (split)
  // ---------------------------------------------------------------------------

  /** join: the pieces concatenated in order, as a left fold with no initial value. */
  function Join(pieces: seq<Bits>): (r: Bits)
    requires |pieces| > 0
  {
    if |pieces| == 1 then pieces[0] else Join(pieces[..|pieces| - 1]) + pieces[|pieces| - 1]
  }

  /** Reference concatenation, folded from the right and defined on the empty list. */
  function Flatten(pieces: seq<Bits>): Bits
  {
    if pieces == [] then [] else pieces[0] + Flatten(pieces[1..])
  }

  function TotalLength(pieces: seq<Bits>): nat
  {
    if pieces == [] then 0 else |pieces[0]| + TotalLength(pieces[1..])
  }

  lemma {:induction false} FlattenSnoc(pieces: seq<Bits>, x: Bits)
    ensures Flatten(pieces + [x]) == Flatten(pieces) + x
  {
    if pieces != [] {
      assert (pieces + [x])[1..] == pieces[1..] + [x];
      FlattenSnoc(pieces[1..], x);
    }
  }

  /** join agrees with the reference concatenation on every non-empty list. */
  lemma {:induction false} JoinIsFlatten(pieces: seq<Bits>)
    requires |pieces| > 0
    ensures Join(pieces) == Flatten(pieces)
  {
    if |pieces| > 1 {
      var init := pieces[..|pieces| - 1];
      JoinIsFlatten(init);
      FlattenSnoc(init, pieces[|pieces| - 1]);
      assert init + [pieces[|pieces| - 1]] == pieces;
    }
  }

  lemma {:induction false} FlattenLength(pieces: seq<Bits>)
    ensures |Flatten(pieces)| == TotalLength(pieces)
  {
    if pieces != [] {
      FlattenLength(pieces[1..]);
    }
  }

  /** The length of join is the sum of the piece lengths. */
  lemma JoinLength(pieces: seq<Bits>)
    requires |pieces| > 0
    ensures |Join(pieces)| == TotalLength(pieces)
  {
    JoinIsFlatten(pieces);
    FlattenLength(pieces);
  }

  lemma {:induction false} FlattenUniformLength(pieces: seq<Bits>, w: nat)
    requires AllOfWidth(pieces, w)
    ensures |Flatten(pieces)| == |pieces| * w
  {
    if pieces != [] {
      FlattenUniformLength(pieces[1..], w);
      assert |pieces| * w == w + (|pieces| - 1) * w;
    }
  }

  lemma MulSucc(i: int, w: int)
    ensures (i + 1) * w == i * w + w
  {
  }

  /** Piece `i` of equal-width pieces sits at bits [i*w, (i+1)*w) of their concatenation. */
  lemma {:induction false} FlattenAt(pieces: seq<Bits>, w: nat, i: nat)
    requires AllOfWidth(pieces, w) && i < |pieces|
    ensures 0 <= i * w && i * w + w <= |Flatten(pieces)|
    ensures Flatten(pieces)[i * w..i * w + w] == pieces[i]
    decreases i
  {
    var rest := pieces[1..];
    assert Flatten(pieces) == pieces[0] + Flatten(rest);
    if i > 0 {
      FlattenAt(rest, w, i - 1);
      assert i * w == (i - 1) * w + w;
    }
  }

  /** `piece` sits at the `w`-bit slot `i` of `f`: bits [i*w, (i+1)*w). */
  predicate InSlot(f: Bits, w: nat, i: nat, piece: Bits)
  {
    0 <= i * w && (i + 1) * w <= |f| && f[i * w..(i + 1) * w] == piece
  }

  /** Concatenated pieces of one width occupy consecutive `w`-bit slots, in order. */
  lemma FlattenUniform(pieces: seq<Bits>, w: nat)
    requires AllOfWidth(pieces, w)
    ensures |Flatten(pieces)| == |pieces| * w
    ensures forall i :: 0 <= i < |pieces| ==> InSlot(Flatten(pieces), w, i, pieces[i])
  {
    FlattenUniformLength(pieces, w);
    forall i | 0 <= i < |pieces|
      ensures InSlot(Flatten(pieces), w, i, pieces[i])
    {
      FlattenAt(pieces, w, i);
      MulSucc(i, w);
    }
  }

  /** join of equal-width pieces: length |pieces| * w, piece `i` at bits [i*w, (i+1)*w). */
  lemma JoinUniform(pieces: seq<Bits>, w: nat)
    requires |pieces| > 0 && AllOfWidth(pieces, w)
    ensures |Join(pieces)| == |pieces| * w
    ensures forall i :: 0 <= i < |pieces| ==> InSlot(Join(pieces), w, i, pieces[i])
  {
    JoinIsFlatten(pieces);
    FlattenUniform(pieces, w);
  }

  lemma MulMono(d: int, w: int)
    requires w > 0
    ensures d >= 1 ==> d * w >= w
    ensures d <= -1 ==> d * w <= -w
  {
    if d >= 1 {
      assert d * w == w + (d - 1) * w;
    } else if d <= -1 {
      assert d * w == -w + (d + 1) * w;
    }
  }

  lemma MulNonZero(d: int, w: int)
    requires w > 0 && -w < d * w < w
    ensures d == 0
  {
    MulMono(d, w);
  }

  lemma DivStep(a: nat, w: nat)
    requires 0 < w <= a
    ensures a / w == (a - w) / w + 1
  {
    var q := (a - w) / w;
    assert a == (q + 1) * w + (a - w) % w;
    assert a == (a / w) * w + a % w;
    MulNonZero(a / w - (q + 1), w);
  }

  lemma DivSmall(a: nat, w: nat)
    requires a < w
    ensures a / w == 0
  {
    assert a == (a / w) * w + a % w;
    MulNonZero(a / w, w);
  }

  lemma MulDiv(n: nat, w: nat)
    requires w > 0
    ensures n * w / w == n
  {
    assert n * w == (n * w / w) * w + (n * w) % w;
    MulNonZero(n * w / w - n, w);
  }

  /** The pieces split produces: one per whole `w`-bit slice, a trailing remainder dropped. */
  function Chunks(ba: Bits, w: nat): (r: seq<Bits>)
    requires w > 0
    ensures |ba| >= w ==> |r| > 0
    decreases |ba|
  {
    if |ba| < w then [] else [ba[..w]] + Chunks(ba[w..], w)
  }

  /** A split produces |ba| / w pieces. */
  lemma {:induction false} ChunksLength(ba: Bits, w: nat)
    requires w > 0
    ensures |Chunks(ba, w)| == |ba| / w
    decreases |ba|
  {
    if |ba| < w {
      DivSmall(|ba|, w);
    } else {
      ChunksLength(ba[w..], w);
      DivStep(|ba|, w);
    }
  }

  /** Piece `i` of a split is the slice [i*w, (i+1)*w) of the input. */
  lemma {:induction false} ChunksAt(ba: Bits, w: nat, i: nat)
    requires w > 0 && i < |Chunks(ba, w)|
    ensures 0 <= i * w && (i + 1) * w <= |ba|
    ensures Chunks(ba, w)[i] == ba[i * w..(i + 1) * w]
    decreases i
  {
    assert |ba| >= w;
    if i > 0 {
      ChunksAt(ba[w..], w, i - 1);
      assert (i + 1) * w == i * w + w;
    }
  }

  /** split: appends slice `i` for every whole `w`-bit slice, in order. */
  method Split(ba: Bits, w: nat) returns (result: seq<Bits>)
    requires w > 0
    ensures |result| == |ba| / w
    ensures result == Chunks(ba, w)
  {
    result := [];
    var pieces := |ba| / w;
    ChunksLength(ba, w);
    for i := 0 to pieces
      invariant result == Chunks(ba, w)[..i]
    {
      ChunksAt(ba, w, i);
      result := result + [ba[i * w..(i + 1) * w]];
    }
  }

  /** Every piece of a split has exactly `w` bits. */
  lemma ChunksWidth(ba: Bits, w: nat)
    requires w > 0
    ensures |Chunks(ba, w)| == |ba| / w
    ensures AllOfWidth(Chunks(ba, w), w) && AllNonEmpty(Chunks(ba, w))
  {
    ChunksLength(ba, w);
    forall i | 0 <= i < |Chunks(ba, w)|
      ensures |Chunks(ba, w)[i]| == w
    {
      ChunksAt(ba, w, i);
    }
  }

  /** Splitting the join of `w`-bit pieces gives the pieces back. */
  lemma SplitJoin(pieces: seq<Bits>, w: nat)
    requires w > 0 && |pieces| > 0 && AllOfWidth(pieces, w)
    ensures Chunks(Join(pieces), w) == pieces
  {
    JoinUniform(pieces, w);
    var j := Join(pieces);
    var r := Chunks(j, w);
    ChunksLength(j, w);
    MulDiv(|pieces|, w);
    forall i | 0 <= i < |pieces|
      ensures r[i] == pieces[i]
    {
      ChunksAt(j, w, i);
    }
  }

  /** Concatenating the pieces of a split gives the input back when nothing is dropped. */
  lemma {:induction false} FlattenChunks(ba: Bits, w: nat)
    requires w > 0 && |ba| % w == 0
    ensures Flatten(Chunks(ba, w)) == ba
    decreases |ba|
  {
    if |ba| >= w {
      assert (|ba| - w) % w == 0 by {
        DivStep(|ba|, w);
      }
      FlattenChunks(ba[w..], w);
      assert ba == ba[..w] + ba[w..];
    } else {
      assert |ba| == 0 by {
        assert |ba| == (|ba| / w) * w + |ba| % w;
        DivSmall(|ba|, w);
      }
    }
  }

  /** Joining the pieces of a split gives the input back when its length is a whole number of pieces. */
  lemma JoinSplit(ba: Bits, w: nat)
    requires w > 0 && |ba| > 0 && |ba| % w == 0
    ensures |Chunks(ba, w)| > 0
    ensures Join(Chunks(ba, w)) == ba
  {
    if |ba| < w {
      assert |ba| == (|ba| / w) * w + |ba| % w;
      DivSmall(|ba|, w);
    }
    assert |Chunks(ba, w)| > 0 by {
      assert |ba| == (|ba| / w) * w + |ba| % w;
    }
    FlattenChunks(ba, w);
    JoinIsFlatten(Chunks(ba, w));
  }

  /** Bits after the last whole piece do not change the pieces a split produces. */
  lemma {:induction false} ChunksIgnoreTrailing(ba: Bits, extra: Bits, w: nat)
    requires w > 0 && |ba| % w == 0 && |extra| < w
    ensures Chunks(ba + extra, w) == Chunks(ba, w)
    decreases |ba|
  {
    if |ba| >= w {
      assert (|ba| - w) % w == 0 by {
        DivStep(|ba|, w);
      }
      ChunksIgnoreTrailing(ba[w..], extra, w);
      assert (ba + extra)[..w] == ba[..w];
      assert (ba + extra)[w..] == ba[w..] + extra;
    } else {
      assert |ba| == 0 by {
        assert |ba| == (|ba| / w) * w + |ba| % w;
        DivSmall(|ba|, w);
      }
      assert ba + extra == extra;
    }
  }

  /** `v` is the unsigned reading of the `w`-bit slot `i` of `f`: bits [i*w, (i+1)*w). */
  predicate SlotReads(f: Bits, w: nat, i: nat, v: int)
  {
    0 < w && 0 <= i * w && (i + 1) * w <= |f| && v == BitsToInt(f[i * w..(i + 1) * w], false)
  }

  /** b2a: the unsigned values of the consecutive `bits`-wide slices of a bit sequence. */
  function B2A(value: Bits, bits: nat): (r: seq<int>)
    requires bits > 0
    ensures |r| == |value| / bits
    ensures forall i :: 0 <= i < |r| ==> SlotReads(value, bits, i, r[i])
    ensures forall i :: 0 <= i < |r| ==> 0 <= r[i] < Pow2(bits)
  {
    ChunksWidth(value, bits);
    var r := BitsToInts(Chunks(value, bits), false);
    ChunksValues(value, bits, r);
    r
  }

  /** Value `i` of the piecewise unsigned reading of a split is the reading of slice `i`. */
  lemma ChunksValues(value: Bits, bits: nat, r: seq<int>)
    requires bits > 0 && AllNonEmpty(Chunks(value, bits))
    requires r == BitsToInts(Chunks(value, bits), false)
    ensures forall i :: 0 <= i < |r| ==> SlotReads(value, bits, i, r[i])
  {
    forall i | 0 <= i < |r|
      ensures SlotReads(value, bits, i, r[i])
    {
      ChunksAt(value, bits, i);
      MulSucc(i, bits);
    }
  }

  // ---------------------------------------------------------------------------
  // Quantisation (f2i / i2f / f2b / b2f)
  // ---------------------------------------------------------------------------

  /** Python's round on a float: the nearest integer, ties going to the even one. */
  function RoundHalfEven(x: real): (r: int)
    ensures x - 0.5 <= r as real <= x + 0.5
    ensures (r as real == x - 0.5 || r as real == x + 0.5) ==> r % 2 == 0
  {
    var f := x.Floor;
    var d := x - f as real;
    if d < 0.5 then f
    else if d > 0.5 then f + 1
    else if f % 2 == 0 then f else f + 1
  }

  /** The two properties of RoundHalfEven's contract determine its result. */
  lemma RoundHalfEvenUnique(x: real, n: int)
    requires x - 0.5 <= n as real <= x + 0.5
    requires (n as real == x - 0.5 || n as real == x + 0.5) ==> n % 2 == 0
    ensures n == RoundHalfEven(x)
  {
    var r := RoundHalfEven(x);
    assert -1.0 <= n as real - r as real <= 1.0;
  }

  /** Rounding never reorders values. */
  lemma RoundHalfEvenMonotone(x: real, y: real)
    requires x <= y
    ensures RoundHalfEven(x) <= RoundHalfEven(y)
  {
  }

  /** An integer rounds to itself. */
  lemma RoundHalfEvenInt(n: int)
    ensures RoundHalfEven(n as real) == n
  {
    RoundHalfEvenUnique(n as real, n);
  }

  /** The number of quantisation steps, 2^bits - 1, as a real. */
  function Steps(bits: nat): (m: real)
    ensures m >= 0.0
    ensures bits >= 1 ==> m >= 1.0
  {
    if bits >= 1 then assert Pow2(bits) == 2 * Pow2(bits - 1); (Pow2(bits) - 1) as real
    else (Pow2(bits) - 1) as real
  }

  lemma MulUnit(h: real, m: real)
    requires 0.0 <= h <= 1.0 && 0.0 <= m
    ensures 0.0 <= h * m <= m
  {
  }

  /** The channel value mapped linearly from [-1, 1] onto [0, 2^bits - 1], before rounding. */
  function Scaled(value: real, bits: nat): (g: real)
    ensures -1.0 <= value <= 1.0 ==> 0.0 <= g <= Steps(bits)
  {
    var h := (value + 1.0) / 2.0;
    if -1.0 <= value <= 1.0 then MulUnit(h, Steps(bits)); h * Steps(bits) else h * Steps(bits)
  }

  /** f2i: [-1, 1] scaled onto [0, 2^bits - 1] and rounded half to even; no clamping. */
  function F2I(value: real, bits: nat): (r: int)
    ensures -1.0 <= value <= 1.0 ==> 0 <= r < Pow2(bits)
  {
    RoundHalfEven(Scaled(value, bits))
  }

  /** i2f: index `value` mapped back onto [-1, 1]; 2^bits - 1 must not be zero. */
  function I2F(value: int, bits: nat): (r: real)
    requires bits >= 1
    ensures 0 <= value < Pow2(bits) ==> -1.0 <= r <= 1.0
  {
    ((value as real / Steps(bits)) * 2.0) - 1.0
  }

  /** On the grid of indices, f2i undoes i2f exactly. */
  lemma QuantizeInverse(i: int, bits: nat)
    requires bits >= 1 && 0 <= i < Pow2(bits)
    ensures F2I(I2F(i, bits), bits) == i
  {
    var f := I2F(i, bits);
    assert (f + 1.0) / 2.0 == i as real / Steps(bits);
    assert Scaled(f, bits) == i as real;
    RoundHalfEvenUnique(i as real, i);
  }

  lemma QuotientOfSum(h: real, e: real, m: real)
    requires m > 0.0
    ensures (h * m + e) / m == h + e / m
  {
  }

  lemma QuotientBound(e: real, m: real)
    requires m >= 1.0 && -0.5 <= e <= 0.5
    ensures -1.0 / m <= 2.0 * (e / m) <= 1.0 / m
  {
    assert 2.0 * (e / m) == (2.0 * e) / m;
  }

  /** Quantising and restoring a channel value moves it by at most one step, 1/(2^bits - 1). */
  lemma QuantizationError(f: real, bits: nat)
    requires bits >= 1 && -1.0 <= f <= 1.0
    ensures -1.0 / Steps(bits) <= I2F(F2I(f, bits), bits) - f <= 1.0 / Steps(bits)
  {
    var m := Steps(bits);
    var h := (f + 1.0) / 2.0;
    var n := F2I(f, bits);
    var e := n as real - h * m;
    assert -0.5 <= e <= 0.5;
    QuotientOfSum(h, e, m);
    assert n as real == h * m + e;
    assert I2F(n, bits) == (h + e / m) * 2.0 - 1.0;
    QuotientBound(e, m);
  }

  /** f2b: f2i packed unsigned at `bits` bits. */
  function F2B(value: real, bits: nat): (r: Option<Bits>)
    ensures -1.0 <= value <= 1.0 && bits >= 1 ==>
      r.Some? && |r.value| == bits && UValue(r.value) == F2I(value, bits)
  {
    IntToBits(F2I(value, bits), bits, false)
  }

  /** b2f: the channel value of a bit pattern, its width taken as the bit depth. */
  function B2F(value: Bits): (r: real)
    requires |value| >= 1
    ensures -1.0 <= r <= 1.0
  {
    I2F(BitsToInt(value, false), |value|)
  }

  lemma {:induction false} UValueZeros(n: nat)
    ensures UValue(Zeros(n)) == 0
  {
    if n > 0 {
      UValueZeros(n - 1);
      assert Zeros(n)[..n - 1] == Zeros(n - 1);
    }
  }

  lemma {:induction false} UValueOnes(n: nat)
    ensures UValue(Ones(n)) == Pow2(n) - 1
  {
    if n > 0 {
      UValueOnes(n - 1);
      assert Ones(n)[..n - 1] == Ones(n - 1);
    }
  }

  lemma {:induction false} UValueLeadingOne(n: nat)
    ensures UValue([1] + Zeros(n)) == Pow2(n)
  {
    if n > 0 {
      UValueLeadingOne(n - 1);
      assert ([1] + Zeros(n))[..n] == [1] + Zeros(n - 1);
    }
  }

  /** The ends of the channel range: -1.0 is all zero bits and 1.0 all one bits. */
  lemma F2BEnds(bits: nat)
    requires bits >= 1
    ensures F2B(-1.0, bits) == Some(Zeros(bits))
    ensures F2B(1.0, bits) == Some(Ones(bits))
  {
    UValueZeros(bits);
    UValueOnes(bits);
    RoundHalfEvenUnique(0.0, 0);
    RoundHalfEvenUnique((Pow2(bits) - 1) as real, Pow2(bits) - 1);
    BitsToIntRoundTrip(Zeros(bits), false);
    BitsToIntRoundTrip(Ones(bits), false);
  }

  /** The centre of the channel range scales to (2^bits - 1) / 2, half a step below 2^(bits-1). */
  lemma ScaledCentre(bits: nat)
    requires bits >= 1
    ensures Scaled(0.0, bits) == Pow2(bits - 1) as real - 0.5
  {
    var half := Pow2(bits - 1);
    assert Pow2(bits) == 2 * half;
    assert Steps(bits) == 2.0 * half as real - 1.0;
  }

  /** That tie rounds up to the even index 2^(bits-1). */
  lemma F2ICentre(bits: nat)
    requires bits >= 2
    ensures F2I(0.0, bits) == Pow2(bits - 1)
  {
    var half := Pow2(bits - 1);
    assert half % 2 == 0 by {
      assert half == 2 * Pow2(bits - 2);
    }
    ScaledCentre(bits);
    RoundHalfEvenUnique(Scaled(0.0, bits), half);
  }

  /**
   * The centre of the channel range lands on a tie, (2^bits - 1) / 2, which
   * rounds up to the even index 2^(bits-1): the pattern 100...0.
   */
  lemma F2BCentre(bits: nat)
    requires bits >= 2
    ensures F2I(0.0, bits) == Pow2(bits - 1)
    ensures F2B(0.0, bits) == Some([1] + Zeros(bits - 1))
  {
    F2ICentre(bits);
    UValueLeadingOne(bits - 1);
    BitsToIntRoundTrip([1] + Zeros(bits - 1), false);
  }

  /** All zero bits read back as -1.0. */
  lemma B2FZeros(bits: nat)
    requires bits >= 1
    ensures B2F(Zeros(bits)) == -1.0
  {
    UValueZeros(bits);
    var m := Steps(bits);
    assert 0.0 / m == 0.0;
    assert I2F(0, bits) == (0.0 / m) * 2.0 - 1.0;
  }

  /** All one bits read back as 1.0. */
  lemma B2FOnes(bits: nat)
    requires bits >= 1
    ensures B2F(Ones(bits)) == 1.0
  {
    UValueOnes(bits);
    var m := Steps(bits);
    assert m == (Pow2(bits) - 1) as real;
    DivSelf(m);
    assert I2F(Pow2(bits) - 1, bits) == ((m / m) * 2.0) - 1.0;
  }

  /** All zero bits read back as -1.0 and all one bits as 1.0. */
  lemma B2FEnds(bits: nat)
    requires bits >= 1
    ensures B2F(Zeros(bits)) == -1.0
    ensures B2F(Ones(bits)) == 1.0
  {
    B2FZeros(bits);
    B2FOnes(bits);
  }

  lemma DivSelf(m: real)
    requires m >= 1.0
    ensures m / m == 1.0
  {
  }

  /** The documented f2b examples at 10 bits: -1.0, 0.0 and 1.0. */
  lemma F2BExamples()
    ensures F2B(-1.0, 10) == Some([0, 0, 0, 0, 0, 0, 0, 0, 0, 0])
    ensures F2B(0.0, 10) == Some([1, 0, 0, 0, 0, 0, 0, 0, 0, 0])
    ensures F2B(1.0, 10) == Some([1, 1, 1, 1, 1, 1, 1, 1, 1, 1])
  {
    F2BEnds(10);
    F2BCentre(10);
    TenBitPatterns();
  }

  lemma TenBitPatterns()
    ensures Zeros(10) == [0, 0, 0, 0, 0, 0, 0, 0, 0, 0]
    ensures [1] + Zeros(9) == [1, 0, 0, 0, 0, 0, 0, 0, 0, 0]
    ensures Ones(10) == [1, 1, 1, 1, 1, 1, 1, 1, 1, 1]
  {
  }

  /** The documented b2f examples at 4 bits: all zeros and all ones. */
  lemma B2FExamples()
    ensures B2F([0, 0, 0, 0]) == -1.0
    ensures B2F([1, 1, 1, 1]) == 1.0
  {
    B2FEnds(4);
    assert Zeros(4) == [0, 0, 0, 0];
    assert Ones(4) == [1, 1, 1, 1];
  }

  // ---------------------------------------------------------------------------
  // Vector quantisation (f2i_s / i2f_s)
  // ---------------------------------------------------------------------------

  /** f2i_s: f2i on every channel. */
  function F2IVec(values: seq<real>, bits: nat): (r: seq<int>)
    ensures |r| == |values| && forall i :: 0 <= i < |r| ==> r[i] == F2I(values[i], bits)
  {
    if values == [] then [] else [F2I(values[0], bits)] + F2IVec(values[1..], bits)
  }

  /** i2f_s: i2f on every index. */
  function I2FVec(values: seq<int>, bits: nat): (r: seq<real>)
    requires bits >= 1
    ensures |r| == |values| && forall i :: 0 <= i < |r| ==> r[i] == I2F(values[i], bits)
  {
    if values == [] then [] else [I2F(values[0], bits)] + I2FVec(values[1..], bits)
  }
}
