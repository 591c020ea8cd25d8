/**
 Conversion of a YUYV (4:2:2) frame to RGB24 with full-range BT.601
 coefficients, truncated and clamped. Doubles are idealised as exact reals.
 */
module Yuyv {
  import opened Fsfw

  // ----- the arithmetic -----

  /** The cast of a floating-point value to int: towards zero. */
  function Trunc(x: real): int {
    if x >= 0.0 then x.Floor else -((-x).Floor)
  }

  function Clamp(x: int): byte {
    if x < 0 then 0 else if x > 255 then 255 else x
  }

  datatype Chroma = Chroma(u: int, v: int)

  function ChromaOf(cb: byte, cr: byte): Chroma {
    Chroma(cb - 128, cr - 128)
  }

  datatype Rgb = Rgb(r: byte, g: byte, b: byte)

  function RealR(y: int, c: Chroma): real { y as real + 1.402 * (c.v as real) }
  function RealG(y: int, c: Chroma): real { y as real - 0.344136 * (c.u as real) - 0.714136 * (c.v as real) }
  function RealB(y: int, c: Chroma): real { y as real + 1.772 * (c.u as real) }

  /** One pixel, as the loop computes it. */
  function Convert(y: int, c: Chroma): Rgb {
    Rgb(Clamp(Trunc(RealR(y, c))), Clamp(Trunc(RealG(y, c))), Clamp(Trunc(RealB(y, c))))
  }

  // ----- the frame -----

  type Conversion = (int, Chroma) -> Rgb

  /** Pixel p of a frame: its own luma, the chroma of its pair. */
  function PixelAt(conv: Conversion, data: seq<byte>, p: nat): Rgb
    requires 4 * (p / 2) + 3 < |data|
  {
    assert 2 * p <= 4 * (p / 2) + 2;
    conv(data[2 * p], ChromaOf(data[4 * (p / 2) + 1], data[4 * (p / 2) + 3]))
  }

  predicate PixelStored(out: seq<byte>, p: nat, c: Rgb)
    requires 3 * p + 2 < |out|
  {
    out[3 * p] == c.r && out[3 * p + 1] == c.g && out[3 * p + 2] == c.b
  }

  /** `out` holds the first n pixels of the frame, three bytes each. */
  ghost predicate Holds(conv: Conversion, out: seq<byte>, data: seq<byte>, n: nat)
    requires 3 * n <= |out| && 4 * ((n + 1) / 2) <= |data|
  {
    forall p: nat :: p < n ==> PixelStored(out, p, PixelAt(conv, data, p))
  }

  /** The loop handles pixels in pairs: an odd last pixel brings its neighbour along. */
  function PairsOf(n: int): nat {
    if n <= 0 then 0 else (n + 1) / 2
  }

  /** The four bytes the loop reads and the six it writes in round i exist. */
  predicate RoundFits(i: nat, inLength: nat, outLength: nat) {
    2 * i + 3 < inLength && 3 * i + 5 < outLength
  }

  /** Every access of the loop over n pixels, which counts by twos, lies inside its buffer. */
  ghost predicate InBounds(n: int, inLength: nat, outLength: nat) {
    forall i: nat :: i < n && i % 2 == 0 ==> RoundFits(i, inLength, outLength)
  }

  /** There is room for every access if and only if there is room for whole pairs. */
  lemma InBoundsIff(n: int, inLength: nat, outLength: nat)
    ensures InBounds(n, inLength, outLength) <==> 4 * PairsOf(n) <= inLength && 6 * PairsOf(n) <= outLength
  {
    if InBounds(n, inLength, outLength) && n > 0 {
      assert RoundFits(2 * (PairsOf(n) - 1), inLength, outLength);
    }
  }

  /**
   An image of 3n bytes, as takeSnapshot allots, fits the loop if and only if n is
   even and the frame has its 2n bytes; a frame of just 2n bytes is overrun as well
   unless n is even.
   */
  lemma BuffersFitIffEven(n: nat, inLength: nat, outLength: nat)
    ensures InBounds(n, inLength, 3 * n) <==> n % 2 == 0 && 2 * n <= inLength
    ensures InBounds(n, 2 * n, outLength) <==> n % 2 == 0 && 3 * n <= outLength
  {
    InBoundsIff(n, inLength, 3 * n);
    InBoundsIff(n, 2 * n, outLength);
  }

  /** A frame of one pixel: the loop reads two bytes behind the frame and writes three behind the image. */
  lemma OnePixelOverruns()
    ensures !InBounds(1, 2, 3) && InBounds(1, 4, 6)
  {
    assert !RoundFits(0, 2, 3);
  }

  /**
   The conversion of a frame, wherever its accesses are in bounds: every pixel
   of every pair is converted, and nothing behind them is touched.
   */
  method YuyvToRgb(data: array<byte>, out: array<byte>, w: int, h: int)
    requires data != out && InBounds(w * h, data.Length, out.Length)
    modifies out
    ensures 4 * PairsOf(w * h) <= data.Length && 6 * PairsOf(w * h) <= out.Length
    ensures Holds(Convert, out[..], data[..], 2 * PairsOf(w * h))
    ensures out[6 * PairsOf(w * h)..] == old(out[6 * PairsOf(w * h)..])
    ensures forall p: nat :: p < w * h ==>
      4 * (p / 2) + 3 < data.Length && 3 * p + 2 < out.Length && FromBytes(data[..], out[..], p)
  {
    InBoundsIff(w * h, data.Length, out.Length);
    ConvertFrame(Convert, data, out, w * h);
    forall p: nat | p < w * h
      ensures 4 * (p / 2) + 3 < data.Length && 3 * p + 2 < out.Length && FromBytes(data[..], out[..], p)
    {
      assert PixelStored(out[..], p, PixelAt(Convert, data[..], p));
      StoredFromBytes(data[..], out[..], p);
    }
  }

  /** The byte a real value becomes: rounded down, and cut off at 0 and at 255. */
  predicate Becomes(x: real, b: byte) {
    if x < 0.0 then b == 0 else if x >= 256.0 then b == 255 else b as real <= x < b as real + 1.0
  }

  /** Pixel p of the image, said in the bytes of the frame. */
  predicate FromBytes(frame: seq<byte>, image: seq<byte>, p: nat)
    requires 4 * (p / 2) + 3 < |frame| && 3 * p + 2 < |image|
  {
    assert 2 * p <= 4 * (p / 2) + 2;
    var y, u, v := frame[2 * p] as real, frame[4 * (p / 2) + 1] as real, frame[4 * (p / 2) + 3] as real;
    && Becomes(y + 1.402 * (v - 128.0), image[3 * p])
    && Becomes(y - 0.344136 * (u - 128.0) - 0.714136 * (v - 128.0), image[3 * p + 1])
    && Becomes(y + 1.772 * (u - 128.0), image[3 * p + 2])
  }

  lemma ClampedBecomes(x: real)
    ensures Becomes(x, Clamp(Trunc(x)))
  {
    ClampTruncIsClampFloor(x);
    assert x.Floor as real <= x < x.Floor as real + 1.0;
  }

  lemma StoredFromBytes(frame: seq<byte>, image: seq<byte>, p: nat)
    requires 4 * (p / 2) + 3 < |frame| && 3 * p + 2 < |image|
    requires PixelStored(image, p, PixelAt(Convert, frame, p))
    ensures FromBytes(frame, image, p)
  {
    assert 2 * p <= 4 * (p / 2) + 2;
    var y, c := frame[2 * p] as int, ChromaOf(frame[4 * (p / 2) + 1], frame[4 * (p / 2) + 3]);
    ClampedBecomes(RealR(y, c));
    ClampedBecomes(RealG(y, c));
    ClampedBecomes(RealB(y, c));
  }

  /** The bytes of the frame decide those of the image. */
  lemma BecomesOnce(x: real, b: byte, b': byte)
    requires Becomes(x, b) && Becomes(x, b')
    ensures b == b'
  {
  }

  /** A pair of luma 100 and 150 whose second chroma byte is large is reddish; exchanged it would be blueish. */
  lemma RedFollowsSecondChroma()
    ensures Pixels(Convert, [100, 128, 150, 228]) == [Rgb(240, 28, 100), Rgb(255, 78, 150)]
  {
    var c := Chroma(0, 100);
    assert ChromaOf(128, 228) == c;
    assert RealR(100, c) == 240.2 && RealG(100, c) == 28.5864 && RealB(100, c) == 100.0;
    assert RealR(150, c) == 290.2 && RealG(150, c) == 78.5864 && RealB(150, c) == 150.0;
    assert Convert(100, c) == Rgb(240, 28, 100) && Convert(150, c) == Rgb(255, 78, 150);
  }

  /** The loop with its two moving pointers, for any `conv`. */
  method ConvertFrame(conv: Conversion, data: array<byte>, out: array<byte>, n: int)
    requires data != out && InBounds(n, data.Length, out.Length)
    modifies out
    ensures 4 * PairsOf(n) <= data.Length && 6 * PairsOf(n) <= out.Length
    ensures Holds(conv, out[..], data[..], 2 * PairsOf(n))
    ensures out[6 * PairsOf(n)..] == old(out[6 * PairsOf(n)..])
  {
    InBoundsIff(n, data.Length, out.Length);
    ghost var pairs, start := PairsOf(n), out[..];
    var inAt, outAt, i := 0, 0, 0;
    while i < n
      invariant i % 2 == 0 && 0 <= i <= 2 * pairs
      invariant inAt == 2 * i && outAt == 3 * i
      invariant Holds(conv, out[..], data[..], i)
      invariant out[6 * pairs..] == start[6 * pairs..]
    {
      ghost var before := out[..];
      assert RoundFits(i, data.Length, out.Length);
      var y0: int, y1: int, c := data[inAt], data[inAt + 2], ChromaOf(data[inAt + 1], data[inAt + 3]);
      var p, q := conv(y0, c), conv(y1, c);
      WritePair(out, outAt, p, q);
      PairHeld(conv, before, data[..], i, p, q);
      TailKept(before, outAt, p, q, 6 * pairs);
      inAt, outAt, i := inAt + 4, outAt + 6, i + 2;
    }
  }

  function Written(out: seq<byte>, at: nat, p: Rgb, q: Rgb): seq<byte>
    requires at + 6 <= |out|
  {
    out[..at] + [p.r, p.g, p.b, q.r, q.g, q.b] + out[at + 6..]
  }

  method WritePair(out: array<byte>, at: nat, p: Rgb, q: Rgb)
    requires at + 6 <= out.Length
    modifies out
    ensures out[..] == Written(old(out[..]), at, p, q)
  {
    out[at], out[at + 1], out[at + 2] := p.r, p.g, p.b;
    out[at + 3], out[at + 4], out[at + 5] := q.r, q.g, q.b;
  }

  lemma TailKept(out: seq<byte>, at: nat, p: Rgb, q: Rgb, end: nat)
    requires at + 6 <= end <= |out|
    ensures Written(out, at, p, q)[end..] == out[end..]
  {
  }

  lemma PairHeld(conv: Conversion, out: seq<byte>, data: seq<byte>, i: nat, p: Rgb, q: Rgb)
    requires i % 2 == 0 && |out| >= 3 * i + 6 && |data| >= 2 * i + 4 && Holds(conv, out, data, i)
    requires p == conv(data[2 * i], ChromaOf(data[2 * i + 1], data[2 * i + 3]))
    requires q == conv(data[2 * i + 2], ChromaOf(data[2 * i + 1], data[2 * i + 3]))
    ensures Holds(conv, Written(out, 3 * i, p, q), data, i + 2)
  {
    var out' := Written(out, 3 * i, p, q);
    assert i / 2 == (i + 1) / 2 && 4 * (i / 2) == 2 * i;
    forall k: nat | k < i + 2 ensures PixelStored(out', k, PixelAt(conv, data, k)) {
      if k < i {
        assert PixelStored(out, k, PixelAt(conv, data, k));
      }
    }
  }

  /** The pixels of an even run, as a sequence. */
  function Pixels(conv: Conversion, data: seq<byte>): seq<Rgb>
    requires |data| % 4 == 0
  {
    seq(|data| / 2, p requires 0 <= p < |data| / 2 => PixelAt(conv, data, p))
  }

  /** Conversion works run by run: pairs do not interact. */
  lemma ConcatenationConverts(conv: Conversion, a: seq<byte>, b: seq<byte>)
    requires |a| % 4 == 0 && |b| % 4 == 0
    ensures Pixels(conv, a + b) == Pixels(conv, a) + Pixels(conv, b)
  {
    var whole, parts := Pixels(conv, a + b), Pixels(conv, a) + Pixels(conv, b);
    LengthOfSum(|a|, |b|);
    forall p: nat | p < |parts| ensures whole[p] == parts[p] {
      PixelOfSum(conv, a, b, p);
    }
  }

  lemma LengthOfSum(m: nat, n: nat)
    requires m % 4 == 0 && n % 4 == 0
    ensures (m + n) % 4 == 0 && (m + n) / 2 == m / 2 + n / 2
  {
    var k, l := m / 4, n / 4;
    assert m == 4 * k && n == 4 * l && m + n == 4 * (k + l);
  }

  lemma PixelOfSum(conv: Conversion, a: seq<byte>, b: seq<byte>, p: nat)
    requires |a| % 4 == 0 && |b| % 4 == 0 && p < |a| / 2 + |b| / 2
    ensures (|a| + |b|) % 4 == 0 && p < (|a| + |b|) / 2
    ensures Pixels(conv, a + b)[p] == if p < |a| / 2 then Pixels(conv, a)[p] else Pixels(conv, b)[p - |a| / 2]
  {
    LengthOfSum(|a|, |b|);
    if p < |a| / 2 {
      FirstPixel(conv, a, b, p);
    } else {
      ShiftedPixel(conv, a, b, p - |a| / 2);
    }
  }

  lemma FirstPixel(conv: Conversion, a: seq<byte>, b: seq<byte>, p: nat)
    requires |a| % 4 == 0 && |b| % 4 == 0 && p < |a| / 2
    ensures PixelAt(conv, a + b, p) == PixelAt(conv, a, p)
  {
  }

  lemma ShiftedPixel(conv: Conversion, a: seq<byte>, b: seq<byte>, q: nat)
    requires |a| % 4 == 0 && |b| % 4 == 0 && q < |b| / 2
    ensures PixelAt(conv, a + b, |a| / 2 + q) == PixelAt(conv, b, q)
  {
    var p := |a| / 2 + q;
    assert p / 2 == |a| / 4 + q / 2;
  }

  // ----- the table form -----

  /** Clamped, truncation and floor agree. */
  lemma ClampTruncIsClampFloor(x: real)
    ensures Clamp(Trunc(x)) == Clamp(x.Floor)
  {
    if x < 0.0 {
      assert (-x).Floor >= 0;
    }
  }

  lemma FloorShift(y: int, x: real)
    ensures (y as real + x).Floor == y + x.Floor
  {
  }

  /** The offsets a table of chroma values would hold. */
  function OffsetR(c: Chroma): int { (1.402 * (c.v as real)).Floor }
  function OffsetG(c: Chroma): int { (-0.344136 * (c.u as real) - 0.714136 * (c.v as real)).Floor }
  function OffsetB(c: Chroma): int { (1.772 * (c.u as real)).Floor }

  /** The loop computes what a table would: luma plus an integer that depends on the chroma only, clamped. */
  lemma TableForm(y: int, c: Chroma)
    ensures Convert(y, c) == Rgb(Clamp(y + OffsetR(c)), Clamp(y + OffsetG(c)), Clamp(y + OffsetB(c)))
  {
    ClampTruncIsClampFloor(RealR(y, c));
    ClampTruncIsClampFloor(RealG(y, c));
    ClampTruncIsClampFloor(RealB(y, c));
    FloorShift(y, 1.402 * (c.v as real));
    FloorShift(y, -0.344136 * (c.u as real) - 0.714136 * (c.v as real));
    FloorShift(y, 1.772 * (c.u as real));
    assert RealG(y, c) == y as real + (-0.344136 * (c.u as real) - 0.714136 * (c.v as real));
  }

  /** More luma never darkens a channel. */
  lemma MonotoneInLuma(y: int, y': int, c: Chroma)
    requires y <= y'
    ensures var p, q := Convert(y, c), Convert(y', c); p.r <= q.r && p.g <= q.g && p.b <= q.b
  {
    TableForm(y, c);
    TableForm(y', c);
  }

  /** Neutral chroma gives grey. */
  lemma NeutralIsGrey(y: byte)
    ensures Convert(y, ChromaOf(128, 128)) == Rgb(y, y, y)
  {
    TableForm(y, ChromaOf(128, 128));
  }

  predicate Unclamped(y: int, c: Chroma) {
    0 <= y + OffsetR(c) < 256 && 0 <= y + OffsetG(c) < 256 && 0 <= y + OffsetB(c) < 256
  }

  /** Two unclamped pixels of a pair differ in every channel by their difference in luma. */
  lemma PairDifference(y: int, y': int, c: Chroma)
    requires Unclamped(y, c) && Unclamped(y', c)
    ensures var p, q := Convert(y, c), Convert(y', c); q.r - p.r == q.g - p.g == q.b - p.b == y' - y
  {
    TableForm(y, c);
    TableForm(y', c);
  }

  // ----- the luma that comes back -----

  function Luma(p: Rgb): real {
    0.299 * (p.r as real) + 0.587 * (p.g as real) + 0.114 * (p.b as real)
  }

  predicate InRange(c: Chroma) {
    -128 <= c.u < 128 && -128 <= c.v < 128
  }

  /** Before truncation the coefficients give back the luma to within 0.0001. */
  lemma ExactLuma(y: int, c: Chroma)
    requires InRange(c)
    ensures var l := 0.299 * RealR(y, c) + 0.587 * RealG(y, c) + 0.114 * RealB(y, c);
            y as real - 0.0001 < l < y as real + 0.0001
  {
    var l := 0.299 * RealR(y, c) + 0.587 * RealG(y, c) + 0.114 * RealB(y, c);
    assert l == y as real + 0.000000168 * (c.v as real) + 0.000000168 * (c.u as real);
  }

  /** The clamp leaves the truncated values alone. */
  predicate ClampIdle(y: int, c: Chroma) {
    0 <= Trunc(RealR(y, c)) < 256 && 0 <= Trunc(RealG(y, c)) < 256 && 0 <= Trunc(RealB(y, c)) < 256
  }

  /** Truncation lifts a channel between -1 and 0 to 0. */
  function Raised(y: int, offset: int): int {
    if y + offset == -1 then 1 else 0
  }

  /** Luma gained that way, in thousandths. */
  function Gain(y: int, c: Chroma): int {
    299 * Raised(y, OffsetR(c)) + 587 * Raised(y, OffsetG(c)) + 114 * Raised(y, OffsetB(c))
  }

  /** Luma lost to rounding down, in thousandths: it depends on the chroma only. */
  function Loss(c: Chroma): int {
    -(299 * OffsetR(c) + 587 * OffsetG(c) + 114 * OffsetB(c))
  }

  lemma LossBound(c: Chroma)
    requires InRange(c)
    ensures 0 <= Loss(c) <= 1000
  {
    ExactLuma(0, c);
    assert RealG(0, c) == -0.344136 * (c.u as real) - 0.714136 * (c.v as real);
    var l := 0.299 * (OffsetR(c) as real) + 0.587 * (OffsetG(c) as real) + 0.114 * (OffsetB(c) as real);
    assert -1.0001 < l < 0.0001;
    assert Loss(c) as real == -1000.0 * l;
  }

  lemma TruncRaises(y: int, x: real)
    requires 0 <= Trunc(y as real + x)
    ensures Trunc(y as real + x) == y + x.Floor + Raised(y, x.Floor)
  {
    FloorShift(y, x);
  }

  lemma IdleChannels(y: int, c: Chroma)
    requires ClampIdle(y, c)
    ensures Trunc(RealR(y, c)) == y + OffsetR(c) + Raised(y, OffsetR(c))
    ensures Trunc(RealG(y, c)) == y + OffsetG(c) + Raised(y, OffsetG(c))
    ensures Trunc(RealB(y, c)) == y + OffsetB(c) + Raised(y, OffsetB(c))
  {
    assert RealG(y, c) == y as real + (-0.344136 * (c.u as real) - 0.714136 * (c.v as real));
    TruncRaises(y, 1.402 * (c.v as real));
    TruncRaises(y, -0.344136 * (c.u as real) - 0.714136 * (c.v as real));
    TruncRaises(y, 1.772 * (c.u as real));
  }

  lemma LumaOf(r: byte, g: byte, b: byte)
    ensures Luma(Rgb(r, g, b)) == ((299 * r + 587 * g + 114 * b) as real) / 1000.0
  {
  }

  /** A pixel the clamp leaves alone comes back with its luma, less the loss, plus the gain. */
  lemma IdleLuma(y: int, c: Chroma)
    requires ClampIdle(y, c)
    ensures Luma(Convert(y, c)) == ((1000 * y + Gain(y, c) - Loss(c)) as real) / 1000.0
  {
    IdleChannels(y, c);
    LumaOf(Trunc(RealR(y, c)), Trunc(RealG(y, c)), Trunc(RealB(y, c)));
  }

  /**
   Where no channel is clamped the luma comes back to within 1.0001, and no more
   than 0.0001 too bright if and only if the gain does not exceed the loss.
   */
  lemma LumaBound(y: int, c: Chroma)
    requires InRange(c) && ClampIdle(y, c)
    ensures y as real - 1.0001 < Luma(Convert(y, c)) < y as real + 1.0001
    ensures Luma(Convert(y, c)) <= y as real + 0.0001 <==> Gain(y, c) <= Loss(c)
    ensures Luma(Convert(y, c)) <= y as real <==> Gain(y, c) <= Loss(c)
  {
    LossBound(c);
    IdleLuma(y, c);
  }

  /** In particular where every channel is non-negative before truncation: there is no gain. */
  lemma UnclampedLuma(y: int, c: Chroma)
    requires InRange(c) && Unclamped(y, c)
    ensures y as real - 1.0001 < Luma(Convert(y, c)) <= y as real
  {
    IdleIffUnclamped(y, c);
    LossBound(c);
    LumaBound(y, c);
  }

  /** The clamp is idle on more pixels: those with a channel between -1 and 0, which truncation raises. */
  lemma IdleIffUnclamped(y: int, c: Chroma)
    ensures Unclamped(y, c) <==> ClampIdle(y, c) && RealR(y, c) >= 0.0 && RealG(y, c) >= 0.0 && RealB(y, c) >= 0.0
  {
    FloorShift(y, 1.402 * (c.v as real));
    FloorShift(y, -0.344136 * (c.u as real) - 0.714136 * (c.v as real));
    FloorShift(y, 1.772 * (c.u as real));
    assert RealG(y, c) == y as real + (-0.344136 * (c.u as real) - 0.714136 * (c.v as real));
  }

  /** On one of those the luma comes back more than 0.8 too high: an idle clamp is not enough for the bound. */
  lemma TruncationBrightens()
    ensures var y, c := 23, Chroma(105, -17);
            ClampIdle(y, c) && InRange(c) && Luma(Convert(y, c)) > y as real + 0.8
  {
    var y, c := 23, Chroma(105, -17);
    assert RealR(y, c) == -0.834 && RealG(y, c) == -0.993968 && RealB(y, c) == 209.06;
    assert Convert(y, c) == Rgb(0, 0, 209);
  }

  /** Another has a negative channel as well, and keeps the bound. */
  lemma RaisedWithinLoss()
    ensures var y, c := 226, Chroma(-128, 20);
            ClampIdle(y, c) && InRange(c) && !Unclamped(y, c) && Luma(Convert(y, c)) <= y as real
  {
    var y, c := 226, Chroma(-128, 20);
    assert RealR(y, c) == 254.04 && RealG(y, c) == 255.766688 && RealB(y, c) == -0.816;
    assert OffsetB(c) == -227;
    assert Convert(y, c) == Rgb(254, 255, 0);
  }
}
