/**
  The PicoDDS S3TC block decoder (contrib/PicoDDS/decompress.h): DXT1 to DXT5,
  that is BC1 to BC3 of the Khronos Data Format Specification.

  Bytes and words are integers in their unsigned ranges (`uint8`,
  `uint16`), so masks and shifts are written with `/` and `%` by powers of
  two: `(w >> s) & (2^n - 1)` is `Shr(w, s) % 2^n` and `w >>= n` is
  `w / 2^n`; a 5- or 6-bit channel widened by shift-and-or is an explicit
  sum, proved equal to the bit operation in byte arithmetic. The byte swaps alone stay
  bit-vector functions. The host is little-endian, so the `UInt` and
  `UShort` macros do nothing and a word read through a cast pointer is its
  bytes in ascending order.
*/
module Dxt {
  import opened Wrappers
  import opened Arith

  // ---------------------------------------------------------------------
  // Byte swaps (the portable branch of iSwapUInt and iSwapUShort)

  /** `*i = iSwapUInt(*i)`. */
  function SwapUInt(i: bv32): bv32 {
    (i >> 24) | ((i >> 8) & 0xff00) | ((i << 8) & 0xff0000) | (i << 24)
  }

  /** `*s = iSwapUShort(*s)`: the uint16_t assignment drops the bits shifted past 16. */
  function SwapUShort(s: bv16): bv16 {
    (s >> 8) | (s << 8)
  }

  /** Byte n of i, counting from the least significant one. */
  function ByteOf32(i: bv32, n: nat): bv32
    requires n < 4
  {
    if n == 0 then i & 0xff
    else if n == 1 then (i >> 8) & 0xff
    else if n == 2 then (i >> 16) & 0xff
    else i >> 24
  }

  lemma SwapUIntReversesBytes(i: bv32)
    ensures ByteOf32(SwapUInt(i), 0) == ByteOf32(i, 3)
    ensures ByteOf32(SwapUInt(i), 1) == ByteOf32(i, 2)
    ensures ByteOf32(SwapUInt(i), 2) == ByteOf32(i, 1)
    ensures ByteOf32(SwapUInt(i), 3) == ByteOf32(i, 0)
  {
  }

  lemma SwapUIntInvolution(i: bv32)
    ensures SwapUInt(SwapUInt(i)) == i
  {
  }

  lemma SwapUShortSwapsBytes(s: bv16)
    ensures SwapUShort(s) & 0xff == s >> 8
    ensures SwapUShort(s) >> 8 == s & 0xff
  {
  }

  lemma SwapUShortInvolution(s: bv16)
    ensures SwapUShort(SwapUShort(s)) == s
  {
  }

  // ---------------------------------------------------------------------
  // Colours

  /** uint8_t */
  type uint8 = x: int | 0 <= x < 0x100

  /** uint16_t */
  type uint16 = x: int | 0 <= x < 0x1_0000

  /** struct Color8888, in the order r, g, b, a of its members. */
  datatype Color8888 = Color8888(r: uint8, g: uint8, b: uint8, a: uint8)

  /** Member `channel` of a colour: 0 is r, 1 is g, 2 is b, anything else a. */
  function Channel(c: Color8888, channel: nat): uint8 {
    if channel == 0 then c.r else if channel == 1 then c.g else if channel == 2 then c.b else c.a
  }

  /** A 5-bit channel widened to 8 bits: `c << 3 | c >> 2` (the two parts share no bit). */
  function Expand5(c: uint8): uint8
    requires c < 32
  {
    c * 8 + c / 4
  }

  /**
    A 6-bit channel widened to 8 bits: `c << 2 | c >> 3`. Here the parts
    overlap in bit 2 (bit 0 of c shifted up, bit 5 of c shifted down), so the
    `|` is their sum less that bit when both have it.
  */
  function Expand6(c: uint8): uint8
    requires c < 64
  {
    c * 4 + c / 8 - (if c % 2 == 1 && c >= 32 then 4 else 0)
  }

  /**
    Expand5's sum is the shift-and-or, computed in byte arithmetic: for a
    5-bit b nothing wraps, so the bit-vector sum is the integer one.
  */
  lemma Expand5IsShiftOr(b: bv8)
    requires b < 32
    ensures (b << 3) | (b >> 2) == b * 8 + b / 4
  {
  }

  /** Expand6's sum, less the shared bit, is the shift-and-or on the byte. */
  lemma Expand6IsShiftOr(b: bv8)
    requires b < 64
    ensures (b << 2) | (b >> 3) == b * 4 + b / 8 - (if b % 2 == 1 && b >= 32 then 4 else 0)
  {
  }

  /** Black maps to black and the largest channel value to 255. */
  lemma ExpandEnds()
    ensures Expand5(0) == 0 && Expand5(31) == 255
    ensures Expand6(0) == 0 && Expand6(63) == 255
  {
  }

  /** The widened 5-bit channel keeps the channel in its top five bits, so no two channels collide. */
  lemma Expand5Recovers(c: uint8)
    requires c < 32
    ensures Expand5(c) / 8 == c
  {
  }

  /** In the lower half of the 6-bit range the widened channel keeps the channel in its top six bits. */
  lemma Expand6RecoversLowerHalf(c: uint8)
    requires c < 32
    ensures Expand6(c) / 4 == c
  {
  }

  /**
    In the upper half `c >> 3` sets bit 2 of `c << 2`, so an even channel and
    the odd one above it widen to the same byte (32 and 33 both give 132).
  */
  lemma Expand6PairsUpperHalf(c: uint8)
    requires 32 <= c < 64 && c % 2 == 0
    ensures Expand6(c) == Expand6(c + 1)
  {
  }

  /** `*((uint16_t*)Temp)` on a little-endian host. */
  function Word16(lo: uint8, hi: uint8): uint16 {
    lo as int + 0x100 * (hi as int)
  }

  /** The 5-bit blue field of an RGB565 word, `Data & 0x1f`. */
  function Blue565(w: uint16): (c: uint8)
    ensures c < 32
  {
    w % 32
  }

  /** The 6-bit green field, `(Data & 0x7E0) >> 5`. */
  function Green565(w: uint16): (c: uint8)
    ensures c < 64
  {
    (w / 32) % 64
  }

  /** The 5-bit red field, `(Data & 0xF800) >> 11`. */
  function Red565(w: uint16): (c: uint8)
    ensures c < 32
  {
    w / 2048
  }

  /**
    DxtcReadColors: the colours of the first two RGB565 words of a colour
    block, read byte by byte into Out[0] and Out[1]: blue is `Data[0] & 0x1F`,
    green `(Data[0] & 0xE0) >> 5 | (Data[1] & 0x7) << 3`, red
    `(Data[1] & 0xF8) >> 3`. Alpha and the other entries are not touched.
  */
  function DxtcReadColors(data: seq<uint8>, out: seq<Color8888>): (r: seq<Color8888>)
    requires |data| >= 4 && |out| == 4
    ensures |r| == 4 && r[2] == out[2] && r[3] == out[3]
    ensures r[0].a == out[0].a && r[1].a == out[1].a
  {
    var b0 := data[0] % 32;
    var g0 := data[0] / 32 + (data[1] % 8) * 8;
    var r0 := data[1] / 8;
    var b1 := data[2] % 32;
    var g1 := data[2] / 32 + (data[3] % 8) * 8;
    var r1 := data[3] / 8;
    out[0 := Color8888(Expand5(r0), Expand6(g0), Expand5(b0), out[0].a)]
       [1 := Color8888(Expand5(r1), Expand6(g1), Expand5(b1), out[1].a)]
  }

  /** The RGB565 fields of a little-endian word, read from its two bytes. */
  lemma Fields565(lo: uint8, hi: uint8)
    ensures Blue565(Word16(lo, hi)) == lo % 32
    ensures Green565(Word16(lo, hi)) == lo / 32 + (hi % 8) * 8
    ensures Red565(Word16(lo, hi)) == hi / 8
  {
    var w := Word16(lo, hi);
    DivModUnique(w, 32, lo / 32 + 8 * hi, lo % 32);
    DivModUnique(w / 32, 64, hi / 8, lo / 32 + (hi % 8) * 8);
    DivModUnique(w, 2048, hi / 8, lo + 256 * (hi % 8));
  }

  /** Read byte by byte, the two colours are the widened RGB565 fields of the two little-endian words. */
  lemma ReadColorsDecodes565(data: seq<uint8>, out: seq<Color8888>)
    requires |data| >= 4 && |out| == 4
    ensures var r, w0, w1 := DxtcReadColors(data, out), Word16(data[0], data[1]), Word16(data[2], data[3]);
      r[0].r == Expand5(Red565(w0)) && r[0].g == Expand6(Green565(w0)) && r[0].b == Expand5(Blue565(w0)) &&
      r[1].r == Expand5(Red565(w1)) && r[1].g == Expand6(Green565(w1)) && r[1].b == Expand5(Blue565(w1))
  {
    Fields565(data[0], data[1]);
    Fields565(data[2], data[3]);
  }

  /**
    DxtcReadColor: one colour from an RGB565 word into *Out, alpha untouched.
    Blue is written `b << 3 | r >> 2`: its low bits come from red.
  */
  function DxtcReadColor(data: uint16, out: Color8888): (r: Color8888)
    ensures r.a == out.a
    ensures r.r == Expand5(Red565(data)) && r.g == Expand6(Green565(data))
  {
    var b := Blue565(data);
    var g := Green565(data);
    var r := Red565(data);
    Color8888(r * 8 + r / 4, Expand6(g), b * 8 + r / 4, out.a)
  }

  /**
    The blue DxtcReadColor gives holds the blue field in its top five bits and
    the top three bits of red below them, so it equals the widened blue
    exactly when the top three bits of the blue and red fields agree.
  */
  lemma ReadColorBlueFromRed(data: uint16, out: Color8888)
    ensures var c, b, r := DxtcReadColor(data, out), Blue565(data), Red565(data);
      c.b / 8 == b && c.b % 8 == r / 4 &&
      (c.b == Expand5(b) <==> b / 4 == r / 4)
  {
  }

  /** On the same word the two readers agree on red, green and alpha and on the top five bits of blue. */
  lemma ReadColorAgainstReadColors(data: seq<uint8>, out: seq<Color8888>)
    requires |data| >= 4 && |out| == 4
    ensures var one, both := DxtcReadColor(Word16(data[0], data[1]), out[0]), DxtcReadColors(data, out)[0];
      one.r == both.r && one.g == both.g && one.a == both.a && one.b / 8 == both.b / 8
  {
    var w := Word16(data[0], data[1]);
    ReadColorsDecodes565(data, out);
    ReadColorBlueFromRed(w, out[0]);
    Expand5Recovers(Blue565(w));
  }

  /** `(2 * a + b + 1) / 3`: the colour a third of the way from a to b. */
  function Third(a: uint8, b: uint8): (r: uint8)
    ensures (a <= b ==> a <= r <= b) && (b <= a ==> b <= r <= a)
  {
    (2 * a + b + 1) / 3
  }

  /** `(a + b) / 2`. */
  function Half(a: uint8, b: uint8): (r: uint8)
    ensures (a <= b ==> a <= r <= b) && (b <= a ==> b <= r <= a)
  {
    (a + b) / 2
  }

  /** Interpolating between equal endpoints gives that endpoint. */
  lemma InterpolationOfEqualEndpoints(a: uint8)
    ensures Third(a, a) == a && Half(a, a) == a
  {
  }

  /** The four-colour step of every format: entries 2 and 3 at a third and two thirds from entry 0 to entry 1; alpha untouched. */
  function FourColours(colours: seq<Color8888>): (r: seq<Color8888>)
    requires |colours| == 4
    ensures |r| == 4 && r[0] == colours[0] && r[1] == colours[1]
    ensures r[2].a == colours[2].a && r[3].a == colours[3].a
  {
    FourOf(colours[0], colours[1], colours[2].a, colours[3].a)
  }

  /** The four-colour palette of two endpoints, with the alphas entries 2 and 3 keep. */
  function FourOf(c0: Color8888, c1: Color8888, a2: uint8, a3: uint8): (r: seq<Color8888>)
    ensures |r| == 4
  {
    [c0, c1, Color8888(Third(c0.r, c1.r), Third(c0.g, c1.g), Third(c0.b, c1.b), a2),
     Color8888(Third(c1.r, c0.r), Third(c1.g, c0.g), Third(c1.b, c0.b), a3)]
  }

  /**
    The DXT1 three-colour step: entry 2 halfway between the endpoints and
    entry 3 transparent, its colour still the two-thirds interpolant.
  */
  function ThreeColours(colours: seq<Color8888>): (r: seq<Color8888>)
    requires |colours| == 4
    ensures |r| == 4 && r[0] == colours[0] && r[1] == colours[1]
    ensures r[2].a == colours[2].a && r[3].a == 0
    ensures r[3].r == FourColours(colours)[3].r && r[3].g == FourColours(colours)[3].g && r[3].b == FourColours(colours)[3].b
  {
    ThreeOf(colours[0], colours[1], colours[2].a)
  }

  /** The three-colour palette of two endpoints, with the alpha entry 2 keeps. */
  function ThreeOf(c0: Color8888, c1: Color8888, a2: uint8): (r: seq<Color8888>)
    ensures |r| == 4
  {
    [c0, c1, Color8888(Half(c0.r, c1.r), Half(c0.g, c1.g), Half(c0.b, c1.b), a2),
     Color8888(Third(c1.r, c0.r), Third(c1.g, c0.g), Third(c1.b, c0.b), 0)]
  }

  /** Fully opaque black: the alpha DecompressDXT1 gives entries 0 to 2 before the first block. */
  const OPAQUE: Color8888 := Color8888(0, 0, 0, 0xff)

  /**
    One DXT1 block's update of the colours array DecompressDXT1 keeps across
    blocks: both endpoints read from their RGB565 words, then four colours
    when the first word is the larger, otherwise three and a transparent one.
  */
  function Dxt1Step(colours: seq<Color8888>, block: seq<uint8>): (r: seq<Color8888>)
    requires |colours| == 4 && |block| >= 4
    ensures |r| == 4
    ensures r[0].a == colours[0].a && r[1].a == colours[1].a && r[2].a == colours[2].a
    ensures r[3].a == if Word16(block[0], block[1]) > Word16(block[2], block[3]) then 0xff else 0
  {
    var c0, c1 := Word16(block[0], block[1]), Word16(block[2], block[3]);
    var ends := colours[0 := DxtcReadColor(c0, colours[0])][1 := DxtcReadColor(c1, colours[1])];
    if c0 > c1 then FourColours(ends)[3 := FourColours(ends)[3].(a := 0xff)] else ThreeColours(ends)
  }

  /** The DXT1 palette of a block: the step applied to the array as it stands before the first block. */
  function Dxt1Palette(block: seq<uint8>): (r: seq<Color8888>)
    requires |block| >= 4
    ensures |r| == 4 && r[0].a == 0xff && r[1].a == 0xff && r[2].a == 0xff
  {
    Dxt1Step([OPAQUE, OPAQUE, OPAQUE, OPAQUE], block)
  }

  /**
    The array carries nothing from one block to the next: once the first
    three alphas are 255, as DecompressDXT1 sets them, each step yields the
    block's own palette.
  */
  lemma Dxt1StepForgetsHistory(colours: seq<Color8888>, block: seq<uint8>)
    requires |colours| == 4 && |block| >= 4
    requires colours[0].a == 0xff && colours[1].a == 0xff && colours[2].a == 0xff
    ensures Dxt1Step(colours, block) == Dxt1Palette(block)
  {
    var c0, c1 := Word16(block[0], block[1]), Word16(block[2], block[3]);
    var e := colours[0 := DxtcReadColor(c0, colours[0])][1 := DxtcReadColor(c1, colours[1])];
    var e' := [OPAQUE, OPAQUE, OPAQUE, OPAQUE][0 := DxtcReadColor(c0, OPAQUE)][1 := DxtcReadColor(c1, OPAQUE)];
    ReadColorKeepsOnlyAlpha(c0, colours[0], OPAQUE);
    ReadColorKeepsOnlyAlpha(c1, colours[1], OPAQUE);
    ThreeColoursCongruent(e, e');
    FourColoursCongruent(e, e');
  }

  /** DxtcReadColor keeps only the alpha of what it overwrites. */
  lemma ReadColorKeepsOnlyAlpha(data: uint16, out: Color8888, out': Color8888)
    requires out.a == out'.a
    ensures DxtcReadColor(data, out) == DxtcReadColor(data, out')
  {
  }

  /** The three-colour step reads only the endpoints and the alpha of entry 2. */
  lemma ThreeColoursCongruent(e: seq<Color8888>, e': seq<Color8888>)
    requires |e| == 4 && |e'| == 4 && e[0] == e'[0] && e[1] == e'[1] && e[2].a == e'[2].a
    ensures ThreeColours(e) == ThreeColours(e')
  {
    assert e[2].a == e'[2].a;
  }

  /** The four-colour step with entry 3 made opaque reads only the endpoints and the alpha of entry 2. */
  lemma FourColoursCongruent(e: seq<Color8888>, e': seq<Color8888>)
    requires |e| == 4 && |e'| == 4 && e[0] == e'[0] && e[1] == e'[1] && e[2].a == e'[2].a
    ensures var f, f' := FourColours(e), FourColours(e');
      f[3 := f[3].(a := 0xff)] == f'[3 := f'[3].(a := 0xff)]
  {
    var f, f' := FourColours(e), FourColours(e');
    assert f[3].(a := 0xff) == f'[3].(a := 0xff);
  }

  /** One DXT3 or DXT5 colour block's update of the colours array: the endpoints, then always four colours. */
  function ColourStep(colours: seq<Color8888>, block: seq<uint8>): (r: seq<Color8888>)
    requires |colours| == 4 && |block| >= 4
    ensures |r| == 4
    ensures r[0].a == colours[0].a && r[1].a == colours[1].a && r[2].a == colours[2].a && r[3].a == colours[3].a
  {
    FourColours(DxtcReadColors(block, colours))
  }

  /** The DXT3 and DXT5 palette of a colour block (its alphas are never read). */
  function ColourPalette(block: seq<uint8>): (r: seq<Color8888>)
    requires |block| >= 4
    ensures |r| == 4
  {
    ColourStep([OPAQUE, OPAQUE, OPAQUE, OPAQUE], block)
  }

  /** Whatever the array held, the step gives the colour channels of the block's own palette. */
  lemma ColourStepForgetsHistory(colours: seq<Color8888>, block: seq<uint8>, i: nat, c: nat)
    requires |colours| == 4 && |block| >= 4 && i < 4 && c < 3
    ensures Channel(ColourStep(colours, block)[i], c) == Channel(ColourPalette(block)[i], c)
  {
  }

  // ---------------------------------------------------------------------
  // Selectors and alpha

  /** `m >> n` on an unsigned word. */
  function Shr(m: nat, n: nat): nat {
    if n == 0 then m else Shr(m, n - 1) / 2
  }

  lemma Shr3(m: nat, n: nat)
    ensures Shr(m, n + 3) == Shr(m, n) / 8
  {
    assert Shr(m, n + 3) == Shr(m, n + 2) / 2 == Shr(m, n + 1) / 2 / 2;
  }

  lemma Shr4(m: nat, n: nat)
    ensures Shr(m, n + 4) == Shr(m, n) / 16
  {
    Shr3(m, n + 1);
  }

  /** `(bitmask & (0x03 << k * 2)) >> k * 2`: the palette index of texel k. */
  function Selector(bitmask: nat, k: nat): (r: nat)
    ensures r < 4
  {
    Shr(bitmask, 2 * k) % 4
  }

  /** A little-endian 32-bit word of four bytes: `((uint32_t*)Temp)[1]` is Word32 of bytes 4 to 7. */
  function Word32(b: seq<uint8>): (w: nat)
    requires |b| == 4
    ensures w < 0x1_0000_0000
  {
    b[0] as int + 0x100 * (b[1] as int) + 0x1_0000 * (b[2] as int) + 0x100_0000 * (b[3] as int)
  }

  /** `a | a << 4` on a nibble a (the parts share no bit): both halves of the byte hold a. */
  function Nibble(a: uint8): (r: uint8)
    requires a < 16
    ensures r % 16 == a && r / 16 == a
  {
    a + a * 16
  }

  /** The DXT3 alpha of texel k: nibble i of row word j, widened as `a | a << 4`. */
  function Dxt3Alpha(alpha: seq<uint8>, k: nat): uint8
    requires |alpha| == 8 && k < 16
  {
    var j, i := k / 4, k % 4;
    var word := alpha[2 * j] as int + 256 * (alpha[2 * j + 1] as int);
    Nibble(Shr(word, 4 * i) % 16)
  }

  lemma NibbleEnds()
    ensures Nibble(0) == 0 && Nibble(15) == 255
  {
  }

  /**
    The DXT5 alpha palette: the two endpoints, then six entries by sevenths
    when alpha0 > alpha1, else four by fifths and 0 and 255. Entry 3 of the
    first form is never assigned (its line sits inside the comment of entry
    2), so it keeps what the palette held before.
  */
  function Dxt5Alphas(alphas: seq<uint8>, a0: uint8, a1: uint8): (r: seq<uint8>)
    requires |alphas| == 8
    ensures |r| == 8 && r[0] == a0 && r[1] == a1
    ensures a0 > a1 ==> r[3] == alphas[3]
    ensures a0 <= a1 ==> r[6] == 0 && r[7] == 0xff
  {
    var base := alphas[0 := a0][1 := a1];
    if a0 > a1 then
      base[2 := Sevenths(6, a0, a1)][4 := Sevenths(4, a0, a1)][5 := Sevenths(3, a0, a1)]
          [6 := Sevenths(2, a0, a1)][7 := Sevenths(1, a0, a1)]
    else
      base[2 := Fifths(4, a0, a1)][3 := Fifths(3, a0, a1)][4 := Fifths(2, a0, a1)]
          [5 := Fifths(1, a0, a1)][6 := 0x00][7 := 0xff]
  }

  /** `(n * a0 + (7 - n) * a1 + 3) / 7` in int arithmetic. */
  function Sevenths(n: nat, a0: uint8, a1: uint8): (r: uint8)
    requires 1 <= n <= 6
    ensures (a1 <= a0 ==> a1 <= r <= a0) && (a0 <= a1 ==> a0 <= r <= a1)
  {
    (n * a0 + (7 - n) * a1 + 3) / 7
  }

  /** `(n * a0 + (5 - n) * a1 + 2) / 5` in int arithmetic. */
  function Fifths(n: nat, a0: uint8, a1: uint8): (r: uint8)
    requires 1 <= n <= 4
    ensures (a1 <= a0 ==> a1 <= r <= a0) && (a0 <= a1 ==> a0 <= r <= a1)
  {
    (n * a0 + (5 - n) * a1 + 2) / 5
  }

  /** The interpolated entries run from alpha0 to alpha1 in order. */
  lemma Dxt5AlphasBetweenEndpoints(alphas: seq<uint8>, a0: uint8, a1: uint8)
    requires |alphas| == 8
    ensures var r := Dxt5Alphas(alphas, a0, a1);
      (a0 > a1 ==> a0 >= r[2] >= r[4] >= r[5] >= r[6] >= r[7] >= a1) &&
      (a0 <= a1 ==> a0 <= r[2] <= r[3] <= r[4] <= r[5] <= a1)
  {
  }

  /**
    The 3-bit alpha code of texel k: `bits & 0x07` after k % 8 shifts by 3 of
    the 24-bit group `alphamask[h] | alphamask[h+1] << 8 | alphamask[h+2] << 16`
    of its half of the block (the three bytes do not overlap, so `|` is `+`).
  */
  function AlphaCode(mask: seq<uint8>, k: nat): (r: nat)
    requires |mask| == 6 && k < 16
    ensures r < 8
  {
    var h := 3 * (k / 8);
    Shr(mask[h] as int + 0x100 * (mask[h + 1] as int) + 0x1_0000 * (mask[h + 2] as int), 3 * (k % 8)) % 8
  }
}
