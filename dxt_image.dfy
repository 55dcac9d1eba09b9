/**
  The image side of the PicoDDS decoders (contrib/PicoDDS/decompress.h):
  the ILimage buffer, the walk over 4x4 blocks that DecompressDXT1, DXT3 and
  DXT5 share, and the writes of one block.

  A byte of the image belongs to at most one texel channel: `Owner` splits a
  byte position into plane, row, pixel and channel. A decoder's result is
  stated byte by byte through it: every byte some in-image texel channel
  owns gets that channel's decoded value, every other byte keeps what it
  held. Offsets are unbounded: the 32-bit arithmetic of `Offset` is assumed
  not to wrap, which the layout's fitting in the buffer ensures.
*/
module DxtImage {
  import opened Wrappers
  import opened Dxt
  import opened Arith

  // ---------------------------------------------------------------------
  // Layout

  /** The shape fields of ILimage. */
  datatype Layout = Layout(width: nat, height: nat, depth: nat, bpp: nat, bps: nat, sizeOfPlane: nat)

  /**
    What the decoders assume of their image without checking it: u8 RGBA
    data (at least four bytes per pixel), rows that fit their scanline,
    planes that fit their plane size and every plane within the buffer.
  */
  predicate ValidLayout(l: Layout, size: nat) {
    4 <= l.bpp && l.width * l.bpp <= l.bps && l.height * l.bps <= l.sizeOfPlane && l.depth * l.sizeOfPlane <= size
  }

  /** One channel (0 r, 1 g, 2 b, 3 a) of the pixel at column x, row y, plane z. */
  datatype Texel = Texel(x: nat, y: nat, z: nat, channel: nat)

  predicate InImage(l: Layout, t: Texel) {
    t.x < l.width && t.y < l.height && t.z < l.depth && t.channel < 4
  }

  /** `z * SizeOfPlane + y * Bps + x * Bpp`: the first byte of a pixel. */
  function Offset(l: Layout, x: nat, y: nat, z: nat): nat {
    z * l.sizeOfPlane + y * l.bps + x * l.bpp
  }

  /** The texel channel byte p holds, if p lies inside a pixel of the image and among its first four bytes. */
  function Owner(l: Layout, p: int): (r: Option<Texel>)
    ensures r.Some? ==> InImage(l, r.value) && p == Offset(l, r.value.x, r.value.y, r.value.z) + r.value.channel
  {
    if p < 0 || l.bpp == 0 || l.bps == 0 || l.sizeOfPlane == 0 then None
    else
      var z, inPlane := p / l.sizeOfPlane, p % l.sizeOfPlane;
      var y, inRow := inPlane / l.bps, inPlane % l.bps;
      var x, c := inRow / l.bpp, inRow % l.bpp;
      if x < l.width && y < l.height && z < l.depth && c < 4 then Some(Texel(x, y, z, c)) else None
  }

  /**
    In a valid layout the byte the decoders write for a texel channel lies in
    the buffer, and its owner is that texel channel: no two texel channels
    share a byte.
  */
  lemma OwnerOfTexel(l: Layout, size: nat, t: Texel)
    requires ValidLayout(l, size) && InImage(l, t)
    ensures Owner(l, Offset(l, t.x, t.y, t.z) + t.channel) == Some(t)
    ensures Offset(l, t.x, t.y, t.z) + t.channel < size
  {
    var inRow := t.x * l.bpp + t.channel;
    var inPlane := t.y * l.bps + inRow;
    var p := t.z * l.sizeOfPlane + inPlane;
    assert p == Offset(l, t.x, t.y, t.z) + t.channel;
    BelowNext(t.x, t.channel, l.bpp, l.width, l.bps);
    BelowNext(t.y, inRow, l.bps, l.height, l.sizeOfPlane);
    BelowNext(t.z, inPlane, l.sizeOfPlane, l.depth, size);
    OwnerFromParts(l, p, inPlane, inRow, t);
  }

  /** A digit q below n, with a remainder below m, stays below n * m. */
  lemma BelowNext(q: nat, r: nat, m: nat, n: nat, bound: nat)
    requires q < n && r < m && n * m <= bound
    ensures q * m + r < bound
  {
    MulMono(q + 1, n, m);
  }

  lemma OwnerFromParts(l: Layout, p: nat, inPlane: nat, inRow: nat, t: Texel)
    requires InImage(l, t) && 0 < l.bpp && 0 < l.bps && 0 < l.sizeOfPlane
    requires inRow == t.x * l.bpp + t.channel && t.channel < l.bpp && inRow < l.bps
    requires inPlane == t.y * l.bps + inRow && inPlane < l.sizeOfPlane
    requires p == t.z * l.sizeOfPlane + inPlane
    ensures Owner(l, p) == Some(t)
  {
    DivModUnique(inRow, l.bpp, t.x, t.channel);
    DivModUnique(inPlane, l.bps, t.y, inRow);
    DivModUnique(p, l.sizeOfPlane, t.z, inPlane);
  }


  /** ILimage: the shape fields never change; Data is written in place. */
  class Image {
    const width: nat
    const height: nat
    const depth: nat
    const bpp: nat
    const bps: nat
    const sizeOfPlane: nat
    /** Data, with SizeOfData its length. */
    const data: array<uint8>

    constructor (width: nat, height: nat, depth: nat, bpp: nat, bps: nat, sizeOfPlane: nat, data: array<uint8>)
      ensures Shape() == Layout(width, height, depth, bpp, bps, sizeOfPlane) && this.data == data
    {
      this.width, this.height, this.depth := width, height, depth;
      this.bpp, this.bps, this.sizeOfPlane := bpp, bps, sizeOfPlane;
      this.data := data;
    }

    function Shape(): Layout {
      Layout(width, height, depth, bpp, bps, sizeOfPlane)
    }

    predicate Valid() {
      ValidLayout(Shape(), data.Length)
    }
  }

  // ---------------------------------------------------------------------
  // Blocks

  /** The three block formats: DXT2 decodes as DXT3 and DXT4 as DXT5. */
  datatype Format = DXT1 | DXT3 | DXT5

  /** The bytes `Temp` advances by per block. */
  function BlockSize(f: Format): nat {
    if f == DXT1 then 8 else 16
  }

  /** Blocks per row: the x loop runs x = 0, 4, ... while x < Width. */
  function BlocksWide(l: Layout): nat {
    (l.width + 3) / 4
  }

  function BlocksHigh(l: Layout): nat {
    (l.height + 3) / 4
  }

  function BlockCount(l: Layout): nat {
    l.depth * BlocksHigh(l) * BlocksWide(l)
  }

  /** The number of blocks the walk has read before reaching block (x, y, z). */
  function BlockNumber(l: Layout, x: nat, y: nat, z: nat): nat {
    (z * BlocksHigh(l) + y / 4) * BlocksWide(l) + x / 4
  }

  lemma BlockNumberBound(z: nat, y0: nat, x0: nat, depth: nat, high: nat, wide: nat)
    requires z < depth && y0 < high && x0 < wide
    ensures (z * high + y0) * wide + x0 < depth * high * wide
  {
    MulMono(z + 1, depth, high);
    MulMono(z * high + y0 + 1, depth * high, wide);
  }

  /** The block of a texel lies within the compressed data the walk reads. */
  lemma BlockOfTexelBound(l: Layout, t: Texel)
    requires InImage(l, t)
    ensures BlockNumber(l, t.x, t.y, t.z) < BlockCount(l)
  {
    BlockNumberBound(t.z, t.y / 4, t.x / 4, l.depth, BlocksHigh(l), BlocksWide(l));
  }

  /** The texel of pixel (x, y) belongs to the block whose first pixel is (x0, y0) of plane z. */
  predicate InBlock(t: Texel, x0: int, y0: int, z: int) {
    t.z == z && y0 <= t.y < y0 + 4 && x0 <= t.x < x0 + 4
  }

  /** k of the decoder loops for a texel of the block at (x0, y0): `j * 4 + i`. */
  function TexelIndex(t: Texel, x0: int, y0: int): int {
    (t.y - y0) * 4 + (t.x - x0)
  }

  /**
    The value block bytes give texel k's channel c: DXT1 takes all four
    channels from its palette; DXT3 and DXT5 take colour from the second half
    of the block and alpha from the first, DXT5 through the alpha palette the
    block derives from `alphas`, the array as the previous block left it.
  */
  function BlockTexel(f: Format, block: seq<uint8>, alphas: seq<uint8>, k: nat, c: nat): uint8
    requires |block| == BlockSize(f) && |alphas| == 8 && k < 16
  {
    match f
    case DXT1 => Channel(Dxt1Palette(block)[Selector(Word32(block[4..8]), k)], c)
    case DXT3 =>
      if c < 3 then Channel(ColourPalette(block[8..])[Selector(Word32(block[12..16]), k)], c)
      else Dxt3Alpha(block[..8], k)
    case DXT5 =>
      if c < 3 then Channel(ColourPalette(block[8..])[Selector(Word32(block[12..16]), k)], c)
      else Dxt5Alphas(alphas, block[0], block[1])[AlphaCode(block[2..8], k)]
  }

  /**
    The DXT5 alpha array before block n: `init`, its indeterminate content on
    entry, after each earlier block's palette step.
  */
  function AlphasBefore(comp: seq<uint8>, n: nat, init: seq<uint8>): (r: seq<uint8>)
    requires 16 * n <= |comp| && |init| == 8
    ensures |r| == 8
  {
    if n == 0 then init
    else Dxt5Alphas(AlphasBefore(comp, n - 1, init), comp[16 * (n - 1)], comp[16 * (n - 1) + 1])
  }

  /** The alpha array the walk holds at block n: only DXT5 keeps one. */
  function AlphasAt(f: Format, comp: seq<uint8>, n: nat, init: seq<uint8>): (r: seq<uint8>)
    requires (f == DXT5 ==> 16 * n <= |comp|) && |init| == 8
    ensures |r| == 8
  {
    if f == DXT5 then AlphasBefore(comp, n, init) else init
  }

  /** The bytes of block n. */
  function BlockBytes(f: Format, comp: seq<uint8>, n: nat): (r: seq<uint8>)
    requires (n + 1) * BlockSize(f) <= |comp|
    ensures |r| == BlockSize(f)
  {
    comp[n * BlockSize(f) .. (n + 1) * BlockSize(f)]
  }

  /** The decoded value of an in-image texel channel from the compressed stream. */
  function TexelValue(f: Format, l: Layout, comp: seq<uint8>, init: seq<uint8>, t: Texel): uint8
    requires InImage(l, t) && |comp| >= BlockCount(l) * BlockSize(f) && |init| == 8
  {
    var n := BlockNumber(l, t.x, t.y, t.z);
    BlockOfTexelBound(l, t);
    MulMono(n + 1, BlockCount(l), BlockSize(f));
    BlockAt(f, comp, init, n)[4 * ((t.y % 4) * 4 + t.x % 4) + t.channel]
  }

  /** The 64 values block n of the stream decodes to, channel c of texel k at 4k + c. */
  function BlockAt(f: Format, comp: seq<uint8>, init: seq<uint8>, n: nat): (r: seq<uint8>)
    requires (n + 1) * BlockSize(f) <= |comp| && |init| == 8
    ensures |r| == 64
  {
    BlockValues(f, BlockBytes(f, comp, n), AlphasAt(f, comp, n, init))
  }

  /** The image after decoding: each owned byte its texel channel's value, every other byte as before. */
  function Decoded(f: Format, l: Layout, comp: seq<uint8>, init: seq<uint8>, before: seq<uint8>): (r: seq<uint8>)
    requires |comp| >= BlockCount(l) * BlockSize(f) && |init| == 8
    ensures |r| == |before|
  {
    seq(|before|, p requires 0 <= p < |before| =>
      match Owner(l, p)
      case Some(t) => TexelValue(f, l, comp, init, t)
      case None => before[p])
  }

  // ---------------------------------------------------------------------
  // Writing one block

  /**
    What byte p holds once channels lo to hi - 1 of the block's first k
    texels (in the order of k) are written from values, texel k's channel c
    taking values[4 * k + c]: those bytes their value, every other byte as in
    before.
  */
  function PaintedAt(l: Layout, before: seq<uint8>, x0: nat, y0: nat, z: nat,
                     k: nat, lo: nat, hi: nat, values: seq<uint8>, p: nat): uint8
    requires |values| == 64 && p < |before|
  {
    var o := Owner(l, p);
    if o.Some? && InBlock(o.value, x0, y0, z) && TexelIndex(o.value, x0, y0) < k && lo <= o.value.channel < hi
    then values[4 * TexelIndex(o.value, x0, y0) + o.value.channel]
    else before[p]
  }

  predicate BlockPainted(l: Layout, data: seq<uint8>, before: seq<uint8>, x0: nat, y0: nat, z: nat,
                         k: nat, lo: nat, hi: nat, values: seq<uint8>)
    requires |values| == 64
  {
    |data| == |before| &&
    forall p :: 0 <= p < |data| ==> data[p] == PaintedAt(l, before, x0, y0, z, k, lo, hi, values, p)
  }

  /** What byte p holds once channels lo to hi - 1 of pixel (px, py, pz) are set to vals. */
  function PixelSetAt(l: Layout, before: seq<uint8>, px: nat, py: nat, pz: nat,
                      lo: nat, hi: nat, vals: seq<uint8>, p: nat): uint8
    requires |vals| == 4 && p < |before|
  {
    var o := Owner(l, p);
    if o.Some? && o.value.x == px && o.value.y == py && o.value.z == pz && lo <= o.value.channel < hi
    then vals[o.value.channel]
    else before[p]
  }

  predicate PixelSet(l: Layout, data: seq<uint8>, before: seq<uint8>, px: nat, py: nat, pz: nat,
                     lo: nat, hi: nat, vals: seq<uint8>)
    requires |vals| == 4
  {
    |data| == |before| &&
    forall p :: 0 <= p < |data| ==> data[p] == PixelSetAt(l, before, px, py, pz, lo, hi, vals, p)
  }

  /** One step of the i loop: pixel k of the block written, or skipped when it lies outside the image. */
  lemma PaintStep(l: Layout, d0: seq<uint8>, d1: seq<uint8>, d2: seq<uint8>, x0: nat, y0: nat, z: nat,
                  k: nat, lo: nat, hi: nat, values: seq<uint8>, vals: seq<uint8>)
    requires |values| == 64 && |vals| == 4 && k < 16
    requires BlockPainted(l, d1, d0, x0, y0, z, k, lo, hi, values)
    requires forall c :: lo <= c < hi && c < 4 ==> vals[c] == values[4 * k + c]
    requires if x0 + k % 4 < l.width && y0 + k / 4 < l.height
             then PixelSet(l, d2, d1, x0 + k % 4, y0 + k / 4, z, lo, hi, vals)
             else d2 == d1
    ensures BlockPainted(l, d2, d0, x0, y0, z, k + 1, lo, hi, values)
  {
    forall p | 0 <= p < |d2|
      ensures d2[p] == PaintedAt(l, d0, x0, y0, z, k + 1, lo, hi, values, p)
    {
      var o := Owner(l, p);
      if o.Some? && InBlock(o.value, x0, y0, z) {
        var t := o.value;
        assert TexelIndex(t, x0, y0) == k <==> t.x == x0 + k % 4 && t.y == y0 + k / 4;
      }
    }
  }

  /** `lImage->Data[Offset + channel] = value` for an in-image texel channel. */
  method SetChannel(img: Image, t: Texel, value: uint8)
    requires img.Valid() && InImage(img.Shape(), t)
    modifies img.data
    ensures PixelSet(img.Shape(), img.data[..], old(img.data[..]), t.x, t.y, t.z, t.channel, t.channel + 1,
                     [value, value, value, value])
  {
    OwnerOfTexel(img.Shape(), img.data.Length, t);
    img.data[Offset(img.Shape(), t.x, t.y, t.z) + t.channel] := value;
  }

  /** The colour writes of one pixel: r, g and b, and a as well when hi is 4. */
  method WritePixel(img: Image, px: nat, py: nat, pz: nat, col: Color8888, hi: nat)
    requires img.Valid() && px < img.width && py < img.height && pz < img.depth && 3 <= hi <= 4
    modifies img.data
    ensures PixelSet(img.Shape(), img.data[..], old(img.data[..]), px, py, pz, 0, hi, [col.r, col.g, col.b, col.a])
  {
    ghost var vals := [col.r, col.g, col.b, col.a];
    ghost var before := img.data[..];
    SetChannel(img, Texel(px, py, pz, 0), col.r);
    assert PixelSet(img.Shape(), img.data[..], before, px, py, pz, 0, 1, vals);
    SetChannel(img, Texel(px, py, pz, 1), col.g);
    assert PixelSet(img.Shape(), img.data[..], before, px, py, pz, 0, 2, vals);
    SetChannel(img, Texel(px, py, pz, 2), col.b);
    assert PixelSet(img.Shape(), img.data[..], before, px, py, pz, 0, 3, vals);
    if hi == 4 {
      SetChannel(img, Texel(px, py, pz, 3), col.a);
      assert PixelSet(img.Shape(), img.data[..], before, px, py, pz, 0, 4, vals);
    }
  }

  /**
    Pixel k of the block at (x0, y0): when it lies inside the image, its
    channels lo to hi - 1 are written from vals (the colour writes when lo is
    0, the alpha write when lo is 3).
  */
  method PaintTexel(img: Image, x0: nat, y0: nat, z: nat, k: nat, lo: nat, hi: nat,
                    ghost values: seq<uint8>, vals: seq<uint8>, ghost d0: seq<uint8>)
    requires img.Valid() && z < img.depth && k < 16 && |values| == 64 && |vals| == 4
    requires (lo == 0 && 3 <= hi <= 4) || (lo == 3 && hi == 4)
    requires forall c :: lo <= c < hi ==> vals[c] == values[4 * k + c]
    requires BlockPainted(img.Shape(), img.data[..], d0, x0, y0, z, k, lo, hi, values)
    modifies img.data
    ensures BlockPainted(img.Shape(), img.data[..], d0, x0, y0, z, k + 1, lo, hi, values)
  {
    ghost var d1 := img.data[..];
    var px, py := x0 + k % 4, y0 + k / 4;
    if px < img.width && py < img.height {
      if lo == 3 {
        SetChannel(img, Texel(px, py, z, 3), vals[3]);
        assert PixelSet(img.Shape(), img.data[..], d1, px, py, z, lo, hi, vals);
      } else {
        WritePixel(img, px, py, z, Color8888(vals[0], vals[1], vals[2], vals[3]), hi);
      }
    }
    PaintStep(img.Shape(), d0, d1, img.data[..], x0, y0, z, k, lo, hi, values, vals);
  }

  /** Texel k's channel c takes channel c of the palette entry its selector picks. */
  function ColourValues(colours: seq<Color8888>, bitmask: nat): (r: seq<uint8>)
    requires |colours| == 4
    ensures |r| == 64
  {
    seq(64, i requires 0 <= i < 64 => Channel(colours[Selector(bitmask, i / 4)], i % 4))
  }

  /**
    The colour loops: texel k of the block at (x0, y0) takes the palette
    entry selected by bits 2k and 2k + 1 of bitmask, in channels 0 to hi - 1;
    pixels beyond the image's right or bottom edge are skipped.
  */
  method WriteColours(img: Image, x0: nat, y0: nat, z: nat, colours: seq<Color8888>, bitmask: nat, hi: nat)
    requires img.Valid() && z < img.depth && |colours| == 4 && 3 <= hi <= 4
    modifies img.data
    ensures BlockPainted(img.Shape(), img.data[..], old(img.data[..]), x0, y0, z, 16, 0, hi, ColourValues(colours, bitmask))
  {
    ghost var values := ColourValues(colours, bitmask);
    var k := 0;
    var j := 0;
    while j < 4
      invariant 0 <= j <= 4 && k == 4 * j
      invariant BlockPainted(img.Shape(), img.data[..], old(img.data[..]), x0, y0, z, k, 0, hi, values)
    {
      var i := 0;
      while i < 4
        invariant 0 <= i <= 4 && k == 4 * j + i
        invariant BlockPainted(img.Shape(), img.data[..], old(img.data[..]), x0, y0, z, k, 0, hi, values)
      {
        var select := Selector(bitmask, k);
        var col := colours[select];
        PaintTexel(img, x0, y0, z, k, 0, hi, values, [col.r, col.g, col.b, col.a], old(img.data[..]));
        i := i + 1;
        k := k + 1;
      }
      j := j + 1;
    }
  }

  /** Texel k's alpha in a DXT3 block (the same value is listed for every channel). */
  function Dxt3Values(alpha: seq<uint8>): (r: seq<uint8>)
    requires |alpha| == 8
    ensures |r| == 64
  {
    seq(64, i requires 0 <= i < 64 => Dxt3Alpha(alpha, i / 4))
  }

  /**
    The DXT3 alpha loops: row j's 16-bit word `alpha[2j] + 256 * alpha[2j+1]`
    gives its four alphas a nibble at a time from the low end, each widened
    as `a | a << 4`. The source stores the nibble and then widens it in
    place; the model stores the widened value once.
  */
  method WriteDxt3Alpha(img: Image, x0: nat, y0: nat, z: nat, alpha: seq<uint8>)
    requires img.Valid() && z < img.depth && |alpha| == 8
    modifies img.data
    ensures BlockPainted(img.Shape(), img.data[..], old(img.data[..]), x0, y0, z, 16, 3, 4, Dxt3Values(alpha))
  {
    ghost var values := Dxt3Values(alpha);
    var j := 0;
    while j < 4
      invariant 0 <= j <= 4
      invariant BlockPainted(img.Shape(), img.data[..], old(img.data[..]), x0, y0, z, 4 * j, 3, 4, values)
    {
      var word: nat := alpha[2 * j] as int + 256 * (alpha[2 * j + 1] as int);
      ghost var w0 := word;
      var i := 0;
      while i < 4
        invariant 0 <= i <= 4 && word == Shr(w0, 4 * i)
        invariant BlockPainted(img.Shape(), img.data[..], old(img.data[..]), x0, y0, z, 4 * j + i, 3, 4, values)
      {
        var a := Nibble(word % 16);
        PaintTexel(img, x0, y0, z, 4 * j + i, 3, 4, values, [a, a, a, a], old(img.data[..]));
        Shr4(w0, 4 * i);
        word := word / 16;
        i := i + 1;
      }
      j := j + 1;
    }
  }

  /** Texel k's alpha in a DXT5 block: the palette entry its 3-bit code picks. */
  function Dxt5Values(alphas: seq<uint8>, mask: seq<uint8>): (r: seq<uint8>)
    requires |alphas| == 8 && |mask| == 6
    ensures |r| == 64
  {
    seq(64, i requires 0 <= i < 64 => alphas[AlphaCode(mask, i / 4)])
  }

  /**
    The DXT5 alpha loops: rows 0 and 1 read twenty-four bits from three
    bytes of the mask, rows 2 and 3 from the next three, three bits per pixel
    from the low end.
  */
  method WriteDxt5Alpha(img: Image, x0: nat, y0: nat, z: nat, alphas: seq<uint8>, mask: seq<uint8>)
    requires img.Valid() && z < img.depth && |alphas| == 8 && |mask| == 6
    modifies img.data
    ensures BlockPainted(img.Shape(), img.data[..], old(img.data[..]), x0, y0, z, 16, 3, 4, Dxt5Values(alphas, mask))
  {
    ghost var values := Dxt5Values(alphas, mask);
    var bits: nat := mask[0] as int + 0x100 * (mask[1] as int) + 0x1_0000 * (mask[2] as int);
    WriteAlphaRows(img, x0, y0, z, alphas, mask, 0, bits, values, old(img.data[..]));
    bits := mask[3] as int + 0x100 * (mask[4] as int) + 0x1_0000 * (mask[5] as int);
    WriteAlphaRows(img, x0, y0, z, alphas, mask, 2, bits, values, old(img.data[..]));
  }

  /** Texel 4 * j + i of rows j0 and j0 + 1 takes its code from bit 3 * (4 * (j - j0) + i) of their 24 bits. */
  lemma Dxt5ValueAt(alphas: seq<uint8>, mask: seq<uint8>, j0: nat, j: nat, i: nat)
    requires |alphas| == 8 && |mask| == 6 && (j0 == 0 || j0 == 2) && j0 <= j < j0 + 2 && i < 4
    ensures var h := 3 * (j0 / 2);
      Dxt5Values(alphas, mask)[4 * (4 * j + i) + 3] ==
      alphas[Shr(mask[h] as int + 0x100 * (mask[h + 1] as int) + 0x1_0000 * (mask[h + 2] as int), 3 * (4 * (j - j0) + i)) % 8]
  {
    var k := 4 * j + i;
    DivModUnique(4 * k + 3, 4, k, 3);
    DivModUnique(k, 8, j0 / 2, 4 * (j - j0) + i);
  }

  /** One of the two DXT5 alpha loops: rows j0 and j0 + 1 from the 24 bits of their half of the mask. */
  method WriteAlphaRows(img: Image, x0: nat, y0: nat, z: nat, alphas: seq<uint8>, mask: seq<uint8>,
                        j0: nat, bits: nat, ghost values: seq<uint8>, ghost d0: seq<uint8>)
    requires img.Valid() && z < img.depth && |alphas| == 8 && |mask| == 6 && (j0 == 0 || j0 == 2)
    requires bits == mask[3 * (j0 / 2)] as int + 0x100 * (mask[3 * (j0 / 2) + 1] as int) + 0x1_0000 * (mask[3 * (j0 / 2) + 2] as int)
    requires values == Dxt5Values(alphas, mask)
    requires BlockPainted(img.Shape(), img.data[..], d0, x0, y0, z, 4 * j0, 3, 4, values)
    modifies img.data
    ensures BlockPainted(img.Shape(), img.data[..], d0, x0, y0, z, 4 * (j0 + 2), 3, 4, values)
  {
    var bits := bits;
    ghost var b0 := bits;
    var j := j0;
    while j < j0 + 2
      invariant j0 <= j <= j0 + 2 && bits == Shr(b0, 3 * (4 * (j - j0)))
      invariant BlockPainted(img.Shape(), img.data[..], d0, x0, y0, z, 4 * j, 3, 4, values)
    {
      var i := 0;
      while i < 4
        invariant 0 <= i <= 4 && bits == Shr(b0, 3 * (4 * (j - j0) + i))
        invariant BlockPainted(img.Shape(), img.data[..], d0, x0, y0, z, 4 * j + i, 3, 4, values)
      {
        var a := alphas[bits % 8];
        Dxt5ValueAt(alphas, mask, j0, j, i);
        PaintTexel(img, x0, y0, z, 4 * j + i, 3, 4, values, [a, a, a, a], d0);
        Shr3(b0, 3 * (4 * (j - j0) + i));
        bits := bits / 8;
        i := i + 1;
      }
      j := j + 1;
    }
  }

  // ---------------------------------------------------------------------
  // Decoding

  /** A block's decoded values as a table: texel k's channel c at 4 * k + c. */
  function BlockValues(f: Format, block: seq<uint8>, alphas: seq<uint8>): (r: seq<uint8>)
    requires |block| == BlockSize(f) && |alphas| == 8
    ensures |r| == 64
  {
    seq(64, i requires 0 <= i < 64 => BlockTexel(f, block, alphas, i / 4, i % 4))
  }

  /** The colours array as DecompressDXT1 prepares it before the first block and every block keeps it. */
  predicate ColoursReady(colours: seq<Color8888>) {
    |colours| == 4 && colours[0].a == 0xff && colours[1].a == 0xff && colours[2].a == 0xff
  }

  /** Writing channels 0 to 2 of a block and then channel 3 writes all four. */
  lemma PaintColoursThenAlpha(l: Layout, d0: seq<uint8>, d1: seq<uint8>, d2: seq<uint8>, x0: nat, y0: nat, z: nat,
                              v1: seq<uint8>, v2: seq<uint8>, v: seq<uint8>)
    requires |v1| == 64 && |v2| == 64 && |v| == 64
    requires BlockPainted(l, d1, d0, x0, y0, z, 16, 0, 3, v1)
    requires BlockPainted(l, d2, d1, x0, y0, z, 16, 3, 4, v2)
    requires forall i :: 0 <= i < 64 ==> v[i] == if i % 4 < 3 then v1[i] else v2[i]
    ensures BlockPainted(l, d2, d0, x0, y0, z, 16, 0, 4, v)
  {
    forall p | 0 <= p < |d2|
      ensures d2[p] == PaintedAt(l, d0, x0, y0, z, 16, 0, 4, v, p)
    {
      assert d2[p] == PaintedAt(l, d1, x0, y0, z, 16, 3, 4, v2, p);
      assert d1[p] == PaintedAt(l, d0, x0, y0, z, 16, 0, 3, v1, p);
    }
  }

  /** The alpha writes' table of a DXT3 or DXT5 block, given the alpha array before it. */
  function AlphaValues(f: Format, block: seq<uint8>, alphas: seq<uint8>): (r: seq<uint8>)
    requires f != DXT1 && |block| == 16 && |alphas| == 8
    ensures |r| == 64
  {
    if f == DXT3 then Dxt3Values(block[..8]) else Dxt5Values(Dxt5Alphas(alphas, block[0], block[1]), block[2..8])
  }

  /** A DXT1 block's colour writes, from the palette the step leaves, are the block's decoded values. */
  lemma Dxt1BlockValues(colours: seq<Color8888>, block: seq<uint8>, alphas: seq<uint8>)
    requires ColoursReady(colours) && |block| == 8 && |alphas| == 8
    ensures ColourValues(Dxt1Step(colours, block), Word32(block[4..8])) == BlockValues(DXT1, block, alphas)
  {
    Dxt1StepForgetsHistory(colours, block);
  }

  /** A DXT3 or DXT5 block's colour writes give channels 0 to 2 of its decoded values and its alpha writes channel 3. */
  lemma SplitBlockValues(f: Format, colours: seq<Color8888>, block: seq<uint8>, alphas: seq<uint8>, i: nat)
    requires f != DXT1 && |colours| == 4 && |block| == 16 && |alphas| == 8 && i < 64
    ensures BlockValues(f, block, alphas)[i] ==
      if i % 4 < 3 then ColourValues(ColourStep(colours, block[8..]), Word32(block[12..16]))[i]
      else AlphaValues(f, block, alphas)[i]
  {
    if i % 4 < 3 {
      ColourStepForgetsHistory(colours, block[8..], Selector(Word32(block[12..16]), i / 4), i % 4);
    }
  }

  /**
    One block of the walk: the palette steps on the colours and alphas
    arrays the walk keeps from block to block, then the colour writes and,
    for DXT3 and DXT5, the alpha writes.
  */
  method DecodeBlock(img: Image, f: Format, block: seq<uint8>, colours: seq<Color8888>, alphas: seq<uint8>,
                     x0: nat, y0: nat, z: nat)
    returns (colours': seq<Color8888>, alphas': seq<uint8>)
    requires img.Valid() && z < img.depth && |block| == BlockSize(f) && |alphas| == 8 && ColoursReady(colours)
    modifies img.data
    ensures BlockPainted(img.Shape(), img.data[..], old(img.data[..]), x0, y0, z, 16, 0, 4, BlockValues(f, block, alphas))
    ensures ColoursReady(colours')
    ensures alphas' == if f == DXT5 then Dxt5Alphas(alphas, block[0], block[1]) else alphas
  {
    if f == DXT1 {
      colours' := Dxt1Step(colours, block);
      var bitmask := Word32(block[4..8]);
      WriteColours(img, x0, y0, z, colours', bitmask, 4);
      Dxt1BlockValues(colours, block, alphas);
      alphas' := alphas;
    } else {
      colours', alphas' := DecodeAlphaBlock(img, f, block, colours, alphas, x0, y0, z);
    }
  }

  /**
    A DXT3 or DXT5 block: the colour half (bytes 8 to 15) as four colours,
    then the alpha half, DXT3's as nibbles and DXT5's as two endpoints and a
    six-byte code mask.
  */
  method DecodeAlphaBlock(img: Image, f: Format, block: seq<uint8>, colours: seq<Color8888>, alphas: seq<uint8>,
                          x0: nat, y0: nat, z: nat)
    returns (colours': seq<Color8888>, alphas': seq<uint8>)
    requires img.Valid() && z < img.depth && f != DXT1 && |block| == 16 && |alphas| == 8 && ColoursReady(colours)
    modifies img.data
    ensures BlockPainted(img.Shape(), img.data[..], old(img.data[..]), x0, y0, z, 16, 0, 4, BlockValues(f, block, alphas))
    ensures ColoursReady(colours')
    ensures alphas' == if f == DXT5 then Dxt5Alphas(alphas, block[0], block[1]) else alphas
  {
    colours' := ColourStep(colours, block[8..]);
    var bitmask := Word32(block[12..16]);
    ghost var d0 := img.data[..];
    WriteColours(img, x0, y0, z, colours', bitmask, 3);
    ghost var d1 := img.data[..];
    if f == DXT3 {
      alphas' := alphas;
      WriteDxt3Alpha(img, x0, y0, z, block[..8]);
    } else {
      alphas' := Dxt5Alphas(alphas, block[0], block[1]);
      WriteDxt5Alpha(img, x0, y0, z, alphas', block[2..8]);
    }
    forall i | 0 <= i < 64
      ensures BlockValues(f, block, alphas)[i] ==
        if i % 4 < 3 then ColourValues(colours', bitmask)[i] else AlphaValues(f, block, alphas)[i]
    {
      SplitBlockValues(f, colours, block, alphas, i);
    }
    PaintColoursThenAlpha(img.Shape(), d0, d1, img.data[..], x0, y0, z, ColourValues(colours', bitmask),
                          AlphaValues(f, block, alphas), BlockValues(f, block, alphas));
  }

  /** Texel t's block comes before the block at (x, y, z) in the walk's order: plane, then row of blocks, then column. */
  predicate BlockBefore(t: Texel, x: int, y: int, z: int) {
    t.z < z || (t.z == z && (t.y < y || (t.y < y + 4 && t.x < x)))
  }

  /** What byte p holds when the walk reaches block (x, y, z). */
  function DecodedBeforeAt(f: Format, l: Layout, comp: seq<uint8>, init: seq<uint8>, before: seq<uint8>,
                           x: int, y: int, z: int, p: nat): uint8
    requires |comp| >= BlockCount(l) * BlockSize(f) && |init| == 8 && p < |before|
  {
    var o := Owner(l, p);
    if o.Some? then DecodedBeforeTexel(f, l, comp, init, o.value, x, y, z, before[p]) else before[p]
  }

  /** Texel t's value once the blocks before (x, y, z) are decoded, b if its block is not among them. */
  function DecodedBeforeTexel(f: Format, l: Layout, comp: seq<uint8>, init: seq<uint8>, t: Texel,
                              x: int, y: int, z: int, b: uint8): uint8
    requires |comp| >= BlockCount(l) * BlockSize(f) && |init| == 8 && InImage(l, t)
  {
    if BlockBefore(t, x, y, z) then TexelValue(f, l, comp, init, t) else b
  }

  predicate DecodedBefore(f: Format, l: Layout, comp: seq<uint8>, init: seq<uint8>, data: seq<uint8>, before: seq<uint8>,
                          x: int, y: int, z: int)
    requires |comp| >= BlockCount(l) * BlockSize(f) && |init| == 8
  {
    |data| == |before| &&
    forall p :: 0 <= p < |data| ==> data[p] == DecodedBeforeAt(f, l, comp, init, before, x, y, z, p)
  }

  /** A coordinate in the group of four starting at x0 shares x0's quotient by four. */
  lemma SameQuarter(a: nat, x0: nat)
    requires x0 % 4 == 0 && x0 <= a < x0 + 4
    ensures a / 4 == x0 / 4 && a % 4 == a - x0
  {
    DivModUnique(x0, 4, x0 / 4, 0);
    DivModUnique(a, 4, x0 / 4, a - x0);
  }

  /** A texel of the block at (x, y, z) decodes to that block's value for it. */
  lemma TexelOfBlock(f: Format, l: Layout, comp: seq<uint8>, init: seq<uint8>, t: Texel, x: nat, y: nat, z: nat)
    requires |comp| >= BlockCount(l) * BlockSize(f) && |init| == 8
    requires x % 4 == 0 && y % 4 == 0 && InImage(l, t) && InBlock(t, x, y, z)
    requires (BlockNumber(l, x, y, z) + 1) * BlockSize(f) <= |comp|
    ensures TexelValue(f, l, comp, init, t) == BlockAt(f, comp, init, BlockNumber(l, x, y, z))[4 * TexelIndex(t, x, y) + t.channel]
  {
    SameQuarter(t.x, x);
    SameQuarter(t.y, y);
    assert BlockNumber(l, t.x, t.y, t.z) == BlockNumber(l, x, y, z);
    assert (t.y % 4) * 4 + t.x % 4 == TexelIndex(t, x, y);
  }

  /** Painting the block at (x, y, z) moves each texel from its state before that block to its state after it. */
  lemma DecodedStepTexel(f: Format, l: Layout, comp: seq<uint8>, init: seq<uint8>, t: Texel,
                         x: nat, y: nat, z: nat, b: uint8)
    requires |comp| >= BlockCount(l) * BlockSize(f) && |init| == 8
    requires x % 4 == 0 && y % 4 == 0 && InImage(l, t)
    requires (BlockNumber(l, x, y, z) + 1) * BlockSize(f) <= |comp|
    ensures (if InBlock(t, x, y, z) then BlockAt(f, comp, init, BlockNumber(l, x, y, z))[4 * TexelIndex(t, x, y) + t.channel]
             else DecodedBeforeTexel(f, l, comp, init, t, x, y, z, b))
            == DecodedBeforeTexel(f, l, comp, init, t, x + 4, y, z, b)
  {
    if InBlock(t, x, y, z) {
      TexelOfBlock(f, l, comp, init, t, x, y, z);
    }
  }

  /** Decoding the block at (x, y, z) is decoding every texel of that block from the stream. */
  lemma DecodedStep(f: Format, l: Layout, comp: seq<uint8>, init: seq<uint8>, before: seq<uint8>,
                    d0: seq<uint8>, d1: seq<uint8>, x: nat, y: nat, z: nat)
    requires |comp| >= BlockCount(l) * BlockSize(f) && |init| == 8
    requires x % 4 == 0 && y % 4 == 0
    requires (BlockNumber(l, x, y, z) + 1) * BlockSize(f) <= |comp|
    requires DecodedBefore(f, l, comp, init, d0, before, x, y, z)
    requires BlockPainted(l, d1, d0, x, y, z, 16, 0, 4, BlockAt(f, comp, init, BlockNumber(l, x, y, z)))
    ensures DecodedBefore(f, l, comp, init, d1, before, x + 4, y, z)
  {
    var values := BlockAt(f, comp, init, BlockNumber(l, x, y, z));
    forall p | 0 <= p < |d1|
      ensures d1[p] == DecodedBeforeAt(f, l, comp, init, before, x + 4, y, z, p)
    {
      assert d1[p] == PaintedAt(l, d0, x, y, z, 16, 0, 4, values, p);
      assert d0[p] == DecodedBeforeAt(f, l, comp, init, before, x, y, z, p);
      var o := Owner(l, p);
      if o.Some? {
        DecodedStepTexel(f, l, comp, init, o.value, x, y, z, before[p]);
      }
    }
  }

  /** Past the last column the walk has decoded the whole row of blocks. */
  lemma RowDone(f: Format, l: Layout, comp: seq<uint8>, init: seq<uint8>, data: seq<uint8>, before: seq<uint8>,
                x: nat, y: nat, z: nat)
    requires |comp| >= BlockCount(l) * BlockSize(f) && |init| == 8
    requires x >= l.width && DecodedBefore(f, l, comp, init, data, before, x, y, z)
    ensures DecodedBefore(f, l, comp, init, data, before, 0, y + 4, z)
  {
    forall p | 0 <= p < |data|
      ensures data[p] == DecodedBeforeAt(f, l, comp, init, before, 0, y + 4, z, p)
    {
      assert data[p] == DecodedBeforeAt(f, l, comp, init, before, x, y, z, p);
    }
  }

  /** Past the last row the walk has decoded the whole plane. */
  lemma PlaneDone(f: Format, l: Layout, comp: seq<uint8>, init: seq<uint8>, data: seq<uint8>, before: seq<uint8>,
                  y: nat, z: nat)
    requires |comp| >= BlockCount(l) * BlockSize(f) && |init| == 8
    requires y >= l.height && DecodedBefore(f, l, comp, init, data, before, 0, y, z)
    ensures DecodedBefore(f, l, comp, init, data, before, 0, 0, z + 1)
  {
    forall p | 0 <= p < |data|
      ensures data[p] == DecodedBeforeAt(f, l, comp, init, before, 0, 0, z + 1, p)
    {
      assert data[p] == DecodedBeforeAt(f, l, comp, init, before, 0, y, z, p);
    }
  }

  /** Past the last row of blocks the walk stands at the first block of the next plane. */
  lemma PlaneEnd(l: Layout, y: nat, z: nat)
    requires y % 4 == 0 && l.height <= y <= 4 * BlocksHigh(l)
    ensures BlockNumber(l, 0, y, z) == BlockNumber(l, 0, 0, z + 1)
  {
    RoundUp(y, l.height);
    NextPlane(l, z);
  }

  /** Past the last plane the walk has decoded the image. */
  lemma AllDone(f: Format, l: Layout, comp: seq<uint8>, init: seq<uint8>, data: seq<uint8>, before: seq<uint8>)
    requires |comp| >= BlockCount(l) * BlockSize(f) && |init| == 8
    requires DecodedBefore(f, l, comp, init, data, before, 0, 0, l.depth)
    ensures data == Decoded(f, l, comp, init, before)
  {
    forall p | 0 <= p < |data|
      ensures data[p] == Decoded(f, l, comp, init, before)[p]
    {
      assert data[p] == DecodedBeforeAt(f, l, comp, init, before, 0, 0, l.depth, p);
    }
  }

  /** The block count after a full row of blocks is the count at the start of the next row. */
  lemma NextRow(l: Layout, y: nat, z: nat)
    requires y % 4 == 0
    ensures BlockNumber(l, 4 * BlocksWide(l), y, z) == BlockNumber(l, 0, y + 4, z)
  {
    var a := z * BlocksHigh(l) + y / 4;
    assert (a + 1) * BlocksWide(l) == a * BlocksWide(l) + BlocksWide(l);
  }

  lemma NextPlane(l: Layout, z: nat)
    ensures BlockNumber(l, 0, 4 * BlocksHigh(l), z) == BlockNumber(l, 0, 0, z + 1)
  {
    assert z * BlocksHigh(l) + BlocksHigh(l) == (z + 1) * BlocksHigh(l);
  }

  /**
    The walk DecompressDXT1, DXT3 and DXT5 share: z over the planes, y and x
    over the rows and columns in steps of four, `Temp` advancing by a block
    each time; the colours and alphas arrays live across all blocks. Here the
    z loop; DecodePlane is the y loop and DecodeRow the x loop.
  */
  method DecodeBlocks(img: Image, f: Format, comp: seq<uint8>, init: seq<uint8>)
    requires img.Valid() && |comp| >= BlockCount(img.Shape()) * BlockSize(f) && |init| == 8
    modifies img.data
    ensures img.data[..] == Decoded(f, img.Shape(), comp, init, old(img.data[..]))
  {
    ghost var l := img.Shape();
    ghost var before := img.data[..];
    var colours := [OPAQUE, OPAQUE, OPAQUE, OPAQUE];
    var alphas := init;
    var temp := 0;
    var z := 0;
    while z < img.depth
      invariant z <= img.depth && temp == BlockSize(f) * BlockNumber(l, 0, 0, z) <= |comp|
      invariant ColoursReady(colours) && alphas == AlphasAt(f, comp, BlockNumber(l, 0, 0, z), init)
      invariant DecodedBefore(f, l, comp, init, img.data[..], before, 0, 0, z)
    {
      colours, alphas, temp := DecodePlane(img, f, comp, init, z, colours, alphas, temp, before);
      z := z + 1;
    }
    AllDone(f, l, comp, init, img.data[..], before);
  }

  /** The y loop over plane z. */
  method DecodePlane(img: Image, f: Format, comp: seq<uint8>, init: seq<uint8>, z: nat,
                     colours: seq<Color8888>, alphas: seq<uint8>, temp: nat, ghost before: seq<uint8>)
    returns (colours': seq<Color8888>, alphas': seq<uint8>, temp': nat)
    requires img.Valid() && |comp| >= BlockCount(img.Shape()) * BlockSize(f) && |init| == 8 && z < img.depth
    requires temp == BlockSize(f) * BlockNumber(img.Shape(), 0, 0, z) <= |comp|
    requires ColoursReady(colours) && alphas == AlphasAt(f, comp, BlockNumber(img.Shape(), 0, 0, z), init)
    requires DecodedBefore(f, img.Shape(), comp, init, img.data[..], before, 0, 0, z)
    modifies img.data
    ensures temp' == BlockSize(f) * BlockNumber(img.Shape(), 0, 0, z + 1) <= |comp|
    ensures ColoursReady(colours') && alphas' == AlphasAt(f, comp, BlockNumber(img.Shape(), 0, 0, z + 1), init)
    ensures DecodedBefore(f, img.Shape(), comp, init, img.data[..], before, 0, 0, z + 1)
  {
    ghost var l := img.Shape();
    colours', alphas', temp' := colours, alphas, temp;
    var y := 0;
    while y < img.height
      invariant y % 4 == 0 && y <= 4 * BlocksHigh(l)
      invariant temp' == BlockSize(f) * BlockNumber(l, 0, y, z) <= |comp|
      invariant ColoursReady(colours') && alphas' == AlphasAt(f, comp, BlockNumber(l, 0, y, z), init)
      invariant DecodedBefore(f, l, comp, init, img.data[..], before, 0, y, z)
    {
      colours', alphas', temp' := DecodeRow(img, f, comp, init, y, z, colours', alphas', temp', before);
      y := y + 4;
    }
    PlaneEnd(l, y, z);
    PlaneDone(f, l, comp, init, img.data[..], before, y, z);
  }

  /** A step of four from a multiple of four below w stays within w rounded up to blocks, and one at or past w is there. */
  lemma RoundUp(v: nat, w: nat)
    requires v % 4 == 0
    ensures v < w ==> v + 4 <= 4 * ((w + 3) / 4)
    ensures w <= v <= 4 * ((w + 3) / 4) ==> v == 4 * ((w + 3) / 4)
  {
    var b := (w + 3) / 4;
    assert w + 3 == 4 * b + (w + 3) % 4;
    assert v == 4 * (v / 4);
  }

  /** The block count up to the end of row q of plane z is within the whole count. */
  lemma RowsBound(z: nat, q: nat, depth: nat, high: nat, wide: nat, size: nat)
    requires z < depth && q < high
    ensures size * ((z * high + q + 1) * wide) <= size * (depth * high * wide)
  {
    MulMono(z + 1, depth, high);
    MulMono(z * high + q + 1, depth * high, wide);
    MulMono((z * high + q + 1) * wide, depth * high * wide, size);
  }

  /** Past the row's last block the walk stands at the first block of the next row, still inside the stream. */
  lemma RowEnd(f: Format, l: Layout, comp: seq<uint8>, x: nat, y: nat, z: nat)
    requires |comp| >= BlockCount(l) * BlockSize(f)
    requires x % 4 == 0 && l.width <= x <= 4 * BlocksWide(l) && y % 4 == 0 && y < l.height && z < l.depth
    ensures BlockNumber(l, x, y, z) == BlockNumber(l, 0, y + 4, z)
    ensures BlockSize(f) * BlockNumber(l, 0, y + 4, z) <= |comp|
  {
    RoundUp(x, l.width);
    NextRow(l, y, z);
    RoundUp(y, l.height);
    assert (y + 4) / 4 == y / 4 + 1;
    RowsBound(z, y / 4, l.depth, BlocksHigh(l), BlocksWide(l), BlockSize(f));
  }

  /** The block at (x, y, z) of the image lies inside the stream, and the next block along the row is the next one in it. */
  lemma BlockInStream(f: Format, l: Layout, comp: seq<uint8>, x: nat, y: nat, z: nat)
    requires |comp| >= BlockCount(l) * BlockSize(f)
    requires x < l.width && y < l.height && z < l.depth && x % 4 == 0
    ensures (BlockNumber(l, x, y, z) + 1) * BlockSize(f) <= |comp|
    ensures BlockSize(f) * BlockNumber(l, x, y, z) == BlockNumber(l, x, y, z) * BlockSize(f)
    ensures BlockNumber(l, x + 4, y, z) == BlockNumber(l, x, y, z) + 1
    ensures BlockSize(f) * BlockNumber(l, x + 4, y, z) == BlockSize(f) * BlockNumber(l, x, y, z) + BlockSize(f)
    ensures x + 4 <= 4 * BlocksWide(l)
  {
    RoundUp(x, l.width);
    var n := BlockNumber(l, x, y, z);
    BlockNumberBound(z, y / 4, x / 4, l.depth, BlocksHigh(l), BlocksWide(l));
    MulMono(n + 1, BlockCount(l), BlockSize(f));
    DivModUnique(x, 4, x / 4, 0);
    DivModUnique(x + 4, 4, x / 4 + 1, 0);
  }

  /** The alpha array the block-n step leaves is the one block n + 1 starts from. */
  lemma AlphasStep(f: Format, comp: seq<uint8>, init: seq<uint8>, n: nat, block: seq<uint8>)
    requires (n + 1) * BlockSize(f) <= |comp| && |init| == 8 && block == BlockBytes(f, comp, n)
    ensures (if f == DXT5 then Dxt5Alphas(AlphasAt(f, comp, n, init), block[0], block[1]) else AlphasAt(f, comp, n, init))
      == AlphasAt(f, comp, n + 1, init)
  {
    if f == DXT5 {
      assert block[0] == comp[16 * n] && block[1] == comp[16 * n + 1];
    }
  }

  /** The x loop over the row of blocks starting at row y of plane z. */
  method DecodeRow(img: Image, f: Format, comp: seq<uint8>, init: seq<uint8>, y: nat, z: nat,
                   colours: seq<Color8888>, alphas: seq<uint8>, temp: nat, ghost before: seq<uint8>)
    returns (colours': seq<Color8888>, alphas': seq<uint8>, temp': nat)
    requires img.Valid() && |comp| >= BlockCount(img.Shape()) * BlockSize(f) && |init| == 8
    requires z < img.depth && y < img.height && y % 4 == 0
    requires temp == BlockSize(f) * BlockNumber(img.Shape(), 0, y, z) <= |comp|
    requires ColoursReady(colours) && alphas == AlphasAt(f, comp, BlockNumber(img.Shape(), 0, y, z), init)
    requires DecodedBefore(f, img.Shape(), comp, init, img.data[..], before, 0, y, z)
    modifies img.data
    ensures temp' == BlockSize(f) * BlockNumber(img.Shape(), 0, y + 4, z) <= |comp|
    ensures ColoursReady(colours') && alphas' == AlphasAt(f, comp, BlockNumber(img.Shape(), 0, y + 4, z), init)
    ensures DecodedBefore(f, img.Shape(), comp, init, img.data[..], before, 0, y + 4, z)
  {
    ghost var l := img.Shape();
    colours', alphas', temp' := colours, alphas, temp;
    var x := 0;
    while x < img.width
      invariant x % 4 == 0 && x <= 4 * BlocksWide(l)
      invariant temp' == BlockSize(f) * BlockNumber(l, x, y, z) <= |comp|
      invariant ColoursReady(colours') && alphas' == AlphasAt(f, comp, BlockNumber(l, x, y, z), init)
      invariant DecodedBefore(f, l, comp, init, img.data[..], before, x, y, z)
    {
      ghost var n := BlockNumber(l, x, y, z);
      BlockInStream(f, l, comp, x, y, z);
      var block := comp[temp' .. temp' + BlockSize(f)];
      assert block == BlockBytes(f, comp, n);
      ghost var d0 := img.data[..];
      colours', alphas' := DecodeBlock(img, f, block, colours', alphas', x, y, z);
      DecodedStep(f, l, comp, init, before, d0, img.data[..], x, y, z);
      AlphasStep(f, comp, init, n, block);
      temp' := temp' + BlockSize(f);
      x := x + 4;
    }
    RowEnd(f, l, comp, x, y, z);
    RowDone(f, l, comp, init, img.data[..], before, x, y, z);
  }
}
