/**
  The public PicoDDS decoders (contrib/PicoDDS/decompress.h): DecompressDXT1,
  DXT3 and DXT5 over the shared block walk, the premultiplied-alpha correction,
  and DecompressDXT2 and DXT4, which are DXT3 and DXT5 followed by that
  correction. A null `lCompData` is `None`.

  The properties of the decoded alpha channel the formats promise are stated
  here on the value a block gives one texel: DXT1 alpha is fully opaque or
  fully clear, DXT3 alpha is a nibble repeated in both halves of the byte,
  and DXT5 alpha is one of the block's eight palette entries, the only entry
  carried over from an earlier block being entry 3 of a seven-step block.
*/
module DxtDecompress {
  import opened Wrappers
  import opened Dxt
  import opened DxtImage
  import opened Arith

  /** The alpha array DXT1 and DXT3 never read. */
  const NO_ALPHAS: seq<uint8> := [0, 0, 0, 0, 0, 0, 0, 0]

  // ---------------------------------------------------------------------
  // Entry points

  /** DecompressDXT1: false without data, otherwise every in-image texel gets its DXT1 value. */
  method DecompressDxt1(img: Image, comp: Option<seq<uint8>>) returns (ok: bool)
    requires img.Valid() && (comp.Some? ==> |comp.value| >= BlockCount(img.Shape()) * BlockSize(DXT1))
    modifies img.data
    ensures ok == comp.Some?
    ensures ok ==> img.data[..] == Decoded(DXT1, img.Shape(), comp.value, NO_ALPHAS, old(img.data[..]))
    ensures !ok ==> img.data[..] == old(img.data[..])
  {
    if comp.None? {
      return false;
    }
    DecodeBlocks(img, DXT1, comp.value, NO_ALPHAS);
    return true;
  }

  /** DecompressDXT3: false without data, otherwise every in-image texel gets its DXT3 value. */
  method DecompressDxt3(img: Image, comp: Option<seq<uint8>>) returns (ok: bool)
    requires img.Valid() && (comp.Some? ==> |comp.value| >= BlockCount(img.Shape()) * BlockSize(DXT3))
    modifies img.data
    ensures ok == comp.Some?
    ensures ok ==> img.data[..] == Decoded(DXT3, img.Shape(), comp.value, NO_ALPHAS, old(img.data[..]))
    ensures !ok ==> img.data[..] == old(img.data[..])
  {
    if comp.None? {
      return false;
    }
    DecodeBlocks(img, DXT3, comp.value, NO_ALPHAS);
    return true;
  }

  /**
    DecompressDXT5: false without data, otherwise every in-image texel gets
    its DXT5 value. `alphas` is what the decoder's uninitialised local array
    held on entry, which the stale entry 3 can expose.
  */
  method DecompressDxt5(img: Image, comp: Option<seq<uint8>>, alphas: seq<uint8>) returns (ok: bool)
    requires img.Valid() && |alphas| == 8
    requires comp.Some? ==> |comp.value| >= BlockCount(img.Shape()) * BlockSize(DXT5)
    modifies img.data
    ensures ok == comp.Some?
    ensures ok ==> img.data[..] == Decoded(DXT5, img.Shape(), comp.value, alphas, old(img.data[..]))
    ensures !ok ==> img.data[..] == old(img.data[..])
  {
    if comp.None? {
      return false;
    }
    DecodeBlocks(img, DXT5, comp.value, alphas);
    return true;
  }

  /** DecompressDXT2: DXT3 decoding, then the premultiplied colours divided back by their alpha. */
  method DecompressDxt2(img: Image, comp: Option<seq<uint8>>) returns (ok: bool)
    requires img.Valid() && img.data.Length % 4 == 0
    requires comp.Some? ==> |comp.value| >= BlockCount(img.Shape()) * BlockSize(DXT3)
    modifies img.data
    ensures ok == comp.Some?
    ensures ok ==> img.data[..] == PremultCorrected(Decoded(DXT3, img.Shape(), comp.value, NO_ALPHAS, old(img.data[..])))
    ensures !ok ==> img.data[..] == old(img.data[..])
  {
    ok := DecompressDxt3(img, comp);
    if !ok {
      return false;
    }
    CorrectPreMult(img);
    return true;
  }

  /**
    DecompressDXT4: DXT5 decoding and the correction, as DXT2 does; on
    success it still reports false.
  */
  method DecompressDxt4(img: Image, comp: Option<seq<uint8>>, alphas: seq<uint8>) returns (ok: bool)
    requires img.Valid() && img.data.Length % 4 == 0 && |alphas| == 8
    requires comp.Some? ==> |comp.value| >= BlockCount(img.Shape()) * BlockSize(DXT5)
    modifies img.data
    ensures !ok
    ensures comp.Some? ==> img.data[..] == PremultCorrected(Decoded(DXT5, img.Shape(), comp.value, alphas, old(img.data[..])))
    ensures comp.None? ==> img.data[..] == old(img.data[..])
  {
    var decoded := DecompressDxt5(img, comp, alphas);
    if !decoded {
      return false;
    }
    CorrectPreMult(img);
    return false;
  }

  // ---------------------------------------------------------------------
  // Premultiplied alpha

  /**
    `(uint8_t)((c << 8) / a)`: a colour channel divided back by its nonzero
    alpha, scaled by 256 rather than 255 and truncated to eight bits.
  */
  function Unmultiply(c: uint8, a: uint8): uint8
    requires a != 0
  {
    (c * 256 / a) % 256
  }

  /** Byte p after the correction: the first three bytes of each group of four divided by the fourth unless it is 0. */
  function CorrectedAt(d: seq<uint8>, p: nat): uint8
    requires p < |d| && |d| % 4 == 0
  {
    var a := d[p - p % 4 + 3];
    if p % 4 < 3 && a != 0 then Unmultiply(d[p], a) else d[p]
  }

  /** The whole buffer after CorrectPreMult. */
  function PremultCorrected(d: seq<uint8>): (r: seq<uint8>)
    requires |d| % 4 == 0
    ensures |r| == |d|
  {
    seq(|d|, p requires 0 <= p < |d| => CorrectedAt(d, p))
  }

  /** Byte p once the groups before byte i are corrected. */
  function CorrectedBeforeAt(d: seq<uint8>, i: nat, p: nat): uint8
    requires p < |d| && |d| % 4 == 0
  {
    if p < i then CorrectedAt(d, p) else d[p]
  }

  predicate CorrectedBefore(data: seq<uint8>, d: seq<uint8>, i: nat)
    requires |d| % 4 == 0
  {
    |data| == |d| && forall p :: 0 <= p < |data| ==> data[p] == CorrectedBeforeAt(d, i, p)
  }

  /** Correcting the group at i, a multiple of four, extends the corrected prefix by that group. */
  lemma CorrectStep(d: seq<uint8>, d0: seq<uint8>, d1: seq<uint8>, i: nat)
    requires |d| % 4 == 0 && i % 4 == 0 && i + 4 <= |d| && CorrectedBefore(d0, d, i) && |d1| == |d|
    requires forall p :: 0 <= p < |d1| && (p < i || i + 3 <= p) ==> d1[p] == d0[p]
    requires d0[i + 3] != 0 ==> d1[i] == Unmultiply(d0[i], d0[i + 3]) && d1[i + 1] == Unmultiply(d0[i + 1], d0[i + 3])
                                 && d1[i + 2] == Unmultiply(d0[i + 2], d0[i + 3])
    requires d0[i + 3] == 0 ==> d1[i] == d0[i] && d1[i + 1] == d0[i + 1] && d1[i + 2] == d0[i + 2]
    ensures CorrectedBefore(d1, d, i + 4)
  {
    assert d0[i + 3] == CorrectedBeforeAt(d, i, i + 3) == d[i + 3];
    forall p | 0 <= p < |d1|
      ensures d1[p] == CorrectedBeforeAt(d, i + 4, p)
    {
      if i <= p < i + 4 {
        DivModUnique(p, 4, i / 4, p - i);
        assert d0[p] == CorrectedBeforeAt(d, i, p);
      } else {
        assert d0[p] == CorrectedBeforeAt(d, i, p);
      }
    }
  }

  /**
    CorrectPreMult: over the whole of Data in groups of four bytes, whatever
    the image's pixel layout, the three colour bytes of a group whose fourth
    byte is nonzero are divided by it.
  */
  method CorrectPreMult(img: Image)
    requires img.data.Length % 4 == 0
    modifies img.data
    ensures img.data[..] == PremultCorrected(old(img.data[..]))
  {
    ghost var d := img.data[..];
    var i := 0;
    while i < img.data.Length
      invariant i % 4 == 0 && i <= img.data.Length
      invariant CorrectedBefore(img.data[..], d, i)
    {
      ghost var d0 := img.data[..];
      var a := img.data[i + 3];
      if a != 0 {
        img.data[i] := Unmultiply(img.data[i], a);
        img.data[i + 1] := Unmultiply(img.data[i + 1], a);
        img.data[i + 2] := Unmultiply(img.data[i + 2], a);
      }
      CorrectStep(d, d0, img.data[..], i);
      i := i + 4;
    }
    assert forall p :: 0 <= p < |d| ==> img.data[p] == CorrectedBeforeAt(d, i, p);
  }

  /** The correction keeps every fourth byte, and every group whose fourth byte is 0. */
  lemma PremultKeepsAlpha(d: seq<uint8>, p: nat)
    requires |d| % 4 == 0 && p < |d|
    ensures p % 4 == 3 ==> PremultCorrected(d)[p] == d[p]
    ensures d[p - p % 4 + 3] == 0 ==> PremultCorrected(d)[p] == d[p]
  {
  }

  /**
    A channel below its alpha is divided without wrap-around, and never
    decreases: r is the largest value with r * a <= c * 256.
  */
  lemma UnmultiplyBelowAlpha(c: uint8, a: uint8)
    requires 0 < a && c < a
    ensures Unmultiply(c, a) * a <= c * 256 < (Unmultiply(c, a) + 1) * a
    ensures c <= Unmultiply(c, a)
  {
    var q := QuotientBounds(c * 256, a);
    if q >= 256 {
      MulMono(256, q, a);
      assert false;
    }
    assert Unmultiply(c, a) == q;
    if q < c {
      MulMono(q + 1, c, a);
      MulMono(a, 256, c);
      assert false;
    }
  }

  /** The quotient of w by a is the q with q * a <= w < (q + 1) * a. */
  lemma QuotientBounds(w: nat, a: nat) returns (q: nat)
    requires a > 0
    ensures q == w / a && q * a <= w < (q + 1) * a
  {
    q := w / a;
    assert (q + 1) * a == q * a + a;
  }

  /** A channel equal to its alpha (a fully saturated premultiplied colour) wraps to 0. */
  lemma UnmultiplyFullChannelWraps(a: uint8)
    requires a != 0
    ensures Unmultiply(a, a) == 0
  {
    DivModUnique(a * 256, a, 256, 0);
  }

  /** At full alpha every channel but 255 is kept; 255 becomes 0. */
  lemma UnmultiplyOpaque(c: uint8)
    ensures Unmultiply(c, 255) == if c == 255 then 0 else c
  {
    if c == 255 {
      UnmultiplyFullChannelWraps(255);
    } else {
      DivModUnique(c * 256, 255, c, c);
    }
  }

  // ---------------------------------------------------------------------
  // What a block gives one texel

  /** The value the stream gives texel t is the one its block's bytes give its index in the block. */
  lemma TexelValueOfBlock(f: Format, l: Layout, comp: seq<uint8>, init: seq<uint8>, t: Texel)
    requires InImage(l, t) && |comp| >= BlockCount(l) * BlockSize(f) && |init| == 8
    ensures (BlockNumber(l, t.x, t.y, t.z) + 1) * BlockSize(f) <= |comp|
    ensures TexelValue(f, l, comp, init, t) ==
      BlockTexel(f, BlockBytes(f, comp, BlockNumber(l, t.x, t.y, t.z)), AlphasAt(f, comp, BlockNumber(l, t.x, t.y, t.z), init),
                 (t.y % 4) * 4 + t.x % 4, t.channel)
  {
    var n := BlockNumber(l, t.x, t.y, t.z);
    BlockOfTexelBound(l, t);
    MulMono(n + 1, BlockCount(l), BlockSize(f));
    var k := (t.y % 4) * 4 + t.x % 4;
    DivModUnique(4 * k + t.channel, 4, k, t.channel);
    assert BlockAt(f, comp, init, n)[4 * k + t.channel] == BlockTexel(f, BlockBytes(f, comp, n), AlphasAt(f, comp, n, init), k, t.channel);
  }

  /**
    DXT1 alpha is 255 or 0, and 0 exactly for texels with selector 3 in a
    block whose first colour word is not above its second (the three-colour
    mode's transparent entry).
  */
  lemma Dxt1AlphaOpaqueOrClear(block: seq<uint8>, alphas: seq<uint8>, k: nat)
    requires |block| == 8 && |alphas| == 8 && k < 16
    ensures BlockTexel(DXT1, block, alphas, k, 3) == 0 || BlockTexel(DXT1, block, alphas, k, 3) == 0xff
    ensures BlockTexel(DXT1, block, alphas, k, 3) == 0 <==>
      Word16(block[0], block[1]) <= Word16(block[2], block[3]) && Selector(Word32(block[4..8]), k) == 3
  {
    var palette := Dxt1Palette(block);
    var sel := Selector(Word32(block[4..8]), k);
    assert BlockTexel(DXT1, block, alphas, k, 3) == palette[sel].a;
    if sel == 3 {
      assert palette[3].a == if Word16(block[0], block[1]) > Word16(block[2], block[3]) then 0xff else 0;
    } else {
      assert palette[0].a == 0xff && palette[1].a == 0xff && palette[2].a == 0xff;
      assert palette[sel].a == 0xff;
    }
  }

  /** DXT3 alpha is a four-bit value repeated in both halves of the byte: 0, 17, 34, ..., 255. */
  lemma Dxt3AlphaReplicatesNibble(block: seq<uint8>, alphas: seq<uint8>, k: nat)
    requires |block| == 16 && |alphas| == 8 && k < 16
    ensures BlockTexel(DXT3, block, alphas, k, 3) / 16 == BlockTexel(DXT3, block, alphas, k, 3) % 16
    ensures BlockTexel(DXT3, block, alphas, k, 3) % 17 == 0
  {
    var v := BlockTexel(DXT3, block, alphas, k, 3);
    assert v == 17 * (v % 16);
  }

  /**
    DXT5 alpha depends on the array the previous blocks left only for code 3
    of a block whose first endpoint is above its second; there it is that
    stale entry.
  */
  lemma Dxt5AlphaHistory(block: seq<uint8>, alphas: seq<uint8>, alphas': seq<uint8>, k: nat)
    requires |block| == 16 && |alphas| == 8 && |alphas'| == 8 && k < 16
    ensures !(block[0] > block[1] && AlphaCode(block[2..8], k) == 3) ==>
      BlockTexel(DXT5, block, alphas, k, 3) == BlockTexel(DXT5, block, alphas', k, 3)
    ensures block[0] > block[1] && AlphaCode(block[2..8], k) == 3 ==> BlockTexel(DXT5, block, alphas, k, 3) == alphas[3]
  {
    Dxt5AlphasOnlyEntry3Remembers(alphas, alphas', block[0], block[1], AlphaCode(block[2..8], k));
  }

  /** Entry i of the DXT5 alpha palette is the same whatever the array held, except entry 3 of a seven-step block. */
  lemma Dxt5AlphasOnlyEntry3Remembers(alphas: seq<uint8>, alphas': seq<uint8>, a0: uint8, a1: uint8, i: nat)
    requires |alphas| == 8 && |alphas'| == 8 && i < 8
    ensures !(a0 > a1 && i == 3) ==> Dxt5Alphas(alphas, a0, a1)[i] == Dxt5Alphas(alphas', a0, a1)[i]
  {
  }

  /** DXT5 alpha codes 0 and 1 give the block's two endpoint bytes. */
  lemma Dxt5AlphaEndpoints(block: seq<uint8>, alphas: seq<uint8>, k: nat)
    requires |block| == 16 && |alphas| == 8 && k < 16
    ensures AlphaCode(block[2..8], k) == 0 ==> BlockTexel(DXT5, block, alphas, k, 3) == block[0]
    ensures AlphaCode(block[2..8], k) == 1 ==> BlockTexel(DXT5, block, alphas, k, 3) == block[1]
  {
  }

  /** DXT3 and DXT5 decode the colour half of a block alike. */
  lemma Dxt3Dxt5ColoursAgree(block: seq<uint8>, alphas: seq<uint8>, alphas': seq<uint8>, k: nat, c: nat)
    requires |block| == 16 && |alphas| == 8 && |alphas'| == 8 && k < 16 && c < 3
    ensures BlockTexel(DXT3, block, alphas, k, c) == BlockTexel(DXT5, block, alphas', k, c)
  {
  }
}
