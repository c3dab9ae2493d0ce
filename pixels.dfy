/**
 * Pixel grids and the per-pixel foreground rule of the detector
 * (src/detect_scanned_image_edge_position.py, lines 31-48).
 */
module Pixels {

  /** An 8-bit channel value, as in OpenCV's `uint8` images. */
  type Byte = x: int | 0 <= x < 256

  /** A colour as the input image stores it (OpenCV's BGR order). */
  datatype Bgr = Bgr(b: Byte, g: Byte, r: Byte)

  /** A colour in OpenCV's 8-bit HSV encoding: saturation and value run over 0..255. */
  datatype Hsv = Hsv(h: Byte, s: Byte, v: Byte)

  /** An image: a sequence of rows. */
  type Grid<T> = seq<seq<T>>

  predicate SameShape<A, B>(a: Grid<A>, b: Grid<B>)
  {
    |a| == |b| && forall i :: 0 <= i < |a| ==> |a[i]| == |b[i]|
  }

  /**
   * The foreground rule in the source's own terms: channels are divided by 255 and
   * compared with 0.3 and 0.7. A pixel is foreground when it is saturated enough,
   * or when its value is bright enough (dark background) or dark enough (light background).
   */
  predicate Foreground(p: Hsv, backgroundIsBlack: bool)
  {
    p.s as real / 255.0 > 0.3
    || (if backgroundIsBlack then p.v as real / 255.0 > 0.3 else p.v as real / 255.0 < 0.7)
  }

  /**
   * One mask sample, on integers: s/255 > 0.3 is s >= 77, v/255 > 0.3 is v >= 77 and
   * v/255 < 0.7 is v <= 178; the boolean is scaled to 0 or 255.
   */
  function MaskValue(p: Hsv, backgroundIsBlack: bool): (m: Byte)
    ensures m == 0 || m == 255
    ensures m == 255 <==> Foreground(p, backgroundIsBlack)
  {
    if p.s >= 77 || (if backgroundIsBlack then p.v >= 77 else p.v <= 178) then 255 else 0
  }

  /** The grey image fed to Otsu's threshold: 255 on foreground pixels, 0 elsewhere. */
  function ForegroundMask(img: Grid<Hsv>, backgroundIsBlack: bool): (mask: Grid<Byte>)
    ensures SameShape(img, mask)
    ensures forall i, j :: 0 <= i < |mask| && 0 <= j < |mask[i]| ==>
      (mask[i][j] == 0 || mask[i][j] == 255) && (mask[i][j] == 255 <==> Foreground(img[i][j], backgroundIsBlack))
  {
    seq(|img|, i requires 0 <= i < |img| =>
      seq(|img[i]|, j requires 0 <= j < |img[i]| => MaskValue(img[i][j], backgroundIsBlack)))
  }

  /** `np.bitwise_not` on one 8-bit sample: flipping all eight bits is subtracting from 255. */
  function BitwiseNot(v: Byte): (r: Byte)
  {
    255 - v
  }

  /** `np.bitwise_not` over a `uint8` image. */
  function Invert(g: Grid<Byte>): (r: Grid<Byte>)
    ensures SameShape(g, r)
  {
    seq(|g|, i requires 0 <= i < |g| =>
      seq(|g[i]|, j requires 0 <= j < |g[i]| => BitwiseNot(g[i][j])))
  }

  predicate IsBinary(g: Grid<Byte>)
  {
    forall i, j :: 0 <= i < |g| && 0 <= j < |g[i]| ==> g[i][j] == 0 || g[i][j] == 255
  }

  lemma InvertInvolutive(g: Grid<Byte>)
    ensures Invert(Invert(g)) == g
  {
    var r := Invert(Invert(g));
    forall i | 0 <= i < |g|
      ensures r[i] == g[i]
    {
      assert |r[i]| == |g[i]|;
    }
  }

  /** On a 0/255 mask, inversion swaps foreground and background and keeps the mask binary. */
  lemma InvertSwapsBinary(g: Grid<Byte>)
    requires IsBinary(g)
    ensures IsBinary(Invert(g))
    ensures forall i, j :: 0 <= i < |g| && 0 <= j < |g[i]| ==> (Invert(g)[i][j] == 255 <==> g[i][j] == 0)
  {
  }
}
