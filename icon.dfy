/**
 * The channel normalisation `obtenerIcono` applies to an icon once it has
 * been fetched and resized to 32 x 32 (fetching and resizing are not
 * modelled): a one-channel image is remapped to RGBA in a nested loop, a
 * three-channel image gains an opaque alpha channel, and the result is
 * reshaped into a list of four-component pixels.
 */
module Icon {

  /** One entry of the reshaped list: four consecutive channel values. */
  datatype Quad = Quad(r: int, g: int, b: int, a: int)

  /**
   * The resized image. `Gray` is a two-dimensional 32 x 32 array; `Color` is
   * a (32, 32, channels) array, given as its 1024 pixels in row-major order.
   */
  datatype Photo =
    | Gray(plane: seq<seq<int>>)
    | Color(channels: nat, pixels: seq<seq<int>>)

  /** The shape the resize step produces. */
  predicate WellShaped(photo: Photo)
  {
    match photo
    case Gray(plane) =>
      |plane| == 32 && forall i :: 0 <= i < 32 ==> |plane[i]| == 32
    case Color(channels, pixels) =>
      channels >= 1 && |pixels| == 1024 && forall n :: 0 <= n < 1024 ==> |pixels[n]| == channels
  }

  /**
   * What a one-channel pixel becomes: 0 is transparent white, any other
   * value `p` keeps the black RGB the buffer was filled with and gets alpha
   * `255 - p`.
   */
  function GrayPixel(p: int): (q: Quad)
    ensures 0 <= p <= 255 ==> InRange(q)
    ensures q.a == 0 <==> p == 0 || p == 255
    ensures p != 0 ==> q.r == q.g == q.b == 0 && q.a + p == 255
  {
    if p == 0 then Quad(255, 255, 255, 0) else Quad(0, 0, 0, 255 - p)
  }

  /** What a three- or four-channel pixel becomes: a missing alpha is 255. */
  function ColorPixel(p: seq<int>): (q: Quad)
    requires |p| >= 3
    ensures [q.r, q.g, q.b] == p[..3]
    ensures |p| == 3 ==> q.a == 255
    ensures |p| == 4 ==> [q.r, q.g, q.b, q.a] == p
    ensures (forall k :: 0 <= k < |p| ==> 0 <= p[k] <= 255) ==> InRange(q)
  {
    Quad(p[0], p[1], p[2], if |p| == 3 then 255 else p[3])
  }

  /** Every component is a byte value. */
  predicate InRange(q: Quad)
  {
    0 <= q.r <= 255 && 0 <= q.g <= 255 && 0 <= q.b <= 255 && 0 <= q.a <= 255
  }

  /**
   * A 255-filled four-channel buffer with the three channels of each pixel
   * copied in: read as a pixel, each entry is what `ColorPixel` makes of the
   * three-channel pixel.
   */
  function AddAlpha(pixels: seq<seq<int>>): (r: seq<seq<int>>)
    requires forall n :: 0 <= n < |pixels| ==> |pixels[n]| == 3
    ensures |r| == |pixels|
    ensures forall n :: 0 <= n < |r| ==> |r[n]| == 4 && ColorPixel(r[n]) == ColorPixel(pixels[n])
  {
    seq(|pixels|, n requires 0 <= n < |pixels| => [pixels[n][0], pixels[n][1], pixels[n][2], 255])
  }

  /** The channel values of a pixel list in row-major order (numpy's flat order). */
  function Concat(pixels: seq<seq<int>>): seq<int>
  {
    if pixels == [] then [] else pixels[0] + Concat(pixels[1..])
  }

  /** `reshape(-1, 4)`: consecutive groups of four values. */
  function Chunk4(s: seq<int>): (r: seq<Quad>)
    ensures |r| == |s| / 4
  {
    seq(|s| / 4, n requires 0 <= n < |s| / 4 => Quad(s[4 * n], s[4 * n + 1], s[4 * n + 2], s[4 * n + 3]))
  }

  lemma MulStep(n: int, c: int)
    ensures n * c == (n - 1) * c + c
  {
  }

  /** Channel `k` of pixel `n` sits at position `n * c + k` of the flat stream. */
  lemma {:induction false} ConcatAt(pixels: seq<seq<int>>, c: nat, n: nat, k: nat)
    requires forall m :: 0 <= m < |pixels| ==> |pixels[m]| == c
    requires n < |pixels| && k < c
    ensures n * c + k < |Concat(pixels)|
    ensures Concat(pixels)[n * c + k] == pixels[n][k]
    decreases n
  {
    ConcatLength(pixels[1..], c);
    if n > 0 {
      ConcatAt(pixels[1..], c, n - 1, k);
      MulStep(n, c);
    }
  }

  lemma {:induction false} ConcatLength(pixels: seq<seq<int>>, c: nat)
    requires forall n :: 0 <= n < |pixels| ==> |pixels[n]| == c
    ensures |Concat(pixels)| == |pixels| * c
    decreases |pixels|
  {
    if pixels != [] {
      ConcatLength(pixels[1..], c);
    }
  }

  /** With four channels the groups of four are exactly the pixels. */
  lemma FourChannelChunks(pixels: seq<seq<int>>)
    requires forall n :: 0 <= n < |pixels| ==> |pixels[n]| == 4
    ensures |Chunk4(Concat(pixels))| == |pixels|
    ensures forall n :: 0 <= n < |pixels| ==> Chunk4(Concat(pixels))[n] == ColorPixel(pixels[n])
  {
    ConcatLength(pixels, 4);
    forall n | 0 <= n < |pixels|
      ensures Chunk4(Concat(pixels))[n] == ColorPixel(pixels[n])
    {
      ConcatAt(pixels, 4, n, 0);
      ConcatAt(pixels, 4, n, 1);
      ConcatAt(pixels, 4, n, 2);
      ConcatAt(pixels, 4, n, 3);
    }
  }

  /** Component `k` of a pixel, in the order of the array's last axis. */
  function Component(q: Quad, k: nat): int
    requires k < 4
  {
    match k
    case 0 => q.r
    case 1 => q.g
    case 2 => q.b
    case _ => q.a
  }

  function Cell(rgba: array3<int>, i: nat, j: nat): Quad
    requires i < rgba.Length0 && j < rgba.Length1 && rgba.Length2 == 4
    reads rgba
  {
    Quad(rgba[i, j, 0], rgba[i, j, 1], rgba[i, j, 2], rgba[i, j, 3])
  }

  /**
   * The nested loop of the one-channel branch, over a buffer filled with 0,
   * followed by the reshape into 1024 pixels.
   */
  method RemapGray(plane: seq<seq<int>>) returns (icono: seq<Quad>)
    requires |plane| == 32 && forall i :: 0 <= i < 32 ==> |plane[i]| == 32
    ensures |icono| == 1024
    ensures forall n :: 0 <= n < 1024 ==> icono[n] == GrayPixel(plane[n / 32][n % 32])
  {
    var rgba := new int[32, 32, 4]((i, j, k) => 0);
    for i := 0 to 32
      invariant forall i', j', k :: 0 <= i' < i && 0 <= j' < 32 && 0 <= k < 4 ==>
        rgba[i', j', k] == Component(GrayPixel(plane[i'][j']), k)
      invariant forall i', j', k :: i <= i' < 32 && 0 <= j' < 32 && 0 <= k < 4 ==> rgba[i', j', k] == 0
    {
      for j := 0 to 32
        invariant forall i', j', k :: 0 <= i' < i && 0 <= j' < 32 && 0 <= k < 4 ==>
          rgba[i', j', k] == Component(GrayPixel(plane[i'][j']), k)
        invariant forall j', k :: 0 <= j' < j && 0 <= k < 4 ==>
          rgba[i, j', k] == Component(GrayPixel(plane[i][j']), k)
        invariant forall i', j', k :: i <= i' < 32 && 0 <= j' < 32 && 0 <= k < 4 && (i' > i || j' >= j) ==>
          rgba[i', j', k] == 0
      {
        if plane[i][j] == 0 {
          rgba[i, j, 0] := 255;
          rgba[i, j, 1] := 255;
          rgba[i, j, 2] := 255;
          rgba[i, j, 3] := 0;
        } else {
          rgba[i, j, 3] := 255 - plane[i][j];
        }
      }
    }
    icono := seq(1024, n requires 0 <= n < 1024 reads rgba => Cell(rgba, n / 32, n % 32));
    forall n | 0 <= n < 1024
      ensures icono[n] == GrayPixel(plane[n / 32][n % 32])
    {
      var i, j := n / 32, n % 32;
      assert rgba[i, j, 0] == Component(GrayPixel(plane[i][j]), 0);
      assert rgba[i, j, 1] == Component(GrayPixel(plane[i][j]), 1);
      assert rgba[i, j, 2] == Component(GrayPixel(plane[i][j]), 2);
      assert rgba[i, j, 3] == Component(GrayPixel(plane[i][j]), 3);
    }
  }

  /**
   * The normalisation: a one-channel image and an image with three or four
   * channels give 1024 pixels; any other channel count gives the groups of
   * four of its row-major value stream, as `reshape(-1, 4)` does.
   */
  method Normalise(photo: Photo) returns (icono: seq<Quad>)
    requires WellShaped(photo)
    ensures photo.Gray? ==>
      |icono| == 1024 &&
      forall n :: 0 <= n < 1024 ==> icono[n] == GrayPixel(photo.plane[n / 32][n % 32])
    ensures photo.Color? && photo.channels in {3, 4} ==>
      |icono| == 1024 &&
      forall n :: 0 <= n < 1024 ==> icono[n] == ColorPixel(photo.pixels[n])
    ensures photo.Color? && photo.channels !in {3, 4} ==>
      |icono| == 256 * photo.channels && icono == Chunk4(Concat(photo.pixels))
  {
    match photo
    case Gray(plane) =>
      icono := RemapGray(plane);
    case Color(channels, pixels) =>
      if channels == 3 {
        var rgba := AddAlpha(pixels);
        FourChannelChunks(rgba);
        icono := Chunk4(Concat(rgba));
      } else {
        ConcatLength(pixels, channels);
        if channels == 4 {
          FourChannelChunks(pixels);
        }
        icono := Chunk4(Concat(pixels));
      }
  }
}
