/** The two pixel routines behind the textured scenes: the generated
    checkerboard, and the staging buffer `registerTexture` fills from an
    image compiled into the program, with its alpha rules. */
module Textures {

  newtype byte = x: int | 0 <= x < 256

  /** A byte read through a `char` pointer: `char` is signed on the
      platforms the program targets, so bytes from 128 up are negative. */
  function Signed(b: byte): (r: int)
    ensures -128 <= r < 128
    ensures r % 256 == b as int % 256
  {
    if b < 128 then b as int else b as int - 256
  }

  /** Signed comparisons against 5 accept only the bytes 5 to 127. */
  lemma SignedAtLeastFive(b: byte)
    ensures Signed(b) >= 5 <==> 5 <= b < 128
  {
  }

  /** The only byte equal to -1 as a `char` is 0xFF. */
  lemma SignedMinusOne(b: byte)
    ensures Signed(b) == -1 <==> b == 255
  {
  }

  // ---------------------------------------------------------------------
  // checkerBoardTexture

  /** Bit 3 (the value 8) of a non-negative index. */
  predicate Bit3(n: nat)
  {
    (n / 8) % 2 == 1
  }

  /** The grey level of pixel (row `i`, column `j`): white exactly when
      bit 3 of the row and bit 3 of the column differ. */
  function CheckerValue(i: nat, j: nat): byte
  {
    if Bit3(i) == Bit3(j) then 0 else 255
  }

  /** Channel `ch` of pixel (`i`, `j`): the grey level in red, green and
      blue, and an opaque alpha. */
  function CheckerByte(i: nat, j: nat, ch: nat): byte
  {
    if ch == 3 then 255 else CheckerValue(i, j)
  }

  /** The pattern is made of 8 by 8 tiles: pixels of the same tile share
      their value. */
  lemma CheckerTiles(i1: nat, j1: nat, i2: nat, j2: nat)
    requires i1 / 8 == i2 / 8 && j1 / 8 == j2 / 8
    ensures CheckerValue(i1, j1) == CheckerValue(i2, j2)
  {
  }

  /** Neighbouring tiles alternate: eight rows or eight columns further on
      the grey level is inverted. */
  lemma CheckerAlternates(i: nat, j: nat)
    ensures CheckerValue(i + 8, j) == 255 - CheckerValue(i, j)
    ensures CheckerValue(i, j + 8) == 255 - CheckerValue(i, j)
  {
    assert (i + 8) / 8 == i / 8 + 1;
    assert (j + 8) / 8 == j / 8 + 1;
  }

  /** The pixel written by `checkImage[i][j]` in an array declared
      `[width][height]`: row `i` starts `height` pixels after row `i - 1`. */
  function AsWrittenSlot(width: nat, height: nat, i: nat, j: nat): (slot: nat)
    ensures j < height ==> i * height <= slot < i * height + height
  {
    i * height + j
  }

  /** `checkImage[i][j]` is inside the declared `[width][height]` bounds. */
  predicate InDeclaredBounds(width: nat, height: nat, i: nat, j: nat)
  {
    i < width && j < height
  }

  /** As written, the loops run rows to `height` and columns to `width`,
      so every index stays inside the declared `[width][height]` bounds
      only for a square (or empty) image. */
  lemma AsWrittenInBoundsOnlyIfSquare(width: nat, height: nat)
    ensures (forall i: nat, j: nat :: i < height && j < width ==> InDeclaredBounds(width, height, i, j))
            <==> width == height || width == 0 || height == 0
  {
    if width != height && width != 0 && height != 0 {
      if width < height {
        assert !InDeclaredBounds(width, height, height - 1, 0);
      } else {
        assert !InDeclaredBounds(width, height, 0, width - 1);
      }
    }
  }

  /** A 16 by 8 image: pixel (0, 8) lies past the declared row length and
      lands on the slot of pixel (1, 0). */
  lemma AsWrittenWideOverlaps()
    ensures AsWrittenSlot(16, 8, 0, 8) == AsWrittenSlot(16, 8, 1, 0)
  {
  }

  /** An 8 by 16 image: the last pixel written lands past the end of the
      128-pixel array. */
  lemma AsWrittenTallOverruns()
    ensures AsWrittenSlot(8, 16, 15, 7) >= 8 * 16
  {
  }

  /** `checkerBoardTexture` with the image laid out as the loops index it,
      `height` rows of `width` pixels of four bytes. */
  method CheckerboardTexture(width: nat, height: nat) returns (image: array3<byte>)
    ensures fresh(image)
    ensures image.Length0 == height && image.Length1 == width && image.Length2 == 4
    ensures forall i, j, ch :: 0 <= i < height && 0 <= j < width && 0 <= ch < 4 ==>
      image[i, j, ch] == CheckerByte(i, j, ch)
  {
    image := new byte[height, width, 4];
    var i := 0;
    while i < height
      invariant 0 <= i <= height
      invariant forall r, col, ch :: 0 <= r < i && 0 <= col < width && 0 <= ch < 4 ==>
        image[r, col, ch] == CheckerByte(r, col, ch)
    {
      CheckerRow(image, i);
      i := i + 1;
    }
  }

  /** The inner loop of `checkerBoardTexture`: row `i`. */
  method CheckerRow(image: array3<byte>, i: nat)
    requires i < image.Length0 && image.Length2 == 4
    modifies image
    ensures forall col, ch :: 0 <= col < image.Length1 && 0 <= ch < 4 ==> image[i, col, ch] == CheckerByte(i, col, ch)
    ensures forall r, col, ch :: 0 <= r < image.Length0 && r != i && 0 <= col < image.Length1 && 0 <= ch < 4 ==>
      image[r, col, ch] == old(image[r, col, ch])
  {
    var j := 0;
    while j < image.Length1
      invariant 0 <= j <= image.Length1
      invariant forall col, ch :: 0 <= col < j && 0 <= ch < 4 ==> image[i, col, ch] == CheckerByte(i, col, ch)
      invariant forall r, col, ch :: 0 <= r < image.Length0 && r != i && 0 <= col < image.Length1 && 0 <= ch < 4 ==>
        image[r, col, ch] == old(image[r, col, ch])
    {
      var c: byte := if Bit3(i) != Bit3(j) then 255 else 0;
      image[i, j, 0] := c;
      image[i, j, 1] := c;
      image[i, j, 2] := c;
      image[i, j, 3] := 255;
      j := j + 1;
    }
  }

  // ---------------------------------------------------------------------
  // registerTexture

  /** The three colour bytes the pixel-decoding macro writes for one pixel. */
  datatype Rgb = Rgb(r: byte, g: byte, b: byte)

  /** The alpha byte of a staged pixel. Style 1 makes pixels whose three
      channels are all at least 5 (as signed chars) transparent, style 2
      makes pure white transparent, and otherwise both copy the red byte;
      any other style leaves the 255 of the initial fill. */
  function Alpha(style: int, p: Rgb): (a: byte)
    ensures style != 1 && style != 2 ==> a == 255
    ensures style == 1 || style == 2 ==> a == 0 || a == p.r
  {
    if style == 1 then
      (if Signed(p.r) >= 5 && Signed(p.g) >= 5 && Signed(p.b) >= 5 then 0 else p.r)
    else if style == 2 then
      (if Signed(p.r) == -1 && Signed(p.g) == -1 && Signed(p.b) == -1 then 0 else p.r)
    else
      255
  }

  /** Byte `k` of the staging buffer after `registerTexture`: the styles
      0, 1 and 2 decode every pixel and set its alpha; any other style
      decodes nothing and the buffer keeps its fill of 255. */
  function StagedByte(style: int, pixels: seq<Rgb>, k: nat): (b: byte)
    requires k / 4 < |pixels|
    ensures style != 0 && style != 1 && style != 2 ==> b == 255
    ensures style == 0 && k % 4 == 3 ==> b == 255
    ensures (style == 1 || style == 2) && k % 4 == 3 ==> b == 0 || b == pixels[k / 4].r
    ensures (style == 0 || style == 1 || style == 2) && k % 4 == 0 ==> b == pixels[k / 4].r
  {
    var p := pixels[k / 4];
    if style != 0 && style != 1 && style != 2 then 255
    else if k % 4 == 0 then p.r
    else if k % 4 == 1 then p.g
    else if k % 4 == 2 then p.b
    else Alpha(style, p)
  }

  /** Style 1: a pixel ends up transparent exactly when its three channels
      are all between 5 and 127, or when its red byte is 0. */
  lemma StyleOneTransparent(p: Rgb)
    ensures Alpha(1, p) == 0 <==> (5 <= p.r < 128 && 5 <= p.g < 128 && 5 <= p.b < 128) || p.r == 0
  {
    SignedAtLeastFive(p.r);
    SignedAtLeastFive(p.g);
    SignedAtLeastFive(p.b);
  }

  /** Style 2: a pixel ends up transparent exactly when it is pure white,
      or when its red byte is 0. */
  lemma StyleTwoTransparent(p: Rgb)
    ensures Alpha(2, p) == 0 <==> p == Rgb(255, 255, 255) || p.r == 0
  {
    SignedMinusOne(p.r);
    SignedMinusOne(p.g);
    SignedMinusOne(p.b);
  }

  /** Under styles 1 and 2 a pixel that stays visible carries its red byte
      as alpha; under style 0 every pixel is opaque. */
  lemma VisibleAlphaIsRed(style: int, p: Rgb)
    requires style == 1 || style == 2
    requires Alpha(style, p) != 0
    ensures Alpha(style, p) == p.r
    ensures Alpha(0, p) == 255
  {
  }

  /** One pass of a decode loop: the macro writes the colour bytes of pixel
      `x` at `index`, then the style's alpha rule reads them back through
      the signed pointer and writes the fourth byte. */
  method StagePixel(buffer: array<byte>, index: nat, p: Rgb, style: int)
    requires index + 4 <= buffer.Length
    requires style == 0 || style == 1 || style == 2
    modifies buffer
    ensures buffer[index] == p.r && buffer[index + 1] == p.g && buffer[index + 2] == p.b
    ensures buffer[index + 3] == (if style == 0 then old(buffer[index + 3]) else Alpha(style, p))
    ensures forall k :: 0 <= k < buffer.Length && !(index <= k < index + 4) ==> buffer[k] == old(buffer[k])
  {
    buffer[index], buffer[index + 1], buffer[index + 2] := p.r, p.g, p.b;
    if style == 1 {
      if Signed(buffer[index]) >= 5 && Signed(buffer[index + 1]) >= 5 && Signed(buffer[index + 2]) >= 5 {
        buffer[index + 3] := 0;
      } else {
        buffer[index + 3] := buffer[index];
      }
    } else if style == 2 {
      if Signed(buffer[index]) == -1 && Signed(buffer[index + 1]) == -1 && Signed(buffer[index + 2]) == -1 {
        buffer[index + 3] := 0;
      } else {
        buffer[index + 3] := buffer[index];
      }
    }
  }

  /** A decode loop: `count` pixels, the pointer advancing four bytes a
      pixel over a buffer filled with 255. */
  method DecodePixels(buffer: array<byte>, pixels: seq<Rgb>, count: nat, style: int)
    requires buffer.Length == 4 * count && count <= |pixels|
    requires style == 0 || style == 1 || style == 2
    requires forall k :: 0 <= k < buffer.Length ==> buffer[k] == 255
    modifies buffer
    ensures forall k: nat :: k < buffer.Length ==> buffer[k] == StagedByte(style, pixels, k)
  {
    var index := 0;
    var x := 0;
    while x < count
      invariant 0 <= x <= count && index == 4 * x
      invariant forall k: nat :: k < index ==> buffer[k] == StagedByte(style, pixels, k)
      invariant forall k :: index <= k < buffer.Length ==> buffer[k] == 255
    {
      StagePixel(buffer, index, pixels[x], style);
      forall k: nat | index <= k < index + 4
        ensures buffer[k] == StagedByte(style, pixels, k)
      {
        assert k / 4 == x && k % 4 == k - index;
      }
      index := index + 4;
      x := x + 1;
    }
  }

  /** The pixel part of `registerTexture`: a staging buffer of four bytes
      per pixel, filled with 255, then decoded under the alpha style.
      `pixels` are the colours the decoding macro produces from the image
      data, in order. */
  method RegisterTexture(width: nat, height: nat, pixels: seq<Rgb>, style: int) returns (buffer: array<byte>)
    requires width * height <= |pixels|
    ensures fresh(buffer)
    ensures buffer.Length == 4 * (width * height)
    ensures forall k: nat :: k < buffer.Length ==> buffer[k] == StagedByte(style, pixels, k)
  {
    var count := width * height;
    buffer := new byte[4 * count](_ => 255);
    if 0 == style {
      DecodePixels(buffer, pixels, count, 0);
    } else {
      if 1 == style {
        DecodePixels(buffer, pixels, count, 1);
      }
      if 2 == style {
        DecodePixels(buffer, pixels, count, 2);
      }
    }
  }
}
