/** The PNG to PCG converter (png2pcg.rb): each pixel row is thresholded
    per colour plane and packed 8 pixels to a byte, most significant bit
    first; rows are taken 8 at a time as one row of characters, each
    character getting its 8 scanlines of blue, red and green bytes in a
    row, characters in row-major order. */
module Png2Pcg {
  import opened Base

  /** A ChunkyPNG pixel, 0xRRGGBBAA. */
  type Pixel = bv32

  /** One thresholded pixel. */
  type Bit = b: nat | b <= 1

  /** The planes as `get_plane` numbers them: the byte of the pixel that
      `0xff << 8 * plane` selects. */
  type Plane = p: bv32 | 1 <= p <= 3 witness 1

  const BLUE: Plane := 1
  const GREEN: Plane := 2
  const RED: Plane := 3

  /** One pixel of `get_plane`: 1 when the selected channel, still in
      place, is above `0x7f << 8 * plane`. */
  function PlaneBit(pixel: Pixel, plane: Plane): Bit
  {
    var mask: bv32 := 0xff << (8 * plane);
    var threshold: bv32 := 0x7f << (8 * plane);
    if pixel & mask > threshold then 1 else 0
  }

  /** The channel byte itself, shifted down. */
  function Channel(pixel: Pixel, plane: Plane): bv32
  {
    (pixel >> (8 * plane)) & 0xff
  }

  /** The bit is 1 exactly when the channel byte is more than 0x7f. */
  lemma PlaneBitThreshold(pixel: Pixel, plane: Plane)
    ensures PlaneBit(pixel, plane) == 1 <==> Channel(pixel, plane) > 0x7f
  {
  }

  /** `each_slice(8)`: groups of 8, the last one shorter when the length is
      not a multiple of 8. */
  function Slices8<T>(s: seq<T>): (groups: seq<seq<T>>)
    ensures |groups| == (|s| + 7) / 8
    ensures forall j :: 0 <= j < |groups| ==> 0 < |groups[j]| <= 8
    decreases |s|
  {
    if s == [] then []
    else if |s| <= 8 then [s]
    else [s[..8]] + Slices8(s[8..])
  }

  /** Group j is items 8j .. 8j+7 (fewer for the last group). */
  lemma {:induction false} Slices8At<T>(s: seq<T>, j: nat)
    requires j < (|s| + 7) / 8
    ensures Slices8(s)[j] == s[8 * j..if 8 * j + 8 <= |s| then 8 * j + 8 else |s|]
    decreases |s|
  {
    if |s| > 8 && j > 0 {
      Slices8At(s[8..], j - 1);
      assert s[8..][8 * (j - 1)..] == s[8 * j..];
    }
  }

  /** `inject(0) {|result, item| result * 2 + item}`. */
  function Inject(bits: seq<Bit>): nat
    decreases |bits|
  {
    if bits == [] then 0 else Inject(bits[..|bits| - 1]) * 2 + bits[|bits| - 1]
  }

  function Pow2(n: nat): (p: nat)
    ensures p >= 1
  {
    if n == 0 then 1 else 2 * Pow2(n - 1)
  }

  /** k bits pack to a number below 2^k, so a group of at most 8 to a byte. */
  lemma {:induction false} InjectBound(bits: seq<Bit>)
    ensures Inject(bits) < Pow2(|bits|)
    decreases |bits|
  {
    if bits != [] {
      InjectBound(bits[..|bits| - 1]);
    }
  }

  /** Bit k of x. */
  function TestBit(x: nat, k: nat): Bit
    decreases k
  {
    if k == 0 then x % 2 else TestBit(x / 2, k - 1)
  }

  /** Most significant bit first: bit |bits|-1-i of the packed value is
      item i, so the first pixel of a full group is bit 7. */
  lemma {:induction false} InjectBit(bits: seq<Bit>, i: nat)
    requires i < |bits|
    ensures TestBit(Inject(bits), |bits| - 1 - i) == bits[i]
    decreases |bits|
  {
    var init := bits[..|bits| - 1];
    var last := bits[|bits| - 1];
    assert Inject(bits) == Inject(init) * 2 + last;
    if i < |bits| - 1 {
      InjectBit(init, i);
      assert (Inject(init) * 2 + last) / 2 == Inject(init);
    }
  }

  /** The bits of one plane of a row, one per pixel. */
  function RowBits(row: seq<Pixel>, plane: Plane): (bits: seq<Bit>)
    ensures |bits| == |row|
  {
    seq(|row|, i requires 0 <= i < |row| => PlaneBit(row[i], plane))
  }

  /** `get_plane(image_row, plane)`. */
  function GetPlane(row: seq<Pixel>, plane: Plane): (bytes: seq<byte>)
    ensures |bytes| == (|row| + 7) / 8
  {
    var groups := Slices8(RowBits(row, plane));
    seq(|groups|, j requires 0 <= j < |groups| => PackGroup(groups, j))
  }

  function PackGroup(groups: seq<seq<Bit>>, j: nat): byte
    requires j < |groups| && |groups[j]| <= 8
  {
    InjectBound(groups[j]);
    assert Pow2(|groups[j]|) <= Pow2(8) by { Pow2Mono(|groups[j]|, 8); }
    Inject(groups[j])
  }

  lemma {:induction false} Pow2Mono(a: nat, b: nat)
    requires a <= b
    ensures Pow2(a) <= Pow2(b)
    decreases b
  {
    if b > a {
      Pow2Mono(a, b - 1);
    }
  }

  /** Each byte of `get_plane` packs the plane bits of its 8 pixels, the
      first of them as the most significant bit; a short last group is
      packed the same way, so it ends up in the low bits. */
  lemma GetPlaneBits(row: seq<Pixel>, plane: Plane, j: nat, i: nat)
    requires j < (|row| + 7) / 8
    requires 8 * j + i < |row| && i < 8
    ensures var len := if 8 * j + 8 <= |row| then 8 else |row| - 8 * j;
      TestBit(GetPlane(row, plane)[j], len - 1 - i) == PlaneBit(row[8 * j + i], plane)
  {
    var bits := RowBits(row, plane);
    Slices8At(bits, j);
    var group := Slices8(bits)[j];
    assert group[i] == PlaneBit(row[8 * j + i], plane);
    InjectBit(group, i);
  }

  /** For a row of a whole number of 8-pixel blocks: bit 7 - i of byte j is
      the plane bit of pixel 8j + i. */
  lemma GetPlaneMsbFirst(row: seq<Pixel>, plane: Plane, j: nat, i: nat)
    requires |row| % 8 == 0 && j < |row| / 8 && i < 8
    ensures TestBit(GetPlane(row, plane)[j], 7 - i) == PlaneBit(row[8 * j + i], plane)
  {
    GetPlaneBits(row, plane, j, i);
  }

  /** `plane_b.zip(plane_r, plane_g).map {|dat| dat.pack('CCC')}`: per
      block of 8 pixels, the blue, red and green bytes in that order. The
      byte values are already below 256, so 'C' keeps them as they are. */
  function ScanLine(row: seq<Pixel>): (line: seq<seq<byte>>)
    ensures |line| == (|row| + 7) / 8
    ensures forall cx :: 0 <= cx < |line| ==> |line[cx]| == 3
  {
    var b := GetPlane(row, BLUE);
    var r := GetPlane(row, RED);
    var g := GetPlane(row, GREEN);
    seq(|b|, cx requires 0 <= cx < |b| => [b[cx], r[cx], g[cx]])
  }

  /** The rows of an image all have the same width. */
  predicate Rectangular(image: seq<seq<Pixel>>, width: nat) {
    forall y :: 0 <= y < |image| ==> |image[y]| == width
  }

  /** Ruby's `transpose` of a rectangular array. */
  function Transpose<T>(m: seq<seq<T>>, width: nat): (t: seq<seq<T>>)
    requires forall i :: 0 <= i < |m| ==> |m[i]| == width
    ensures m == [] ==> t == []
    ensures m != [] ==> |t| == width
    ensures forall j :: 0 <= j < |t| ==> |t[j]| == |m| && forall i :: 0 <= i < |m| ==> t[j][i] == m[i][j]
  {
    if m == [] then [] else seq(width, j requires 0 <= j < width => seq(|m|, i requires 0 <= i < |m| => m[i][j]))
  }

  /** One row of characters: `yy.map {...}.transpose.map(&:join)` over the
      pixel rows `rows` of one group of (at most) 8 lines. Glyph cx is the
      scanlines' blue, red and green bytes for block cx, in line order. */
  function CharRow(rows: seq<seq<Pixel>>, width: nat): (glyphs: seq<seq<byte>>)
    requires Rectangular(rows, width) && rows != []
    ensures |glyphs| == (width + 7) / 8
    ensures forall cx :: 0 <= cx < |glyphs| ==> |glyphs[cx]| == 3 * |rows|
  {
    var lines := seq(|rows|, l requires 0 <= l < |rows| => ScanLine(rows[l]));
    var columns := Transpose(lines, (width + 7) / 8);
    var glyphs := seq(|columns|, cx requires 0 <= cx < |columns| => Flatten(columns[cx]));
    assert forall cx :: 0 <= cx < |glyphs| ==> |glyphs[cx]| == 3 * |rows| by {
      forall cx | 0 <= cx < |glyphs| ensures |glyphs[cx]| == 3 * |rows| {
        FlattenLength(columns[cx], 3);
      }
    }
    glyphs
  }

  /** The groups of rows of a rectangular image are rectangular. */
  lemma SlicesRectangular(image: seq<seq<Pixel>>, width: nat)
    requires Rectangular(image, width)
    ensures forall cy :: 0 <= cy < |Slices8(image)| ==> Rectangular(Slices8(image)[cy], width)
  {
    forall cy | 0 <= cy < |Slices8(image)|
      ensures Rectangular(Slices8(image)[cy], width)
    {
      Slices8At(image, cy);
    }
  }

  /** The character rows of the image: its pixel rows in groups of 8
      (`image.height.times.each_slice(8)`), each group a row of glyphs. */
  function CharRows(image: seq<seq<Pixel>>, width: nat): (rs: seq<seq<seq<byte>>>)
    requires Rectangular(image, width)
    ensures |rs| == (|image| + 7) / 8
    ensures forall cy :: 0 <= cy < |rs| ==> |rs[cy]| == (width + 7) / 8
  {
    var groups := Slices8(image);
    SlicesRectangular(image, width);
    seq(|groups|, cy requires 0 <= cy < |groups| => CharRow(groups[cy], width))
  }

  /** `.flatten`: all glyphs in row-major order. */
  function Glyphs(image: seq<seq<Pixel>>, width: nat): seq<seq<byte>>
    requires Rectangular(image, width)
  {
    Flatten(CharRows(image, width))
  }

  /** `pcgdat`: `.join` of all glyphs. */
  function Encode(image: seq<seq<Pixel>>, width: nat): seq<byte>
    requires Rectangular(image, width)
  {
    Flatten(Glyphs(image, width))
  }

  /** The plane of byte j of a pixel-block triple: blue, red, green. */
  function TriplePlane(j: nat): Plane
    requires j < 3
  {
    if j == 0 then BLUE else if j == 1 then RED else GREEN
  }

  /** Byte 3l + j of glyph cx of a character row is plane j (blue, red,
      green) of block cx of line l. */
  lemma CharRowAt(rows: seq<seq<Pixel>>, width: nat, cx: nat, l: nat, j: nat)
    requires Rectangular(rows, width) && rows != []
    requires cx < (width + 7) / 8 && l < |rows| && j < 3
    ensures 3 * l + j < |CharRow(rows, width)[cx]|
    ensures CharRow(rows, width)[cx][3 * l + j] == GetPlane(rows[l], TriplePlane(j))[cx]
  {
    var lines := seq(|rows|, l requires 0 <= l < |rows| => ScanLine(rows[l]));
    var columns := Transpose(lines, (width + 7) / 8);
    assert CharRow(rows, width)[cx] == Flatten(columns[cx]);
    assert columns[cx][l] == ScanLine(rows[l])[cx];
    FlattenUniform(columns[cx], 3, l, j);
  }

  /** For a height that is a multiple of 8 every group has 8 rows, so
      every glyph has 24 bytes. */
  lemma GlyphLengths(image: seq<seq<Pixel>>, width: nat)
    requires Rectangular(image, width) && |image| % 8 == 0
    ensures forall i :: 0 <= i < |Glyphs(image, width)| ==> |Glyphs(image, width)[i]| == 24
  {
    var charRows := CharRows(image, width);
    forall c | 0 <= c < |charRows|
      ensures forall cx :: 0 <= cx < |charRows[c]| ==> |charRows[c][cx]| == 24
    {
      Slices8At(image, c);
    }
    forall i | 0 <= i < |Glyphs(image, width)| ensures |Glyphs(image, width)[i]| == 24 {
      FlattenIn(charRows, Glyphs(image, width)[i]);
    }
  }

  /** Glyph NB cy + cx of the output is glyph cx of character row cy. */
  lemma GlyphsAt(image: seq<seq<Pixel>>, width: nat, cy: nat, cx: nat)
    requires Rectangular(image, width)
    requires cy < (|image| + 7) / 8 && cx < (width + 7) / 8
    ensures var nb := (width + 7) / 8;
      |Glyphs(image, width)| == (|image| + 7) / 8 * nb
      && nb * cy + cx < |Glyphs(image, width)|
      && Glyphs(image, width)[nb * cy + cx] == CharRows(image, width)[cy][cx]
  {
    FlattenUniform(CharRows(image, width), (width + 7) / 8, cy, cx);
  }

  /** Byte 24 k + r of the output is byte r of glyph k. */
  lemma EncodeAt(image: seq<seq<Pixel>>, width: nat, k: nat, r: nat)
    requires Rectangular(image, width) && |image| % 8 == 0
    requires k < |Glyphs(image, width)| && r < 24
    ensures |Encode(image, width)| == 24 * |Glyphs(image, width)|
    ensures 24 * k + r < |Encode(image, width)| && r < |Glyphs(image, width)[k]|
      && Encode(image, width)[24 * k + r] == Glyphs(image, width)[k][r]
  {
    GlyphLengths(image, width);
    FlattenUniform(Glyphs(image, width), 24, k, r);
  }

  lemma Regroup(q: nat, nb: nat)
    ensures 3 * (8 * q) * nb == 24 * (q * nb)
  {
  }

  /** Byte 3 l + j of glyph NB cy + cx is plane j (blue, red, green) of
      block cx of pixel row 8 cy + l. */
  lemma GlyphLayout(image: seq<seq<Pixel>>, width: nat, cy: nat, cx: nat, l: nat, j: nat)
    requires Rectangular(image, width) && |image| % 8 == 0
    requires cy < |image| / 8 && cx < (width + 7) / 8 && l < 8 && j < 3
    ensures var k := (width + 7) / 8 * cy + cx;
      k < |Glyphs(image, width)| && 3 * l + j < |Glyphs(image, width)[k]|
      && 8 * cy + l < |image|
      && Glyphs(image, width)[k][3 * l + j] == GetPlane(image[8 * cy + l], TriplePlane(j))[cx]
  {
    GlyphsAt(image, width, cy, cx);
    SlicesRectangular(image, width);
    Slices8At(image, cy);
    var group := Slices8(image)[cy];
    assert group[l] == image[8 * cy + l];
    CharRowAt(group, width, cx, l, j);
  }

  /** The output has 3 H NB bytes for a height H that is a multiple of 8
      and NB blocks of 8 pixels per row. */
  lemma EncodeLength(image: seq<seq<Pixel>>, width: nat)
    requires Rectangular(image, width) && |image| % 8 == 0
    ensures |Encode(image, width)| == 3 * |image| * ((width + 7) / 8)
  {
    var nb := (width + 7) / 8;
    var q := |image| / 8;
    assert (|image| + 7) / 8 == q && |image| == 8 * q;
    if q > 0 && nb > 0 {
      GlyphsAt(image, width, 0, 0);
      EncodeAt(image, width, 0, 0);
      Regroup(q, nb);
    } else {
      FlattenLength(CharRows(image, width), nb);
      GlyphLengths(image, width);
      FlattenLength(Glyphs(image, width), 24);
    }
  }

  /** The 6144-byte format: byte 24 (NB cy + cx) + 3 l + j of the output is
      plane j (blue, red, green) of block cx of pixel row 8 cy + l, the
      order the loader sends to the PCG ports. */
  lemma EncodeLayout(image: seq<seq<Pixel>>, width: nat, cy: nat, cx: nat, l: nat, j: nat)
    requires Rectangular(image, width) && |image| % 8 == 0
    requires cy < |image| / 8 && cx < (width + 7) / 8 && l < 8 && j < 3
    ensures var k := (width + 7) / 8 * cy + cx;
      24 * k + 3 * l + j < |Encode(image, width)| && 8 * cy + l < |image|
      && Encode(image, width)[24 * k + 3 * l + j] == GetPlane(image[8 * cy + l], TriplePlane(j))[cx]
  {
    var k := (width + 7) / 8 * cy + cx;
    GlyphLayout(image, width, cy, cx, l, j);
    EncodeAt(image, width, k, 3 * l + j);
  }

  /** A 128 x 128 image encodes to the 6144 bytes the loader reads. */
  lemma EncodeSize(image: seq<seq<Pixel>>)
    requires |image| == 128 && Rectangular(image, 128)
    ensures |Encode(image, 128)| == 6144
  {
    EncodeLength(image, 128);
  }

  /** ASCII letters matched without regard to case, as `/i` does for
      "png". */
  predicate SameLetter(c: char, lower: char)
    requires 'a' <= lower <= 'z'
  {
    c == lower || c as int == lower as int - 32
  }

  /** The pattern `\.png$` with `/i` matches at i: the four characters
      ".png" in any case, then the end of the string or a line break (Ruby's
      `$` is end of line). */
  predicate PngAt(name: string, i: nat) {
    i + 4 <= |name| && name[i] == '.'
    && SameLetter(name[i + 1], 'p') && SameLetter(name[i + 2], 'n') && SameLetter(name[i + 3], 'g')
    && (i + 4 == |name| || name[i + 4] == '\n')
  }

  /** The leftmost match at or after i. */
  function FindPng(name: string, i: nat): (r: Option<nat>)
    ensures r.Some? ==> i <= r.value && PngAt(name, r.value)
    decreases |name| - i
  {
    if i + 4 > |name| then None
    else if PngAt(name, i) then Some(i)
    else FindPng(name, i + 1)
  }

  /** `filename.sub(/\.png$/i, '.PCG')`. */
  function OutputName(name: string): string {
    match FindPng(name, 0)
    case None => name
    case Some(i) => name[..i] + ".PCG" + name[i + 4..]
  }

  /** The search returns the leftmost match, and None only when there is
      none. */
  lemma {:induction false} FindPngLeftmost(name: string, i: nat)
    ensures FindPng(name, i).Some? ==> forall k :: i <= k < FindPng(name, i).value ==> !PngAt(name, k)
    ensures FindPng(name, i).None? ==> forall k :: i <= k ==> !PngAt(name, k)
    decreases |name| - i
  {
    if i + 4 <= |name| && !PngAt(name, i) {
      FindPngLeftmost(name, i + 1);
    }
  }

  /** No character of the name is a line break. */
  predicate NoLineBreak(name: string) {
    forall k :: 0 <= k < |name| ==> name[k] != '\n'
  }

  /** For a name without line breaks, a trailing ".png" in any case becomes
      ".PCG" and any other name is kept. */
  lemma OutputNameSuffix(name: string)
    requires NoLineBreak(name)
    ensures OutputName(name) ==
      if |name| >= 4 && PngAt(name, |name| - 4) then name[..|name| - 4] + ".PCG" else name
  {
    FindPngLeftmost(name, 0);
    if FindPng(name, 0).Some? {
      var i := FindPng(name, 0).value;
      assert i + 4 == |name|;
    }
  }

  /** Converting a line-break-free name a second time changes nothing:
      ".PCG" is not ".png". */
  lemma OutputNameIdempotent(name: string)
    requires NoLineBreak(name)
    ensures OutputName(OutputName(name)) == OutputName(name)
  {
    OutputNameSuffix(name);
    var out := OutputName(name);
    if |name| >= 4 && PngAt(name, |name| - 4) {
      forall k | 0 <= k < |out| ensures out[k] != '\n' {
        if k < |name| - 4 {
          assert out[k] == name[k];
        }
      }
    }
    OutputNameSuffix(out);
  }
}
