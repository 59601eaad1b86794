/** The 6144-byte glyph format shared by the converter and the loader
    (setpcg.c:9-24, png2pcg.rb:12-27): byte 24g + 3l + p is plane p (blue,
    red, green) of scanline l of character g. */
module Format {
  import opened Base
  import opened Hardware
  import opened PcgTransfer
  import opened Vram
  import opened Loader
  import opened Png2Pcg

  /** The offset of plane p of scanline l of character g. */
  function Offset(g: nat, l: nat, p: nat): nat {
    24 * g + 3 * l + p
  }

  /** In round j the loader sends, as output 3i + p of the transfer, plane
      p of scanline i % 8 of character 8j + i / 8 to port (0x15 + p) * 256
      + i: the 64 lines of a batch are the 8 scanlines of its 8 characters
      in turn. */
  lemma RoundSendsGlyphLines(data: seq<byte>, j: nat, i: nat, p: nat)
    requires |data| == PCG_BYTES && j < ROUNDS && i < LINES && p < 3
    ensures 3 * i + p < |TransferWrites(Batch(data, j))|
    ensures Offset(8 * j + i / 8, i % 8, p) < |data|
    ensures TransferWrites(Batch(data, j))[3 * i + p]
      == Write((BLUE_PORT + p) * 0x100 + i, data[Offset(8 * j + i / 8, i % 8, p)])
  {
    TransferWritesAt(Batch(data, j), 3 * i + p);
    assert (3 * i + p) % 3 == p && (3 * i + p) / 3 == i;
    assert BATCH_BYTES * j + 3 * i + p == Offset(8 * j + i / 8, i % 8, p);
  }

  /** When line i of round j starts, after lines 0 .. i-1 of the batch
      have gone out, slot row i / 8 still shows code 8j + i / 8: the
      character whose scanline the line carries. */
  lemma SlotRowMatchesLine(m: Memory, data: seq<byte>, j: nat, i: nat, x: nat)
    requires |data| == PCG_BYTES && j < ROUNDS && i < LINES && x < SLOT_COLUMNS
    ensures Apply(m, RoundsWrites(data, j) + SlotWrites(8 * j, SLOT_COLUMNS) + LinesWrites(Batch(data, j), i))
      [TextAddr(i / 8, x)] == 8 * j + i / 8
  {
    var before := RoundsWrites(data, j) + SlotWrites(8 * j, SLOT_COLUMNS);
    var sent := LinesWrites(Batch(data, j), i);
    var a := TextAddr(i / 8, x);
    ApplySplit(m, before + sent, before, sent);
    LinesWritesLength(Batch(data, j), i);
    forall k | 0 <= k < |sent|
      ensures sent[k].port != a
    {
      LinesWritesAt(Batch(data, j), i, k);
    }
    ApplyUntouched(Apply(m, before), sent, a);
    SlotsShowBatch(m, data, j, i / 8, x);
  }

  /** End to end, for a 128 x 128 image: the loader sends plane p of block
      g % 16 of pixel row 8 (g / 16) + i % 8 (g = 8j + i / 8) to port
      (0x15 + p) * 256 + i, with the planes in the order blue, red, green. */
  lemma EncodedImageReachesPorts(image: seq<seq<Pixel>>, j: nat, i: nat, p: nat)
    requires |image| == 128 && Rectangular(image, 128)
    requires j < ROUNDS && i < LINES && p < 3
    ensures |Encode(image, 128)| == PCG_BYTES
    ensures var g := 8 * j + i / 8;
      8 * (g / 16) + i % 8 < |image|
      && 3 * i + p < |TransferWrites(Batch(Encode(image, 128), j))|
      && TransferWrites(Batch(Encode(image, 128), j))[3 * i + p]
        == Write((BLUE_PORT + p) * 0x100 + i, GetPlane(image[8 * (g / 16) + i % 8], TriplePlane(p))[g % 16])
  {
    var data := Encode(image, 128);
    EncodeSize(image);
    var g := 8 * j + i / 8;
    assert g < 256 && (128 + 7) / 8 == 16 && 16 * (g / 16) + g % 16 == g;
    var cy, cx, l := g / 16, g % 16, i % 8;
    RoundSendsGlyphLines(data, j, i, p);
    EncodeLayout(image, 128, cy, cx, l, p);
    var off := Offset(g, l, p);
    assert off == 24 * ((128 + 7) / 8 * cy + cx) + 3 * l + p;
    var plane := GetPlane(image[8 * cy + l], TriplePlane(p));
    assert data[off] == plane[cx];
  }
}
