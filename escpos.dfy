/**
 * The ESC/POS protocol encoder: `pil_to_escpos_raster` turns a packed 1-bit
 * image into a `GS v 0` raster bit-image command, and `send_lan_image`
 * frames it between an `ESC @` initialise and four line feeds, followed
 * by an optional `GS V 0` paper cut.
 *
 * The image is given already packed, as the bytes PIL's raw encoder
 * produces for mode "1" (rows of ceil(width/8) bytes, most significant bit
 * first, a set bit for a white pixel).
 */
module EscPos {
  import opened Wrappers

  type byte = b: int | 0 <= b < 256

  /** `GS v 0` with mode 0 (normal density): 1D 76 30 00. */
  const RasterCommand: seq<byte> := [0x1D, 0x76, 0x30, 0x00]
  /** `ESC @`: initialise the printer. */
  const Initialize: seq<byte> := [0x1B, 0x40]
  /** Four line feeds after the image. */
  const Feed: seq<byte> := [0x0A, 0x0A, 0x0A, 0x0A]
  /** `GS V 0`: full cut. */
  const Cut: seq<byte> := [0x1D, 0x56, 0x00]

  /** A packed 1-bit image: its size in pixels and its raw bytes. */
  datatype Bitmap = Bitmap(width: nat, height: nat, data: seq<byte>)

  /** `int.to_bytes(2, 'little')` raises OverflowError on values that do not fit in 16 bits. */
  datatype EncodeError = OverflowError

  /** A bitmap whose raw data has exactly one packed row per pixel row. */
  predicate WellFormed(img: Bitmap) {
    |img.data| == WidthBytes(img.width) * img.height
  }

  /** Bytes per row: the width rounded up to whole bytes, `(w + 7) // 8`. */
  function WidthBytes(width: nat): nat {
    (width + 7) / 8
  }

  /** `n.to_bytes(2, 'little')`. */
  function LittleEndian16(n: nat): (bs: seq<byte>)
    requires n < 0x1_0000
    ensures |bs| == 2
  {
    [n % 256, n / 256]
  }

  /** `int.from_bytes(bs, 'little')` for two bytes. */
  function FromLittleEndian16(bs: seq<byte>): nat
    requires |bs| == 2
  {
    bs[0] as nat + 256 * bs[1] as nat
  }

  /** `~b & 0xFF`: every bit of the byte flipped. For 0 <= b < 256 this is
      255 - b, since b and its complement add up to 0xFF without carries. */
  function Invert(b: byte): byte {
    255 - b
  }

  /** Every byte of `data` inverted, in order. */
  function Inverted(data: seq<byte>): (r: seq<byte>)
    ensures |r| == |data|
  {
    seq(|data|, i requires 0 <= i < |data| => Invert(data[i]))
  }

  /** Both header fields fit in 16 bits, so `to_bytes` does not raise. */
  predicate Encodable(img: Bitmap) {
    WidthBytes(img.width) < 0x1_0000 && img.height < 0x1_0000
  }

  /** The value `pil_to_escpos_raster` returns, or the error it raises. */
  function Raster(img: Bitmap): Result<seq<byte>, EncodeError> {
    if !Encodable(img) then Failure(OverflowError)
    else Success(RasterCommand + LittleEndian16(WidthBytes(img.width)) + LittleEndian16(img.height) + Inverted(img.data))
  }

  /**
   * `pil_to_escpos_raster`: the header `1D 76 30 00`, the row width in
   * bytes and the height as little-endian 16-bit numbers, then each data
   * byte inverted, in order. Raises when either header field needs more
   * than 16 bits.
   */
  method EncodeRaster(img: Bitmap) returns (r: Result<seq<byte>, EncodeError>)
    ensures r == Raster(img)
    ensures r.Success? <==> Encodable(img)
    ensures r.Success? ==>
              && |r.value| == 8 + |img.data|
              && r.value[..4] == RasterCommand
              && FromLittleEndian16(r.value[4..6]) == WidthBytes(img.width)
              && FromLittleEndian16(r.value[6..8]) == img.height
              && forall i :: 0 <= i < |img.data| ==> r.value[8 + i] == Invert(img.data[i])
  {
    var wBytes := (img.width + 7) / 8;
    if wBytes >= 0x1_0000 || img.height >= 0x1_0000 {
      return Failure(OverflowError);
    }
    var cmd := RasterCommand + LittleEndian16(wBytes) + LittleEndian16(img.height);
    var inverted: seq<byte> := [];
    for i := 0 to |img.data|
      invariant |inverted| == i
      invariant forall j :: 0 <= j < i ==> inverted[j] == Invert(img.data[j])
    {
      inverted := inverted + [255 - img.data[i]];
    }
    assert inverted == Inverted(img.data);
    r := Success(cmd + inverted);
    LittleEndianRoundTrip(wBytes);
    LittleEndianRoundTrip(img.height);
    assert r.value[4..6] == LittleEndian16(wBytes);
    assert r.value[6..8] == LittleEndian16(img.height);
  }

  // ---------------------------------------------------------------------
  // Decoding: the partner of the encoder
  // ---------------------------------------------------------------------

  /** What a raster command describes: row width in bytes, rows, and the image's packed bits before inversion, where a set bit is white. */
  datatype RasterImage = RasterImage(widthBytes: nat, height: nat, dots: seq<byte>)

  /** Reads a raster command back: checks the command bytes, decodes the two
      16-bit fields, and undoes the inversion of the data bytes. */
  function ParseRaster(bs: seq<byte>): Option<RasterImage> {
    if |bs| < 8 || bs[..4] != RasterCommand then None
    else Some(RasterImage(FromLittleEndian16(bs[4..6]), FromLittleEndian16(bs[6..8]), Inverted(bs[8..])))
  }

  lemma LittleEndianRoundTrip(n: nat)
    requires n < 0x1_0000
    ensures FromLittleEndian16(LittleEndian16(n)) == n
  {
  }

  lemma {:induction false} InvertedTwice(data: seq<byte>)
    ensures Inverted(Inverted(data)) == data
  {
    forall i | 0 <= i < |data| ensures Inverted(Inverted(data))[i] == data[i] {
    }
  }

  /** Decoding an encoded raster gives back the header fields and the original data bytes. */
  lemma ParseRasterOfRaster(img: Bitmap)
    requires Encodable(img)
    ensures ParseRaster(Raster(img).value) == Some(RasterImage(WidthBytes(img.width), img.height, img.data))
  {
    var bs := Raster(img).value;
    var header := RasterCommand + LittleEndian16(WidthBytes(img.width)) + LittleEndian16(img.height);
    assert bs == header + Inverted(img.data);
    assert bs[..4] == RasterCommand;
    assert bs[4..6] == LittleEndian16(WidthBytes(img.width));
    assert bs[6..8] == LittleEndian16(img.height);
    assert bs[8..] == Inverted(img.data);
    LittleEndianRoundTrip(WidthBytes(img.width));
    LittleEndianRoundTrip(img.height);
    InvertedTwice(img.data);
  }

  /** Conversely, every raster command the printer accepts is the encoding of the bitmap it describes. */
  lemma RasterOfParseRaster(bs: seq<byte>)
    requires ParseRaster(bs).Some?
    ensures var ri := ParseRaster(bs).value;
            Raster(Bitmap(8 * ri.widthBytes, ri.height, ri.dots)) == Success(bs)
  {
    var ri := ParseRaster(bs).value;
    var img := Bitmap(8 * ri.widthBytes, ri.height, ri.dots);
    assert WidthBytes(img.width) == ri.widthBytes;
    LittleEndianOfFrom(bs[4..6]);
    LittleEndianOfFrom(bs[6..8]);
    InvertedTwice(bs[8..]);
    assert bs == bs[..4] + bs[4..6] + bs[6..8] + bs[8..];
  }

  lemma LittleEndianOfFrom(bs: seq<byte>)
    requires |bs| == 2
    ensures FromLittleEndian16(bs) < 0x1_0000
    ensures LittleEndian16(FromLittleEndian16(bs)) == bs
  {
    var n := FromLittleEndian16(bs);
    assert n % 256 == bs[0] && n / 256 == bs[1];
  }

  /** For a well-formed bitmap the header announces exactly as many data bytes as follow it. */
  lemma HeaderMatchesPayload(img: Bitmap)
    requires Encodable(img) && WellFormed(img)
    ensures var bs := Raster(img).value;
            |bs| - 8 == FromLittleEndian16(bs[4..6]) * FromLittleEndian16(bs[6..8])
  {
    ParseRasterOfRaster(img);
  }

  // ---------------------------------------------------------------------
  // Framing for the network printer
  // ---------------------------------------------------------------------

  /** The byte stream `send_lan_image` writes to the socket: `ESC @`, the
      raster, four line feeds, and `GS V 0` when `cut`. */
  function LanStream(raster: seq<byte>, cut: bool): seq<byte> {
    Initialize + raster + Feed + (if cut then Cut else [])
  }

  /** Splits a framed stream back into the raster and the cut flag. */
  function ParseLanStream(s: seq<byte>): Option<(seq<byte>, bool)> {
    if |s| < |Initialize| + |Feed| || s[..2] != Initialize then None
    else if |s| >= |Initialize| + |Feed| + |Cut| && s[|s| - 7..|s| - 3] == Feed && s[|s| - 3..] == Cut then
      Some((s[2..|s| - 7], true))
    else if s[|s| - 4..] == Feed then Some((s[2..|s| - 4], false))
    else None
  }

  /** The framing can be undone: the raster and whether a cut was requested are recovered. */
  lemma ParseLanStreamOfLanStream(raster: seq<byte>, cut: bool)
    ensures ParseLanStream(LanStream(raster, cut)) == Some((raster, cut))
  {
    var s := LanStream(raster, cut);
    if cut {
      assert s[..2] == Initialize;
      assert s[|s| - 7..|s| - 3] == Feed;
      assert s[|s| - 3..] == Cut;
      assert s[2..|s| - 7] == raster;
    } else {
      assert s[..2] == Initialize;
      assert s[|s| - 4..] == Feed;
      assert s[|s| - 3..] != Cut by {
        assert s[|s| - 3..][0] == 0x0A;
      }
      assert s[2..|s| - 4] == raster;
    }
  }

  /** The stream ends with the cut command exactly when a cut was requested. */
  lemma LanStreamEndsWithCutIffCut(raster: seq<byte>, cut: bool)
    ensures var s := LanStream(raster, cut);
            |s| == 2 + |raster| + 4 + (if cut then 3 else 0)
            && (s[|s| - 3..] == Cut <==> cut)
  {
    var s := LanStream(raster, cut);
    if !cut {
      assert s[|s| - 3..][0] == 0x0A;
    }
  }

  /** An 8x8 image with every packed bit clear (all black in PIL's mode "1")
      encodes to width-bytes 1, height 8 and eight 0xFF bytes. */
  lemma AllBlackEightByEight()
    ensures Raster(Bitmap(8, 8, [0, 0, 0, 0, 0, 0, 0, 0])) ==
            Success([0x1D, 0x76, 0x30, 0x00, 0x01, 0x00, 0x08, 0x00,
                     0xFF, 0xFF, 0xFF, 0xFF, 0xFF, 0xFF, 0xFF, 0xFF])
  {
    var img := Bitmap(8, 8, [0, 0, 0, 0, 0, 0, 0, 0]);
    assert WidthBytes(8) == 1;
    assert LittleEndian16(1) == [0x01, 0x00];
    assert LittleEndian16(8) == [0x08, 0x00];
    assert Inverted(img.data) == [0xFF, 0xFF, 0xFF, 0xFF, 0xFF, 0xFF, 0xFF, 0xFF];
    var expected: seq<byte> := [0x1D, 0x76, 0x30, 0x00, 0x01, 0x00, 0x08, 0x00,
                                0xFF, 0xFF, 0xFF, 0xFF, 0xFF, 0xFF, 0xFF, 0xFF];
    assert Raster(img).value == expected;
  }
}
