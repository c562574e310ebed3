/**
 * castd/render/framebuffer.py, paint_framebuffer: packing RGB bytes into RGB565 and padding
 * each row to the scanline stride. The resized image comes in as bytes.
 */
module Framebuffer {
  import opened Prelude

  type Bytes = seq<bv8>

  // ----- one pixel -----

  /** The 565 value, computed as Python does, with no width of its own. */
  function Rgb565(r: bv8, g: bv8, b: bv8): bv32 {
    (((r as bv32) & 0xF8) << 8) | (((g as bv32) & 0xFC) << 3) | ((b as bv32) >> 3)
  }

  /** It holds the top 5, 6 and 5 bits of the components and fits in two bytes. */
  lemma Rgb565Fields(r: bv8, g: bv8, b: bv8)
    ensures var v := Rgb565(r, g, b);
            && v < 0x1_0000
            && v >> 11 == (r >> 3) as bv32
            && (v >> 5) & 0x3F == (g >> 2) as bv32
            && v & 0x1F == (b >> 3) as bv32
  {
  }

  /** The two bytes written; the conversions hold because neither leaves a byte's range. */
  function Low(v: bv32): bv8 {
    assert v & 0xFF < 0x100;
    (v & 0xFF) as bv8
  }

  function High(v: bv32): bv8
    requires v < 0x1_0000
  {
    assert v >> 8 < 0x100;
    (v >> 8) as bv8
  }

  /** The components of a value, as a number. */
  lemma ValueParts(r: bv8, g: bv8, b: bv8)
    ensures Rgb565(r, g, b) == ((r / 8) as bv32) * 2048 + ((g / 4) as bv32) * 32 + ((b / 8) as bv32)
    ensures Rgb565(r, g, b) < 0x1_0000 && r / 8 < 32 && g / 4 < 64 && b / 8 < 32
  {
  }

  lemma SumAsNumber(v: bv32, a: bv32, b: bv32, c: bv32)
    requires a < 32 && b < 64 && c < 32 && v == a * 2048 + b * 32 + c
    ensures v as nat == (a as nat) * 2048 + (b as nat) * 32 + (c as nat)
  {
  }

  lemma ComponentAsNumber(r: bv8, g: bv8, b: bv8)
    ensures (r / 8) as bv32 as nat == r as nat / 8
    ensures (g / 4) as bv32 as nat == g as nat / 4
    ensures (b / 8) as bv32 as nat == b as nat / 8
  {
  }

  lemma BytesAsWord(v: bv32)
    requires v < 0x1_0000
    ensures Low(v) as bv32 == v % 256 && High(v) as bv32 == v / 256
  {
  }

  lemma ByteAsNumber(x: bv8)
    ensures x as nat == x as bv32 as nat
  {
  }

  lemma WordAsNumber(v: bv32)
    requires v < 0x1_0000
    ensures ((v % 256) as nat) + 256 * ((v / 256) as nat) == v as nat
  {
  }

  lemma BytesAsNumber(v: bv32)
    requires v < 0x1_0000
    ensures (Low(v) as nat) + 256 * (High(v) as nat) == v as nat
  {
    hide Low, High;
    BytesAsWord(v);
    ByteAsNumber(Low(v));
    ByteAsNumber(High(v));
    WordAsNumber(v);
  }

  lemma FieldsOfSum(n: nat, a: nat, b: nat, c: nat)
    requires b < 64 && c < 32 && n == a * 2048 + b * 32 + c
    ensures n / 2048 == a && n / 32 % 64 == b && n % 32 == c
  {
    assert n / 32 == a * 64 + b;
  }

  /** A 16-bit number's fields are the leading bits of red, green and blue. */
  predicate Fields565(n: nat, r: nat, g: nat, b: nat) { n / 2048 == r / 8 && n / 32 % 64 == g / 4 && n % 32 == b / 8 }

  /** Two bytes write such a number, low byte first. */
  predicate Shows(low: bv8, high: bv8, r: bv8, g: bv8, b: bv8) {
    Fields565((low as nat) + 256 * (high as nat), r as nat, g as nat, b as nat)
  }

  lemma FieldsIf(n: nat, r: nat, g: nat, b: nat)
    requires g < 256 && b < 256 && n == (r / 8) * 2048 + (g / 4) * 32 + b / 8
    ensures Fields565(n, r, g, b)
  {
    FieldsOfSum(n, r / 8, g / 4, b / 8);
  }

  lemma WordNumber(r: bv8, g: bv8, b: bv8)
    ensures Rgb565(r, g, b) as nat == (r as nat / 8) * 2048 + (g as nat / 4) * 32 + b as nat / 8
  {
    hide Rgb565;
    ValueParts(r, g, b);
    PartsInRange(r, g, b);
    ComponentAsNumber(r, g, b);
    SumAsNumber(Rgb565(r, g, b), (r / 8) as bv32, (g / 4) as bv32, (b / 8) as bv32);
  }

  lemma WordSmall(r: bv8, g: bv8, b: bv8)
    ensures Rgb565(r, g, b) < 0x1_0000
  {
  }

  lemma PixelShows(r: bv8, g: bv8, b: bv8)
    ensures Rgb565(r, g, b) < 0x1_0000
    ensures Shows(Low(Rgb565(r, g, b)), High(Rgb565(r, g, b)), r, g, b)
  {
    hide Rgb565, Low, High, Fields565;
    WordSmall(r, g, b);
    WordNumber(r, g, b);
    BytesAsNumber(Rgb565(r, g, b));
    ByteRange(g);
    ByteRange(b);
    FieldsIf(Rgb565(r, g, b) as nat, r as nat, g as nat, b as nat);
  }

  lemma ByteRange(x: bv8)
    ensures x as nat < 256
  {
  }

  lemma PartsInRange(r: bv8, g: bv8, b: bv8)
    ensures (r / 8) as bv32 < 32 && (g / 4) as bv32 < 64 && (b / 8) as bv32 < 32
  {
  }

  function Value(rgb: Bytes, p: nat): (v: bv32)
    requires 3 * p + 2 < |rgb|
    ensures v < 0x1_0000
  {
    Rgb565Fields(rgb[3 * p], rgb[3 * p + 1], rgb[3 * p + 2]);
    Rgb565(rgb[3 * p], rgb[3 * p + 1], rgb[3 * p + 2])
  }

  /** `data` holds every pixel of `rgb` in order, low byte first. */
  ghost predicate Packs(data: Bytes, rgb: Bytes) {
    && |data| == |rgb| / 3 * 2
    && forall p | 0 <= p < |rgb| / 3 :: data[2 * p] == Low(Value(rgb, p)) && data[2 * p + 1] == High(Value(rgb, p))
  }

  method Pack565(rgb: Bytes) returns (data: Bytes)
    requires |rgb| % 3 == 0
    ensures Packs(data, rgb)
  {
    var out := new bv8[|rgb| / 3 * 2](_ => 0);
    var i := 0;
    while i < |rgb|
      invariant 0 <= i <= |rgb| && i % 3 == 0
      invariant forall p | 0 <= p < i / 3 :: out[2 * p] == Low(Value(rgb, p)) && out[2 * p + 1] == High(Value(rgb, p))
    {
      assert 3 * (i / 3) == i;
      var value := Rgb565(rgb[i], rgb[i + 1], rgb[i + 2]);
      Rgb565Fields(rgb[i], rgb[i + 1], rgb[i + 2]);
      var j := i / 3 * 2;
      out[j] := Low(value);
      out[j + 1] := High(value);
      i := i + 3;
    }
    data := out[..];
  }

  // ----- rows -----

  /** `out` is `data` with every row of rowBytes followed by zeros up to the stride. */
  ghost predicate Padded(out: Bytes, data: Bytes, rowBytes: nat, stride: nat, height: nat) {
    && |out| == stride * height
    && forall row, k | 0 <= row < height && 0 <= k < stride ::
         InRow(out, row, stride, k) && out[row * stride + k] ==
           if k < rowBytes && InRow(data, row, rowBytes, k) then data[row * rowBytes + k] else 0
  }

  predicate InRow(s: Bytes, row: nat, width: nat, k: nat) { row * width + k < |s| }

  lemma RowFits(row: nat, height: nat, width: nat)
    requires row < height
    ensures (row + 1) * width == row * width + width <= width * height
  {
    assert (row + 1) * width <= height * width;
  }

  lemma RowOf(rows: nat, width: nat, row: nat, k: nat)
    requires row < rows && k < width
    ensures row * width + k < rows * width
  {
    RowFits(row, rows, width);
  }

  function Zeros(n: nat): (z: Bytes)
    ensures |z| == n && forall k | 0 <= k < n :: z[k] == 0
  {
    seq(n, _ => 0)
  }

  method PadRows(data: Bytes, rowBytes: nat, stride: nat, height: nat) returns (out: Bytes)
    requires |data| == rowBytes * height && rowBytes < stride
    ensures Padded(out, data, rowBytes, stride, height)
  {
    var padding := Zeros(stride - rowBytes);
    out := [];
    for row := 0 to height
      invariant Padded(out, data, rowBytes, stride, row)
    {
      RowFits(row, height, rowBytes);
      var line := data[row * rowBytes..(row + 1) * rowBytes] + padding;
      PadOneMore(out, data, rowBytes, stride, height, row, line);
      out := out + line;
    }
  }

  lemma PadOneMore(out: Bytes, data: Bytes, rowBytes: nat, stride: nat, height: nat, row: nat, line: Bytes)
    requires |data| == rowBytes * height && rowBytes < stride && row < height
    requires Padded(out, data, rowBytes, stride, row)
    requires |line| == stride && row * rowBytes + rowBytes <= |data|
    requires forall k | 0 <= k < stride :: line[k] == if k < rowBytes then data[row * rowBytes + k] else 0
    ensures Padded(out + line, data, rowBytes, stride, row + 1)
  {
    var longer := out + line;
    assert |longer| == stride * (row + 1);
    forall r, k | 0 <= r < row + 1 && 0 <= k < stride
      ensures InRow(longer, r, stride, k) && longer[r * stride + k] ==
                if k < rowBytes && InRow(data, r, rowBytes, k) then data[r * rowBytes + k] else 0
    {
      if r < row {
        assert InRow(out, r, stride, k);
      } else {
        assert r * stride == |out|;
      }
    }
  }

  // ----- the whole painting -----

  /** What is written to the device; None stands for the ValueError on an unsupported depth. */
  method PaintFramebuffer(width: nat, height: nat, bitsPerPixel: nat, stride: nat, rgb: Bytes, bgrx: Bytes)
    returns (r: Option<Bytes>)
    requires |rgb| == 3 * (width * height) && |bgrx| == width * 4 * height
    ensures r.None? <==> bitsPerPixel != 32 && bitsPerPixel != 16
    ensures bitsPerPixel == 16 ==>
              if stride >= width * 2 then LaidOut(r.value, rgb, width, height, stride) else Packs(r.value, rgb)
    ensures bitsPerPixel == 32 ==>
              if stride > width * 4 then Padded(r.value, bgrx, width * 4, stride, height) else r.value == bgrx
  {
    var data, rowBytes := bgrx, width * 4;
    if bitsPerPixel == 16 {
      rowBytes := width * 2;
      data := Pack565(rgb);
      assert |data| == width * 2 * height by { HalfOfThree(width * height); }
    } else if bitsPerPixel != 32 {
      return None;
    }
    var out := data;
    if stride > rowBytes {
      out := PadRows(data, rowBytes, stride, height);
    } else {
      PaddedOwnStride(data, rowBytes, height);
    }
    if bitsPerPixel == 16 && stride >= rowBytes {
      Layout565(rgb, data, out, width, height, stride);
    }
    return Some(out);
  }

  lemma HalfOfThree(n: nat)
    ensures 3 * n / 3 * 2 == 2 * n
  {
  }

  /** A packing exactly as wide as its rows is already laid out at that stride. */
  lemma PaddedOwnStride(data: Bytes, rowBytes: nat, height: nat)
    requires |data| == rowBytes * height
    ensures Padded(data, data, rowBytes, rowBytes, height)
  {
    forall row, k | 0 <= row < height && 0 <= k < rowBytes ensures InRow(data, row, rowBytes, k) {
      RowOf(height, rowBytes, row, k);
    }
  }

  /**
   * The layout at 16 bpp: the output is stride times height bytes, pixel (row, col) is the
   * little-endian 565 value at row * stride + 2 * col, and everything after a row's pixels is zero.
   */
  ghost predicate LaidOut(out: Bytes, rgb: Bytes, width: nat, height: nat, stride: nat) {
    && |out| == stride * height
    && (forall row, col | 0 <= row < height && 0 <= col < width :: PixelAt(out, rgb, row, col, width, stride))
    && (forall row, k | 0 <= row < height && width * 2 <= k < stride ::
          InRow(out, row, stride, k) && out[row * stride + k] == 0)
  }

  /** Packing and then padding gives that layout, for every geometry whose stride holds a row. */
  lemma Layout565(rgb: Bytes, data: Bytes, out: Bytes, width: nat, height: nat, stride: nat)
    requires |rgb| == 3 * (width * height) && Packs(data, rgb) && |data| == width * 2 * height
    requires width * 2 <= stride && Padded(out, data, width * 2, stride, height)
    ensures LaidOut(out, rgb, width, height, stride)
  {
    hide Shows, Low, High, Rgb565;
    forall row, col | 0 <= row < height && 0 <= col < width ensures PixelAt(out, rgb, row, col, width, stride) {
      var p := row * width + col;
      RowOf(height, width, row, col);
      assert p < |rgb| / 3;
      assert data[2 * p] == Low(Value(rgb, p)) && data[2 * p + 1] == High(Value(rgb, p));
      assert row * (width * 2) + 2 * col == 2 * p;
      assert InRow(data, row, width * 2, 2 * col) && InRow(data, row, width * 2, 2 * col + 1);
      PixelShows(rgb[3 * p], rgb[3 * p + 1], rgb[3 * p + 2]);
      assert InRow(out, row, stride, 2 * col) && InRow(out, row, stride, 2 * col + 1);
    }
    forall row, k | 0 <= row < height && width * 2 <= k < stride
      ensures InRow(out, row, stride, k) && out[row * stride + k] == 0
    {
      assert InRow(out, row, stride, k);
    }
  }

  /** The two bytes of pixel (row, col), as a number, low byte first: 5 bits of red, 6 of green, 5 of blue. */
  ghost predicate PixelAt(out: Bytes, rgb: Bytes, row: nat, col: nat, width: nat, stride: nat) {
    var p, at := row * width + col, row * stride + 2 * col;
    && 3 * p + 2 < |rgb| && at + 1 < |out|
    && Shows(out[at], out[at + 1], rgb[3 * p], rgb[3 * p + 1], rgb[3 * p + 2])
  }

  /** A stride that does not hold a row leaves the data unpadded, so the length is off, rows or no rows. */
  lemma ShortStride(data: Bytes, rowBytes: nat, stride: nat, height: nat)
    requires |data| == rowBytes * height && stride <= rowBytes
    ensures |data| == stride * height <==> stride == rowBytes || height == 0
  {
    if stride < rowBytes && height > 0 {
      assert (rowBytes - stride) * height >= 1;
      assert rowBytes * height == stride * height + (rowBytes - stride) * height;
    }
  }
}
