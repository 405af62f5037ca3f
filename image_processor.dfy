/** The index-level work of ImageProcessor: HEIC signature sniffing, the
    letterbox scale, normalisation of the resized RGB bytes into [0, 1], and
    the interleaved (row, column, channel) to planar (channel, row, column)
    permutation. Decoding, HEIC transcoding and resizing are done by image
    libraries outside this model; their results are inputs here. */
module ImageProcessor {
  import Arith

  newtype byte = b: int | 0 <= b < 256

  /** The ASCII encoding of a string of code points below 256. */
  function Ascii(s: string): (r: seq<byte>)
    requires forall i | 0 <= i < |s| :: s[i] as int < 256
    ensures |r| == |s| && forall i | 0 <= i < |s| :: r[i] as int == s[i] as int
  {
    seq(|s|, i requires 0 <= i < |s| => s[i] as int as byte)
  }

  /** The four brand signatures looked for at bytes 4..11. */
  const HeicSignatures: seq<seq<byte>> :=
    [Ascii("ftypheic"), Ascii("ftypheix"), Ascii("ftyphevc"), Ascii("ftyphevx")]

  /** Every byte of sig equals the header byte at the same position. */
  predicate Matches(header: seq<byte>, sig: seq<byte>)
    requires |sig| <= |header|
  {
    forall i | 0 <= i < |sig| :: header[i] == sig[i]
  }

  /** isHEIC: false for buffers shorter than 12 bytes; otherwise true exactly
      when bytes 4..11 spell one of the brands ftypheic, ftypheix, ftyphevc,
      ftyphevx. */
  function IsHeic(buffer: seq<byte>): (r: bool)
    ensures |buffer| < 12 ==> !r
    ensures r <==> |buffer| >= 12 && buffer[4..12] in HeicSignatures
  {
    if |buffer| < 12 then false
    else
      var header := buffer[4..12];
      assert forall k | 0 <= k < |HeicSignatures| :: Matches(header, HeicSignatures[k]) <==> header == HeicSignatures[k];
      exists k | 0 <= k < |HeicSignatures| :: Matches(header, HeicSignatures[k])
  }

  /** The letterbox scale: the longer side of the original is mapped onto
      the target side, so the whole image fits the square canvas. */
  function LetterboxScale(targetSize: nat, width: nat, height: nat): (scale: real)
    requires width > 0 && height > 0
    ensures targetSize > 0 ==> scale > 0.0
    ensures scale * Arith.Max(width, height) as real == targetSize as real
    ensures width as real * scale <= targetSize as real && height as real * scale <= targetSize as real
  {
    var longest := Arith.Max(width, height) as real;
    var scale := targetSize as real / longest;
    assert width as real <= longest && height as real <= longest;
    ScaledFits(width as real, longest, scale);
    ScaledFits(height as real, longest, scale);
    scale
  }

  lemma ScaledFits(side: real, longest: real, scale: real)
    requires 0.0 < side <= longest && scale >= 0.0
    ensures side * scale <= longest * scale
  {
  }

  /** Sample i after normalisation: the byte over 255 where the resized
      buffer has one, and the typed array's initial 0 beyond it. */
  function Normalized(resized: seq<byte>, i: nat): (v: real)
    ensures 0.0 <= v <= 1.0
    ensures i >= |resized| ==> v == 0.0
  {
    if i < |resized| then resized[i] as int as real / 255.0 else 0.0
  }

  /** The normalisation loop of preprocessImage: a zero-filled buffer of
      3 * S * S samples receives resized[i] / 255 for every i the resized
      buffer has; a store past the end of the typed array is dropped. */
  method Normalize(resized: seq<byte>, targetSize: nat) returns (values: array<real>)
    ensures fresh(values)
    ensures values.Length == targetSize * targetSize * 3
    ensures forall i | 0 <= i < values.Length :: values[i] == Normalized(resized, i)
  {
    values := new real[targetSize * targetSize * 3](_ => 0.0);
    var i := 0;
    while i < |resized|
      invariant 0 <= i <= |resized|
      invariant forall j | 0 <= j < values.Length :: values[j] == if j < i then Normalized(resized, j) else 0.0
    {
      if i < values.Length {
        values[i] := resized[i] as int as real / 255.0;
      }
      i := i + 1;
    }
  }

  /** The mixed-radix number with high digit a and low digit b in base n. */
  function Pair(a: nat, b: nat, n: nat): nat {
    a * n + b
  }

  /** Destination index of (channel c, row h, column w) in planar layout,
      c * H * W + h * W + w. */
  function ChwIndex(c: nat, h: nat, w: nat, height: nat, width: nat): nat {
    Pair(Pair(c, h, height), w, width)
  }

  /** Source index of (channel c, row h, column w) in interleaved layout,
      h * W * 3 + w * 3 + c. */
  function HwcIndex(c: nat, h: nat, w: nat, height: nat, width: nat): nat {
    Pair(Pair(h, w, width), c, 3)
  }

  /** The source index copied into planar index d. */
  function SourceIndex(d: nat, height: nat, width: nat): nat {
    if height == 0 || width == 0 then 0
    else HwcIndex(d / width / height, d / width % height, d % width, height, width)
  }

  /** The planar index that interleaved index s is copied into. */
  function TargetIndex(s: nat, height: nat, width: nat): nat {
    if width == 0 then 0
    else ChwIndex(s % 3, s / 3 / width, s / 3 % width, height, width)
  }

  lemma PairDecode(a: nat, b: nat, n: nat)
    requires b < n
    ensures Pair(a, b, n) / n == a && Pair(a, b, n) % n == b
  {
    Arith.DivModOf(a, b, n);
  }

  lemma PairBound(a: nat, b: nat, m: nat, n: nat)
    requires a < m && b < n
    ensures Pair(a, b, n) < m * n
  {
    Arith.MixedRadixBound(a, b, m, n);
  }

  lemma PairOfDivMod(d: nat, n: nat)
    requires n > 0
    ensures Pair(d / n, d % n, n) == d
  {
  }

  lemma PairCarry(a: nat, n: nat)
    ensures Pair(a, n, n) == Pair(a + 1, 0, n)
  {
  }

  lemma SizeCommutes(height: nat, width: nat)
    ensures height * width * 3 == 3 * height * width
  {
  }

  /** The planar index written as in the source's triple loop. */
  lemma ChwIndexExpanded(c: nat, h: nat, w: nat, height: nat, width: nat)
    ensures ChwIndex(c, h, w, height, width) == c * height * width + h * width + w
  {
    calc {
      ChwIndex(c, h, w, height, width);
      (c * height + h) * width + w;
      { assert (c * height + h) * width == c * height * width + h * width; }
      c * height * width + h * width + w;
    }
  }

  /** The interleaved index written as in the source's triple loop. */
  lemma HwcIndexExpanded(c: nat, h: nat, w: nat, height: nat, width: nat)
    ensures HwcIndex(c, h, w, height, width) == h * width * 3 + w * 3 + c
  {
    assert (h * width + w) * 3 == h * width * 3 + w * 3;
  }

  /** The planar index of in-range coordinates is in range and reads the
      interleaved index of the same coordinates. */
  lemma ChwCoordinates(c: nat, h: nat, w: nat, height: nat, width: nat)
    requires c < 3 && h < height && w < width
    ensures ChwIndex(c, h, w, height, width) < 3 * height * width
    ensures SourceIndex(ChwIndex(c, h, w, height, width), height, width) == HwcIndex(c, h, w, height, width)
  {
    var p := Pair(c, h, height);
    PairBound(c, h, 3, height);
    PairBound(p, w, 3 * height, width);
    PairDecode(p, w, width);
    PairDecode(c, h, height);
  }

  /** The interleaved index of in-range coordinates is in range and is sent
      to the planar index of the same coordinates. */
  lemma HwcCoordinates(c: nat, h: nat, w: nat, height: nat, width: nat)
    requires c < 3 && h < height && w < width
    ensures HwcIndex(c, h, w, height, width) < 3 * height * width
    ensures TargetIndex(HwcIndex(c, h, w, height, width), height, width) == ChwIndex(c, h, w, height, width)
  {
    var q := Pair(h, w, width);
    PairBound(h, w, height, width);
    PairBound(q, c, height * width, 3);
    SizeCommutes(height, width);
    PairDecode(q, c, 3);
    PairDecode(h, w, width);
  }

  /** Every planar index in range is the index of in-range coordinates. */
  lemma PlanarIndexDecodes(d: nat, height: nat, width: nat)
    requires d < 3 * height * width
    ensures height > 0 && width > 0
    ensures d / width / height < 3 && d / width % height < height && d % width < width
    ensures d == ChwIndex(d / width / height, d / width % height, d % width, height, width)
  {
    Arith.DivBound(d, 3 * height, width);
    var q := d / width;
    Arith.DivBound(q, 3, height);
    PairOfDivMod(q, height);
    PairOfDivMod(d, width);
  }

  /** Every interleaved index in range is the index of the in-range
      coordinates it decodes to: channel s % 3, pixel s / 3 split by width. */
  lemma InterleavedIndexDecodes(s: nat, height: nat, width: nat)
    requires s < 3 * height * width
    ensures height > 0 && width > 0
    ensures s % 3 < 3 && s / 3 / width < height && s / 3 % width < width
    ensures s == HwcIndex(s % 3, s / 3 / width, s / 3 % width, height, width)
    ensures exists c: nat, h: nat, w: nat | c < 3 && h < height && w < width :: s == HwcIndex(c, h, w, height, width)
  {
    SizeCommutes(height, width);
    Arith.DivBound(s, height * width, 3);
    var q := s / 3;
    Arith.DivBound(q, height, width);
    PairOfDivMod(q, width);
    PairOfDivMod(s, 3);
    assert s == HwcIndex(s % 3, q / width, q % width, height, width);
  }

  /** Planar index d reads an interleaved index in range, and that index is
      sent back to d. */
  lemma SourceRoundTrip(d: nat, height: nat, width: nat)
    requires d < 3 * height * width
    ensures SourceIndex(d, height, width) < 3 * height * width
    ensures TargetIndex(SourceIndex(d, height, width), height, width) == d
  {
    PlanarIndexDecodes(d, height, width);
    var c, h, w := d / width / height, d / width % height, d % width;
    ChwCoordinates(c, h, w, height, width);
    HwcCoordinates(c, h, w, height, width);
  }

  /** Every interleaved index is read by some planar index: no sample is
      lost. */
  lemma SourceOnto(s: nat, height: nat, width: nat)
    requires s < 3 * height * width
    ensures exists d | 0 <= d < 3 * height * width :: SourceIndex(d, height, width) == s
  {
    InterleavedIndexDecodes(s, height, width);
    var c: nat, h: nat, w: nat :| c < 3 && h < height && w < width && s == HwcIndex(c, h, w, height, width);
    var d := ChwIndex(c, h, w, height, width);
    assert d < 3 * height * width && SourceIndex(d, height, width) == HwcIndex(c, h, w, height, width) by {
      ChwCoordinates(c, h, w, height, width);
    }
  }

  /** The planar-to-interleaved map stays inside [0, 3 * H * W). */
  lemma SourceIndicesInRange(height: nat, width: nat)
    ensures forall d | 0 <= d < 3 * height * width :: SourceIndex(d, height, width) < 3 * height * width
  {
    forall d | 0 <= d < 3 * height * width ensures SourceIndex(d, height, width) < 3 * height * width {
      SourceRoundTrip(d, height, width);
    }
  }

  /** One step of the innermost loop: the destination index follows the
      written prefix and reads the source index computed beside it. */
  lemma LoopIndices(c: nat, h: nat, w: nat, height: nat, width: nat)
    requires c < 3 && h < height && w < width
    ensures c * height * width + h * width + w == ChwIndex(c, h, w, height, width) < 3 * height * width
    ensures h * width * 3 + w * 3 + c == SourceIndex(ChwIndex(c, h, w, height, width), height, width) < 3 * height * width
    ensures ChwIndex(c, h, w + 1, height, width) == ChwIndex(c, h, w, height, width) + 1
  {
    ChwIndexExpanded(c, h, w, height, width);
    HwcIndexExpanded(c, h, w, height, width);
    ChwCoordinates(c, h, w, height, width);
    HwcCoordinates(c, h, w, height, width);
  }

  /** reshapeToCHW: the triple loop over channel, row and column copies each
      interleaved sample to its planar position in a fresh buffer. */
  method ReshapeToChw(data: array<real>, height: nat, width: nat) returns (reshaped: array<real>)
    requires data.Length >= 3 * height * width
    ensures fresh(reshaped)
    ensures reshaped.Length == 3 * height * width
    ensures forall c, h, w | 0 <= c < 3 && 0 <= h < height && 0 <= w < width ::
      ChwIndex(c, h, w, height, width) < reshaped.Length && HwcIndex(c, h, w, height, width) < data.Length &&
      reshaped[ChwIndex(c, h, w, height, width)] == data[HwcIndex(c, h, w, height, width)]
    ensures forall d | 0 <= d < reshaped.Length ::
      SourceIndex(d, height, width) < data.Length && reshaped[d] == data[SourceIndex(d, height, width)]
  {
    var channels := 3;
    reshaped := new real[channels * height * width];
    for c := 0 to channels
      invariant forall d | 0 <= d < ChwIndex(c, 0, 0, height, width) && d < reshaped.Length ::
        SourceIndex(d, height, width) < data.Length && reshaped[d] == data[SourceIndex(d, height, width)]
    {
      for h := 0 to height
        invariant forall d | 0 <= d < ChwIndex(c, h, 0, height, width) && d < reshaped.Length ::
          SourceIndex(d, height, width) < data.Length && reshaped[d] == data[SourceIndex(d, height, width)]
      {
        for w := 0 to width
          invariant forall d | 0 <= d < ChwIndex(c, h, w, height, width) && d < reshaped.Length ::
            SourceIndex(d, height, width) < data.Length && reshaped[d] == data[SourceIndex(d, height, width)]
        {
          var srcIdx := h * width * channels + w * channels + c;
          var dstIdx := c * height * width + h * width + w;
          LoopIndices(c, h, w, height, width);
          reshaped[dstIdx] := data[srcIdx];
        }
        PairCarry(Pair(c, h, height), width);
      }
      PairCarry(c, height);
    }
    assert ChwIndex(3, 0, 0, height, width) == 3 * height * width;
    forall c, h, w | 0 <= c < 3 && 0 <= h < height && 0 <= w < width
      ensures ChwIndex(c, h, w, height, width) < reshaped.Length && HwcIndex(c, h, w, height, width) < data.Length &&
        reshaped[ChwIndex(c, h, w, height, width)] == data[HwcIndex(c, h, w, height, width)]
    {
      ChwCoordinates(c, h, w, height, width);
      HwcCoordinates(c, h, w, height, width);
    }
  }

  /** What preprocessImage returns. */
  datatype PreprocessedImage = PreprocessedImage(data: seq<real>, originalWidth: nat, originalHeight: nat, scale: real)

  /** preprocessImage after decoding and resizing: the scale from the
      original size, the normalised samples, and their planar layout. */
  method PreprocessImage(resized: seq<byte>, width: nat, height: nat, targetSize: nat)
    returns (image: PreprocessedImage)
    requires width > 0 && height > 0
    ensures image.originalWidth == width && image.originalHeight == height
    ensures image.scale == LetterboxScale(targetSize, width, height)
    ensures |image.data| == 3 * targetSize * targetSize
    ensures forall c, h, w | 0 <= c < 3 && 0 <= h < targetSize && 0 <= w < targetSize ::
      ChwIndex(c, h, w, targetSize, targetSize) < |image.data| &&
      image.data[ChwIndex(c, h, w, targetSize, targetSize)] == Normalized(resized, HwcIndex(c, h, w, targetSize, targetSize))
    ensures forall i | 0 <= i < |image.data| :: 0.0 <= image.data[i] <= 1.0
  {
    var scale := LetterboxScale(targetSize, width, height);
    var values := Normalize(resized, targetSize);
    var reshaped := ReshapeToChw(values, targetSize, targetSize);
    image := PreprocessedImage(reshaped[..], width, height, scale);
  }
}
