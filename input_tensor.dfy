/** The input side of `analyzeImage`: the 640 x 640 bitmap becomes a direct
    `ByteBuffer` of 640 * 640 * 3 floats, written row by row (`y` outer, `x`
    inner), three floats per pixel (red, green, blue), each the channel byte
    divided by 255.

    The specification of the buffer contents is `ImageFloats`, a function of
    the pixel grid; `PackInput` is proved to produce exactly that, and the
    properties of the tensor (length, layout, range, independence of alpha)
    are lemmas about `ImageFloats`. */
module InputTensor {
  import opened ArgbPixel
  import opened RowMajor

  /** Side of the square image the model takes (`createScaledBitmap(..., 640, 640, ...)`). */
  const Side: nat := 640
  /** Floats written per pixel: red, green, blue. */
  const Channels: nat := 3
  /** Bytes one `putFloat` occupies. */
  const BytesPerFloat: nat := 4

  /** A decoded bitmap as `getPixel(x, y)` sees it: `image[y][x]`. */
  predicate IsSquare(image: seq<seq<Pixel>>, side: nat)
  {
    |image| == side && forall y :: 0 <= y < |image| ==> |image[y]| == side
  }

  // ---------------------------------------------------------------------------
  // Specification of the tensor

  /** `channel / 255.0f`, in exact arithmetic. */
  function Normalise(c: bv32): (v: real)
    requires c <= 0xFF
    ensures 0.0 <= v <= 1.0
    ensures v * 255.0 == Signed(c) as real
  {
    ByteValue(c) as real / 255.0
  }

  /** The floats one pixel contributes, in the order of the three `putFloat`s. */
  function PixelFloats(p: Pixel): (r: seq<real>)
    ensures |r| == Channels
    ensures forall c :: 0 <= c < |r| ==> 0.0 <= r[c] <= 1.0
  {
    [Normalise(Red(p)), Normalise(Green(p)), Normalise(Blue(p))]
  }

  /** The floats of one row of pixels, left to right. */
  function RowFloats(row: seq<Pixel>): (r: seq<real>)
    ensures |r| == Channels * |row|
  {
    if row == [] then [] else RowFloats(row[..|row| - 1]) + PixelFloats(row[|row| - 1])
  }

  /** The number of pixels of an image, row by row. */
  function PixelCount(image: seq<seq<Pixel>>): nat
  {
    if image == [] then 0 else PixelCount(image[..|image| - 1]) + |image[|image| - 1]|
  }

  /** The floats of a whole image, top row first: three per pixel. */
  function ImageFloats(image: seq<seq<Pixel>>): (r: seq<real>)
    ensures |r| == Channels * PixelCount(image)
  {
    if image == [] then [] else ImageFloats(image[..|image| - 1]) + RowFloats(image[|image| - 1])
  }

  // ---------------------------------------------------------------------------
  // Properties of the tensor

  /** Normalisation sends the darkest byte to 0 and the brightest to 1, and is
      strictly increasing, so distinct bytes stay distinct. */
  lemma NormaliseEnds(c: bv32, d: bv32)
    requires c <= 0xFF && d <= 0xFF
    ensures c == 0 ==> Normalise(c) == 0.0
    ensures c == 0xFF ==> Normalise(c) == 1.0
    ensures Signed(c) < Signed(d) ==> Normalise(c) < Normalise(d)
  {
    assert ByteValue(0) == 0;
    assert ByteValue(0xFF) == 255;
  }

  /** An image with `n` rows of `side` pixels gives `n * side * 3` floats. */
  lemma {:induction false} ImageFloatsLength(image: seq<seq<Pixel>>, side: nat)
    requires forall y :: 0 <= y < |image| ==> |image[y]| == side
    ensures |ImageFloats(image)| == |image| * side * Channels
  {
    if image != [] {
      var n := |image| - 1;
      calc {
        |ImageFloats(image)|;
        |ImageFloats(image[..n])| + |RowFloats(image[n])|;
        { ImageFloatsLength(image[..n], side); }
        n * side * Channels + side * Channels;
        { OneMoreRow(n, side); }
        |image| * side * Channels;
      }
    }
  }

  lemma OneMoreRow(n: nat, side: nat)
    ensures (n + 1) * side * Channels == n * side * Channels + side * Channels
  {
  }

  /** Channel `c` of pixel `x` of a row is float `x * 3 + c` of the row. */
  lemma {:induction false} RowFloatsAt(row: seq<Pixel>, x: nat, c: nat)
    requires x < |row| && c < Channels
    ensures RowFloats(row)[x * Channels + c] == PixelFloats(row[x])[c]
  {
    var n := |row| - 1;
    if x < n {
      RowFloatsAt(row[..n], x, c);
    }
  }

  /** Row-major layout: channel `c` (0 red, 1 green, 2 blue) of pixel (x, y)
      is float `(y * side + x) * 3 + c` of the tensor. */
  lemma {:induction false} ImageFloatsAt(image: seq<seq<Pixel>>, side: nat, y: nat, x: nat, c: nat)
    requires forall k :: 0 <= k < |image| ==> |image[k]| == side
    requires y < |image| && x < side && c < Channels
    ensures FlatIndex(y, x, side) * Channels + c < |ImageFloats(image)|
    ensures ImageFloats(image)[FlatIndex(y, x, side) * Channels + c] == PixelFloats(image[y][x])[c]
  {
    var n := |image| - 1;
    ImageFloatsLength(image, side);
    ImageFloatsLength(image[..n], side);
    FlatIndexInBounds(y, x, |image|, side);
    if y < n {
      ImageFloatsAt(image[..n], side, y, x, c);
      FlatIndexInBounds(y, x, n, side);
    } else {
      RowFloatsAt(image[n], x, c);
      assert FlatIndex(y, x, side) * Channels + c == n * side * Channels + (x * Channels + c);
    }
  }

  /** Every float of a row lies in [0, 1]. */
  lemma {:induction false} RowFloatsInUnitRange(row: seq<Pixel>)
    ensures forall k :: 0 <= k < |RowFloats(row)| ==> 0.0 <= RowFloats(row)[k] <= 1.0
  {
    if row != [] {
      RowFloatsInUnitRange(row[..|row| - 1]);
    }
  }

  /** Every float of the tensor lies in [0, 1]. */
  lemma {:induction false} ImageFloatsInUnitRange(image: seq<seq<Pixel>>)
    ensures forall k :: 0 <= k < |ImageFloats(image)| ==> 0.0 <= ImageFloats(image)[k] <= 1.0
  {
    if image != [] {
      ImageFloatsInUnitRange(image[..|image| - 1]);
      RowFloatsInUnitRange(image[|image| - 1]);
    }
  }

  /** A row whose pixels all have red, green and blue equal to `v` gives the
      float `v / 255` throughout. */
  lemma {:induction false} GreyRowFloats(row: seq<Pixel>, v: bv32)
    requires v <= 0xFF
    requires forall x :: 0 <= x < |row| ==> Red(row[x]) == v && Green(row[x]) == v && Blue(row[x]) == v
    ensures forall k :: 0 <= k < |RowFloats(row)| ==> RowFloats(row)[k] == Normalise(v)
  {
    if row != [] {
      GreyRowFloats(row[..|row| - 1], v);
    }
  }

  /** An image whose pixels all have red, green and blue equal to `v` gives the
      float `v / 255` throughout. */
  lemma {:induction false} GreyImageFloats(image: seq<seq<Pixel>>, v: bv32)
    requires v <= 0xFF
    requires forall y, x :: 0 <= y < |image| && 0 <= x < |image[y]| ==>
               Red(image[y][x]) == v && Green(image[y][x]) == v && Blue(image[y][x]) == v
    ensures forall k :: 0 <= k < |ImageFloats(image)| ==> ImageFloats(image)[k] == Normalise(v)
  {
    if image != [] {
      var n := |image| - 1;
      GreyImageFloats(image[..n], v);
      GreyRowFloats(image[n], v);
    }
  }

  /** An all-black image (every colour byte 0, any alpha) gives only 0.0, and
      an all-white one only 1.0. */
  lemma BlackAndWhiteImages(image: seq<seq<Pixel>>, rgb: bv32)
    requires rgb == 0 || rgb == 0x00FF_FFFF
    requires forall y, x :: 0 <= y < |image| && 0 <= x < |image[y]| ==> image[y][x] & 0x00FF_FFFF == rgb
    ensures forall k :: 0 <= k < |ImageFloats(image)| ==>
              ImageFloats(image)[k] == if rgb == 0 then 0.0 else 1.0
  {
    var v: bv32 := if rgb == 0 then 0 else 0xFF;
    GreyImageFloats(image, v);
    NormaliseEnds(v, v);
  }

  /** The alpha byte never reaches the tensor: two images that agree on the
      red, green and blue bits of every pixel give the same floats. */
  lemma {:induction false} AlphaNeverStored(image: seq<seq<Pixel>>, image': seq<seq<Pixel>>)
    requires |image| == |image'|
    requires forall y :: 0 <= y < |image| ==> |image[y]| == |image'[y]|
    requires forall y, x :: 0 <= y < |image| && 0 <= x < |image[y]| ==> SameColour(image[y][x], image'[y][x])
    ensures ImageFloats(image) == ImageFloats(image')
  {
    if image != [] {
      var n := |image| - 1;
      AlphaNeverStored(image[..n], image'[..n]);
      RowAlphaNeverStored(image[n], image'[n]);
    }
  }

  lemma {:induction false} RowAlphaNeverStored(row: seq<Pixel>, row': seq<Pixel>)
    requires |row| == |row'|
    requires forall x :: 0 <= x < |row| ==> SameColour(row[x], row'[x])
    ensures RowFloats(row) == RowFloats(row')
  {
    if row != [] {
      var n := |row| - 1;
      RowAlphaNeverStored(row[..n], row'[..n]);
      ChannelsIgnoreAlpha(row[n], row'[n]);
    }
  }

  // ---------------------------------------------------------------------------
  // The buffer

  /** A direct `ByteBuffer` used only through `putFloat` and `rewind`: a byte
      capacity fixed at allocation, a byte position, and one float slot per
      four bytes. `allocateDirect` zero-fills the memory. */
  class FloatBuffer {
    const capacity: nat
    const slots: array<real>
    var position: nat

    ghost predicate Valid()
      reads this
    {
      slots.Length == capacity / BytesPerFloat &&
      position % BytesPerFloat == 0 && position <= capacity
    }

    /** The floats put so far: the slots before the position. */
    function Written(): (w: seq<real>)
      requires Valid()
      reads this, slots
      ensures |w| == position / BytesPerFloat
    {
      slots[..position / BytesPerFloat]
    }

    /** `ByteBuffer.allocateDirect(bytes)`. */
    constructor AllocateDirect(bytes: nat)
      ensures Valid() && fresh(slots)
      ensures capacity == bytes && position == 0
      ensures forall k :: 0 <= k < slots.Length ==> slots[k] == 0.0
    {
      capacity := bytes;
      slots := new real[bytes / BytesPerFloat](_ => 0.0);
      position := 0;
    }

    /** `rewind()`: the position goes back to the start; the contents stay. */
    method Rewind()
      requires Valid()
      modifies this
      ensures Valid() && position == 0
      ensures slots[..] == old(slots[..])
    {
      position := 0;
    }

    /** `putFloat(v)`: writes `v` into the slot at the position and advances it
      by four bytes; with fewer than four bytes left, Java throws
      `BufferOverflowException`, reported here as `ok == false` with nothing
      changed. */
    method PutFloat(v: real) returns (ok: bool)
      requires Valid()
      modifies this, slots
      ensures Valid()
      ensures ok <==> old(position) + BytesPerFloat <= capacity
      ensures ok ==> position == old(position) + BytesPerFloat &&
                     slots[..] == old(slots[..])[old(position) / BytesPerFloat := v] &&
                     Written() == old(Written()) + [v]
      ensures !ok ==> position == old(position) && slots[..] == old(slots[..])
    {
      ok := position + BytesPerFloat <= capacity;
      if ok {
        slots[position / BytesPerFloat] := v;
        position := position + BytesPerFloat;
        assert Written() == old(Written()) + [v];
      }
    }
  }

  // ---------------------------------------------------------------------------
  // The packing loop

  /** The three `putFloat` calls for one pixel: red, green, blue. */
  method PutPixel(buffer: FloatBuffer, pixel: Pixel)
    requires buffer.Valid()
    requires buffer.position + Channels * BytesPerFloat <= buffer.capacity
    modifies buffer, buffer.slots
    ensures buffer.Valid()
    ensures buffer.position == old(buffer.position) + Channels * BytesPerFloat
    ensures buffer.Written() == old(buffer.Written()) + PixelFloats(pixel)
    ensures buffer.slots[buffer.position / BytesPerFloat..] ==
            old(buffer.slots[..])[buffer.position / BytesPerFloat..]
  {
    var ok := buffer.PutFloat(Normalise(Red(pixel)));
    ok := buffer.PutFloat(Normalise(Green(pixel)));
    ok := buffer.PutFloat(Normalise(Blue(pixel)));
  }

  /** The inner `x` loop of `analyzeImage`: the floats of one row of pixels, left
      to right. */
  method PutRow(buffer: FloatBuffer, row: seq<Pixel>)
    requires buffer.Valid()
    requires buffer.position + Channels * BytesPerFloat * |row| <= buffer.capacity
    modifies buffer, buffer.slots
    ensures buffer.Valid()
    ensures buffer.position == old(buffer.position) + Channels * BytesPerFloat * |row|
    ensures buffer.Written() == old(buffer.Written()) + RowFloats(row)
    ensures buffer.slots[buffer.position / BytesPerFloat..] ==
            old(buffer.slots[..])[buffer.position / BytesPerFloat..]
  {
    for x := 0 to |row|
      invariant buffer.Valid()
      invariant buffer.position == old(buffer.position) + Channels * BytesPerFloat * x
      invariant buffer.Written() == old(buffer.Written()) + RowFloats(row[..x])
      invariant buffer.slots[buffer.position / BytesPerFloat..] ==
                old(buffer.slots[..])[buffer.position / BytesPerFloat..]
    {
      PutPixel(buffer, row[x]);
      assert row[..x + 1][..x] == row[..x];
    }
    assert row[..|row|] == row;
  }

  /** The input packing of `analyzeImage` for a `side` x `side` image: allocate
      `side * side * 3 * 4` bytes, rewind, and put the floats of every pixel in
      row-major order (`y` outer, `x` inner). The buffer ends up holding
      exactly the tensor, with the position at the capacity: no `putFloat`
      overflows and no slot is left unwritten. */
  method PackInput(image: seq<seq<Pixel>>, side: nat) returns (buffer: FloatBuffer)
    requires IsSquare(image, side)
    ensures fresh(buffer) && fresh(buffer.slots) && buffer.Valid()
    ensures buffer.capacity == side * side * Channels * BytesPerFloat
    ensures buffer.position == buffer.capacity
    ensures buffer.slots[..] == ImageFloats(image)
  {
    var bytes := side * side * Channels * BytesPerFloat;
    assert bytes == Channels * BytesPerFloat * (side * side);
    buffer := new FloatBuffer.AllocateDirect(bytes);
    buffer.Rewind();
    for y := 0 to side
      invariant buffer.Valid() && fresh(buffer.slots)
      invariant buffer.capacity == bytes == Channels * BytesPerFloat * (side * side)
      invariant buffer.position == Channels * BytesPerFloat * FlatIndex(y, 0, side)
      invariant buffer.Written() == ImageFloats(image[..y])
    {
      FlatIndexNextRow(y, side);
      MulMonotone(y + 1, side, side);
      PutRow(buffer, image[y]);
      assert image[..y + 1][..y] == image[..y];
    }
    assert image[..side] == image;
  }
}
