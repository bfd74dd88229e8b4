# fruitcount: the tensor marshalling of `analyzeImage`, in Dafny

The fruit-counter app takes a photo and scales it to 640 x 640 pixels. It
packs the pixels into the input buffer of a TensorFlow Lite model, runs the
model, and shows the raw output tensor as text. This project models the two
first-party routines of `MainActivity.analyzeImage` and proves their layout
properties:

- **Input packing** (`argb_pixel.dfy`, `row_major.dfy`, `input_tensor.dfy`).
  A pixel is the 32-bit pattern of a Kotlin `Int` holding ARGB (`bv32`).
  `Signed` gives the Kotlin value, which is negative for every opaque pixel.
  The red, green and blue channels are extracted exactly as the source writes
  it: an arithmetic `shr` (sign-filling, written out on bit-vectors) and then
  `and 0xFF`. Each channel is divided by 255 in exact `real` arithmetic. The
  direct `ByteBuffer` is the class `FloatBuffer`. It has a byte capacity, a
  byte position that `putFloat` advances by 4, and one float slot per four
  bytes. `putFloat` past the end reports an overflow instead of writing.
  `PackInput` has the source's nested `y`/`x` loops; the inner loop is the
  method `PutRow`. It is proved to leave the buffer holding exactly
  `ImageFloats(image)`, with the position at the capacity. The tensor's
  properties are lemmas about `ImageFloats`: its length, the row-major slot
  `(y*640+x)*3+c`, the [0, 1] range, black and white images, and that alpha
  never reaches the tensor.
- **Output dump** (`output_dump.dfy`). The output array of shape
  [1, 67, 8400] is read at `i*8400 + j`. The `StringBuilder` is a local
  string that is only appended to. The `%.2f` formatter is a parameter `fmt`.
  `DumpOutput` takes the shape as parameters, which `analyzeImage` fixes at
  67 and 8400. It is proved to build exactly `Dump(result, 67, 8400, fmt)`.
  `DumpLayout` proves how that string reads back. Split at newlines, it gives
  three lines per class in ascending class order: `Class i:`, the scores, an
  empty line. A final empty line follows. Split at spaces, the scores line of
  class i gives exactly the 8400 formatted values `fmt(result[i*8400+j])` in
  order. `DecimalRoundTrip` and `HeaderInjective` show that the header
  determines the class index. `RowMajor` proves that the `(i, j)` to
  `i*8400+j` mapping is a bijection onto `[0, 67*8400)`, so every output
  element is read exactly once.
- `analyze_image.dfy` composes the two. The interpreter call is a function
  parameter `inference`.

Facts about the code that shape the model:

- `analyzeImage` dumps the whole output tensor as text, without any
  thresholding, counting or class labels.
- The side 640 and the output shape [1, 67, 8400] are literals in the code.
- `analyzeImage` is only called from `onImageSaved`, with a decoded bitmap. A
  failed capture goes to `onError`, which only logs it. The `bitmap != null`
  check filters a missing saved URI only; a decoding failure is an exception
  thrown by `ImageDecoder.decodeBitmap`, which is not part of this model.

## Model

| member | source | states |
|---|---|---|
| ArgbPixel.Signed | app/src/main/java/com/example/aldifruitcounter/MainActivity.kt:128 | the Kotlin `Int` value of a pixel lies in the 32-bit signed range and is negative exactly when bit 31 (the top alpha bit) is set |
| ArgbPixel.Shr | app/src/main/java/com/example/aldifruitcounter/MainActivity.kt:129-130 | Kotlin's arithmetic `shr` keeps the sign bit of the shifted pixel |
| ArgbPixel.Red | app/src/main/java/com/example/aldifruitcounter/MainActivity.kt:129 | `pixel shr 16 and 0xFF` is at most 0xFF and equals bits 16-23 of the pixel, whatever its sign |
| ArgbPixel.Green | app/src/main/java/com/example/aldifruitcounter/MainActivity.kt:130 | `pixel shr 8 and 0xFF` is at most 0xFF and equals bits 8-15 of the pixel, whatever its sign |
| ArgbPixel.Blue | app/src/main/java/com/example/aldifruitcounter/MainActivity.kt:131 | `pixel and 0xFF` is at most 0xFF and is the low byte: the pixel is its upper 24 bits followed by it |
| ArgbPixel.Alpha | app/src/main/java/com/example/aldifruitcounter/MainActivity.kt:128 | the alpha byte is at most 0xFF and, placed in bits 24-31 above the low 24 bits of the pixel, rebuilds the pixel |
| ArgbPixel.Argb | app/src/main/java/com/example/aldifruitcounter/MainActivity.kt:128 | packing alpha, red, green and blue bytes puts them in bits 24-31, 16-23, 8-15 and 0-7 of the pixel |
| ArgbPixel.ByteValue | app/src/main/java/com/example/aldifruitcounter/MainActivity.kt:129-131 | a masked channel, read as a Kotlin `Int`, is a number in 0..255 |
| ArgbPixel.ChannelsOfArgb | app/src/main/java/com/example/aldifruitcounter/MainActivity.kt:129-131 | extracting the channels of a pixel packed from alpha, red, green and blue bytes gives those bytes back, for any alpha |
| ArgbPixel.ArgbOfChannels | app/src/main/java/com/example/aldifruitcounter/MainActivity.kt:128-131 | alpha, red, green and blue together rebuild the pixel bit for bit, so the extraction loses nothing but alpha |
| ArgbPixel.OpaqueIsNegative | app/src/main/java/com/example/aldifruitcounter/MainActivity.kt:128 | a pixel with alpha 0xFF is a negative Kotlin `Int` |
| ArgbPixel.MaskedShiftIsByte | app/src/main/java/com/example/aldifruitcounter/MainActivity.kt:129-131 | for a negative pixel the shifted values stay negative, yet every masked channel is in 0..255 |
| ArgbPixel.ChannelsIgnoreAlpha | app/src/main/java/com/example/aldifruitcounter/MainActivity.kt:128-131 | pixels that agree on their low 24 bits have the same red, green and blue |
| InputTensor.Normalise | app/src/main/java/com/example/aldifruitcounter/MainActivity.kt:129-131 | `channel / 255` lies in [0, 1] and times 255 gives the channel back |
| InputTensor.PixelFloats | app/src/main/java/com/example/aldifruitcounter/MainActivity.kt:129-131 | one pixel gives three floats, one per `putFloat` of red, green and blue, each in [0, 1] |
| InputTensor.RowFloats | app/src/main/java/com/example/aldifruitcounter/MainActivity.kt:127-132 | a row of pixels gives three floats per pixel |
| InputTensor.ImageFloats | app/src/main/java/com/example/aldifruitcounter/MainActivity.kt:126-133 | an image gives three floats per pixel of all its rows |
| InputTensor.NormaliseEnds | app/src/main/java/com/example/aldifruitcounter/MainActivity.kt:129-131 | channel 0 becomes exactly 0.0, channel 255 exactly 1.0, and normalisation is strictly increasing |
| InputTensor.ImageFloatsLength | app/src/main/java/com/example/aldifruitcounter/MainActivity.kt:122-133 | an image of n rows of `side` pixels gives n * side * 3 floats |
| InputTensor.RowFloatsAt | app/src/main/java/com/example/aldifruitcounter/MainActivity.kt:127-132 | within a row, channel c of pixel x is float x*3 + c |
| InputTensor.ImageFloatsAt | app/src/main/java/com/example/aldifruitcounter/MainActivity.kt:126-132 | row-major layout: channel c (red, green, blue) of pixel (x, y) is float (y*side + x)*3 + c, inside the tensor |
| InputTensor.RowFloatsInUnitRange | app/src/main/java/com/example/aldifruitcounter/MainActivity.kt:127-132 | every float of a row lies in [0, 1] |
| InputTensor.ImageFloatsInUnitRange | app/src/main/java/com/example/aldifruitcounter/MainActivity.kt:126-133 | every float of the tensor lies in [0, 1] |
| InputTensor.GreyRowFloats | app/src/main/java/com/example/aldifruitcounter/MainActivity.kt:127-132 | a row whose channels all equal v gives v/255 throughout |
| InputTensor.GreyImageFloats | app/src/main/java/com/example/aldifruitcounter/MainActivity.kt:126-133 | an image whose channels all equal v gives v/255 throughout |
| InputTensor.BlackAndWhiteImages | app/src/main/java/com/example/aldifruitcounter/MainActivity.kt:126-133 | an all-black image (any alpha) gives only 0.0 and an all-white one only 1.0 |
| InputTensor.AlphaNeverStored | app/src/main/java/com/example/aldifruitcounter/MainActivity.kt:126-133 | images that differ only in alpha give the same tensor |
| InputTensor.RowAlphaNeverStored | app/src/main/java/com/example/aldifruitcounter/MainActivity.kt:127-132 | rows that differ only in alpha give the same floats |
| InputTensor.FloatBuffer.AllocateDirect | app/src/main/java/com/example/aldifruitcounter/MainActivity.kt:122 | a fresh buffer of the given byte capacity, position 0, capacity/4 float slots all 0.0 |
| InputTensor.FloatBuffer.Rewind | app/src/main/java/com/example/aldifruitcounter/MainActivity.kt:124 | the position returns to 0 and the contents are unchanged |
| InputTensor.FloatBuffer.PutFloat | app/src/main/java/com/example/aldifruitcounter/MainActivity.kt:129-131 | succeeds exactly when four bytes remain; then writes the slot at the position, advances it by 4 and appends the value to what was written; otherwise changes nothing |
| InputTensor.PutPixel | app/src/main/java/com/example/aldifruitcounter/MainActivity.kt:128-131 | with room for 12 bytes, appends exactly the red, green and blue floats of the pixel, in that order, advancing the position by 12 and leaving every slot after the new position unchanged |
| InputTensor.PutRow | app/src/main/java/com/example/aldifruitcounter/MainActivity.kt:127-132 | appends the floats of a row of pixels, left to right, advancing the position by 12 per pixel and leaving every slot after the new position unchanged |
| InputTensor.PackInput | app/src/main/java/com/example/aldifruitcounter/MainActivity.kt:122-133 | allocates side*side*3*4 bytes and leaves them holding exactly `ImageFloats(image)`, with the position at the capacity: no overflow and no unwritten tail |
| RowMajor.FlatIndex | app/src/main/java/com/example/aldifruitcounter/MainActivity.kt:149 | the index of cell (i, j) lies in the stretch of row i: at least i*cols and, for j < cols, below (i+1)*cols |
| RowMajor.FlatIndexInBounds | app/src/main/java/com/example/aldifruitcounter/MainActivity.kt:146-149 | for i < rows and j < cols the index i*cols + j is below rows*cols |
| RowMajor.FlatIndexInjective | app/src/main/java/com/example/aldifruitcounter/MainActivity.kt:146-149 | distinct (i, j) with j < cols give distinct indices |
| RowMajor.FlatIndexOnto | app/src/main/java/com/example/aldifruitcounter/MainActivity.kt:146-149 | every index below rows*cols is i*cols + j for i = k/cols < rows and j = k%cols, so every element is read |
| RowMajor.FlatIndexNextRow | app/src/main/java/com/example/aldifruitcounter/MainActivity.kt:126-127 | one past the last cell of row i is the first cell of row i+1 |
| OutputDump.Decimal | app/src/main/java/com/example/aldifruitcounter/MainActivity.kt:147 | the rendering of `$i` is a non-empty run of decimal digits without a leading zero |
| OutputDump.DecimalRoundTrip | app/src/main/java/com/example/aldifruitcounter/MainActivity.kt:147 | reading the rendered index back gives the index |
| OutputDump.HeaderInjective | app/src/main/java/com/example/aldifruitcounter/MainActivity.kt:147 | equal headers `Class i:` come from equal class indices |
| OutputDump.Header | app/src/main/java/com/example/aldifruitcounter/MainActivity.kt:147 | `Class $i:\n` starts with `Class `, ends with `:` and a newline, and holds no other newline |
| OutputDump.Entries | app/src/main/java/com/example/aldifruitcounter/MainActivity.kt:148-151 | the text of `count` scores has at least one character per score and, when not empty, ends in a space |
| OutputDump.Block | app/src/main/java/com/example/aldifruitcounter/MainActivity.kt:147-152 | the block of class i starts with its header and ends with a blank line |
| OutputDump.Dump | app/src/main/java/com/example/aldifruitcounter/MainActivity.kt:146-153 | the dump is empty exactly when there are no classes; otherwise it starts with the header `Class 0:` and ends with a blank line |
| OutputDump.AppendScores | app/src/main/java/com/example/aldifruitcounter/MainActivity.kt:148-151 | appends the `anchors` (8400) scores of class i, read at i*anchors + j in anchor order, each formatted and followed by one space |
| OutputDump.DumpOutput | app/src/main/java/com/example/aldifruitcounter/MainActivity.kt:143-153 | the string built for an output array of `classes` x `anchors` scores (67 x 8400 in the app) is exactly `Dump(result, classes, anchors, fmt)` |
| OutputDump.EntriesWords | app/src/main/java/com/example/aldifruitcounter/MainActivity.kt:148-151 | the scores of a class split at spaces give the formatted scores in anchor order, then the rest |
| OutputDump.ScoresHaveNoNewline | app/src/main/java/com/example/aldifruitcounter/MainActivity.kt:148-151 | a line of scores contains no newline |
| OutputDump.DumpSplitsIntoLines | app/src/main/java/com/example/aldifruitcounter/MainActivity.kt:146-153 | the dump split at newlines is, per class, its header line, its scores line and an empty line |
| OutputDump.LinesAt | app/src/main/java/com/example/aldifruitcounter/MainActivity.kt:146-153 | line 3i is `Class i:`, line 3i+1 the scores of class i, line 3i+2 empty |
| OutputDump.JoinSplit | app/src/main/java/com/example/aldifruitcounter/MainActivity.kt:146-153 | splitting a string at a separator loses nothing: joining the pieces back with the separator gives the string, so reading the dump back by lines and words accounts for all of it |
| OutputDump.DumpLayout | app/src/main/java/com/example/aldifruitcounter/MainActivity.kt:146-153 | the dump has 3 lines per class plus a final empty one; class blocks come in ascending order with headers `Class i:`; each scores line holds exactly `anchors` space-terminated values, the j-th being fmt(result[i*anchors + j]) |
| AnalyzeImage.AnalyzeImage | app/src/main/java/com/example/aldifruitcounter/MainActivity.kt:117-157 | for a 640 x 640 image the shown string is the dump of the model's output on the tensor `ImageFloats(image)`, which has 640*640*3 floats |

## Left out

- Camera setup, preview binding, the capture callback and the executor
  (`onCreate`, `captureAndAnalyzeImage`, `onDestroy`): platform I/O and
  threading.
- The storage and camera permission requests: Android platform calls.
- Loading and memory-mapping the model asset (`loadModelFile`) and
  `tflite.run`. The model is an opaque binary run by a foreign engine. The
  interpreter is the parameter `inference`. Its output is taken to have the
  fixed size of the [1, 67, 8400] buffer it is written into. The interpreter
  is taken to read the whole direct input buffer from its start, whatever
  its position: the source does not rewind it after packing, and `inference`
  receives every slot.
- Decoding the image (`loadBitmapFromFile`) and `Bitmap.createScaledBitmap`:
  foreign library code with float interpolation. The 640 x 640 pixel grid is
  the input.
- Float32 rounding of `/ 255.0f`: values are exact `real`s.
- The scores of the output tensor are exact `real`s, so the float32 NaN and
  infinities a model can emit are not represented. Nothing proved about the
  dump depends on the score values; they only pass through `fmt`.
- InputTensor.FloatBuffer.PutFloat: Java's `putFloat` throws
  `BufferOverflowException` past the limit; the model returns `ok == false`
  and changes nothing instead. `PackInput` is proved never to reach that
  case.
- `String.format("%.2f ", value)`. The `%.2f` part is the parameter `fmt`,
  and its locale is not modelled.
- OutputDump.DumpLayout: assumes that `fmt` never produces a space or a
  newline. Java's `%.2f` without a grouping flag never does.
- `inputBuffer.order(ByteOrder.nativeOrder())` and the byte encoding of each
  float: platform-dependent serialisation. The buffer holds float slots, not
  bytes.
- ArgbPixel.Shr: defined for shift counts below 32 only; Kotlin's masking of
  larger shift counts is not modelled. The source shifts by 8 and 16. Its
  contract states only that the sign bit is kept, not that the signed value
  is divided by 2^n rounding down; the channel lemmas need only the bits.
- Writing the string to the `TextView`: UI.
- `app/build.gradle.kts`: build configuration, no logic.
