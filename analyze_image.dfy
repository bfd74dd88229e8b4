/** `analyzeImage` end to end, from the scaled 640 x 640 bitmap to the text
    shown in the result view. Decoding and scaling the bitmap, running the
    TensorFlow Lite interpreter and formatting a float with `%.2f` are done
    by libraries outside this model: the scaled pixel grid is the input, the
    interpreter is the function `inference` from the input floats to the
    output array, and the formatter is `fmt`. */
module AnalyzeImage {
  import opened ArgbPixel
  import opened InputTensor
  import opened OutputDump

  /** Number of floats in the output tensor of shape [1, 67, 8400]. */
  const OutputSize: nat := 1 * NumClasses * NumAnchors

  /** `analyzeImage` after scaling: pack the input
      buffer, run the model on it, and dump the output. The string is
      `Dump` of the model's output on exactly the tensor `ImageFloats`
      describes. */
  method AnalyzeImage(inputImage: seq<seq<Pixel>>, inference: seq<real> -> seq<real>,
                      fmt: real -> string) returns (resultString: string)
    requires IsSquare(inputImage, Side)
    requires forall input :: |inference(input)| == OutputSize
    ensures |ImageFloats(inputImage)| == Side * Side * Channels
    ensures resultString == Dump(inference(ImageFloats(inputImage)), NumClasses, NumAnchors, fmt)
  {
    var inputBuffer := PackInput(inputImage, Side);
    var result := inference(inputBuffer.slots[..]);
    resultString := DumpOutput(result, NumClasses, NumAnchors, fmt);
  }
}
