/** A pixel as `Bitmap.getPixel` hands it to `analyzeImage`: a Kotlin `Int`
    holding a packed ARGB colour, alpha in bits 24-31, red in 16-23, green in
    8-15 and blue in 0-7. The model keeps the 32 bits as a `bv32`; `Signed`
    gives the value Kotlin sees, which is negative whenever bit 31 is set
    (every opaque pixel). The channel extraction is written with the
    operators the source uses: an arithmetic `shr` followed by `and 0xFF`. */
module ArgbPixel {

  /** The 32 bits of a Kotlin `Int` pixel. */
  type Pixel = bv32

  const SignBit: bv32 := 0x8000_0000

  /** The value of the Kotlin `Int` whose two's-complement bits are `p`. */
  function Signed(p: Pixel): (v: int)
    ensures -0x8000_0000 <= v < 0x8000_0000
    ensures v < 0 <==> p & SignBit != 0
  {
    ((p & 0x7FFF_FFFF) as bv31) as int - (if p & SignBit == 0 then 0 else 0x8000_0000)
  }

  /** Kotlin's `shr`: shift right, copying the sign bit into the vacated
      high bits. */
  function Shr(p: Pixel, n: nat): (r: Pixel)
    requires n < 32
    ensures r & SignBit == p & SignBit
  {
    if p & SignBit == 0 then p >> n else (p >> n) | !(0xFFFF_FFFF >> n)
  }

  /** `pixel shr 16 and 0xFF`: the red channel, bits 16-23. */
  function Red(p: Pixel): (r: bv32)
    ensures r <= 0xFF
    ensures r == (p >> 16) & 0xFF
  {
    Shr(p, 16) & 0xFF
  }

  /** `pixel shr 8 and 0xFF`: the green channel, bits 8-15. */
  function Green(p: Pixel): (r: bv32)
    ensures r <= 0xFF
    ensures r == (p >> 8) & 0xFF
  {
    Shr(p, 8) & 0xFF
  }

  /** `pixel and 0xFF`: the blue channel, bits 0-7. */
  function Blue(p: Pixel): (r: bv32)
    ensures r <= 0xFF
    ensures ((p >> 8) << 8) | r == p
  {
    p & 0xFF
  }

  /** The alpha byte, bits 24-31, which `analyzeImage` never reads. */
  function Alpha(p: Pixel): (r: bv32)
    ensures r <= 0xFF
    ensures (r << 24) | (p & 0x00FF_FFFF) == p
  {
    (p >> 24) & 0xFF
  }

  /** The Kotlin `Int` value of a masked channel: a number in 0..255. */
  function ByteValue(c: bv32): (v: int)
    requires c <= 0xFF
    ensures 0 <= v <= 255
    ensures v == Signed(c)
  {
    (c as bv8) as int
  }

  /** The packed pixel with the given alpha, red, green and blue bytes. */
  function Argb(a: bv32, r: bv32, g: bv32, b: bv32): (p: Pixel)
    requires a <= 0xFF && r <= 0xFF && g <= 0xFF && b <= 0xFF
    ensures p >> 24 == a && (p >> 16) & 0xFF == r && (p >> 8) & 0xFF == g && p & 0xFF == b
  {
    (a << 24) | (r << 16) | (g << 8) | b
  }

  /** Extraction undoes packing: each byte put into a pixel comes back out of
      the matching channel, whatever the alpha byte (and so the sign). */
  lemma ChannelsOfArgb(a: bv32, r: bv32, g: bv32, b: bv32)
    requires a <= 0xFF && r <= 0xFF && g <= 0xFF && b <= 0xFF
    ensures Red(Argb(a, r, g, b)) == r
    ensures Green(Argb(a, r, g, b)) == g
    ensures Blue(Argb(a, r, g, b)) == b
    ensures Alpha(Argb(a, r, g, b)) == a
  {
  }

  /** Packing undoes extraction: the three channels together with the alpha
      byte rebuild the pixel bit for bit. */
  lemma ArgbOfChannels(p: Pixel)
    ensures Argb(Alpha(p), Red(p), Green(p), Blue(p)) == p
  {
  }

  /** An opaque pixel (alpha 0xFF) is a negative Kotlin `Int`. */
  lemma OpaqueIsNegative(p: Pixel)
    requires Alpha(p) == 0xFF
    ensures Signed(p) < 0
  {
  }

  /** For a negative pixel the arithmetic shift keeps the value negative, yet
      the mask that follows it leaves a channel value in 0..255. */
  lemma MaskedShiftIsByte(p: Pixel)
    requires Signed(p) < 0
    ensures Signed(Shr(p, 16)) < 0 && Signed(Shr(p, 8)) < 0
    ensures 0 <= Signed(Red(p)) <= 255
    ensures 0 <= Signed(Green(p)) <= 255
    ensures 0 <= Signed(Blue(p)) <= 255
  {
  }

  /** The two pixels agree on their low 24 bits: they differ at most in alpha. */
  predicate SameColour(p: Pixel, q: Pixel)
  {
    p & 0x00FF_FFFF == q & 0x00FF_FFFF
  }

  /** The three colour channels depend on the low 24 bits only: pixels that
      differ in alpha alone give the same red, green and blue. */
  lemma ChannelsIgnoreAlpha(p: Pixel, q: Pixel)
    requires SameColour(p, q)
    ensures Red(p) == Red(q) && Green(p) == Green(q) && Blue(p) == Blue(q)
  {
  }
}
