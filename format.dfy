/**
 * The vocabulary shared by the encoder and the decoder of the early
 * "Quite OK Image" draft implemented in qoi.go: chunk tags and masks, the
 * pixel, the 64-slot colour cache's hash, images, and decoding errors.
 */
module QoiFormat {
  import opened Bits

  // Chunk tags and tag masks.
  const QOI_INDEX: byte := 0x00    // 00xxxxxx
  const QOI_RUN_8: byte := 0x40    // 010xxxxx
  const QOI_RUN_16: byte := 0x60   // 011xxxxx
  const QOI_DIFF_8: byte := 0x80   // 10xxxxxx
  const QOI_DIFF_16: byte := 0xC0  // 110xxxxx
  const QOI_DIFF_24: byte := 0xE0  // 1110xxxx
  const QOI_COLOR: byte := 0xF0    // 1111xxxx

  const QOI_MASK_2: byte := 0xC0
  const QOI_MASK_3: byte := 0xE0
  const QOI_MASK_4: byte := 0xF0

  /** The longest run one chunk can carry, and the encoder's flush threshold. */
  const MAX_RUN: nat := 0x2020

  /** Number of slots of the colour cache (`[64]pixel`). */
  const CACHE_SIZE: nat := 64

  /** A non-premultiplied 8-bit RGBA pixel (`pixel [4]byte`). */
  datatype Pixel = Pixel(r: byte, g: byte, b: byte, a: byte)

  /** The "previous pixel" both passes start from: opaque black. */
  const SEED: Pixel := Pixel(0, 0, 0, 255)

  /** Go's zero pixel: every cache slot and every unwritten output pixel. */
  const BLANK: Pixel := Pixel(0, 0, 0, 0)

  /** What the decoder produces for a tag no mask matches. */
  const MAGENTA: Pixel := Pixel(255, 0, 255, 255)

  /** `qoi_COLOR_HASH`: the XOR of the four channels. */
  function ColorHash(p: Pixel): byte
  {
    Xor8(Xor8(Xor8(p.r, p.g), p.b), p.a)
  }

  /** The cache slot of a pixel: its hash modulo 64. */
  function Slot(p: Pixel): (s: nat)
    ensures s < CACHE_SIZE
  {
    ColorHash(p) % 64
  }

  /** The starting pixel hashes to slot 63 and the zero pixel to slot 0. */
  lemma StartSlots()
    ensures Slot(SEED) == 63 && Slot(BLANK) == 0
  {
    assert ColorHash(SEED) == 255;
  }

  /** `n` zero pixels. */
  function Zeros(n: nat): (s: seq<Pixel>)
    ensures |s| == n && forall i :: 0 <= i < n ==> s[i] == BLANK
  {
    if n == 0 then [] else Zeros(n - 1) + [BLANK]
  }

  /** A freshly declared `[64]pixel`: every slot holds the zero pixel. */
  function EmptyCache(): (c: seq<Pixel>)
    ensures |c| == CACHE_SIZE && forall i :: 0 <= i < CACHE_SIZE ==> c[i] == BLANK
  {
    seq(CACHE_SIZE, _ => BLANK)
  }

  /** An image with origin (0,0): `width * height` pixels in row-major order. */
  datatype ImageData = ImageData(width: nat, height: nat, pixels: seq<Pixel>)

  type Image = img: ImageData | |img.pixels| == img.width * img.height
    witness ImageData(0, 0, [])

  /** The errors decoding can report (Go's `io.EOF`, `io.ErrUnexpectedEOF`, "Invalid magic"). */
  datatype Error = EndOfInput | UnexpectedEndOfInput | InvalidMagic

  datatype Result<+T> = Ok(value: T) | Err(error: Error) {
    predicate IsFailure() {
      Err?
    }

    function PropagateFailure<U>(): Result<U>
      requires Err?
    {
      Err(error)
    }

    function Extract(): T
      requires Ok?
    {
      value
    }
  }
}
