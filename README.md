# QOI codec (early draft format) in Dafny

This project models `qoi.go`, a Go encoder and decoder for an early, pre-1.0
draft of the "Quite OK Image" format, and proves that the codec is lossless.

An encoded stream has three parts:
- A 14-byte header: the magic `qoif`, the width and height as big-endian 32-bit
  integers, the channel byte `4` and the colorspace byte `0`.
- A stream of chunks.
- Four zero bytes of padding.

Both directions carry the same state: the previous pixel (starting at
`(0,0,0,255)`), a run counter and a 64-slot colour cache indexed by
`(r ^ g ^ b ^ a) % 64`. The encoder picks a chunk per pixel in this order:
- a pending run, flushed as one byte (`QOI_RUN_8`, 1..32 repeats) or two bytes
  (`QOI_RUN_16`, 33..8224 repeats);
- an index chunk on a cache hit;
- a one-, two- or three-byte difference chunk (`QOI_DIFF_8/16/24`);
- a literal (`QOI_COLOR`) with one presence bit and one byte per changed channel.

The decoder dispatches on the tag's high bits and rebuilds each pixel with
wrapping byte arithmetic.

Layout:
- `bits.dfy` (`Bits`): bytes as `0..255` integers. Go's `&`, `|`, `^`, `<<`
  and `>>` are written as recursive functions, with lemmas saying what masks,
  shifts and packings compute.
- `format.dfy` (`QoiFormat`): tag and mask constants, `Pixel`, the colour hash
  and its slot, images (`width * height` pixels in row-major order) and results.
- `header.dfy` (`QoiHeader`): the header writer and `DecodeConfig`.
- `encoder.dfy` (`QoiEncoder`): the chunk functions and the encoder's
  specification `EncodeImage`. It also holds the imperative encoder:
  - `Encode` runs the nested row/column loops;
  - `EncodeRow` and `EncodePixel` do the per-row and per-pixel work;
  - the cache is a 64-element `array` updated in place;
  - `EmitRun`, `EmitDelta` and `EmitLiteral` assemble the bytes with
    `qoi.go`'s bit operations, and `PutUint32` writes the header's sizes.
- `decoder.dfy` (`QoiDecoder`): the chunk decoder and the decoder's
  specification `DecodeImage`. It also holds the imperative decoder:
  - `Decode` reads the header with `DecodeConfig`;
  - `DecodeInto` holds the pixel loop, filling a pixel `array` in place;
  - `NextPixel` handles one pixel;
  - `ReadChunk` runs the mask switch on the shared cache array;
  - `ReadLiteral` reads a literal chunk byte by byte.
- `roundtrip.dfy` (`QoiRoundTrip`): each chunk the encoder writes decodes to
  the pixel it was written for.
- `lossless.dfy` (`QoiLossless`): the whole-stream round trip. It is a
  simulation of the encoder's walk by the decoder's walk, under an invariant
  that relates the two caches.

Each method's contract states its whole result in terms of the specification
functions: the bytes it writes or the chunk it reads, and also the new cache
array, run counter and cursor. The properties are proved about those
functions. The cache invariant has to bridge
two asymmetries:
- The encoder stores a pixel only on a cache miss (`qoi.go:219`). The decoder
  stores the current pixel after every chunk it reads, index and run chunks
  included (`qoi.go:148`). A run at the very start of the image therefore makes
  the decoder store the starting pixel `(0,0,0,255)` in its slot 63, while the
  encoder's slot 63 still holds the zero pixel. The encoder stores that pixel
  only later, on a miss after a different pixel. `PrevResident` covers this
  gap: whenever the previous pixel's slot holds a pixel that hashes to it, that
  pixel is the previous one, so the decoder's extra store changes no slot the
  encoder could name.
- The invariant is that every encoder slot whose content hashes to that slot
  holds the same pixel in the decoder's cache. This is the only kind of slot
  an index chunk can name.

Three behaviours of `qoi.go` are easy to get wrong, and the model keeps them:
- **Cache insertion.** The decoder stores the current pixel at its slot after
  every chunk it reads from the input (`qoi.go:148`), index and run chunks
  included. It does not store anything while it repeats a pending run.
- **End of input.** Running out of input counts as a normal end only at a
  chunk boundary (`qoi.go:64-68`), and the remaining pixels stay zero. Running
  out inside a multi-byte chunk returns `io.EOF` as an error (`qoi.go:80-83`,
  `92-95`, `102-108`, `117-141`).
- **Two equal pixels.** The encoder writes a 2×1 image of two
  `(10,20,30,255)` pixels as two chunks. The first pixel differs from the
  starting pixel `(0,0,0,255)`, so it becomes the literal `FE 0A 14 1E` with
  the r, g and b presence bits set. The second pixel is a run of one, flushed
  as `40` because it is the last pixel. `QoiEncoder.TwoEqualPixels` proves
  this stream.

## Model

| member | source | states |
|---|---|---|
| QoiFormat.Slot | qoi.go:37-39 | the cache slot of a pixel, `(r^g^b^a) % 64`, is below 64 |
| QoiFormat.ColorHash | qoi.go:37-39 | definition of `r ^ g ^ b ^ a` on bytes; its slot is stated by `Slot` |
| QoiFormat.StartSlots | qoi.go:37-39 | the starting pixel `(0,0,0,255)` hashes to slot 63 and the zero pixel to slot 0 |
| QoiFormat.EmptyCache | qoi.go:53 | the cache starts as 64 zero pixels |
| QoiHeader.BigEndian32 | qoi.go:171-177 | a value below 2^32 is written as four bytes that read back as that value |
| QoiHeader.BigEndian32Inverse | qoi.go:298-299 | reading four bytes big-endian and writing the value back gives the same four bytes |
| QoiHeader.WriteHeader | qoi.go:166-185 | the header is 14 bytes: the magic, width and height modulo 2^32 big-endian at offsets 4 and 8, then `4` and `0` |
| QoiHeader.DecodeConfig | qoi.go:287-302 | succeeds exactly when there are at least 14 bytes and the magic matches; an empty input is `io.EOF`, a partial header `io.ErrUnexpectedEOF`, a wrong magic "Invalid magic"; on success the dimensions are the big-endian integers at offsets 4 and 8 |
| QoiHeader.HeaderRoundTrip | qoi.go:166-185 | whatever follows it, the written header parses back to the dimensions modulo 2^32 |
| QoiHeader.DecodeConfigReadsHeaderOnly | qoi.go:288-299 | two inputs that agree on their first 14 bytes get the same header result |
| QoiEncoder.RunChunk | qoi.go:204-210 | a run of 1..32 is one byte, a run of 33..8224 two bytes |
| QoiEncoder.ShortRunBits | qoi.go:204-205 | a short run's chunk is `QOI_RUN_8 \| (run-1)` |
| QoiEncoder.LongRunBits | qoi.go:206-210 | a long run's chunk is `QOI_RUN_16 \| ((run-33)>>8)` then `(run-33) & 0xff` |
| QoiEncoder.Diff8Chunk | qoi.go:235 | definition of the one-byte delta chunk as arithmetic on the biased deltas; see `Diff8Bits` and `QoiRoundTrip.Diff8Inverse` |
| QoiEncoder.Diff16Chunk | qoi.go:240-241 | definition of the two-byte delta chunk as arithmetic on the biased deltas; see `Diff16Bits` and `QoiRoundTrip.Diff16Inverse` |
| QoiEncoder.Diff24Chunk | qoi.go:243-245 | definition of the three-byte delta chunk as arithmetic on the biased deltas; see `Diff24Bits` and `QoiRoundTrip.Diff24Inverse` |
| QoiEncoder.LiteralMask | qoi.go:248-260 | definition of the literal's first byte, `QOI_COLOR` plus one presence bit per changed channel; see `SetFlag`, `EmitLiteral` and `QoiRoundTrip.MaskFlags` |
| QoiEncoder.Diff8Bits | qoi.go:235 | the one-byte delta chunk equals `qoi.go`'s `\|` and `<<` packing of the deltas biased by 2 |
| QoiEncoder.Diff16Bits | qoi.go:240-241 | the two-byte delta chunk equals `qoi.go`'s packing of red biased by 16 and green and blue biased by 8 |
| QoiEncoder.Diff24Bits | qoi.go:243-245 | the three-byte delta chunk equals `qoi.go`'s packing of the four deltas biased by 16 |
| QoiEncoder.DeltaChunk | qoi.go:230-246 | definition of the tier switch; see `DeltaTiers`, `Diff8Bits`, `Diff16Bits`, `Diff24Bits` and `QoiRoundTrip.DecodeDeltaChunk` |
| QoiEncoder.LiteralChunk | qoi.go:247-274 | definition of the mask byte followed by the changed channels; see `LiteralShape`, `EmitLiteral` and `QoiRoundTrip.DecodeLiteralChunk` |
| QoiEncoder.DiffChunk | qoi.go:221-274 | definition of the cache-miss chunk: a delta chunk when all four deltas are in -16..15, else a literal; see `DiffChunkTag` and `QoiLossless.PixelLoop` |
| QoiEncoder.PixelChunk | qoi.go:214-219 | definition of the changed-pixel chunk: the index byte on a hit, else `DiffChunk`; see `CacheStep` |
| QoiEncoder.DeltaTiers | qoi.go:230-246 | the one-byte tier is used exactly when alpha is unchanged and r, g, b are in -2..1; otherwise the two-byte tier exactly when alpha is unchanged and g, b are in -8..7; otherwise the three-byte tier; each tier's first byte carries its tag bits |
| QoiEncoder.LiteralShape | qoi.go:247-274 | for a changed pixel at least one presence bit is set, so the literal is 2 to 5 bytes and its tag is above `QOI_COLOR` |
| QoiEncoder.DiffChunkTag | qoi.go:221-274 | a difference or literal chunk never starts with an index or run tag |
| QoiEncoder.CacheStep | qoi.go:214-219 | for a changed pixel, the chunk is the single slot-number byte exactly when the slot already holds the pixel, and then the cache is unchanged; after either case the slot holds the pixel and no other slot changes |
| QoiEncoder.EncodeStep | qoi.go:198-221 | one pixel step keeps the run counter below 8224 and makes the pixel the previous one; a repeat leaves the cache unchanged; a repeat that is not last and stays below the cap only extends the run and writes nothing; a repeat that reaches the cap or is last flushes the extended run and resets the counter; a changed pixel first flushes the pending run (if any) and resets the counter, then on a cache hit writes the index byte and leaves the cache unchanged, and on a miss writes `DiffChunk` and stores the pixel at its slot |
| QoiEncoder.EncodeFrom | qoi.go:191-280 | definition of the chunk stream from pixel `i` on; see `EncodeFromStep`'s uses in `EncodePixel`, `EncodeRow`, `TwoSteps` and `QoiLossless.Simulation` |
| QoiEncoder.FirstLiteral | qoi.go:221-274 | from the starting state, pixel `(10,20,30,255)` is written as the literal `FE 0A 14 1E` and stored at its slot |
| QoiEncoder.LastRepeat | qoi.go:198-212 | a repeat of the previous pixel that is the last pixel, with no pending run, is flushed as the run chunk `40` |
| QoiEncoder.TwoSteps | qoi.go:191-202 | the stream of a two-pixel image is the first step's bytes followed by the last step's bytes |
| QoiEncoder.TwoEqualPixels | qoi.go:198-274 | two `(10,20,30,255)` pixels encode to `FE 0A 14 1E 40` |
| QoiEncoder.EncodeImage | qoi.go:158-285 | the output starts with the header for the image's dimensions and ends with the four padding bytes |
| QoiEncoder.At | qoi.go:194 | definition of `m.At(x, y)` on the row-major pixel sequence; see `RowMajor` |
| QoiEncoder.RowMajor | qoi.go:191-202 | pixel `(x, y)` is at offset `y*w + x`, and it is the last one exactly when `x == w-1` and `y == h-1` |
| QoiEncoder.EmitRun | qoi.go:203-212 | the bytes `qoi.go` builds for a run flush are the run chunk |
| QoiEncoder.EmitLiteral | qoi.go:247-274 | the mask built with `\|=` and the changed channels written in r, g, b, a order are the literal chunk |
| QoiEncoder.EmitDelta | qoi.go:226-246 | the tier switch writes the smallest delta chunk that holds the deltas |
| QoiEncoder.EncodePixel | qoi.go:194-279 | one pass of the inner loop, with the cache miss's delta-or-literal test inline, writes exactly the pixel step's flushed run and chunk, leaves the step's run counter, and updates the cache array in place to the step's cache |
| QoiEncoder.StateAt | qoi.go:191-280 | the encoder state after the pixels from `i` up to `j` keeps the run below the cap, and its previous pixel is pixel `j-1` |
| QoiEncoder.StateAtStep | qoi.go:191-280 | one more pixel advances that state by one pixel step |
| QoiEncoder.EncodeRow | qoi.go:192-280 | the inner loop writes the chunks for one row of pixels, and its previous pixel, run counter and cache array are the encoder state after the row's last pixel |
| QoiEncoder.ShiftedByte | qoi.go:171-177 | `byte(v >> k)` is digit `k/8` of `v` in base 256 |
| QoiEncoder.PutUint32 | qoi.go:171-177 | writing a `uint32` big-endian as `byte(v>>24)`, `byte(v>>16)`, `byte(v>>8)`, `byte(v)` gives the four bytes that read back as `v` |
| QoiEncoder.WriteHeaderBytes | qoi.go:166-185 | the five `binary.Write` calls (magic, width and height as `uint32`, channels, colorspace) produce the header |
| QoiEncoder.SetFlag | qoi.go:248-260 | `mask \|= bit` for a changed channel adds that channel's presence bit |
| QoiEncoder.Encode | qoi.go:158-285 | the encoder's output is `EncodeImage` of the image |
| QoiDecoder.TagMasks | qoi.go:30-32 | the 2-, 3- and 4-bit masks keep a byte's top bits |
| QoiDecoder.TagRange | qoi.go:144-145 | every byte falls in one of the seven tag ranges, so the magenta default is never taken |
| QoiDecoder.Classify | qoi.go:72-146 | definition of the ordered mask tests; see `ClassifyRanges` and `TagRange` |
| QoiDecoder.ClassifyRanges | qoi.go:72-146 | `qoi.go`'s ordered mask tests choose the same arm as the tag ranges |
| QoiDecoder.IndexSlot | qoi.go:73-74 | an index tag names a slot below 64 (`b1 ^ QOI_INDEX` is `b1`) |
| QoiDecoder.Diff8 | qoi.go:86-89 | definition of the one-byte delta arm with wrapping adds; see `QoiRoundTrip.Diff8Inverse` |
| QoiDecoder.Diff16 | qoi.go:91-98 | definition of the two-byte delta arm; see `QoiRoundTrip.Diff16Inverse` |
| QoiDecoder.Diff24 | qoi.go:100-113 | definition of the three-byte delta arm; see `QoiRoundTrip.Diff24Inverse` |
| QoiDecoder.ReadChannels | qoi.go:115-143 | definition of the flagged-channel reads in r, g, b, a order, with `io.EOF` when the input runs out; see `ReadLiteral` and `ColorKeeps` |
| QoiDecoder.ReadColor | qoi.go:115-143 | definition of the literal arm over the four presence bits; see `ColorKeeps`, `ReadLiteral` and `QoiRoundTrip.DecodeLiteralChunk` |
| QoiDecoder.DecodeChunk | qoi.go:72-146 | definition of one chunk's decoding; see `ChunkSize`, `ChunkExtent`, `ClassifyRanges`, `ReadChunk` and the `QoiRoundTrip.Decode*Chunk` lemmas |
| QoiDecoder.ChunkSize | qoi.go:76-143 | every chunk is one to five bytes long |
| QoiDecoder.ChunkExtent | qoi.go:79-143 | reading a chunk fails exactly when the input ends inside it, and the error is end of input; otherwise the cursor moves past exactly the chunk's bytes |
| QoiDecoder.ColorKeeps | qoi.go:115-143 | a literal chunk overwrites only the channels whose presence bit is set |
| QoiDecoder.ReadLiteral | qoi.go:115-143 | the byte-by-byte reads of a literal's flagged channels give the chunk's pixel and cursor, or end of input |
| QoiDecoder.ReadChunk | qoi.go:64-146 | the mask switch over the cache array decodes the chunk at the cursor |
| QoiDecoder.DecodeLoop | qoi.go:59-154 | the pixel loop yields at most the requested number of pixels; reaching the end of the input at a chunk boundary, with no run pending, ends it normally with no further pixels; its only error is end of input |
| QoiDecoder.Filled | qoi.go:51-57 | the image has the header's dimensions, holds the decoded pixels first and zero pixels after them |
| QoiDecoder.NextPixel | qoi.go:60-153 | one pass of the outer loop: with a pending run it returns the current pixel and the run less one, without reading input or changing the cache; otherwise it returns the decoded chunk (pixel, run, cursor) and stores that pixel at its slot in the cache array, leaving the cache unchanged on an error |
| QoiDecoder.DecodeInto | qoi.go:55-155 | the loop fills the pixel array with the pixel loop's result and leaves the rest zero |
| QoiDecoder.DecodeImage | qoi.go:43-156 | definition of the decoder's result: the header, then the pixel loop for `width * height` pixels, zero-filled; see `Decode`, `QoiLossless.HeaderOnly` and `QoiLossless.RoundTrip` |
| QoiDecoder.Decode | qoi.go:43-156 | the decoder's result is `DecodeImage` of the input |
| QoiRoundTrip.DecodeRunChunk | qoi.go:76-84 | a run chunk for `n` repeats decodes to the current pixel with `n-1` further repeats |
| QoiRoundTrip.DecodeIndexChunk | qoi.go:73-74 | an index chunk for a pixel its slot holds decodes to that pixel |
| QoiRoundTrip.Wrap | qoi.go:87-113 | adding the wrapped difference `q - p` to byte `p` gives `q` |
| QoiRoundTrip.Diff8Inverse | qoi.go:86-89 | the one-byte delta chunk decodes to the pixel it was written for |
| QoiRoundTrip.Diff16Inverse | qoi.go:91-98 | the two-byte delta chunk decodes to the pixel it was written for |
| QoiRoundTrip.Diff24Inverse | qoi.go:100-113 | the three-byte delta chunk decodes to the pixel it was written for |
| QoiRoundTrip.DecodeDeltaChunk | qoi.go:86-113 | whichever tier the encoder chose, the decoder recovers the pixel and moves past the chunk |
| QoiRoundTrip.MaskFlags | qoi.go:116-137 | the literal's tag is a `QOI_COLOR` tag, and each presence bit tested by the decoder is set exactly when that channel changed |
| QoiRoundTrip.DecodeLiteralChunk | qoi.go:115-143 | a literal chunk decodes to the pixel it was written for and the decoder moves past the chunk |
| QoiLossless.AgreeAfterRun | qoi.go:148 | the decoder storing the previous pixel after a run chunk keeps the caches in agreement |
| QoiLossless.AgreeAfterPixel | qoi.go:219 | both sides storing a new pixel at its slot keep the caches in agreement |
| QoiLossless.RunExpand | qoi.go:60-61 | a pending run of `n` outputs `n` copies of the current pixel |
| QoiLossless.FlushRun | qoi.go:203-212 | the decoder turns a flushed run chunk into exactly the run's pixels and stays in step with the encoder |
| QoiLossless.PixelLoop | qoi.go:214-274 | the decoder turns the chunk for a changed pixel back into that pixel |
| QoiLossless.PixelStep | qoi.go:214-279 | after a changed pixel's chunk, the two sides are again in step |
| QoiLossless.SimStep | qoi.go:191-280 | every pixel step of the encoder is matched by decoder steps that output the pixels it accounts for |
| QoiLossless.Advance | qoi.go:191-280 | one encoder pixel step leads to a next pair of states in step, from which owing the remaining pixels implies owing them before |
| QoiLossless.Simulation | qoi.go:59-154 | from any pair of states in step, the decoder outputs exactly the remaining pixels |
| QoiLossless.EncodedConfig | qoi.go:166-185 | the encoded stream's header reads back as the image's dimensions |
| QoiLossless.HeaderOnly | qoi.go:64-68 | a stream that ends right after the header decodes to an image of the stated size whose pixels are all zero |
| QoiLossless.RoundTrip | qoi.go:158-285 | decoding what the encoder writes gives back the image (same width, height and every pixel) |

## Left out

- Colour conversion: `color.NRGBAModel.Convert` and the `>> 8` narrowing (`qoi.go:194-196`) are library calls. Images are given as non-premultiplied 8-bit RGBA pixels.
- `bufio`, `io.Reader` and `io.Writer`: output is a byte sequence and input a byte sequence with a cursor. Read errors other than end of input, the ignored `WriteByte` errors and the result of `Flush` are not modelled.
- `Encode`'s returned `error` is not modelled, since it comes only from the writer. `Decode` returns a `Result` instead of `(nil, err)`.
- `image.NewNRGBA` and the stride of `img.Pix`: pixels are a sequence and an `array` of `Pixel`, one element per four bytes of `Pix`.
- Non-zero `Bounds().Min` offsets: images start at the origin.
- `DecodeConfig`'s `ColorModel` field is a constant and is not modelled.
- `image.RegisterFormat` in `init` (`qoi.go:304-306`) is a registration side effect and is not modelled.
- QoiLossless.RoundTrip: requires width and height below 2^32. The header keeps only the low 32 bits of each (`WriteHeader` models this), so larger images do not round-trip.
- The `cmd/qoibench` and `cmd/qoiconv` programs are file, timing and PNG plumbing, and are not part of this model.
