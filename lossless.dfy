/**
 * The whole-stream round trip: decoding what `Encode` writes for an image
 * gives back that image.  The encoder's walk and the decoder's walk are run
 * side by side, one pixel at a time, under the invariant `Sim`: the decoder
 * sits at the chunk boundary where the encoder's remaining output starts,
 * holds the encoder's previous pixel, and its cache agrees with the
 * encoder's on every slot the encoder can produce an index chunk for.
 */
module QoiLossless {
  import opened Bits
  import opened QoiFormat
  import opened QoiHeader
  import opened QoiEncoder
  import opened QoiDecoder
  import opened QoiRoundTrip

  // ---------------------------------------------------------------------
  // The invariant

  /**
   * Every encoder slot holding a pixel that hashes to it holds the same pixel
   * in the decoder's cache.  Slots whose content hashes elsewhere (the zero
   * pixels the caches start with) can never give an index chunk.
   */
  predicate CachesAgree(enc: seq<Pixel>, dec: seq<Pixel>)
  {
    |enc| == CACHE_SIZE && |dec| == CACHE_SIZE
    && forall s :: 0 <= s < CACHE_SIZE && Slot(enc[s]) == s ==> dec[s] == enc[s]
  }

  /**
   * The previous pixel's slot, when it holds a pixel that hashes there, holds
   * the previous pixel.  The decoder stores its pixel after a run chunk as
   * well, and this is what keeps that store harmless.
   */
  predicate PrevResident(enc: seq<Pixel>, prev: Pixel)
    requires |enc| == CACHE_SIZE
  {
    Slot(enc[Slot(prev)]) == Slot(prev) ==> enc[Slot(prev)] == prev
  }

  /** A decoder at a chunk boundary matching an encoder with cache `ecache` and previous pixel `prev`. */
  predicate Aligned(ecache: seq<Pixel>, prev: Pixel, d: DecState)
  {
    CachesAgree(ecache, d.cache) && PrevResident(ecache, prev) && d.px == prev && d.run == 0
  }

  /** The input from `pos` on is `bytes`. */
  predicate Facing(data: seq<byte>, pos: nat, bytes: seq<byte>)
  {
    pos <= |data| && data[pos..] == bytes
  }

  /** The `run` pixels before `i` are all `prev`. */
  predicate PendingRun(pixels: seq<Pixel>, i: nat, run: nat, prev: Pixel)
    requires run <= i <= |pixels|
  {
    forall j :: i - run <= j < i ==> pixels[j] == prev
  }

  /**
   * Encoder state `e` before pixel `i` and decoder state `d` in step: the
   * decoder faces the rest of the encoder's output (and the padding), and
   * the run the encoder holds back is made of the pixels just before `i`.
   */
  predicate Sim(data: seq<byte>, pixels: seq<Pixel>, i: nat, e: EncState, d: DecState)
  {
    ValidState(e) && e.run <= i <= |pixels| && (i == |pixels| ==> e.run == 0)
    && PendingRun(pixels, i, e.run, e.prev)
    && Aligned(e.cache, e.prev, d)
    && Facing(data, d.pos, EncodeFrom(e, pixels, i) + PADDING)
  }

  /** `n` copies of `p`. */
  function Repeat(p: Pixel, n: nat): (r: seq<Pixel>)
    ensures |r| == n && forall j :: 0 <= j < n ==> r[j] == p
  {
    if n == 0 then [] else [p] + Repeat(p, n - 1)
  }

  // ---------------------------------------------------------------------
  // Small facts

  /** Bytes facing the cursor split into a chunk at the cursor and what follows it. */
  lemma FacingSplit(data: seq<byte>, pos: nat, chunk: seq<byte>, rest: seq<byte>)
    requires Facing(data, pos, chunk + rest)
    ensures ChunkAt(data, pos, chunk) && Facing(data, pos + |chunk|, rest)
  {
    assert data[pos..pos + |chunk|] == data[pos..][..|chunk|] == (chunk + rest)[..|chunk|] == chunk;
    assert data[pos + |chunk|..] == data[pos..][|chunk|..] == (chunk + rest)[|chunk|..] == rest;
  }

  /** A stretch of pixels that are all `p` is `Repeat(p, n)`. */
  lemma RepeatSlice(pixels: seq<Pixel>, i: nat, run: nat, p: Pixel)
    requires run <= i <= |pixels| && PendingRun(pixels, i, run, p)
    ensures pixels[i - run..i] == Repeat(p, run)
  {
  }

  /** The decoder's store after a run chunk keeps the caches in agreement. */
  lemma AgreeAfterRun(ecache: seq<Pixel>, dcache: seq<Pixel>, prev: Pixel)
    requires CachesAgree(ecache, dcache) && PrevResident(ecache, prev)
    ensures CachesAgree(ecache, dcache[Slot(prev) := prev])
  {
  }

  /** Both sides storing the new pixel in its slot keeps the caches in agreement. */
  lemma AgreeAfterPixel(ecache: seq<Pixel>, dcache: seq<Pixel>, px: Pixel)
    requires CachesAgree(ecache, dcache)
    ensures CachesAgree(ecache[Slot(px) := px], dcache[Slot(px) := px])
    ensures PrevResident(ecache[Slot(px) := px], px)
  {
  }

  // ---------------------------------------------------------------------
  // The decoder loop over one chunk

  /** A pending run of `m` pixels comes out as `m` copies of the current pixel. */
  lemma {:induction false} RunExpand(data: seq<byte>, st: DecState, k: nat)
    requires |st.cache| == CACHE_SIZE && st.run <= k
    ensures DecodeLoop(data, st, k) == Prefix(Repeat(st.px, st.run), DecodeLoop(data, st.(run := 0), k - st.run))
    decreases st.run
  {
    if st.run == 0 {
      PrefixEmpty(DecodeLoop(data, st, k));
    } else {
      var st' := st.(run := st.run - 1);
      DecodeLoopRun(data, st, k);
      RunExpand(data, st', k - 1);
      assert st'.(run := 0) == st.(run := 0);
      PrefixPrefix([st.px], Repeat(st.px, st.run - 1), DecodeLoop(data, st.(run := 0), k - st.run));
    }
  }

  /** The state the decoder is in after a run chunk of `r` pixels. */
  function AfterRun(d: DecState, prev: Pixel, r: nat): DecState
    requires |d.cache| == CACHE_SIZE && 1 <= r <= MAX_RUN
  {
    DecState(prev, 0, d.cache[Slot(prev) := prev], d.pos + |RunChunk(r)|)
  }

  /** The state the decoder is in after the chunk the encoder writes for `px`. */
  function AfterPixel(d: DecState, ecache: seq<Pixel>, prev: Pixel, px: Pixel): DecState
    requires |d.cache| == CACHE_SIZE && |ecache| == CACHE_SIZE
  {
    DecState(px, 0, d.cache[Slot(px) := px], d.pos + |PixelChunk(ecache, prev, px)|)
  }

  /** A run chunk the encoder flushes comes out as its `r` copies of the previous pixel. */
  lemma FlushRun(data: seq<byte>, ecache: seq<Pixel>, prev: Pixel, d: DecState, r: nat, rest: seq<byte>, k: nat)
    requires Aligned(ecache, prev, d) && 1 <= r <= MAX_RUN && r <= k
    requires Facing(data, d.pos, RunChunk(r) + rest)
    ensures Aligned(ecache, prev, AfterRun(d, prev, r)) && Facing(data, AfterRun(d, prev, r).pos, rest)
    ensures DecodeLoop(data, d, k) == Prefix(Repeat(prev, r), DecodeLoop(data, AfterRun(d, prev, r), k - r))
  {
    FacingSplit(data, d.pos, RunChunk(r), rest);
    DecodeRunChunk(data, d.pos, prev, d.cache, r);
    DecodeLoopChunk(data, d, k);
    var mid := DecState(prev, r - 1, d.cache[Slot(prev) := prev], d.pos + |RunChunk(r)|);
    RunExpand(data, mid, k - 1);
    assert mid.(run := 0) == AfterRun(d, prev, r);
    PrefixPrefix([prev], Repeat(prev, r - 1), DecodeLoop(data, AfterRun(d, prev, r), k - r));
    AgreeAfterRun(ecache, d.cache, prev);
  }

  /** A chunk read at a boundary that decodes to `px` with no run: `px` comes out and is stored. */
  lemma ChunkLoop(data: seq<byte>, d: DecState, k: nat, px: Pixel, n: nat)
    requires |d.cache| == CACHE_SIZE && k > 0 && d.run == 0 && d.pos < |data|
    requires DecodeChunk(data, d.pos, d.px, d.cache) == Ok(Chunk(px, 0, d.pos + n))
    ensures DecodeLoop(data, d, k) == Prefix([px], DecodeLoop(data, DecState(px, 0, d.cache[Slot(px) := px], d.pos + n), k - 1))
  {
    DecodeLoopChunk(data, d, k);
  }

  /** An index chunk for a pixel the decoder's cache holds. */
  lemma IndexLoop(data: seq<byte>, d: DecState, k: nat, px: Pixel)
    requires |d.cache| == CACHE_SIZE && k > 0 && d.run == 0 && d.cache[Slot(px)] == px
    requires ChunkAt(data, d.pos, [Or8(QOI_INDEX, Slot(px))])
    ensures DecodeLoop(data, d, k) == Prefix([px], DecodeLoop(data, DecState(px, 0, d.cache[Slot(px) := px], d.pos + 1), k - 1))
  {
    DecodeIndexChunk(data, d.pos, d.px, px, d.cache);
    ChunkLoop(data, d, k, px, 1);
  }

  /** A difference chunk from the decoder's pixel to `px`. */
  lemma DeltaLoop(data: seq<byte>, d: DecState, k: nat, px: Pixel)
    requires |d.cache| == CACHE_SIZE && k > 0 && d.run == 0 && Tier24(d.px, px)
    requires ChunkAt(data, d.pos, DeltaChunk(px.r - d.px.r, px.g - d.px.g, px.b - d.px.b, px.a - d.px.a))
    ensures DecodeLoop(data, d, k) == Prefix([px], DecodeLoop(data, DecState(px, 0, d.cache[Slot(px) := px],
      d.pos + |DeltaChunk(px.r - d.px.r, px.g - d.px.g, px.b - d.px.b, px.a - d.px.a)|), k - 1))
  {
    DecodeDeltaChunk(data, d.pos, d.px, px, d.cache);
    ChunkLoop(data, d, k, px, |DeltaChunk(px.r - d.px.r, px.g - d.px.g, px.b - d.px.b, px.a - d.px.a)|);
  }

  /** A literal chunk from the decoder's pixel to `px`. */
  lemma LiteralLoop(data: seq<byte>, d: DecState, k: nat, px: Pixel)
    requires |d.cache| == CACHE_SIZE && k > 0 && d.run == 0
    requires ChunkAt(data, d.pos, LiteralChunk(px, px.r - d.px.r, px.g - d.px.g, px.b - d.px.b, px.a - d.px.a))
    ensures DecodeLoop(data, d, k) == Prefix([px], DecodeLoop(data, DecState(px, 0, d.cache[Slot(px) := px],
      d.pos + |LiteralChunk(px, px.r - d.px.r, px.g - d.px.g, px.b - d.px.b, px.a - d.px.a)|), k - 1))
  {
    DecodeLiteralChunk(data, d.pos, d.px, px, d.cache);
    ChunkLoop(data, d, k, px, |LiteralChunk(px, px.r - d.px.r, px.g - d.px.g, px.b - d.px.b, px.a - d.px.a)|);
  }

  /**
   * The chunk the encoder writes for a new pixel comes out of the decoder's
   * loop as that pixel, from any decoder cache that agrees with the
   * encoder's: an index chunk finds the pixel in the decoder's cache too.
   */
  lemma PixelLoop(data: seq<byte>, ecache: seq<Pixel>, prev: Pixel, px: Pixel, d: DecState, k: nat)
    requires CachesAgree(ecache, d.cache) && d.px == prev && d.run == 0 && k > 0
    requires ChunkAt(data, d.pos, PixelChunk(ecache, prev, px))
    ensures DecodeLoop(data, d, k) == Prefix([px], DecodeLoop(data, AfterPixel(d, ecache, prev, px), k - 1))
  {
    var c := PixelChunk(ecache, prev, px);
    assert AfterPixel(d, ecache, prev, px) == DecState(px, 0, d.cache[Slot(px) := px], d.pos + |c|);
    var vr, vg, vb, va := px.r - prev.r, px.g - prev.g, px.b - prev.b, px.a - prev.a;
    if ecache[Slot(px)] == px {
      assert d.cache[Slot(px)] == px;
      IndexLoop(data, d, k, px);
    } else if Tier24(prev, px) {
      assert c == DeltaChunk(vr, vg, vb, va);
      DeltaLoop(data, d, k, px);
    } else {
      assert c == LiteralChunk(px, vr, vg, vb, va);
      LiteralLoop(data, d, k, px);
    }
  }

  /** The chunk the encoder writes for a new pixel comes out as that pixel. */
  lemma PixelStep(data: seq<byte>, ecache: seq<Pixel>, prev: Pixel, px: Pixel, d: DecState, rest: seq<byte>, k: nat)
    requires Aligned(ecache, prev, d) && k > 0
    requires Facing(data, d.pos, PixelChunk(ecache, prev, px) + rest)
    ensures Aligned(ecache[Slot(px) := px], px, AfterPixel(d, ecache, prev, px))
    ensures Facing(data, AfterPixel(d, ecache, prev, px).pos, rest)
    ensures DecodeLoop(data, d, k) == Prefix([px], DecodeLoop(data, AfterPixel(d, ecache, prev, px), k - 1))
  {
    FacingSplit(data, d.pos, PixelChunk(ecache, prev, px), rest);
    AgreeAfterPixel(ecache, d.cache, px);
    PixelLoop(data, ecache, prev, px, d, k);
  }

  // ---------------------------------------------------------------------
  // One pixel of the walk

  /**
   * Pixel `i` moves the encoder to its next state and the decoder to `d'`;
   * the decoder's loop from `d` is `out` in front of its loop from `d'`, and
   * `out` followed by the pixels the decoder owes from `d'` on is what it
   * owed from `d`.
   */
  predicate Advances(data: seq<byte>, pixels: seq<Pixel>, i: nat, e: EncState, d: DecState, d': DecState, out: seq<Pixel>)
    requires ValidState(e) && e.run <= i < |pixels| && |d.cache| == CACHE_SIZE
  {
    var e' := EncodeStep(e, pixels[i], i == |pixels| - 1).next;
    Sim(data, pixels, i + 1, e', d')
    && DecodeLoop(data, d, |pixels| - i + e.run) == Prefix(out, DecodeLoop(data, d', |pixels| - (i + 1) + e'.run))
    && out + pixels[i + 1 - e'.run..] == pixels[i - e.run..]
  }

  /** The pixel repeats the previous one and the run goes on: nothing is written or read. */
  lemma StepExtend(data: seq<byte>, pixels: seq<Pixel>, i: nat, e: EncState, d: DecState)
    requires Sim(data, pixels, i, e, d) && i < |pixels| - 1
    requires pixels[i] == e.prev && e.run + 1 < MAX_RUN
    ensures Advances(data, pixels, i, e, d, d, [])
  {
    var s := EncodeStep(e, pixels[i], false);
    assert s.flush == [] && s.chunk == [] && s.next == e.(run := e.run + 1);
    EncodeFromStep(e, pixels, i);
    assert s.flush + s.chunk + EncodeFrom(s.next, pixels, i + 1) == EncodeFrom(s.next, pixels, i + 1);
    PrefixEmpty(DecodeLoop(data, d, |pixels| - i + e.run));
  }

  /** A new pixel with no run pending: one pixel chunk. */
  lemma StepPixel(data: seq<byte>, pixels: seq<Pixel>, i: nat, e: EncState, d: DecState)
    requires Sim(data, pixels, i, e, d) && i < |pixels|
    requires pixels[i] != e.prev && e.run == 0
    ensures Advances(data, pixels, i, e, d, AfterPixel(d, e.cache, e.prev, pixels[i]), [pixels[i]])
  {
    var px := pixels[i];
    var s := EncodeStep(e, px, i == |pixels| - 1);
    assert s.flush == [] && s.chunk == PixelChunk(e.cache, e.prev, px);
    assert s.next == EncState(px, 0, e.cache[Slot(px) := px]);
    EncodeFromStep(e, pixels, i);
    var rest := EncodeFrom(s.next, pixels, i + 1) + PADDING;
    assert data[d.pos..] == s.chunk + rest;
    PixelStep(data, e.cache, e.prev, px, d, rest, |pixels| - i);
    assert [px] + pixels[i + 1..] == pixels[i..];
  }

  /** The pixel repeats the previous one and ends the run (full, or the last pixel): one run chunk. */
  lemma StepCloseRun(data: seq<byte>, pixels: seq<Pixel>, i: nat, e: EncState, d: DecState)
    requires Sim(data, pixels, i, e, d) && i < |pixels|
    requires pixels[i] == e.prev && (e.run + 1 == MAX_RUN || i == |pixels| - 1)
    ensures Advances(data, pixels, i, e, d, AfterRun(d, e.prev, e.run + 1), Repeat(e.prev, e.run + 1))
  {
    var s := EncodeStep(e, pixels[i], i == |pixels| - 1);
    assert s.flush == RunChunk(e.run + 1) && s.chunk == [] && s.next == e.(run := 0);
    EncodeFromStep(e, pixels, i);
    var rest := EncodeFrom(s.next, pixels, i + 1) + PADDING;
    assert data[d.pos..] == s.flush + rest;
    FlushRun(data, e.cache, e.prev, d, e.run + 1, rest, |pixels| - i + e.run);
    RepeatSlice(pixels, i + 1, e.run + 1, e.prev);
    assert pixels[i - e.run..] == pixels[i - e.run..i + 1] + pixels[i + 1..];
  }

  /** A new pixel after a pending run: the run chunk, then the pixel chunk. */
  lemma StepRunThenPixel(data: seq<byte>, pixels: seq<Pixel>, i: nat, e: EncState, d: DecState)
    requires Sim(data, pixels, i, e, d) && i < |pixels|
    requires pixels[i] != e.prev && e.run > 0
    ensures Advances(data, pixels, i, e, d, AfterPixel(AfterRun(d, e.prev, e.run), e.cache, e.prev, pixels[i]),
                     Repeat(e.prev, e.run) + [pixels[i]])
  {
    var px := pixels[i];
    var s := EncodeStep(e, px, i == |pixels| - 1);
    assert s.flush == RunChunk(e.run) && s.chunk == PixelChunk(e.cache, e.prev, px);
    assert s.next == EncState(px, 0, e.cache[Slot(px) := px]);
    EncodeFromStep(e, pixels, i);
    var rest := EncodeFrom(s.next, pixels, i + 1) + PADDING;
    assert data[d.pos..] == s.flush + (s.chunk + rest);
    var k := |pixels| - i + e.run;
    FlushRun(data, e.cache, e.prev, d, e.run, s.chunk + rest, k);
    var mid := AfterRun(d, e.prev, e.run);
    PixelStep(data, e.cache, e.prev, px, mid, rest, k - e.run);
    PrefixPrefix(Repeat(e.prev, e.run), [px], DecodeLoop(data, AfterPixel(mid, e.cache, e.prev, px), k - e.run - 1));
    RepeatSlice(pixels, i, e.run, e.prev);
    assert pixels[i - e.run..] == pixels[i - e.run..i] + [px] + pixels[i + 1..];
  }

  /** Every pixel of the walk keeps the two sides in step. */
  lemma SimStep(data: seq<byte>, pixels: seq<Pixel>, i: nat, e: EncState, d: DecState)
    returns (d': DecState, out: seq<Pixel>)
    requires Sim(data, pixels, i, e, d) && i < |pixels|
    ensures Advances(data, pixels, i, e, d, d', out)
  {
    if pixels[i] == e.prev {
      if e.run + 1 == MAX_RUN || i == |pixels| - 1 {
        StepCloseRun(data, pixels, i, e, d);
        d', out := AfterRun(d, e.prev, e.run + 1), Repeat(e.prev, e.run + 1);
      } else {
        StepExtend(data, pixels, i, e, d);
        d', out := d, [];
      }
    } else if e.run == 0 {
      StepPixel(data, pixels, i, e, d);
      d', out := AfterPixel(d, e.cache, e.prev, pixels[i]), [pixels[i]];
    } else {
      StepRunThenPixel(data, pixels, i, e, d);
      d', out := AfterPixel(AfterRun(d, e.prev, e.run), e.cache, e.prev, pixels[i]), Repeat(e.prev, e.run) + [pixels[i]];
    }
  }

  /**
   * From states in step before pixel `i`, the decoder's loop produces the
   * pending run and every pixel from `i` on.
   */
  lemma {:induction false} Simulation(data: seq<byte>, pixels: seq<Pixel>, i: nat, e: EncState, d: DecState)
    requires Sim(data, pixels, i, e, d)
    ensures DecodeLoop(data, d, |pixels| - i + e.run) == Ok(pixels[i - e.run..])
    decreases |pixels| - i
  {
    if i < |pixels| {
      var e', d' := Advance(data, pixels, i, e, d);
      Simulation(data, pixels, i + 1, e', d');
    } else {
      assert pixels[i - e.run..] == [];
    }
  }

  /**
   * One pixel of the walk: the next pair of states is in step, and if the
   * decoder owes exactly the remaining pixels from there, it did so before.
   */
  lemma Advance(data: seq<byte>, pixels: seq<Pixel>, i: nat, e: EncState, d: DecState)
    returns (e': EncState, d': DecState)
    requires Sim(data, pixels, i, e, d) && i < |pixels|
    ensures Sim(data, pixels, i + 1, e', d')
    ensures DecodeLoop(data, d', |pixels| - (i + 1) + e'.run) == Ok(pixels[i + 1 - e'.run..])
      ==> DecodeLoop(data, d, |pixels| - i + e.run) == Ok(pixels[i - e.run..])
  {
    var out;
    d', out := SimStep(data, pixels, i, e, d);
    e' := EncodeStep(e, pixels[i], i == |pixels| - 1).next;
    if DecodeLoop(data, d', |pixels| - (i + 1) + e'.run) == Ok(pixels[i + 1 - e'.run..]) {
      Chain(DecodeLoop(data, d, |pixels| - i + e.run), out, DecodeLoop(data, d', |pixels| - (i + 1) + e'.run),
            pixels[i + 1 - e'.run..], pixels[i - e.run..]);
    }
  }

  /** `out` in front of a decode that gives `tail`, where `out + tail` is `whole`. */
  lemma Chain(r: Result<seq<Pixel>>, out: seq<Pixel>, r': Result<seq<Pixel>>, tail: seq<Pixel>, whole: seq<Pixel>)
    requires r == Prefix(out, r') && r' == Ok(tail) && out + tail == whole
    ensures r == Ok(whole)
  {
  }

  // ---------------------------------------------------------------------
  // The image

  /** The encoder's and decoder's starting states are in step, right after the header. */
  lemma StartInStep(img: Image)
    ensures Sim(EncodeImage(img), img.pixels, 0, START, DEC_START)
  {
    var body := EncodeFrom(START, img.pixels, 0) + PADDING;
    assert EncodeImage(img) == WriteHeader(img.width, img.height) + body;
    assert EncodeImage(img)[HEADER_SIZE..] == body;
    StartSlots();
  }

  /** The header `Encode` writes reads back as the image's dimensions. */
  lemma EncodedConfig(img: Image)
    requires img.width < U32_RANGE && img.height < U32_RANGE
    ensures DecodeConfig(EncodeImage(img)) == Ok(Config(img.width, img.height))
  {
    EncodedLayout(img);
    HeaderFits(img.width, img.height, EncodeFrom(START, img.pixels, 0) + PADDING, EncodeImage(img));
  }

  /** A header for dimensions that fit 32 bits reads back as those dimensions. */
  lemma HeaderFits(width: nat, height: nat, rest: seq<byte>, data: seq<byte>)
    requires width < U32_RANGE && height < U32_RANGE && data == WriteHeader(width, height) + rest
    ensures DecodeConfig(data) == Ok(Config(width, height))
  {
    HeaderRoundTrip(width, height, rest);
  }

  /** `Encode`'s output is the header followed by the rest. */
  lemma EncodedLayout(img: Image)
    ensures EncodeImage(img) == WriteHeader(img.width, img.height) + (EncodeFrom(START, img.pixels, 0) + PADDING)
  {
  }

  /**
   * The end of the input at a chunk boundary is not an error: a stream that
   * stops right after the header decodes to an image of the stated size
   * whose pixels are all zero.
   */
  lemma HeaderOnly(width: nat, height: nat)
    requires width < U32_RANGE && height < U32_RANGE
    ensures DecodeImage(WriteHeader(width, height)).Ok?
    ensures var img := DecodeImage(WriteHeader(width, height)).value;
      img.width == width && img.height == height &&
      forall j :: 0 <= j < |img.pixels| ==> img.pixels[j] == BLANK
  {
    var data := WriteHeader(width, height);
    assert data + [] == data;
    HeaderFits(width, height, [], data);
    DecodeImageLoop(data);
    assert DecodeLoop(data, DEC_START, width * height) == Ok([]);
  }

  /**
   * Lossless: an image whose dimensions fit the header's 32-bit fields
   * decodes to itself.
   */
  lemma RoundTrip(img: Image)
    requires img.width < U32_RANGE && img.height < U32_RANGE
    ensures DecodeImage(EncodeImage(img)) == Ok(img)
  {
    var data := EncodeImage(img);
    EncodedConfig(img);
    DecodeImageLoop(data);
    StartInStep(img);
    Simulation(data, img.pixels, 0, START, DEC_START);
    assert img.pixels[0..] == img.pixels;
    assert img.pixels + Zeros(0) == img.pixels;
  }
}
