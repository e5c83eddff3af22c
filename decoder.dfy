/**
 * The decoder of qoi.go.  `DecodeChunk` is one pass of the tag switch,
 * `DecodeLoop` the pixel loop with its run counter and cache, `DecodeImage`
 * the whole of `Decode`; the methods `ReadChunk` and `Decode` are the
 * imperative code (a read cursor, a 64-slot cache array and the output pixel
 * array written in place) and are proved to compute exactly those functions.
 */
module QoiDecoder {
  import opened Bits
  import opened QoiFormat
  import opened QoiHeader

  /** The arms of the decoder's `switch`, in the order `qoi.go` tests them. */
  datatype Tag = IndexTag | Run8Tag | Run16Tag | Diff8Tag | Diff16Tag | Diff24Tag | ColorTag | UnknownTag

  /** The `switch` on `b1 & mask`: the first arm whose masked tag matches. */
  function Classify(b1: byte): Tag
  {
    if And(b1, QOI_MASK_2) == QOI_INDEX then IndexTag
    else if And(b1, QOI_MASK_3) == QOI_RUN_8 then Run8Tag
    else if And(b1, QOI_MASK_3) == QOI_RUN_16 then Run16Tag
    else if And(b1, QOI_MASK_2) == QOI_DIFF_8 then Diff8Tag
    else if And(b1, QOI_MASK_3) == QOI_DIFF_16 then Diff16Tag
    else if And(b1, QOI_MASK_4) == QOI_DIFF_24 then Diff24Tag
    else if And(b1, QOI_MASK_4) == QOI_COLOR then ColorTag
    else UnknownTag
  }

  /** The tag of a first byte read off its value range; every byte has one. */
  function TagRange(b1: byte): (t: Tag)
    ensures t != UnknownTag
  {
    if b1 < 0x40 then IndexTag
    else if b1 < 0x60 then Run8Tag
    else if b1 < 0x80 then Run16Tag
    else if b1 < 0xC0 then Diff8Tag
    else if b1 < 0xE0 then Diff16Tag
    else if b1 < 0xF0 then Diff24Tag
    else ColorTag
  }

  /** The three tag masks keep the top two, three and four bits. */
  lemma TagMasks(b1: byte)
    ensures And(b1, QOI_MASK_2) == (b1 / 64) * 64
    ensures And(b1, QOI_MASK_3) == (b1 / 32) * 32
    ensures And(b1, QOI_MASK_4) == (b1 / 16) * 16
  {
    AndTop2(b1);
    AndTop3(b1);
    AndTop4(b1);
  }

  /** The mask switch is exhaustive and disjoint: the magenta default is never taken. */
  lemma ClassifyRanges(b1: byte)
    ensures Classify(b1) == TagRange(b1)
  {
    TagMasks(b1);
    if b1 < 0x40 {
      DivModUnique(b1, 64, 0, b1);
    } else if b1 < 0x60 {
      DivModUnique(b1, 64, 1, b1 - 64);
      DivModUnique(b1, 32, 2, b1 - 64);
    } else if b1 < 0x80 {
      DivModUnique(b1, 64, 1, b1 - 64);
      DivModUnique(b1, 32, 3, b1 - 96);
    } else if b1 < 0xC0 {
      DivModUnique(b1, 64, 2, b1 - 128);
    } else if b1 < 0xE0 {
      DivModUnique(b1, 64, 3, b1 - 192);
      DivModUnique(b1, 32, 6, b1 - 192);
    } else if b1 < 0xF0 {
      DivModUnique(b1, 64, 3, b1 - 192);
      DivModUnique(b1, 32, 7, b1 - 224);
      DivModUnique(b1, 16, 14, b1 - 224);
    } else {
      DivModUnique(b1, 64, 3, b1 - 192);
      DivModUnique(b1, 32, 7, b1 - 224);
      DivModUnique(b1, 16, 15, b1 - 240);
    }
  }

  /** What one chunk decodes to: the pixel, the further repeats it announces, the cursor after it. */
  datatype Chunk = Chunk(px: Pixel, run: nat, next: nat)

  /** `QOI_DIFF_8`: three 2-bit deltas biased by 2, added with byte wrap-around. */
  function Diff8(px: Pixel, b1: byte): Pixel
  {
    Pixel(Add8(px.r, Sub8(And(Shr(b1, 4), 0x03), 2)),
          Add8(px.g, Sub8(And(Shr(b1, 2), 0x03), 2)),
          Add8(px.b, Sub8(And(b1, 0x03), 2)),
          px.a)
  }

  /** `QOI_DIFF_16`: a 5-bit red delta biased by 16, 4-bit green and blue deltas biased by 8. */
  function Diff16(px: Pixel, b1: byte, b2: byte): Pixel
  {
    Pixel(Add8(px.r, Sub8(And(b1, 0x1f), 16)),
          Add8(px.g, Sub8(Shr(b2, 4), 8)),
          Add8(px.b, Sub8(And(b2, 0x0f), 8)),
          px.a)
  }

  /** `QOI_DIFF_24`: four 5-bit deltas biased by 16, packed over three bytes. */
  function Diff24(px: Pixel, b1: byte, b2: byte, b3: byte): Pixel
  {
    Pixel(Add8(px.r, Sub8(Or8(Shl8(And(b1, 0x0f), 1), Shr(b2, 7)), 16)),
          Add8(px.g, Sub8(Shr(And(b2, 0x7c), 2), 16)),
          Add8(px.b, Sub8(Or8(Shl8(And(b2, 0x03), 3), Shr(And(b3, 0xe0), 5)), 16)),
          Add8(px.a, Sub8(And(b3, 0x1f), 16)))
  }

  /** The number of bytes a literal chunk holds for a channel: one when its flag is set. */
  function Width(flag: bool): nat
  {
    if flag then 1 else 0
  }

  /**
   * The channels of a literal chunk from `pos` on: those whose flag is set
   * are read in r, g, b, a order, the others are kept from `px`.  Running
   * out of input before the last flagged byte is `io.EOF`.
   */
  function ReadChannels(data: seq<byte>, pos: nat, fr: bool, fg: bool, fb: bool, fa: bool, px: Pixel): Result<Chunk>
  {
    var pg := pos + Width(fr);
    var pb := pg + Width(fg);
    var pa := pb + Width(fb);
    var end := pa + Width(fa);
    if end > |data| then Err(EndOfInput)
    else
      Ok(Chunk(Pixel(if fr then data[pos] else px.r, if fg then data[pg] else px.g,
                     if fb then data[pb] else px.b, if fa then data[pa] else px.a), 0, end))
  }

  /** `QOI_COLOR`: the channels whose flag bit (8, 4, 2, 1 for r, g, b, a) is set follow the tag. */
  function ReadColor(data: seq<byte>, pos: nat, b1: byte, px: Pixel): (r: Result<Chunk>)
  {
    ReadChannels(data, pos + 1, And(b1, 8) != 0, And(b1, 4) != 0, And(b1, 2) != 0, And(b1, 1) != 0, px)
  }

  /**
   * One pass of the tag switch for the chunk at `pos`, from the current pixel
   * `px` and cache.  A chunk cut short by the end of the input is `io.EOF`.
   * The arm is chosen by the first byte's range, which `ClassifyRanges` shows
   * is the arm `qoi.go`'s mask tests choose; the magenta default is
   * therefore never reached.
   */
  function DecodeChunk(data: seq<byte>, pos: nat, px: Pixel, cache: seq<Pixel>): (r: Result<Chunk>)
    requires pos < |data| && |cache| == CACHE_SIZE
  {
    var b1 := data[pos];
    match TagRange(b1)
    case IndexTag =>
      ClassifyRanges(b1);
      IndexSlot(b1);
      Ok(Chunk(cache[Xor8(b1, QOI_INDEX)], 0, pos + 1))
    case Run8Tag =>
      Ok(Chunk(px, And(b1, 0x1f), pos + 1))
    case Run16Tag =>
      if pos + 1 < |data| then Ok(Chunk(px, Or(Shl(And(b1, 0x1f), 8), data[pos + 1]) + 32, pos + 2))
      else Err(EndOfInput)
    case Diff8Tag =>
      Ok(Chunk(Diff8(px, b1), 0, pos + 1))
    case Diff16Tag =>
      if pos + 1 < |data| then Ok(Chunk(Diff16(px, b1, data[pos + 1]), 0, pos + 2))
      else Err(EndOfInput)
    case Diff24Tag =>
      if pos + 2 < |data| then Ok(Chunk(Diff24(px, b1, data[pos + 1], data[pos + 2]), 0, pos + 3))
      else Err(EndOfInput)
    case ColorTag =>
      ReadColor(data, pos, b1, px)
    case UnknownTag =>
      Ok(Chunk(MAGENTA, 0, pos + 1))
  }

  /**
   * The length of the chunk a tag byte starts: two for `QOI_RUN_16` and
   * `QOI_DIFF_16`, three for `QOI_DIFF_24`, the tag and one byte per flag for
   * `QOI_COLOR`, one otherwise.
   */
  function ChunkSize(b1: byte): (n: nat)
    ensures 1 <= n <= 5
  {
    match TagRange(b1)
    case Run16Tag => 2
    case Diff16Tag => 2
    case Diff24Tag => 3
    case ColorTag => 1 + Width(And(b1, 8) != 0) + Width(And(b1, 4) != 0) + Width(And(b1, 2) != 0) + Width(And(b1, 1) != 0)
    case IndexTag => 1
    case Run8Tag => 1
    case Diff8Tag => 1
  }

  /**
   * A chunk fails exactly when the input ends inside it (`qoi.go`'s
   * `io.EOF` from a continuation read), and otherwise the cursor moves past
   * exactly its bytes.
   */
  lemma ChunkExtent(data: seq<byte>, pos: nat, px: Pixel, cache: seq<Pixel>)
    requires pos < |data| && |cache| == CACHE_SIZE
    ensures var r := DecodeChunk(data, pos, px, cache);
      (r.Err? <==> pos + ChunkSize(data[pos]) > |data|) &&
      (r.Err? ==> r.error == EndOfInput) &&
      (r.Ok? ==> r.value.next == pos + ChunkSize(data[pos]) <= |data|)
  {
  }

  /** A literal chunk overwrites only the channels whose flag is set. */
  lemma ColorKeeps(data: seq<byte>, pos: nat, b1: byte, px: Pixel)
    ensures var r := ReadColor(data, pos, b1, px);
      r.Ok? ==> (r.value.run == 0 &&
                 (And(b1, 8) == 0 ==> r.value.px.r == px.r) && (And(b1, 4) == 0 ==> r.value.px.g == px.g) &&
                 (And(b1, 2) == 0 ==> r.value.px.b == px.b) && (And(b1, 1) == 0 ==> r.value.px.a == px.a))
  {
  }

  /** What the decoder carries from pixel to pixel: `px`, `run`, `index` and the read cursor. */
  datatype DecState = DecState(px: Pixel, run: nat, cache: seq<Pixel>, pos: nat)

  /** The state `Decode` starts from, just after the header. */
  const DEC_START: DecState := DecState(SEED, 0, EmptyCache(), HEADER_SIZE)

  /** `ps` in front of the pixels of a successful decode; an error stays the error. */
  function Prefix(ps: seq<Pixel>, r: Result<seq<Pixel>>): Result<seq<Pixel>>
  {
    if r.Ok? then Ok(ps + r.value) else r
  }

  /**
   * The pixel loop for `k` more pixels: a pending run repeats `px` without
   * reading; otherwise a chunk is read, its pixel stored in the cache at its
   * hash slot, and output.  The end of the input at a chunk boundary ends the
   * loop with the pixels so far.
   */
  function DecodeLoop(data: seq<byte>, st: DecState, k: nat): (r: Result<seq<Pixel>>)
    requires |st.cache| == CACHE_SIZE
    ensures r.Ok? ==> |r.value| <= k
    ensures r.Err? ==> r.error == EndOfInput
    ensures k > 0 && st.run == 0 && st.pos >= |data| ==> r == Ok([])
    decreases k, 2
  {
    if k == 0 then Ok([])
    else if st.run > 0 then
      Prefix([st.px], DecodeLoop(data, st.(run := st.run - 1), k - 1))
    else if st.pos >= |data| then Ok([])
    else
      ChunkFrom(data, st, k)
  }

  function ChunkFrom(data: seq<byte>, st: DecState, k: nat): (r: Result<seq<Pixel>>)
    requires |st.cache| == CACHE_SIZE && k > 0 && st.pos < |data|
    ensures r.Ok? ==> |r.value| <= k
    ensures r.Err? ==> r.error == EndOfInput
    decreases k, 1
  {
    ChunkStep(data, st, k)
  }

  function ChunkStep(data: seq<byte>, st: DecState, k: nat): (r: Result<seq<Pixel>>)
    requires |st.cache| == CACHE_SIZE && k > 0 && st.pos < |data|
    ensures r.Ok? ==> |r.value| <= k
    ensures r.Err? ==> r.error == EndOfInput
    decreases k, 0
  {
      match DecodeChunk(data, st.pos, st.px, st.cache)
      case Err(e) => Err(e)
      case Ok(c) =>
        Prefix([c.px], DecodeLoop(data, DecState(c.px, c.run, st.cache[Slot(c.px) := c.px], c.next), k - 1))
  }

  /**
   * `Decode`: the header, then `width * height` pixels; pixels the input ends
   * before are left zero.
   */
  function DecodeImage(data: seq<byte>): (r: Result<Image>)
  {
    var cfg :- DecodeConfig(data);
    var ps :- DecodeLoop(data, DEC_START, cfg.width * cfg.height);
    Ok(Filled(cfg.width, cfg.height, ps))
  }

  /** A `width` by `height` image whose first pixels are `ps` and whose other pixels are zero. */
  function Filled(width: nat, height: nat, ps: seq<Pixel>): (img: Image)
    requires |ps| <= width * height
    ensures img.width == width && img.height == height
    ensures img.pixels[..|ps|] == ps
    ensures forall j :: |ps| <= j < |img.pixels| ==> img.pixels[j] == BLANK
  {
    var pixels := ps + Zeros(width * height - |ps|);
    assert pixels[..|ps|] == ps;
    ImageData(width, height, pixels)
  }

  lemma PrefixEmpty(r: Result<seq<Pixel>>)
    ensures Prefix([], r) == r
  {
    if r.Ok? {
      assert [] + r.value == r.value;
    }
  }

  /** `ps` in front of `qs` in front of a result is `ps + qs` in front of it. */
  lemma PrefixPrefix(ps: seq<Pixel>, qs: seq<Pixel>, r: Result<seq<Pixel>>)
    ensures Prefix(ps, Prefix(qs, r)) == Prefix(ps + qs, r)
  {
    if r.Ok? {
      assert ps + (qs + r.value) == (ps + qs) + r.value;
    }
  }

  /** An index chunk's first byte is the slot number itself. */
  lemma IndexSlot(b1: byte)
    requires And(b1, QOI_MASK_2) == QOI_INDEX
    ensures b1 < CACHE_SIZE && Xor8(b1, QOI_INDEX) == b1
  {
    TagMasks(b1);
  }

  /**
   * The tag switch as `qoi.go` runs it: the first byte and the bytes the
   * chunk needs are read with a cursor, the current pixel is updated channel
   * by channel, and the cache array is only read.
   */
  method ReadChunk(data: seq<byte>, pos: nat, px: Pixel, index: array<Pixel>)
    returns (r: Result<Chunk>)
    requires pos < |data| && index.Length == CACHE_SIZE
    ensures r == DecodeChunk(data, pos, px, index[..])
  {
    var b1 := data[pos];
    ClassifyRanges(b1);
    var cur := pos + 1;
    var p := px;
    var run := 0;
    if And(b1, QOI_MASK_2) == QOI_INDEX {
      IndexSlot(b1);
      p := index[Xor8(b1, QOI_INDEX)];
    } else if And(b1, QOI_MASK_3) == QOI_RUN_8 {
      run := And(b1, 0x1f);
    } else if And(b1, QOI_MASK_3) == QOI_RUN_16 {
      if cur >= |data| {
        return Err(EndOfInput);
      }
      var b2 := data[cur];
      cur := cur + 1;
      run := Or(Shl(And(b1, 0x1f), 8), b2) + 32;
    } else if And(b1, QOI_MASK_2) == QOI_DIFF_8 {
      p := Diff8(p, b1);
    } else if And(b1, QOI_MASK_3) == QOI_DIFF_16 {
      if cur >= |data| {
        return Err(EndOfInput);
      }
      var b2 := data[cur];
      cur := cur + 1;
      p := Diff16(p, b1, b2);
    } else if And(b1, QOI_MASK_4) == QOI_DIFF_24 {
      if cur + 1 >= |data| {
        return Err(EndOfInput);
      }
      var b2, b3 := data[cur], data[cur + 1];
      cur := cur + 2;
      p := Diff24(p, b1, b2, b3);
    } else if And(b1, QOI_MASK_4) == QOI_COLOR {
      r := ReadLiteral(data, pos, b1, px);
      return;
    } else {
      p := MAGENTA;
    }
    r := Ok(Chunk(p, run, cur));
  }

  /** The literal arm: each flagged channel is read in turn; a missing byte is `io.EOF`. */
  method ReadLiteral(data: seq<byte>, pos: nat, b1: byte, px: Pixel) returns (r: Result<Chunk>)
    requires pos < |data|
    ensures r == ReadColor(data, pos, b1, px)
  {
    ghost var fr, fg, fb, fa := And(b1, 8) != 0, And(b1, 4) != 0, And(b1, 2) != 0, And(b1, 1) != 0;
    ghost var end := pos + 1 + Width(fr) + Width(fg) + Width(fb) + Width(fa);
    var cur := pos + 1;
    var p := px;
    if And(b1, 8) != 0 {
      if cur >= |data| {
        return Err(EndOfInput);
      }
      p := p.(r := data[cur]);
      cur := cur + 1;
    }
    assert cur == pos + 1 + Width(fr);
    if And(b1, 4) != 0 {
      if cur >= |data| {
        return Err(EndOfInput);
      }
      p := p.(g := data[cur]);
      cur := cur + 1;
    }
    assert cur == pos + 1 + Width(fr) + Width(fg);
    if And(b1, 2) != 0 {
      if cur >= |data| {
        return Err(EndOfInput);
      }
      p := p.(b := data[cur]);
      cur := cur + 1;
    }
    assert cur == pos + 1 + Width(fr) + Width(fg) + Width(fb);
    if And(b1, 1) != 0 {
      if cur >= |data| {
        return Err(EndOfInput);
      }
      p := p.(a := data[cur]);
      cur := cur + 1;
    }
    assert cur == end;
    r := Ok(Chunk(p, 0, cur));
  }

  /** Unfolds one iteration of `DecodeLoop` that reads a chunk. */
  lemma DecodeLoopChunk(data: seq<byte>, st: DecState, k: nat)
    requires |st.cache| == CACHE_SIZE && k > 0 && st.run == 0 && st.pos < |data|
    ensures var c := DecodeChunk(data, st.pos, st.px, st.cache);
      DecodeLoop(data, st, k) == if c.Err? then Err(c.error) else
        Prefix([c.value.px], DecodeLoop(data, DecState(c.value.px, c.value.run,
          st.cache[Slot(c.value.px) := c.value.px], c.value.next), k - 1))
  {
    assert DecodeLoop(data, st, k) == ChunkFrom(data, st, k) == ChunkStep(data, st, k);
  }

  /** The run-continuation iteration of `DecodeLoop`. */
  lemma DecodeLoopRun(data: seq<byte>, st: DecState, k: nat)
    requires |st.cache| == CACHE_SIZE && k > 0 && st.run > 0
    ensures DecodeLoop(data, st, k) == Prefix([st.px], DecodeLoop(data, st.(run := st.run - 1), k - 1))
  {
  }

  /** The pixels written so far, followed by zeros. */
  lemma ZeroTail(pix: seq<Pixel>, i: nat)
    requires i <= |pix| && forall j :: i <= j < |pix| ==> pix[j] == BLANK
    ensures pix == pix[..i] + Zeros(|pix| - i)
  {
  }

  /** `Decode` after a good header is the pixel loop for `width * height` pixels, padded with zeros. */
  lemma DecodeImageLoop(data: seq<byte>)
    requires DecodeConfig(data).Ok?
    ensures var cfg := DecodeConfig(data).value;
      var n := cfg.width * cfg.height;
      var t := DecodeLoop(data, DEC_START, n);
      DecodeImage(data) == if t.Err? then Err(t.error) else Ok(Filled(cfg.width, cfg.height, t.value))
  {
  }

  /**
   * The pixel an iteration of `Decode`'s loop outputs, with the run counter
   * and cursor after it: a pending run repeats `px`; otherwise a chunk is
   * read and its pixel stored in the cache at its hash slot.
   */
  method NextPixel(data: seq<byte>, index: array<Pixel>, px: Pixel, run: nat, pos: nat, ghost k: nat)
    returns (r: Result<Chunk>)
    requires index.Length == CACHE_SIZE && k > 0 && (run > 0 || pos < |data|)
    modifies index
    ensures run > 0 ==> r == Ok(Chunk(px, run - 1, pos)) && index[..] == old(index[..])
    ensures run == 0 ==> var c := DecodeChunk(data, pos, px, old(index[..]));
      r == c && (c.Err? ==> index[..] == old(index[..])) &&
      (c.Ok? ==> index[..] == old(index[..])[Slot(c.value.px) := c.value.px])
    ensures var before := DecodeLoop(data, DecState(px, run, old(index[..]), pos), k);
      if r.Err? then before == Err(r.error)
      else before == Prefix([r.value.px], DecodeLoop(data, DecState(r.value.px, r.value.run, index[..], r.value.next), k - 1))
  {
    ghost var st := DecState(px, run, index[..], pos);
    if run > 0 {
      DecodeLoopRun(data, st, k);
      return Ok(Chunk(px, run - 1, pos));
    }
    DecodeLoopChunk(data, st, k);
    var c :- ReadChunk(data, pos, px, index);
    index[Slot(c.px)] := c.px;
    assert index[..] == st.cache[Slot(c.px) := c.px];
    return Ok(c);
  }

  /**
   * The loop of `Decode` over the output pixels `pix` (all zero on entry),
   * written in order; a pending run repeats the current pixel without reading,
   * and the end of the input at a chunk boundary stops the loop.  On success
   * the result is the number of pixels the chunks produced.
   */
  method DecodeInto(data: seq<byte>, pix: array<Pixel>) returns (r: Result<nat>)
    requires forall j :: 0 <= j < pix.Length ==> pix[j] == BLANK
    modifies pix
    ensures var t := DecodeLoop(data, DEC_START, pix.Length);
      (t.Err? ==> r == Err(t.error)) &&
      (t.Ok? ==> r == Ok(|t.value|) && pix[..] == t.value + Zeros(pix.Length - |t.value|))
  {
    var n := pix.Length;
    var index := new Pixel[CACHE_SIZE](_ => BLANK);
    assert index[..] == EmptyCache();
    var px := SEED;
    var run: nat := 0;
    var pos: nat := HEADER_SIZE;
    var i := 0;
    ghost var total := DecodeLoop(data, DEC_START, n);
    assert DecState(px, run, index[..], pos) == DEC_START;
    PrefixEmpty(total);
    while i < n
      invariant i <= n && index.Length == CACHE_SIZE
      invariant forall j :: i <= j < n ==> pix[j] == BLANK
      invariant total == Prefix(pix[..i], DecodeLoop(data, DecState(px, run, index[..], pos), n - i))
      decreases n - i
    {
      if run == 0 && pos >= |data| {
        ZeroTail(pix[..], i);
        return Ok(i);
      }
      var c :- NextPixel(data, index, px, run, pos, n - i);
      px, run, pos := c.px, c.run, c.next;
      ghost var rest := DecodeLoop(data, DecState(px, run, index[..], pos), n - i - 1);
      PrefixPrefix(pix[..i], [px], rest);
      pix[i] := px;
      assert pix[..i + 1] == pix[..i] + [px];
      i := i + 1;
    }
    assert pix[..i] == pix[..];
    assert pix[..] + Zeros(0) == pix[..];
    return Ok(n);
  }

  /** `Decode`: reads the header, allocates the `width * height` zero pixels and fills them. */
  method Decode(data: seq<byte>) returns (result: Result<Image>)
    ensures result == DecodeImage(data)
  {
    var cfg :- DecodeConfig(data);
    DecodeImageLoop(data);
    var pix := new Pixel[cfg.width * cfg.height](_ => BLANK);
    var count :- DecodeInto(data, pix);
    return Ok(ImageData(cfg.width, cfg.height, pix[..]));
  }
}
