/**
 * The encoder of qoi.go.  The functions give the meaning of one step of the
 * pixel walk and of the whole chunk stream; `Encode` is the imperative pass
 * (nested row/column loops, a 64-slot cache array updated in place, output
 * appended byte by byte) and is proved to produce exactly `EncodeImage`.
 */
module QoiEncoder {
  import opened Bits
  import opened QoiFormat
  import opened QoiHeader

  /** What the encoder carries from pixel to pixel: `px_prev`, `run` and `index`. */
  datatype EncState = EncState(prev: Pixel, run: nat, cache: seq<Pixel>)

  /** A full cache, and a pending run below the ceiling (it is flushed when it reaches it). */
  predicate ValidState(st: EncState) {
    |st.cache| == CACHE_SIZE && st.run < MAX_RUN
  }

  const START: EncState := EncState(SEED, 0, EmptyCache())

  /** The bytes one pixel step emits: a run flush (maybe empty), then a pixel chunk (maybe empty). */
  datatype Step = Step(flush: seq<byte>, chunk: seq<byte>, next: EncState)

  /**
   * A short run chunk for 1..32 repeats (`QOI_RUN_8` with the count minus
   * one in its low five bits), a long one for 33..8224 (`QOI_RUN_16` with
   * the count minus 33 in the thirteen bits below the tag).  The bytes are
   * given by value; `ShortRunBits` and `LongRunBits` show they are the ones
   * `qoi.go` assembles with `|`, `>>` and `&`.
   */
  function RunChunk(run: nat): (c: seq<byte>)
    requires 1 <= run <= MAX_RUN
    ensures |c| == if run < 33 then 1 else 2
  {
    if run < 33 then
      [QOI_RUN_8 + (run - 1)]
    else
      var rest := run - 33;
      [QOI_RUN_16 + rest / 256, rest % 256]
  }

  lemma ShortRunBits(run: nat)
    requires 1 <= run < 33
    ensures RunChunk(run) == [Or8(QOI_RUN_8, Trunc(run - 1))]
  {
    Tagged(QOI_RUN_8, run - 1, 5, 32);
  }

  lemma LongRunHigh(rest: nat)
    requires rest < 0x2000
    ensures Or8(QOI_RUN_16, Trunc(Shr(rest, 8))) == QOI_RUN_16 + rest / 256
  {
    ShrExact(rest, 8, 256, rest / 256, rest % 256);
    Tagged(QOI_RUN_16, rest / 256, 5, 32);
  }

  lemma LongRunLow(rest: nat)
    ensures Trunc(And(rest, 0xff)) == rest % 256
  {
    AndExact(rest, 8, 0xff, rest % 256);
  }

  lemma LongRunPair(run: nat, hi: byte, lo: byte)
    requires 33 <= run <= MAX_RUN && hi == QOI_RUN_16 + (run - 33) / 256 && lo == (run - 33) % 256
    ensures RunChunk(run) == [hi, lo]
  {
  }

  lemma LongRunBits(run: nat)
    requires 33 <= run <= MAX_RUN
    ensures RunChunk(run) == [Or8(QOI_RUN_16, Trunc(Shr(run - 33, 8))), Trunc(And(run - 33, 0xff))]
  {
    var rest := run - 33;
    LongRunHigh(rest);
    LongRunLow(rest);
    LongRunPair(run, Or8(QOI_RUN_16, Trunc(Shr(rest, 8))), Trunc(And(rest, 0xff)));
  }

  /** The flag `bit` of a literal chunk's first byte, set when the channel changed. */
  function Flag(v: int, bit: nat): nat
  {
    if v != 0 then bit else 0
  }

  /**
   * The literal chunk's first byte: `QOI_COLOR` with bit 3, 2, 1, 0 set when
   * r, g, b, a changed (`qoi.go` sets them with `|=`; `EmitLiteral` does so).
   */
  function LiteralMask(vr: int, vg: int, vb: int, va: int): byte
  {
    QOI_COLOR + Flag(vr, 8) + Flag(vg, 4) + Flag(vb, 2) + Flag(va, 1)
  }

  /** A channel's byte when its difference is non-zero, nothing otherwise. */
  function Present(v: int, c: byte): (s: seq<byte>)
  {
    if v != 0 then [c] else []
  }

  /** The literal chunk: the presence mask, then the changed channels in r, g, b, a order. */
  function LiteralChunk(px: Pixel, vr: int, vg: int, vb: int, va: int): seq<byte>
  {
    [LiteralMask(vr, vg, vb, va)]
      + Present(vr, px.r) + Present(vg, px.g) + Present(vb, px.b) + Present(va, px.a)
  }

  /** `QOI_DIFF_8`: three 2-bit deltas biased by 2 below the tag bits `10`. */
  function Diff8Chunk(vr: int, vg: int, vb: int): seq<byte>
    requires -2 <= vr < 2 && -2 <= vg < 2 && -2 <= vb < 2
  {
    [QOI_DIFF_8 + 16 * (vr + 2) + 4 * (vg + 2) + (vb + 2)]
  }

  /** `QOI_DIFF_16`: a 5-bit red delta biased by 16, then 4-bit green and blue deltas biased by 8. */
  function Diff16Chunk(vr: int, vg: int, vb: int): seq<byte>
    requires -16 <= vr < 16 && -8 <= vg < 8 && -8 <= vb < 8
  {
    [QOI_DIFF_16 + (vr + 16), 16 * (vg + 8) + (vb + 8)]
  }

  /**
   * `QOI_DIFF_24`: four 5-bit deltas biased by 16 over three bytes: red's top
   * four bits, then red's low bit, green and blue's top two bits, then blue's
   * low three bits and alpha.
   */
  function Diff24Chunk(vr: int, vg: int, vb: int, va: int): seq<byte>
    requires -16 <= vr < 16 && -16 <= vg < 16 && -16 <= vb < 16 && -16 <= va < 16
  {
    var r, g, b, a := vr + 16, vg + 16, vb + 16, va + 16;
    [QOI_DIFF_24 + r / 2, 128 * (r % 2) + 4 * g + b / 8, 32 * (b % 8) + a]
  }

  lemma Diff8High(dr: nat, dg: nat, x: nat)
    requires dr < 4 && dg < 4 && x == Shl(dg, 2)
    ensures Or(Shl(dr, 4), x) == 16 * dr + x && x == 4 * dg
  {
    ShiftLeft(dg, 2, 4);
    OrShl(dr, x, 4, 16);
  }

  lemma Diff8Low(x: nat, db: nat, v: nat)
    requires x % 4 == 0 && db < 4 && v == x + db
    ensures Or(x, db) == v
  {
    OrLow(x, db, 2, 4);
  }

  /** `qoi.go`'s `QOI_DIFF_8 | (vr+2)<<4 | (vg+2)<<2 | (vb+2)` is the byte of `Diff8Chunk`. */
  lemma Diff8Bits(vr: int, vg: int, vb: int)
    requires -2 <= vr < 2 && -2 <= vg < 2 && -2 <= vb < 2
    ensures Diff8Chunk(vr, vg, vb) == [Or8(QOI_DIFF_8, Trunc(Or(Or(Shl(vr + 2, 4), Shl(vg + 2, 2)), vb + 2)))]
  {
    var dr, dg, db := vr + 2, vg + 2, vb + 2;
    var x := Or(Shl(dr, 4), Shl(dg, 2));
    Diff8High(dr, dg, Shl(dg, 2));
    Multiple(4 * dr + dg, 4);
    Diff8Low(x, db, 16 * dr + 4 * dg + db);
    Tagged(QOI_DIFF_8, 16 * dr + 4 * dg + db, 6, 64);
  }

  lemma Diff16Low(dg: nat, db: nat, v: nat)
    requires dg < 16 && db < 16 && v == Or(Shl(dg, 4), db)
    ensures Trunc(v) == 16 * dg + db
  {
    OrShl(dg, db, 4, 16);
  }

  lemma Diff16Pair(vr: int, vg: int, vb: int, hi: byte, lo: byte)
    requires -16 <= vr < 16 && -8 <= vg < 8 && -8 <= vb < 8
    requires hi == QOI_DIFF_16 + (vr + 16) && lo == 16 * (vg + 8) + (vb + 8)
    ensures Diff16Chunk(vr, vg, vb) == [hi, lo]
  {
  }

  /** `qoi.go`'s two `QOI_DIFF_16` bytes are those of `Diff16Chunk`. */
  lemma Diff16Bits(vr: int, vg: int, vb: int)
    requires -16 <= vr < 16 && -8 <= vg < 8 && -8 <= vb < 8
    ensures Diff16Chunk(vr, vg, vb) == [Or8(QOI_DIFF_16, Trunc(vr + 16)), Trunc(Or(Shl(vg + 8, 4), vb + 8))]
  {
    Tagged(QOI_DIFF_16, vr + 16, 5, 32);
    Diff16Low(vg + 8, vb + 8, Or(Shl(vg + 8, 4), vb + 8));
    Diff16Pair(vr, vg, vb, Or8(QOI_DIFF_16, Trunc(vr + 16)), Trunc(Or(Shl(vg + 8, 4), vb + 8)));
  }

  lemma Diff24First(r: nat)
    requires r < 32
    ensures Or8(QOI_DIFF_24, Trunc(Shr(r, 1))) == QOI_DIFF_24 + r / 2
  {
    ShrExact(r, 1, 2, r / 2, r % 2);
    Tagged(QOI_DIFF_24, r / 2, 4, 16);
  }

  lemma Diff24Mid(r: nat, g: nat, x: nat)
    requires r < 32 && g < 32 && x == Shl(g, 2)
    ensures Or(Shl(r, 7), x) == 128 * r + 4 * g
  {
    ShiftLeft(g, 2, 4);
    OrShl(r, x, 7, 128);
  }

  lemma Diff24Join(x: nat, r: nat, g: nat, b: nat, y: nat)
    requires r < 32 && g < 32 && b < 32 && x == 128 * r + 4 * g && y == Shr(b, 3)
    ensures Trunc(Or(x, y)) == 128 * (r % 2) + 4 * g + b / 8
  {
    ShrExact(b, 3, 8, b / 8, b % 8);
    Multiple(32 * r + g, 4);
    OrLow(x, y, 2, 4);
    DivModUnique(x + y, 256, r / 2, 128 * (r % 2) + 4 * g + b / 8);
  }

  lemma Diff24Second(r: nat, g: nat, b: nat)
    requires r < 32 && g < 32 && b < 32
    ensures Trunc(Or(Or(Shl(r, 7), Shl(g, 2)), Shr(b, 3))) == 128 * (r % 2) + 4 * g + b / 8
  {
    Diff24Mid(r, g, Shl(g, 2));
    Diff24Join(Or(Shl(r, 7), Shl(g, 2)), r, g, b, Shr(b, 3));
  }

  lemma Diff24Third(b: nat, a: nat)
    requires b < 32 && a < 32
    ensures Trunc(Or(Shl(b, 5), a)) == 32 * (b % 8) + a
  {
    OrShl(b, a, 5, 32);
    DivModUnique(32 * b + a, 256, b / 8, 32 * (b % 8) + a);
  }

  lemma Diff24Triple(vr: int, vg: int, vb: int, va: int, b1: byte, b2: byte, b3: byte)
    requires -16 <= vr < 16 && -16 <= vg < 16 && -16 <= vb < 16 && -16 <= va < 16
    requires b1 == QOI_DIFF_24 + (vr + 16) / 2
    requires b2 == 128 * ((vr + 16) % 2) + 4 * (vg + 16) + (vb + 16) / 8
    requires b3 == 32 * ((vb + 16) % 8) + (va + 16)
    ensures Diff24Chunk(vr, vg, vb, va) == [b1, b2, b3]
  {
  }

  /** `qoi.go`'s three `QOI_DIFF_24` bytes are those of `Diff24Chunk`. */
  lemma Diff24Bits(vr: int, vg: int, vb: int, va: int)
    requires -16 <= vr < 16 && -16 <= vg < 16 && -16 <= vb < 16 && -16 <= va < 16
    ensures Diff24Chunk(vr, vg, vb, va)
         == [Or8(QOI_DIFF_24, Trunc(Shr(vr + 16, 1))),
             Trunc(Or(Or(Shl(vr + 16, 7), Shl(vg + 16, 2)), Shr(vb + 16, 3))),
             Trunc(Or(Shl(vb + 16, 5), va + 16))]
  {
    Diff24First(vr + 16);
    Diff24Second(vr + 16, vg + 16, vb + 16);
    Diff24Third(vb + 16, va + 16);
    Diff24Triple(vr, vg, vb, va, Or8(QOI_DIFF_24, Trunc(Shr(vr + 16, 1))),
                 Trunc(Or(Or(Shl(vr + 16, 7), Shl(vg + 16, 2)), Shr(vb + 16, 3))),
                 Trunc(Or(Shl(vb + 16, 5), va + 16)));
  }

  /** The smallest delta tier whose ranges hold the four channel differences. */
  function DeltaChunk(vr: int, vg: int, vb: int, va: int): seq<byte>
    requires -16 <= vr < 16 && -16 <= vg < 16 && -16 <= vb < 16 && -16 <= va < 16
  {
    if va == 0 && vr > -3 && vr < 2 && vg > -3 && vg < 2 && vb > -3 && vb < 2 then
      Diff8Chunk(vr, vg, vb)
    else if va == 0 && vr > -17 && vr < 16 && vg > -9 && vg < 8 && vb > -9 && vb < 8 then
      Diff16Chunk(vr, vg, vb)
    else
      Diff24Chunk(vr, vg, vb, va)
  }

  /**
   * The chunk for a pixel that differs from the previous one and missed the
   * cache: a delta chunk when every channel difference (a plain integer
   * difference, no wrap-around) is in -16..15, else a literal.
   */
  function DiffChunk(prev: Pixel, px: Pixel): seq<byte>
  {
    var vr := px.r - prev.r;
    var vg := px.g - prev.g;
    var vb := px.b - prev.b;
    var va := px.a - prev.a;
    if vr > -17 && vr < 16 && vg > -17 && vg < 16 && vb > -17 && vb < 16 && va > -17 && va < 16 then
      DeltaChunk(vr, vg, vb, va)
    else
      LiteralChunk(px, vr, vg, vb, va)
  }

  /**
   * The chunk for a pixel that differs from the one before it: an index
   * chunk when the pixel's cache slot already holds it, else a difference or
   * literal chunk.
   */
  function PixelChunk(cache: seq<Pixel>, prev: Pixel, px: Pixel): seq<byte>
    requires |cache| == CACHE_SIZE
  {
    if cache[Slot(px)] == px then [Or8(QOI_INDEX, Slot(px))] else DiffChunk(prev, px)
  }

  /** One iteration of the pixel walk for pixel `px`; `last` says it is the image's final pixel. */
  function EncodeStep(st: EncState, px: Pixel, last: bool): (s: Step)
    requires ValidState(st)
    ensures ValidState(s.next) && s.next.prev == px
    ensures last ==> s.next.run == 0
    ensures px != st.prev ==> s.next.run == 0 && s.flush == (if st.run > 0 then RunChunk(st.run) else [])
    ensures px == st.prev && st.run + 1 < MAX_RUN && !last ==> s.flush == [] && s.chunk == [] && s.next.run == st.run + 1
    ensures px == st.prev && (st.run + 1 == MAX_RUN || last) ==> s.flush == RunChunk(st.run + 1) && s.chunk == [] && s.next.run == 0
    ensures px == st.prev ==> s.next.cache == st.cache
    ensures px != st.prev && st.cache[Slot(px)] == px ==> s.chunk == [Or8(QOI_INDEX, Slot(px))] && s.next.cache == st.cache
    ensures px != st.prev && st.cache[Slot(px)] != px ==> s.chunk == DiffChunk(st.prev, px) && s.next.cache == st.cache[Slot(px) := px]
  {
    var run := if px == st.prev then st.run + 1 else st.run;
    var flushed := run > 0 && (run == MAX_RUN || px != st.prev || last);
    var flush := if flushed then RunChunk(run) else [];
    var run' := if flushed then 0 else run;
    if px != st.prev then
      Step(flush, PixelChunk(st.cache, st.prev, px), EncState(px, run', st.cache[Slot(px) := px]))
    else
      Step(flush, [], EncState(px, run', st.cache))
  }

  /**
   * The delta tiers in priority order: one byte when alpha is unchanged and
   * r, g, b moved by -2..1, else two bytes when alpha is unchanged, red moved
   * by -16..15 and green and blue by -8..7, else three bytes.  The first byte
   * carries the tier's tag bits (`10`, `110`, `1110`).
   */
  lemma DeltaTiers(vr: int, vg: int, vb: int, va: int)
    requires -16 <= vr < 16 && -16 <= vg < 16 && -16 <= vb < 16 && -16 <= va < 16
    ensures var c := DeltaChunk(vr, vg, vb, va);
      var small := va == 0 && -2 <= vr < 2 && -2 <= vg < 2 && -2 <= vb < 2;
      var medium := va == 0 && -8 <= vg < 8 && -8 <= vb < 8;
      (|c| == 1 <==> small) && (|c| == 2 <==> !small && medium) && (|c| == 3 <==> !small && !medium) &&
      (|c| == 1 ==> QOI_DIFF_8 <= c[0] < QOI_DIFF_16) &&
      (|c| == 2 ==> QOI_DIFF_16 <= c[0] < QOI_DIFF_24) &&
      (|c| == 3 ==> QOI_DIFF_24 <= c[0] < QOI_COLOR)
  {
  }

  /**
   * A literal for a pixel that differs from the previous one sets at least
   * one flag, so its tag is above `QOI_COLOR` and at least one channel byte
   * follows; it is never longer than five bytes.
   */
  lemma LiteralShape(prev: Pixel, px: Pixel)
    requires px != prev
    ensures var c := LiteralChunk(px, px.r - prev.r, px.g - prev.g, px.b - prev.b, px.a - prev.a);
      2 <= |c| <= 5 && QOI_COLOR < c[0]
  {
  }

  /**
   * A chunk for a changed pixel never starts with an index tag unless it is
   * one: difference and literal chunks start at `QOI_DIFF_8` or above.
   */
  lemma DiffChunkTag(prev: Pixel, px: Pixel)
    requires px != prev
    ensures |DiffChunk(prev, px)| >= 1 && DiffChunk(prev, px)[0] >= QOI_DIFF_8
  {
    var vr, vg, vb, va := px.r - prev.r, px.g - prev.g, px.b - prev.b, px.a - prev.a;
    if -16 <= vr < 16 && -16 <= vg < 16 && -16 <= vb < 16 && -16 <= va < 16 {
      DeltaTiers(vr, vg, vb, va);
    } else {
      LiteralShape(prev, px);
    }
  }

  /**
   * Cache-hit priority: for a changed pixel whose slot already holds it,
   * the chunk is the single byte naming the slot and the cache is unchanged;
   * on a miss the pixel is stored at its slot and no other slot changes, and
   * the chunk is not an index chunk.
   */
  lemma CacheStep(st: EncState, px: Pixel, last: bool)
    requires ValidState(st) && px != st.prev
    ensures var s := EncodeStep(st, px, last);
      (st.cache[Slot(px)] == px <==> s.chunk == [Slot(px)]) &&
      (st.cache[Slot(px)] == px ==> s.next.cache == st.cache) &&
      s.next.cache[Slot(px)] == px &&
      forall j :: 0 <= j < CACHE_SIZE && j != Slot(px) ==> s.next.cache[j] == st.cache[j]
  {
    assert Or8(QOI_INDEX, Slot(px)) == Slot(px);
    if st.cache[Slot(px)] != px {
      DiffChunkTag(st.prev, px);
    }
  }

  /** The chunk stream for `pixels[i..]`, starting from encoder state `st`. */
  function EncodeFrom(st: EncState, pixels: seq<Pixel>, i: nat): seq<byte>
    requires ValidState(st) && i <= |pixels|
    decreases |pixels| - i, 2
  {
    if i == |pixels| then [] else EmitFrom(st, pixels, i)
  }

  /**
   * The stream from pixel `i` on, for `i < |pixels|`.  It is a separate layer
   * of the recursion so that unfolding `EncodeFrom` twice does not yet expose
   * the step (and every chunk function under it) to the solver.
   */
  function EmitFrom(st: EncState, pixels: seq<Pixel>, i: nat): seq<byte>
    requires ValidState(st) && i < |pixels|
    decreases |pixels| - i, 1
  {
    EmitStep(st, pixels, i)
  }

  /** The bytes pixel `i` emits, then the stream for the pixels after it. */
  function EmitStep(st: EncState, pixels: seq<Pixel>, i: nat): seq<byte>
    requires ValidState(st) && i < |pixels|
    decreases |pixels| - i, 0
  {
    var s := EncodeStep(st, pixels[i], i == |pixels| - 1);
    s.flush + s.chunk + EncodeFrom(s.next, pixels, i + 1)
  }

  /** One step of the chunk stream. */
  lemma EncodeFromStep(st: EncState, pixels: seq<Pixel>, i: nat)
    requires ValidState(st) && i < |pixels|
    ensures var s := EncodeStep(st, pixels[i], i == |pixels| - 1);
      EncodeFrom(st, pixels, i) == s.flush + s.chunk + EncodeFrom(s.next, pixels, i + 1)
  {
    assert EncodeFrom(st, pixels, i) == EmitFrom(st, pixels, i) == EmitStep(st, pixels, i);
  }

  /** A first pixel of `(10,20,30,255)` misses the empty cache and is too far from the seed for a delta chunk. */
  lemma FirstLiteral(p: Pixel)
    requires p == Pixel(10, 20, 30, 255)
    ensures EncodeStep(START, p, false) == Step([], [0xFE, 10, 20, 30], EncState(p, 0, START.cache[Slot(p) := p]))
  {
    assert START.cache[Slot(p)] == BLANK;
    assert DiffChunk(SEED, p) == LiteralChunk(p, 10, 20, 30, 0);
  }

  /** Repeating the previous pixel as the last one flushes a run of one. */
  lemma LastRepeat(st: EncState, p: Pixel)
    requires ValidState(st) && st.prev == p && st.run == 0
    ensures EncodeStep(st, p, true) == Step([0x40], [], st)
  {
    ShortRunBits(1);
  }

  /** The stream of a two-pixel image is the bytes of its two steps. */
  lemma TwoSteps(st: EncState, pixels: seq<Pixel>)
    requires ValidState(st) && |pixels| == 2
    ensures var s1 := EncodeStep(st, pixels[0], false);
      var s2 := EncodeStep(s1.next, pixels[1], true);
      EncodeFrom(st, pixels, 0) == s1.flush + s1.chunk + s2.flush + s2.chunk
  {
    var s1 := EncodeStep(st, pixels[0], false);
    var s2 := EncodeStep(s1.next, pixels[1], true);
    EncodeFromStep(st, pixels, 0);
    EncodeFromStep(s1.next, pixels, 1);
    EncodeFromEnd(s2.next, pixels);
    Concat4(EncodeFrom(st, pixels, 0), EncodeFrom(s1.next, pixels, 1), s1.flush, s1.chunk, s2.flush, s2.chunk,
            EncodeFrom(s2.next, pixels, 2));
  }

  /** Past the last pixel the stream is empty. */
  lemma EncodeFromEnd(st: EncState, pixels: seq<Pixel>)
    requires ValidState(st)
    ensures EncodeFrom(st, pixels, |pixels|) == []
  {
  }

  /** Joins two stream unfoldings whose last tail is empty. */
  lemma Concat4(whole: seq<byte>, tail: seq<byte>, a: seq<byte>, b: seq<byte>, c: seq<byte>, d: seq<byte>, e: seq<byte>)
    requires whole == a + b + tail && tail == c + d + e && e == []
    ensures whole == a + b + c + d
  {
    assert tail == c + d;
  }

  /**
   * Two equal pixels that differ from the starting pixel `(0,0,0,255)`: the
   * first misses the empty cache and is too far off for a delta chunk, so it
   * is a literal with the r, g and b flags; the second is a run of one,
   * flushed because it is the last pixel.
   */
  lemma TwoEqualPixels(p: Pixel, pixels: seq<Pixel>)
    requires p == Pixel(10, 20, 30, 255) && pixels == [p, p]
    ensures EncodeFrom(START, pixels, 0) == [0xFE, 10, 20, 30, 0x40]
  {
    TwoSteps(START, pixels);
    FirstLiteral(p);
    LastRepeat(EncodeStep(START, p, false).next, p);
  }

  /** `uint32(0)` written after the chunks. */
  const PADDING: seq<byte> := [0, 0, 0, 0]

  /** The whole output of `Encode`: header, chunks, padding. */
  function EncodeImage(img: Image): (out: seq<byte>)
    ensures |out| >= HEADER_SIZE + |PADDING|
    ensures out[..HEADER_SIZE] == WriteHeader(img.width, img.height)
    ensures out[|out| - |PADDING|..] == PADDING
  {
    WriteHeader(img.width, img.height) + EncodeFrom(START, img.pixels, 0) + PADDING
  }

  /** The index of the first pixel of row `y` in row-major order (`y * w`, one row at a time). */
  function RowStart(y: nat, w: nat): nat
  {
    if y == 0 then 0 else RowStart(y - 1, w) + w
  }

  lemma {:induction false} RowStartMul(y: nat, w: nat)
    ensures RowStart(y, w) == y * w
  {
    if y > 0 {
      RowStartMul(y - 1, w);
      assert y * w == (y - 1) * w + w;
    }
  }

  /** The pixels, counted row by row. */
  lemma PixelCount(img: Image)
    ensures |img.pixels| == RowStart(img.height, img.width)
  {
    RowStartMul(img.height, img.width);
  }

  /** Where pixel (x, y) sits in row-major order, and when it is the last one. */
  lemma RowMajor(x: nat, y: nat, w: nat, h: nat)
    requires x < w && y < h
    ensures RowStart(y, w) + x < RowStart(h, w)
    ensures RowStart(y, w) + x == RowStart(h, w) - 1 <==> x == w - 1 && y == h - 1
  {
    RowStartMul(y, w);
    RowStartMul(h, w);
    MulLe(y + 1, h, w);
    assert (y + 1) * w == y * w + w;
    if y + 2 <= h {
      MulLe(y + 2, h, w);
      assert (y + 2) * w == y * w + 2 * w;
    } else {
      assert h * w == y * w + w;
    }
  }

  /** Rows above row `h` hold at most the image's pixels. */
  lemma RowsBound(y: nat, w: nat, h: nat)
    requires y <= h
    ensures RowStart(y, w) <= RowStart(h, w)
  {
    RowStartMul(y, w);
    RowStartMul(h, w);
    MulLe(y, h, w);
  }

  /** `m.At(x, y)` on an image whose bounds start at the origin. */
  function At(img: Image, x: nat, y: nat): (p: Pixel)
    requires x < img.width && y < img.height
  {
    PixelCount(img);
    RowMajor(x, y, img.width, img.height);
    img.pixels[RowStart(y, img.width) + x]
  }

  /** The run chunk `Encode` writes when it flushes a run of `run` repeats. */
  method EmitRun(run: nat) returns (out: seq<byte>)
    requires 1 <= run <= MAX_RUN
    ensures out == RunChunk(run)
  {
    var r := run;
    if r < 33 {
      out := [Or8(QOI_RUN_8, Trunc(r - 1))];
      ShortRunBits(run);
    } else {
      r := r - 33;
      out := [Or8(QOI_RUN_16, Trunc(Shr(r, 8)))];
      out := out + [Trunc(And(r, 0xff))];
      LongRunBits(run);
    }
  }

  /** Setting a clear bit adds it. */
  lemma SetBit(m: byte, bit: nat, k: nat)
    requires bit == Pow2(k) && m % (2 * bit) == 0 && m + bit < 256
    ensures Or8(m, bit) == m + bit
  {
    OrLow(m, bit, k + 1, 2 * bit);
  }

  /** `mask |= bit` when the channel changed (`bit` is `1 << k`, clear in `mask`). */
  method SetFlag(mask: byte, v: int, bit: nat, k: nat) returns (mask': byte)
    requires bit == Pow2(k) && mask % (2 * bit) == 0 && mask + bit < 256
    ensures mask' == mask + Flag(v, bit)
  {
    mask' := mask;
    if v != 0 {
      SetBit(mask, bit, k);
      mask' := Or8(mask, bit);
    }
  }

  /** The literal chunk `Encode` writes: the presence mask, then the changed channels. */
  method EmitLiteral(px: Pixel, vr: int, vg: int, vb: int, va: int) returns (out: seq<byte>)
    ensures out == LiteralChunk(px, vr, vg, vb, va)
  {
    var mask := QOI_COLOR;
    mask := SetFlag(mask, vr, 8, 3);
    mask := SetFlag(mask, vg, 4, 2);
    mask := SetFlag(mask, vb, 2, 1);
    mask := SetFlag(mask, va, 1, 0);
    assert mask == LiteralMask(vr, vg, vb, va);
    out := [mask];
    if vr != 0 {
      out := out + [px.r];
    }
    assert out == [mask] + Present(vr, px.r);
    if vg != 0 {
      out := out + [px.g];
    }
    assert out == [mask] + Present(vr, px.r) + Present(vg, px.g);
    if vb != 0 {
      out := out + [px.b];
    }
    assert out == [mask] + Present(vr, px.r) + Present(vg, px.g) + Present(vb, px.b);
    if va != 0 {
      out := out + [px.a];
    }
  }

  /** The delta chunk `Encode` writes, byte by byte. */
  method EmitDelta(vr: int, vg: int, vb: int, va: int) returns (out: seq<byte>)
    requires -16 <= vr < 16 && -16 <= vg < 16 && -16 <= vb < 16 && -16 <= va < 16
    ensures out == DeltaChunk(vr, vg, vb, va)
  {
    out := [];
    if va == 0 && vr > -3 && vr < 2 && vg > -3 && vg < 2 && vb > -3 && vb < 2 {
      out := out + [Or8(QOI_DIFF_8, Trunc(Or(Or(Shl(vr + 2, 4), Shl(vg + 2, 2)), vb + 2)))];
      Diff8Bits(vr, vg, vb);
    } else if va == 0 && vr > -17 && vr < 16 && vg > -9 && vg < 8 && vb > -9 && vb < 8 {
      out := out + [Or8(QOI_DIFF_16, Trunc(vr + 16))];
      out := out + [Trunc(Or(Shl(vg + 8, 4), vb + 8))];
      Diff16Bits(vr, vg, vb);
    } else {
      out := out + [Or8(QOI_DIFF_24, Trunc(Shr(vr + 16, 1)))];
      out := out + [Trunc(Or(Or(Shl(vr + 16, 7), Shl(vg + 16, 2)), Shr(vb + 16, 3)))];
      out := out + [Trunc(Or(Shl(vb + 16, 5), va + 16))];
      Diff24Bits(vr, vg, vb, va);
    }
  }

  /**
   * The body of `Encode`'s pixel loop: counts `px` into the run, flushes the
   * run when due, then emits an index, delta or literal chunk for a changed
   * pixel, updating the cache array in place on a miss.
   */
  method EncodePixel(index: array<Pixel>, prev: Pixel, run: nat, px: Pixel, last: bool,
                     ghost pixels: seq<Pixel>, ghost i: nat)
    returns (out: seq<byte>, run': nat)
    requires index.Length == CACHE_SIZE && run < MAX_RUN
    requires i < |pixels| && pixels[i] == px && last == (i == |pixels| - 1)
    modifies index
    ensures run' < MAX_RUN
    ensures var s := EncodeStep(EncState(prev, run, old(index[..])), px, last);
      out == s.flush + s.chunk && run' == s.next.run && index[..] == s.next.cache
    ensures out + EncodeFrom(EncState(px, run', index[..]), pixels, i + 1)
         == EncodeFrom(EncState(prev, run, old(index[..])), pixels, i)
  {
    ghost var s := EncodeStep(EncState(prev, run, index[..]), px, last);
    EncodeFromStep(EncState(prev, run, index[..]), pixels, i);
    out := [];
    run' := run;
    if px == prev {
      run' := run' + 1;
    }
    if run' > 0 && (run' == MAX_RUN || px != prev || last) {
      out := EmitRun(run');
      run' := 0;
    }
    assert out == s.flush;
    if px != prev {
      var pos := Slot(px);
      if index[pos] == px {
        out := out + [Or8(QOI_INDEX, pos)];
        assert index[..] == old(index[..])[pos := px];
      } else {
        index[pos] := px;
        var vr := px.r - prev.r;
        var vg := px.g - prev.g;
        var vb := px.b - prev.b;
        var va := px.a - prev.a;
        var chunk;
        if vr > -17 && vr < 16 && vg > -17 && vg < 16 && vb > -17 && vb < 16 && va > -17 && va < 16 {
          chunk := EmitDelta(vr, vg, vb, va);
        } else {
          chunk := EmitLiteral(px, vr, vg, vb, va);
        }
        assert chunk == DiffChunk(prev, px);
        out := out + chunk;
      }
    }
    assert out == s.flush + s.chunk && EncState(px, run', index[..]) == s.next;
  }

  lemma Reassociate(done: seq<byte>, step: seq<byte>, after: seq<byte>, before: seq<byte>, whole: seq<byte>)
    requires step + after == before && done + before == whole
    ensures (done + step) + after == whole
  {
  }

  /**
   * The encoder state after the pixel steps for `pixels[i..j]`, starting
   * from `st`: the last of those pixels is the previous one.
   */
  function StateAt(st: EncState, pixels: seq<Pixel>, i: nat, j: nat): (s: EncState)
    requires ValidState(st) && i <= j <= |pixels|
    ensures ValidState(s) && (i < j ==> s.prev == pixels[j - 1])
    decreases j - i, 2
  {
    if j == i then st else StateFrom(st, pixels, i, j)
  }

  function StateFrom(st: EncState, pixels: seq<Pixel>, i: nat, j: nat): (s: EncState)
    requires ValidState(st) && i < j <= |pixels|
    ensures ValidState(s) && s.prev == pixels[j - 1]
    decreases j - i, 1
  {
    StateStep(st, pixels, i, j)
  }

  function StateStep(st: EncState, pixels: seq<Pixel>, i: nat, j: nat): (s: EncState)
    requires ValidState(st) && i < j <= |pixels|
    ensures ValidState(s) && s.prev == pixels[j - 1]
    decreases j - i, 0
  {
    EncodeStep(StateAt(st, pixels, i, j - 1), pixels[j - 1], j - 1 == |pixels| - 1).next
  }

  /** One more pixel step extends the state fold. */
  lemma StateAtStep(st: EncState, pixels: seq<Pixel>, i: nat, j: nat)
    requires ValidState(st) && i <= j < |pixels|
    ensures StateAt(st, pixels, i, j + 1) == EncodeStep(StateAt(st, pixels, i, j), pixels[j], j == |pixels| - 1).next
  {
    assert StateAt(st, pixels, i, j + 1) == StateFrom(st, pixels, i, j + 1) == StateStep(st, pixels, i, j + 1);
  }

  /**
   * The inner loop of `Encode`: the pixels of row `y`, from the state left by
   * the rows above.  `chunks` is what the row appends to the output, and the
   * state after it is that of the row's pixel steps.
   */
  method EncodeRow(img: Image, y: nat, index: array<Pixel>, prev0: Pixel, run0: nat)
    returns (chunks: seq<byte>, prev: Pixel, run: nat)
    requires y < img.height && index.Length == CACHE_SIZE && run0 < MAX_RUN
    modifies index
    ensures run < MAX_RUN && RowStart(y + 1, img.width) <= |img.pixels| && RowStart(y, img.width) <= RowStart(y + 1, img.width)
    ensures EncState(prev, run, index[..])
         == StateAt(EncState(prev0, run0, old(index[..])), img.pixels, RowStart(y, img.width), RowStart(y + 1, img.width))
    ensures chunks + EncodeFrom(EncState(prev, run, index[..]), img.pixels, RowStart(y + 1, img.width))
         == EncodeFrom(EncState(prev0, run0, old(index[..])), img.pixels, RowStart(y, img.width))
  {
    var w, h := img.width, img.height;
    PixelCount(img);
    RowsBound(y + 1, w, h);
    RowsBound(y, w, y + 1);
    ghost var whole := EncodeFrom(EncState(prev0, run0, index[..]), img.pixels, RowStart(y, w));
    ghost var i := RowStart(y, w);
    ghost var st0 := EncState(prev0, run0, index[..]);
    chunks, prev, run := [], prev0, run0;
    for x := 0 to w
      invariant run < MAX_RUN
      invariant i == RowStart(y, w) + x && i <= |img.pixels|
      invariant chunks + EncodeFrom(EncState(prev, run, index[..]), img.pixels, i) == whole
      invariant EncState(prev, run, index[..]) == StateAt(st0, img.pixels, RowStart(y, w), i)
    {
      RowMajor(x, y, w, h);
      var px := At(img, x, y);
      ghost var before := EncodeFrom(EncState(prev, run, index[..]), img.pixels, i);
      var bytes;
      bytes, run := EncodePixel(index, prev, run, px, x == w - 1 && y == h - 1, img.pixels, i);
      ghost var after := EncodeFrom(EncState(px, run, index[..]), img.pixels, i + 1);
      Reassociate(chunks, bytes, after, before, whole);
      StateAtStep(st0, img.pixels, RowStart(y, w), i);
      chunks := chunks + bytes;
      prev := px;
      i := i + 1;
    }
  }

  /** `byte(v >> k)`, where `p` is `2^k`. */
  method ShiftedByte(v: nat, k: nat, p: nat) returns (b: byte)
    requires p == Pow2(k)
    ensures b == (v / p) % 256
  {
    b := Trunc(Shr(v, k));
    ShrDiv(v, k);
  }

  lemma Pow2Bytes()
    ensures Pow2(8) == 0x100 && Pow2(16) == 0x1_0000 && Pow2(24) == 0x100_0000
  {
    assert Pow2(4) == 16;
    assert Pow2(8) == 0x100;
    assert Pow2(16) == 0x1_0000;
  }

  /** `binary.Write` of a `uint32` in big-endian order: `byte(v >> 24)`, `byte(v >> 16)`, `byte(v >> 8)`, `byte(v)`. */
  method PutUint32(v: nat) returns (out: seq<byte>)
    requires v < U32_RANGE
    ensures out == BigEndian32(v)
  {
    Pow2Bytes();
    var b0 := ShiftedByte(v, 24, 0x100_0000);
    var b1 := ShiftedByte(v, 16, 0x1_0000);
    var b2 := ShiftedByte(v, 8, 0x100);
    out := [b0, b1, b2, Trunc(v)];
  }

  /** The five header writes of `Encode`: the magic, the width and height as `uint32`, the channel and colorspace bytes. */
  method WriteHeaderBytes(w: nat, h: nat) returns (out: seq<byte>)
    ensures out == WriteHeader(w, h)
  {
    out := MAGIC;
    var width := PutUint32(w % U32_RANGE);
    out := out + width;
    var height := PutUint32(h % U32_RANGE);
    out := out + height;
    out := out + [4];
    out := out + [0];
  }

  /** `Encode`: writes the header, walks the pixels row by row, and writes the padding. */
  method Encode(img: Image) returns (out: seq<byte>)
    ensures out == EncodeImage(img)
  {
    var w, h := img.width, img.height;
    PixelCount(img);
    out := WriteHeaderBytes(w, h);
    ghost var whole := out + EncodeFrom(START, img.pixels, 0);

    var index := new Pixel[CACHE_SIZE](_ => BLANK);
    var prev := SEED;
    var run: nat := 0;
    assert index[..] == EmptyCache();

    for y := 0 to h
      invariant index.Length == CACHE_SIZE && run < MAX_RUN
      invariant RowStart(y, w) <= |img.pixels|
      invariant out + EncodeFrom(EncState(prev, run, index[..]), img.pixels, RowStart(y, w)) == whole
    {
      var chunks;
      chunks, prev, run := EncodeRow(img, y, index, prev, run);
      out := out + chunks;
    }
    assert EncodeFrom(EncState(prev, run, index[..]), img.pixels, RowStart(h, w)) == [];
    assert out == whole;
    out := out + PADDING;
  }
}
