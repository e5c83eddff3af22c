/**
 * Losslessness: decoding the encoder's output gives back the image.  The
 * proof runs the two pixel walks side by side: every chunk the encoder
 * emits is decoded to the pixel (or run) it stands for, and the two caches
 * agree on every slot the encoder can hit.
 */
module QoiRoundTrip {
  import opened Bits
  import opened QoiFormat
  import opened QoiHeader
  import opened QoiEncoder
  import opened QoiDecoder

  /** `data` holds `chunk` at `pos`. */
  predicate ChunkAt(data: seq<byte>, pos: nat, chunk: seq<byte>)
  {
    pos + |chunk| <= |data| && data[pos..pos + |chunk|] == chunk
  }

  // ---------------------------------------------------------------------
  // The decoder's switch arm by arm

  lemma ArmRun8(data: seq<byte>, pos: nat, px: Pixel, cache: seq<Pixel>)
    requires pos < |data| && |cache| == CACHE_SIZE && TagRange(data[pos]) == Run8Tag
    ensures DecodeChunk(data, pos, px, cache) == Ok(Chunk(px, And(data[pos], 0x1f), pos + 1))
  {
    ClassifyRanges(data[pos]);
  }

  lemma ArmRun16(data: seq<byte>, pos: nat, px: Pixel, cache: seq<Pixel>)
    requires pos + 1 < |data| && |cache| == CACHE_SIZE && TagRange(data[pos]) == Run16Tag
    ensures DecodeChunk(data, pos, px, cache)
         == Ok(Chunk(px, Or(Shl(And(data[pos], 0x1f), 8), data[pos + 1]) + 32, pos + 2))
  {
    ClassifyRanges(data[pos]);
  }

  lemma ArmIndex(data: seq<byte>, pos: nat, px: Pixel, cache: seq<Pixel>)
    requires pos < |data| && |cache| == CACHE_SIZE && data[pos] < 0x40
    ensures DecodeChunk(data, pos, px, cache) == Ok(Chunk(cache[data[pos]], 0, pos + 1))
  {
    ClassifyRanges(data[pos]);
  }

  lemma ArmDiff8(data: seq<byte>, pos: nat, px: Pixel, cache: seq<Pixel>)
    requires pos < |data| && |cache| == CACHE_SIZE && TagRange(data[pos]) == Diff8Tag
    ensures DecodeChunk(data, pos, px, cache) == Ok(Chunk(Diff8(px, data[pos]), 0, pos + 1))
  {
    ClassifyRanges(data[pos]);
  }

  lemma ArmDiff16(data: seq<byte>, pos: nat, px: Pixel, cache: seq<Pixel>)
    requires pos + 1 < |data| && |cache| == CACHE_SIZE && TagRange(data[pos]) == Diff16Tag
    ensures DecodeChunk(data, pos, px, cache) == Ok(Chunk(Diff16(px, data[pos], data[pos + 1]), 0, pos + 2))
  {
    ClassifyRanges(data[pos]);
  }

  lemma ArmDiff24(data: seq<byte>, pos: nat, px: Pixel, cache: seq<Pixel>)
    requires pos + 2 < |data| && |cache| == CACHE_SIZE && TagRange(data[pos]) == Diff24Tag
    ensures DecodeChunk(data, pos, px, cache)
         == Ok(Chunk(Diff24(px, data[pos], data[pos + 1], data[pos + 2]), 0, pos + 3))
  {
    ClassifyRanges(data[pos]);
  }

  lemma ArmColor(data: seq<byte>, pos: nat, px: Pixel, cache: seq<Pixel>)
    requires pos < |data| && |cache| == CACHE_SIZE && TagRange(data[pos]) == ColorTag
    ensures DecodeChunk(data, pos, px, cache) == ReadColor(data, pos, data[pos], px)
  {
    ClassifyRanges(data[pos]);
  }

  // ---------------------------------------------------------------------
  // Run chunks

  lemma Run8Range(b: byte)
    requires 0x40 <= b < 0x60
    ensures TagRange(b) == Run8Tag && And(b, 0x1f) == b - 0x40
  {
    DivModUnique(b, 32, 2, b - 0x40);
    AndExact(b, 5, 0x1f, b - 0x40);
  }

  lemma Run16Range(b: byte)
    requires 0x60 <= b < 0x80
    ensures TagRange(b) == Run16Tag && And(b, 0x1f) == b - 0x60
  {
    DivModUnique(b, 32, 3, b - 0x60);
    AndExact(b, 5, 0x1f, b - 0x60);
  }

  /** Reassembling the long run's count: `(q << 8 | lo) + 32`, `q` and `lo` being the two bytes of `run - 33`. */
  lemma LongRunCount(run: nat, q: nat, lo: nat)
    requires 33 <= run && q == (run - 33) / 256 && lo == (run - 33) % 256
    ensures Or(Shl(q, 8), lo) + 32 == run - 1
  {
    OrShl(q, lo, 8, 256);
  }

  /** A run chunk announces the pixel again and `run - 1` further repeats. */
  lemma DecodeRunChunk(data: seq<byte>, pos: nat, px: Pixel, cache: seq<Pixel>, run: nat)
    requires 1 <= run <= MAX_RUN && |cache| == CACHE_SIZE && ChunkAt(data, pos, RunChunk(run))
    ensures pos < |data|
    ensures DecodeChunk(data, pos, px, cache) == Ok(Chunk(px, run - 1, pos + |RunChunk(run)|))
  {
    var c := RunChunk(run);
    assert data[pos] == c[0];
    if run < 33 {
      Run8Range(data[pos]);
      ArmRun8(data, pos, px, cache);
    } else {
      assert data[pos + 1] == c[1];
      Run16Range(data[pos]);
      ArmRun16(data, pos, px, cache);
      LongRunCount(run, And(data[pos], 0x1f), data[pos + 1]);
    }
  }

  // ---------------------------------------------------------------------
  // Index chunks

  /** An index chunk names the slot holding the pixel. */
  lemma DecodeIndexChunk(data: seq<byte>, pos: nat, prev: Pixel, px: Pixel, cache: seq<Pixel>)
    requires |cache| == CACHE_SIZE && cache[Slot(px)] == px && ChunkAt(data, pos, [Or8(QOI_INDEX, Slot(px))])
    ensures pos < |data| && DecodeChunk(data, pos, prev, cache) == Ok(Chunk(px, 0, pos + 1))
  {
    assert data[pos] == Or8(QOI_INDEX, Slot(px)) == Slot(px);
    ArmIndex(data, pos, prev, cache);
  }

  // ---------------------------------------------------------------------
  // Difference chunks

  /** Adding the wrapped difference `q - p` back to `p` gives `q` (Go's byte arithmetic). */
  lemma Wrap(p: byte, q: byte)
    ensures Add8(p, Trunc(q - p)) == q
  {
    if q >= p {
      DivModUnique(q - p + 256, 256, 1, q - p);
    } else {
      DivModUnique(q - p + 256, 256, 0, q - p + 256);
      DivModUnique(q + 256, 256, 1, q);
    }
  }

  /** The channel a delta chunk decodes: the stored field minus its bias, added back with wrap-around. */
  lemma Channel(p: byte, q: byte, field: byte, bias: byte)
    requires field == q - p + bias
    ensures Add8(p, Sub8(field, bias)) == q
  {
    Wrap(p, q);
  }

  /** The encoder's three delta tiers, tested in `qoi.go`'s order. */
  predicate Tier8(prev: Pixel, px: Pixel)
  {
    px.a == prev.a && -2 <= px.r - prev.r < 2 && -2 <= px.g - prev.g < 2 && -2 <= px.b - prev.b < 2
  }

  predicate Tier16(prev: Pixel, px: Pixel)
  {
    px.a == prev.a && -16 <= px.r - prev.r < 16 && -8 <= px.g - prev.g < 8 && -8 <= px.b - prev.b < 8
  }

  predicate Tier24(prev: Pixel, px: Pixel)
  {
    -16 <= px.r - prev.r < 16 && -16 <= px.g - prev.g < 16
      && -16 <= px.b - prev.b < 16 && -16 <= px.a - prev.a < 16
  }

  /** The three 2-bit fields of a `QOI_DIFF_8` byte. */
  lemma Diff8Fields(b: nat, dr: nat, dg: nat, db: nat)
    requires dr < 4 && dg < 4 && db < 4 && b == 0x80 + 16 * dr + 4 * dg + db
    ensures And(Shr(b, 4), 3) == dr && And(Shr(b, 2), 3) == dg && And(b, 3) == db
  {
    DivModUnique(8 + dr, 4, 2, dr);
    FieldAt(b, 4, 16, 2, 3, 8 + dr, dr, 4 * dg + db);
    DivModUnique(32 + 4 * dr + dg, 4, 8 + dr, dg);
    FieldAt(b, 2, 4, 2, 3, 32 + 4 * dr + dg, dg, db);
    DivModUnique(b, 4, 32 + 4 * dr + dg, db);
    FieldAt(b, 0, 1, 2, 3, b, db, 0);
  }

  /** The decoder's `QOI_DIFF_8` arm inverts the encoder's packing. */
  lemma Diff8Inverse(prev: Pixel, px: Pixel, b: byte)
    requires Tier8(prev, px)
    requires [b] == Diff8Chunk(px.r - prev.r, px.g - prev.g, px.b - prev.b)
    ensures TagRange(b) == Diff8Tag && Diff8(prev, b) == px
  {
    var dr, dg, db := px.r - prev.r + 2, px.g - prev.g + 2, px.b - prev.b + 2;
    assert b == 0x80 + 16 * dr + 4 * dg + db;
    Diff8Fields(b, dr, dg, db);
    Channel(prev.r, px.r, And(Shr(b, 4), 3), 2);
    Channel(prev.g, px.g, And(Shr(b, 2), 3), 2);
    Channel(prev.b, px.b, And(b, 3), 2);
  }

  /** The three fields of a `QOI_DIFF_16` chunk. */
  lemma Diff16Fields(b1: nat, b2: nat, dr: nat, dg: nat, db: nat)
    requires dr < 32 && dg < 16 && db < 16 && b1 == 0xC0 + dr && b2 == 16 * dg + db
    ensures And(b1, 0x1f) == dr && Shr(b2, 4) == dg && And(b2, 0x0f) == db
  {
    DivModUnique(b1, 32, 6, dr);
    AndExact(b1, 5, 0x1f, dr);
    ShrExact(b2, 4, 16, dg, db);
    DivModUnique(b2, 16, dg, db);
    AndExact(b2, 4, 0x0f, db);
  }

  lemma Diff16Inverse(prev: Pixel, px: Pixel, b1: byte, b2: byte)
    requires Tier16(prev, px)
    requires [b1, b2] == Diff16Chunk(px.r - prev.r, px.g - prev.g, px.b - prev.b)
    ensures TagRange(b1) == Diff16Tag && Diff16(prev, b1, b2) == px
  {
    var dr, dg, db := px.r - prev.r + 16, px.g - prev.g + 8, px.b - prev.b + 8;
    assert b1 == 0xC0 + dr && b2 == 16 * dg + db;
    Diff16Fields(b1, b2, dr, dg, db);
    Channel(prev.r, px.r, And(b1, 0x1f), 16);
    Channel(prev.g, px.g, Shr(b2, 4), 8);
    Channel(prev.b, px.b, And(b2, 0x0f), 8);
  }

  /** Red of a `QOI_DIFF_24` chunk: four bits of the first byte and the top bit of the second. */
  lemma Diff24RedHigh(b1: nat, r: nat, x: nat)
    requires r < 32 && b1 == 0xE0 + r / 2 && x == And(b1, 0x0f)
    ensures x == r / 2 && Shl8(x, 1) == Shl(x, 1) == 2 * x
  {
    DivModUnique(b1, 16, 14, r / 2);
    AndExact(b1, 4, 0x0f, r / 2);
    ShiftLeft(x, 1, 2);
  }

  lemma Diff24Red(b1: byte, b2: byte, r: nat, g: nat, b: nat)
    requires r < 32 && g < 32 && b < 32
    requires b1 == 0xE0 + r / 2 && b2 == 128 * (r % 2) + 4 * g + b / 8
    ensures Or8(Shl8(And(b1, 0x0f), 1), Shr(b2, 7)) == r
  {
    var x := And(b1, 0x0f);
    Diff24RedHigh(b1, r, x);
    ShrExact(b2, 7, 128, r % 2, 4 * g + b / 8);
    OrShl(x, r % 2, 1, 2);
  }

  lemma Diff24GreenMask(b2: nat, r: nat, g: nat, b: nat)
    requires r < 32 && g < 32 && b < 32 && b2 == 128 * (r % 2) + 4 * g + b / 8
    ensures And(b2, 0x7c) == Shl(g, 2)
  {
    ShiftedMask(b2, 31, 2, 0x7c);
    DivModUnique(32 * (r % 2) + g, 32, r % 2, g);
    FieldAt(b2, 2, 4, 5, 31, 32 * (r % 2) + g, g, b / 8);
  }

  lemma Diff24Green(b2: byte, r: nat, g: nat, b: nat)
    requires r < 32 && g < 32 && b < 32 && b2 == 128 * (r % 2) + 4 * g + b / 8
    ensures Shr(And(b2, 0x7c), 2) == g
  {
    Diff24GreenMask(b2, r, g, b);
    ShiftLeft(g, 2, 4);
    ShrExact(4 * g, 2, 4, g, 0);
  }

  lemma Diff24BlueHigh(b2: byte, r: nat, g: nat, b: nat, x: nat)
    requires r < 32 && g < 32 && b < 32 && b2 == 128 * (r % 2) + 4 * g + b / 8 && x == And(b2, 0x03)
    ensures x == b / 8 && Shl8(x, 3) == Shl(x, 3)
  {
    DivModUnique(b2, 4, 32 * (r % 2) + g, b / 8);
    AndExact(b2, 2, 3, b / 8);
    ShiftLeft(x, 3, 8);
  }

  lemma Diff24BlueLow(b3: byte, b: nat, a: nat)
    requires b < 32 && a < 32 && b3 == 32 * (b % 8) + a
    ensures Shr(And(b3, 0xe0), 5) == b % 8
  {
    AndTop3(b3);
    DivModUnique(b3, 32, b % 8, a);
    ShrExact((b % 8) * 32, 5, 32, b % 8, 0);
  }

  lemma Diff24Blue(b2: byte, b3: byte, r: nat, g: nat, b: nat, a: nat)
    requires r < 32 && g < 32 && b < 32 && a < 32
    requires b2 == 128 * (r % 2) + 4 * g + b / 8 && b3 == 32 * (b % 8) + a
    ensures Or8(Shl8(And(b2, 0x03), 3), Shr(And(b3, 0xe0), 5)) == b
  {
    var x := And(b2, 0x03);
    Diff24BlueHigh(b2, r, g, b, x);
    Diff24BlueLow(b3, b, a);
    OrShl(x, b % 8, 3, 8);
  }

  lemma Diff24Alpha(b3: byte, b: nat, a: nat)
    requires b < 32 && a < 32 && b3 == 32 * (b % 8) + a
    ensures And(b3, 0x1f) == a
  {
    DivModUnique(b3, 32, b % 8, a);
    AndExact(b3, 5, 0x1f, a);
  }

  lemma Diff24Inverse(prev: Pixel, px: Pixel, b1: byte, b2: byte, b3: byte)
    requires Tier24(prev, px)
    requires [b1, b2, b3] == Diff24Chunk(px.r - prev.r, px.g - prev.g, px.b - prev.b, px.a - prev.a)
    ensures TagRange(b1) == Diff24Tag && Diff24(prev, b1, b2, b3) == px
  {
    var r, g, b, a := px.r - prev.r + 16, px.g - prev.g + 16, px.b - prev.b + 16, px.a - prev.a + 16;
    assert b1 == 0xE0 + r / 2 && b2 == 128 * (r % 2) + 4 * g + b / 8 && b3 == 32 * (b % 8) + a;
    Diff24Red(b1, b2, r, g, b);
    Diff24Green(b2, r, g, b);
    Diff24Blue(b2, b3, r, g, b, a);
    Diff24Alpha(b3, b, a);
    Channel(prev.r, px.r, Or8(Shl8(And(b1, 0x0f), 1), Shr(b2, 7)), 16);
    Channel(prev.g, px.g, Shr(And(b2, 0x7c), 2), 16);
    Channel(prev.b, px.b, Or8(Shl8(And(b2, 0x03), 3), Shr(And(b3, 0xe0), 5)), 16);
    Channel(prev.a, px.a, And(b3, 0x1f), 16);
  }

  lemma DecodeDiff8(data: seq<byte>, pos: nat, prev: Pixel, px: Pixel, cache: seq<Pixel>)
    requires Tier8(prev, px) && |cache| == CACHE_SIZE
    requires ChunkAt(data, pos, Diff8Chunk(px.r - prev.r, px.g - prev.g, px.b - prev.b))
    ensures pos < |data| && DecodeChunk(data, pos, prev, cache) == Ok(Chunk(px, 0, pos + 1))
  {
    assert data[pos..pos + 1] == [data[pos]];
    Diff8Inverse(prev, px, data[pos]);
    ArmDiff8(data, pos, prev, cache);
  }

  lemma DecodeDiff16(data: seq<byte>, pos: nat, prev: Pixel, px: Pixel, cache: seq<Pixel>)
    requires Tier16(prev, px) && |cache| == CACHE_SIZE
    requires ChunkAt(data, pos, Diff16Chunk(px.r - prev.r, px.g - prev.g, px.b - prev.b))
    ensures pos + 1 < |data| && DecodeChunk(data, pos, prev, cache) == Ok(Chunk(px, 0, pos + 2))
  {
    assert data[pos..pos + 2] == [data[pos], data[pos + 1]];
    Diff16Inverse(prev, px, data[pos], data[pos + 1]);
    ArmDiff16(data, pos, prev, cache);
  }

  lemma DecodeDiff24(data: seq<byte>, pos: nat, prev: Pixel, px: Pixel, cache: seq<Pixel>)
    requires Tier24(prev, px) && |cache| == CACHE_SIZE
    requires ChunkAt(data, pos, Diff24Chunk(px.r - prev.r, px.g - prev.g, px.b - prev.b, px.a - prev.a))
    ensures pos + 2 < |data| && DecodeChunk(data, pos, prev, cache) == Ok(Chunk(px, 0, pos + 3))
  {
    assert data[pos..pos + 3] == [data[pos], data[pos + 1], data[pos + 2]];
    Diff24Inverse(prev, px, data[pos], data[pos + 1], data[pos + 2]);
    ArmDiff24(data, pos, prev, cache);
  }

  /** A delta chunk decodes to the pixel it was computed from. */
  lemma DecodeDeltaChunk(data: seq<byte>, pos: nat, prev: Pixel, px: Pixel, cache: seq<Pixel>)
    requires Tier24(prev, px) && |cache| == CACHE_SIZE
    requires ChunkAt(data, pos, DeltaChunk(px.r - prev.r, px.g - prev.g, px.b - prev.b, px.a - prev.a))
    ensures pos < |data|
    ensures DecodeChunk(data, pos, prev, cache)
         == Ok(Chunk(px, 0, pos + |DeltaChunk(px.r - prev.r, px.g - prev.g, px.b - prev.b, px.a - prev.a)|))
  {
    if Tier8(prev, px) {
      DecodeDiff8(data, pos, prev, px, cache);
    } else if Tier16(prev, px) {
      DecodeDiff16(data, pos, prev, px, cache);
    } else {
      DecodeDiff24(data, pos, prev, px, cache);
    }
  }

  // ---------------------------------------------------------------------
  // Literal chunks

  lemma BitMask(m: nat, k: nat, p: nat, y: nat)
    requires p == Pow2(k) && y == Shr(m, k)
    ensures And(m, p) == Shl(And(y, 1), k) && y == m / p
  {
    ShiftLeft(1, k, p);
    ShiftedMask(m, 1, k, p);
    ShrDiv(m, k);
  }

  lemma BitValue(y: nat, k: nat, p: nat, z: nat)
    requires p == Pow2(k) && z == And(y, 1)
    ensures Shl(z, k) != 0 <==> y % 2 == 1
  {
    AndExact(y, 1, 1, y % 2);
    ShiftLeft(z, k, p);
    if z == 1 {
      assert z * p == p;
    } else {
      assert z * p == 0;
    }
  }

  /** `m & 2^k` tests bit `k` of `m`. */
  lemma BitTest(m: nat, k: nat, p: nat)
    requires p == Pow2(k)
    ensures And(m, p) != 0 <==> (m / p) % 2 == 1
  {
    BitMask(m, k, p, Shr(m, k));
    BitValue(Shr(m, k), k, p, And(Shr(m, k), 1));
  }

  /** The bits of `0xF0 + 8 * r + 4 * g + 2 * b + a`. */
  lemma MaskBits(m: nat, r: nat, g: nat, b: nat, a: nat)
    requires r < 2 && g < 2 && b < 2 && a < 2 && m == 0xF0 + 8 * r + 4 * g + 2 * b + a
    ensures (m / 8) % 2 == r && (m / 4) % 2 == g && (m / 2) % 2 == b && m % 2 == a
  {
    DivModUnique(m, 8, 30 + r, 4 * g + 2 * b + a);
    DivModUnique(30 + r, 2, 15, r);
    DivModUnique(m, 4, 60 + 2 * r + g, 2 * b + a);
    DivModUnique(60 + 2 * r + g, 2, 30 + r, g);
    DivModUnique(m, 2, 120 + 4 * r + 2 * g + b, a);
    DivModUnique(120 + 4 * r + 2 * g + b, 2, 60 + 2 * r + g, b);
  }

  /** The literal chunk's first byte is a `QOI_COLOR` tag whose four flags say which channels follow. */
  lemma MaskFlags(vr: int, vg: int, vb: int, va: int)
    ensures TagRange(LiteralMask(vr, vg, vb, va)) == ColorTag
    ensures And(LiteralMask(vr, vg, vb, va), 8) != 0 <==> vr != 0
    ensures And(LiteralMask(vr, vg, vb, va), 4) != 0 <==> vg != 0
    ensures And(LiteralMask(vr, vg, vb, va), 2) != 0 <==> vb != 0
    ensures And(LiteralMask(vr, vg, vb, va), 1) != 0 <==> va != 0
  {
    var m := LiteralMask(vr, vg, vb, va);
    MaskBits(m, Flag(vr, 8) / 8, Flag(vg, 4) / 4, Flag(vb, 2) / 2, Flag(va, 1));
    BitTest(m, 3, 8);
    BitTest(m, 2, 4);
    BitTest(m, 1, 2);
    BitTest(m, 0, 1);
  }

  /** A chunk that is a concatenation holds its two parts one after the other. */
  lemma AtSplit(data: seq<byte>, pos: nat, a: seq<byte>, b: seq<byte>)
    requires ChunkAt(data, pos, a + b)
    ensures ChunkAt(data, pos, a) && ChunkAt(data, pos + |a|, b)
  {
    assert data[pos..pos + |a|] == (a + b)[..|a|];
    assert data[pos + |a|..pos + |a| + |b|] == (a + b)[|a|..];
  }

  /** A literal chunk's channel `s`: its byte when present, the previous value otherwise. */
  lemma ChannelPresent(data: seq<byte>, p: nat, v: int, c: byte, old_value: byte, s: seq<byte>)
    requires s == Present(v, c) && ChunkAt(data, p, s) && (v == 0 ==> c == old_value)
    ensures |s| == Width(v != 0) && p + |s| <= |data|
    ensures v != 0 ==> p < |data| && data[p] == c
  {
    if v != 0 {
      assert data[p] == s[0];
    }
  }

  /** The channel bytes of the literal chunk that takes `prev` to `px`. */
  predicate ChannelsOf(prev: Pixel, px: Pixel, rs: seq<byte>, gs: seq<byte>, bs: seq<byte>, as_: seq<byte>)
  {
    rs == Present(px.r - prev.r, px.r) && gs == Present(px.g - prev.g, px.g)
    && bs == Present(px.b - prev.b, px.b) && as_ == Present(px.a - prev.a, px.a)
  }

  /** Four channel byte strings laid out one after the other from `p`. */
  predicate ChannelsAt(data: seq<byte>, p: nat, rs: seq<byte>, gs: seq<byte>, bs: seq<byte>, as_: seq<byte>)
  {
    ChunkAt(data, p, rs) && ChunkAt(data, p + |rs|, gs)
    && ChunkAt(data, p + |rs| + |gs|, bs) && ChunkAt(data, p + |rs| + |gs| + |bs|, as_)
  }

  /** The channels of a literal chunk read back as the pixel it encodes, ending at `q`. */
  lemma LiteralChannels(data: seq<byte>, p: nat, prev: Pixel, px: Pixel,
                        rs: seq<byte>, gs: seq<byte>, bs: seq<byte>, as_: seq<byte>, q: nat)
    requires ChannelsOf(prev, px, rs, gs, bs, as_) && ChannelsAt(data, p, rs, gs, bs, as_)
    requires q == p + |rs| + |gs| + |bs| + |as_|
    ensures ReadChannels(data, p, px.r - prev.r != 0, px.g - prev.g != 0, px.b - prev.b != 0, px.a - prev.a != 0, prev)
         == Ok(Chunk(px, 0, q))
  {
    ChannelPresent(data, p, px.r - prev.r, px.r, prev.r, rs);
    ChannelPresent(data, p + |rs|, px.g - prev.g, px.g, prev.g, gs);
    ChannelPresent(data, p + |rs| + |gs|, px.b - prev.b, px.b, prev.b, bs);
    ChannelPresent(data, p + |rs| + |gs| + |bs|, px.a - prev.a, px.a, prev.a, as_);
  }

  /** The bytes of a literal chunk: the mask, then the present channels. */
  lemma LiteralLayout(data: seq<byte>, pos: nat, m: byte, rs: seq<byte>, gs: seq<byte>, bs: seq<byte>, as_: seq<byte>)
    requires ChunkAt(data, pos, [m] + rs + gs + bs + as_)
    ensures pos < |data| && data[pos] == m && ChannelsAt(data, pos + 1, rs, gs, bs, as_)
  {
    AtSplit(data, pos, [m] + rs + gs + bs, as_);
    AtSplit(data, pos, [m] + rs + gs, bs);
    AtSplit(data, pos, [m] + rs, gs);
    AtSplit(data, pos, [m], rs);
    assert data[pos] == [m][0];
  }

  /** A literal tag whose flag bits are `fr`, `fg`, `fb`, `fa` starts a `ReadChannels`. */
  lemma LiteralTag(data: seq<byte>, pos: nat, m: byte, prev: Pixel, cache: seq<Pixel>,
                   fr: bool, fg: bool, fb: bool, fa: bool)
    requires |cache| == CACHE_SIZE && pos < |data| && data[pos] == m && TagRange(m) == ColorTag
    requires (And(m, 8) != 0) == fr && (And(m, 4) != 0) == fg && (And(m, 2) != 0) == fb && (And(m, 1) != 0) == fa
    ensures DecodeChunk(data, pos, prev, cache) == ReadChannels(data, pos + 1, fr, fg, fb, fa, prev)
  {
    ArmColor(data, pos, prev, cache);
  }

  /** The mask of a literal chunk selects exactly the channels that changed. */
  lemma LiteralMaskTag(data: seq<byte>, pos: nat, m: byte, prev: Pixel, cache: seq<Pixel>,
                       vr: int, vg: int, vb: int, va: int)
    requires |cache| == CACHE_SIZE && pos < |data| && data[pos] == m && m == LiteralMask(vr, vg, vb, va)
    ensures DecodeChunk(data, pos, prev, cache) == ReadChannels(data, pos + 1, vr != 0, vg != 0, vb != 0, va != 0, prev)
  {
    MaskFlags(vr, vg, vb, va);
    LiteralTag(data, pos, m, prev, cache, vr != 0, vg != 0, vb != 0, va != 0);
  }

  /** A literal chunk, found as its mask followed by its channel bytes, decodes to `px`. */
  lemma LiteralBody(data: seq<byte>, pos: nat, prev: Pixel, px: Pixel, cache: seq<Pixel>,
                    m: byte, rs: seq<byte>, gs: seq<byte>, bs: seq<byte>, as_: seq<byte>, q: nat)
    requires |cache| == CACHE_SIZE && pos < |data| && data[pos] == m
    requires m == LiteralMask(px.r - prev.r, px.g - prev.g, px.b - prev.b, px.a - prev.a)
    requires ChannelsOf(prev, px, rs, gs, bs, as_) && ChannelsAt(data, pos + 1, rs, gs, bs, as_)
    requires q == pos + 1 + |rs| + |gs| + |bs| + |as_|
    ensures DecodeChunk(data, pos, prev, cache) == Ok(Chunk(px, 0, q))
  {
    LiteralChannels(data, pos + 1, prev, px, rs, gs, bs, as_, q);
    LiteralMaskTag(data, pos, m, prev, cache, px.r - prev.r, px.g - prev.g, px.b - prev.b, px.a - prev.a);
  }

  /** The literal chunk for `prev` to `px` laid out at `pos`: its mask, then its channel bytes. */
  lemma LiteralChunkLayout(data: seq<byte>, pos: nat, prev: Pixel, px: Pixel)
    requires ChunkAt(data, pos, LiteralChunk(px, px.r - prev.r, px.g - prev.g, px.b - prev.b, px.a - prev.a))
    ensures pos < |data| && data[pos] == LiteralMask(px.r - prev.r, px.g - prev.g, px.b - prev.b, px.a - prev.a)
    ensures ChannelsAt(data, pos + 1, Present(px.r - prev.r, px.r), Present(px.g - prev.g, px.g),
                       Present(px.b - prev.b, px.b), Present(px.a - prev.a, px.a))
    ensures |LiteralChunk(px, px.r - prev.r, px.g - prev.g, px.b - prev.b, px.a - prev.a)|
         == 1 + |Present(px.r - prev.r, px.r)| + |Present(px.g - prev.g, px.g)|
         + |Present(px.b - prev.b, px.b)| + |Present(px.a - prev.a, px.a)|
  {
    LiteralLayout(data, pos, LiteralMask(px.r - prev.r, px.g - prev.g, px.b - prev.b, px.a - prev.a),
                  Present(px.r - prev.r, px.r), Present(px.g - prev.g, px.g),
                  Present(px.b - prev.b, px.b), Present(px.a - prev.a, px.a));
  }

  /** A literal chunk decodes to the pixel it carries. */
  lemma DecodeLiteralChunk(data: seq<byte>, pos: nat, prev: Pixel, px: Pixel, cache: seq<Pixel>)
    requires |cache| == CACHE_SIZE
    requires ChunkAt(data, pos, LiteralChunk(px, px.r - prev.r, px.g - prev.g, px.b - prev.b, px.a - prev.a))
    ensures pos < |data|
    ensures DecodeChunk(data, pos, prev, cache)
         == Ok(Chunk(px, 0, pos + |LiteralChunk(px, px.r - prev.r, px.g - prev.g, px.b - prev.b, px.a - prev.a)|))
  {
    LiteralChunkLayout(data, pos, prev, px);
    LiteralBody(data, pos, prev, px, cache, LiteralMask(px.r - prev.r, px.g - prev.g, px.b - prev.b, px.a - prev.a),
                Present(px.r - prev.r, px.r), Present(px.g - prev.g, px.g),
                Present(px.b - prev.b, px.b), Present(px.a - prev.a, px.a),
                pos + |LiteralChunk(px, px.r - prev.r, px.g - prev.g, px.b - prev.b, px.a - prev.a)|);
  }
}
