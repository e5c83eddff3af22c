/**
 * The fixed 14-byte preamble: the magic "qoif", the width and the height as
 * big-endian 32-bit unsigned integers, the channel count 4 and the
 * colorspace byte 0.
 */
module QoiHeader {
  import opened Bits
  import opened QoiFormat

  /** The magic "qoif" as bytes. */
  const MAGIC: seq<byte> := [0x71, 0x6f, 0x69, 0x66]

  const HEADER_SIZE: nat := 14

  const U32_RANGE: nat := 0x1_0000_0000

  /** `binary.Write(out, binary.BigEndian, x)` for a `uint32` x. */
  function BigEndian32(x: nat): (s: seq<byte>)
    requires x < U32_RANGE
    ensures |s| == 4 && ReadBigEndian32(s) == x
  {
    var q1, q2, q3 := x / 0x100, x / 0x1_0000, x / 0x100_0000;
    assert x == q1 * 0x100 + x % 256;
    assert q1 == q2 * 0x100 + q1 % 256;
    assert q2 == q3 * 0x100 + q2 % 256;
    assert q1 % 256 == (x / 0x100) % 256 && q2 % 256 == (x / 0x1_0000) % 256;
    var s: seq<byte> := [q3, q2 % 256, q1 % 256, x % 256];
    BigEndian4(s);
    s
  }

  /** The unsigned integer whose base-256 digits are `s`, most significant first. */
  function BigEndian(s: seq<byte>): nat
  {
    if s == [] then 0 else BigEndian(s[..|s| - 1]) * 256 + s[|s| - 1]
  }

  /** Four big-endian bytes, weighted out. */
  lemma BigEndian4(s: seq<byte>)
    requires |s| >= 4
    ensures BigEndian(s[..4]) == s[0] as int * 0x100_0000 + s[1] as int * 0x1_0000 + s[2] as int * 0x100 + s[3] as int
  {
    assert s[..4][..3] == s[..3] && s[..3][..2] == s[..2] && s[..2][..1] == s[..1] && s[..1][..0] == [];
    assert BigEndian(s[..1]) == s[0] as int;
    assert BigEndian(s[..2]) == BigEndian(s[..1]) * 256 + s[1] as int;
    assert BigEndian(s[..3]) == BigEndian(s[..2]) * 256 + s[2] as int;
    assert BigEndian(s[..4]) == BigEndian(s[..3]) * 256 + s[3] as int;
  }

  /** `binary.BigEndian.Uint32(s)`: the first four bytes, most significant first. */
  function ReadBigEndian32(s: seq<byte>): (x: nat)
    requires |s| >= 4
    ensures x < U32_RANGE
  {
    BigEndian4(s);
    BigEndian(s[..4])
  }

  /** The encoder's header: the dimensions are converted to `uint32`, i.e. truncated. */
  function WriteHeader(width: nat, height: nat): (h: seq<byte>)
    ensures |h| == HEADER_SIZE && h[..4] == MAGIC
    ensures ReadBigEndian32(h[4..8]) == width % U32_RANGE
    ensures ReadBigEndian32(h[8..12]) == height % U32_RANGE
    ensures h[12] == 4 && h[13] == 0
  {
    var w, h := BigEndian32(width % U32_RANGE), BigEndian32(height % U32_RANGE);
    var header := MAGIC + w + h + [4, 0];
    assert header[4..8] == w && header[8..12] == h;
    header
  }

  /** What `DecodeConfig` reports: the dimensions (the colour model is always NRGBA). */
  datatype Config = Config(width: nat, height: nat)

  /**
   * `DecodeConfig`: reads the 14 header bytes (`io.ReadAtLeast` fails with
   * `io.EOF` on empty input and `io.ErrUnexpectedEOF` on a partial header),
   * checks the magic, and reads the width at offset 4 and the height at offset 8.
   */
  function DecodeConfig(data: seq<byte>): (r: Result<Config>)
    ensures r.Ok? <==> |data| >= HEADER_SIZE && data[..4] == MAGIC
    ensures |data| < HEADER_SIZE ==> r == Err(if |data| == 0 then EndOfInput else UnexpectedEndOfInput)
    ensures |data| >= HEADER_SIZE && data[..4] != MAGIC ==> r == Err(InvalidMagic)
    ensures r.Ok? ==> r.value == Config(ReadBigEndian32(data[4..8]), ReadBigEndian32(data[8..12]))
  {
    if |data| < HEADER_SIZE then
      Err(if |data| == 0 then EndOfInput else UnexpectedEndOfInput)
    else if data[..4] != MAGIC then
      Err(InvalidMagic)
    else
      Ok(Config(ReadBigEndian32(data[4..8]), ReadBigEndian32(data[8..12])))
  }

  /** Reading a big-endian integer back gives the four bytes that were read. */
  lemma BigEndian32Inverse(s: seq<byte>)
    requires |s| >= 4
    ensures BigEndian32(ReadBigEndian32(s)) == s[..4]
  {
    var x := ReadBigEndian32(s);
    BigEndian4(s);
    var q1 := s[0] as int * 0x1_0000 + s[1] as int * 0x100 + s[2] as int;
    var q2 := s[0] as int * 0x100 + s[1] as int;
    DivModUnique(x, 0x100, q1, s[3]);
    DivModUnique(x, 0x1_0000, q2, s[2] as int * 0x100 + s[3] as int);
    DivModUnique(x, 0x100_0000, s[0], s[1] as int * 0x1_0000 + s[2] as int * 0x100 + s[3] as int);
    DivModUnique(q1, 0x100, q2, s[2]);
    DivModUnique(q2, 0x100, s[0], s[1]);
  }

  /** Whatever follows the header, `DecodeConfig` recovers the (truncated) dimensions written. */
  lemma HeaderRoundTrip(width: nat, height: nat, rest: seq<byte>)
    ensures DecodeConfig(WriteHeader(width, height) + rest)
         == Ok(Config(width % U32_RANGE, height % U32_RANGE))
  {
    var data := WriteHeader(width, height) + rest;
    assert data[..HEADER_SIZE] == WriteHeader(width, height);
    assert data[..4] == MAGIC;
    assert data[4..8] == WriteHeader(width, height)[4..8];
    assert data[8..12] == WriteHeader(width, height)[8..12];
  }

  /** `DecodeConfig` looks at the first 14 bytes only. */
  lemma DecodeConfigReadsHeaderOnly(a: seq<byte>, b: seq<byte>)
    requires |a| >= HEADER_SIZE && |b| >= HEADER_SIZE && a[..HEADER_SIZE] == b[..HEADER_SIZE]
    ensures DecodeConfig(a) == DecodeConfig(b)
  {
    assert a[..4] == a[..HEADER_SIZE][..4];
    assert b[..4] == b[..HEADER_SIZE][..4];
    assert a[4..8] == a[..HEADER_SIZE][4..8];
    assert b[4..8] == b[..HEADER_SIZE][4..8];
    assert a[8..12] == a[..HEADER_SIZE][8..12];
    assert b[8..12] == b[..HEADER_SIZE][8..12];
  }
}
