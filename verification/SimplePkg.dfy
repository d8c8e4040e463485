/** The length-prefixed, checksummed frame of mqas/core/proto (simple_pkg<uint32_t>). The
    checksum function is a parameter: nothing here depends on it being CRC-32. */
module SimplePkg {
  import opened Bytes
  import opened Wrappers

  type Checksum = seq<u8> -> u16

  const LEN_TY_SZ: nat := 4
  const CK_TY_SZ: nat := 2
  const SIZE_WITHOUT_PARAMS: nat := 6
  const PARAMS_MAX_SIZE: nat := 0xFFFF_FFFF

  datatype Pkg = Pkg(body: seq<u8>, size: nat)

  function Head(body: seq<u8>): seq<u8> { BigEndian(|body|, LEN_TY_SZ) + body }

  function Frame(crc: Checksum, body: seq<u8>): (f: seq<u8>)
    ensures |f| == |body| + SIZE_WITHOUT_PARAMS
  {
    Head(body) + BigEndian(crc(Head(body)), CK_TY_SZ)
  }

  function Generate(crc: Checksum, body: seq<u8>): Option<seq<u8>> {
    if |body| > PARAMS_MAX_SIZE then None else Some(Frame(crc, body))
  }

  function ParseCommand(crc: Checksum, buffer: seq<u8>): (r: Option<Pkg>)
    ensures r.Some? ==> SIZE_WITHOUT_PARAMS <= r.value.size <= |buffer|
  {
    if |buffer| < SIZE_WITHOUT_PARAMS then None
    else
      var paramLen := Value(buffer[..LEN_TY_SZ]);
      var allSize := paramLen + SIZE_WITHOUT_PARAMS;
      if |buffer| < allSize then None
      else if Value(buffer[allSize - CK_TY_SZ..allSize]) != crc(buffer[..allSize - CK_TY_SZ]) then None
      else Some(Pkg(buffer[LEN_TY_SZ..LEN_TY_SZ + paramLen], allSize))
  }

  // Which byte goes where: the body's length, the body, the checksum of both.
  lemma FrameBytes(crc: Checksum, body: seq<u8>)
    requires |body| <= PARAMS_MAX_SIZE
    ensures var f, n := Frame(crc, body), |body|;
      && |f| == n + 6
      && f[..4] == [n / 0x100_0000, n / 0x1_0000 % 0x100, n / 0x100 % 0x100, n % 0x100]
      && f[4..n + 4] == body
      && f[n + 4..] == [crc(f[..n + 4]) / 0x100, crc(f[..n + 4]) % 0x100]
  {
    var f, n := Frame(crc, body), |body|;
    FourBytes(n);
    TwoBytes(crc(Head(body)));
    assert f[..n + 4] == Head(body) && f[..4] == Head(body)[..4] && f[4..n + 4] == Head(body)[4..];
  }

  // A frame followed by anything parses to its body, and to its own length.
  lemma ParseFrame(crc: Checksum, body: seq<u8>, rest: seq<u8>)
    requires |body| <= PARAMS_MAX_SIZE
    ensures ParseCommand(crc, Frame(crc, body) + rest) == Some(Pkg(body, |Frame(crc, body)|))
  {
    Pow256Values();
    ValueOfBigEndian(|body|, 4);
    ValueOfBigEndian(crc(Head(body)), 2);
    var b := Frame(crc, body) + rest;
    var n := |body| + SIZE_WITHOUT_PARAMS;
    assert b[..LEN_TY_SZ] == BigEndian(|body|, 4);
    assert b[..n - CK_TY_SZ] == Head(body);
    assert b[n - CK_TY_SZ..n] == BigEndian(crc(Head(body)), 2);
    assert b[LEN_TY_SZ..LEN_TY_SZ + |body|] == body;
  }

  // A strict prefix of a frame parses to nothing.
  lemma ParseStrictPrefix(crc: Checksum, body: seq<u8>, n: nat)
    requires |body| <= PARAMS_MAX_SIZE && n < |Frame(crc, body)|
    ensures ParseCommand(crc, Frame(crc, body)[..n]) == None
  {
    if n >= SIZE_WITHOUT_PARAMS {
      Pow256Values();
      ValueOfBigEndian(|body|, 4);
      assert Frame(crc, body)[..n][..LEN_TY_SZ] == BigEndian(|body|, 4);
    }
  }

  // What parses is exactly a generated frame.
  lemma ParsedIsFrame(crc: Checksum, buffer: seq<u8>)
    requires ParseCommand(crc, buffer).Some?
    ensures var p := ParseCommand(crc, buffer).value;
            |p.body| <= PARAMS_MAX_SIZE && buffer[..p.size] == Frame(crc, p.body)
  {
    Pow256Values();
    var p := ParseCommand(crc, buffer).value;
    BigEndianOfValue(buffer[..LEN_TY_SZ]);
    BigEndianOfValue(buffer[p.size - CK_TY_SZ..p.size]);
    assert buffer[..p.size - CK_TY_SZ] == buffer[..LEN_TY_SZ] + p.body;
    assert buffer[..p.size] == buffer[..p.size - CK_TY_SZ] + buffer[p.size - CK_TY_SZ..p.size];
  }

  // More bytes behind a parsed frame do not change the outcome.
  lemma ParseIsStable(crc: Checksum, buffer: seq<u8>, more: seq<u8>)
    requires ParseCommand(crc, buffer).Some?
    ensures ParseCommand(crc, buffer + more) == ParseCommand(crc, buffer)
  {
    ParsedIsFrame(crc, buffer);
    var p := ParseCommand(crc, buffer).value;
    assert buffer + more == Frame(crc, p.body) + (buffer[p.size..] + more);
    ParseFrame(crc, p.body, buffer[p.size..] + more);
  }
}
