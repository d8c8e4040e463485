/** The byte form of the protocol's commands (stream_variant_msg in mqas/src/core/stream.cpp). */
module VariantCodec {
  import opened Bytes
  import opened Wrappers
  import opened VariantMsg
  import SimplePkg

  function Fixed(m: Msg): (b: seq<u8>)
    ensures |b| == 9
  {
    [m.cmd] + BigEndian(m.param1, 4) + BigEndian(m.param2, 2) + [m.param3] + [m.errcode]
  }

  function Body(m: Msg): seq<u8> {
    if m.extra == [] then Fixed(m) else Fixed(m) + BigEndian(|m.extra|, 4) + m.extra
  }

  function Frame(crc: SimplePkg.Checksum, m: Msg): seq<u8> { SimplePkg.Frame(crc, Body(m)) }

  function Generate(crc: SimplePkg.Checksum, m: Msg): Option<seq<u8>> {
    if |m.extra| > EXTRA_PARAMS_MAX_SIZE then None else SimplePkg.Generate(crc, Body(m))
  }

  function ParseBody(b: seq<u8>): Option<Msg> {
    if |b| < 9 then None
    else if |b| > 13 && Value(b[9..13]) + 13 != |b| then None
    else
      Pow256Values();
      Some(Msg(b[0], Value(b[1..5]), Value(b[5..7]), b[7], b[8], if |b| > 13 then b[13..] else []))
  }

  // The parsed message, and the bytes it used: zero when there is none.
  function ParseCommand(crc: SimplePkg.Checksum, buffer: seq<u8>): (r: (Option<Msg>, nat))
    ensures r.0.Some? ==> 0 < r.1 <= |buffer|
    ensures r.0.None? ==> r.1 == 0
  {
    match SimplePkg.ParseCommand(crc, buffer)
    case None => (None, 0)
    case Some(pkg) =>
      match ParseBody(pkg.body)
      case None => (None, 0)
      case Some(m) => (Some(m), pkg.size)
  }

  lemma FixedSlices(m: Msg, b: seq<u8>)
    requires |b| >= 9 && b[..9] == Fixed(m)
    ensures b[0] == m.cmd && b[1..5] == BigEndian(m.param1, 4) && b[5..7] == BigEndian(m.param2, 2)
    ensures b[7] == m.param3 && b[8] == m.errcode
  {
    var p1, p2 := BigEndian(m.param1, 4), BigEndian(m.param2, 2);
    var f := [m.cmd] + p1 + p2 + [m.param3] + [m.errcode];
    assert f == b[..9];
    assert f[1..5] == p1 && f[5..7] == p2;
    assert b[1..5] == b[..9][1..5] && b[5..7] == b[..9][5..7];
    assert b[0] == b[..9][0] && b[7] == b[..9][7] && b[8] == b[..9][8];
  }

  // Which byte goes where: command, three parameters, code, and, if there are any, the number
  // of extra parameters and these.
  lemma BodyBytes(m: Msg)
    requires |m.extra| <= EXTRA_PARAMS_MAX_SIZE
    ensures var b, n := Body(m), |m.extra|;
      && |b| == (if n == 0 then 9 else 13 + n)
      && b[0] == m.cmd && b[7] == m.param3 && b[8] == m.errcode
      && b[1..5] == [m.param1 / 0x100_0000, m.param1 / 0x1_0000 % 0x100, m.param1 / 0x100 % 0x100, m.param1 % 0x100]
      && b[5..7] == [m.param2 / 0x100, m.param2 % 0x100]
      && (n > 0 ==> && b[9..13] == [n / 0x100_0000, n / 0x1_0000 % 0x100, n / 0x100 % 0x100, n % 0x100]
                    && b[13..] == m.extra)
  {
    var b := Body(m);
    FixedSlices(m, b);
    FourBytes(m.param1);
    TwoBytes(m.param2);
    if m.extra != [] {
      FourBytes(|m.extra|);
      var fixed, size := Fixed(m), BigEndian(|m.extra|, 4);
      assert b == fixed + size + m.extra;
      assert b[9..13] == size && b[13..] == m.extra;
    }
  }

  lemma FixedFields(m: Msg, b: seq<u8>)
    requires |b| >= 9 && b[..9] == Fixed(m)
    ensures b[0] == m.cmd && Value(b[1..5]) == m.param1 && Value(b[5..7]) == m.param2
    ensures b[7] == m.param3 && b[8] == m.errcode
  {
    FixedSlices(m, b);
    Pow256Values();
    ValueOfBigEndian(m.param1, 4);
    ValueOfBigEndian(m.param2, 2);
  }

  lemma ParseGeneratedBody(m: Msg)
    requires |m.extra| < 0x1_0000_0000
    ensures ParseBody(Body(m)) == Some(m)
  {
    var b := Body(m);
    FixedFields(m, b);
    if m.extra != [] {
      Pow256Values();
      ValueOfBigEndian(|m.extra|, 4);
      assert b[9..13] == BigEndian(|m.extra|, 4);
      assert b[13..] == m.extra;
    }
  }

  // Round trip: a generated command followed by any bytes parses to itself and its length,
  // and commands with too many parameters are the only ones not generated.
  lemma RoundTrip(crc: SimplePkg.Checksum, m: Msg, rest: seq<u8>)
    ensures Generate(crc, m).Some? <==> |m.extra| <= EXTRA_PARAMS_MAX_SIZE
    ensures Generate(crc, m).Some? ==>
              Generate(crc, m).value == Frame(crc, m) &&
              ParseCommand(crc, Frame(crc, m) + rest) == (Some(m), |Frame(crc, m)|)
  {
    if |m.extra| <= EXTRA_PARAMS_MAX_SIZE {
      ParseGeneratedBody(m);
      SimplePkg.ParseFrame(crc, Body(m), rest);
    }
  }

  // No generated command is a prefix of another one; in particular generation is injective.
  lemma PrefixFree(crc: SimplePkg.Checksum, m: Msg, n: Msg, rest: seq<u8>)
    requires Generate(crc, m).Some? && Generate(crc, n).Some?
    requires Generate(crc, m).value + rest == Generate(crc, n).value
    ensures m == n && rest == []
  {
    RoundTrip(crc, m, rest);
    RoundTrip(crc, n, []);
    assert Generate(crc, n).value + [] == Generate(crc, n).value;
  }

  lemma FixedOfParsed(b: seq<u8>)
    requires ParseBody(b).Some?
    ensures Fixed(ParseBody(b).value) == b[..9]
  {
    var m := ParseBody(b).value;
    var p1, p2 := b[1..5], b[5..7];
    BigEndianOfValue(p1);
    BigEndianOfValue(p2);
    assert BigEndian(m.param1, 4) == p1 && BigEndian(m.param2, 2) == p2;
    assert b[..9] == [b[0]] + p1 + p2 + [b[7]] + [b[8]];
  }

  // An accepted body regenerates to itself exactly when it is 9 bytes or more than 13 long;
  // of one of 10 to 13 bytes only the first nine are kept.
  lemma RegenerateIff(b: seq<u8>)
    requires ParseBody(b).Some?
    ensures Body(ParseBody(b).value) == b <==> |b| == 9 || |b| > 13
    ensures |b| <= 13 ==> Body(ParseBody(b).value) == b[..9]
  {
    FixedOfParsed(b);
    if |b| > 13 {
      var count, extra := b[9..13], b[13..];
      BigEndianOfValue(count);
      assert BigEndian(|extra|, 4) == count;
      assert b == b[..9] + count + extra;
    }
  }

  // The body of m, with up to four stray bytes behind it if m has no extra parameters.
  predicate IsFormOf(b: seq<u8>, m: Msg) {
    |m.extra| < 0x1_0000_0000 && (b == Body(m) || (m.extra == [] && Body(m) <= b && |b| <= 13))
  }

  // A body is accepted exactly if it is what some command generates, or a command without
  // extra parameters and up to four stray bytes; and it is read as that very command.
  lemma AcceptedIff(b: seq<u8>)
    ensures ParseBody(b).Some? <==> exists m :: IsFormOf(b, m)
    ensures forall m :: IsFormOf(b, m) ==> ParseBody(b) == Some(m)
  {
    if ParseBody(b).Some? {
      RegenerateIff(b);
      assert IsFormOf(b, ParseBody(b).value);
    }
    forall m | IsFormOf(b, m) ensures ParseBody(b) == Some(m) {
      if b == Body(m) { ParseGeneratedBody(m); } else { FixedFields(m, b); }
    }
  }
}
