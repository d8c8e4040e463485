/** Splitting text at a delimiter (mqas/src/comm/string.cpp) and the protocol list built from
    the pieces for the TLS handshake (mqas/src/core/engine_base.cpp), in the form of section
    3.1 of RFC 7301: each name behind its length byte. */
module Alpn {
  import opened Bytes

  type Text = seq<u8>

  // std::string_view::find: the first delimiter at or after start, or the end if there is none.
  method Find(sv: Text, delimiter: u8, start: nat) returns (end: nat)
    requires start <= |sv|
    ensures start <= end <= |sv| && (end < |sv| ==> sv[end] == delimiter)
    ensures forall i :: start <= i < end ==> sv[i] != delimiter
  {
    end := start;
    while end < |sv| && sv[end] != delimiter
      invariant start <= end <= |sv|
      invariant forall i :: start <= i < end ==> sv[i] != delimiter
    {
      end := end + 1;
    }
  }

  // The tokens, each followed by the delimiter.
  function Terminated(tokens: seq<Text>, delimiter: u8): Text {
    if tokens == [] then []
    else Terminated(tokens[..|tokens| - 1], delimiter) + tokens[|tokens| - 1] + [delimiter]
  }

  // The tokens with the delimiter between them.
  function Join(tokens: seq<Text>, delimiter: u8): Text {
    if tokens == [] then []
    else Terminated(tokens[..|tokens| - 1], delimiter) + tokens[|tokens| - 1]
  }

  predicate Clean(tokens: seq<Text>, delimiter: u8) {
    forall i :: 0 <= i < |tokens| ==> delimiter !in tokens[i]
  }

  lemma TerminatedAppend(tokens: seq<Text>, t: Text, delimiter: u8)
    ensures Terminated(tokens + [t], delimiter) == Terminated(tokens, delimiter) + t + [delimiter]
    ensures Join(tokens + [t], delimiter) == Terminated(tokens, delimiter) + t
    ensures tokens != [] ==> Terminated(tokens, delimiter) == Join(tokens, delimiter) + [delimiter]
  {
    assert (tokens + [t])[..|tokens|] == tokens;
  }

  // Joining the tokens again gives the text back, but for one dropped delimiter at its end.
  method Split(sv: Text, delimiter: u8) returns (tokens: seq<Text>)
    ensures Clean(tokens, delimiter)
    ensures sv == Join(tokens, delimiter) + if sv != [] && sv[|sv| - 1] == delimiter then [delimiter] else []
    ensures tokens == [] <==> sv == []
    ensures sv != [] && sv[|sv| - 1] != delimiter ==> tokens[|tokens| - 1] != []
  {
    tokens := [];
    var start := 0;
    var end := Find(sv, delimiter, start);
    while end != |sv|
      invariant 0 <= start <= end <= |sv| && (end < |sv| ==> sv[end] == delimiter)
      invariant forall i :: start <= i < end ==> sv[i] != delimiter
      invariant Clean(tokens, delimiter)
      invariant sv[..start] == Terminated(tokens, delimiter)
      invariant tokens == [] <==> start == 0
      decreases |sv| - start
    {
      TerminatedAppend(tokens, sv[start..end], delimiter);
      assert sv[..end + 1] == sv[..start] + sv[start..end] + [sv[end]];
      tokens := tokens + [sv[start..end]];
      start := end + 1;
      end := Find(sv, delimiter, start);
    }
    if start < |sv| {
      TerminatedAppend(tokens, sv[start..], delimiter);
      assert sv == sv[..start] + sv[start..];
      tokens := tokens + [sv[start..]];
    } else {
      TerminatedAppend(tokens, [], delimiter);
      assert sv == sv[..start];
    }
  }

  // The list as built: a length byte, cut to eight bits, and the name, for every token.
  function Encode(tokens: seq<Text>): seq<u8> {
    if tokens == [] then [] else [|tokens[0]| % 0x100] + tokens[0] + Encode(tokens[1..])
  }

  predicate Names(tokens: seq<Text>) { forall i :: 0 <= i < |tokens| ==> 1 <= |tokens[i]| <= 255 }

  // How the TLS library reads such a list; a name must not be empty nor run past the end.
  function Decode(list: seq<u8>): (r: (bool, seq<Text>)) {
    if list == [] then (true, [])
    else if list[0] == 0 || 1 + list[0] > |list| then (false, [])
    else
      var (ok, rest) := Decode(list[1 + list[0]..]);
      (ok, [list[1..1 + list[0]]] + rest)
  }

  // Which byte goes where: a length byte, modulo 256, before each name.
  lemma EncodeBytes(t: Text, rest: seq<Text>)
    ensures var list := Encode([t] + rest);
      && |list| == 1 + |t| + |Encode(rest)|
      && list[0] == |t| % 0x100 && list[1..1 + |t|] == t && list[1 + |t|..] == Encode(rest)
  {
    var all := [t] + rest;
    assert all[0] == t && all[1..] == rest;
    assert Encode(all) == [|t| % 0x100] + t + Encode(rest);
  }

  lemma {:induction false} EncodeAppend(tokens: seq<Text>, t: Text)
    ensures Encode(tokens + [t]) == Encode(tokens) + [|t| % 0x100] + t
  {
    if tokens == [] {
      assert [t][1..] == [];
    } else {
      EncodeAppend(tokens[1..], t);
      assert (tokens + [t])[1..] == tokens[1..] + [t];
    }
  }

  method BuildList(tokens: seq<Text>) returns (buf: seq<u8>)
    ensures buf == Encode(tokens)
  {
    buf := [];
    for i := 0 to |tokens|
      invariant buf == Encode(tokens[..i])
    {
      var a := tokens[i];
      assert tokens[..i + 1] == tokens[..i] + [a];
      EncodeAppend(tokens[..i], a);
      ghost var before := buf;
      buf := buf + [|a| % 0x100];
      for j := 0 to |a|
        invariant buf == before + [|a| % 0x100] + a[..j]
      {
        buf := buf + [a[j]];
      }
    }
    assert tokens[..|tokens|] == tokens;
  }

  lemma DecodeFirst(t: Text, list: seq<u8>, rest: seq<u8>)
    requires 1 <= |t| <= 255 && list == [|t|] + t + rest
    ensures Decode(list).0 == Decode(rest).0 && Decode(list).1 == [t] + Decode(rest).1
  {
    assert list[0] == |t| && list[1..1 + |t|] == t && list[1 + |t|..] == rest;
  }

  lemma {:induction false} NamesReadBack(tokens: seq<Text>, list: seq<u8>)
    requires Names(tokens) && list == Encode(tokens)
    ensures Decode(list).0 && Decode(list).1 == tokens
    decreases |tokens|
  {
    if |tokens| > 0 {
      var t, rest := tokens[0], tokens[1..];
      assert 1 <= |tokens[0]| <= 255;
      NamesReadBack(rest, Encode(rest));
      DecodeFirst(t, list, Encode(rest));
      assert [t] + rest == tokens;
    }
  }

  lemma {:induction false} DecodedAreNames(list: seq<u8>)
    ensures Names(Decode(list).1)
    decreases |list|
  {
    if list != [] && list[0] != 0 && 1 + list[0] <= |list| {
      DecodedAreNames(list[1 + list[0]..]);
    }
  }

  // The list reads back as exactly the tokens if every token can be a name, and only then.
  lemma ReadsBackIff(tokens: seq<Text>)
    ensures Decode(Encode(tokens)) == (true, tokens) <==> Names(tokens)
  {
    DecodedAreNames(Encode(tokens));
    if Names(tokens) {
      NamesReadBack(tokens, Encode(tokens));
    }
  }
}
