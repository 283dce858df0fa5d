/** Unpadded base64url (section 5 of RFC 4648) over byte strings. */
module Base64Url {
  import opened Common

  predicate ByteString(s: string) { forall i :: 0 <= i < |s| ==> s[i] as int < 256 }

  function Symbol(v: nat): (c: char)
    requires v < 64
    ensures Value(c) == Some(v)
  {
    if v < 26 then ('A' as int + v) as char
    else if v < 52 then ('a' as int + v - 26) as char
    else if v < 62 then ('0' as int + v - 52) as char
    else if v == 62 then '-' else '_'
  }

  function Value(c: char): Option<nat> {
    if 'A' <= c <= 'Z' then Some(c as int - 'A' as int)
    else if 'a' <= c <= 'z' then Some(c as int - 'a' as int + 26)
    else if '0' <= c <= '9' then Some(c as int - '0' as int + 52)
    else if c == '-' then Some(62)
    else if c == '_' then Some(63)
    else None
  }

  predicate Alphabet(s: string) { forall i :: 0 <= i < |s| ==> Value(s[i]).Some? }

  type Byte = b: int | 0 <= b < 256

  function One(b0: Byte): string { [Symbol(b0 / 4), Symbol(b0 % 4 * 16)] }

  function Two(b0: Byte, b1: Byte): string {
    [Symbol(b0 / 4), Symbol(b0 % 4 * 16 + b1 / 16), Symbol(b1 % 16 * 4)]
  }

  function Three(b0: Byte, b1: Byte, b2: Byte): string {
    [Symbol(b0 / 4), Symbol(b0 % 4 * 16 + b1 / 16), Symbol(b1 % 16 * 4 + b2 / 64), Symbol(b2 % 64)]
  }

  function Encode(s: string): string
    requires ByteString(s)
  {
    if |s| == 0 then ""
    else if |s| == 1 then One(s[0] as int)
    else if |s| == 2 then Two(s[0] as int, s[1] as int)
    else Three(s[0] as int, s[1] as int, s[2] as int) + Encode(s[3..])
  }

  // Line breaks inside the text are ignored, as Go's decoder does.
  function StripBreaks(s: string): string {
    if s == [] then []
    else if s[0] == '\r' || s[0] == '\n' then StripBreaks(s[1..])
    else [s[0]] + StripBreaks(s[1..])
  }

  // Surplus low bits of a final partial group are dropped, not checked.
  function DecodeGroups(s: string): Option<string> {
    if s == [] then Some("")
    else if |s| == 1 then None
    else
      var v0, v1 := Value(s[0]), Value(s[1]);
      if v0.None? || v1.None? then None
      else
        var c0 := (v0.value * 4 % 256 + v1.value / 16 % 4) as char;
        if |s| == 2 then Some([c0])
        else
          var v2 := Value(s[2]);
          if v2.None? then None
          else
            var c1 := (v1.value % 16 * 16 + v2.value / 4 % 16) as char;
            if |s| == 3 then Some([c0, c1])
            else
              var v3 := Value(s[3]);
              var rest := DecodeGroups(s[4..]);
              if v3.None? || rest.None? then None
              else Some([c0, c1, (v2.value % 4 * 64 + v3.value % 64) as char] + rest.value)
  }

  function Decode(s: string): Option<string> { DecodeGroups(StripBreaks(s)) }

  lemma {:induction false} EncodeUsesAlphabet(s: string)
    requires ByteString(s)
    ensures Alphabet(Encode(s))
  {
    if |s| >= 3 {
      EncodeUsesAlphabet(s[3..]);
    }
  }

  lemma {:induction false} StripKeepsAlphabet(s: string)
    requires Alphabet(s)
    ensures StripBreaks(s) == s
  {
    if s != [] {
      StripKeepsAlphabet(s[1..]);
    }
  }

  lemma DecodeOfOne(b0: Byte)
    ensures DecodeGroups(One(b0)) == Some([b0 as char])
  {
  }

  lemma RegroupFirst(b0: Byte, b1: Byte)
    ensures b0 / 4 * 4 % 256 + (b0 % 4 * 16 + b1 / 16) / 16 % 4 == b0
  {
    var v1 := b0 % 4 * 16 + b1 / 16;
    assert v1 / 16 == b0 % 4;
  }

  lemma RegroupSecond(b0: Byte, b1: Byte, b2: Byte)
    ensures (b0 % 4 * 16 + b1 / 16) % 16 * 16 + (b1 % 16 * 4 + b2 / 64) / 4 % 16 == b1
  {
    var v1, v2 := b0 % 4 * 16 + b1 / 16, b1 % 16 * 4 + b2 / 64;
    assert v1 % 16 == b1 / 16 && v2 / 4 == b1 % 16;
  }

  lemma RegroupThird(b1: Byte, b2: Byte)
    ensures (b1 % 16 * 4 + b2 / 64) % 4 * 64 + b2 % 64 % 64 == b2
  {
    assert (b1 % 16 * 4 + b2 / 64) % 4 == b2 / 64;
  }

  lemma DecodeThree(v0: nat, v1: nat, v2: nat, b0: Byte, b1: Byte)
    requires v0 < 64 && v1 < 64 && v2 < 64
    requires b0 == v0 * 4 % 256 + v1 / 16 % 4 && b1 == v1 % 16 * 16 + v2 / 4 % 16
    ensures DecodeGroups([Symbol(v0), Symbol(v1), Symbol(v2)]) == Some([b0 as char, b1 as char])
  {
  }

  lemma DecodeOfTwo(b0: Byte, b1: Byte)
    ensures DecodeGroups(Two(b0, b1)) == Some([b0 as char, b1 as char])
  {
    Sextets(b0, b1, 0);
    RegroupFirst(b0, b1);
    RegroupSecond(b0, b1, 0);
    assert b1 % 16 * 4 + 0 / 64 == b1 % 16 * 4;
    DecodeThree(b0 / 4, b0 % 4 * 16 + b1 / 16, b1 % 16 * 4, b0, b1);
  }

  lemma DecodeFour(v0: nat, v1: nat, v2: nat, v3: nat, b0: Byte, b1: Byte, b2: Byte, tail: string)
    requires v0 < 64 && v1 < 64 && v2 < 64 && v3 < 64 && DecodeGroups(tail).Some?
    requires b0 == v0 * 4 % 256 + v1 / 16 % 4 && b1 == v1 % 16 * 16 + v2 / 4 % 16 && b2 == v2 % 4 * 64 + v3 % 64
    ensures DecodeGroups([Symbol(v0), Symbol(v1), Symbol(v2), Symbol(v3)] + tail)
         == Some([b0 as char, b1 as char, b2 as char] + DecodeGroups(tail).value)
  {
    var s := [Symbol(v0), Symbol(v1), Symbol(v2), Symbol(v3)] + tail;
    assert s[4..] == tail;
  }

  lemma Sextets(b0: Byte, b1: Byte, b2: Byte)
    ensures 0 <= b0 / 4 < 64 && 0 <= b0 % 4 * 16 + b1 / 16 < 64
    ensures 0 <= b1 % 16 * 4 + b2 / 64 < 64 && 0 <= b2 % 64 < 64
  {
  }

  lemma DecodeOfThree(b0: Byte, b1: Byte, b2: Byte, tail: string)
    requires DecodeGroups(tail).Some?
    ensures DecodeGroups(Three(b0, b1, b2) + tail)
         == Some([b0 as char, b1 as char, b2 as char] + DecodeGroups(tail).value)
  {
    RegroupFirst(b0, b1);
    RegroupSecond(b0, b1, b2);
    RegroupThird(b1, b2);
    Sextets(b0, b1, b2);
    DecodeFour(b0 / 4, b0 % 4 * 16 + b1 / 16, b1 % 16 * 4 + b2 / 64, b2 % 64, b0, b1, b2, tail);
  }

  lemma EncodeOfShort(s: string)
    requires ByteString(s) && 1 <= |s| <= 2
    ensures |s| == 1 ==> Encode(s) == One(s[0] as int)
    ensures |s| == 2 ==> Encode(s) == Two(s[0] as int, s[1] as int)
  {
  }

  lemma DecodeOfSingle(s: string, encoded: string)
    requires ByteString(s) && |s| == 1 && encoded == One(s[0] as int)
    ensures DecodeGroups(encoded) == Some(s)
  {
    DecodeOfOne(s[0] as int);
    assert s == [s[0]];
  }

  lemma DecodeOfPair(s: string, encoded: string)
    requires ByteString(s) && |s| == 2 && encoded == Two(s[0] as int, s[1] as int)
    ensures DecodeGroups(encoded) == Some(s)
  {
    DecodeOfTwo(s[0] as int, s[1] as int);
    assert s == [s[0], s[1]];
  }

  lemma FirstThree(s: string, b0: Byte, b1: Byte, b2: Byte)
    requires |s| >= 3 && s[0] as int == b0 && s[1] as int == b1 && s[2] as int == b2
    ensures [b0 as char, b1 as char, b2 as char] + s[3..] == s
  {
  }

  lemma DecodeOfLong(s: string, b0: Byte, b1: Byte, b2: Byte, rest: string)
    requires |s| >= 3 && s[0] as int == b0 && s[1] as int == b1 && s[2] as int == b2
    requires DecodeGroups(rest) == Some(s[3..])
    ensures DecodeGroups(Three(b0, b1, b2) + rest) == Some(s)
  {
    FirstThree(s, b0, b1, b2);
    DecodeOfThree(b0, b1, b2, rest);
  }

  lemma {:induction false} DecodeOfEncodedGroups(s: string)
    requires ByteString(s)
    ensures DecodeGroups(Encode(s)) == Some(s)
  {
    if |s| == 1 {
      EncodeOfShort(s);
      DecodeOfSingle(s, Encode(s));
    } else if |s| == 2 {
      EncodeOfShort(s);
      DecodeOfPair(s, Encode(s));
    } else if |s| > 2 {
      DecodeOfEncodedGroups(s[3..]);
      DecodeOfLong(s, s[0] as int, s[1] as int, s[2] as int, Encode(s[3..]));
    }
  }

  lemma DecodeOfEncode(s: string)
    requires ByteString(s)
    ensures Decode(Encode(s)) == Some(s)
  {
    EncodeUsesAlphabet(s);
    StripKeepsAlphabet(Encode(s));
    DecodeOfEncodedGroups(s);
  }

  // Test vectors of section 10 of RFC 4648, unpadded, and the two symbols of the URL-safe alphabet.
  lemma KnownTexts()
    ensures Encode("") == "" && Encode("f") == "Zg" && Encode("fo") == "Zm8" && Encode("foo") == "Zm9v"
    ensures Symbol(0) == 'A' && Symbol(25) == 'Z' && Symbol(26) == 'a' && Symbol(51) == 'z'
    ensures Symbol(52) == '0' && Symbol(61) == '9' && Symbol(62) == '-' && Symbol(63) == '_'
  {
  }
}
