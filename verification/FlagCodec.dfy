/**
 Flag strings: prefix{base64url(owner:challenge:issued:expires).mac}. The keyed hash is
 any function to 64 lower-case hex characters; the secret is part of that function.
 */
module FlagCodec {
  import opened Common
  import opened Text
  import Base64Url

  const DEFAULT_PREFIX := "PLAYIT"

  datatype Claims = Claims(value: string, owner: int, challenge: int, issued: int, expires: int)

  datatype Codec = Codec(mac: string -> string, prefix: string)

  predicate HexText(s: string) {
    |s| == 64 && forall c :: c in s ==> IsDigit(c) || 'a' <= c <= 'f'
  }

  ghost predicate HexMac(mac: string -> string) { forall s :: HexText(mac(s)) }

  function NewCodec(mac: string -> string, prefix: string): (codec: Codec)
    ensures codec.mac == mac && Trimmed(GoSpace, codec.prefix) && codec.prefix != ""
    ensures Blank(GoSpace, prefix) ==> codec.prefix == "PLAYIT"
    ensures Trimmed(GoSpace, prefix) && prefix != "" ==> codec.prefix == prefix
  {
    TrimIsTrimmed(GoSpace, prefix);
    assert Blank(GoSpace, prefix) ==> Trim(GoSpace, prefix) == "" by {
      if Blank(GoSpace, prefix) {
        TrimOfBlank(GoSpace, prefix);
      }
    }
    assert Trimmed(GoSpace, prefix) ==> Trim(GoSpace, prefix) == prefix by {
      if Trimmed(GoSpace, prefix) {
        TrimOfTrimmed(GoSpace, prefix);
      }
    }
    var trimmed := Trim(GoSpace, prefix);
    Codec(mac, if trimmed == "" then DEFAULT_PREFIX else trimmed)
  }

  function Payload(owner: int, challenge: int, issued: int, expires: int): string {
    PrintInt(owner) + ":" + PrintInt(challenge) + ":" + PrintInt(issued) + ":" + PrintInt(expires)
  }

  lemma IntIsBytes(n: int)
    ensures Base64Url.ByteString(PrintInt(n)) && ':' !in PrintInt(n)
  {
    PrintIntCharacters(n);
    var s := PrintInt(n);
    assert forall i :: 0 <= i < |s| ==> s[i] in s;
  }

  lemma JoinedBytes(a: string, b: string)
    requires Base64Url.ByteString(a) && Base64Url.ByteString(b)
    ensures Base64Url.ByteString(a + ":" + b)
  {
  }

  lemma PayloadIsBytes(owner: int, challenge: int, issued: int, expires: int)
    ensures Base64Url.ByteString(Payload(owner, challenge, issued, expires))
  {
    var a, b, c, d := PrintInt(owner), PrintInt(challenge), PrintInt(issued), PrintInt(expires);
    IntIsBytes(owner);
    IntIsBytes(challenge);
    IntIsBytes(issued);
    IntIsBytes(expires);
    JoinedBytes(a, b);
    JoinedBytes(a + ":" + b, c);
    JoinedBytes(a + ":" + b + ":" + c, d);
  }

  lemma PayloadFields(owner: int, challenge: int, issued: int, expires: int)
    ensures Split(Payload(owner, challenge, issued, expires), ':')
         == [PrintInt(owner), PrintInt(challenge), PrintInt(issued), PrintInt(expires)]
  {
    var a, b, c, d := PrintInt(owner), PrintInt(challenge), PrintInt(issued), PrintInt(expires);
    IntIsBytes(owner);
    IntIsBytes(challenge);
    IntIsBytes(issued);
    IntIsBytes(expires);
    FourFields(a, b, c, d);
  }

  lemma FourFields(a: string, b: string, c: string, d: string)
    requires ':' !in a && ':' !in b && ':' !in c && ':' !in d
    ensures Split(a + ":" + b + ":" + c + ":" + d, ':') == [a, b, c, d]
  {
    SplitWithoutSeparator(d, ':');
    SplitAtSeparator(c, ':', d);
    SplitAtSeparator(b, ':', c + [':'] + d);
    SplitAtSeparator(a, ':', b + [':'] + (c + [':'] + d));
    assert a + ":" + b + ":" + c + ":" + d == a + [':'] + (b + [':'] + (c + [':'] + d));
  }

  function Issue(codec: Codec, owner: int, challenge: int, issued: int, expires: int): string {
    PayloadIsBytes(owner, challenge, issued, expires);
    var encoded := Base64Url.Encode(Payload(owner, challenge, issued, expires));
    Envelope(codec, encoded)
  }

  function ParsePayload(value: string, payload: string): Option<Claims> {
    var fields := Split(payload, ':');
    if |fields| != 4 then None
    else
      match (Atoi(fields[0]), Atoi(fields[1]), Atoi(fields[2]), Atoi(fields[3]))
      case (Some(owner), Some(challenge), Some(issued), Some(expires)) =>
        Some(Claims(value, owner, challenge, issued, expires))
      case _ => None
  }

  predicate HasSuffix(s: string, suffix: string) { |suffix| <= |s| && s[|s| - |suffix|..] == suffix }

  function Parse(codec: Codec, value: string): Option<Claims> {
    var trimmed := Trim(GoSpace, value);
    var opening := codec.prefix + "{";
    if !StartsWith(trimmed, opening) || !HasSuffix(trimmed, "}") then None
    // The opening brace cannot double as the closing one, so the slice below is in range.
    else
      StartsWithIff(trimmed, opening);
      assert trimmed[|opening| - 1] == '{' && trimmed[|trimmed| - 1] == '}';
      var parts := Split(trimmed[|opening|..|trimmed| - 1], '.');
      if |parts| != 2 || codec.mac(parts[0]) != parts[1] then None
      else
        match Base64Url.Decode(parts[0])
        case None => None
        case Some(payload) => ParsePayload(trimmed, payload)
  }

  // The encoded payload holds none of the structural characters.
  lemma EncodedText(s: string, c: char)
    requires Base64Url.ByteString(s)
    requires c in ".{}:"
    ensures c !in Base64Url.Encode(s)
  {
    Base64Url.EncodeUsesAlphabet(s);
  }

  lemma ParsePayloadOfPayload(value: string, owner: int, challenge: int, issued: int, expires: int)
    requires Int64(owner) && Int64(challenge) && Int64(issued) && Int64(expires)
    ensures ParsePayload(value, Payload(owner, challenge, issued, expires))
         == Some(Claims(value, owner, challenge, issued, expires))
  {
    PayloadFields(owner, challenge, issued, expires);
    AtoiOfPrintInt(owner);
    AtoiOfPrintInt(challenge);
    AtoiOfPrintInt(issued);
    AtoiOfPrintInt(expires);
  }

  function Envelope(codec: Codec, encoded: string): string {
    codec.prefix + "{" + encoded + "." + codec.mac(encoded) + "}"
  }

  lemma EnvelopeShape(codec: Codec, encoded: string)
    requires Trimmed(GoSpace, codec.prefix)
    ensures var flag, opening := Envelope(codec, encoded), codec.prefix + "{";
            && Trim(GoSpace, flag) == flag
            && StartsWith(flag, opening) && HasSuffix(flag, "}") && |opening| < |flag|
            && flag[|opening|..|flag| - 1] == encoded + "." + codec.mac(encoded)
  {
    var opening, body := codec.prefix + "{", encoded + "." + codec.mac(encoded);
    var flag := Envelope(codec, encoded);
    assert flag == opening + body + "}";
    assert flag[0] == opening[0] && flag[|flag| - 1] == '}';
    TrimOfTrimmed(GoSpace, flag);
    StartsWithIff(flag, opening);
    assert flag[..|opening|] == opening && flag[|flag| - 1..] == "}";
  }

  lemma IssueIsTrimmed(codec: Codec, owner: int, challenge: int, issued: int, expires: int)
    requires Trimmed(GoSpace, codec.prefix)
    ensures var flag := Issue(codec, owner, challenge, issued, expires);
            flag != "" && Trim(GoSpace, flag) == flag
  {
    PayloadIsBytes(owner, challenge, issued, expires);
    EnvelopeShape(codec, Base64Url.Encode(Payload(owner, challenge, issued, expires)));
  }

  // Parse opens any envelope around a dot-free encoded payload.
  lemma ParseOfEnvelope(codec: Codec, encoded: string)
    requires HexMac(codec.mac) && Trimmed(GoSpace, codec.prefix) && '.' !in encoded
    ensures Parse(codec, Envelope(codec, encoded))
         == match Base64Url.Decode(encoded)
            case None => None
            case Some(payload) => ParsePayload(Envelope(codec, encoded), payload)
  {
    var mac := codec.mac(encoded);
    EnvelopeShape(codec, encoded);
    assert HexText(mac);
    SplitWithoutSeparator(mac, '.');
    SplitAtSeparator(encoded, '.', mac);
  }

  lemma ParseOfIssue(codec: Codec, owner: int, challenge: int, issued: int, expires: int)
    requires HexMac(codec.mac) && Trimmed(GoSpace, codec.prefix)
    requires Int64(owner) && Int64(challenge) && Int64(issued) && Int64(expires)
    ensures var flag := Issue(codec, owner, challenge, issued, expires);
            Parse(codec, flag) == Some(Claims(flag, owner, challenge, issued, expires))
  {
    PayloadIsBytes(owner, challenge, issued, expires);
    var payload := Payload(owner, challenge, issued, expires);
    EncodedText(payload, '.');
    ParseOfEnvelope(codec, Base64Url.Encode(payload));
    Base64Url.DecodeOfEncode(payload);
    ParsePayloadOfPayload(Issue(codec, owner, challenge, issued, expires), owner, challenge, issued, expires);
  }

  // Every value Parse accepts carries, after trimming, the keyed hash of its own payload text.
  lemma ParseAuthentic(codec: Codec, value: string) returns (encoded: string)
    requires Parse(codec, value).Some?
    ensures Trim(GoSpace, value) == Envelope(codec, encoded)
    ensures Base64Url.Decode(encoded).Some?
    ensures Parse(codec, value) == ParsePayload(Trim(GoSpace, value), Base64Url.Decode(encoded).value)
  {
    var trimmed := Trim(GoSpace, value);
    var opening := codec.prefix + "{";
    StartsWithIff(trimmed, opening);
    assert trimmed[|opening| - 1] == '{' && trimmed[|trimmed| - 1] == '}';
    var body := trimmed[|opening|..|trimmed| - 1];
    SplitPieces(body, '.');
    encoded := Split(body, '.')[0];
    assert body == encoded + "." + codec.mac(encoded);
    UnwrapEnvelope(codec, trimmed, encoded);
  }

  lemma UnwrapEnvelope(codec: Codec, flag: string, encoded: string)
    requires codec.prefix + "{" <= flag && HasSuffix(flag, "}") && |codec.prefix| + 1 < |flag|
    requires flag[|codec.prefix| + 1..|flag| - 1] == encoded + "." + codec.mac(encoded)
    ensures flag == Envelope(codec, encoded)
  {
    var opening, body := codec.prefix + "{", encoded + "." + codec.mac(encoded);
    assert flag == opening + body + "}";
  }

  lemma PayloadInjective(o: int, c: int, i: int, e: int, o': int, c': int, i': int, e': int)
    requires Payload(o, c, i, e) == Payload(o', c', i', e')
    ensures o == o' && c == c' && i == i' && e == e'
  {
    PayloadFields(o, c, i, e);
    PayloadFields(o', c', i', e');
    var fields := Split(Payload(o, c, i, e), ':');
    assert fields[0] == PrintInt(o) == PrintInt(o') && fields[1] == PrintInt(c) == PrintInt(c');
    assert fields[2] == PrintInt(i) == PrintInt(i') && fields[3] == PrintInt(e) == PrintInt(e');
    PrintIntInjective(o, o');
    PrintIntInjective(c, c');
    PrintIntInjective(i, i');
    PrintIntInjective(e, e');
  }

  lemma SameHead(a: string, x: string, b: string, y: string)
    requires a + x == b + y && |x| == |y|
    ensures a == b
  {
    assert a == (a + x)[..|a|] && b == (b + y)[..|b|];
  }

  lemma EnvelopeInjective(mac: string -> string, p: string, x: string, p': string, x': string)
    requires HexMac(mac) && '{' !in x && '{' !in x'
    requires Envelope(Codec(mac, p), x) == Envelope(Codec(mac, p'), x')
    ensures p == p' && x == x'
  {
    assert HexText(mac(x)) && HexText(mac(x'));
    var tail, tail' := "." + mac(x) + "}", "." + mac(x') + "}";
    assert Envelope(Codec(mac, p), x) == p + "{" + x + tail;
    assert Envelope(Codec(mac, p'), x') == p' + "{" + x' + tail';
    SameHead(p + "{" + x, tail, p' + "{" + x', tail');
    LastCutUnique(p, x, p', x', '{');
  }

  // Two issued flags are equal only for equal claims, even across a change of prefix.
  lemma IssueInjective(mac: string -> string, p: string, o: int, c: int, i: int, e: int,
                       p': string, o': int, c': int, i': int, e': int)
    requires HexMac(mac)
    requires Issue(Codec(mac, p), o, c, i, e) == Issue(Codec(mac, p'), o', c', i', e')
    ensures p == p' && o == o' && c == c' && i == i' && e == e'
  {
    var payload, payload' := Payload(o, c, i, e), Payload(o', c', i', e');
    PayloadIsBytes(o, c, i, e);
    PayloadIsBytes(o', c', i', e');
    EncodedText(payload, '{');
    EncodedText(payload', '{');
    EnvelopeInjective(mac, p, Base64Url.Encode(payload), p', Base64Url.Encode(payload'));
    Base64Url.DecodeOfEncode(payload);
    Base64Url.DecodeOfEncode(payload');
    PayloadInjective(o, c, i, e, o', c', i', e');
  }

  // The text of a flag: prefix, brace, the four decimal numbers joined by colons in base64url, dot, hash, brace.
  lemma FlagLayout(mac: string -> string)
    ensures var flag := Issue(Codec(mac, "PLAYIT"), 1, 2, 3, 4);
            flag == "PLAYIT{" + "MToyOjM6NA" + "." + mac("MToyOjM6NA") + "}"
  {
    PayloadText();
    EncodedPayload();
  }

  lemma PayloadText()
    ensures Payload(1, 2, 3, 4) == "1:2:3:4"
  {
    assert PrintInt(1) == "1" && PrintInt(2) == "2" && PrintInt(3) == "3" && PrintInt(4) == "4";
  }

  lemma EncodedPayload()
    ensures Base64Url.ByteString("1:2:3:4") && Base64Url.Encode("1:2:3:4") == "MToyOjM6NA"
  {
    EncodedTail();
    var s := "1:2:3:4";
    assert s[3..] == ":3:4";
    assert Base64Url.Three(s[0] as int, s[1] as int, s[2] as int) == "MToy";
    assert Base64Url.Encode(s) == "MToy" + Base64Url.Encode(s[3..]);
  }

  lemma EncodedTail()
    ensures Base64Url.Encode(":3:4") == "OjM6NA"
  {
    assert ":3:4"[3..] == "4";
    assert Base64Url.Encode("4") == "NA";
  }
}
