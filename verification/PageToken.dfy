/** Page tokens (catalog.py, `_encode_page_token` and `_decode_page_token`): compact
    JSON in URL-safe Base64 (RFC 4648 section 5), padding stripped and restored. */
module PageToken {
  import opened Wrappers
  import opened Digits

  type Byte = b: nat | b < 256
  type Sextet = x: nat | x < 64

  // --- Base64, section 5 of RFC 4648 ------------------------------------------------

  function Symbol(x: Sextet): char {
    if x < 26 then ('A' as int + x) as char
    else if x < 52 then ('a' as int + (x - 26)) as char
    else if x < 62 then ('0' as int + (x - 52)) as char
    else if x == 62 then '-' else '_'
  }

  function Value(c: char): Option<Sextet> {
    if 'A' <= c <= 'Z' then Some((c as int - 'A' as int) as Sextet)
    else if 'a' <= c <= 'z' then Some((c as int - 'a' as int + 26) as Sextet)
    else if '0' <= c <= '9' then Some((c as int - '0' as int + 52) as Sextet)
    else if c == '-' then Some(62) else if c == '_' then Some(63) else None
  }

  lemma ValueOfSymbol(x: Sextet)
    ensures Value(Symbol(x)) == Some(x) && Symbol(x) != '='
  {
  }

  /** `base64.urlsafe_b64encode`, with its padding. */
  function Encode(bytes: seq<Byte>): string
    decreases |bytes|
  {
    if bytes == [] then []
    else if |bytes| == 1 then
      [Symbol(bytes[0] / 4), Symbol(bytes[0] % 4 * 16), '=', '=']
    else if |bytes| == 2 then
      [Symbol(bytes[0] / 4), Symbol(bytes[0] % 4 * 16 + bytes[1] / 16), Symbol(bytes[1] % 16 * 4), '=']
    else
      [Symbol(bytes[0] / 4), Symbol(bytes[0] % 4 * 16 + bytes[1] / 16),
       Symbol(bytes[1] % 16 * 4 + bytes[2] / 64), Symbol(bytes[2] % 64)] + Encode(bytes[3..])
  }

  /** `base64.urlsafe_b64decode` on text of the four-symbol block shape. */
  function Decode(text: string): Option<seq<Byte>>
    decreases |text|
  {
    if text == [] then Some([])
    else if |text| < 4 || Value(text[0]).None? || Value(text[1]).None? then None
    else
      var a, b := Value(text[0]).value, Value(text[1]).value;
      if text[2] == '=' then
        if text[2..] == "==" then Some([a * 4 + b / 16]) else None
      else if Value(text[2]).None? then None
      else
        var c := Value(text[2]).value;
        if text[3] == '=' then
          if |text| == 4 then Some([a * 4 + b / 16, b % 16 * 16 + c / 4]) else None
        else if Value(text[3]).None? then None
        else
          var d := Value(text[3]).value;
          match Decode(text[4..])
          case None => None
          case Some(rest) => Some([a * 4 + b / 16, b % 16 * 16 + c / 4, c % 4 * 64 + d] + rest)
  }

  /** Three bytes cut into four sextets and put together again. */
  lemma Regroup(x: Byte, y: Byte, z: Byte)
    ensures var a, b, c, d := x / 4, x % 4 * 16 + y / 16, y % 16 * 4 + z / 64, z % 64;
            a * 4 + b / 16 == x && b % 16 * 16 + c / 4 == y && c % 4 * 64 + d == z
  {
  }

  /** Four symbols before a text that decodes. */
  lemma BlockDecodes(x: Byte, y: Byte, z: Byte, tail: string, rest: seq<Byte>)
    requires Decode(tail) == Some(rest)
    ensures Decode([Symbol(x / 4), Symbol(x % 4 * 16 + y / 16), Symbol(y % 16 * 4 + z / 64), Symbol(z % 64)] + tail)
            == Some([x, y, z] + rest)
  {
    hide Symbol, Value;
    var text := [Symbol(x / 4), Symbol(x % 4 * 16 + y / 16), Symbol(y % 16 * 4 + z / 64), Symbol(z % 64)] + tail;
    ValueOfSymbol(x / 4);
    ValueOfSymbol(x % 4 * 16 + y / 16);
    ValueOfSymbol(y % 16 * 4 + z / 64);
    ValueOfSymbol(z % 64);
    assert text[4..] == tail;
    Regroup(x, y, z);
  }

  /** One or two bytes and their padding. */
  lemma LastBlockDecodes(x: Byte, y: Byte)
    ensures Decode([Symbol(x / 4), Symbol(x % 4 * 16), '=', '=']) == Some([x])
    ensures Decode([Symbol(x / 4), Symbol(x % 4 * 16 + y / 16), Symbol(y % 16 * 4), '=']) == Some([x, y])
  {
    hide Symbol, Value;
    ValueOfSymbol(x / 4);
    ValueOfSymbol(x % 4 * 16);
    ValueOfSymbol(x % 4 * 16 + y / 16);
    ValueOfSymbol(y % 16 * 4);
    Regroup(x, 0, 0);
    Regroup(x, y, 0);
  }

  lemma {:induction false} DecodeOfEncode(bytes: seq<Byte>)
    ensures Decode(Encode(bytes)) == Some(bytes)
    decreases |bytes|
  {
    hide Symbol, Value, Decode;
    if bytes == [] {
      NothingDecodes();
    } else if |bytes| == 1 {
      LastBlockDecodes(bytes[0], 0);
      assert bytes == [bytes[0]];
    } else if |bytes| == 2 {
      LastBlockDecodes(bytes[0], bytes[1]);
      assert bytes == [bytes[0], bytes[1]];
    } else {
      DecodeOfEncode(bytes[3..]);
      BlockDecodes(bytes[0], bytes[1], bytes[2], Encode(bytes[3..]), bytes[3..]);
      assert bytes == [bytes[0], bytes[1], bytes[2]] + bytes[3..];
    }
  }

  lemma NothingDecodes()
    ensures Decode([]) == Some([])
  {
  }

  // --- padding --------------------------------------------------------------------------

  /** `rstrip("=")` */
  function StripPadding(s: string): string {
    if s != [] && s[|s| - 1] == '=' then StripPadding(s[..|s| - 1]) else s
  }

  /** `token + "=" * (-len(token) % 4)` */
  function RestorePadding(s: string): string {
    s + seq((4 - |s| % 4) % 4, _ => '=')
  }

  /** An encoding is a body of symbols and at most two pads that fill its last block. */
  ghost predicate PaddedBody(s: string, body: string) {
    && |s| % 4 == 0 && body <= s && |s| - |body| <= 2
    && (body != [] ==> body[|body| - 1] != '=') && (body == [] ==> s == [])
    && forall i :: |body| <= i < |s| ==> s[i] == '='
  }

  lemma {:induction false} EncodeBody(bytes: seq<Byte>) returns (body: string)
    ensures PaddedBody(Encode(bytes), body)
    decreases |bytes|
  {
    hide Symbol, Value;
    var s := Encode(bytes);
    if bytes == [] {
      body := [];
    } else if |bytes| == 1 {
      ValueOfSymbol(bytes[0] % 4 * 16);
      body := s[..2];
    } else if |bytes| == 2 {
      ValueOfSymbol(bytes[1] % 16 * 4);
      body := s[..3];
    } else {
      ValueOfSymbol(bytes[2] % 64);
      var rest := EncodeBody(bytes[3..]);
      body := s[..4] + rest;
      assert s == s[..4] + Encode(bytes[3..]);
      BodyAfter(s[..4], Encode(bytes[3..]), rest);
    }
  }

  lemma BodyAfter(block: string, s: string, body: string)
    requires |block| == 4 && block[3] != '=' && PaddedBody(s, body)
    ensures PaddedBody(block + s, block + body)
  {
    assert forall i :: 4 <= i < |block + s| ==> (block + s)[i] == s[i - 4];
  }

  lemma {:induction false} StripToBody(s: string, body: string)
    requires body <= s && (body != [] ==> body[|body| - 1] != '=')
    requires forall i :: |body| <= i < |s| ==> s[i] == '='
    ensures StripPadding(s) == body
  {
    if |s| > |body| {
      StripToBody(s[..|s| - 1], body);
    }
  }

  /** Restoring the stripped padding gives the whole encoding back. */
  lemma PaddingRoundTrip(bytes: seq<Byte>)
    ensures RestorePadding(StripPadding(Encode(bytes))) == Encode(bytes)
  {
    hide Encode, StripPadding, RestorePadding;
    var body := EncodeBody(bytes);
    StripToBody(Encode(bytes), body);
    RestoreBody(Encode(bytes), body);
  }

  lemma RestoreBody(s: string, body: string)
    requires PaddedBody(s, body)
    ensures RestorePadding(body) == s
  {
    assert |RestorePadding(body)| == |s|;
  }

  // --- the payload -------------------------------------------------------------------------

  predicate HexDigest(s: string) {
    forall c :: c in s ==> '0' <= c <= '9' || 'a' <= c <= 'f'
  }

  /** `json.dumps({"d": digest, "o": offset}, separators=(",", ":"))` of a hex digest. */
  function Payload(digest: string, offset: nat): string {
    "{\"d\":\"" + digest + "\",\"o\":" + Numeral(offset) + "}"
  }

  function QuoteAt(s: string): nat {
    if s == [] || s[0] == '\"' then 0 else 1 + QuoteAt(s[1..])
  }

  /** `json.loads` of a payload of that shape, then `payload["d"]` and `int(payload["o"])`. */
  function ReadPayload(raw: string): Option<(string, nat)> {
    if |raw| < 6 || raw[..6] != "{\"d\":\"" then None
    else
      var rest := raw[6..];
      var k := QuoteAt(rest);
      if |rest| < k + 8 || rest[k..k + 6] != "\",\"o\":" || rest[|rest| - 1] != '}' then None
      else
        match Number(AsciiDigit, rest[k + 6..|rest| - 1])
        case None => None
        case Some(offset) => Some((rest[..k], offset))
  }

  function ByteOf(c: char): Byte {
    (c as int) % 256
  }

  function Bytes(s: string): seq<Byte> {
    seq(|s|, i requires 0 <= i < |s| => ByteOf(s[i]))
  }

  function Chars(bytes: seq<Byte>): string {
    seq(|bytes|, i requires 0 <= i < |bytes| => bytes[i] as char)
  }

  /** Every character of a payload is one byte. */
  lemma PayloadBytes(digest: string, offset: nat)
    requires HexDigest(digest)
    ensures Chars(Bytes(Payload(digest, offset))) == Payload(digest, offset)
  {
    var p := Payload(digest, offset);
    forall i | 0 <= i < |p| ensures p[i] < 128 as char {
      assert p[i] in p;
    }
  }

  /** `_encode_page_token` */
  function EncodeToken(digest: string, offset: nat): string
    requires HexDigest(digest)
  {
    StripPadding(Encode(Bytes(Payload(digest, offset))))
  }

  /** `_decode_page_token`; anything malformed is refused. */
  function DecodeToken(token: string): Option<(string, nat)> {
    match Decode(RestorePadding(token))
    case None => None
    case Some(bytes) => ReadPayload(Chars(bytes))
  }

  lemma {:induction false} QuoteAfter(digest: string, rest: string)
    requires HexDigest(digest) && rest != [] && rest[0] == '\"'
    ensures QuoteAt(digest + rest) == |digest|
  {
    if digest == [] {
      assert digest + rest == rest;
    } else {
      assert digest[0] in digest;
      assert (digest + rest)[1..] == digest[1..] + rest;
      assert forall c :: c in digest[1..] ==> c in digest;
      QuoteAfter(digest[1..], rest);
    }
  }

  lemma ReadOfPayload(digest: string, offset: nat)
    requires HexDigest(digest)
    ensures ReadPayload(Payload(digest, offset)) == Some((digest, offset))
  {
    hide QuoteAt, Number, Numeral, HexDigest;
    PayloadParts(digest, offset);
    QuoteAfter(digest, TailOf(offset));
    TailParts(digest, TailOf(offset));
    NumberOfNumeral(offset);
  }

  function TailOf(offset: nat): string { "\",\"o\":" + Numeral(offset) + "}" }

  lemma PayloadParts(digest: string, offset: nat)
    ensures var raw := Payload(digest, offset);
            |raw| >= 6 && raw[..6] == "{\"d\":\"" && raw[6..] == digest + TailOf(offset)
    ensures TailOf(offset)[0] == '\"'
  {
    hide Numeral;
  }

  lemma TailParts(digest: string, tail: string)
    requires |tail| >= 7
    ensures var rest := digest + tail;
            && rest[..|digest|] == digest && rest[|digest|..|digest| + 6] == tail[..6]
            && rest[|digest| + 6..|rest| - 1] == tail[6..|tail| - 1] && rest[|rest| - 1] == tail[|tail| - 1]
  {
  }

  lemma NumberOfNumeral(offset: nat)
    ensures Number(AsciiDigit, Numeral(offset)) == Some(offset)
    ensures var tail := TailOf(offset);
            |tail| >= 8 && tail[..6] == "\",\"o\":" && tail[6..|tail| - 1] == Numeral(offset) && tail[|tail| - 1] == '}'
  {
    hide Number, Numeral;
    assert Padded(offset, 0) == Numeral(offset);
    NumberOfPadded(AsciiDigit, offset, 0);
  }

  /** Decoding a token gives back its digest and offset, for every digest and offset. */
  lemma TokenRoundTrip(digest: string, offset: nat)
    requires HexDigest(digest)
    ensures DecodeToken(EncodeToken(digest, offset)) == Some((digest, offset))
  {
    var bytes := Bytes(Payload(digest, offset));
    PaddingRoundTrip(bytes);
    DecodeOfEncode(bytes);
    PayloadBytes(digest, offset);
    ReadOfPayload(digest, offset);
  }

  // --- the format itself ------------------------------------------------------------------

  /** Test vectors of section 10 of RFC 4648, for "f", "fo" and "foo" before anything. */
  lemma Rfc4648Vectors(rest: seq<Byte>)
    ensures Encode([102]) == "Zg==" && Encode([102, 111]) == "Zm8="
    ensures Encode([102, 111, 111] + rest) == "Zm9v" + Encode(rest)
  {
    hide Symbol;
    FooSymbols();
    var bytes: seq<Byte> := [102, 111, 111] + rest;
    assert bytes[3..] == rest;
  }

  lemma FooSymbols()
    ensures Symbol(25) == 'Z' && Symbol(32) == 'g' && Symbol(38) == 'm' && Symbol(60) == '8'
    ensures Symbol(61) == '9' && Symbol(47) == 'v'
  {
  }

  /** The two symbols that section 5 changes. */
  lemma UrlSymbols()
    ensures Symbol(62) == '-' && Symbol(63) == '_' && Symbol(0) == 'A' && Symbol(26) == 'a' && Symbol(52) == '0'
  {
  }

  /** The payload is the JSON object of the digest and the offset, without spaces. */
  lemma PayloadVector()
    ensures Payload("0f", 50) == "{\"d\":\"0f\",\"o\":50}"
  {
    assert Numeral(5) == "5" && Numeral(50) == "50";
  }
}
