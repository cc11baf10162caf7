/**
 * Percent-encoding as the browser performs it:
 *  - `encodeURIComponent` (ECMA-262, section 19.2.6.5, URI Handling Functions);
 *  - the application/x-www-form-urlencoded serializer and parser behind
 *    `URLSearchParams` (WHATWG URL Standard, section 5).
 * The standard's parser works on the UTF-8 bytes of the query; '%', '+' and hex
 * digits are ASCII and never occur inside a multi-byte sequence, so the model
 * performs the same steps one character at a time.
 */
module Uri {
  import opened Basics
  import opened Text

  type Byte = b: int | 0 <= b < 256

  /** The UTF-8 encoding of one Unicode scalar value. */
  function Utf8Char(c: char): (bs: seq<Byte>)
    ensures 1 <= |bs| <= 4
    ensures |bs| == 1 <==> c as int < 0x80
    ensures |bs| == 1 ==> bs[0] == c as int
    ensures forall i :: 0 <= i < |bs| && |bs| > 1 ==> bs[i] >= 0x80
  {
    var cp := c as int;
    if cp < 0x80 then [cp]
    else if cp < 0x800 then [0xC0 + cp / 64, 0x80 + cp % 64]
    else if cp < 0x10000 then [0xE0 + cp / 4096, 0x80 + (cp / 64) % 64, 0x80 + cp % 64]
    else [0xF0 + cp / 262144, 0x80 + (cp / 4096) % 64, 0x80 + (cp / 64) % 64, 0x80 + cp % 64]
  }

  function Utf8(s: string): seq<Byte> {
    if s == [] then [] else Utf8Char(s[0]) + Utf8(s[1..])
  }

  predicate IsCont(b: Byte) { 0x80 <= b < 0xC0 }

  function Cp2(b0: Byte, b1: Byte): int { (b0 - 0xC0) * 64 + (b1 - 0x80) }
  function Cp3(b0: Byte, b1: Byte, b2: Byte): int { (b0 - 0xE0) * 4096 + (b1 - 0x80) * 64 + (b2 - 0x80) }
  function Cp4(b0: Byte, b1: Byte, b2: Byte, b3: Byte): int {
    (b0 - 0xF0) * 262144 + (b1 - 0x80) * 4096 + (b2 - 0x80) * 64 + (b3 - 0x80)
  }

  /** Decodes the sequence at the front of `bs`: the character and the number of bytes it
      used. A malformed sequence yields U+FFFD and consumes one byte. */
  function DecodeOne(bs: seq<Byte>): (r: (char, nat))
    requires |bs| >= 1
    ensures 1 <= r.1 <= |bs|
  {
    var b0 := bs[0];
    if b0 < 0x80 then (b0 as char, 1)
    else if 0xC2 <= b0 < 0xE0 && |bs| >= 2 && IsCont(bs[1]) then
      (Cp2(b0, bs[1]) as char, 2)
    else if 0xE0 <= b0 < 0xF0 && |bs| >= 3 && IsCont(bs[1]) && IsCont(bs[2])
      && 0x800 <= Cp3(b0, bs[1], bs[2]) && !(0xD800 <= Cp3(b0, bs[1], bs[2]) < 0xE000) then
      (Cp3(b0, bs[1], bs[2]) as char, 3)
    else if 0xF0 <= b0 < 0xF5 && |bs| >= 4 && IsCont(bs[1]) && IsCont(bs[2]) && IsCont(bs[3])
      && 0x10000 <= Cp4(b0, bs[1], bs[2], bs[3]) < 0x110000 then
      (Cp4(b0, bs[1], bs[2], bs[3]) as char, 4)
    else ('\U{FFFD}', 1)
  }

  /** UTF-8 decoding with replacement characters. */
  function Utf8Decode(bs: seq<Byte>): string
    decreases |bs|
  {
    if bs == [] then [] else
      var (c, n) := DecodeOne(bs);
      [c] + Utf8Decode(bs[n..])
  }

  lemma DecodeOneOfEncoding(c: char, rest: seq<Byte>)
    ensures DecodeOne(Utf8Char(c) + rest) == (c, |Utf8Char(c)|)
  {
    var cp := c as int;
    if cp < 0x80 {
      assert (Utf8Char(c) + rest)[0] == cp;
    } else if cp < 0x800 {
      DecodeTwoBytes(c, rest);
    } else if cp < 0x10000 {
      DecodeThreeBytes(c, rest);
    } else {
      DecodeFourBytes(c, rest);
    }
  }

  lemma DecodeTwoBytes(c: char, rest: seq<Byte>)
    requires 0x80 <= c as int < 0x800
    ensures DecodeOne(Utf8Char(c) + rest) == (c, 2)
  {
    var cp := c as int;
    var bs := Utf8Char(c) + rest;
    assert bs[0] == 0xC0 + cp / 64 && bs[1] == 0x80 + cp % 64;
    assert Cp2(bs[0], bs[1]) == cp;
  }

  lemma DecodeThreeBytes(c: char, rest: seq<Byte>)
    requires 0x800 <= c as int < 0x10000
    ensures DecodeOne(Utf8Char(c) + rest) == (c, 3)
  {
    var cp := c as int;
    var bs := Utf8Char(c) + rest;
    assert bs[0] == 0xE0 + cp / 4096 && bs[1] == 0x80 + (cp / 64) % 64 && bs[2] == 0x80 + cp % 64;
    assert cp / 64 == (cp / 4096) * 64 + (cp / 64) % 64;
    assert Cp3(bs[0], bs[1], bs[2]) == cp;
  }

  lemma DecodeFourBytes(c: char, rest: seq<Byte>)
    requires 0x10000 <= c as int
    ensures DecodeOne(Utf8Char(c) + rest) == (c, 4)
  {
    var cp := c as int;
    var bs := Utf8Char(c) + rest;
    assert bs[0] == 0xF0 + cp / 262144 && bs[1] == 0x80 + (cp / 4096) % 64;
    assert bs[2] == 0x80 + (cp / 64) % 64 && bs[3] == 0x80 + cp % 64;
    assert cp / 4096 == (cp / 262144) * 64 + (cp / 4096) % 64;
    assert cp / 64 == (cp / 4096) * 64 + (cp / 64) % 64;
    assert Cp4(bs[0], bs[1], bs[2], bs[3]) == cp;
  }

  /** Decoding the UTF-8 encoding of a string gives the string back. */
  lemma {:induction false} Utf8RoundTrip(s: string)
    ensures Utf8Decode(Utf8(s)) == s
  {
    if s != [] {
      var bs := Utf8(s);
      DecodeOneOfEncoding(s[0], Utf8(s[1..]));
      assert bs[|Utf8Char(s[0])|..] == Utf8(s[1..]);
      Utf8RoundTrip(s[1..]);
    }
  }

  function HexDigit(n: int): char
    requires 0 <= n < 16
  {
    "0123456789ABCDEF"[n]
  }

  predicate IsHexChar(c: char) {
    '0' <= c <= '9' || 'A' <= c <= 'F' || 'a' <= c <= 'f'
  }

  function HexValue(c: char): (v: int)
    ensures 0 <= v < 16
  {
    if '0' <= c <= '9' then c as int - '0' as int
    else if 'A' <= c <= 'F' then c as int - 'A' as int + 10
    else if 'a' <= c <= 'f' then c as int - 'a' as int + 10
    else 0
  }

  lemma HexDigitValue(n: int)
    requires 0 <= n < 16
    ensures IsHexChar(HexDigit(n)) && HexValue(HexDigit(n)) == n
  {
  }

  /** `%XY` with upper-case hex digits. */
  function PercentEscape(b: Byte): string {
    ['%', HexDigit(b / 16), HexDigit(b % 16)]
  }

  function PercentEscapes(bs: seq<Byte>): string {
    if bs == [] then [] else PercentEscape(bs[0]) + PercentEscapes(bs[1..])
  }

  /** The characters `encodeURIComponent` leaves as they are. */
  predicate IsUriUnreserved(c: char) {
    'A' <= c <= 'Z' || 'a' <= c <= 'z' || '0' <= c <= '9'
    || c == '-' || c == '_' || c == '.' || c == '!' || c == '~' || c == '*' || c == '\''
    || c == '(' || c == ')'
  }

  function EncodeChar(c: char): string {
    if IsUriUnreserved(c) then [c] else PercentEscapes(Utf8Char(c))
  }

  /** `encodeURIComponent(s)`. */
  function EncodeURIComponent(s: string): string {
    if s == [] then [] else EncodeChar(s[0]) + EncodeURIComponent(s[1..])
  }

  /** Bytes the form-urlencoded serializer keeps as they are. */
  predicate IsFormKept(b: Byte) {
    b == 0x2A || b == 0x2D || b == 0x2E || 0x30 <= b <= 0x39 || 0x41 <= b <= 0x5A
    || b == 0x5F || 0x61 <= b <= 0x7A
  }

  /** How the serializer writes one byte: a space as '+', a kept byte as itself, any
      other as a percent escape. */
  function FormChunk(b: Byte): string {
    if b == 0x20 then "+"
    else if IsFormKept(b) then [b as char]
    else PercentEscape(b)
  }

  function FormEncodeBytes(bs: seq<Byte>): string {
    if bs == [] then [] else FormChunk(bs[0]) + FormEncodeBytes(bs[1..])
  }

  /** The form-urlencoded serialization of one name or value. */
  function FormEncode(s: string): string {
    FormEncodeBytes(Utf8(s))
  }

  /** Percent-decoding, with '+' read as a space first, giving the bytes it denotes. */
  function PercentDecode(s: string): seq<Byte> {
    if s == [] then []
    else if s[0] == '%' && |s| >= 3 && IsHexChar(s[1]) && IsHexChar(s[2]) then
      [HexValue(s[1]) * 16 + HexValue(s[2])] + PercentDecode(s[3..])
    else Utf8Char(if s[0] == '+' then ' ' else s[0]) + PercentDecode(s[1..])
  }

  /** How the form-urlencoded parser reads one name or value. */
  function FormDecode(s: string): string {
    Utf8Decode(PercentDecode(s))
  }

  /** Every character `encodeURIComponent` produces is unreserved or '%', so an encoded
      component never holds a query delimiter ('&', '=', '?', '#') or a '+'. */
  lemma {:induction false} EncodedIsQuerySafe(s: string)
    ensures forall i :: 0 <= i < |EncodeURIComponent(s)| ==>
      IsUriUnreserved(EncodeURIComponent(s)[i]) || EncodeURIComponent(s)[i] == '%'
  {
    if s != [] {
      EscapesAreSafe(Utf8Char(s[0]));
      EncodedIsQuerySafe(s[1..]);
    }
  }

  lemma {:induction false} EscapesAreSafe(bs: seq<Byte>)
    ensures forall i :: 0 <= i < |PercentEscapes(bs)| ==>
      IsUriUnreserved(PercentEscapes(bs)[i]) || PercentEscapes(bs)[i] == '%'
  {
    if bs != [] {
      EscapesAreSafe(bs[1..]);
    }
  }

  /** A string made only of unreserved characters is encoded as itself, and only such a
      string is: any other character grows into at least three. */
  lemma {:induction false} EncodeIdentityIffUnreserved(s: string)
    ensures EncodeURIComponent(s) == s <==> forall i :: 0 <= i < |s| ==> IsUriUnreserved(s[i])
  {
    EncodeLength(s);
    if s != [] {
      EncodeIdentityIffUnreserved(s[1..]);
      if IsUriUnreserved(s[0]) {
        assert forall i :: 1 <= i < |s| ==> s[i] == s[1..][i - 1];
      } else {
        EscapesLength(Utf8Char(s[0]));
        EncodeLength(s[1..]);
      }
    }
  }

  lemma {:induction false} EscapesLength(bs: seq<Byte>)
    ensures |PercentEscapes(bs)| == 3 * |bs|
  {
    if bs != [] { EscapesLength(bs[1..]); }
  }

  lemma {:induction false} EncodeLength(s: string)
    ensures |EncodeURIComponent(s)| >= |s|
  {
    if s != [] {
      EscapesLength(Utf8Char(s[0]));
      EncodeLength(s[1..]);
    }
  }

  lemma PercentDecodeEscape(b: Byte, rest: string)
    ensures PercentDecode(PercentEscape(b) + rest) == [b] + PercentDecode(rest)
  {
    HexDigitValue(b / 16);
    HexDigitValue(b % 16);
    assert (PercentEscape(b) + rest)[3..] == rest;
  }

  lemma PercentDecodePlain(c: char, rest: string)
    requires c != '%'
    ensures PercentDecode([c] + rest) == Utf8Char(if c == '+' then ' ' else c) + PercentDecode(rest)
  {
    assert ([c] + rest)[1..] == rest;
  }

  lemma {:induction false} PercentDecodeEscapes(bs: seq<Byte>, rest: string)
    ensures PercentDecode(PercentEscapes(bs) + rest) == bs + PercentDecode(rest)
  {
    if bs != [] {
      PercentDecodeEscapes(bs[1..], rest);
      PercentDecodeEscapesStep(bs, rest);
    } else {
      assert PercentEscapes(bs) + rest == rest;
    }
  }

  lemma PercentDecodeEscapesStep(bs: seq<Byte>, rest: string)
    requires bs != []
    requires PercentDecode(PercentEscapes(bs[1..]) + rest) == bs[1..] + PercentDecode(rest)
    ensures PercentDecode(PercentEscapes(bs) + rest) == bs + PercentDecode(rest)
  {
    var e0, es := PercentEscape(bs[0]), PercentEscapes(bs[1..]);
    calc {
      PercentDecode(PercentEscapes(bs) + rest);
      { Reassociate(e0, es, rest); }
      PercentDecode(e0 + (es + rest));
      { PercentDecodeEscape(bs[0], es + rest); }
      [bs[0]] + PercentDecode(es + rest);
      [bs[0]] + (bs[1..] + PercentDecode(rest));
      { Reassociate([bs[0]], bs[1..], PercentDecode(rest)); assert [bs[0]] + bs[1..] == bs; }
      bs + PercentDecode(rest);
    }
  }

  lemma {:induction false} PercentDecodeOfEncoded(s: string)
    ensures PercentDecode(EncodeURIComponent(s)) == Utf8(s)
  {
    if s != [] {
      var rest := EncodeURIComponent(s[1..]);
      if IsUriUnreserved(s[0]) {
        PercentDecodePlain(s[0], rest);
      } else {
        PercentDecodeEscapes(Utf8Char(s[0]), rest);
      }
      PercentDecodeOfEncoded(s[1..]);
    }
  }

  /** The form-urlencoded parser reads an `encodeURIComponent` value back unchanged. */
  lemma EncodeURIComponentRoundTrip(s: string)
    ensures FormDecode(EncodeURIComponent(s)) == s
  {
    PercentDecodeOfEncoded(s);
    Utf8RoundTrip(s);
  }

  lemma {:induction false} PercentDecodeOfFormEncoded(bs: seq<Byte>)
    ensures PercentDecode(FormEncodeBytes(bs)) == bs
  {
    if bs != [] {
      var rest := FormEncodeBytes(bs[1..]);
      if bs[0] == 0x20 {
        PercentDecodePlain('+', rest);
      } else if IsFormKept(bs[0]) {
        PercentDecodePlain(bs[0] as char, rest);
      } else {
        PercentDecodeEscape(bs[0], rest);
      }
      PercentDecodeOfFormEncoded(bs[1..]);
    }
  }

  /** The form-urlencoded parser reads a serialized name or value back unchanged. */
  lemma FormEncodeRoundTrip(s: string)
    ensures FormDecode(FormEncode(s)) == s
  {
    PercentDecodeOfFormEncoded(Utf8(s));
    Utf8RoundTrip(s);
  }

  /** The serializer's output holds no '&', '=', '?' or '#'. */
  lemma {:induction false} FormEncodedIsQuerySafe(bs: seq<Byte>)
    ensures forall i :: 0 <= i < |FormEncodeBytes(bs)| ==>
      IsUriUnreserved(FormEncodeBytes(bs)[i]) || FormEncodeBytes(bs)[i] in "%+"
  {
    if bs != [] {
      FormEncodedIsQuerySafe(bs[1..]);
      FormChunkIsQuerySafe(bs[0]);
      var chunk := FormChunk(bs[0]);
      var rest := FormEncodeBytes(bs[1..]);
      forall i | 0 <= i < |chunk + rest|
        ensures IsUriUnreserved((chunk + rest)[i]) || (chunk + rest)[i] in "%+"
      {
        if i < |chunk| {
          assert (chunk + rest)[i] == chunk[i];
        } else {
          assert (chunk + rest)[i] == rest[i - |chunk|];
        }
      }
    }
  }

  lemma FormChunkIsQuerySafe(b: Byte)
    ensures forall i :: 0 <= i < |FormChunk(b)| ==> IsUriUnreserved(FormChunk(b)[i]) || FormChunk(b)[i] in "%+"
  {
  }

  /** Name-value pairs of a query, in order. */
  type Params = seq<(string, string)>

  /** Splits one `name=value` piece at its first '='; without one, the value is empty. */
  function ParsePair(p: string): (string, string) {
    var i := IndexOf(p, '=');
    if i < |p| then (FormDecode(p[..i]), FormDecode(p[i + 1..])) else (FormDecode(p), "")
  }

  /** Position of the first `c` in `s`, or `|s|`. */
  function IndexOf(s: string, c: char): (i: nat)
    ensures i <= |s|
    ensures c !in s[..i]
    ensures i < |s| ==> s[i] == c
  {
    if s == [] || s[0] == c then 0
    else
      var i := IndexOf(s[1..], c);
      assert s[..i + 1] == [s[0]] + s[1..][..i];
      i + 1
  }

  function ParsePieces(pieces: seq<string>): Params {
    if pieces == [] then []
    else if pieces[0] == [] then ParsePieces(pieces[1..])
    else [ParsePair(pieces[0])] + ParsePieces(pieces[1..])
  }

  /** `new URLSearchParams(s)`: a leading '?' is dropped, the rest is split on '&', empty
      pieces are skipped. */
  function ParseQuery(s: string): Params {
    var body := if s != [] && s[0] == '?' then s[1..] else s;
    ParsePieces(Split(body, '&'))
  }

  /** `params.get(name)`: the value of the first pair with that name. */
  function Get(ps: Params, name: string): (r: Option<string>)
    ensures r.Some? <==> exists i :: 0 <= i < |ps| && ps[i].0 == name
  {
    if ps == [] then None
    else if ps[0].0 == name then Some(ps[0].1)
    else
      var r := Get(ps[1..], name);
      assert forall i :: 1 <= i < |ps| ==> ps[i] == ps[1..][i - 1];
      r
  }

  /** `params.set(name, value)`: replaces the first pair with that name and drops the
      others, or appends a pair when there is none. */
  function SetParam(ps: Params, name: string, value: string): Params {
    if ps == [] then [(name, value)]
    else if ps[0].0 == name then [(name, value)] + RemoveName(ps[1..], name)
    else [ps[0]] + SetParam(ps[1..], name, value)
  }

  function RemoveName(ps: Params, name: string): (r: Params)
    ensures forall i :: 0 <= i < |r| ==> r[i].0 != name
  {
    if ps == [] then [] else if ps[0].0 == name then RemoveName(ps[1..], name) else [ps[0]] + RemoveName(ps[1..], name)
  }

  /** After `set`, `get` yields the value just set. */
  lemma {:induction false} GetAfterSet(ps: Params, name: string, value: string, other: string)
    ensures Get(SetParam(ps, name, value), name) == Some(value)
    ensures other != name ==> Get(SetParam(ps, name, value), other) == Get(ps, other)
  {
    if ps != [] {
      if ps[0].0 == name {
        if other != name { GetAfterRemove(ps[1..], name, other); }
      } else {
        GetAfterSet(ps[1..], name, value, other);
      }
    }
  }

  lemma {:induction false} GetAfterRemove(ps: Params, name: string, other: string)
    requires other != name
    ensures Get(RemoveName(ps, name), other) == Get(ps, other)
  {
    if ps != [] { GetAfterRemove(ps[1..], name, other); }
  }

  function Piece(p: (string, string)): string {
    FormEncode(p.0) + "=" + FormEncode(p.1)
  }

  function Pieces(ps: Params): (r: seq<string>)
    ensures |r| == |ps|
    ensures forall i :: 0 <= i < |ps| ==> r[i] == Piece(ps[i])
  {
    if ps == [] then [] else [Piece(ps[0])] + Pieces(ps[1..])
  }

  /** `params.toString()`: `name=value` pieces joined by '&'. */
  function Serialize(ps: Params): string {
    if ps == [] then "" else Join(Pieces(ps), '&')
  }

  lemma PieceHasNoAmpersand(p: (string, string))
    ensures '&' !in Piece(p) && '?' !in Piece(p) && Piece(p) != []
    ensures IndexOf(Piece(p), '=') == |FormEncode(p.0)|
  {
    FormEncodedIsQuerySafe(Utf8(p.0));
    FormEncodedIsQuerySafe(Utf8(p.1));
    var e := FormEncode(p.0);
    assert Piece(p)[|e|] == '=';
  }

  lemma {:induction false} ParsePiecesOfPieces(ps: Params)
    ensures ParsePieces(Pieces(ps)) == ps
  {
    if ps != [] {
      var p := ps[0];
      PieceHasNoAmpersand(p);
      var e := FormEncode(p.0);
      assert Piece(p)[..|e|] == e;
      assert Piece(p)[|e| + 1..] == FormEncode(p.1);
      FormEncodeRoundTrip(p.0);
      FormEncodeRoundTrip(p.1);
      assert Pieces(ps)[1..] == Pieces(ps[1..]);
      ParsePiecesOfPieces(ps[1..]);
    }
  }

  /** Parsing a serialized parameter list gives the list back. */
  lemma SerializeRoundTrip(ps: Params)
    ensures ParseQuery(Serialize(ps)) == ps
  {
    if ps != [] {
      var pieces := Pieces(ps);
      forall i | 0 <= i < |pieces| ensures '&' !in pieces[i] {
        PieceHasNoAmpersand(ps[i]);
      }
      SplitJoin(pieces, '&');
      PieceHasNoAmpersand(ps[0]);
      var s := Serialize(ps);
      assert s[0] == pieces[0][0];
      ParsePiecesOfPieces(ps);
    } else {
      assert ParsePieces(Split("", '&')) == ParsePieces([]);
    }
  }

  /** The same with the '?' a location's `search` starts with. */
  lemma SerializeSearchRoundTrip(ps: Params)
    ensures ParseQuery("?" + Serialize(ps)) == ps
  {
    var s := Serialize(ps);
    assert ("?" + s)[1..] == s;
    if ps != [] {
      PieceHasNoAmpersand(ps[0]);
      assert s[0] == Pieces(ps)[0][0];
      assert s[0] != '?';
    }
    SerializeRoundTrip(ps);
  }

  /** `get` on a concatenation: the first list's pair wins. */
  lemma {:induction false} GetAppend(ps: Params, qs: Params, name: string)
    ensures Get(ps + qs, name) == if Get(ps, name).Some? then Get(ps, name) else Get(qs, name)
  {
    if ps != [] {
      assert (ps + qs)[1..] == ps[1..] + qs;
      GetAppend(ps[1..], qs, name);
    } else {
      assert ps + qs == qs;
    }
  }

  /** `set` of a name not yet present appends the pair. */
  lemma {:induction false} SetParamAppends(ps: Params, name: string, value: string)
    requires forall i :: 0 <= i < |ps| ==> ps[i].0 != name
    ensures SetParam(ps, name, value) == ps + [(name, value)]
  {
    if ps != [] {
      SetParamAppends(ps[1..], name, value);
      assert ps == [ps[0]] + ps[1..];
    }
  }

  /** A parameter name written literally in a URL template: non-empty, unreserved only. */
  predicate PlainName(n: string) {
    n != [] && forall i :: 0 <= i < |n| ==> IsUriUnreserved(n[i])
  }

  /** One `name=${encodeURIComponent(value)}` piece of a URL template. */
  function TemplatePiece(p: (string, string)): string {
    p.0 + "=" + EncodeURIComponent(p.1)
  }

  function TemplatePieces(ps: Params): (r: seq<string>)
    ensures |r| == |ps|
    ensures forall i :: 0 <= i < |ps| ==> r[i] == TemplatePiece(ps[i])
  {
    if ps == [] then [] else [TemplatePiece(ps[0])] + TemplatePieces(ps[1..])
  }

  /** The query text of a URL template: its pieces joined by '&'. */
  function TemplateQuery(ps: Params): string {
    if ps == [] then "" else Join(TemplatePieces(ps), '&')
  }

  /** A template with one parameter: its piece. */
  lemma TemplateQueryOfOne(p: (string, string))
    ensures TemplateQuery([p]) == TemplatePiece(p)
  {
    assert TemplatePieces([p]) == [TemplatePiece(p)];
  }

  /** A template with two parameters: the two pieces joined by '&'. */
  lemma TemplateQueryOfTwo(p: (string, string), q: (string, string))
    ensures TemplateQuery([p, q]) == TemplatePiece(p) + "&" + TemplatePiece(q)
  {
    var pieces := TemplatePieces([p, q]);
    assert pieces[1..] == [TemplatePiece(q)];
    assert Join(pieces[1..], '&') == TemplatePiece(q);
    assert Join(pieces, '&') == pieces[0] + ['&'] + Join(pieces[1..], '&');
  }

  /** A template with three parameters: the first piece, then each further piece after
      its '&'. */
  lemma TemplateQueryOfThree(p: (string, string), q: (string, string), r: (string, string))
    ensures TemplateQuery([p, q, r]) == TemplatePiece(p) + ("&" + TemplatePiece(q)) + ("&" + TemplatePiece(r))
  {
    var pieces := TemplatePieces([p, q, r]);
    var tail := pieces[1..];
    var x, y, z := TemplatePiece(p), TemplatePiece(q), TemplatePiece(r);
    assert tail == [y, z];
    assert tail[1..] == [z];
    assert Join(tail[1..], '&') == z;
    assert Join(tail, '&') == y + "&" + z;
    assert Join(pieces, '&') == x + "&" + (y + "&" + z);
    calc {
      x + "&" + (y + "&" + z);
      { Reassociate(x + "&", y + "&", z); }
      x + "&" + (y + "&") + z;
      { Reassociate(x, "&", y); Reassociate(x + "&", y, "&"); Reassociate(x, "&" + y, "&"); }
      x + ("&" + y) + "&" + z;
      { Reassociate(x + ("&" + y), "&", z); }
      x + ("&" + y) + ("&" + z);
    }
  }

  lemma PlainNameDecodes(n: string)
    requires PlainName(n)
    ensures FormDecode(n) == n && '=' !in n && '&' !in n && '?' !in n
  {
    EncodeIdentityIffUnreserved(n);
    EncodeURIComponentRoundTrip(n);
  }

  lemma TemplatePieceShape(p: (string, string))
    requires PlainName(p.0)
    ensures '&' !in TemplatePiece(p) && '?' !in TemplatePiece(p) && TemplatePiece(p) != []
    ensures ParsePair(TemplatePiece(p)) == p
  {
    PlainNameDecodes(p.0);
    var e := EncodeURIComponent(p.1);
    EncodedIsQuerySafe(p.1);
    PieceWithoutDelimiters(p.0, e);
    TemplatePieceParses(p);
  }

  lemma TemplatePieceParses(p: (string, string))
    requires PlainName(p.0)
    ensures ParsePair(TemplatePiece(p)) == p
  {
    PlainNameDecodes(p.0);
    TemplatePieceSplit(p.0, EncodeURIComponent(p.1));
    EncodeURIComponentRoundTrip(p.1);
  }

  /** `name=value` holds no '&' or '?' when neither part does. */
  lemma PieceWithoutDelimiters(n: string, e: string)
    requires '&' !in n && '?' !in n
    requires forall i :: 0 <= i < |e| ==> IsUriUnreserved(e[i]) || e[i] == '%'
    ensures '&' !in n + "=" + e && '?' !in n + "=" + e
  {
    var t := n + "=" + e;
    forall i | 0 <= i < |t| ensures t[i] != '&' && t[i] != '?' {
      if i < |n| {
        assert t[i] == n[i];
      } else if i > |n| {
        assert t[i] == e[i - |n| - 1];
      }
    }
  }

  /** The piece splits at the '=' after the name. */
  lemma TemplatePieceSplit(n: string, e: string)
    requires '=' !in n
    ensures var t := n + "=" + e;
      IndexOf(t, '=') == |n| && t[..|n|] == n && t[|n| + 1..] == e
  {
    var t := n + "=" + e;
    assert t[..|n|] == n;
    IndexOfAt(t, '=', |n|);
  }

  lemma IndexOfAt(s: string, c: char, k: nat)
    requires k < |s| && s[k] == c && c !in s[..k]
    ensures IndexOf(s, c) == k
  {
  }

  lemma {:induction false} ParseTemplatePieces(ps: Params)
    requires forall i :: 0 <= i < |ps| ==> PlainName(ps[i].0)
    ensures ParsePieces(TemplatePieces(ps)) == ps
  {
    if ps != [] {
      TemplatePieceShape(ps[0]);
      assert TemplatePieces(ps)[1..] == TemplatePieces(ps[1..]);
      ParseTemplatePieces(ps[1..]);
    }
  }

  /** Reading back a URL template's query gives its parameters and values. */
  lemma TemplateQueryRoundTrip(ps: Params)
    requires forall i :: 0 <= i < |ps| ==> PlainName(ps[i].0)
    ensures ParseQuery(TemplateQuery(ps)) == ps
    ensures ParseQuery("?" + TemplateQuery(ps)) == ps
  {
    if ps != [] {
      var pieces := TemplatePieces(ps);
      forall i | 0 <= i < |pieces| ensures '&' !in pieces[i] {
        TemplatePieceShape(ps[i]);
      }
      SplitJoin(pieces, '&');
      TemplatePieceShape(ps[0]);
      var s := TemplateQuery(ps);
      assert s[0] == pieces[0][0];
      assert ("?" + s)[1..] == s;
      ParseTemplatePieces(ps);
    } else {
      assert ParsePieces(Split("", '&')) == ParsePieces([]);
      assert ("?" + "")[1..] == "";
    }
  }

  /** A template's query holds no '?', so it ends where a second '?' would begin. */
  lemma {:induction false} TemplateQueryHasNoQuestionMark(ps: Params)
    requires forall i :: 0 <= i < |ps| ==> PlainName(ps[i].0)
    ensures '?' !in TemplateQuery(ps)
  {
    if |ps| == 1 {
      TemplatePieceShape(ps[0]);
    } else if |ps| > 1 {
      TemplatePieceShape(ps[0]);
      TemplateQueryHasNoQuestionMark(ps[1..]);
      assert TemplatePieces(ps)[1..] == TemplatePieces(ps[1..]);
      assert TemplateQuery(ps) == TemplatePiece(ps[0]) + ['&'] + TemplateQuery(ps[1..]);
    }
  }
}
