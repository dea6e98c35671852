/** Base64 as the token-decoding code meets it: `atob` (the browser's
    forgiving-base64 decode of the HTML standard, over the alphabet of
    section 4 of RFC 4648), the base64url-to-base64 translation done with
    `.replace(/-/g, '+').replace(/_/g, '/')`, and, as the reference `atob`
    is checked against, the encodings of sections 4 and 5 of RFC 4648. */
module Base64 {
  import opened Wrappers

  type byte = x: int | 0 <= x < 256
  type sextet = x: int | 0 <= x < 64

  /** The base64 alphabet (RFC 4648, section 4, table 1). */
  function Alphabet(v: sextet): char {
    if v < 26 then ('A' as int + v) as char
    else if v < 52 then ('a' as int + (v - 26)) as char
    else if v < 62 then ('0' as int + (v - 52)) as char
    else if v == 62 then '+'
    else '/'
  }

  /** The base64url alphabet (RFC 4648, section 5, table 2). */
  function UrlAlphabet(v: sextet): char {
    if v == 62 then '-' else if v == 63 then '_' else Alphabet(v)
  }

  predicate InAlphabet(c: char) {
    'A' <= c <= 'Z' || 'a' <= c <= 'z' || '0' <= c <= '9' || c == '+' || c == '/'
  }

  /** The value a base64 character stands for. */
  function ValueOf(c: char): (v: sextet)
    requires InAlphabet(c)
    ensures Alphabet(v) == c
  {
    if 'A' <= c <= 'Z' then c as int - 'A' as int
    else if 'a' <= c <= 'z' then c as int - 'a' as int + 26
    else if '0' <= c <= '9' then c as int - '0' as int + 52
    else if c == '+' then 62
    else 63
  }

  /** Every value has one character, and reading it back gives the value. */
  lemma AlphabetInverse(v: sextet)
    ensures InAlphabet(Alphabet(v)) && ValueOf(Alphabet(v)) == v
  {
  }

  // ---------------------------------------------------------------- translation

  /** `s.replace(new RegExp(from, 'g'), to)` for a one-character pattern. */
  function ReplaceAll(s: string, from: char, to: char): (r: string)
    ensures |r| == |s|
  {
    if s == [] then []
    else [if s[0] == from then to else s[0]] + ReplaceAll(s[1..], from, to)
  }

  lemma {:induction false} ReplaceAllAt(s: string, from: char, to: char, i: int)
    requires 0 <= i < |s|
    ensures ReplaceAll(s, from, to)[i] == if s[i] == from then to else s[i]
    decreases |s|
  {
    if i > 0 {
      ReplaceAllAt(s[1..], from, to, i - 1);
    }
  }

  /** `base64Url.replace(/-/g, '+').replace(/_/g, '/')`. */
  function UrlToStandard(s: string): string {
    ReplaceAll(ReplaceAll(s, '-', '+'), '_', '/')
  }

  /** The translation keeps the length, turns every `-` into `+` and every `_`
      into `/`, and leaves every other character as it was. */
  lemma UrlToStandardAt(s: string)
    ensures |UrlToStandard(s)| == |s|
    ensures forall i :: 0 <= i < |s| ==>
      UrlToStandard(s)[i] == (if s[i] == '-' then '+' else if s[i] == '_' then '/' else s[i])
  {
    forall i | 0 <= i < |s|
      ensures UrlToStandard(s)[i] == (if s[i] == '-' then '+' else if s[i] == '_' then '/' else s[i])
    {
      ReplaceAllAt(s, '-', '+', i);
      ReplaceAllAt(ReplaceAll(s, '-', '+'), '_', '/', i);
    }
  }

  /** The translation maps base64url text onto the base64 text of the same values. */
  lemma UrlToStandardOfUrlText(vs: seq<sextet>)
    ensures UrlToStandard(UrlText(vs)) == Text(vs)
  {
    UrlToStandardAt(UrlText(vs));
  }

  // ---------------------------------------------------------------- decoding

  predicate IsAsciiWhitespace(c: char) {
    c == '\t' || c == '\n' || c == '\U{000C}' || c == '\r' || c == ' '
  }

  function RemoveWhitespace(s: string): (r: string)
    ensures |r| <= |s|
  {
    if s == [] then []
    else if IsAsciiWhitespace(s[0]) then RemoveWhitespace(s[1..])
    else [s[0]] + RemoveWhitespace(s[1..])
  }

  /** When the length is a multiple of four, one or two trailing `=` go. */
  function StripPadding(s: string): string {
    if |s| % 4 == 0 && |s| >= 2 && s[|s| - 2] == '=' && s[|s| - 1] == '=' then s[..|s| - 2]
    else if |s| % 4 == 0 && |s| >= 1 && s[|s| - 1] == '=' then s[..|s| - 1]
    else s
  }

  predicate AllInAlphabet(s: string) {
    forall i :: 0 <= i < |s| ==> InAlphabet(s[i])
  }

  function Values(s: string): (vs: seq<sextet>)
    requires AllInAlphabet(s)
    ensures |vs| == |s|
  {
    seq(|s|, i requires 0 <= i < |s| => ValueOf(s[i]))
  }

  /** The bytes that two, three and four values carry. */
  function FirstByte(v0: sextet, v1: sextet): byte { v0 * 4 + v1 / 16 }
  function SecondByte(v1: sextet, v2: sextet): byte { (v1 % 16) * 16 + v2 / 4 }
  function ThirdByte(v2: sextet, v3: sextet): byte { (v2 % 4) * 64 + v3 }

  /** Four values make three bytes; a final two or three make one or two,
      the bits left over being dropped. */
  function DecodeValues(vs: seq<sextet>): (b: seq<byte>)
    requires |vs| % 4 != 1
    ensures |b| == |vs| * 3 / 4
    decreases |vs|
  {
    if |vs| == 0 then []
    else if |vs| == 2 then [FirstByte(vs[0], vs[1])]
    else if |vs| == 3 then [FirstByte(vs[0], vs[1]), SecondByte(vs[1], vs[2])]
    else
      [FirstByte(vs[0], vs[1]), SecondByte(vs[1], vs[2]), ThirdByte(vs[2], vs[3])]
      + DecodeValues(vs[4..])
  }

  /** `atob(s)`: `None` when it throws. */
  function Atob(s: string): Option<seq<byte>> {
    var data := StripPadding(RemoveWhitespace(s));
    if |data| % 4 == 1 || !AllInAlphabet(data) then None
    else Some(DecodeValues(Values(data)))
  }

  /** `atob` decodes a binary string; its characters are the bytes. */
  function BinaryString(b: seq<byte>): (s: string)
    ensures |s| == |b|
  {
    seq(|b|, i requires 0 <= i < |b| => b[i] as char)
  }

  // ---------------------------------------------------------------- encoding

  /** Three bytes make four values; a final one or two make two or three. */
  function EncodeValues(b: seq<byte>): (vs: seq<sextet>)
    ensures |vs| % 4 != 1
    decreases |b|
  {
    if |b| == 0 then []
    else if |b| == 1 then [b[0] / 4, (b[0] % 4) * 16]
    else if |b| == 2 then [b[0] / 4, (b[0] % 4) * 16 + b[1] / 16, (b[1] % 16) * 4]
    else
      [b[0] / 4, (b[0] % 4) * 16 + b[1] / 16, (b[1] % 16) * 4 + b[2] / 64, b[2] % 64]
      + EncodeValues(b[3..])
  }

  function Text(vs: seq<sextet>): (s: string)
    ensures |s| == |vs|
  {
    seq(|vs|, i requires 0 <= i < |vs| => Alphabet(vs[i]))
  }

  function UrlText(vs: seq<sextet>): (s: string)
    ensures |s| == |vs|
  {
    seq(|vs|, i requires 0 <= i < |vs| => UrlAlphabet(vs[i]))
  }

  /** The padded base64 encoding (RFC 4648, section 4). */
  function Encode(b: seq<byte>): string {
    Text(EncodeValues(b)) + (if |b| % 3 == 1 then "==" else if |b| % 3 == 2 then "=" else "")
  }

  /** The unpadded base64url encoding JWS uses (RFC 7515, section 2). */
  function EncodeUrl(b: seq<byte>): string {
    UrlText(EncodeValues(b))
  }

  // ---------------------------------------------------------------- round trips

  /** Decoding the values of an encoding gives the bytes back. */
  lemma {:induction false} DecodeEncodeValues(b: seq<byte>)
    ensures DecodeValues(EncodeValues(b)) == b
    decreases |b|
  {
    if |b| >= 3 {
      var vs := EncodeValues(b);
      DecodeEncodeValues(b[3..]);
      assert vs[4..] == EncodeValues(b[3..]);
      assert b == b[..3] + b[3..];
    }
  }

  lemma {:induction false} EncodeValuesLength(b: seq<byte>)
    ensures |EncodeValues(b)| % 4 == (if |b| % 3 == 1 then 2 else if |b| % 3 == 2 then 3 else 0)
    decreases |b|
  {
    if |b| >= 3 {
      EncodeValuesLength(b[3..]);
    }
  }

  lemma {:induction false} RemoveWhitespaceKeeps(s: string)
    requires forall i :: 0 <= i < |s| ==> !IsAsciiWhitespace(s[i])
    ensures RemoveWhitespace(s) == s
    decreases |s|
  {
    if s != [] {
      RemoveWhitespaceKeeps(s[1..]);
      assert [s[0]] + s[1..] == s;
    }
  }

  lemma ValuesOfText(vs: seq<sextet>)
    ensures AllInAlphabet(Text(vs)) && Values(Text(vs)) == vs
  {
    forall i | 0 <= i < |vs| ensures InAlphabet(Text(vs)[i]) && ValueOf(Text(vs)[i]) == vs[i] {
      AlphabetInverse(vs[i]);
    }
  }

  lemma StripTwo(t: string)
    requires |t| % 4 == 2
    ensures StripPadding(t + "==") == t
  {
    var u := t + "==";
    assert |u| % 4 == 0 && u[|u| - 2] == '=' && u[|u| - 1] == '=';
    assert u[..|u| - 2] == t;
  }

  lemma StripOne(t: string)
    requires |t| % 4 == 3 && t[|t| - 1] != '='
    ensures StripPadding(t + "=") == t
  {
    var u := t + "=";
    assert |u| % 4 == 0 && u[|u| - 2] != '=' && u[|u| - 1] == '=';
    assert u[..|u| - 1] == t;
  }

  /** The padding of an encoding is exactly what `atob` strips. */
  lemma StripPaddingOfEncode(b: seq<byte>)
    ensures StripPadding(Encode(b)) == Text(EncodeValues(b))
  {
    var vs := EncodeValues(b);
    var t := Text(vs);
    EncodeValuesLength(b);
    if |vs| > 0 {
      AlphabetInverse(vs[|vs| - 1]);
    }
    if |b| % 3 == 1 {
      StripTwo(t);
    } else if |b| % 3 == 2 {
      StripOne(t);
    }
  }

  /** `atob` inverts the padded encoding: it accepts every encoding and
      returns exactly the bytes encoded. */
  lemma AtobEncode(b: seq<byte>)
    ensures Atob(Encode(b)) == Some(b)
  {
    var vs := EncodeValues(b);
    var s := Encode(b);
    EncodeValuesLength(b);
    forall i | 0 <= i < |s| ensures !IsAsciiWhitespace(s[i]) {
      if i < |vs| {
        AlphabetInverse(vs[i]);
      }
    }
    RemoveWhitespaceKeeps(s);
    StripPaddingOfEncode(b);
    ValuesOfText(vs);
    DecodeEncodeValues(b);
  }

  /** `atob` after the alphabet translation inverts base64url: the payload
      bytes of a compact token are recovered exactly. */
  lemma AtobUrl(b: seq<byte>)
    ensures Atob(UrlToStandard(EncodeUrl(b))) == Some(b)
  {
    var vs := EncodeValues(b);
    UrlToStandardOfUrlText(vs);
    var s := Text(vs);
    forall i | 0 <= i < |vs| ensures InAlphabet(s[i]) {
      AlphabetInverse(vs[i]);
    }
    RemoveWhitespaceKeeps(s);
    assert StripPadding(s) == s;
    ValuesOfText(vs);
    DecodeEncodeValues(b);
  }

  lemma {:induction false} RemoveWhitespaceKeepsOthers(s: string, c: char)
    requires c in s && !IsAsciiWhitespace(c)
    ensures c in RemoveWhitespace(s)
    decreases |s|
  {
    if s[0] != c {
      assert c in s[1..];
      RemoveWhitespaceKeepsOthers(s[1..], c);
    }
  }

  /** `atob` throws on base64url text holding `-` or `_`: those characters are
      not in its alphabet, so a token payload must be translated first. */
  lemma AtobRejectsUrlCharacters(s: string)
    requires '-' in s || '_' in s
    ensures Atob(s) == None
  {
    var c := if '-' in s then '-' else '_';
    RemoveWhitespaceKeepsOthers(s, c);
    var w := RemoveWhitespace(s);
    var data := StripPadding(w);
    var k :| 0 <= k < |w| && w[k] == c;
    if |data| % 4 != 1 {
      assert data == w[..|data|];
      assert k < |data| by {
        assert forall j :: |data| <= j < |w| ==> w[j] == '=';
      }
      assert !InAlphabet(data[k]);
    }
  }

  /** `atob` throws when, once whitespace is removed, one character is left
      over after the groups of four; padding is only stripped from a length
      that is a multiple of four, so it does not help. */
  lemma AtobRejectsLeftover(s: string)
    requires |RemoveWhitespace(s)| % 4 == 1
    ensures Atob(s) == None
  {
  }

  /** The same for a text without whitespace, such as `undefined`. */
  lemma AtobRejectsLengthOneMod4(s: string)
    requires forall i :: 0 <= i < |s| ==> !IsAsciiWhitespace(s[i])
    requires |s| % 4 == 1
    ensures Atob(s) == None
  {
    RemoveWhitespaceKeeps(s);
    AtobRejectsLeftover(s);
  }
}
