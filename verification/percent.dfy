/** The `%hh` step of the token decoder: every byte of the binary string
    that `atob` returns becomes `'%' + ('00' + code.toString(16)).slice(-2)`,
    a percent-encoded octet in the sense of section 2.1 of RFC 3986, so that
    `decodeURIComponent` can read the bytes as UTF-8. */
module Percent {
  import opened Wrappers
  import opened Base64

  /** A lowercase hexadecimal digit, as `toString(16)` writes it. */
  function HexDigit(d: int): char
    requires 0 <= d < 16
  {
    if d < 10 then ('0' as int + d) as char else ('a' as int + (d - 10)) as char
  }

  /** `n.toString(16)`. */
  function ToHex(n: nat): (s: string)
    ensures |s| >= 1
    decreases n
  {
    if n < 16 then [HexDigit(n)] else ToHex(n / 16) + [HexDigit(n % 16)]
  }

  /** `'%' + ('00' + c.toString(16)).slice(-2)` for one byte `c`. */
  function EscapeByte(c: byte): string {
    var padded := "00" + ToHex(c);
    "%" + padded[|padded| - 2..]
  }

  /** `bytes.map(escape).join('')`. */
  function Escape(bytes: seq<byte>): string
    decreases |bytes|
  {
    if bytes == [] then "" else EscapeByte(bytes[0]) + Escape(bytes[1..])
  }

  /** Every byte becomes `%` and exactly two lowercase hex digits, the high
      nibble first: the `'00'` prefix pads a single digit and `slice(-2)`
      never cuts a digit of a byte. */
  lemma EscapeByteDigits(c: byte)
    ensures EscapeByte(c) == ['%', HexDigit(c / 16), HexDigit(c % 16)]
  {
    var padded := "00" + ToHex(c);
    if c < 16 {
      assert ToHex(c) == [HexDigit(c)];
      assert padded[|padded| - 2..] == ['0', HexDigit(c)];
    } else {
      assert ToHex(c / 16) == [HexDigit(c / 16)];
      assert padded[|padded| - 2..] == [HexDigit(c / 16), HexDigit(c % 16)];
    }
  }

  /** The value of a hexadecimal digit in either case (RFC 3986, section 2.1). */
  function HexValue(ch: char): Option<int> {
    if '0' <= ch <= '9' then Some(ch as int - '0' as int)
    else if 'a' <= ch <= 'f' then Some(ch as int - 'a' as int + 10)
    else if 'A' <= ch <= 'F' then Some(ch as int - 'A' as int + 10)
    else None
  }

  lemma HexValueOfDigit(d: int)
    requires 0 <= d < 16
    ensures HexValue(HexDigit(d)) == Some(d)
  {
  }

  /** Percent-decoding of a string made only of `%hh` triplets: the inverse
      the `%hh` step is meant to have. */
  function Unescape(s: string): (r: Option<seq<byte>>)
    ensures r.Some? ==> |s| == 3 * |r.value|
    decreases |s|
  {
    if s == [] then Some([])
    else if |s| < 3 || s[0] != '%' then None
    else match (HexValue(s[1]), HexValue(s[2]), Unescape(s[3..]))
      case (Some(hi), Some(lo), Some(rest)) => Some([hi * 16 + lo] + rest)
      case _ => None
  }

  /** Each byte takes exactly three characters. */
  lemma {:induction false} EscapeLength(bytes: seq<byte>)
    ensures |Escape(bytes)| == 3 * |bytes|
    decreases |bytes|
  {
    if bytes != [] {
      EscapeByteDigits(bytes[0]);
      EscapeLength(bytes[1..]);
    }
  }

  /** Percent-decoding the escaped string gives back exactly the bytes. */
  lemma {:induction false} UnescapeEscape(bytes: seq<byte>)
    ensures Unescape(Escape(bytes)) == Some(bytes)
    decreases |bytes|
  {
    if bytes != [] {
      var c := bytes[0];
      var s := Escape(bytes);
      EscapeByteDigits(c);
      HexValueOfDigit(c / 16);
      HexValueOfDigit(c % 16);
      UnescapeEscape(bytes[1..]);
      assert s[3..] == Escape(bytes[1..]);
      assert [c] + bytes[1..] == bytes;
    }
  }

  /** Distinct byte strings escape to distinct text. */
  lemma EscapeInjective(a: seq<byte>, b: seq<byte>)
    requires Escape(a) == Escape(b)
    ensures a == b
  {
    UnescapeEscape(a);
    UnescapeEscape(b);
  }
}
