/** Reading the claims of a JSON Web Token (section 3 of RFC 7519): the
    payload segment is translated from base64url, decoded with `atob`,
    percent-escaped byte by byte, decoded as UTF-8 by `decodeURIComponent`
    and parsed by `JSON.parse`. The last two are browser primitives and are
    given as parameters. */
module Jwt {
  import opened Wrappers
  import opened Js
  import opened Http
  import opened Segments
  import opened Base64
  import opened Percent

  /** The browser's `decodeURIComponent` and `JSON.parse`, as partial
      functions: `None` stands for the URIError or SyntaxError they throw. */
  datatype Primitives = Primitives(
    decodeUriComponent: string -> Option<string>,
    parseJson: string -> Option<Value>)

  /** `decodeURIComponent(escaped bytes)` then `JSON.parse`. */
  function DecodeBytes(p: Primitives, bytes: seq<byte>): Outcome<Value> {
    match p.decodeUriComponent(Escape(bytes))
    case None => Thrown(DecodeError(InvalidUtf8))
    case Some(text) =>
      match p.parseJson(text)
      case None => Thrown(DecodeError(InvalidJson))
      case Some(v) => Ok(v)
  }

  /** The decoding chain that `parseJwt` and `getUserIdFromToken` share, with
      the exception each step can throw. */
  function DecodePayload(p: Primitives, token: string): (r: Outcome<Value>)
    ensures '.' !in token ==> r == Thrown(DecodeError(MissingSegment))
    ensures r.Thrown? ==> r.error.DecodeError?
  {
    SecondSegmentMissing(token, '.');
    match SecondSegment(token, '.')
    case None => Thrown(DecodeError(MissingSegment))
    case Some(segment) =>
      match Atob(UrlToStandard(segment))
      case None => Thrown(DecodeError(InvalidBase64))
      case Some(bytes) => DecodeBytes(p, bytes)
  }

  /** `parseJwt(token)`: the parsed payload, or null when any step throws. */
  function ParseJwt(p: Primitives, token: string): (v: Value)
    ensures DecodePayload(p, token).Ok? ==> v == DecodePayload(p, token).value
    ensures DecodePayload(p, token).Thrown? ==> v == Null
  {
    match DecodePayload(p, token)
    case Ok(v) => v
    case Thrown(_) => Null
  }

  /** The compact serialization `header.payload.signature` of a token whose
      payload bytes are `payload`. */
  function Compact(header: string, payload: seq<byte>, signature: string): string {
    header + "." + EncodeUrl(payload) + "." + signature
  }

  lemma EncodeUrlHasNoDot(b: seq<byte>)
    ensures '.' !in EncodeUrl(b)
  {
    var vs := EncodeValues(b);
    forall i | 0 <= i < |vs| ensures EncodeUrl(b)[i] != '.' {
      AlphabetInverse(vs[i]);
    }
  }

  /** For every well-formed compact token, the decoder reaches
      `decodeURIComponent` with exactly the escaped payload bytes: the
      signature and anything after the second dot play no part. */
  lemma DecodePayloadOfCompact(p: Primitives, header: string, payload: seq<byte>, signature: string)
    requires '.' !in header
    ensures DecodePayload(p, Compact(header, payload, signature)) == DecodeBytes(p, payload)
  {
    var token := Compact(header, payload, signature);
    EncodeUrlHasNoDot(payload);
    assert token == header + ['.'] + EncodeUrl(payload) + ("." + signature);
    SecondSegmentOf(header, EncodeUrl(payload), "." + signature, '.');
    AtobUrl(payload);
  }

  /** A token without a dot has no payload, and `parseJwt` gives null. */
  lemma ParseJwtWithoutDot(p: Primitives, token: string)
    requires '.' !in token
    ensures ParseJwt(p, token) == Null
  {
  }
}
