/** `token.split('.')[1]`: the second segment of a JWS Compact Serialization
    (section 7.1 of RFC 7515), the base64url-encoded payload. */
module Segments {
  import opened Wrappers

  /** `s.split(sep)`: the maximal pieces of `s` between occurrences of `sep`;
      there is always at least one. */
  function Split(s: string, sep: char): (parts: seq<string>)
    ensures |parts| >= 1
    decreases |s|
  {
    if s == [] then [""]
    else if s[0] == sep then [""] + Split(s[1..], sep)
    else
      var rest := Split(s[1..], sep);
      [[s[0]] + rest[0]] + rest[1..]
  }

  /** `parts.join(sep)`. */
  function Join(parts: seq<string>, sep: char): string
    decreases |parts|
  {
    if parts == [] then ""
    else if |parts| == 1 then parts[0]
    else parts[0] + [sep] + Join(parts[1..], sep)
  }

  /** `s.split(sep)[1]`: `None` (undefined) when `s` has no `sep`. */
  function SecondSegment(s: string, sep: char): Option<string> {
    var parts := Split(s, sep);
    if |parts| >= 2 then Some(parts[1]) else None
  }

  /** Joining a piece in front of at least one other puts the separator
      between them. */
  lemma JoinCons(head: string, rest: seq<string>, sep: char)
    requires |rest| >= 1
    ensures Join([head] + rest, sep) == head + [sep] + Join(rest, sep)
  {
    assert ([head] + rest)[1..] == rest;
  }

  /** Prepending a character to the first piece prepends it to the join. */
  lemma JoinPrependChar(c: char, parts: seq<string>, sep: char)
    requires |parts| >= 1
    ensures Join([[c] + parts[0]] + parts[1..], sep) == [c] + Join(parts, sep)
  {
    if |parts| == 1 {
      assert [[c] + parts[0]] + parts[1..] == [[c] + parts[0]];
    } else {
      JoinCons([c] + parts[0], parts[1..], sep);
      assert parts == [parts[0]] + parts[1..];
      JoinCons(parts[0], parts[1..], sep);
    }
  }

  /** Splitting loses nothing: joining the pieces gives the string back. */
  lemma {:induction false} JoinSplit(s: string, sep: char)
    ensures Join(Split(s, sep), sep) == s
    decreases |s|
  {
    if s != [] {
      JoinSplit(s[1..], sep);
      var rest := Split(s[1..], sep);
      if s[0] == sep {
        JoinCons("", rest, sep);
      } else {
        JoinPrependChar(s[0], rest, sep);
      }
      assert s == [s[0]] + s[1..];
    }
  }

  /** No piece contains the separator. */
  lemma {:induction false} SplitPiecesFree(s: string, sep: char)
    ensures forall i :: 0 <= i < |Split(s, sep)| ==> sep !in Split(s, sep)[i]
    decreases |s|
  {
    if s != [] {
      SplitPiecesFree(s[1..], sep);
    }
  }

  /** There are as many pieces as separators, plus one; in particular a
      second piece exists exactly when the separator occurs. */
  lemma {:induction false} SplitCount(s: string, sep: char)
    ensures |Split(s, sep)| == multiset(s)[sep] + 1
    decreases |s|
  {
    if s != [] {
      SplitCount(s[1..], sep);
      assert s == [s[0]] + s[1..];
      assert multiset(s) == multiset{s[0]} + multiset(s[1..]);
    }
  }

  /** A string without the separator is a single piece. */
  lemma {:induction false} SplitWithout(s: string, sep: char)
    requires sep !in s
    ensures Split(s, sep) == [s]
    decreases |s|
  {
    if s != [] {
      SplitWithout(s[1..], sep);
      assert [s[0]] + s[1..] == s;
    }
  }

  /** Splitting `head + sep + tail`, where `head` holds no separator, gives
      `head` followed by the pieces of `tail`. */
  lemma {:induction false} SplitAfterFirst(head: string, tail: string, sep: char)
    requires sep !in head
    ensures Split(head + [sep] + tail, sep) == [head] + Split(tail, sep)
    decreases |head|
  {
    var s := head + [sep] + tail;
    if head == [] {
      assert s[1..] == tail;
    } else {
      assert s[1..] == head[1..] + [sep] + tail;
      SplitAfterFirst(head[1..], tail, sep);
      assert [head[0]] + head[1..] == head;
    }
  }

  /** `SecondSegment` finds exactly the text between the first and the second
      separator (or the end): for a compact token `header.payload.signature`
      it is the payload. */
  lemma SecondSegmentOf(head: string, middle: string, rest: string, sep: char)
    requires sep !in head && sep !in middle
    requires rest == [] || rest[0] == sep
    ensures SecondSegment(head + [sep] + middle + rest, sep) == Some(middle)
  {
    if rest == [] {
      SplitAfterFirst(head, middle, sep);
      SplitWithout(middle, sep);
      assert head + [sep] + middle + rest == head + [sep] + middle;
    } else {
      SplitAfterFirst(head, middle + rest, sep);
      SplitAfterFirst(middle, rest[1..], sep);
      assert middle + [sep] + rest[1..] == middle + rest;
      assert head + [sep] + middle + rest == head + [sep] + (middle + rest);
    }
  }

  /** The second segment is missing exactly when there is no separator. */
  lemma SecondSegmentMissing(s: string, sep: char)
    ensures SecondSegment(s, sep).None? <==> sep !in s
  {
    SplitCount(s, sep);
  }
}
