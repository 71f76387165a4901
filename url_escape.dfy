/** Percent-encoding as Go's `net/url` package does it (`PathEscape`,
    `QueryEscape`, `PathUnescape`, `QueryUnescape`): section 2.1 of RFC 3986
    with uppercase hex digits, the path-segment rules of section 3.3, and
    `+` for space in query components. */
module UrlEscape {
  import opened Text
  import opened Wrappers

  predicate IsAlnum(c: char) {
    ('a' <= c <= 'z') || ('A' <= c <= 'Z') || ('0' <= c <= '9')
  }

  predicate IsHex(c: char) {
    ('0' <= c <= '9') || ('a' <= c <= 'f') || ('A' <= c <= 'F')
  }

  /** The value of a hex digit. */
  function Unhex(c: char): (d: nat)
    requires IsHex(c)
    ensures d < 16
  {
    if '0' <= c <= '9' then c as int - '0' as int
    else if 'a' <= c <= 'f' then c as int - 'a' as int + 10
    else c as int - 'A' as int + 10
  }

  /** The uppercase hex digit of a value below 16. */
  function HexDigit(d: nat): (c: char)
    requires d < 16
    ensures IsHex(c) && Unhex(c) == d
    ensures IsAlnum(c)
  {
    if d < 10 then ('0' as int + d) as char else ('A' as int + d - 10) as char
  }

  /** `%XX` for one byte. */
  function HexEscape(c: char): (r: string)
    requires c as int < 256
  {
    ['%', HexDigit(c as int / 16), HexDigit(c as int % 16)]
  }

  /** Go's `shouldEscape(c, encodePathSegment)`: everything except ALPHA,
      DIGIT, the unreserved marks `-_.~` and the sub-delimiters that a path
      segment may hold unescaped, `$&+:=@`. */
  predicate EscapeInPathSegment(c: char) {
    !(IsAlnum(c) || c in "-_.~" || c in "$&+:=@")
  }

  /** Go's `shouldEscape(c, encodeQueryComponent)`: everything except ALPHA,
      DIGIT and `-_.~`. */
  predicate EscapeInQuery(c: char) {
    !(IsAlnum(c) || c in "-_.~")
  }

  /** Go's `url.PathEscape`. */
  function PathEscape(s: string): (r: string)
    requires IsBytes(s)
  {
    if s == [] then []
    else (if EscapeInPathSegment(s[0]) then HexEscape(s[0]) else [s[0]]) + PathEscape(s[1..])
  }

  /** Go's `url.QueryEscape`: space becomes `+`. */
  function QueryEscape(s: string): (r: string)
    requires IsBytes(s)
  {
    if s == [] then []
    else (if s[0] == ' ' then "+" else if EscapeInQuery(s[0]) then HexEscape(s[0]) else [s[0]])
         + QueryEscape(s[1..])
  }

  /** Go's `unescape`: `%XX` becomes the byte XX, and `+` becomes a space
      when `plusIsSpace` (query components). A `%` not followed by two hex
      digits makes the whole decoding fail. */
  function Unescape(s: string, plusIsSpace: bool): (r: Option<string>)
    ensures r.Some? ==> |r.value| <= |s|
  {
    if s == [] then Some([])
    else if s[0] == '%' then
      if |s| < 3 || !IsHex(s[1]) || !IsHex(s[2]) then None
      else match Unescape(s[3..], plusIsSpace)
        case None => None
        case Some(t) => Some([(Unhex(s[1]) * 16 + Unhex(s[2])) as char] + t)
    else match Unescape(s[1..], plusIsSpace)
      case None => None
      case Some(t) => Some([if s[0] == '+' && plusIsSpace then ' ' else s[0]] + t)
  }

  /** Go's `url.QueryUnescape`. */
  function QueryUnescape(s: string): Option<string> {
    Unescape(s, true)
  }

  /** Go's `url.PathUnescape`. */
  function PathUnescape(s: string): Option<string> {
    Unescape(s, false)
  }

  /** A `%` that is not followed by two hex digits. */
  predicate BadEscapeAt(s: string, i: int) {
    0 <= i < |s| && s[i] == '%' && (i + 2 >= |s| || !IsHex(s[i + 1]) || !IsHex(s[i + 2]))
  }

  lemma HexEscapeRoundTrip(c: char, t: string, plusIsSpace: bool)
    requires c as int < 256
    ensures (HexEscape(c) + t)[0] == '%' && (HexEscape(c) + t)[3..] == t
    ensures Unhex(HexEscape(c)[1]) * 16 + Unhex(HexEscape(c)[2]) == c as int
  {
    assert (HexEscape(c) + t)[3..] == t;
  }

  lemma BytesTail(s: string)
    requires IsBytes(s) && s != []
    ensures IsBytes(s[1..]) && s[0] as int < 256
  {
    assert s[0] in s;
    assert forall c :: c in s[1..] ==> c in s;
  }

  /** Decoding an escape in front of a decodable rest. */
  lemma UnescapeHexStep(c: char, t: string, plusIsSpace: bool, u: string)
    requires c as int < 256 && Unescape(t, plusIsSpace) == Some(u)
    ensures Unescape(HexEscape(c) + t, plusIsSpace) == Some([c] + u)
  {
    var e := HexEscape(c) + t;
    HexEscapeRoundTrip(c, t, plusIsSpace);
    assert IsHex(e[1]) && IsHex(e[2]);
  }

  /** Decoding a char other than `%` in front of a decodable rest. */
  lemma UnescapeCharStep(c: char, t: string, plusIsSpace: bool, u: string)
    requires c != '%' && Unescape(t, plusIsSpace) == Some(u)
    ensures Unescape([c] + t, plusIsSpace) == Some([if c == '+' && plusIsSpace then ' ' else c] + u)
  {
    assert ([c] + t)[1..] == t;
  }

  /** Path-unescaping undoes path-escaping. */
  lemma {:induction false} PathEscapeRoundTrip(s: string)
    requires IsBytes(s)
    ensures PathUnescape(PathEscape(s)) == Some(s)
    decreases |s|
  {
    if s != [] {
      BytesTail(s);
      PathEscapeRoundTrip(s[1..]);
      var t := PathEscape(s[1..]);
      assert s == [s[0]] + s[1..];
      if EscapeInPathSegment(s[0]) {
        UnescapeHexStep(s[0], t, false, s[1..]);
      } else {
        assert s[0] != '%';
        UnescapeCharStep(s[0], t, false, s[1..]);
      }
    }
  }

  /** Query-unescaping undoes query-escaping. */
  lemma {:induction false} QueryEscapeRoundTrip(s: string)
    requires IsBytes(s)
    ensures QueryUnescape(QueryEscape(s)) == Some(s)
    decreases |s|
  {
    if s != [] {
      BytesTail(s);
      QueryEscapeRoundTrip(s[1..]);
      var t := QueryEscape(s[1..]);
      assert s == [s[0]] + s[1..];
      if s[0] == ' ' {
        UnescapeCharStep('+', t, true, s[1..]);
      } else if EscapeInQuery(s[0]) {
        UnescapeHexStep(s[0], t, true, s[1..]);
      } else {
        assert s[0] != '%' && s[0] != '+';
        UnescapeCharStep(s[0], t, true, s[1..]);
      }
    }
  }

  /** Path-escaped text holds only ALPHA, DIGIT, `-_.~$&+:=@` and the `%`
      of an escape, so in particular no space and no `/`. */
  lemma {:induction false} PathEscapeSafe(s: string)
    requires IsBytes(s)
    ensures forall c :: c in PathEscape(s) ==> !EscapeInPathSegment(c) || c == '%'
    ensures ' ' !in PathEscape(s) && '/' !in PathEscape(s)
    decreases |s|
  {
    if s != [] {
      BytesTail(s);
      PathEscapeSafe(s[1..]);
    }
  }

  /** Decoding fails exactly when some `%` lacks two hex digits after it. */
  lemma {:induction false} UnescapeFailsIff(s: string, plusIsSpace: bool)
    ensures Unescape(s, plusIsSpace).None? <==> exists i :: BadEscapeAt(s, i)
    decreases |s|
  {
    if s != [] {
      if s[0] == '%' && (|s| < 3 || !IsHex(s[1]) || !IsHex(s[2])) {
        assert BadEscapeAt(s, 0);
      } else {
        var k := if s[0] == '%' then 3 else 1;
        UnescapeFailsIff(s[k..], plusIsSpace);
        if exists i :: BadEscapeAt(s[k..], i) {
          var i :| BadEscapeAt(s[k..], i);
          assert BadEscapeAt(s, i + k);
        }
        if exists i :: BadEscapeAt(s, i) {
          var i :| BadEscapeAt(s, i);
          assert i >= k;
          assert BadEscapeAt(s[k..], i - k);
        }
      }
    }
  }

  /** Text without `%` and `+` decodes to itself. */
  lemma {:induction false} UnescapePlain(s: string, plusIsSpace: bool)
    requires '%' !in s && '+' !in s
    ensures Unescape(s, plusIsSpace) == Some(s)
    decreases |s|
  {
    if s != [] {
      assert forall c :: c in s[1..] ==> c in s;
      assert s[0] in s && s == [s[0]] + s[1..];
      UnescapePlain(s[1..], plusIsSpace);
    }
  }
}
