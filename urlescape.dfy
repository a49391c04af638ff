/**
 * Go's `url.PathEscape`: percent-encoding (section 2.1 of RFC 3986) of one
 * path segment (section 3.3 of RFC 3986), byte by byte, with upper-case hex
 * digits. Unreserved bytes (letters, digits, `-`, `_`, `.`, `~`) and the
 * sub-delimiters a segment may hold (`$`, `&`, `+`, `:`, `=`, `@`) are kept;
 * `/`, `;`, `,`, `?` and every other byte, space, `#` and `%` among them,
 * become `%XY`.
 */
module UrlEscape {
  import opened GoStrings
  import opened Wrappers

  const Percent: byte := '%' as byte
  const Slash: byte := '/' as byte
  const Question: byte := '?' as byte
  const Hash: byte := '#' as byte

  predicate IsAlnum(c: byte)
  {
    ('a' as byte <= c <= 'z' as byte) || ('A' as byte <= c <= 'Z' as byte) || ('0' as byte <= c <= '9' as byte)
  }

  /** Go's `shouldEscape(c, encodePathSegment)`. */
  predicate ShouldEscape(c: byte)
  {
    !(IsAlnum(c)
      || c in {'-' as byte, '_' as byte, '.' as byte, '~' as byte}
      || c in {'$' as byte, '&' as byte, '+' as byte, ':' as byte, '=' as byte, '@' as byte})
  }

  /** The upper-case hex digit for `d` (Go's `upperhex[d]`). */
  function UpperHex(d: int): (c: byte)
    requires 0 <= d < 16
    ensures IsUpperHexDigit(c) && HexValue(c) == d
  {
    if d < 10 then ('0' as int + d) as byte else ('A' as int + d - 10) as byte
  }

  /** The digits Go's `upperhex` writes: `0`-`9` and `A`-`F`. */
  predicate IsUpperHexDigit(c: byte)
  {
    ('0' as byte <= c <= '9' as byte) || ('A' as byte <= c <= 'F' as byte)
  }

  /** The digits Go's `ishex` accepts, in either case. */
  predicate IsHexDigit(c: byte)
  {
    IsUpperHexDigit(c) || ('a' as byte <= c <= 'f' as byte)
  }

  /** Go's `unhex`, which takes either case. */
  function HexValue(c: byte): (d: int)
    requires IsHexDigit(c)
    ensures 0 <= d < 16
  {
    if c <= '9' as byte then c as int - '0' as int
    else if c <= 'F' as byte then c as int - 'A' as int + 10
    else c as int - 'a' as int + 10
  }

  /** How one byte appears in an escaped path segment. */
  function EscapeByte(c: byte): (r: seq<byte>)
    ensures ShouldEscape(c) ==>
              && |r| == 3 && r[0] == Percent
              && IsUpperHexDigit(r[1]) && IsUpperHexDigit(r[2])
              && HexValue(r[1]) * 16 + HexValue(r[2]) == c as int
    ensures !ShouldEscape(c) ==> r == [c]
  {
    if ShouldEscape(c) then [Percent, UpperHex(c as int / 16), UpperHex(c as int % 16)] else [c]
  }

  /**
   * `url.PathEscape(s)`. Every byte of the result is `%` or a byte a path
   * segment may carry as it is; so in particular no space, `/`, `?` or `#`.
   */
  function PathEscape(s: seq<byte>): (r: seq<byte>)
    ensures forall i | 0 <= i < |r| :: r[i] == Percent || !ShouldEscape(r[i])
    ensures Space !in r && Slash !in r && Question !in r && Hash !in r
    ensures |s| <= |r| <= 3 * |s|
  {
    if s == [] then [] else EscapeByte(s[0]) + PathEscape(s[1..])
  }

  /**
   * `url.PathUnescape(s)`, the inverse the same package offers: every `%`
   * must be followed by two hex digits, otherwise the input is malformed.
   */
  function PathUnescape(s: seq<byte>): (r: Option<seq<byte>>)
    decreases |s|
  {
    if s == [] then Some([])
    else if s[0] == Percent then
      if |s| < 3 || !IsHexDigit(s[1]) || !IsHexDigit(s[2]) then None
      else match PathUnescape(s[3..])
        case None => None
        case Some(t) => Some([(HexValue(s[1]) * 16 + HexValue(s[2])) as byte] + t)
    else match PathUnescape(s[1..])
      case None => None
      case Some(t) => Some([s[0]] + t)
  }

  /** Escaping is lossless: unescaping undoes it for every byte string. */
  lemma {:induction false} UnescapeEscape(s: seq<byte>)
    ensures PathUnescape(PathEscape(s)) == Some(s)
  {
    if s != [] {
      var c := s[0];
      var e := PathEscape(s);
      UnescapeEscape(s[1..]);
      if ShouldEscape(c) {
        assert e[3..] == PathEscape(s[1..]);
        assert e[0] == Percent;
        assert (HexValue(e[1]) * 16 + HexValue(e[2])) == c as int;
      } else {
        assert e[1..] == PathEscape(s[1..]);
        assert c != Percent;
      }
      assert s == [c] + s[1..];
    }
  }

  /** Escaping distributes over concatenation: bytes are escaped one by one. */
  lemma {:induction false} EscapeConcat(a: seq<byte>, b: seq<byte>)
    ensures PathEscape(a + b) == PathEscape(a) + PathEscape(b)
  {
    if a != [] {
      assert (a + b)[1..] == a[1..] + b;
      EscapeConcat(a[1..], b);
    } else {
      assert a + b == b;
    }
  }

  /** Text made only of bytes a segment may carry is left unchanged. */
  lemma {:induction false} EscapeSafe(s: seq<byte>)
    requires forall i | 0 <= i < |s| :: !ShouldEscape(s[i])
    ensures PathEscape(s) == s
  {
    if s != [] {
      EscapeSafe(s[1..]);
    }
  }

  /** A space becomes `%20`, parentheses `%28` and `%29`, a slash `%2F`. */
  lemma EscapeExamples()
    ensures PathEscape([Space]) == Bytes("%20")
    ensures PathEscape([Slash]) == Bytes("%2F")
    ensures PathEscape(['(' as byte]) == Bytes("%28")
    ensures PathEscape([')' as byte]) == Bytes("%29")
  {
  }
}
