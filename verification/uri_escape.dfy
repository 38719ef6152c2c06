/**
 * `Uri.EscapeDataString`: percent-encoding as in section 2.1 of RFC 3986. Characters outside
 * the unreserved set of section 2.3 are encoded as the UTF-8 bytes of the character, each
 * written `%` followed by two upper-case hexadecimal digits.
 */
module UriEscape {

  /** `ALPHA / DIGIT / "-" / "." / "_" / "~"` (RFC 3986, section 2.3). */
  predicate IsUnreserved(c: char)
  {
    ('A' <= c <= 'Z') || ('a' <= c <= 'z') || ('0' <= c <= '9') || c == '-' || c == '.' || c == '_' || c == '~'
  }

  /** The upper-case hexadecimal digit for a value below 16. */
  function HexDigit(v: int): (c: char)
    requires 0 <= v < 16
    ensures ('0' <= c <= '9') || ('A' <= c <= 'F')
  {
    if v < 10 then ('0' as int + v) as char else ('A' as int + v - 10) as char
  }

  /** The value of an upper-case hexadecimal digit; the inverse of `HexDigit`. */
  function HexValue(c: char): (v: int)
    requires ('0' <= c <= '9') || ('A' <= c <= 'F')
    ensures 0 <= v < 16 && HexDigit(v) == c
  {
    if c <= '9' then c as int - '0' as int else c as int - 'A' as int + 10
  }

  /** A byte in `%XX` form, which a decoder reads back as the same byte. */
  function PercentByte(b: int): (r: string)
    requires 0 <= b < 256
    ensures |r| == 3 && r[0] == '%' && IsUnreserved(r[1]) && IsUnreserved(r[2])
    ensures ('0' <= r[1] <= '9' || 'A' <= r[1] <= 'F') && ('0' <= r[2] <= '9' || 'A' <= r[2] <= 'F')
    ensures HexValue(r[1]) * 16 + HexValue(r[2]) == b
  {
    var hi, lo := b / 16, b % 16;
    assert HexValue(HexDigit(hi)) == hi && HexValue(HexDigit(lo)) == lo;
    ['%', HexDigit(hi), HexDigit(lo)]
  }

  /** The UTF-8 encoding of a Unicode scalar value (RFC 3629, section 3). */
  function Utf8(c: char): (bytes: seq<int>)
    ensures 1 <= |bytes| <= 4
    ensures forall i :: 0 <= i < |bytes| ==> 0 <= bytes[i] < 256
  {
    var n := c as int;
    if n < 0x80 then [n]
    else if n < 0x800 then [0xC0 + n / 0x40, 0x80 + n % 0x40]
    else if n < 0x10000 then [0xE0 + n / 0x1000, 0x80 + (n / 0x40) % 0x40, 0x80 + n % 0x40]
    else [0xF0 + n / 0x40000, 0x80 + (n / 0x1000) % 0x40, 0x80 + (n / 0x40) % 0x40, 0x80 + n % 0x40]
  }

  /** The code point a one- to four-byte UTF-8 sequence stands for (the decoder's side). */
  function Utf8Value(bytes: seq<int>): int
  {
    if |bytes| == 1 then bytes[0]
    else if |bytes| == 2 then (bytes[0] - 0xC0) * 0x40 + (bytes[1] - 0x80)
    else if |bytes| == 3 then (bytes[0] - 0xE0) * 0x1000 + (bytes[1] - 0x80) * 0x40 + (bytes[2] - 0x80)
    else if |bytes| == 4 then
      (bytes[0] - 0xF0) * 0x40000 + (bytes[1] - 0x80) * 0x1000 + (bytes[2] - 0x80) * 0x40 + (bytes[3] - 0x80)
    else 0
  }

  /** Decoding the bytes `Utf8` writes gives back the character. */
  lemma Utf8RoundTrip(c: char)
    ensures Utf8Value(Utf8(c)) == c as int
  {
    var n := c as int;
    var q1, r1 := n / 0x40, n % 0x40;
    assert n == q1 * 0x40 + r1;
    if n < 0x80 {
    } else if n < 0x800 {
    } else if n < 0x10000 {
      var q2, r2 := q1 / 0x40, q1 % 0x40;
      assert q1 == q2 * 0x40 + r2;
      assert n / 0x1000 == q2;
    } else {
      var q2, r2 := q1 / 0x40, q1 % 0x40;
      assert q1 == q2 * 0x40 + r2;
      assert n / 0x1000 == q2;
      var q3, r3 := q2 / 0x40, q2 % 0x40;
      assert q2 == q3 * 0x40 + r3;
      assert n / 0x40000 == q3;
    }
  }

  function PercentBytes(bytes: seq<int>): (r: string)
    requires forall i :: 0 <= i < |bytes| ==> 0 <= bytes[i] < 256
    ensures |r| == 3 * |bytes|
    ensures forall i :: 0 <= i < |r| ==> IsUnreserved(r[i]) || r[i] == '%'
  {
    if bytes == [] then [] else PercentByte(bytes[0]) + PercentBytes(bytes[1..])
  }

  /** How one character is written: itself when unreserved, else its percent-encoded UTF-8 bytes. */
  function EscapeChar(c: char): (r: string)
    ensures IsUnreserved(c) ==> r == [c]
    ensures !IsUnreserved(c) ==> |r| >= 3
    ensures forall i :: 0 <= i < |r| ==> IsUnreserved(r[i]) || r[i] == '%'
  {
    if IsUnreserved(c) then [c] else PercentBytes(Utf8(c))
  }

  /**
   * `Uri.EscapeDataString(s)`. The result uses only unreserved characters and `%`, so it
   * cannot end a query parameter (`&`), start a fragment (`#`) or open another (`?`, `=`);
   * it is `s` itself exactly when every character of `s` is unreserved.
   */
  function EscapeDataString(s: string): (r: string)
    ensures forall i :: 0 <= i < |r| ==> IsUnreserved(r[i]) || r[i] == '%'
    ensures |r| >= |s|
    ensures (forall i :: 0 <= i < |s| ==> IsUnreserved(s[i])) ==> r == s
    ensures |r| == |s| ==> forall i :: 0 <= i < |s| ==> IsUnreserved(s[i])
  {
    if s == [] then []
    else
      var head := EscapeChar(s[0]);
      var tail := EscapeDataString(s[1..]);
      assert forall i :: 0 <= i < |head + tail| ==> (head + tail)[i] == if i < |head| then head[i] else tail[i - |head|];
      assert (forall i :: 0 <= i < |s| ==> IsUnreserved(s[i])) ==> forall i :: 0 <= i < |s| - 1 ==> IsUnreserved(s[1..][i]);
      assert s == [s[0]] + s[1..];
      assert |head + tail| == |s| ==> forall i :: 0 <= i < |s| - 1 ==> IsUnreserved(s[1..][i]);
      head + tail
  }
}
