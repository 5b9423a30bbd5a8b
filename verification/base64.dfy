/**
 * The commons-codec Base64 calls DataURI makes: encodeBase64(data, false, true)
 * (the URL and filename safe alphabet of section 5 of RFC 4648, no padding,
 * no line breaks) and the lenient decodeBase64, which accepts both alphabets,
 * skips characters outside them and stops at the first '='.
 */
module Base64 {
  import opened Wrappers

  type byte = x: int | 0 <= x < 256
  type sextet = x: int | 0 <= x < 64

  /** Characters of the alphabet of section 5 of RFC 4648. */
  predicate IsUrlSafe(c: char)
  {
    'A' <= c <= 'Z' || 'a' <= c <= 'z' || '0' <= c <= '9' || c == '-' || c == '_'
  }

  /** Value of a character in the decoding table; `None` for characters decoding skips. */
  function SextetOf(c: char): (r: Option<sextet>)
    ensures IsUrlSafe(c) ==> r.Some?
    ensures c == '=' || c == ',' || c == ';' ==> r == None
  {
    if 'A' <= c <= 'Z' then Some(c as int - 'A' as int)
    else if 'a' <= c <= 'z' then Some(c as int - 'a' as int + 26)
    else if '0' <= c <= '9' then Some(c as int - '0' as int + 52)
    else if c == '+' || c == '-' then Some(62)
    else if c == '/' || c == '_' then Some(63)
    else None
  }

  /** The character encoding emits for a 6-bit value; decoding reads it back. */
  function UrlSafeChar(v: sextet): (c: char)
    ensures IsUrlSafe(c)
    ensures SextetOf(c) == Some(v)
  {
    if v < 26 then ('A' as int + v) as char
    else if v < 52 then ('a' as int + v - 26) as char
    else if v < 62 then ('0' as int + v - 52) as char
    else if v == 62 then '-'
    else '_'
  }

  /** The 6-bit groups of `d`, most significant bits first; a last group of one or two bytes is zero-filled. */
  function EncodeSextets(d: seq<byte>): (q: seq<sextet>)
    ensures |q| == (4 * |d| + 2) / 3
    decreases |d|
  {
    if |d| == 0 then []
    else if |d| == 1 then [d[0] / 4, (d[0] % 4) * 16]
    else if |d| == 2 then [d[0] / 4, (d[0] % 4) * 16 + d[1] / 16, (d[1] % 16) * 4]
    else [d[0] / 4, (d[0] % 4) * 16 + d[1] / 16, (d[1] % 16) * 4 + d[2] / 64, d[2] % 64] + EncodeSextets(d[3..])
  }

  function Chars(q: seq<sextet>): (s: string)
    ensures |s| == |q| && forall k :: 0 <= k < |q| ==> s[k] == UrlSafeChar(q[k])
  {
    if q == [] then "" else [UrlSafeChar(q[0])] + Chars(q[1..])
  }

  /** String(Base64.encodeBase64(d, false, true), "ASCII"). */
  function Encode(d: seq<byte>): (s: string)
    ensures |s| == (4 * |d| + 2) / 3
    ensures forall k :: 0 <= k < |s| ==> IsUrlSafe(s[k])
  {
    Chars(EncodeSextets(d))
  }

  /** The values decoding reads: up to the first '=', skipping characters outside the table. */
  function Sextets(s: string): seq<sextet>
  {
    if s == [] || s[0] == '=' then []
    else
      match SextetOf(s[0])
      case None => Sextets(s[1..])
      case Some(v) => [v] + Sextets(s[1..])
  }

  /**
   * Four values give three bytes; a trailing group of two or three values
   * gives one or two bytes and a single trailing value is dropped.
   */
  function DecodeSextets(q: seq<sextet>): (d: seq<byte>)
    ensures |d| == 3 * |q| / 4
    decreases |q|
  {
    if |q| < 2 then []
    else if |q| == 2 then [High(q[0], q[1])]
    else if |q| == 3 then [High(q[0], q[1]), Middle(q[1], q[2])]
    else [High(q[0], q[1]), Middle(q[1], q[2]), Low(q[2], q[3])] + DecodeSextets(q[4..])
  }

  /** First byte of a group: all six bits of `a` and the top two of `b`. */
  function High(a: sextet, b: sextet): byte
  {
    (a as int) * 4 + (b as int) / 16
  }

  /** Second byte of a group: the low four bits of `b` and the top four of `c`. */
  function Middle(b: sextet, c: sextet): byte
  {
    (b as int % 16) * 16 + (c as int) / 4
  }

  /** Third byte of a group: the low two bits of `c` and all six of `e`. */
  function Low(c: sextet, e: sextet): byte
  {
    (c as int % 4) * 64 + e as int
  }

  /** Base64.decodeBase64(s). */
  function Decode(s: string): seq<byte>
  {
    DecodeSextets(Sextets(s))
  }

  lemma {:induction false} SextetsOfChars(q: seq<sextet>)
    ensures Sextets(Chars(q)) == q
  {
    if q != [] {
      SextetsOfChars(q[1..]);
      assert Chars(q)[1..] == Chars(q[1..]);
    }
  }

  lemma SplitByte(b: byte, k: nat)
    requires k == 4 || k == 16 || k == 64
    ensures b == (b / k) * k + b % k
  {
  }

  /** The three bytes of a full group come back from its four values. */
  lemma GroupRoundTrip(x: byte, y: byte, z: byte)
    ensures High(x / 4, (x % 4) * 16 + y / 16) == x
    ensures Middle((x % 4) * 16 + y / 16, (y % 16) * 4 + z / 64) == y
    ensures Low((y % 16) * 4 + z / 64, z % 64) == z
  {
    SplitByte(x, 4);
    SplitByte(y, 16);
    SplitByte(z, 64);
  }

  /** A last group of one or two bytes comes back from its two or three values. */
  lemma TailRoundTrip(x: byte, y: byte)
    ensures High(x / 4, (x % 4) * 16) == x
    ensures High(x / 4, (x % 4) * 16 + y / 16) == x
    ensures Middle((x % 4) * 16 + y / 16, (y % 16) * 4) == y
  {
    SplitByte(x, 4);
    SplitByte(y, 16);
  }

  lemma {:induction false} DecodeEncodeSextets(d: seq<byte>)
    ensures DecodeSextets(EncodeSextets(d)) == d
    decreases |d|
  {
    var q := EncodeSextets(d);
    if |d| == 1 {
      TailRoundTrip(d[0], 0);
      assert DecodeSextets(q) == [High(q[0], q[1])];
    } else if |d| == 2 {
      TailRoundTrip(d[0], d[1]);
      assert DecodeSextets(q) == [High(q[0], q[1]), Middle(q[1], q[2])];
    } else if |d| > 2 {
      GroupRoundTrip(d[0], d[1], d[2]);
      assert q[4..] == EncodeSextets(d[3..]);
      DecodeEncodeSextets(d[3..]);
      assert DecodeSextets(q) == [d[0], d[1], d[2]] + d[3..];
      assert d == [d[0], d[1], d[2]] + d[3..];
    }
  }

  /** Decoding undoes encoding: the identity the data-URI round trip rests on. */
  lemma DecodeEncode(d: seq<byte>)
    ensures Decode(Encode(d)) == d
  {
    SextetsOfChars(EncodeSextets(d));
    DecodeEncodeSextets(d);
  }
}
