/** Percent-encoding of path segments (sections 2.1 and 2.3 of RFC 3986). */
module UrlEncoding {

  type byte = n: nat | n < 256

  /** ALPHA / DIGIT / "-" / "." / "_" / "~". */
  predicate Unreserved(c: char) {
    ('a' <= c <= 'z') || ('A' <= c <= 'Z') || ('0' <= c <= '9') || c == '-' || c == '_' || c == '.' || c == '~'
  }

  /** The 66 characters of section 2.3 of RFC 3986, by their codes: letters, digits, hyphen, period, underscore, tilde. */
  lemma UnreservedExactly(c: char)
    ensures var n := c as int;
            Unreserved(c) <==> 65 <= n <= 90 || 97 <= n <= 122 || 48 <= n <= 57 || n == 45 || n == 46 || n == 95 || n == 126
  {
  }

  /** The UTF-8 form of one character. */
  function Utf8Char(c: char): (bytes: seq<byte>)
    ensures 1 <= |bytes| <= 4
  {
    var n := c as int;
    if n < 0x80 then [n]
    else if n < 0x800 then [0xC0 + n / 64, 0x80 + n % 64]
    else if n < 0x1_0000 then [0xE0 + n / 4096, 0x80 + n / 64 % 64, 0x80 + n % 64]
    else [0xF0 + n / 262144, 0x80 + n / 4096 % 64, 0x80 + n / 64 % 64, 0x80 + n % 64]
  }

  function Utf8(s: string): seq<byte> {
    if s == [] then [] else Utf8Char(s[0]) + Utf8(s[1..])
  }

  /** Reading UTF-8: the lead byte tells the length, each further byte carries six bits. */
  function DecodeUtf8(b: seq<byte>): seq<int> {
    if b == [] then []
    else if b[0] >= 0xF0 && |b| >= 4 then
      [(b[0] - 0xF0) * 262144 + b[1] % 64 * 4096 + b[2] % 64 * 64 + b[3] % 64] + DecodeUtf8(b[4..])
    else if b[0] >= 0xE0 && |b| >= 3 then [(b[0] - 0xE0) * 4096 + b[1] % 64 * 64 + b[2] % 64] + DecodeUtf8(b[3..])
    else if b[0] >= 0xC0 && |b| >= 2 then [(b[0] - 0xC0) * 64 + b[1] % 64] + DecodeUtf8(b[2..])
    else [b[0]] + DecodeUtf8(b[1..])
  }

  function Codes(s: string): seq<int> {
    if s == [] then [] else [s[0] as int] + Codes(s[1..])
  }

  lemma SixBits(n: nat)
    ensures n == n / 64 * 64 + n % 64 && (0x80 + n % 64) % 64 == n % 64
  {
  }

  /** The bits of a character are the bits of its bytes. */
  lemma BitsOfBytes(n: nat)
    ensures n / 64 * 64 + (0x80 + n % 64) % 64 == n
    ensures n / 4096 * 4096 + (0x80 + n / 64 % 64) % 64 * 64 + (0x80 + n % 64) % 64 == n
    ensures n / 262144 * 262144 + (0x80 + n / 4096 % 64) % 64 * 4096 + (0x80 + n / 64 % 64) % 64 * 64 + (0x80 + n % 64) % 64 == n
  {
    SixBits(n);
    SixBits(n / 64);
    SixBits(n / 4096);
    assert n / 64 / 64 == n / 4096 && n / 4096 / 64 == n / 262144;
  }

  lemma DecodeFirst(bytes: seq<byte>, rest: seq<byte>, n: nat)
    requires
      || (n < 0x80 && bytes == [n])
      || (n < 0x800 && bytes == [0xC0 + n / 64, 0x80 + n % 64])
      || (n < 0x1_0000 && bytes == [0xE0 + n / 4096, 0x80 + n / 64 % 64, 0x80 + n % 64])
      || (n < 0x11_0000 && bytes == [0xF0 + n / 262144, 0x80 + n / 4096 % 64, 0x80 + n / 64 % 64, 0x80 + n % 64])
    ensures DecodeUtf8(bytes + rest) == [n] + DecodeUtf8(rest)
  {
    BitsOfBytes(n);
    var all := bytes + rest;
    assert all[|bytes|..] == rest;
  }

  lemma DecodeFirstChar(c: char, rest: seq<byte>)
    ensures DecodeUtf8(Utf8Char(c) + rest) == [c as int] + DecodeUtf8(rest)
  {
    DecodeFirst(Utf8Char(c), rest, c as int);
  }

  /** The byte form is readable: decoding it gives the characters back. */
  lemma {:induction false} Utf8RoundTrip(s: string)
    ensures DecodeUtf8(Utf8(s)) == Codes(s)
  {
    if s != [] {
      Utf8RoundTrip(s[1..]);
      DecodeFirstChar(s[0], Utf8(s[1..]));
    }
  }

  lemma {:induction false} Utf8Snoc(s: string, c: char)
    ensures Utf8(s + [c]) == Utf8(s) + Utf8Char(c)
  {
    if s == [] {
      assert [] + [c] == [c] && [c][1..] == [];
    } else {
      assert (s + [c])[1..] == s[1..] + [c];
      Utf8Snoc(s[1..], c);
    }
  }

  function HexDigit(d: nat): char
    requires d < 16
  {
    "0123456789ABCDEF"[d]
  }

  function EncodeByte(b: byte): string {
    ['%', HexDigit(b / 16), HexDigit(b % 16)]
  }

  /** A byte becomes a percent sign and two digits, the letters among them upper case (section 2.1 of RFC 3986). */
  lemma EncodeByteExactly(b: byte)
    ensures |EncodeByte(b)| == 3 && EncodeByte(b)[0] as int == 37
    ensures var d := b / 16; EncodeByte(b)[1] as int == if d < 10 then 48 + d else 55 + d
    ensures var d := b % 16; EncodeByte(b)[2] as int == if d < 10 then 48 + d else 55 + d
  {
    HexDigitExactly(b / 16);
    HexDigitExactly(b % 16);
  }

  lemma HexDigitExactly(d: nat)
    requires d < 16
    ensures HexDigit(d) as int == if d < 10 then 48 + d else 55 + d
  {
  }

  function EncodedBytes(bytes: seq<byte>): string {
    if bytes == [] then [] else EncodedBytes(bytes[..|bytes| - 1]) + EncodeByte(bytes[|bytes| - 1])
  }

  /** An unreserved character as it is, every other one as the escapes of its bytes. */
  function EncodedChar(c: char): string {
    if Unreserved(c) then [c] else EncodedBytes(Utf8Char(c))
  }

  function Encoded(s: string): string {
    if s == [] then []
    else Encoded(s[..|s| - 1]) + EncodedChar(s[|s| - 1])
  }

  function HexValue(c: char): nat {
    if '0' <= c <= '9' then c as int - '0' as int
    else if 'A' <= c <= 'F' then c as int - 'A' as int + 10
    else if 'a' <= c <= 'f' then c as int - 'a' as int + 10
    else 0
  }

  /** Percent-decoding of an ASCII text to bytes. */
  function PercentDecode(s: string): seq<byte> {
    if s == [] then []
    else if s[0] == '%' && |s| >= 3 then [(16 * HexValue(s[1]) + HexValue(s[2])) % 256] + PercentDecode(s[3..])
    else [(s[0] as int) % 256] + PercentDecode(s[1..])
  }

  /** A text that decodes on its own, whatever follows it: it does not end inside an escape. */
  ghost predicate Whole(s: string, bytes: seq<byte>) {
    forall t :: PercentDecode(s + t) == bytes + PercentDecode(t)
  }

  lemma WholeConcat(a: string, x: seq<byte>, b: string, y: seq<byte>)
    requires Whole(a, x) && Whole(b, y)
    ensures Whole(a + b, x + y)
  {
    forall t ensures PercentDecode(a + b + t) == x + y + PercentDecode(t) {
      assert a + b + t == a + (b + t);
      assert x + (y + PercentDecode(t)) == x + y + PercentDecode(t);
    }
  }

  lemma DecodeEscape(high: char, low: char, t: string)
    ensures PercentDecode(['%', high, low] + t) == [(16 * HexValue(high) + HexValue(low)) % 256] + PercentDecode(t)
  {
    var all := ['%', high, low] + t;
    assert all[0] == '%' && all[1] == high && all[2] == low && all[3..] == t;
  }

  lemma ByteIsWhole(b: byte)
    ensures Whole(EncodeByte(b), [b])
  {
    HexRoundTrip(b / 16);
    HexRoundTrip(b % 16);
    forall t ensures PercentDecode(EncodeByte(b) + t) == [b] + PercentDecode(t) {
      DecodeEscape(HexDigit(b / 16), HexDigit(b % 16), t);
    }
  }

  lemma HexRoundTrip(d: nat)
    requires d < 16
    ensures HexValue(HexDigit(d)) == d
  {
  }

  lemma UnreservedIsWhole(c: char)
    requires Unreserved(c)
    ensures Whole([c], Utf8Char(c))
  {
  }

  lemma NothingIsWhole()
    ensures Whole([], [])
  {
    forall t: string ensures PercentDecode([] + t) == [] + PercentDecode(t) {
      assert [] + t == t;
    }
  }

  /** Every character is unreserved or part of an escape. */
  predicate Safe(s: string) {
    forall i :: 0 <= i < |s| ==> Unreserved(s[i]) || s[i] == '%'
  }

  lemma SafeConcat(a: string, b: string)
    requires Safe(a) && Safe(b)
    ensures Safe(a + b)
  {
  }

  lemma ByteIsSafe(b: byte)
    ensures Safe(EncodeByte(b))
  {
    HexDigitExactly(b / 16);
    HexDigitExactly(b % 16);
  }

  lemma {:induction false} BytesAreEncoded(bytes: seq<byte>)
    ensures Whole(EncodedBytes(bytes), bytes) && Safe(EncodedBytes(bytes))
  {
    if bytes == [] {
      NothingIsWhole();
    } else {
      var front, last := bytes[..|bytes| - 1], bytes[|bytes| - 1];
      BytesAreEncoded(front);
      ByteIsWhole(last);
      ByteIsSafe(last);
      WholeConcat(EncodedBytes(front), front, EncodeByte(last), [last]);
      SafeConcat(EncodedBytes(front), EncodeByte(last));
      assert bytes == front + [last];
    }
  }

  lemma CharIsEncoded(c: char)
    ensures Whole(EncodedChar(c), Utf8Char(c)) && Safe(EncodedChar(c))
  {
    if Unreserved(c) {
      UnreservedIsWhole(c);
    } else {
      BytesAreEncoded(Utf8Char(c));
    }
  }

  lemma OneMoreChar(out: string, front: string, c: char)
    requires Whole(out, Utf8(front)) && Safe(out)
    ensures Whole(out + EncodedChar(c), Utf8(front + [c])) && Safe(out + EncodedChar(c))
  {
    CharIsEncoded(c);
    WholeConcat(out, Utf8(front), EncodedChar(c), Utf8Char(c));
    SafeConcat(out, EncodedChar(c));
    Utf8Snoc(front, c);
  }

  /** The encoded text decodes to the bytes of the original, and is safe. */
  lemma {:induction false} TextIsEncoded(s: string)
    ensures Whole(Encoded(s), Utf8(s)) && Safe(Encoded(s))
  {
    if s == [] {
      NothingIsWhole();
    } else {
      var front, c := s[..|s| - 1], s[|s| - 1];
      TextIsEncoded(front);
      OneMoreChar(Encoded(front), front, c);
      assert s == front + [c];
    }
  }

  lemma {:induction false} UnreservedIsKept(s: string)
    requires forall i :: 0 <= i < |s| ==> Unreserved(s[i])
    ensures Encoded(s) == s
  {
    if s != [] {
      UnreservedIsKept(s[..|s| - 1]);
      assert s == s[..|s| - 1] + [s[|s| - 1]];
    }
  }

  lemma WholeDecodes(s: string, bytes: seq<byte>)
    requires Whole(s, bytes)
    ensures PercentDecode(s) == bytes
  {
    assert PercentDecode(s + []) == bytes + PercentDecode([]);
    assert s + [] == s && bytes + [] == bytes;
  }

  method EncodeAll(bytes: seq<byte>) returns (out: string)
    ensures out == EncodedBytes(bytes)
  {
    out := [];
    for n := 0 to |bytes|
      invariant out == EncodedBytes(bytes[..n])
    {
      assert bytes[..n + 1][..n] == bytes[..n];
      out := out + EncodeByte(bytes[n]);
    }
    assert bytes[..|bytes|] == bytes;
  }

  /** Percent-decoding the result gives back the UTF-8 bytes of the text, and the result is safe in a path segment;
      unreserved text is left as it is. */
  method UrlEncode(s: string) returns (out: string)
    ensures PercentDecode(out) == Utf8(s) && DecodeUtf8(PercentDecode(out)) == Codes(s)
    ensures Safe(out) && out == Encoded(s)
    ensures (forall i :: 0 <= i < |s| ==> Unreserved(s[i])) ==> out == s
  {
    out := [];
    for n := 0 to |s|
      invariant out == Encoded(s[..n])
    {
      assert s[..n + 1][..n] == s[..n];
      if Unreserved(s[n]) {
        out := out + [s[n]];
      } else {
        var escape := EncodeAll(Utf8Char(s[n]));
        out := out + escape;
      }
    }
    assert s[..|s|] == s;
    TextIsEncoded(s);
    WholeDecodes(out, Utf8(s));
    Utf8RoundTrip(s);
    if forall i :: 0 <= i < |s| ==> Unreserved(s[i]) {
      UnreservedIsKept(s);
    }
  }
}
