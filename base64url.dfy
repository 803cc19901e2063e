/**
 * The text `secrets.token_urlsafe(n)` returns: n random bytes in the
 * "URL and Filename safe" base 64 alphabet of section 5 of RFC 4648, with the
 * trailing '=' padding stripped.
 */
module Base64Url {

  newtype byte = x: int | 0 <= x < 256

  /** The 64 characters of the URL-safe alphabet. */
  predicate UrlSafe(c: char)
  {
    ('A' <= c <= 'Z') || ('a' <= c <= 'z') || ('0' <= c <= '9') || c == '-' || c == '_'
  }

  /** Table 2 of RFC 4648: the character for a 6-bit value. */
  function Sextet(n: nat): (c: char)
    requires n < 64
    ensures UrlSafe(c)
  {
    if n < 26 then (('A' as int) + n) as char
    else if n < 52 then (('a' as int) + (n - 26)) as char
    else if n < 62 then (('0' as int) + (n - 52)) as char
    else if n == 62 then '-'
    else '_'
  }

  /** The 6-bit value a character of the alphabet stands for. */
  function SextetValue(c: char): (n: nat)
    requires UrlSafe(c)
    ensures n < 64 && Sextet(n) == c
  {
    if 'A' <= c <= 'Z' then (c as int) - ('A' as int)
    else if 'a' <= c <= 'z' then (c as int) - ('a' as int) + 26
    else if '0' <= c <= '9' then (c as int) - ('0' as int) + 52
    else if c == '-' then 62
    else 63
  }

  lemma SextetInjective(n: nat)
    requires n < 64
    ensures SextetValue(Sextet(n)) == n
  {
  }

  /** Three bytes as four characters: 24 bits cut into four 6-bit values. */
  function EncodeGroup(b0: byte, b1: byte, b2: byte): (s: string)
    ensures |s| == 4 && forall k :: 0 <= k < 4 ==> UrlSafe(s[k])
  {
    var x0, x1, x2 := b0 as int, b1 as int, b2 as int;
    [Sextet(x0 / 4), Sextet((x0 % 4) * 16 + x1 / 16), Sextet((x1 % 16) * 4 + x2 / 64), Sextet(x2 % 64)]
  }

  /** Length of the unpadded text: 4 characters per 3 bytes, rounded up. */
  lemma {:induction false} EncodeLength(b: seq<byte>)
    ensures |Encode(b)| == (4 * |b| + 2) / 3
    decreases |b|
  {
    if |b| >= 3 {
      EncodeLength(b[3..]);
      var n := |b| - 3;
      assert (4 * (n + 3) + 2) / 3 == (4 * n + 2) / 3 + 4;
    }
  }

  /** Four characters read back as three bytes. */
  function DecodeGroup(c0: char, c1: char, c2: char, c3: char): (b: seq<byte>)
    requires UrlSafe(c0) && UrlSafe(c1) && UrlSafe(c2) && UrlSafe(c3)
    ensures |b| == 3
  {
    var n0, n1, n2, n3 := SextetValue(c0), SextetValue(c1), SextetValue(c2), SextetValue(c3);
    [(n0 * 4 + n1 / 16) as byte, ((n1 % 16) * 16 + n2 / 4) as byte, ((n2 % 4) * 64 + n3) as byte]
  }

  /** `base64.urlsafe_b64encode(b).rstrip(b"=")`: every 3 bytes become 4
      characters; a final 1 or 2 bytes become 2 or 3 characters. */
  function Encode(b: seq<byte>): (s: string)
    ensures forall k :: 0 <= k < |s| ==> UrlSafe(s[k])
    decreases |b|
  {
    if |b| == 0 then ""
    else if |b| == 1 then
      var b0 := b[0] as int;
      [Sextet(b0 / 4), Sextet((b0 % 4) * 16)]
    else if |b| == 2 then
      var b0, b1 := b[0] as int, b[1] as int;
      [Sextet(b0 / 4), Sextet((b0 % 4) * 16 + b1 / 16), Sextet((b1 % 16) * 4)]
    else
      EncodeGroup(b[0], b[1], b[2]) + Encode(b[3..])
  }

  /** Reading the text back: groups of 4, 3 or 2 characters give 3, 2 or 1 bytes. */
  function Decode(s: string): (b: seq<byte>)
    requires forall k :: 0 <= k < |s| ==> UrlSafe(s[k])
    requires |s| % 4 != 1
    decreases |s|
  {
    if |s| == 0 then []
    else if |s| == 2 then
      var c0, c1 := SextetValue(s[0]), SextetValue(s[1]);
      [(c0 * 4 + c1 / 16) as byte]
    else if |s| == 3 then
      var c0, c1, c2 := SextetValue(s[0]), SextetValue(s[1]), SextetValue(s[2]);
      [(c0 * 4 + c1 / 16) as byte, ((c1 % 16) * 16 + c2 / 4) as byte]
    else
      DecodeGroup(s[0], s[1], s[2], s[3]) + Decode(s[4..])
  }

  /** Splitting 3 bytes into 4 sextets and joining them again gives the bytes back. */
  lemma RegroupThree(b0: int, b1: int, b2: int)
    requires 0 <= b0 < 256 && 0 <= b1 < 256 && 0 <= b2 < 256
    ensures var c1 := (b0 % 4) * 16 + b1 / 16; var c2 := (b1 % 16) * 4 + b2 / 64;
      (b0 / 4) * 4 + c1 / 16 == b0 && (c1 % 16) * 16 + c2 / 4 == b1 && (c2 % 4) * 64 + b2 % 64 == b2
  {
    var c1 := (b0 % 4) * 16 + b1 / 16;
    var c2 := (b1 % 16) * 4 + b2 / 64;
    assert c1 / 16 == b0 % 4 && c1 % 16 == b1 / 16;
    assert c2 / 4 == b1 % 16 && c2 % 4 == b2 / 64;
  }

  /** The same for a final 2 bytes (3 sextets). */
  lemma RegroupTwo(b0: int, b1: int)
    requires 0 <= b0 < 256 && 0 <= b1 < 256
    ensures var c1 := (b0 % 4) * 16 + b1 / 16; var c2 := (b1 % 16) * 4;
      (b0 / 4) * 4 + c1 / 16 == b0 && (c1 % 16) * 16 + c2 / 4 == b1
  {
    var c1 := (b0 % 4) * 16 + b1 / 16;
    assert c1 / 16 == b0 % 4 && c1 % 16 == b1 / 16;
  }

  lemma GroupRoundTrip(b0: byte, b1: byte, b2: byte)
    ensures var s := EncodeGroup(b0, b1, b2); DecodeGroup(s[0], s[1], s[2], s[3]) == [b0, b1, b2]
  {
    var x0, x1, x2 := b0 as int, b1 as int, b2 as int;
    var c0, c1, c2, c3 := x0 / 4, (x0 % 4) * 16 + x1 / 16, (x1 % 16) * 4 + x2 / 64, x2 % 64;
    SextetInjective(c0);
    SextetInjective(c1);
    SextetInjective(c2);
    SextetInjective(c3);
    RegroupThree(x0, x1, x2);
  }

  lemma DecodeEncodeOne(b: seq<byte>)
    requires |b| == 1
    ensures |Encode(b)| == 2 && Decode(Encode(b)) == b
  {
    var b0 := b[0] as int;
    var c0, c1 := b0 / 4, (b0 % 4) * 16;
    assert Encode(b) == [Sextet(c0), Sextet(c1)];
    SextetInjective(c0);
    SextetInjective(c1);
    assert c0 * 4 + c1 / 16 == b0;
  }

  lemma DecodeEncodeTwo(b: seq<byte>)
    requires |b| == 2
    ensures |Encode(b)| == 3 && Decode(Encode(b)) == b
  {
    var b0, b1 := b[0] as int, b[1] as int;
    var c0, c1, c2 := b0 / 4, (b0 % 4) * 16 + b1 / 16, (b1 % 16) * 4;
    assert Encode(b) == [Sextet(c0), Sextet(c1), Sextet(c2)];
    SextetInjective(c0);
    SextetInjective(c1);
    SextetInjective(c2);
    RegroupTwo(b0, b1);
  }

  lemma ModFourShift(n: int)
    ensures (n + 4) % 4 == n % 4
  {
  }

  /** Encoding writes the first three bytes as one group. */
  lemma EncodeFirstGroup(b: seq<byte>)
    requires |b| >= 3
    ensures Encode(b) == EncodeGroup(b[0], b[1], b[2]) + Encode(b[3..])
  {
  }

  /** A group that decodes to the first three bytes, followed by text that
      decodes to the rest, decodes to all of them. */
  lemma DecodeAppendGroup(b: seq<byte>, g: string, t: string)
    requires |b| >= 3 && |g| == 4 && |t| % 4 != 1
    requires forall k :: 0 <= k < 4 ==> UrlSafe(g[k])
    requires forall k :: 0 <= k < |t| ==> UrlSafe(t[k])
    requires DecodeGroup(g[0], g[1], g[2], g[3]) == b[..3] && Decode(t) == b[3..]
    ensures (forall k :: 0 <= k < |g + t| ==> UrlSafe((g + t)[k])) && |g + t| % 4 != 1
    ensures Decode(g + t) == b
  {
    var s := g + t;
    assert s[4..] == t;
    assert s[0] == g[0] && s[1] == g[1] && s[2] == g[2] && s[3] == g[3];
    ModFourShift(|t|);
    assert b == b[..3] + b[3..];
  }

  /** One group of the round trip: if the rest decodes back, so does the whole. */
  lemma DecodeEncodeStep(b: seq<byte>)
    requires |b| >= 3
    requires |Encode(b[3..])| % 4 != 1 && Decode(Encode(b[3..])) == b[3..]
    ensures |Encode(b)| % 4 != 1
    ensures Decode(Encode(b)) == b
  {
    EncodeFirstGroup(b);
    GroupRoundTrip(b[0], b[1], b[2]);
    assert b[..3] == [b[0], b[1], b[2]];
    DecodeAppendGroup(b, EncodeGroup(b[0], b[1], b[2]), Encode(b[3..]));
  }

  /** Decoding undoes encoding, so the token text determines the random bytes. */
  lemma {:induction false} DecodeEncode(b: seq<byte>)
    ensures |Encode(b)| % 4 != 1
    ensures Decode(Encode(b)) == b
    decreases |b|
  {
    if |b| == 0 {
      assert Encode(b) == [];
    } else if |b| == 1 {
      DecodeEncodeOne(b);
    } else if |b| == 2 {
      DecodeEncodeTwo(b);
    } else {
      DecodeEncode(b[3..]);
      DecodeEncodeStep(b);
    }
  }

  /** Different random bytes never give the same token text. */
  lemma EncodeInjective(b1: seq<byte>, b2: seq<byte>)
    requires Encode(b1) == Encode(b2)
    ensures b1 == b2
  {
    DecodeEncode(b1);
    DecodeEncode(b2);
  }
}
