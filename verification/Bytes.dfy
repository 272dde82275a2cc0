/** Byte strings: UTF-8, big-endian lengths, decimal numbers, and the length framing that every digest uses. */
module Bytes {
  import opened Prelude

  type byte = x: int | 0 <= x < 256

  // ---------------------------------------------------------------- UTF-8

  function EncodeChar(c: char): (r: seq<byte>)
    ensures 1 <= |r| <= 4
  {
    var v := c as int;
    if v < 0x80 then [v]
    else if v < 0x800 then [0xC0 + v / 64, 0x80 + v % 64]
    else if v < 0x1_0000 then [0xE0 + v / 64 / 64, 0x80 + v / 64 % 64, 0x80 + v % 64]
    else [0xF0 + v / 64 / 64 / 64, 0x80 + v / 64 / 64 % 64, 0x80 + v / 64 % 64, 0x80 + v % 64]
  }

  function Utf8(s: string): seq<byte> {
    if s == [] then [] else EncodeChar(s[0]) + Utf8(s[1..])
  }

  /** Lead byte by length, six bits in every further byte, and the code point in the bits that are left. */
  lemma EncodeCharExactly(c: char)
    ensures var b := EncodeChar(c); var v := c as int;
      match |b|
      case 1 => v < 128 && b[0] == v
      case 2 => 128 <= v < 2048 && 192 <= b[0] < 224 && 128 <= b[1] < 192 && v == (b[0] as int - 192) * 64 + (b[1] as int - 128)
      case 3 => 2048 <= v < 65536 && 224 <= b[0] < 240 && 128 <= b[1] < 192 && 128 <= b[2] < 192
                && v == (b[0] as int - 224) * 4096 + (b[1] as int - 128) * 64 + (b[2] as int - 128)
      case _ => 65536 <= v && 240 <= b[0] < 248 && 128 <= b[1] < 192 && 128 <= b[2] < 192 && 128 <= b[3] < 192
                && v == (b[0] as int - 240) * 262144 + (b[1] as int - 128) * 4096 + (b[2] as int - 128) * 64 + (b[3] as int - 128)
  {
  }

  lemma EncodeCharLength(c: char, d: char)
    requires EncodeChar(c)[0] == EncodeChar(d)[0]
    ensures |EncodeChar(c)| == |EncodeChar(d)|
  {
  }

  lemma EncodeCharInjective(c: char, d: char)
    requires EncodeChar(c) == EncodeChar(d)
    ensures c == d
  {
  }

  /** Two texts have the same bytes only if they are the same text. */
  lemma {:induction false} Utf8Injective(s: string, t: string)
    requires Utf8(s) == Utf8(t)
    ensures s == t
  {
    if s != [] && t != [] {
      var c, d := EncodeChar(s[0]), EncodeChar(t[0]);
      assert Utf8(s)[0] == c[0] && Utf8(t)[0] == d[0];
      EncodeCharLength(s[0], t[0]);
      PrefixesOfEqualLength(c, d, Utf8(s[1..]), Utf8(t[1..]));
      EncodeCharInjective(s[0], t[0]);
      Utf8Injective(s[1..], t[1..]);
      assert s == [s[0]] + s[1..] && t == [t[0]] + t[1..];
    }
  }

  // ------------------------------------------------------------- big endian

  function Pow256(k: nat): (p: int)
    ensures p >= 1
  {
    if k == 0 then 1 else 256 * Pow256(k - 1)
  }

  function BigEndian(n: nat, k: nat): (r: seq<byte>)
    ensures |r| == k
  {
    if k == 0 then [] else BigEndian(n / 256, k - 1) + [n % 256]
  }

  function FromBigEndian(bytes: seq<byte>): nat {
    if bytes == [] then 0
    else 256 * FromBigEndian(bytes[..|bytes| - 1]) + bytes[|bytes| - 1]
  }

  lemma {:induction false} BigEndianRoundTrip(n: nat, k: nat)
    requires n < Pow256(k)
    ensures FromBigEndian(BigEndian(n, k)) == n
  {
    if k > 0 {
      BigEndianRoundTrip(n / 256, k - 1);
      assert BigEndian(n, k)[..k - 1] == BigEndian(n / 256, k - 1);
    }
  }

  lemma {:induction false} BigEndianLeadingZero(n: nat, k: nat)
    requires k >= 1 && n < Pow256(k - 1)
    ensures BigEndian(n, k)[0] == 0
  {
    if k > 1 {
      BigEndianLeadingZero(n / 256, k - 1);
    }
  }

  // ---------------------------------------------------------------- decimal

  function Digit(n: nat): (c: char)
    requires n < 10
    ensures '0' <= c <= '9'
  {
    ('0' as int + n) as char
  }

  function Digits(n: nat): (r: string)
    ensures r != [] && forall i :: 0 <= i < |r| ==> '0' <= r[i] <= '9'
  {
    if n < 10 then [Digit(n)] else Digits(n / 10) + [Digit(n % 10)]
  }

  /** `i64::to_string` and SQLite's rendering of an INTEGER. */
  function Decimal(n: int): string {
    if n < 0 then "-" + Digits(-n) else Digits(n)
  }

  function FromDigits(s: string): int {
    if s == [] then 0 else 10 * FromDigits(s[..|s| - 1]) + (s[|s| - 1] as int - '0' as int)
  }

  lemma {:induction false} DigitsRoundTrip(n: nat)
    ensures FromDigits(Digits(n)) == n
  {
    var r := Digits(n);
    if n >= 10 {
      DigitsRoundTrip(n / 10);
      assert r[..|r| - 1] == Digits(n / 10);
    } else {
      assert r[..|r| - 1] == [];
    }
  }

  lemma DecimalSign(n: int)
    ensures Decimal(n) != [] && (Decimal(n)[0] == '-' <==> n < 0)
  {
  }

  lemma DecimalInjective(n: int, m: int)
    requires Decimal(n) == Decimal(m)
    ensures n == m
  {
    DecimalSign(n);
    DecimalSign(m);
    if n < 0 {
      NegativeInjective(n, m);
    } else {
      DigitsRoundTrip(n);
      DigitsRoundTrip(m);
    }
  }

  lemma NegativeInjective(n: int, m: int)
    requires n < 0 && m < 0 && "-" + Digits(-n) == "-" + Digits(-m)
    ensures n == m
  {
    hide Digits;
    PrefixesOfEqualLength("-", "-", Digits(-n), Digits(-m));
    DigitsRoundTrip(-n);
    DigitsRoundTrip(-m);
  }

  // ---------------------------------------------------------------- framing

  /** A value behind its length, `len as u64` big-endian. */
  function Frame(v: seq<byte>): seq<byte> {
    BigEndian(|v|, 8) + v
  }

  function FrameAll(vs: seq<seq<byte>>): seq<byte> {
    if vs == [] then [] else Frame(vs[0]) + FrameAll(vs[1..])
  }

  /** Lengths an address space can hold; the length prefix never wraps. */
  ghost predicate Addressable(vs: seq<seq<byte>>) {
    forall i :: 0 <= i < |vs| ==> |vs[i]| < Pow256(8)
  }

  lemma HeadSplits(a: seq<byte>, b: seq<byte>, v: seq<byte>, w: seq<byte>, x: seq<byte>, y: seq<byte>)
    requires a + v + x == b + w + y && |a| == |b|
    ensures a == b && v + x == w + y
  {
    assert a + v + x == a + (v + x) && b + w + y == b + (w + y);
    PrefixesOfEqualLength(a, b, v + x, w + y);
  }

  lemma FrameSplits(v: seq<byte>, w: seq<byte>, x: seq<byte>, y: seq<byte>)
    requires Frame(v) + x == Frame(w) + y
    requires |v| < Pow256(8) && |w| < Pow256(8)
    ensures v == w && x == y
  {
    HeadSplits(BigEndian(|v|, 8), BigEndian(|w|, 8), v, w, x, y);
    BigEndianRoundTrip(|v|, 8);
    BigEndianRoundTrip(|w|, 8);
    PrefixesOfEqualLength(v, w, x, y);
  }

  /** The length-prefixed part list is injective: parts cannot be regrouped. */
  lemma {:induction false} FrameAllInjective(vs: seq<seq<byte>>, ws: seq<seq<byte>>)
    requires FrameAll(vs) == FrameAll(ws)
    requires Addressable(vs) && Addressable(ws)
    ensures vs == ws
  {
    assert vs == [] <==> |FrameAll(vs)| == 0;
    assert ws == [] <==> |FrameAll(ws)| == 0;
    if vs != [] {
      FrameSplits(vs[0], ws[0], FrameAll(vs[1..]), FrameAll(ws[1..]));
      FrameAllInjective(vs[1..], ws[1..]);
      assert vs == [vs[0]] + vs[1..] && ws == [ws[0]] + ws[1..];
    }
  }

  lemma FrameAllHead(vs: seq<seq<byte>>, x: seq<byte>)
    requires vs != []
    ensures FrameAll(vs) + x == Frame(vs[0]) + (FrameAll(vs[1..]) + x)
  {
  }

  lemma {:induction false} FrameAllConcat(a: seq<seq<byte>>, b: seq<seq<byte>>)
    ensures FrameAll(a + b) == FrameAll(a) + FrameAll(b)
  {
    if a == [] {
      assert a + b == b;
    } else {
      assert (a + b)[1..] == a[1..] + b;
      FrameAllConcat(a[1..], b);
    }
  }

  function Encode(texts: seq<string>): (r: seq<seq<byte>>)
    ensures |r| == |texts|
    ensures forall i :: 0 <= i < |r| ==> r[i] == Utf8(texts[i])
  {
    seq(|texts|, i requires 0 <= i < |texts| => Utf8(texts[i]))
  }

  lemma EncodeInjective(a: seq<string>, b: seq<string>)
    requires Encode(a) == Encode(b)
    ensures a == b
  {
    forall i | 0 <= i < |a|
      ensures a[i] == b[i]
    {
      assert Encode(a)[i] == Encode(b)[i];
      Utf8Injective(a[i], b[i]);
    }
  }

  // ---------------------------------------------------------------- digests

  /**
   * A SHA-256 or UUIDv5 value as text. The model keeps the hashed stream itself, one character
   * per byte, so two digests are equal exactly when the hashed streams are.
   */
  function DigestText(stream: seq<byte>): (r: string)
    ensures |r| == |stream|
    ensures forall i :: 0 <= i < |r| ==> r[i] == stream[i] as char
  {
    seq(|stream|, i requires 0 <= i < |stream| => stream[i] as char)
  }

  lemma DigestTextInjective(a: seq<byte>, b: seq<byte>)
    requires DigestText(a) == DigestText(b)
    ensures a == b
  {
  }

  /** `framed_digest`: a domain label followed by length-prefixed texts. */
  function FramedDigest(domain: string, texts: seq<string>): string {
    DigestText(Utf8(domain) + FrameAll(Encode(texts)))
  }

  lemma FrameAllAppend(domain: string, texts: seq<string>, k: nat)
    requires k < |texts|
    ensures Utf8(domain) + FrameAll(Encode(texts[..k + 1]))
         == Utf8(domain) + FrameAll(Encode(texts[..k])) + BigEndian(|Utf8(texts[k])|, 8) + Utf8(texts[k])
  {
    hide Utf8, BigEndian;
    var before, value := Encode(texts[..k]), Utf8(texts[k]);
    assert Encode(texts[..k + 1]) == before + [value];
    FrameAllConcat(before, [value]);
    assert FrameAll([value]) == Frame(value);
  }

  /** The accumulator loop of `framed_digest`. */
  method HashParts(domain: string, texts: seq<string>) returns (digest: string)
    ensures digest == FramedDigest(domain, texts)
  {
    var hash := Utf8(domain);
    for k := 0 to |texts|
      invariant hash == Utf8(domain) + FrameAll(Encode(texts[..k]))
    {
      var value := Utf8(texts[k]);
      hash := hash + BigEndian(|value|, 8) + value;
      FrameAllAppend(domain, texts, k);
    }
    assert texts[..|texts|] == texts;
    digest := DigestText(hash);
  }

  lemma FramedDigestInjective(domain: string, a: seq<string>, b: seq<string>)
    requires FramedDigest(domain, a) == FramedDigest(domain, b)
    requires Addressable(Encode(a)) && Addressable(Encode(b))
    ensures a == b
  {
    var x, y := FrameAll(Encode(a)), FrameAll(Encode(b));
    DigestTextInjective(Utf8(domain) + x, Utf8(domain) + y);
    PrefixesOfEqualLength(Utf8(domain), Utf8(domain), x, y);
    FrameAllInjective(Encode(a), Encode(b));
    EncodeInjective(a, b);
  }
}
