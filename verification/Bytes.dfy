/** Byte strings and the integers they spell. */
module Bytes {
  import opened Wrappers

  type byte = b: int | 0 <= b < 256

  type bytes = seq<byte>

  function Pow256(n: nat): (r: nat)
    ensures 0 < r
  {
    if n == 0 then 1 else 256 * Pow256(n - 1)
  }

  lemma {:induction false} Pow256Monotone(m: nat, n: nat)
    requires m <= n
    ensures Pow256(m) <= Pow256(n)
  {
    if m < n {
      Pow256Monotone(m, n - 1);
    }
  }

  /** The value of a big-endian byte string. */
  function FromBig(b: bytes): (r: nat) {
    if b == [] then 0 else FromBig(b[..|b| - 1]) * 256 + b[|b| - 1]
  }

  /** The shortest big-endian spelling of a number: empty for zero. */
  function ToBig(n: nat): (r: bytes)
    ensures n == 0 <==> r == []
    ensures r != [] ==> r[0] != 0
  {
    if n == 0 then [] else ToBig(n / 256) + [n % 256]
  }

  /** The big-endian spelling in exactly so many bytes. */
  function Big(n: nat, width: nat): (r: bytes)
    ensures |r| == width
  {
    if width == 0 then [] else Big(n / 256, width - 1) + [n % 256]
  }

  function FromLittle(b: bytes): (r: nat) {
    if b == [] then 0 else b[0] + 256 * FromLittle(b[1..])
  }

  function Little(n: nat, width: nat): (r: bytes)
    ensures |r| == width
  {
    if width == 0 then [] else [n % 256] + Little(n / 256, width - 1)
  }

  function Zeros(n: nat): (r: bytes)
    ensures |r| == n
    ensures forall i :: 0 <= i < n ==> r[i] == 0
  {
    seq(n, _ => 0)
  }

  lemma {:induction false} FromBigBound(b: bytes)
    ensures FromBig(b) < Pow256(|b|)
  {
    if b != [] {
      FromBigBound(b[..|b| - 1]);
    }
  }

  lemma {:induction false} ToBigValue(n: nat)
    ensures FromBig(ToBig(n)) == n
  {
    if n != 0 {
      ToBigValue(n / 256);
      assert ToBig(n)[..|ToBig(n)| - 1] == ToBig(n / 256);
    }
  }

  lemma {:induction false} ToBigWidth(n: nat, width: nat)
    requires n < Pow256(width)
    ensures |ToBig(n)| <= width
  {
    if n != 0 {
      ToBigWidth(n / 256, width - 1);
    }
  }

  /** A string without a leading zero is the shortest spelling of its value. */
  lemma {:induction false} FromBigShortest(b: bytes)
    requires b == [] || b[0] != 0
    ensures ToBig(FromBig(b)) == b
  {
    if b != [] {
      var front, last := b[..|b| - 1], b[|b| - 1];
      FromBigShortest(front);
      NonZeroValue(b);
      assert FromBig(b) / 256 == FromBig(front) && FromBig(b) % 256 == last;
      assert b == front + [last];
    }
  }

  lemma {:induction false} NonZeroValue(b: bytes)
    requires b != [] && b[0] != 0
    ensures FromBig(b) != 0
  {
    if |b| > 1 {
      NonZeroValue(b[..|b| - 1]);
    }
  }

  lemma {:induction false} BigValue(n: nat, width: nat)
    requires n < Pow256(width)
    ensures FromBig(Big(n, width)) == n
  {
    if width != 0 {
      BigValue(n / 256, width - 1);
      assert Big(n, width)[..width - 1] == Big(n / 256, width - 1);
    }
  }

  lemma {:induction false} BigOfValue(b: bytes)
    ensures Big(FromBig(b), |b|) == b
  {
    if b != [] {
      var front, last := b[..|b| - 1], b[|b| - 1];
      BigOfValue(front);
      assert FromBig(b) / 256 == FromBig(front) && FromBig(b) % 256 == last;
      assert b == front + [last];
    }
  }

  lemma {:induction false} LittleValue(n: nat, width: nat)
    requires n < Pow256(width)
    ensures FromLittle(Little(n, width)) == n
  {
    if width != 0 {
      LittleValue(n / 256, width - 1);
    }
  }

  // Lowercase hexadecimal text.

  function Digit(d: int): char
    requires 0 <= d < 16
  {
    if d < 10 then ('0' as int + d) as char else ('a' as int + (d - 10)) as char
  }

  function DigitValue(c: char): (r: Option<int>)
    ensures r.Some? ==> 0 <= r.value < 16 && Digit(r.value) == c
  {
    if '0' <= c <= '9' then Some(c as int - '0' as int)
    else if 'a' <= c <= 'f' then Some(c as int - 'a' as int + 10)
    else None
  }

  lemma DigitRoundTrip(d: int)
    requires 0 <= d < 16
    ensures DigitValue(Digit(d)) == Some(d)
  {
  }

  function ByteDigits(b: byte): (s: string)
    ensures |s| == 2
  {
    [Digit(b / 16), Digit(b % 16)]
  }

  function ParseByte(s: string): (r: Option<byte>)
    requires |s| == 2
    ensures r.Some? ==> ByteDigits(r.value) == s
  {
    match (DigitValue(s[0]), DigitValue(s[1]))
    case (Some(high), Some(low)) => TwoDigits(high, low); Some(16 * high + low)
    case _ => None
  }

  lemma TwoDigits(high: int, low: int)
    requires 0 <= high < 16 && 0 <= low < 16
    ensures (16 * high + low) / 16 == high && (16 * high + low) % 16 == low
  {
  }

  lemma ByteParses(b: byte)
    ensures ParseByte(ByteDigits(b)) == Some(b)
  {
    DigitRoundTrip(b / 16);
    DigitRoundTrip(b % 16);
  }

  function HexDigits(b: bytes): (s: string)
    ensures |s| == 2 * |b|
  {
    if b == [] then "" else ByteDigits(b[0]) + HexDigits(b[1..])
  }

  function ParseDigits(s: string): (r: Option<bytes>)
    ensures r.Some? ==> HexDigits(r.value) == s
  {
    if s == [] then Some([])
    else if |s| == 1 then None
    else
      match (ParseByte(s[..2]), ParseDigits(s[2..]))
      case (Some(b), Some(rest)) =>
        assert ([b] + rest)[1..] == rest;
        Some([b] + rest)
      case _ => None
  }

  lemma {:induction false} HexParses(b: bytes)
    ensures ParseDigits(HexDigits(b)) == Some(b)
  {
    if b != [] {
      HexParses(b[1..]);
      ByteParses(b[0]);
      assert HexDigits(b)[2..] == HexDigits(b[1..]) && HexDigits(b)[..2] == ByteDigits(b[0]);
      assert [b[0]] + b[1..] == b;
    }
  }

  /** The text of a byte string, with its prefix. */
  function Hex(b: bytes): (s: string) {
    "0x" + HexDigits(b)
  }

  function ParseHex(s: string): (r: Option<bytes>)
    ensures r.Some? ==> Hex(r.value) == s
  {
    if |s| < 2 || s[..2] != "0x" then None else
    assert s == s[..2] + s[2..];
    ParseDigits(s[2..])
  }

  lemma HexRoundTrip(b: bytes)
    ensures ParseHex(Hex(b)) == Some(b)
  {
    HexParses(b);
    assert Hex(b)[2..] == HexDigits(b) && Hex(b)[..2] == "0x";
  }
}
