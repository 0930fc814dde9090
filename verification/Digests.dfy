/** SHA-256 digests as text: the display form, the strict parser of the
    persistence layer and the laxer parser of the HTTP layer. */
module Digests {
  import opened Basics

  type Digest = d: Bytes | |d| == 32 witness seq(32, _ => 0)

  function HexChar(n: int): char
    requires 0 <= n < 16
  {
    if n < 10 then (48 + n) as char else (87 + n) as char
  }

  /** One lowercase hex digit; everything else is refused. */
  function HexNibble(c: char): Option<int> {
    if '0' <= c <= '9' then Some(c as int - 48)
    else if 'a' <= c <= 'f' then Some(c as int - 87)
    else None
  }

  lemma NibbleInverse(c: char, n: int)
    requires 0 <= n < 16
    ensures HexNibble(c) == Some(n) <==> c == HexChar(n)
  {
    assert HexChar(n) as int == if n < 10 then 48 + n else 87 + n;
    if HexNibble(c) == Some(n) {
      assert c as int == HexChar(n) as int;
    }
  }

  /** The text a digest prints as: two lowercase digits a byte. */
  function HexOf(d: Bytes): (s: string)
    ensures |s| == 2 * |d|
  {
    seq(2 * |d|, k requires 0 <= k < 2 * |d| =>
      HexChar(if k % 2 == 0 then d[k / 2] / 16 else d[k / 2] % 16))
  }

  predicate AllHex(s: string) {
    forall k | 0 <= k < |s| :: HexNibble(s[k]).Some?
  }

  /** The `i`-th byte spelled by a text of lowercase hex digits. */
  function ByteAt(s: string, i: nat): Byte
    requires AllHex(s) && 2 * i + 1 < |s|
  {
    16 * HexNibble(s[2 * i]).value + HexNibble(s[2 * i + 1]).value
  }

  function DecodeHex(s: string): (d: Digest)
    requires AllHex(s) && |s| == 64
    ensures forall i | 0 <= i < 32 :: d[i] == ByteAt(s, i)
  {
    seq(32, i requires 0 <= i < 32 => ByteAt(s, i))
  }

  /** What the strict parser answers on `s`. */
  function ParseHex(s: string): Result<Digest, DbError> {
    if |s| == 64 && AllHex(s) then Ok(DecodeHex(s)) else Err(MalformedHash)
  }

  /** Value of one digit in base 16, either case. */
  function Radix16(c: char): Option<int> {
    if '0' <= c <= '9' then Some(c as int - 48)
    else if 'a' <= c <= 'f' then Some(c as int - 87)
    else if 'A' <= c <= 'F' then Some(c as int - 55)
    else None
  }

  /** An unsigned byte read from two characters in base 16; a leading plus
      sign is accepted and leaves one digit. */
  function RadixByte(a: char, b: char): Option<Byte> {
    if a == '+' then
      match Radix16(b)
      case Some(lo) => Some(lo)
      case None => None
    else
      match (Radix16(a), Radix16(b))
      case (Some(hi), Some(lo)) => Some(16 * hi + lo)
      case _ => None
  }

  predicate HasUpper(s: string) {
    exists k | 0 <= k < |s| :: 'A' <= s[k] <= 'Z'
  }

  /** What the HTTP layer's parser answers on `s`; None stands for a refusal. */
  function ParseHexApi(s: string): Option<Digest> {
    if |s| == 64 && !HasUpper(s) && forall i | 0 <= i < 32 :: RadixByte(s[2 * i], s[2 * i + 1]).Some? then
      Some(seq(32, i requires 0 <= i < 32 => RadixByte(s[2 * i], s[2 * i + 1]).value))
    else
      None
  }

  /** Prints `d` byte by byte. */
  method Display(d: Digest) returns (s: string)
    ensures s == HexOf(d)
  {
    s := "";
    for i := 0 to 32
      invariant |s| == 2 * i
      invariant forall k | 0 <= k < 2 * i :: s[k] == HexOf(d)[k]
    {
      s := s + [HexChar(d[i] / 16), HexChar(d[i] % 16)];
    }
  }

  /** The strict parser: length first, then an array filled digit pair by digit pair. */
  method ParseSha256Hex(s: string) returns (r: Result<Digest, DbError>)
    ensures r == ParseHex(s)
  {
    if |s| != 64 {
      return Err(MalformedHash);
    }
    var out := new Byte[32](_ => 0);
    for i := 0 to 32
      invariant AllHex(s[..2 * i])
      invariant forall k | 0 <= k < i :: out[k] == ByteAt(s[..2 * i], k)
    {
      var hi := HexNibble(s[2 * i]);
      if hi.None? {
        return Err(MalformedHash);
      }
      var lo := HexNibble(s[2 * i + 1]);
      if lo.None? {
        return Err(MalformedHash);
      }
      out[i] := 16 * hi.value + lo.value;
      assert AllHex(s[..2 * i + 2]);
    }
    assert s[..64] == s;
    assert out[..] == DecodeHex(s);
    r := Ok(out[..]);
  }

  /** The HTTP layer's parser: length, case, then one byte a pair. */
  method ParseSha256HexApi(s: string) returns (r: Option<Digest>)
    ensures r == ParseHexApi(s)
  {
    if |s| != 64 || HasUpper(s) {
      return None;
    }
    var bytes := new Byte[32](_ => 0);
    for i := 0 to 32
      invariant forall k | 0 <= k < i :: RadixByte(s[2 * k], s[2 * k + 1]) == Some(bytes[k])
    {
      var b := RadixByte(s[2 * i], s[2 * i + 1]);
      if b.None? {
        return None;
      }
      bytes[i] := b.value;
    }
    var d := bytes[..];
    assert d == seq(32, i requires 0 <= i < 32 => RadixByte(s[2 * i], s[2 * i + 1]).value);
    r := Some(d);
  }

  /** Both digits of a printed byte read back. */
  lemma PrintedByte(d: Digest, i: nat)
    requires i < 32
    ensures HexNibble(HexOf(d)[2 * i]) == Some(d[i] / 16)
    ensures HexNibble(HexOf(d)[2 * i + 1]) == Some(d[i] % 16)
  {
    NibbleInverse(HexOf(d)[2 * i], d[i] / 16);
    NibbleInverse(HexOf(d)[2 * i + 1], d[i] % 16);
  }

  lemma PrintedAllHex(d: Digest)
    ensures AllHex(HexOf(d))
  {
    var s := HexOf(d);
    forall k | 0 <= k < |s|
      ensures HexNibble(s[k]).Some?
    {
      var i := k / 2;
      PrintedByte(d, i);
      assert s[k] == s[2 * i] || s[k] == s[2 * i + 1];
    }
  }

  lemma PrintedByteAt(d: Digest, i: nat)
    requires i < 32
    requires AllHex(HexOf(d))
    ensures ByteAt(HexOf(d), i) == d[i]
  {
    PrintedByte(d, i);
  }

  lemma ParseOfDisplay(d: Digest)
    ensures ParseHex(HexOf(d)) == Ok(d)
  {
    PrintedAllHex(d);
    var r := DecodeHex(HexOf(d));
    forall i | 0 <= i < 32
      ensures r[i] == d[i]
    {
      PrintedByteAt(d, i);
    }
    assert r == d;
  }

  /** A digit pair that reads as one byte is how that byte prints. */
  lemma DigitPair(hi: char, lo: char, b: Byte)
    requires HexNibble(hi).Some? && HexNibble(lo).Some?
    requires b == 16 * HexNibble(hi).value + HexNibble(lo).value
    ensures hi == HexChar(b / 16) && lo == HexChar(b % 16)
  {
    NibbleInverse(hi, b / 16);
    NibbleInverse(lo, b % 16);
  }

  /** A text that parses is the display form of what it parses to. */
  lemma DisplayOfParse(s: string, d: Digest)
    requires AllHex(s) && |s| == 64
    requires forall i | 0 <= i < 32 :: d[i] == ByteAt(s, i)
    ensures s == HexOf(d)
  {
    forall k | 0 <= k < 64
      ensures s[k] == HexOf(d)[k]
    {
      var i := k / 2;
      DigitPair(s[2 * i], s[2 * i + 1], d[i]);
      assert k == 2 * i || k == 2 * i + 1;
    }
  }

  /** The strict parser is the two-sided inverse of the display form. */
  lemma ParseInvertsDisplay(s: string, d: Digest)
    ensures ParseHex(s) == Ok(d) <==> s == HexOf(d)
  {
    ParseOfDisplay(d);
    if ParseHex(s) == Ok(d) {
      DisplayOfParse(s, d);
    }
  }

  /** Different digests print differently. */
  lemma HexInjective(a: Digest, b: Digest)
    requires HexOf(a) == HexOf(b)
    ensures a == b
  {
    ParseInvertsDisplay(HexOf(a), a);
    ParseInvertsDisplay(HexOf(a), b);
  }

  /** The two parsers agree on exactly the texts without a plus sign. */
  lemma ParsersAgreeWithoutPlus(s: string, d: Digest)
    ensures ParseHex(s) == Ok(d) <==> ParseHexApi(s) == Some(d) && '+' !in s
  {
    if ParseHex(s) == Ok(d) {
      forall i | 0 <= i < 32
        ensures RadixByte(s[2 * i], s[2 * i + 1]) == Some(d[i])
      {
        assert d[i] == ByteAt(s, i);
      }
      assert ParseHexApi(s).value == d;
    }
    if ParseHexApi(s) == Some(d) && '+' !in s {
      forall k | 0 <= k < |s|
        ensures HexNibble(s[k]) == Radix16(s[k]) && HexNibble(s[k]).Some?
      {
        assert k == 2 * (k / 2) || k == 2 * (k / 2) + 1;
        assert RadixByte(s[2 * (k / 2)], s[2 * (k / 2) + 1]).Some?;
      }
      assert DecodeHex(s) == d;
    }
  }

  /** The HTTP layer reads a pair as one byte exactly when it is how that byte prints, a leading zero perhaps written as a plus sign. */
  lemma RadixPair(a: char, b: char, n: Byte)
    requires !('A' <= a <= 'Z') && !('A' <= b <= 'Z')
    ensures RadixByte(a, b) == Some(n) <==> b == HexChar(n % 16) && (a == HexChar(n / 16) || (a == '+' && n / 16 == 0))
  {
    NibbleInverse(b, n % 16);
    NibbleInverse(a, n / 16);
    assert HexNibble(a) == Radix16(a) && HexNibble(b) == Radix16(b);
    if RadixByte(a, b) == Some(n) {
      assert Radix16(b).Some? && n % 16 == Radix16(b).value;
    }
  }

  /** The text is how `d` prints, with some leading zeros of bytes written as plus signs. */
  predicate PrintsWithPlus(s: string, d: Digest) {
    |s| == 64 && forall k | 0 <= k < 64 :: s[k] == HexOf(d)[k] || (k % 2 == 0 && s[k] == '+' && HexOf(d)[k] == '0')
  }

  lemma PrintedPair(s: string, d: Digest, i: nat)
    requires i < 32 && |s| == 64 && !HasUpper(s)
    ensures RadixByte(s[2 * i], s[2 * i + 1]) == Some(d[i]) <==>
            && s[2 * i + 1] == HexOf(d)[2 * i + 1]
            && (s[2 * i] == HexOf(d)[2 * i] || (s[2 * i] == '+' && HexOf(d)[2 * i] == '0'))
  {
    RadixPair(s[2 * i], s[2 * i + 1], d[i]);
    NibbleInverse('0', d[i] / 16);
  }

  lemma NoUpperPrinted(s: string, d: Digest)
    requires PrintsWithPlus(s, d)
    ensures !HasUpper(s)
  {
    PrintedAllHex(d);
    forall k | 0 <= k < 64
      ensures !('A' <= s[k] <= 'Z')
    {
      assert HexNibble(HexOf(d)[k]).Some?;
    }
  }

  lemma EveryPair(s: string, d: Digest)
    requires |s| == 64 && !HasUpper(s)
    ensures PrintsWithPlus(s, d) <==> forall i | 0 <= i < 32 :: RadixByte(s[2 * i], s[2 * i + 1]) == Some(d[i])
  {
    if PrintsWithPlus(s, d) {
      forall i | 0 <= i < 32
        ensures RadixByte(s[2 * i], s[2 * i + 1]) == Some(d[i])
      {
        assert (2 * i) % 2 == 0 && (2 * i + 1) % 2 == 1;
        PrintedPair(s, d, i);
      }
    }
    if forall i | 0 <= i < 32 :: RadixByte(s[2 * i], s[2 * i + 1]) == Some(d[i]) {
      forall k | 0 <= k < 64
        ensures s[k] == HexOf(d)[k] || (k % 2 == 0 && s[k] == '+' && HexOf(d)[k] == '0')
      {
        PrintedPair(s, d, k / 2);
        assert k == 2 * (k / 2) || k == 2 * (k / 2) + 1;
      }
    }
  }

  /** Exactly what the HTTP layer's parser accepts, and as what: a digest as it
      prints, but that a byte's leading zero may be written as a plus sign. */
  lemma ApiAcceptsExactly(s: string, d: Digest)
    ensures ParseHexApi(s) == Some(d) <==> PrintsWithPlus(s, d)
  {
    if |s| == 64 && !HasUpper(s) {
      EveryPair(s, d);
      if PrintsWithPlus(s, d) {
        assert ParseHexApi(s).value == d;
      }
    } else if PrintsWithPlus(s, d) {
      NoUpperPrinted(s, d);
    }
  }

  /** Some text the HTTP layer takes for a digest that no digest prints as. */
  lemma ApiAcceptsMore() returns (s: string)
    ensures ParseHexApi(s).Some? && ParseHex(s).Err?
  {
    s := seq(64, k => if k % 2 == 0 then '+' else '0');
    assert s[0] == '+';
    forall i | 0 <= i < 32
      ensures RadixByte(s[2 * i], s[2 * i + 1]).Some?
    {
    }
    assert HexNibble(s[0]).None?;
  }
}
