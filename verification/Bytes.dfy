/** Bytes, 8-byte big-endian lengths and length-prefixed frames, with their decoders. */
module Bytes {
  import opened Prelude

  type Byte = b: int | 0 <= b < 256

  type Blob = seq<Byte>

  const MAX_FRAMED: int := 0xFFFF_FFFF_FFFF_FFFF

  predicate IsAscii(s: string) {
    forall i :: 0 <= i < |s| ==> s[i] as int < 0x80
  }

  function Ascii(s: string): (r: Blob)
    requires IsAscii(s)
    ensures |r| == |s|
  {
    seq(|s|, i requires 0 <= i < |s| => s[i] as int)
  }

  function Pow256(k: nat): nat {
    if k == 0 then 1 else 256 * Pow256(k - 1)
  }

  function BigEndian(n: nat, k: nat): (r: Blob)
    ensures |r| == k
  {
    if k == 0 then [] else BigEndian(n / 256, k - 1) + [n % 256]
  }

  function FromBigEndian(s: Blob): (n: nat) {
    if s == [] then 0 else FromBigEndian(s[..|s| - 1]) * 256 + s[|s| - 1]
  }

  lemma {:induction false} BigEndianDecodes(n: nat, k: nat)
    requires n < Pow256(k)
    ensures FromBigEndian(BigEndian(n, k)) == n
  {
    if k > 0 {
      BigEndianDecodes(n / 256, k - 1);
      assert BigEndian(n, k)[..k - 1] == BigEndian(n / 256, k - 1);
    }
  }

  lemma Pow256Of8()
    ensures Pow256(8) == MAX_FRAMED + 1
  {
    assert Pow256(4) == 0x1_0000_0000;
    assert Pow256(6) == 0x1_0000_0000_0000;
  }

  // int.to_bytes(8, "big"), for the numbers it accepts.
  function U64(n: nat): (r: Blob)
    ensures |r| == 8
  {
    BigEndian(n, 8)
  }

  function TakeU64(s: Blob): (r: Option<(nat, Blob)>)
    ensures r.Some? ==> |r.value.1| < |s|
  {
    if |s| < 8 then None else Some((FromBigEndian(s[..8]), s[8..]))
  }

  lemma U64Decodes(n: nat, rest: Blob)
    requires n <= MAX_FRAMED
    ensures TakeU64(U64(n) + rest) == Some((n, rest))
  {
    Pow256Of8();
    BigEndianDecodes(n, 8);
    assert (U64(n) + rest)[..8] == U64(n);
  }

  function Frame(value: Blob): Blob {
    U64(|value|) + value
  }

  function TakeFrame(s: Blob): (r: Option<(Blob, Blob)>)
    ensures r.Some? ==> |r.value.1| < |s|
  {
    match TakeU64(s)
    case None => None
    case Some((n, rest)) => if |rest| < n then None else Some((rest[..n], rest[n..]))
  }

  lemma FrameDecodes(value: Blob, rest: Blob)
    requires |value| <= MAX_FRAMED
    ensures TakeFrame(Frame(value) + rest) == Some((value, rest))
  {
    assert Frame(value) + rest == U64(|value|) + (value + rest);
    U64Decodes(|value|, value + rest);
  }

  // ---- The format, in numbers ----

  function TwoDigits(high: int, low: int): int { high * 0x100 + low }

  lemma FromBigEndianLast(s: Blob, b: Byte)
    ensures FromBigEndian(s + [b]) == FromBigEndian(s) * 256 + b
  {
    assert (s + [b])[..|s|] == s;
  }

  // The number that four bytes spell, the most significant one first.
  function FourDigits(s: Blob): int
    requires |s| == 4
  {
    TwoDigits(s[0], s[1]) * 0x1_0000 + TwoDigits(s[2], s[3])
  }

  lemma FourDigitsMean(s: Blob, t: Blob)
    requires |t| == 4
    ensures FromBigEndian(s + t) == FromBigEndian(s) * 0x1_0000_0000 + FourDigits(t)
  {
    FromBigEndianLast(s, t[0]);
    FromBigEndianLast(s + [t[0]], t[1]);
    FromBigEndianLast(s + [t[0]] + [t[1]], t[2]);
    FromBigEndianLast(s + [t[0]] + [t[1]] + [t[2]], t[3]);
    assert s + [t[0]] + [t[1]] + [t[2]] + [t[3]] == s + t;
  }

  // A length is written in eight bytes, the most significant one first.
  lemma U64IsBigEndian(n: nat)
    requires n <= 0xFFFF_FFFF_FFFF_FFFF
    ensures n == FourDigits(U64(n)[..4]) * 0x1_0000_0000 + FourDigits(U64(n)[4..])
  {
    Pow256Of8();
    BigEndianDecodes(n, 8);
    var b := U64(n);
    FourDigitsMean([], b[..4]);
    FourDigitsMean(b[..4], b[4..]);
    assert [] + b[..4] == b[..4] && b[..4] + b[4..] == b;
  }

  lemma {:induction false} BigEndianOfZero(k: nat)
    ensures BigEndian(0, k) == seq(k, _ => 0)
  {
    if k > 0 {
      BigEndianOfZero(k - 1);
    }
  }

  lemma SmallU64(n: nat)
    requires n < 256
    ensures U64(n) == [0, 0, 0, 0, 0, 0, 0, n]
  {
    BigEndianOfZero(7);
    assert BigEndian(n, 8) == BigEndian(0, 7) + [n];
  }
}
