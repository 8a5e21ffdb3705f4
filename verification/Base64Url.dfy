/** The padded base64url encoding of section 5 of RFC 4648. */
module Base64Url {
  import opened Prelude
  import opened Bytes

  type Sextet = i: int | 0 <= i < 64

  function Letter(i: Sextet): char {
    if i < 26 then (i + 65) as char
    else if i < 52 then (i + 71) as char
    else if i < 62 then (i - 4) as char
    else if i == 62 then '-' else '_'
  }

  function Value(c: char): Option<Sextet> {
    if 'A' <= c <= 'Z' then Some(c as int - 65)
    else if 'a' <= c <= 'z' then Some(c as int - 71)
    else if '0' <= c <= '9' then Some(c as int + 4)
    else if c == '-' then Some(62) else if c == '_' then Some(63) else None
  }

  lemma LetterDecodes(i: Sextet)
    ensures Value(Letter(i)) == Some(i) && Letter(i) != '='
  {
  }

  function Encode(b: Blob): string {
    if b == [] then ""
    else if |b| == 1 then [Letter(b[0] / 4), Letter(b[0] % 4 * 16), '=', '=']
    else if |b| == 2 then [Letter(b[0] / 4), Letter(b[0] % 4 * 16 + b[1] / 16), Letter(b[1] % 16 * 4), '=']
    else Quad(b[0], b[1], b[2]) + Encode(b[3..])
  }

  function Quad(p: Byte, q: Byte, r: Byte): string {
    [Letter(p / 4), Letter(p % 4 * 16 + q / 16), Letter(q % 16 * 4 + r / 64), Letter(r % 64)]
  }

  function First(w: int, x: int): int { w * 4 + x / 16 }

  function Second(x: int, y: int): int { x % 16 * 16 + y / 4 }

  function Third(y: int, z: int): int { y % 4 * 64 + z }

  function Decode(s: string): Option<Blob> {
    if s == "" then Some([])
    else if |s| < 4 then None
    else if |s| == 4 && s[3] == '=' then DecodeEnd(Value(s[0]), Value(s[1]), Value(s[2]), s[2] == '=')
    else match (Value(s[0]), Value(s[1]), Value(s[2]), Value(s[3]))
      case (Some(w), Some(x), Some(y), Some(z)) =>
        (match Decode(s[4..])
         case None => None
         case Some(rest) => Some([First(w, x), Second(x, y), Third(y, z)] + rest))
      case _ => None
  }

  // The padded last group carries one or two bytes, and its spare bits are zero.
  function DecodeEnd(w: Option<Sextet>, x: Option<Sextet>, y: Option<Sextet>, short: bool): Option<Blob> {
    match (w, x, y)
    case (Some(w), Some(x), Some(y)) => if y % 4 == 0 then Some([First(w, x), Second(x, y)]) else None
    case (Some(w), Some(x), None) => if short && x % 16 == 0 then Some([First(w, x)]) else None
    case _ => None
  }

  lemma Regroup(p: Byte, q: Byte, r: Byte)
    ensures First(p / 4, p % 4 * 16 + q / 16) == p
    ensures Second(p % 4 * 16 + q / 16, q % 16 * 4 + r / 64) == q
    ensures Third(q % 16 * 4 + r / 64, r % 64) == r
  {
  }

  lemma QuadDecodes(p: Byte, q: Byte, r: Byte, s: string)
    requires Decode(s).Some?
    ensures Decode(Quad(p, q, r) + s) == Some([p, q, r] + Decode(s).value)
  {
    var t := Quad(p, q, r) + s;
    LetterDecodes(p / 4);
    LetterDecodes(p % 4 * 16 + q / 16);
    LetterDecodes(q % 16 * 4 + r / 64);
    LetterDecodes(r % 64);
    Regroup(p, q, r);
    assert t[4..] == s;
  }

  lemma OneDecodes(p: Byte)
    ensures Decode([Letter(p / 4), Letter(p % 4 * 16), '=', '=']) == Some([p])
  {
    var (w, x) := (p / 4, p % 4 * 16);
    LetterDecodes(w);
    LetterDecodes(x);
    assert x % 16 == 0 && First(w, x) == p;
    assert DecodeEnd(Some(w), Some(x), None, true) == Some([p]);
  }

  lemma TwoDecodes(p: Byte, q: Byte)
    ensures Decode([Letter(p / 4), Letter(p % 4 * 16 + q / 16), Letter(q % 16 * 4), '=']) == Some([p, q])
  {
    var (w, x, y) := (p / 4, p % 4 * 16 + q / 16, q % 16 * 4);
    LetterDecodes(w);
    LetterDecodes(x);
    LetterDecodes(y);
    Regroup(p, q, 0);
    assert y % 4 == 0 && First(w, x) == p && Second(x, y) == q;
    assert DecodeEnd(Some(w), Some(x), Some(y), false) == Some([p, q]);
  }

  lemma {:induction false} EncodeDecodes(b: Blob)
    ensures Decode(Encode(b)) == Some(b)
  {
    if |b| == 1 {
      OneDecodes(b[0]);
      assert b == [b[0]];
    } else if |b| == 2 {
      TwoDecodes(b[0], b[1]);
      assert b == [b[0], b[1]];
    } else if b != [] {
      EncodeDecodes(b[3..]);
      QuadDecodes(b[0], b[1], b[2], Encode(b[3..]));
      assert b == [b[0], b[1], b[2]] + b[3..];
    }
  }

  // ---- The format of sections 4 and 5 of RFC 4648 ----

  // The upper-case letters, the lower-case letters, the digits, the minus and the underline, in this order.
  lemma AlphabetIs(i: Sextet)
    ensures i < 26 ==> Letter(i) as int == 'A' as int + i
    ensures 26 <= i < 52 ==> Letter(i) as int == 'a' as int + (i - 26)
    ensures 52 <= i < 62 ==> Letter(i) as int == '0' as int + (i - 52)
    ensures Letter(62) == '-' && Letter(63) == '_'
  {
  }

  // Three bytes are one number of 24 bits, written in four letters of six bits each.
  lemma QuadMeans(p: Byte, q: Byte, r: Byte) returns (v: seq<Sextet>)
    ensures |v| == 4 && Encode([p, q, r]) == [Letter(v[0]), Letter(v[1]), Letter(v[2]), Letter(v[3])]
    ensures p as int * 0x1_0000 + q as int * 0x100 + r
         == v[0] as int * 0x4_0000 + v[1] as int * 0x1000 + v[2] as int * 0x40 + v[3]
  {
    v := [p / 4, p % 4 * 16 + q / 16, q % 16 * 4 + r / 64, r % 64];
    assert [p, q, r][3..] == [];
    assert Encode([]) == "";
  }

  // Fewer bytes are written as if zeros followed, with padding for the letters that would say nothing.
  lemma PaddingMeans(p: Byte, q: Byte)
    ensures Encode([p]) == Encode([p, 0, 0])[..2] + "=="
    ensures Encode([p, q]) == Encode([p, q, 0])[..3] + "="
  {
    assert [p, 0, 0][3..] == [] && [p, q, 0][3..] == [];
    assert Encode([]) == "";
  }

  lemma EncodeGroup(p: Byte, q: Byte, r: Byte, b: Blob)
    ensures Encode([p, q, r] + b) == Quad(p, q, r) + Encode(b)
  {
    hide Quad, Letter;
    assert ([p, q, r] + b)[3..] == b;
  }

  // Groups of three bytes are encoded one after the other.
  lemma {:induction false} EncodeJoins(a: Blob, b: Blob)
    requires |a| % 3 == 0
    ensures Encode(a + b) == Encode(a) + Encode(b)
    decreases |a|
  {
    hide *;
    EncodeNothing();
    if a == [] {
      assert a + b == b;
    } else {
      var rest := a[3..];
      EncodeJoins(rest, b);
      EncodeGroup(a[0], a[1], a[2], rest);
      EncodeGroup(a[0], a[1], a[2], rest + b);
      assert a == [a[0], a[1], a[2]] + rest;
      assert a + b == [a[0], a[1], a[2]] + (rest + b);
    }
  }

  lemma EncodeNothing()
    ensures Encode([]) == ""
  {
  }
}
