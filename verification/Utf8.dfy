/** Strict UTF-8, as section 3 of RFC 3629 lays it out, with a decoder that accepts exactly what the encoder writes. */
module Utf8 {
  import opened Prelude
  import opened Bytes

  function EncodeChar(c: char): (r: Blob)
    ensures 1 <= |r| <= 4
  {
    var n := c as int;
    if n < 0x80 then [n]
    else if n < 0x800 then [0xC0 + n / 64, Tail(n)]
    else if n < 0x1_0000 then [0xE0 + n / 64 / 64, Tail(n / 64), Tail(n)]
    else [0xF0 + n / 64 / 64 / 64, Tail(n / 64 / 64), Tail(n / 64), Tail(n)]
  }

  // A continuation byte carries six bits.
  function Tail(n: nat): (b: Byte) { 0x80 + n % 64 }

  function Encode(s: string): (r: Blob) {
    if s == [] then [] else EncodeChar(s[0]) + Encode(s[1..])
  }

  predicate IsTail(b: Byte) { 0x80 <= b < 0xC0 }

  function Join(n: int, b: Byte): int { n * 64 + (b - 0x80) }

  predicate IsScalar(n: int) { 0 <= n < 0xD800 || 0xE000 <= n < 0x11_0000 }

  // The number the lead byte and its continuation bytes spell, and how many bytes that took.
  function Lead(b: Blob): (r: Option<(int, nat)>)
    ensures r.Some? ==> 1 <= r.value.1 <= |b|
  {
    if |b| >= 1 && b[0] < 0x80 then Some((b[0], 1))
    else if |b| >= 2 && 0xC0 <= b[0] < 0xE0 && IsTail(b[1]) then Some((Join(b[0] - 0xC0, b[1]), 2))
    else if |b| >= 3 && 0xE0 <= b[0] < 0xF0 && IsTail(b[1]) && IsTail(b[2]) then
      Some((Join(Join(b[0] - 0xE0, b[1]), b[2]), 3))
    else if |b| >= 4 && 0xF0 <= b[0] < 0xF8 && IsTail(b[1]) && IsTail(b[2]) && IsTail(b[3]) then
      Some((Join(Join(Join(b[0] - 0xF0, b[1]), b[2]), b[3]), 4))
    else None
  }

  function Width(n: int): nat {
    if n < 0x80 then 1 else if n < 0x800 then 2 else if n < 0x1_0000 then 3 else 4
  }

  // The code point at the front of b and its width; overlong forms and surrogates are no code points.
  function DecodeChar(b: Blob): (r: Option<(char, nat)>)
    ensures r.Some? ==> 1 <= r.value.1 <= |b|
  {
    match Lead(b)
    case None => None
    case Some((n, w)) => if IsScalar(n) && w == Width(n) then Some((n as char, w)) else None
  }

  lemma JoinTail(n: nat)
    ensures Join(n / 64, Tail(n)) == n
  {
  }

  lemma SplitJoin(n: nat, b: Byte)
    requires IsTail(b)
    ensures Join(n, b) >= 0 && Join(n, b) / 64 == n && Tail(Join(n, b)) == b
  {
  }

  lemma CharDecodes(c: char, rest: Blob)
    ensures DecodeChar(EncodeChar(c) + rest) == Some((c, |EncodeChar(c)|))
  {
    var n := c as int;
    var e := EncodeChar(c);
    JoinTail(n);
    JoinTail(n / 64);
    JoinTail(n / 64 / 64);
    assert forall i :: 0 <= i < |e| ==> (e + rest)[i] == e[i];
    assert Lead(e + rest) == Some((n, Width(n)));
  }

  lemma DecodeCharIsStrict(b: Blob)
    requires DecodeChar(b).Some?
    ensures b[..DecodeChar(b).value.1] == EncodeChar(DecodeChar(b).value.0)
  {
    var (n, w) := Lead(b).value;
    if w == 1 {
      assert b[..1] == [b[0]];
    } else if w == 2 {
      assert b[..2] == [b[0], b[1]];
      SplitJoin(b[0] - 0xC0, b[1]);
    } else if w == 3 {
      assert b[..3] == [b[0], b[1], b[2]];
      SplitJoin(b[0] - 0xE0, b[1]);
      SplitJoin(Join(b[0] - 0xE0, b[1]), b[2]);
    } else if w == 4 {
      assert b[..4] == [b[0], b[1], b[2], b[3]];
      SplitJoin(b[0] - 0xF0, b[1]);
      SplitJoin(Join(b[0] - 0xF0, b[1]), b[2]);
      SplitJoin(Join(Join(b[0] - 0xF0, b[1]), b[2]), b[3]);
    }
  }

  function Decode(b: Blob): Option<string> {
    if b == [] then Some("")
    else match DecodeChar(b)
      case None => None
      case Some((c, n)) =>
        match Decode(b[n..])
        case None => None
        case Some(s) => Some([c] + s)
  }

  lemma DecodeStep(c: char, b: Blob)
    requires Decode(b).Some?
    ensures Decode(EncodeChar(c) + b) == Some([c] + Decode(b).value)
  {
    hide EncodeChar, DecodeChar;
    CharDecodes(c, b);
    assert (EncodeChar(c) + b)[|EncodeChar(c)|..] == b;
  }

  // Every string is recovered from its encoding.
  lemma {:induction false} EncodeDecodes(s: string)
    ensures Decode(Encode(s)) == Some(s)
  {
    hide Decode, EncodeChar;
    if s == [] {
      DecodeEmpty();
    } else {
      EncodeDecodes(s[1..]);
      DecodeStep(s[0], Encode(s[1..]));
      assert s == [s[0]] + s[1..];
    }
  }

  lemma DecodeEmpty()
    ensures Decode([]) == Some("")
  {
  }

  lemma EncodeStep(c: char, s: string)
    ensures Encode([c] + s) == EncodeChar(c) + Encode(s)
  {
    hide EncodeChar;
    assert ([c] + s)[1..] == s;
  }

  // Only encodings are accepted.
  lemma {:induction false} DecodeIsStrict(b: Blob)
    ensures Decode(b).Some? ==> Encode(Decode(b).value) == b
  {
    hide EncodeChar, DecodeChar, Encode;
    if b == [] {
      EncodeEmpty();
    } else if Decode(b).Some? {
      var (c, n) := DecodeChar(b).value;
      DecodeCharIsStrict(b);
      DecodeIsStrict(b[n..]);
      EncodeStep(c, Decode(b[n..]).value);
      assert b == b[..n] + b[n..];
    }
  }

  lemma EncodeEmpty()
    ensures Encode("") == []
  {
  }

  lemma EncodeInjective(s: string, t: string)
    requires Encode(s) == Encode(t)
    ensures s == t
  {
    EncodeDecodes(s);
    EncodeDecodes(t);
  }

  lemma {:induction false} EncodeAscii(s: string)
    requires forall i :: 0 <= i < |s| ==> s[i] as int < 0x80
    ensures |Encode(s)| == |s| && forall i :: 0 <= i < |s| ==> Encode(s)[i] == s[i] as int
  {
    if s != [] {
      EncodeAscii(s[1..]);
    }
  }

  // The table of section 3 of RFC 3629.
  lemma EncodeCharTable(c: char)
    ensures
      var (n, e) := (c as int, EncodeChar(c));
      && (n < 0x80 ==> e == [n])
      && (0x80 <= n < 0x800 ==>
            && |e| == 2 && 0xC2 <= e[0] <= 0xDF && 0x80 <= e[1] <= 0xBF
            && n == (e[0] as int - 0xC0) * 0x40 + (e[1] - 0x80))
      && (0x800 <= n < 0x1_0000 ==>
            && |e| == 3 && 0xE0 <= e[0] <= 0xEF && 0x80 <= e[1] <= 0xBF && 0x80 <= e[2] <= 0xBF
            && n == (e[0] as int - 0xE0) * 0x1000 + (e[1] as int - 0x80) * 0x40 + (e[2] - 0x80))
      && (n >= 0x1_0000 ==>
            && |e| == 4 && 0xF0 <= e[0] <= 0xF4
            && 0x80 <= e[1] <= 0xBF && 0x80 <= e[2] <= 0xBF && 0x80 <= e[3] <= 0xBF
            && n == (e[0] as int - 0xF0) * 0x4_0000 + (e[1] as int - 0x80) * 0x1000
                    + (e[2] as int - 0x80) * 0x40 + (e[3] - 0x80))
  {
    var n := c as int;
    JoinTail(n);
    JoinTail(n / 64);
    JoinTail(n / 64 / 64);
  }
}
