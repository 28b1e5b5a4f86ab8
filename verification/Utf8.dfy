/** The text encoding of substep names, section 3 of RFC 3629. */
module Utf8 {
  import opened Wrappers

  type byte = x: int | 0 <= x < 256

  function EncodeChar(c: char): seq<byte> {
    var n := c as int;
    if n < 0x80 then [n]
    else if n < 0x800 then [0xC0 + n / 64, 0x80 + n % 64]
    else if n < 0x1_0000 then [0xE0 + n / 64 / 64, 0x80 + n / 64 % 64, 0x80 + n % 64]
    else [0xF0 + n / 64 / 64 / 64, 0x80 + n / 64 / 64 % 64, 0x80 + n / 64 % 64, 0x80 + n % 64]
  }

  function Encode(s: string): seq<byte> {
    if s == [] then [] else EncodeChar(s[0]) + Encode(s[1..])
  }

  predicate IsScalar(n: int) {
    0 <= n < 0xD800 || 0xE000 <= n < 0x11_0000
  }

  predicate IsTail(b: seq<byte>, i: nat) {
    i < |b| && 0x80 <= b[i] < 0xC0
  }

  /** Append the six bits of a continuation byte. */
  function Join(hi: int, b: int): int {
    hi * 64 + (b - 0x80)
  }

  /** The code point at the front, shortest form only; its encoding has `Width` bytes. */
  function FrontPoint(b: seq<byte>): int
    requires b != []
  {
    if b[0] < 0x80 then b[0]
    else if 0xC0 <= b[0] < 0xE0 && IsTail(b, 1) then
      var n := Join(b[0] - 0xC0, b[1]);
      if n < 0x80 then -1 else n
    else if 0xE0 <= b[0] < 0xF0 && IsTail(b, 1) && IsTail(b, 2) then
      var n := Join(Join(b[0] - 0xE0, b[1]), b[2]);
      if n < 0x800 then -1 else n
    else if 0xF0 <= b[0] < 0xF8 && IsTail(b, 1) && IsTail(b, 2) && IsTail(b, 3) then
      var n := Join(Join(Join(b[0] - 0xF0, b[1]), b[2]), b[3]);
      if n < 0x1_0000 then -1 else n
    else -1
  }

  function Width(n: int): nat {
    if n < 0x80 then 1 else if n < 0x800 then 2 else if n < 0x1_0000 then 3 else 4
  }

  lemma FrontFits(b: seq<byte>)
    requires b != [] && IsScalar(FrontPoint(b))
    ensures Width(FrontPoint(b)) <= |b|
  {
  }

  /** Strict decoding: overlong forms, surrogates and stray bytes are refused. */
  function Decode(b: seq<byte>): Option<string>
    decreases |b|
  {
    if b == [] then Some([])
    else
      var n := FrontPoint(b);
      if !IsScalar(n) then None
      else
        FrontFits(b);
        var rest := Decode(b[Width(n)..]);
        if rest.None? then None else Some([n as char] + rest.value)
  }

  lemma EncodedFront(c: char, tail: seq<byte>)
    ensures |EncodeChar(c)| == Width(c as int)
    ensures FrontPoint(EncodeChar(c) + tail) == c as int && IsScalar(c as int)
  {
    var n := c as int;
    var e := EncodeChar(c) + tail;
    assert n / 64 * 64 + n % 64 == n;
    if 0x80 <= n < 0x800 {
      assert IsTail(e, 1);
    } else if 0x800 <= n < 0x1_0000 {
      assert IsTail(e, 1) && IsTail(e, 2);
      assert n / 64 / 64 * 64 + n / 64 % 64 == n / 64;
    } else if 0x1_0000 <= n {
      assert IsTail(e, 1) && IsTail(e, 2) && IsTail(e, 3);
      assert n / 64 / 64 * 64 + n / 64 % 64 == n / 64;
      assert n / 64 / 64 / 64 * 64 + n / 64 / 64 % 64 == n / 64 / 64;
    }
  }

  lemma {:induction false} DecodeEncode(s: string)
    ensures Decode(Encode(s)) == Some(s)
  {
    if s != [] {
      EncodedFront(s[0], Encode(s[1..]));
      assert Encode(s)[Width(s[0] as int)..] == Encode(s[1..]);
      DecodeEncode(s[1..]);
      assert s == [s[0]] + s[1..];
    }
  }

  lemma JoinSplits(hi: int, b: int)
    requires 0x80 <= b < 0xC0
    ensures Join(hi, b) / 64 == hi && 0x80 + Join(hi, b) % 64 == b
  {
  }

  lemma FrontEncoded(b: seq<byte>)
    requires b != [] && IsScalar(FrontPoint(b))
    ensures Width(FrontPoint(b)) <= |b| && EncodeChar(FrontPoint(b) as char) == b[..Width(FrontPoint(b))]
  {
    var n := FrontPoint(b);
    if 0x80 <= n < 0x800 {
      JoinSplits(b[0] - 0xC0, b[1]);
    } else if 0x800 <= n < 0x1_0000 {
      JoinSplits(b[0] - 0xE0, b[1]);
      JoinSplits(Join(b[0] - 0xE0, b[1]), b[2]);
    } else if 0x1_0000 <= n {
      JoinSplits(b[0] - 0xF0, b[1]);
      JoinSplits(Join(b[0] - 0xF0, b[1]), b[2]);
      JoinSplits(Join(Join(b[0] - 0xF0, b[1]), b[2]), b[3]);
    }
  }

  /** Every byte sequence decodes to at most the text it is the encoding of. */
  lemma {:induction false} EncodeDecode(b: seq<byte>)
    ensures Decode(b).Some? ==> Encode(Decode(b).value) == b
    decreases |b|
  {
    if Decode(b).Some? && b != [] {
      var w := Width(FrontPoint(b));
      FrontEncoded(b);
      EncodeDecode(b[w..]);
      assert b == b[..w] + b[w..];
      assert Decode(b).value[1..] == Decode(b[w..]).value;
    }
  }
}
