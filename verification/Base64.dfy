/**
 Base 64 with canonical padding, section 4 of RFC 4648: the encoding for any alphabet of
 sixty-four digits, and the standard alphabet.
 */
module Base64 {
  import opened Utf8
  import opened Wrappers

  type Sextet = x: int | 0 <= x < 64

  /** The digits, and their values; a character that is no digit has none. */
  datatype Alphabet = Alphabet(digit: Sextet -> char, value: char -> Option<Sextet>)

  /** Digits and values correspond, and the padding is no digit. */
  ghost predicate Proper(a: Alphabet) {
    && (forall v: Sextet :: a.value(a.digit(v)) == Some(v))
    && (forall c :: a.value(c).Some? ==> a.digit(a.value(c).value) == c)
    && a.value('=') == None
  }

  predicate IsDigit(a: Alphabet, c: char) {
    a.value(c).Some?
  }

  // ---------------------------------------------------------------------------
  // Three bytes as four sextets
  // ---------------------------------------------------------------------------

  datatype Quad = Quad(u: Sextet, v: Sextet, w: Sextet, x: Sextet)

  function Split(a: byte, b: byte, c: byte): Quad {
    Quad(a / 4, a % 4 * 16 + b / 16, b % 16 * 4 + c / 64, c % 64)
  }

  function Join(q: Quad): seq<byte> {
    [q.u * 4 + q.v / 16, q.v % 16 * 16 + q.w / 4, q.w % 4 * 64 + q.x]
  }

  lemma Low4(hi: int, lo: int)
    requires 0 <= lo < 4
    ensures (hi * 4 + lo) / 4 == hi && (hi * 4 + lo) % 4 == lo
  {
  }

  lemma Low16(hi: int, lo: int)
    requires 0 <= lo < 16
    ensures (hi * 16 + lo) / 16 == hi && (hi * 16 + lo) % 16 == lo
  {
  }

  lemma Low64(hi: int, lo: int)
    requires 0 <= lo < 64
    ensures (hi * 64 + lo) / 64 == hi && (hi * 64 + lo) % 64 == lo
  {
  }

  lemma JoinSplit(a: byte, b: byte, c: byte)
    ensures Join(Split(a, b, c)) == [a, b, c]
  {
    Low16(a % 4, b / 16);
    Low4(b % 16, c / 64);
  }

  lemma SplitJoin(q: Quad)
    ensures Split(Join(q)[0], Join(q)[1], Join(q)[2]) == q
  {
    Low4(q.u, q.v / 16);
    Low16(q.v % 16, q.w / 4);
    Low64(q.w % 4, q.x);
  }

  /** One byte alone leaves the third and fourth sextet zero, and four bits of the second. */
  lemma SplitOne(a: byte)
    ensures var q := Split(a, 0, 0); q.w == 0 && q.x == 0 && q.v % 16 == 0
  {
  }

  lemma SplitTwo(a: byte, b: byte)
    ensures var q := Split(a, b, 0); q.x == 0 && q.w % 4 == 0
  {
  }

  lemma JoinOne(q: Quad)
    requires q.v % 16 == 0 && q.w == 0 && q.x == 0
    ensures Join(q)[1] == 0 && Join(q)[2] == 0
  {
  }

  lemma JoinTwo(q: Quad)
    requires q.w % 4 == 0 && q.x == 0
    ensures Join(q)[2] == 0
  {
  }

  // ---------------------------------------------------------------------------
  // Encoding and decoding
  // ---------------------------------------------------------------------------

  function Write(a: Alphabet, q: Quad): string {
    [a.digit(q.u), a.digit(q.v), a.digit(q.w), a.digit(q.x)]
  }

  function Encode(a: Alphabet, b: seq<byte>): string {
    if |b| == 0 then ""
    else if |b| == 1 then Write(a, Split(b[0], 0, 0))[..2] + "=="
    else if |b| == 2 then Write(a, Split(b[0], b[1], 0))[..3] + "="
    else Write(a, Split(b[0], b[1], b[2])) + Encode(a, b[3..])
  }

  function ValueOf(a: Alphabet, c: char): Sextet {
    if IsDigit(a, c) then a.value(c).value else 0
  }

  /** The sextets of four characters, zero for the padding. */
  function Read(a: Alphabet, s: string): Quad
    requires |s| == 4
  {
    Quad(ValueOf(a, s[0]), ValueOf(a, s[1]), ValueOf(a, s[2]), ValueOf(a, s[3]))
  }

  /** Four characters; only the last four may be padded, and then the unused bits must be zero. */
  function DecodeFour(a: Alphabet, s: string, last: bool): Option<seq<byte>>
    requires |s| == 4
  {
    var q := Read(a, s);
    if !IsDigit(a, s[0]) || !IsDigit(a, s[1]) then None
    else if IsDigit(a, s[2]) then
      if IsDigit(a, s[3]) then Some(Join(q))
      else if last && s[3] == '=' && q.w % 4 == 0 then Some(Join(q)[..2])
      else None
    else if last && s[2] == '=' && s[3] == '=' && q.v % 16 == 0 then Some(Join(q)[..1])
    else None
  }

  function Decode(a: Alphabet, s: string): Option<seq<byte>> {
    if s == "" then Some([])
    else if |s| < 4 then None
    else
      var here := DecodeFour(a, s[..4], |s| == 4);
      var rest := Decode(a, s[4..]);
      if here.Some? && rest.Some? then Some(here.value + rest.value) else None
  }

  // ---------------------------------------------------------------------------
  // They are inverses
  // ---------------------------------------------------------------------------

  lemma DigitBack(a: Alphabet, v: Sextet)
    requires Proper(a)
    ensures IsDigit(a, a.digit(v)) && ValueOf(a, a.digit(v)) == v
  {
    assert a.value(a.digit(v)) == Some(v);
  }

  lemma ValueBack(a: Alphabet, c: char)
    requires Proper(a) && IsDigit(a, c)
    ensures a.digit(ValueOf(a, c)) == c
  {
  }

  lemma WriteBack(a: Alphabet, q: Quad)
    requires Proper(a)
    ensures IsDigit(a, a.digit(q.u)) && IsDigit(a, a.digit(q.v)) && IsDigit(a, a.digit(q.w)) && IsDigit(a, a.digit(q.x))
    ensures Read(a, Write(a, q)) == q
  {
    DigitBack(a, q.u);
    DigitBack(a, q.v);
    DigitBack(a, q.w);
    DigitBack(a, q.x);
  }

  lemma ThreeBack(a: Alphabet, x: byte, y: byte, z: byte, last: bool)
    requires Proper(a)
    ensures DecodeFour(a, Write(a, Split(x, y, z)), last) == Some([x, y, z])
  {
    WriteBack(a, Split(x, y, z));
    JoinSplit(x, y, z);
  }

  lemma TwoBack(a: Alphabet, x: byte, y: byte)
    requires Proper(a)
    ensures DecodeFour(a, Write(a, Split(x, y, 0))[..3] + "=", true) == Some([x, y])
  {
    var q := Split(x, y, 0);
    var s := Write(a, q)[..3] + "=";
    WriteBack(a, q);
    SplitTwo(x, y);
    JoinSplit(x, y, 0);
    assert s == [a.digit(q.u), a.digit(q.v), a.digit(q.w), '='];
    assert Read(a, s) == q && Join(q)[..2] == [x, y];
  }

  lemma OneBack(a: Alphabet, x: byte)
    requires Proper(a)
    ensures DecodeFour(a, Write(a, Split(x, 0, 0))[..2] + "==", true) == Some([x])
  {
    var q := Split(x, 0, 0);
    var s := Write(a, q)[..2] + "==";
    WriteBack(a, q);
    SplitOne(x);
    JoinSplit(x, 0, 0);
    assert s == [a.digit(q.u), a.digit(q.v), '=', '='];
    assert Read(a, s) == q && Join(q)[..1] == [x];
  }

  lemma DecodeOnly(a: Alphabet, s: string)
    requires |s| == 4
    ensures Decode(a, s) == DecodeFour(a, s, true)
  {
    assert s[..4] == s && s[4..] == "";
    var here := DecodeFour(a, s, true);
    assert here.Some? ==> here.value + [] == here.value;
  }

  lemma DecodeMore(a: Alphabet, s: string, tail: string)
    requires |s| == 4 && DecodeFour(a, s, tail == "").Some? && Decode(a, tail).Some?
    ensures Decode(a, s + tail) == Some(DecodeFour(a, s, tail == "").value + Decode(a, tail).value)
  {
    assert (s + tail)[..4] == s && (s + tail)[4..] == tail;
  }

  lemma OneDecodes(a: Alphabet, b: seq<byte>)
    requires Proper(a) && |b| == 1
    ensures Decode(a, Encode(a, b)) == Some(b)
  {
    OneBack(a, b[0]);
    DecodeOnly(a, Write(a, Split(b[0], 0, 0))[..2] + "==");
    assert b == [b[0]];
  }

  lemma TwoDecode(a: Alphabet, b: seq<byte>)
    requires Proper(a) && |b| == 2
    ensures Decode(a, Encode(a, b)) == Some(b)
  {
    TwoBack(a, b[0], b[1]);
    DecodeOnly(a, Write(a, Split(b[0], b[1], 0))[..3] + "=");
    assert b == [b[0], b[1]];
  }

  lemma ThreeDecode(a: Alphabet, b: seq<byte>, tail: string)
    requires Proper(a) && |b| >= 3 && Decode(a, tail) == Some(b[3..])
    ensures Decode(a, Write(a, Split(b[0], b[1], b[2])) + tail) == Some(b)
  {
    ThreeBack(a, b[0], b[1], b[2], tail == "");
    DecodeMore(a, Write(a, Split(b[0], b[1], b[2])), tail);
    assert b == [b[0], b[1], b[2]] + b[3..];
  }

  lemma {:induction false} DecodeEncode(a: Alphabet, b: seq<byte>)
    requires Proper(a)
    ensures Decode(a, Encode(a, b)) == Some(b)
  {
    if |b| == 1 {
      OneDecodes(a, b);
    } else if |b| == 2 {
      TwoDecode(a, b);
    } else if |b| >= 3 {
      DecodeEncode(a, b[3..]);
      ThreeDecode(a, b, Encode(a, b[3..]));
    }
  }

  lemma EncodeFull(a: Alphabet, s: string)
    requires Proper(a) && |s| == 4
    requires IsDigit(a, s[0]) && IsDigit(a, s[1]) && IsDigit(a, s[2]) && IsDigit(a, s[3])
    ensures var b := Join(Read(a, s)); Write(a, Split(b[0], b[1], b[2])) == s
  {
    SplitJoin(Read(a, s));
    ValueBack(a, s[0]);
    ValueBack(a, s[1]);
    ValueBack(a, s[2]);
    ValueBack(a, s[3]);
  }

  lemma EncodeTwo(a: Alphabet, s: string)
    requires Proper(a) && |s| == 4 && IsDigit(a, s[0]) && IsDigit(a, s[1]) && IsDigit(a, s[2]) && s[3] == '='
    requires Read(a, s).w % 4 == 0
    ensures Encode(a, Join(Read(a, s))[..2]) == s
  {
    var q := Read(a, s);
    SplitJoin(q);
    JoinTwo(q);
    ValueBack(a, s[0]);
    ValueBack(a, s[1]);
    ValueBack(a, s[2]);
    assert Write(a, q)[..3] + "=" == s;
  }

  lemma EncodeOne(a: Alphabet, s: string)
    requires Proper(a) && |s| == 4 && IsDigit(a, s[0]) && IsDigit(a, s[1]) && s[2] == '=' && s[3] == '='
    requires Read(a, s).v % 16 == 0
    ensures Encode(a, Join(Read(a, s))[..1]) == s
  {
    var q := Read(a, s);
    SplitJoin(q);
    JoinOne(q);
    ValueBack(a, s[0]);
    ValueBack(a, s[1]);
    assert Write(a, q)[..2] + "==" == s;
  }

  lemma EncodeFour(a: Alphabet, s: string)
    requires Proper(a) && |s| == 4 && DecodeFour(a, s, true).Some?
    ensures Encode(a, DecodeFour(a, s, true).value) == s
  {
    if !IsDigit(a, s[2]) {
      EncodeOne(a, s);
    } else if !IsDigit(a, s[3]) {
      EncodeTwo(a, s);
    } else {
      EncodeFull(a, s);
      assert Encode(a, Join(Read(a, s))[3..]) == "";
    }
  }

  /** Only the encoding of some bytes decodes, and only to those bytes. */
  lemma {:induction false} EncodeDecode(a: Alphabet, s: string)
    requires Proper(a)
    ensures Decode(a, s).Some? ==> Encode(a, Decode(a, s).value) == s
  {
    if Decode(a, s).Some? {
      if |s| == 4 {
        DecodeOnly(a, s);
        EncodeFour(a, s);
      } else if |s| > 4 {
        var here, rest := DecodeFour(a, s[..4], false).value, Decode(a, s[4..]).value;
        EncodeFull(a, s[..4]);
        EncodeDecode(a, s[4..]);
        assert (here + rest)[3..] == rest;
        assert s == s[..4] + s[4..];
      }
    }
  }

  /** Encoded text is made of digits and padding only. */
  lemma {:induction false} EncodedChars(a: Alphabet, b: seq<byte>)
    requires Proper(a)
    ensures forall c :: c in Encode(a, b) ==> IsDigit(a, c) || c == '='
  {
    if |b| >= 3 {
      EncodedChars(a, b[3..]);
    }
  }

  // ---------------------------------------------------------------------------
  // The standard alphabet
  // ---------------------------------------------------------------------------

  function StandardDigit(v: Sextet): char {
    if v < 26 then 'A' + v as char
    else if v < 52 then 'a' + (v - 26) as char
    else if v < 62 then '0' + (v - 52) as char
    else if v == 62 then '+' else '/'
  }

  function StandardValue(c: char): Option<Sextet> {
    if 'A' <= c <= 'Z' then Some(c as int - 'A' as int)
    else if 'a' <= c <= 'z' then Some(c as int - 'a' as int + 26)
    else if '0' <= c <= '9' then Some(c as int - '0' as int + 52)
    else if c == '+' then Some(62) else if c == '/' then Some(63) else None
  }

  const STANDARD := Alphabet(StandardDigit, StandardValue)

  lemma StandardDigitBack(v: Sextet)
    ensures StandardValue(StandardDigit(v)) == Some(v)
  {
  }

  lemma StandardValueBack(c: char)
    requires StandardValue(c).Some?
    ensures StandardDigit(StandardValue(c).value) == c
  {
  }

  lemma StandardIsProper()
    ensures Proper(STANDARD)
  {
    forall v: Sextet
      ensures STANDARD.value(STANDARD.digit(v)) == Some(v)
    {
      StandardDigitBack(v);
    }
    forall c: char | STANDARD.value(c).Some?
      ensures STANDARD.digit(STANDARD.value(c).value) == c
    {
      StandardValueBack(c);
    }
  }
}
