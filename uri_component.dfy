/** JavaScript's `encodeURIComponent`, used to put the chat message into a WhatsApp
    link, together with the decoder that undoes it. Characters are Unicode scalar
    values; each one outside the unreserved set is written as the `%XX` escapes of
    its UTF-8 bytes, with upper-case hexadecimal digits. */
module UriComponent {
  import opened Wrappers

  type Byte = b: int | 0 <= b < 256

  /** The characters `encodeURIComponent` leaves unescaped. */
  predicate Unreserved(c: char)
  {
    ('A' <= c <= 'Z') || ('a' <= c <= 'z') || ('0' <= c <= '9') || c in "-_.!~*'()"
  }

  /** The UTF-8 encoding of one scalar value. */
  function Utf8(c: char): (bs: seq<Byte>)
    ensures 1 <= |bs| <= 4
  {
    var cp := c as int;
    if cp < 0x80 then [cp]
    else if cp < 0x800 then [0xC0 + cp / 64, 0x80 + cp % 64]
    else if cp < 0x10000 then [0xE0 + cp / 4096, 0x80 + (cp / 64) % 64, 0x80 + cp % 64]
    else [0xF0 + cp / 262144, 0x80 + (cp / 4096) % 64, 0x80 + (cp / 64) % 64, 0x80 + cp % 64]
  }

  /** An upper-case hexadecimal digit. */
  function HexDigit(n: int): (c: char)
    requires 0 <= n < 16
    ensures Unreserved(c) && HexValue(c) == Some(n)
  {
    if n < 10 then ('0' as int + n) as char else ('A' as int + n - 10) as char
  }

  /** The value of a hexadecimal digit of either case. */
  function HexValue(c: char): Option<int>
  {
    if '0' <= c <= '9' then Some(c as int - '0' as int)
    else if 'A' <= c <= 'F' then Some(c as int - 'A' as int + 10)
    else if 'a' <= c <= 'f' then Some(c as int - 'a' as int + 10)
    else None
  }

  function PercentByte(b: Byte): string
  {
    ['%', HexDigit(b / 16), HexDigit(b % 16)]
  }

  function PercentBytes(bs: seq<Byte>): (r: string)
    ensures forall k :: 0 <= k < |r| ==> Unreserved(r[k]) || r[k] == '%'
  {
    if bs == [] then [] else PercentByte(bs[0]) + PercentBytes(bs[1..])
  }

  function EncodeChar(c: char): string
  {
    if Unreserved(c) then [c] else PercentBytes(Utf8(c))
  }

  /** `encodeURIComponent(s)`. */
  function Encode(s: string): (r: string)
    ensures forall k :: 0 <= k < |r| ==> Unreserved(r[k]) || r[k] == '%'
  {
    if s == [] then [] else EncodeChar(s[0]) + Encode(s[1..])
  }

  /** Reads one `%XX` escape. */
  function DecodeByte(s: string): (r: Option<(Byte, string)>)
    ensures r.Some? ==> |s| >= 3 && r.value.1 == s[3..]
  {
    if |s| < 3 || s[0] != '%' then None
    else match (HexValue(s[1]), HexValue(s[2]))
      case (Some(h), Some(l)) => Some((h * 16 + l, s[3..]))
      case _ => None
  }

  /** Reads one escaped continuation byte (10xxxxxx) and returns its six payload bits. */
  function DecodeContinuation(s: string): (r: Option<(int, string)>)
    ensures r.Some? ==> |r.value.1| < |s|
  {
    match DecodeByte(s)
    case Some((b, r)) => if 0x80 <= b < 0xC0 then Some((b - 0x80, r)) else None
    case None => None
  }

  /** Reads `n` escaped continuation bytes, shifting their payload bits into `acc`. */
  function DecodeContinuations(n: nat, acc: int, s: string): (r: Option<(int, string)>)
    ensures r.Some? ==> |r.value.1| <= |s|
  {
    if n == 0 then Some((acc, s))
    else match DecodeContinuation(s)
      case None => None
      case Some((x, rest)) => DecodeContinuations(n - 1, acc * 64 + x, rest)
  }

  /** A UTF-8 lead byte: how many continuation bytes follow it and the payload bits it carries. */
  function LeadByte(b: Byte): Option<(nat, int)>
  {
    if b < 0x80 then Some((0, b))
    else if 0xC2 <= b < 0xE0 then Some((1, b - 0xC0))
    else if 0xE0 <= b < 0xF0 then Some((2, b - 0xE0))
    else if 0xF0 <= b < 0xF5 then Some((3, b - 0xF0))
    else None
  }

  /** The smallest code point written with `n` continuation bytes (shorter forms are overlong). */
  function MinCodePoint(n: nat): int
  {
    if n == 0 then 0 else if n == 1 then 0x80 else if n == 2 then 0x800 else 0x10000
  }

  predicate IsScalar(cp: int)
  {
    (0 <= cp < 0xD800) || (0xE000 <= cp < 0x110000)
  }

  /** Reads one character: an unescaped character stands for itself, an escape
      sequence is decoded from UTF-8. */
  function DecodeOne(s: string): (r: Option<(char, string)>)
    requires s != []
    ensures r.Some? ==> |r.value.1| < |s|
  {
    if s[0] != '%' then Some((s[0], s[1..]))
    else match DecodeByte(s)
      case None => None
      case Some((b0, r0)) =>
        match LeadByte(b0)
        case None => None
        case Some((n, bits)) =>
          match DecodeContinuations(n, bits, r0)
          case None => None
          case Some((cp, r)) =>
            if MinCodePoint(n) <= cp && IsScalar(cp) then Some((cp as char, r)) else None
  }

  /** `decodeURIComponent(s)`, `None` where it would throw. */
  function Decode(s: string): Option<string>
    decreases |s|
  {
    if s == [] then Some([])
    else match DecodeOne(s)
      case None => None
      case Some((c, rest)) =>
        match Decode(rest)
        case None => None
        case Some(t) => Some([c] + t)
  }

  lemma DecodeBytePercent(b: Byte, rest: string)
    ensures DecodeByte(PercentByte(b) + rest) == Some((b, rest))
  {
    var s := PercentByte(b) + rest;
    assert s[1] == HexDigit(b / 16) && s[2] == HexDigit(b % 16);
    assert s[3..] == rest;
  }

  lemma DecodeContinuationPercent(x: int, rest: string)
    requires 0 <= x < 64
    ensures DecodeContinuation(PercentByte(0x80 + x) + rest) == Some((x, rest))
  {
    DecodeBytePercent(0x80 + x, rest);
  }

  /** One continuation byte read off the front. */
  lemma DecodeContinuationsStep(n: nat, acc: int, s: string, x: int, rest: string)
    requires n >= 1 && DecodeContinuation(s) == Some((x, rest))
    ensures DecodeContinuations(n, acc, s) == DecodeContinuations(n - 1, acc * 64 + x, rest)
  {
  }

  lemma DecodeOneContinuation(n: nat, acc: int, x1: int, rest: string)
    requires n == 1 && 0 <= x1 < 64
    ensures DecodeContinuations(n, acc, PercentByte(0x80 + x1) + rest) == Some((acc * 64 + x1, rest))
  {
    DecodeContinuationPercent(x1, rest);
    DecodeContinuationsStep(n, acc, PercentByte(0x80 + x1) + rest, x1, rest);
  }

  /** Two continuation bytes read one after the other, whatever their spelling. */
  lemma ContinuationsTwo(n: nat, acc: int, s: string, x1: int, s1: string, x2: int, rest: string)
    requires n == 2
    requires DecodeContinuation(s) == Some((x1, s1)) && DecodeContinuation(s1) == Some((x2, rest))
    ensures DecodeContinuations(n, acc, s) == Some(((acc * 64 + x1) * 64 + x2, rest))
  {
    DecodeContinuationsStep(n, acc, s, x1, s1);
    DecodeContinuationsStep(n - 1, acc * 64 + x1, s1, x2, rest);
  }

  /** Three continuation bytes read one after the other, whatever their spelling. */
  lemma ContinuationsThree(n: nat, acc: int, s: string, x1: int, s1: string, x2: int, s2: string, x3: int, rest: string)
    requires n == 3
    requires DecodeContinuation(s) == Some((x1, s1)) && DecodeContinuation(s1) == Some((x2, s2))
    requires DecodeContinuation(s2) == Some((x3, rest))
    ensures DecodeContinuations(n, acc, s) == Some((((acc * 64 + x1) * 64 + x2) * 64 + x3, rest))
  {
    DecodeContinuationsStep(n, acc, s, x1, s1);
    ContinuationsTwo(n - 1, acc * 64 + x1, s1, x2, s2, x3, rest);
  }

  lemma DecodeTwoContinuations(n: nat, acc: int, x1: int, x2: int, rest: string)
    requires n == 2 && 0 <= x1 < 64 && 0 <= x2 < 64
    ensures DecodeContinuations(n, acc, PercentByte(0x80 + x1) + (PercentByte(0x80 + x2) + rest))
         == Some(((acc * 64 + x1) * 64 + x2, rest))
  {
    var s1 := PercentByte(0x80 + x2) + rest;
    DecodeContinuationPercent(x1, s1);
    DecodeContinuationPercent(x2, rest);
    ContinuationsTwo(n, acc, PercentByte(0x80 + x1) + s1, x1, s1, x2, rest);
  }

  lemma DecodeThreeContinuations(n: nat, acc: int, x1: int, x2: int, x3: int, rest: string)
    requires n == 3 && 0 <= x1 < 64 && 0 <= x2 < 64 && 0 <= x3 < 64
    ensures DecodeContinuations(n, acc, PercentByte(0x80 + x1) + (PercentByte(0x80 + x2) + (PercentByte(0x80 + x3) + rest)))
         == Some((((acc * 64 + x1) * 64 + x2) * 64 + x3, rest))
  {
    var s2 := PercentByte(0x80 + x3) + rest;
    var s1 := PercentByte(0x80 + x2) + s2;
    DecodeContinuationPercent(x1, s1);
    DecodeContinuationPercent(x2, s2);
    DecodeContinuationPercent(x3, rest);
    ContinuationsThree(n, acc, PercentByte(0x80 + x1) + s1, x1, s1, x2, s2, x3, rest);
  }

  /** The escapes of a list of bytes are the escapes of its first byte followed by those of the rest. */
  lemma PercentBytesCons(bs: seq<Byte>, rest: string)
    requires bs != []
    ensures PercentBytes(bs) + rest == PercentByte(bs[0]) + (PercentBytes(bs[1..]) + rest)
  {
  }

  /** Cutting six bits off a non-negative number, and cutting them off twice in a row. */
  lemma Shift64(x: int)
    requires 0 <= x
    ensures x == (x / 64) * 64 + x % 64
    ensures (x / 64) / 64 == x / 4096
  {
  }

  /** The arithmetic behind the multi-byte cases: the payload bits put back together. */
  lemma SplitBits(cp: int)
    requires 0 <= cp
    ensures cp == (cp / 64) * 64 + cp % 64
    ensures cp == ((cp / 4096) * 64 + (cp / 64) % 64) * 64 + cp % 64
    ensures cp == (((cp / 262144) * 64 + (cp / 4096) % 64) * 64 + (cp / 64) % 64) * 64 + cp % 64
  {
    var a, b := cp / 64, cp / 4096;
    Shift64(cp);
    Shift64(a);
    Shift64(b);
    assert b / 64 == cp / 262144;
  }

  /** How `DecodeOne` reads an escaped character: the lead byte, then its continuation bytes. */
  lemma DecodeOneLead(b0: Byte, s1: string, n: nat, bits: int, cp: int, r: string)
    requires LeadByte(b0) == Some((n, bits))
    requires DecodeContinuations(n, bits, s1) == Some((cp, r))
    requires MinCodePoint(n) <= cp && IsScalar(cp)
    ensures DecodeOne(PercentByte(b0) + s1) == Some((cp as char, r))
  {
    var s := PercentByte(b0) + s1;
    DecodeBytePercent(b0, s1);
    assert s[0] == '%';
  }

  lemma DecodeTwoBytes(q: int, x1: int, rest: string)
    requires 2 <= q < 32 && 0 <= x1 < 64
    ensures DecodeOne(PercentByte(0xC0 + q) + (PercentByte(0x80 + x1) + rest))
         == Some(((q * 64 + x1) as char, rest))
  {
    var cp := q * 64 + x1;
    assert LeadByte(0xC0 + q) == Some((1, q));
    DecodeOneContinuation(1, q, x1, rest);
    assert MinCodePoint(1) <= cp && IsScalar(cp);
    DecodeOneLead(0xC0 + q, PercentByte(0x80 + x1) + rest, 1, q, cp, rest);
  }

  lemma DecodeThreeBytes(q: int, x1: int, x2: int, rest: string)
    requires 0 <= q < 16 && 0 <= x1 < 64 && 0 <= x2 < 64
    requires 0x800 <= (q * 64 + x1) * 64 + x2 && IsScalar((q * 64 + x1) * 64 + x2)
    ensures DecodeOne(PercentByte(0xE0 + q) + (PercentByte(0x80 + x1) + (PercentByte(0x80 + x2) + rest)))
         == Some((((q * 64 + x1) * 64 + x2) as char, rest))
  {
    var cp := (q * 64 + x1) * 64 + x2;
    var s1 := PercentByte(0x80 + x1) + (PercentByte(0x80 + x2) + rest);
    assert LeadByte(0xE0 + q) == Some((2, q));
    DecodeTwoContinuations(2, q, x1, x2, rest);
    assert MinCodePoint(2) <= cp;
    DecodeOneLead(0xE0 + q, s1, 2, q, cp, rest);
  }

  lemma DecodeFourBytes(q: int, x1: int, x2: int, x3: int, rest: string)
    requires 0 <= q < 5 && 0 <= x1 < 64 && 0 <= x2 < 64 && 0 <= x3 < 64
    requires 0x10000 <= ((q * 64 + x1) * 64 + x2) * 64 + x3 && IsScalar(((q * 64 + x1) * 64 + x2) * 64 + x3)
    ensures DecodeOne(PercentByte(0xF0 + q) + (PercentByte(0x80 + x1) + (PercentByte(0x80 + x2) + (PercentByte(0x80 + x3) + rest))))
         == Some(((((q * 64 + x1) * 64 + x2) * 64 + x3) as char, rest))
  {
    var cp := ((q * 64 + x1) * 64 + x2) * 64 + x3;
    var s1 := PercentByte(0x80 + x1) + (PercentByte(0x80 + x2) + (PercentByte(0x80 + x3) + rest));
    assert LeadByte(0xF0 + q) == Some((3, q));
    DecodeThreeContinuations(3, q, x1, x2, x3, rest);
    assert MinCodePoint(3) <= cp;
    DecodeOneLead(0xF0 + q, s1, 3, q, cp, rest);
  }

  lemma PercentBytesTwo(b0: Byte, b1: Byte, rest: string)
    ensures PercentBytes([b0, b1]) + rest == PercentByte(b0) + (PercentByte(b1) + rest)
  {
    PercentBytesCons([b0, b1], rest);
    PercentBytesCons([b1], rest);
    assert [b0, b1][1..] == [b1];
  }

  lemma PercentBytesThree(b0: Byte, b1: Byte, b2: Byte, rest: string)
    ensures PercentBytes([b0, b1, b2]) + rest == PercentByte(b0) + (PercentByte(b1) + (PercentByte(b2) + rest))
  {
    PercentBytesCons([b0, b1, b2], rest);
    assert [b0, b1, b2][1..] == [b1, b2];
    PercentBytesTwo(b1, b2, rest);
  }

  lemma PercentBytesFour(b0: Byte, b1: Byte, b2: Byte, b3: Byte, rest: string)
    ensures PercentBytes([b0, b1, b2, b3]) + rest
         == PercentByte(b0) + (PercentByte(b1) + (PercentByte(b2) + (PercentByte(b3) + rest)))
  {
    PercentBytesCons([b0, b1, b2, b3], rest);
    assert [b0, b1, b2, b3][1..] == [b1, b2, b3];
    PercentBytesThree(b1, b2, b3, rest);
  }

  lemma DecodeOneAscii(c: char, rest: string)
    requires c as int < 0x80
    ensures DecodeOne(PercentBytes(Utf8(c)) + rest) == Some((c, rest))
  {
    PercentBytesCons(Utf8(c), rest);
    DecodeBytePercent(c as int, rest);
  }

  lemma DecodeOneTwoBytes(c: char, rest: string)
    requires 0x80 <= c as int < 0x800
    ensures DecodeOne(PercentBytes(Utf8(c)) + rest) == Some((c, rest))
  {
    var cp := c as int;
    SplitBits(cp);
    PercentBytesTwo(0xC0 + cp / 64, 0x80 + cp % 64, rest);
    DecodeTwoBytes(cp / 64, cp % 64, rest);
  }

  lemma DecodeOneThreeBytes(c: char, rest: string)
    requires 0x800 <= c as int < 0x10000
    ensures DecodeOne(PercentBytes(Utf8(c)) + rest) == Some((c, rest))
  {
    var cp := c as int;
    SplitBits(cp);
    assert Utf8(c) == [0xE0 + cp / 4096, 0x80 + (cp / 64) % 64, 0x80 + cp % 64];
    PercentBytesThree(0xE0 + cp / 4096, 0x80 + (cp / 64) % 64, 0x80 + cp % 64, rest);
    DecodeThreeBytes(cp / 4096, (cp / 64) % 64, cp % 64, rest);
  }

  lemma DecodeOneFourBytes(c: char, rest: string)
    requires 0x10000 <= c as int
    ensures DecodeOne(PercentBytes(Utf8(c)) + rest) == Some((c, rest))
  {
    var cp := c as int;
    SplitBits(cp);
    assert Utf8(c) == [0xF0 + cp / 262144, 0x80 + (cp / 4096) % 64, 0x80 + (cp / 64) % 64, 0x80 + cp % 64];
    PercentBytesFour(0xF0 + cp / 262144, 0x80 + (cp / 4096) % 64, 0x80 + (cp / 64) % 64, 0x80 + cp % 64, rest);
    DecodeFourBytes(cp / 262144, (cp / 4096) % 64, (cp / 64) % 64, cp % 64, rest);
  }

  /** Reading one character back from its encoding, whatever follows it. */
  lemma DecodeOneEncodeChar(c: char, rest: string)
    ensures DecodeOne(EncodeChar(c) + rest) == Some((c, rest))
  {
    if Unreserved(c) {
      assert (EncodeChar(c) + rest)[1..] == rest;
    } else if c as int < 0x80 {
      DecodeOneAscii(c, rest);
    } else if c as int < 0x800 {
      DecodeOneTwoBytes(c, rest);
    } else if c as int < 0x10000 {
      DecodeOneThreeBytes(c, rest);
    } else {
      DecodeOneFourBytes(c, rest);
    }
  }

  /** Decoding what `encodeURIComponent` produced gives the original text back. */
  lemma {:induction false} DecodeEncode(s: string)
    ensures Decode(Encode(s)) == Some(s)
  {
    if s != [] {
      var e := Encode(s);
      assert e == EncodeChar(s[0]) + Encode(s[1..]);
      DecodeOneEncodeChar(s[0], Encode(s[1..]));
      DecodeEncode(s[1..]);
      assert s == [s[0]] + s[1..];
    }
  }
}
