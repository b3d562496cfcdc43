/**
 Strings at the C boundary. Rust strings are sequences of Unicode scalar values stored as UTF-8; C
 strings are byte buffers scanned up to their first NUL. The encoder and the strict decoder follow
 sections 3 and 4 of RFC 3629.
 */
module Utf8 {
  import opened Prelude

  type Byte = b: int | 0 <= b < 256
  type Scalar = c: int | 0 <= c < 0xD800 || 0xE000 <= c < 0x11_0000
  type Str = seq<Scalar>
  type Bytes = seq<Byte>

  const REPLACEMENT: Scalar := 0xFFFD

  /** All but the six least significant bits. */
  function High(c: nat): (h: nat)
    ensures h * 64 <= c < h * 64 + 64
  {
    c / 64
  }

  /** The six least significant bits as a continuation byte. */
  function Low(c: nat): (b: Byte)
    ensures Tail(b) && Join(High(c), b) == c
  {
    0x80 + c % 64
  }

  /** Appends the six payload bits of a continuation byte. */
  function Join(high: int, tail: Byte): int {
    high * 64 + (tail - 0x80)
  }

  lemma JoinSplits(h: nat, t: Byte)
    requires Tail(t)
    ensures Join(h, t) >= 0 && High(Join(h, t)) == h && Low(Join(h, t)) == t
  {
  }

  /** How many bytes a scalar takes. */
  function Width(c: Scalar): nat {
    if c < 0x80 then 1 else if c < 0x800 then 2 else if c < 0x1_0000 then 3 else 4
  }

  function EncodeScalar(c: Scalar): (b: Bytes)
    ensures |b| == Width(c)
    ensures 0 in b <==> c == 0
  {
    if c < 0x80 then [c]
    else if c < 0x800 then [0xC0 + High(c), Low(c)]
    else if c < 0x1_0000 then [0xE0 + High(High(c)), Low(High(c)), Low(c)]
    else [0xF0 + High(High(High(c))), Low(High(High(c))), Low(High(c)), Low(c)]
  }

  function FlatMap<A, B>(s: seq<A>, f: A -> seq<B>): seq<B> {
    if s == [] then [] else f(s[0]) + FlatMap(s[1..], f)
  }

  lemma Associate<B>(x: seq<B>, y: seq<B>, z: seq<B>)
    ensures x + (y + z) == x + y + z
    ensures [] + x == x
  {
  }

  lemma {:induction false} FlatMapAppend<A, B>(a: seq<A>, b: seq<A>, f: A -> seq<B>)
    ensures FlatMap(a + b, f) == FlatMap(a, f) + FlatMap(b, f)
  {
    if a == [] {
      Associate(b, [], []);
      Associate(FlatMap(b, f), [], []);
    } else {
      FlatMapAppend(a[1..], b, f);
      Associate(f(a[0]), FlatMap(a[1..], f), FlatMap(b, f));
      assert (a + b)[1..] == a[1..] + b;
    }
  }

  function Encode(s: Str): Bytes {
    FlatMap(s, EncodeScalar)
  }

  function TotalWidth(s: Str): nat {
    if s == [] then 0 else Width(s[0]) + TotalWidth(s[1..])
  }

  lemma {:induction false} EncodedLength(s: Str)
    ensures |Encode(s)| == TotalWidth(s)
  {
    if s != [] {
      EncodedLength(s[1..]);
    }
  }

  predicate Tail(b: Byte) {
    0x80 <= b < 0xC0
  }

  /** The number of bytes of the character at the head of `b`, or 0 when no well-formed one is there. */
  function HeadLength(b: Bytes): (n: nat)
    ensures n <= |b| && n <= 4
  {
    if |b| >= 1 && b[0] < 0x80 then 1
    else if |b| >= 2 && 0xC2 <= b[0] < 0xE0 && Tail(b[1]) then 2
    else if |b| >= 3 && 0xE0 <= b[0] < 0xF0 && Tail(b[1]) && Tail(b[2])
            && (b[0] == 0xE0 ==> b[1] >= 0xA0) && (b[0] == 0xED ==> b[1] < 0xA0) then 3
    else if |b| >= 4 && 0xF0 <= b[0] < 0xF5 && Tail(b[1]) && Tail(b[2]) && Tail(b[3])
            && (b[0] == 0xF0 ==> b[1] >= 0x90) && (b[0] == 0xF4 ==> b[1] < 0x90) then 4
    else 0
  }

  function HeadScalar(b: Bytes): (c: Scalar)
    requires HeadLength(b) > 0
  {
    match HeadLength(b)
    case 1 => b[0]
    case 2 => Join(b[0] - 0xC0, b[1])
    case 3 => Join(Join(b[0] - 0xE0, b[1]), b[2])
    case _ => Join(Join(Join(b[0] - 0xF0, b[1]), b[2]), b[3])
  }

  /** Strict decoding, as `CStr::to_str` does it: `None` on the first malformed byte. */
  function Decode(b: Bytes): Option<Str> {
    if b == [] then Some([])
    else
      var n := HeadLength(b);
      if n == 0 then None
      else
        match Decode(b[n..])
        case None => None
        case Some(rest) => Some([HeadScalar(b)] + rest)
  }

  lemma HeadOfEncoded(c: Scalar, rest: Bytes)
    ensures var b := EncodeScalar(c) + rest;
            HeadLength(b) == |EncodeScalar(c)| && HeadScalar(b) == c && b[HeadLength(b)..] == rest
  {
    var e := EncodeScalar(c);
    var b := e + rest;
    assert b[0] == e[0] && b[|e|..] == rest;
    if 0x80 <= c < 0x800 {
      assert b[1] == e[1];
    } else if 0x800 <= c < 0x1_0000 {
      assert b[1] == e[1] && b[2] == e[2];
    } else if 0x1_0000 <= c {
      assert b[1] == e[1] && b[2] == e[2] && b[3] == e[3];
    }
  }

  lemma EncodeTwo(b0: Byte, b1: Byte)
    requires 0xC2 <= b0 < 0xE0 && Tail(b1)
    ensures var c := Join(b0 - 0xC0, b1); 0x80 <= c < 0x800 && EncodeScalar(c) == [b0, b1]
  {
    JoinSplits(b0 - 0xC0, b1);
  }

  lemma EncodeThree(b0: Byte, b1: Byte, b2: Byte)
    requires 0xE0 <= b0 < 0xF0 && Tail(b1) && Tail(b2)
    requires (b0 == 0xE0 ==> b1 >= 0xA0) && (b0 == 0xED ==> b1 < 0xA0)
    ensures var c := Join(Join(b0 - 0xE0, b1), b2);
            0x800 <= c < 0x1_0000 && !(0xD800 <= c < 0xE000) && EncodeScalar(c) == [b0, b1, b2]
  {
    JoinSplits(b0 - 0xE0, b1);
    JoinSplits(Join(b0 - 0xE0, b1), b2);
  }

  lemma EncodeFour(b0: Byte, b1: Byte, b2: Byte, b3: Byte)
    requires 0xF0 <= b0 < 0xF5 && Tail(b1) && Tail(b2) && Tail(b3)
    requires (b0 == 0xF0 ==> b1 >= 0x90) && (b0 == 0xF4 ==> b1 < 0x90)
    ensures var c := Join(Join(Join(b0 - 0xF0, b1), b2), b3);
            0x1_0000 <= c < 0x11_0000 && EncodeScalar(c) == [b0, b1, b2, b3]
  {
    var h2 := Join(b0 - 0xF0, b1);
    assert 0x10 <= h2 < 0x110;
    var h1 := Join(h2, b2);
    assert 0x400 <= h1 < 0x4400;
    JoinSplits(b0 - 0xF0, b1);
    JoinSplits(h2, b2);
    JoinSplits(h1, b3);
  }

  lemma EncodeOfHead(b: Bytes)
    requires HeadLength(b) > 0
    ensures EncodeScalar(HeadScalar(b)) == b[..HeadLength(b)]
  {
    match HeadLength(b)
    case 1 =>
      assert b[..1] == [b[0]];
    case 2 =>
      assert b[..2] == [b[0], b[1]];
      EncodeTwo(b[0], b[1]);
    case 3 =>
      assert b[..3] == [b[0], b[1], b[2]];
      EncodeThree(b[0], b[1], b[2]);
    case _ =>
      assert b[..4] == [b[0], b[1], b[2], b[3]];
      EncodeFour(b[0], b[1], b[2], b[3]);
  }

  /** Decoding an encoded string gives the string back. */
  lemma {:induction false} DecodeEncode(s: Str)
    ensures Decode(Encode(s)) == Some(s)
  {
    if s != [] {
      HeadOfEncoded(s[0], Encode(s[1..]));
      DecodeEncode(s[1..]);
      assert s == [s[0]] + s[1..];
    }
  }

  lemma EncodeCons(c: Scalar, rest: Str)
    ensures Encode([c] + rest) == EncodeScalar(c) + Encode(rest)
  {
    assert ([c] + rest)[1..] == rest;
  }

  lemma EncodeHeadAnd(b: Bytes, rest: Str)
    requires HeadLength(b) > 0 && Encode(rest) == b[HeadLength(b)..]
    ensures Encode([HeadScalar(b)] + rest) == b
  {
    EncodeCons(HeadScalar(b), rest);
    EncodeOfHead(b);
    assert b[..HeadLength(b)] + b[HeadLength(b)..] == b;
  }

  /** Only encodings decode: whatever the decoder accepts is the encoding of its result. */
  lemma {:induction false} EncodeDecode(b: Bytes)
    requires Decode(b).Some?
    ensures Encode(Decode(b).value) == b
  {
    if b != [] {
      EncodeDecode(b[HeadLength(b)..]);
      EncodeHeadAnd(b, Decode(b[HeadLength(b)..]).value);
    }
  }

  lemma {:induction false} NulInEncoding(s: Str)
    ensures 0 in Encode(s) <==> 0 in s
  {
    if s != [] {
      NulInEncoding(s[1..]);
      assert s == [s[0]] + s[1..];
    }
  }

  lemma EncodeAppend(a: Str, b: Str)
    ensures Encode(a + b) == Encode(a) + Encode(b)
  {
    FlatMapAppend(a, b, EncodeScalar);
  }

  /** The byte of an ASCII character is its code. */
  lemma {:induction false} EncodeAscii(s: Str)
    requires forall i :: 0 <= i < |s| ==> s[i] < 0x80
    ensures Encode(s) == s
  {
    if s != [] {
      EncodeAscii(s[1..]);
      assert s == [s[0]] + s[1..];
      EncodeCons(s[0], s[1..]);
    }
  }

  /** The payload of a byte: what is left without its tag bits. */
  function Payload(b: int, tag: int): int {
    b - tag
  }

  /**
   The encoding table of RFC 3629, section 3, in numbers: the lead byte says how many bytes there are, the
   others carry six bits each, and the most significant bits come first.
   */
  lemma EncodingTable(c: Scalar)
    ensures var b := EncodeScalar(c);
            && (c < 0x80 ==> b == [c])
            && (0x80 <= c < 0x800 ==>
                  |b| == 2 && 0xC0 <= b[0] < 0xE0 && Tail(b[1]) && c == Payload(b[0], 0xC0) * 64 + Payload(b[1], 0x80))
            && (0x800 <= c < 0x1_0000 ==>
                  |b| == 3 && 0xE0 <= b[0] < 0xF0 && Tail(b[1]) && Tail(b[2])
                  && c == Payload(b[0], 0xE0) * 4096 + Payload(b[1], 0x80) * 64 + Payload(b[2], 0x80))
            && (0x1_0000 <= c ==>
                  |b| == 4 && 0xF0 <= b[0] < 0xF8 && Tail(b[1]) && Tail(b[2]) && Tail(b[3])
                  && c == Payload(b[0], 0xF0) * 262144 + Payload(b[1], 0x80) * 4096
                          + Payload(b[2], 0x80) * 64 + Payload(b[3], 0x80))
  {
    var h1 := High(c);
    var h2 := High(h1);
    assert Join(h1, Low(c)) == c && Join(h2, Low(h1)) == h1 && Join(High(h2), Low(h2)) == h2;
  }

  // ---- C strings -------------------------------------------------------------------------------

  /** A pointer argument of type `const char*`: null, or a buffer that contains a NUL. */
  datatype CPtr = Null | At(mem: Memory)

  type Memory = m: Bytes | 0 in m witness [0]

  /** What a reader of a C string sees: the bytes before the first NUL. */
  function ScanToNul(m: Memory): (b: Bytes)
    ensures |b| < |m| && 0 !in b && m[..|b|] == b && m[|b|] == 0
    decreases |m|
  {
    if m[0] == 0 then []
    else
      assert m == [m[0]] + m[1..];
      [m[0]] + ScanToNul(m[1..])
  }

  lemma {:induction false} ScanUnique(b: Bytes, rest: Bytes)
    requires 0 !in b
    ensures 0 in b + [0] + rest && ScanToNul(b + [0] + rest) == b
  {
    var m := b + [0] + rest;
    assert m[|b|] == 0;
    if b != [] {
      ScanUnique(b[1..], rest);
      assert m[1..] == b[1..] + [0] + rest;
    }
  }

  /** `std::string::c_str()`: the string's own bytes, embedded NULs included, then a NUL. */
  function CStrOf(s: Bytes): CPtr {
    assert (s + [0])[|s|] == 0;
    At(s + [0])
  }

  const NULL_STRING: string := "null string pointer"
  const NOT_UTF8: string := "string is not valid UTF-8"

  function Ascii(s: string): (t: Str)
    ensures |t| == |s|
    ensures forall i :: 0 <= i < |s| && s[i] as int < 128 ==> t[i] == s[i] as int
  {
    seq(|s|, i requires 0 <= i < |s| => if s[i] as int < 128 then s[i] as int else 63)
  }

  /** `cstr`: borrow a C string as UTF-8, or say why it cannot be. */
  function ReadCStr(p: CPtr): Result<Str, string> {
    match p
    case Null => Err(NULL_STRING)
    case At(m) =>
      match Decode(ScanToNul(m))
      case None => Err(NOT_UTF8)
      case Some(s) => Ok(s)
  }

  /** `cstr` accepts exactly the NUL-terminated encodings, and returns the string that was encoded. */
  lemma ReadCStrAccepts(p: CPtr, s: Str)
    ensures ReadCStr(p) == Ok(s) <==> p.At? && ScanToNul(p.mem) == Encode(s)
  {
    if p.At? {
      DecodeEncode(s);
      if Decode(ScanToNul(p.mem)) == Some(s) {
        EncodeDecode(ScanToNul(p.mem));
      }
    }
  }

  /**
   A C++ `std::string` passed through `c_str()` reaches Rust unchanged exactly when it is the UTF-8
   encoding of a string without a NUL character; with an embedded NUL it is cut short.
   */
  lemma CppStringArrives(b: Bytes, s: Str)
    requires b == Encode(s)
    ensures ReadCStr(CStrOf(b)) == Ok(s) <==> 0 !in s
  {
    NulInEncoding(s);
    ReadCStrAccepts(CStrOf(b), s);
    if 0 !in b {
      assert b + [0] + [] == b + [0];
      ScanUnique(b, []);
    }
  }

  lemma NulCutsCppString(a: Str, rest: Str)
    requires 0 !in a
    ensures ReadCStr(CStrOf(Encode(a + [0] + rest))) == Ok(a)
  {
    var e := Encode(a);
    NulInEncoding(a);
    EncodeAppend(a + [0], rest);
    EncodeAppend(a, [0]);
    assert Encode([0]) == [0] by { assert Encode([]) == []; }
    var b := Encode(a + [0] + rest);
    assert b == e + [0] + Encode(rest);
    assert b + [0] == e + [0] + (Encode(rest) + [0]);
    ScanUnique(e, Encode(rest) + [0]);
    ReadCStrAccepts(CStrOf(b), a);
  }
}
