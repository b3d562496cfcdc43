/** The byte-array printer that generates the C header shipped with the examples (tests/roundtrip.rs). */
module Fixture {
  import opened Prelude
  import opened Utf8

  /** The lower-case hex digit of a value below 16. */
  function HexDigit(d: nat): (c: char)
    requires d < 16
    ensures DigitValue(c) == Some(d) && c == "0123456789abcdef"[d]
  {
    if d < 10 then '0' + d as char else 'a' + (d - 10) as char
  }

  function DigitValue(c: char): Option<nat> {
    if '0' <= c <= '9' then Some(c as nat - '0' as nat)
    else if 'a' <= c <= 'f' then Some(c as nat - 'a' as nat + 10)
    else if 'A' <= c <= 'F' then Some(c as nat - 'A' as nat + 10)
    else None
  }

  /** `format!("0x{b:02x}, ")`. */
  function Element(b: Byte): string {
    ['0', 'x', HexDigit(b / 16), HexDigit(b % 16), ',', ' ']
  }

  /** A line break before every twelfth element. */
  function Line(i: nat): string {
    if i % 12 == 0 then "\n    " else ""
  }

  /** The text for the elements from index `i` on. */
  function Elements(bytes: Bytes, i: nat): string
    requires i <= |bytes|
    decreases |bytes| - i
  {
    if i == |bytes| then ""
    else Line(i) + Element(bytes[i]) + Elements(bytes, i + 1)
  }

  function Opening(guard: string, name: string, blurb: string): string {
    "// Auto-generated fixture \U{2014} do not edit by hand.\n" + "// " + blurb + "\n"
    + "#ifndef " + guard + "\n#define " + guard + "\n" + "#include <stdint.h>\n#include <stddef.h>\n\n"
    + "static const uint8_t " + name + "[] = {"
  }

  function Closing(guard: string, name: string): string {
    "\n};\n" + "static const size_t " + name + "_LEN = sizeof(" + name + ");\n" + "#endif // " + guard + "\n"
  }

  predicate StartsWith(s: string, prefix: string) {
    |prefix| <= |s| && s[..|prefix|] == prefix
  }

  predicate EndsWith(s: string, suffix: string) {
    |suffix| <= |s| && s[|s| - |suffix|..] == suffix
  }

  lemma PartsInPlace(a: string, b: string, c: string, d: string)
    ensures StartsWith(a + b, a) && EndsWith(a + b, b)
    ensures StartsWith(a + b + c + d, a) && EndsWith(a + b + c + d, b + c + d)
  {
  }

  /**
   Where the names go: the include guard opens and closes the header, and the array's name stands directly
   before its initializer and in its length.
   */
  lemma NamesInPlace(guard: string, name: string, blurb: string)
    ensures StartsWith(Opening(guard, name, blurb),
                       "// Auto-generated fixture \U{2014} do not edit by hand.\n" + "// " + blurb + "\n"
                       + "#ifndef " + guard + "\n#define " + guard + "\n")
    ensures EndsWith(Opening(guard, name, blurb), "static const uint8_t " + name + "[] = {")
    ensures StartsWith(Closing(guard, name),
                       "\n};\n" + "static const size_t " + name + "_LEN = sizeof(" + name + ");\n")
    ensures EndsWith(Closing(guard, name), "#endif // " + guard + "\n")
  {
    var includes := "#include <stdint.h>\n#include <stddef.h>\n\n";
    var head := "// Auto-generated fixture \U{2014} do not edit by hand.\n" + "// " + blurb + "\n"
                + "#ifndef " + guard + "\n#define " + guard + "\n";
    var start := head + includes;
    assert Opening(guard, name, blurb) == start + "static const uint8_t " + name + "[] = {";
    PartsInPlace(start, "static const uint8_t ", name, "[] = {");
    PartsInPlace(head, includes, "", "");
    var length := "\n};\n" + "static const size_t " + name + "_LEN = sizeof(" + name + ");\n";
    assert Closing(guard, name) == length + "#endif // " + guard + "\n";
    PartsInPlace(length, "#endif // ", guard, "\n");
    StartsTrans(Opening(guard, name, blurb), start, head);
  }

  lemma StartsTrans(s: string, m: string, p: string)
    requires StartsWith(s, m) && StartsWith(m, p)
    ensures StartsWith(s, p)
  {
    assert s[..|p|] == m[..|p|];
  }

  lemma PushTwo(s: string, a: string, b: string, rest: string)
    ensures s + (a + b + rest) == s + a + b + rest
    ensures s + "" == s
  {
  }

  /** The element loop of `write_byte_fixture`. */
  method WriteElements(bytes: Bytes) returns (s: string)
    ensures s == Elements(bytes, 0)
  {
    s := "";
    var i := 0;
    while i < |bytes|
      invariant 0 <= i <= |bytes|
      invariant s + Elements(bytes, i) == Elements(bytes, 0)
    {
      PushTwo(s, Line(i), Element(bytes[i]), Elements(bytes, i + 1));
      if i % 12 == 0 {
        s := s + "\n    ";
      }
      s := s + Element(bytes[i]);
      i := i + 1;
    }
    PushTwo(s, "", "", "");
  }

  /** `write_byte_fixture`, up to writing the file. */
  method WriteByteFixture(guard: string, name: string, blurb: string, bytes: Bytes) returns (s: string)
    ensures s == Opening(guard, name, blurb) + Elements(bytes, 0) + Closing(guard, name)
  {
    s := "// Auto-generated fixture \U{2014} do not edit by hand.\n";
    s := s + ("// " + blurb + "\n");
    s := s + ("#ifndef " + guard + "\n#define " + guard + "\n");
    s := s + "#include <stdint.h>\n#include <stddef.h>\n\n";
    s := s + ("static const uint8_t " + name + "[] = {");
    assert s == Opening(guard, name, blurb);
    var elements := WriteElements(bytes);
    s := s + elements;
    var closing := "\n};\n";
    closing := closing + ("static const size_t " + name + "_LEN = sizeof(" + name + ");\n");
    closing := closing + ("#endif // " + guard + "\n");
    assert closing == Closing(guard, name);
    s := s + closing;
  }

  // ---- Reading the initializer back --------------------------------------------------------------

  /** The bytes of a C initializer list of two-digit hex literals, read from after its opening brace. */
  function Parse(s: string): Option<Bytes> {
    if s == "" then None
    else if s[0] == ' ' || s[0] == '\n' then Parse(s[1..])
    else if s[0] == '}' then Some([])
    else if |s| >= 5 && s[0] == '0' && s[1] == 'x' && s[4] == ',' then
      match (DigitValue(s[2]), DigitValue(s[3]), Parse(s[5..]))
      case (Some(h), Some(l), Some(rest)) => Some([h * 16 + l] + rest)
      case _ => None
    else None
  }

  lemma ParseSkips(c: char, s: string)
    requires c == ' ' || c == '\n'
    ensures Parse([c] + s) == Parse(s)
  {
    assert ([c] + s)[1..] == s;
  }

  lemma ParseBlank(s: string)
    ensures Parse("\n    " + s) == Parse(s)
  {
    ParseSkips(' ', s);
    ParseSkips(' ', " " + s);
    ParseSkips(' ', " " + (" " + s));
    ParseSkips(' ', " " + (" " + (" " + s)));
    ParseSkips('\n', " " + (" " + (" " + (" " + s))));
    assert "\n    " + s == "\n" + (" " + (" " + (" " + (" " + s))));
  }

  lemma LiteralShape(h: char, l: char, rest: string)
    ensures var s := ['0', 'x', h, l, ','] + rest;
            |s| >= 5 && s[0] == '0' && s[1] == 'x' && s[2] == h && s[3] == l && s[4] == ',' && s[5..] == rest
  {
  }

  lemma ParseLiteral(h: char, l: char, rest: string)
    requires DigitValue(h).Some? && DigitValue(l).Some? && Parse(rest).Some?
    ensures Parse(['0', 'x', h, l, ','] + rest)
            == Some([DigitValue(h).value * 16 + DigitValue(l).value] + Parse(rest).value)
  {
    LiteralShape(h, l, rest);
  }

  lemma ParseElement(b: Byte, rest: string)
    requires Parse(rest).Some?
    ensures Parse(Element(b) + rest) == Some([b] + Parse(rest).value)
  {
    var h, l := HexDigit(b / 16), HexDigit(b % 16);
    ParseSkips(' ', rest);
    ParseLiteral(h, l, " " + rest);
    assert Element(b) + rest == ['0', 'x', h, l, ','] + (" " + rest);
  }

  lemma Regroup(a: string, b: string, c: string, d: string)
    ensures (a + b + c) + d == a + (b + (c + d))
    ensures "" + a == a
  {
  }

  lemma ParseLine(i: nat, b: Byte, elements: string, tail: string)
    requires Parse(elements + tail).Some?
    ensures Parse(Line(i) + Element(b) + elements + tail) == Some([b] + Parse(elements + tail).value)
  {
    var rest := elements + tail;
    ParseElement(b, rest);
    ParseBlank(Element(b) + rest);
    Regroup(Element(b) + rest, "", "", "");
    Regroup(Line(i), Element(b), elements, tail);
  }

  lemma {:induction false} ParseElements(bytes: Bytes, i: nat, tail: string)
    requires i <= |bytes| && Parse(tail) == Some([])
    ensures Parse(Elements(bytes, i) + tail) == Some(bytes[i..])
    decreases |bytes| - i
  {
    if i == |bytes| {
      Regroup(tail, "", "", "");
    } else {
      var later := Elements(bytes, i + 1);
      ParseElements(bytes, i + 1, tail);
      ParseLine(i, bytes[i], later, tail);
      assert [bytes[i]] + bytes[i + 1..] == bytes[i..];
    }
  }

  /** Reading the generated header from after its opening brace gives back the bytes that were printed. */
  lemma FixtureRoundTrip(guard: string, name: string, bytes: Bytes)
    ensures Parse(Elements(bytes, 0) + Closing(guard, name)) == Some(bytes)
  {
    var tail := Closing(guard, name);
    assert tail[0] == '\n' && tail[1..][0] == '}';
    ParseElements(bytes, 0, tail);
    assert bytes[0..] == bytes;
  }

  function LineBreaks(s: string): nat {
    if s == "" then 0 else (if s[0] == '\n' then 1 else 0) + LineBreaks(s[1..])
  }

  lemma {:induction false} LineBreaksAppend(a: string, b: string)
    ensures LineBreaks(a + b) == LineBreaks(a) + LineBreaks(b)
  {
    if a == "" {
      assert a + b == b;
    } else {
      LineBreaksAppend(a[1..], b);
      assert (a + b)[1..] == a[1..] + b;
    }
  }

  lemma {:induction false} NoBreaks(s: string)
    requires '\n' !in s
    ensures LineBreaks(s) == 0
  {
    if s != "" {
      NoBreaks(s[1..]);
    }
  }

  lemma ElementHasNoBreak(b: Byte)
    ensures LineBreaks(Element(b)) == 0
  {
    NoBreaks(Element(b));
  }

  lemma RowBreaks(i: nat, b: Byte)
    ensures LineBreaks(Line(i) + Element(b)) == if i % 12 == 0 then 1 else 0
  {
    LineBreaksAppend(Line(i), Element(b));
    ElementHasNoBreak(b);
    NoBreaks("    ");
    assert "\n    "[1..] == "    ";
  }

  /** Twelve elements a line: exactly ceil(n / 12) data lines. */
  lemma {:induction false} DataLines(bytes: Bytes, i: nat)
    requires i <= |bytes|
    ensures LineBreaks(Elements(bytes, i)) == (|bytes| + 11) / 12 - (i + 11) / 12
    decreases |bytes| - i
  {
    if i < |bytes| {
      DataLines(bytes, i + 1);
      LineBreaksAppend(Line(i) + Element(bytes[i]), Elements(bytes, i + 1));
      RowBreaks(i, bytes[i]);
    }
  }
}
