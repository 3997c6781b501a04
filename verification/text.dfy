/** The text a multipart body is read as: characters in UTF-8, white space and lines, against what they stand for. */
module MultipartText {
  import opened Prelude
  import opened Multipart
  import Base64

  // ---- Characters -------------------------------------------------------------

  type Scalar = Base64.Scalar

  /** A character's UTF-8 (section 3 of RFC 3629). */
  function Encoded(c: Scalar): Bytes {
    var bytes := Base64.Utf8Of(c);
    seq(|bytes|, i requires 0 <= i < |bytes| => bytes[i] as char)
  }

  function EncodedAll(text: seq<Scalar>): Bytes {
    if text == [] then [] else Encoded(text[0]) + EncodedAll(text[1..])
  }

  lemma EncodedReads(c: Scalar, rest: Bytes)
    ensures CharLength(Encoded(c) + rest) == |Encoded(c)|
  {
    var b := Encoded(c) + rest;
    if c < 0x80 {
      assert b[0] as int == c;
    } else if c < 0x800 {
      assert b[0] as int == 0xC0 + c / 0x40 && b[1] as int == 0x80 + c % 0x40;
    } else if c < 0x1_0000 {
      assert b[0] as int == 0xE0 + c / 0x1000 && b[1] as int == 0x80 + c / 0x40 % 0x40;
      assert b[2] as int == 0x80 + c % 0x40;
      InThree(c);
    } else {
      assert b[0] as int == 0xF0 + c / 0x4_0000 && b[1] as int == 0x80 + c / 0x1000 % 0x40;
      assert b[2] as int == 0x80 + c / 0x40 % 0x40 && b[3] as int == 0x80 + c % 0x40;
      InFour(c);
    }
  }

  lemma InThree(c: Scalar)
    requires 0x800 <= c < 0x1_0000
    ensures c / 0x1000 == 0 ==> c / 0x40 % 0x40 >= 0x20
    ensures c / 0x1000 == 0xD ==> c / 0x40 % 0x40 < 0x20
  {
    assert c / 0x40 / 0x40 == c / 0x1000;
  }

  lemma InFour(c: Scalar)
    requires 0x1_0000 <= c
    ensures c / 0x4_0000 <= 4
    ensures c / 0x4_0000 == 0 ==> c / 0x1000 % 0x40 >= 0x10
    ensures c / 0x4_0000 == 4 ==> c / 0x1000 % 0x40 < 0x10
  {
    assert c / 0x1000 / 0x40 == c / 0x4_0000;
  }

  lemma ReadIsEncoded(b: Bytes) returns (c: Scalar)
    requires CharLength(b) > 0
    ensures b[..CharLength(b)] == Encoded(c)
  {
    var n := CharLength(b);
    if n == 1 {
      c := b[0] as int;
    } else if n == 2 {
      c := OfTwo(b[0], b[1]);
      assert b[..2] == [b[0], b[1]];
    } else if n == 3 {
      c := OfThree(b[0], b[1], b[2]);
      assert b[..3] == [b[0], b[1], b[2]];
    } else {
      c := OfFour(b[0], b[1], b[2], b[3]);
      assert b[..4] == [b[0], b[1], b[2], b[3]];
    }
  }

  lemma OfTwo(a: char, b: char) returns (c: Scalar)
    requires 0xC2 <= a as int < 0xE0 && Continues(b)
    ensures [a, b] == Encoded(c)
  {
    c := (a as int - 0xC0) * 0x40 + (b as int - 0x80);
  }

  lemma OfThree(a: char, b: char, d: char) returns (c: Scalar)
    requires 0xE0 <= a as int < 0xF0 && Continues(b) && Continues(d)
    requires (a as int == 0xE0 ==> b as int >= 0xA0) && (a as int == 0xED ==> (b as int) < 0xA0)
    ensures [a, b, d] == Encoded(c)
  {
    var high := (a as int - 0xE0) * 0x40 + (b as int - 0x80);
    var n := high * 0x40 + (d as int - 0x80);
    assert n / 0x40 == high && n / 0x1000 == a as int - 0xE0;
    c := n;
  }

  lemma OfFour(a: char, b: char, d: char, e: char) returns (c: Scalar)
    requires 0xF0 <= a as int < 0xF5 && Continues(b) && Continues(d) && Continues(e)
    requires (a as int == 0xF0 ==> b as int >= 0x90) && (a as int == 0xF4 ==> (b as int) < 0x90)
    ensures [a, b, d, e] == Encoded(c)
  {
    var high := (a as int - 0xF0) * 0x40 + (b as int - 0x80);
    var middle := high * 0x40 + (d as int - 0x80);
    var n := middle * 0x40 + (e as int - 0x80);
    assert n / 0x40 == middle && n / 0x1000 == high && n / 0x4_0000 == a as int - 0xF0;
    c := n;
  }

  /** Bytes are text exactly when they are the UTF-8 of some characters. */
  lemma {:induction false} TextIsCharacters(b: Bytes)
    ensures ValidUtf8(b) <==> exists text: seq<Scalar> :: EncodedAll(text) == b
    decreases |b|
  {
    if b == [] {
      assert EncodedAll([]) == b;
    } else {
      if ValidUtf8(b) {
        var c := ReadIsEncoded(b);
        var rest := b[CharLength(b)..];
        TextIsCharacters(rest);
        var text: seq<Scalar> :| EncodedAll(text) == rest;
        assert ([c] + text)[1..] == text;
        assert EncodedAll([c] + text) == b;
      }
      if text: seq<Scalar> :| EncodedAll(text) == b {
        CharactersAreText(text);
      }
    }
  }

  lemma {:induction false} CharactersAreText(text: seq<Scalar>)
    ensures ValidUtf8(EncodedAll(text))
  {
    if text != [] {
      var first, rest := Encoded(text[0]), EncodedAll(text[1..]);
      EncodedReads(text[0], rest);
      CharactersAreText(text[1..]);
      assert (first + rest)[|first|..] == rest;
    }
  }

  // ---- White space ------------------------------------------------------------

  /** The code points Unicode calls white space. */
  predicate White(c: Scalar) {
    || 0x9 <= c <= 0xD || c == 0x20 || c == 0x85 || c == 0xA0 || c == 0x1680 || 0x2000 <= c <= 0x200A
    || c == 0x2028 || c == 0x2029 || c == 0x202F || c == 0x205F || c == 0x3000
  }

  /** A character is trimmed off exactly when it is one of them. */
  lemma WhiteIs(c: Scalar)
    ensures IsWhite(Encoded(c)) <==> White(c)
  {
    if 0x800 <= c < 0x1_0000 {
      var b := Encoded(c);
      assert b[0] as int == 0xE0 + c / 0x1000 && b[1] as int == 0x80 + c / 0x40 % 0x40;
      assert b[2] as int == 0x80 + c % 0x40;
      assert c / 0x40 / 0x40 == c / 0x1000;
    }
  }

  /** And nothing but a character is. */
  lemma WhiteIsACharacter(b: Bytes) returns (c: Scalar)
    requires IsWhite(b)
    ensures Encoded(c) == b
  {
    assert CharLength(b) == |b| && b[..|b|] == b;
    c := ReadIsEncoded(b);
  }

  // ---- Lines and parts --------------------------------------------------------

  /** A line ends in a line feed, and one carriage return before that is no part of it; at the very end it is. */
  lemma LinesEnd(line: Bytes, rest: Bytes)
    requires '\n' !in line
    ensures Lines(line + "\r\n" + rest) == [line] + Lines(rest)
    ensures line == [] || line[|line| - 1] != '\r' ==> Lines(line + "\n" + rest) == [line] + Lines(rest)
    ensures Lines(line) == if line == [] then [] else [line]
  {
    LineBeforeAnother(line, rest);
    assert "\r\n" == CRLF;
    SplitsAtTheFirst(line, '\n', rest);
    assert line + "\n" + rest == line + ['\n'] + rest;
    if line != [] {
      LastLine(line);
    }
  }

  /** A part is what stands between the line ends at its two ends, if they are there; two dashes close the body. */
  lemma PartsAreTrimmed(part: Bytes)
    ensures Trimmed("\r\n" + part + "\r\n") == part
    ensures !("--" <= part) && !("\r\n" <= part) && (|part| < 2 || part[|part| - 2..] != "\r\n") ==>
      Trimmed(part) == part
    ensures Trimmed("--" + part) == []
  {
    assert "\r\n" == CRLF;
    TrimsItsEnds(part);
  }

  /** A body of one field: its part between the boundary behind two dashes and that again with two more. */
  lemma BodyOfOne(field: Field, boundary: Bytes)
    ensures Delimiter(boundary) + Tail([field], Delimiter(boundary)) ==
      "--" + boundary + Part(field) + ("--" + boundary) + "--\r\n"
  {
    hide Part;
    assert [field][1..] == [];
    assert "--" + CRLF == "--\r\n";
  }
}
