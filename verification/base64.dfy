/** Node's lenient base64 decoder against the encodings of sections 4 and 5 of RFC 4648. */
module Base64 {
  import opened Prelude

  type Sextet = s: nat | s < 64

  const PAD: Byte := 61

  /** Both alphabets at once. */
  function Decoded(c: Byte): Option<Sextet> {
    if 65 <= c <= 90 then Some(c - 65)
    else if 97 <= c <= 122 then Some(c - 97 + 26)
    else if 48 <= c <= 57 then Some(c - 48 + 52)
    else if c == 43 || c == 45 then Some(62)
    else if c == 47 || c == 95 then Some(63)
    else None
  }

  // Shifts and ors of bytes: the ored operands share no bit, so the or is a sum.

  function FirstByte(a: Sextet, b: Sextet): Byte {
    a * 4 + b / 16
  }

  function SecondByte(b: Sextet, c: Sextet): Byte {
    b * 16 % 256 + c / 4
  }

  function ThirdByte(c: Sextet, d: Sextet): Byte {
    c * 64 % 256 + d
  }

  // ---- The decoder ----------------------------------------------------------

  /** The symbols that count: those of either alphabet, up to the first pad. */
  function Symbols(text: seq<Byte>): seq<Sextet> {
    if text == [] || text[0] == PAD then []
    else
      match Decoded(text[0])
      case Some(s) => [s] + Symbols(text[1..])
      case None => Symbols(text[1..])
  }

  /** Four symbols are three bytes; a last two or three are one or two; a last one alone is nothing. */
  function Joined(symbols: seq<Sextet>): seq<Byte> {
    if |symbols| >= 4 then
      [FirstByte(symbols[0], symbols[1]), SecondByte(symbols[1], symbols[2]), ThirdByte(symbols[2], symbols[3])] +
      Joined(symbols[4..])
    else if |symbols| == 3 then [FirstByte(symbols[0], symbols[1]), SecondByte(symbols[1], symbols[2])]
    else if |symbols| == 2 then [FirstByte(symbols[0], symbols[1])]
    else []
  }

  /** What the loop has read: whole groups, already written out, and the group being filled. */
  ghost predicate Read(text: seq<Byte>, i: nat, whole: seq<Sextet>, group: seq<Sextet>, filled: nat, out: seq<Byte>) {
    && i <= |text| && filled < 4 && |group| == 4 && |whole| % 4 == 0
    && Symbols(text) == whole + group[..filled] + Symbols(text[i..])
    && out == Joined(whole)
  }

  method Decode(text: seq<Byte>) returns (out: seq<Byte>)
    ensures out == Joined(Symbols(text))
  {
    hide Joined, Symbols, FirstByte, SecondByte, ThirdByte;
    out := [];
    var group: seq<Sextet> := [0, 0, 0, 0];
    var filled := 0;
    ghost var whole: seq<Sextet> := [];
    var i := 0;
    NothingRead(text, group);
    while i < |text| && text[i] != PAD
      invariant Read(text, i, whole, group, filled, out)
    {
      ReadOne(text, i, whole, group, filled, out);
      var v := Decoded(text[i]);
      if v.Some? {
        group := group[filled := v.value];
        filled := filled + 1;
        if filled == 4 {
          out := out + [FirstByte(group[0], group[1])];
          out := out + [SecondByte(group[1], group[2])];
          out := out + [ThirdByte(group[2], group[3])];
          whole := whole + group;
          filled := 0;
        }
      }
      i := i + 1;
    }
    ReadAll(text, i, whole, group, filled, out);
    if filled >= 2 {
      out := out + [FirstByte(group[0], group[1])];
    }
    if filled == 3 {
      out := out + [SecondByte(group[1], group[2])];
    }
  }

  lemma NothingRead(text: seq<Byte>, group: seq<Sextet>)
    requires |group| == 4
    ensures Read(text, 0, [], group, 0, [])
  {
    assert text[0..] == text;
  }

  /** One step of the loop keeps `Read`. */
  lemma ReadOne(text: seq<Byte>, i: nat, whole: seq<Sextet>, group: seq<Sextet>, filled: nat, out: seq<Byte>)
    requires Read(text, i, whole, group, filled, out) && i < |text| && text[i] != PAD
    ensures Decoded(text[i]).None? ==> Read(text, i + 1, whole, group, filled, out)
    ensures Decoded(text[i]).Some? ==>
      var next := group[filled := Decoded(text[i]).value];
      if filled < 3 then Read(text, i + 1, whole, next, filled + 1, out)
      else
        Read(text, i + 1, whole + next, next, 0,
             out + [FirstByte(next[0], next[1])] + [SecondByte(next[1], next[2])] + [ThirdByte(next[2], next[3])])
  {
    hide FirstByte, SecondByte, ThirdByte, Joined, Decoded;
    assert text[i..][1..] == text[i + 1..];
    var later := Symbols(text[i + 1..]);
    if Decoded(text[i]).Some? {
      var s: Sextet := Decoded(text[i]).value;
      SymbolJoinsGroup(whole, group, filled, s, later);
      if filled == 3 {
        JoiningFourMore(whole, group[filled := s]);
      }
    }
  }

  lemma SymbolJoinsGroup(whole: seq<Sextet>, group: seq<Sextet>, filled: nat, s: Sextet, later: seq<Sextet>)
    requires filled < 4 == |group|
    ensures var next := group[filled := s];
            && whole + group[..filled] + ([s] + later) == whole + next[..filled + 1] + later
            && (filled == 3 ==> whole + next[..filled + 1] + later == whole + next + next[..0] + later)
  {
    var next := group[filled := s];
    assert next[..filled + 1] == group[..filled] + [s];
    if filled == 3 {
      assert next[..filled + 1] == next && next[..0] == [];
    }
  }

  lemma ReadAll(text: seq<Byte>, i: nat, whole: seq<Sextet>, group: seq<Sextet>, filled: nat, out: seq<Byte>)
    requires Read(text, i, whole, group, filled, out) && (i == |text| || text[i] == PAD)
    ensures Joined(Symbols(text)) == out +
      if filled == 3 then [FirstByte(group[0], group[1])] + [SecondByte(group[1], group[2])]
      else if filled == 2 then [FirstByte(group[0], group[1])]
      else []
  {
    assert Symbols(text[i..]) == [];
    assert Symbols(text) == whole + group[..filled];
    JoiningTheRest(whole, group[..filled]);
  }

  lemma {:induction false} JoiningTheRest(whole: seq<Sextet>, rest: seq<Sextet>)
    requires |whole| % 4 == 0
    ensures Joined(whole + rest) == Joined(whole) + Joined(rest)
  {
    if whole == [] {
      assert whole + rest == rest;
    } else {
      assert (whole + rest)[4..] == whole[4..] + rest;
      JoiningTheRest(whole[4..], rest);
    }
  }

  lemma JoiningFourMore(whole: seq<Sextet>, group: seq<Sextet>)
    requires |whole| % 4 == 0 && |group| == 4
    ensures Joined(whole + group) ==
      Joined(whole) + [FirstByte(group[0], group[1])] + [SecondByte(group[1], group[2])] +
        [ThirdByte(group[2], group[3])]
  {
    JoiningTheRest(whole, group);
    assert Joined(group[4..]) == [];
  }

  // ---- The encoders of RFC 4648 ---------------------------------------------

  datatype Alphabet = Standard | UrlSafe

  function Symbol(s: Sextet, alphabet: Alphabet): Byte {
    if s < 26 then 65 + s
    else if s < 52 then 97 + s - 26
    else if s < 62 then 48 + s - 52
    else if s == 62 then (if alphabet.Standard? then 43 else 45)
    else if alphabet.Standard? then 47 else 95
  }

  function Split(bytes: seq<Byte>): seq<Sextet> {
    if |bytes| >= 3 then
      [bytes[0] / 4, bytes[0] % 4 * 16 + bytes[1] / 16, bytes[1] % 16 * 4 + bytes[2] / 64, bytes[2] % 64] +
      Split(bytes[3..])
    else if |bytes| == 2 then [bytes[0] / 4, bytes[0] % 4 * 16 + bytes[1] / 16, bytes[1] % 16 * 4]
    else if |bytes| == 1 then [bytes[0] / 4, bytes[0] % 4 * 16]
    else []
  }

  function Spell(symbols: seq<Sextet>, alphabet: Alphabet): seq<Byte> {
    seq(|symbols|, i requires 0 <= i < |symbols| => Symbol(symbols[i], alphabet))
  }

  /** One pad after two bytes over, two after one. */
  function Pads(n: nat): seq<Byte> {
    if n % 3 == 1 then [PAD, PAD] else if n % 3 == 2 then [PAD] else []
  }

  function Encode(bytes: seq<Byte>, alphabet: Alphabet, padded: bool): seq<Byte> {
    Spell(Split(bytes), alphabet) + if padded then Pads(|bytes|) else []
  }

  lemma FirstJoins(a: Byte, b: Byte)
    ensures FirstByte(a / 4, a % 4 * 16 + b / 16) == a
  {
  }

  lemma SecondJoins(a: Byte, b: Byte, c: Byte)
    ensures SecondByte(a % 4 * 16 + b / 16, b % 16 * 4 + c / 64) == b
  {
    SecondIs(a % 4, b / 16, b % 16, c / 64);
  }

  lemma SecondIs(k: nat, m: nat, n: nat, l: nat)
    requires k < 4 && m < 16 && n < 16 && l < 4
    ensures SecondByte(k * 16 + m, n * 4 + l) == m * 16 + n
  {
    assert (k * 16 + m) * 16 == k * 256 + m * 16;
  }

  lemma ThirdJoins(b: Byte, c: Byte)
    ensures ThirdByte(b % 16 * 4 + c / 64, c % 64) == c
  {
  }

  lemma TripleJoins(a: Byte, b: Byte, c: Byte)
    ensures FirstByte(a / 4, a % 4 * 16 + b / 16) == a
    ensures SecondByte(a % 4 * 16 + b / 16, b % 16 * 4 + c / 64) == b
    ensures ThirdByte(b % 16 * 4 + c / 64, c % 64) == c
  {
    hide FirstByte, SecondByte, ThirdByte;
    FirstJoins(a, b);
    SecondJoins(a, b, c);
    ThirdJoins(b, c);
  }

  lemma {:induction false} SplitJoins(bytes: seq<Byte>)
    ensures Joined(Split(bytes)) == bytes
  {
    if |bytes| >= 3 {
      hide FirstByte, SecondByte, ThirdByte;
      SplitJoins(bytes[3..]);
      TripleJoins(bytes[0], bytes[1], bytes[2]);
      assert Split(bytes)[4..] == Split(bytes[3..]);
      assert bytes == [bytes[0], bytes[1], bytes[2]] + bytes[3..];
    } else if |bytes| == 2 {
      TripleJoins(bytes[0], bytes[1], 0);
    } else if |bytes| == 1 {
      TripleJoins(bytes[0], 0, 0);
    }
  }

  lemma {:induction false} SpelledSymbolsRead(symbols: seq<Sextet>, alphabet: Alphabet, after: seq<Byte>)
    requires after == [] || after[0] == PAD
    ensures Symbols(Spell(symbols, alphabet) + after) == symbols
  {
    var text := Spell(symbols, alphabet) + after;
    if symbols == [] {
      assert text == after;
    } else {
      assert text[1..] == Spell(symbols[1..], alphabet) + after;
      SpelledSymbolsRead(symbols[1..], alphabet, after);
    }
  }

  /** Decoding undoes either encoding of any bytes, padded or not. */
  lemma DecodingUndoesEncoding(bytes: seq<Byte>, alphabet: Alphabet, padded: bool)
    ensures Joined(Symbols(Encode(bytes, alphabet, padded))) == bytes
  {
    SpelledSymbolsRead(Split(bytes), alphabet, if padded then Pads(|bytes|) else []);
    SplitJoins(bytes);
  }

  lemma {:induction false} SymbolsOf(bytes: seq<Byte>)
    ensures |Split(bytes)| == (4 * |bytes| + 2) / 3
  {
    if |bytes| >= 3 {
      SymbolsOf(bytes[3..]);
    }
  }

  /** A padded text is the unpadded one filled up to whole groups of four. */
  lemma PaddedToFours(bytes: seq<Byte>, alphabet: Alphabet)
    ensures
      var bare, text := Encode(bytes, alphabet, false), Encode(bytes, alphabet, true);
      && |bare| == (4 * |bytes| + 2) / 3 && |text| == (|bytes| + 2) / 3 * 4 && bare <= text
      && forall i :: |bare| <= i < |text| ==> text[i] == '=' as int
  {
    SymbolsOf(bytes);
  }

  /** The two alphabets, as in tables 1 and 2 of RFC 4648. */
  lemma SymbolsAreTheTables(s: Sextet, alphabet: Alphabet)
    ensures s < 26 ==> Symbol(s, alphabet) == 'A' as int + s
    ensures 26 <= s < 52 ==> Symbol(s, alphabet) == 'a' as int + (s - 26)
    ensures 52 <= s < 62 ==> Symbol(s, alphabet) == '0' as int + (s - 52)
    ensures Symbol(62, Standard) == '+' as int && Symbol(63, Standard) == '/' as int
    ensures Symbol(62, UrlSafe) == '-' as int && Symbol(63, UrlSafe) == '_' as int
  {
  }

  /** A byte stands for a symbol exactly when one of the alphabets writes the symbol so, and `=` for none. */
  lemma DecodesBothAlphabets(c: Byte, s: Sextet)
    ensures Decoded(c) == Some(s) <==> c == Symbol(s, Standard) || c == Symbol(s, UrlSafe)
    ensures PAD == '=' as int && Decoded(PAD).None?
  {
  }

  /** A byte of neither alphabet is read over wherever it stands, and what follows a pad is not read at all. */
  lemma {:induction false} OtherBytesAreIgnored(before: seq<Byte>, junk: Byte, after: seq<Byte>)
    requires Decoded(junk).None?
    ensures Symbols(before + [junk] + after) == if junk == PAD then Symbols(before) else Symbols(before + after)
  {
    var text := before + [junk] + after;
    if before == [] {
      assert text[1..] == after && before + after == after;
    } else {
      assert text[1..] == before[1..] + [junk] + after;
      assert (before + after)[1..] == before[1..] + after;
      OtherBytesAreIgnored(before[1..], junk, after);
    }
  }

  // ---- The length promised for a string --------------------------------------

  type Scalar = c: nat | c < 0x11_0000 && !(0xD800 <= c < 0xE000)

  function Utf8(text: seq<Scalar>): seq<Byte> {
    if text == [] then [] else Utf8Of(text[0]) + Utf8(text[1..])
  }

  function Utf8Of(c: Scalar): (bytes: seq<Byte>)
    ensures c < 0x80 ==> bytes == [c]
    ensures c >= 0x80 ==> forall i :: 0 <= i < |bytes| ==> bytes[i] >= 0x80
  {
    if c < 0x80 then [c]
    else if c < 0x800 then [0xC0 + c / 64, 0x80 + c % 64]
    else if c < 0x1_0000 then [0xE0 + c / 4096, 0x80 + c / 64 % 64, 0x80 + c % 64]
    else [0xF0 + c / 0x4_0000, 0x80 + c / 4096 % 64, 0x80 + c / 64 % 64, 0x80 + c % 64]
  }

  function Utf16(text: seq<Scalar>): seq<nat> {
    if text == [] then [] else Utf16Of(text[0]) + Utf16(text[1..])
  }

  function Utf16Of(c: Scalar): seq<nat> {
    if c < 0x1_0000 then [c] else [0xD800 + (c - 0x1_0000) / 0x400, 0xDC00 + (c - 0x1_0000) % 0x400]
  }

  /** How many units are left without up to two trailing pads. */
  function Unpadded(units: seq<nat>): nat {
    var n := |units|;
    var m := if n > 0 && units[n - 1] == PAD then n - 1 else n;
    if m > 1 && units[m - 1] == PAD then m - 1 else m
  }

  function ByteLength(units: seq<nat>): nat {
    Unpadded(units) * 3 / 4
  }

  lemma {:induction false} JoinedLength(symbols: seq<Sextet>)
    ensures |Joined(symbols)| == |symbols| * 3 / 4
  {
    if |symbols| >= 4 {
      JoinedLength(symbols[4..]);
    }
  }

  lemma {:induction false} HighBytesAreNoSymbols(high: seq<Byte>, rest: seq<Byte>)
    requires forall i :: 0 <= i < |high| ==> high[i] >= 0x80
    ensures Symbols(high + rest) == Symbols(rest)
  {
    if high == [] {
      assert high + rest == rest;
    } else {
      assert (high + rest)[1..] == high[1..] + rest;
      HighBytesAreNoSymbols(high[1..], rest);
    }
  }

  /** A text's symbols, one character at a time. */
  lemma SymbolsOfText(text: seq<Scalar>)
    requires text != []
    ensures Symbols(Utf8(text)) ==
      if text[0] == PAD then []
      else if text[0] < 0x80 && Decoded(text[0]).Some? then [Decoded(text[0]).value] + Symbols(Utf8(text[1..]))
      else Symbols(Utf8(text[1..]))
  {
    var rest := Utf8(text[1..]);
    if text[0] < 0x80 {
      assert ([text[0]] + rest)[1..] == rest;
    } else {
      HighBytesAreNoSymbols(Utf8Of(text[0]), rest);
    }
  }

  lemma {:induction false} NoMoreSymbolsThanUnits(text: seq<Scalar>)
    ensures |Symbols(Utf8(text))| <= |Utf16(text)|
  {
    if text != [] {
      SymbolsOfText(text);
      NoMoreSymbolsThanUnits(text[1..]);
    }
  }

  /** A trailing pad is one unit and no symbol. */
  lemma {:induction false} TrailingPad(text: seq<Scalar>)
    ensures Symbols(Utf8(text + [PAD])) == Symbols(Utf8(text))
    ensures Utf16(text + [PAD]) == Utf16(text) + [PAD as nat]
  {
    var more := text + [PAD];
    if text == [] {
      assert more[1..] == [];
      assert Utf8(more) == [PAD];
    } else {
      assert more[1..] == text[1..] + [PAD];
      SymbolsOfText(more);
      SymbolsOfText(text);
      TrailingPad(text[1..]);
    }
  }

  lemma {:induction false} LastUnit(text: seq<Scalar>)
    requires text != []
    ensures Utf16(text) != [] && (Utf16(text)[|Utf16(text)| - 1] == PAD <==> text[|text| - 1] == PAD)
  {
    if |text| > 1 {
      LastUnit(text[1..]);
    }
  }

  /** The text without the pad it ends in, and what that takes from its symbols and units. */
  lemma StripPad(text: seq<Scalar>)
    requires text != [] && text[|text| - 1] == PAD
    ensures var rest := text[..|text| - 1];
            Symbols(Utf8(text)) == Symbols(Utf8(rest)) && Utf16(text) == Utf16(rest) + [PAD as nat]
  {
    assert text == text[..|text| - 1] + [PAD];
    TrailingPad(text[..|text| - 1]);
  }

  /** What is left of a text without its counted-out pads: its symbols, and as many units as `ByteLength` counts. */
  lemma WithoutPads(text: seq<Scalar>) returns (kept: seq<Scalar>)
    ensures Unpadded(Utf16(text)) == |Utf16(kept)| && Symbols(Utf8(kept)) == Symbols(Utf8(text))
  {
    hide Symbols, Utf8, Utf16;
    if text != [] && text[|text| - 1] == PAD {
      LastUnit(text);
      StripPad(text);
      kept := text[..|text| - 1];
    } else {
      UnitsOfNothing(text);
      kept := text;
    }
    var units := Utf16(kept);
    if |units| > 1 {
      UnitsOfNothing(kept);
      if kept[|kept| - 1] == PAD {
        StripPad(kept);
        kept := kept[..|kept| - 1];
      }
    }
  }

  /** Only an empty text has no units, and only a text ending in a pad has a last unit that is one. */
  lemma UnitsOfNothing(text: seq<Scalar>)
    ensures Utf16(text) == [] <==> text == []
    ensures text != [] ==> (Utf16(text)[|Utf16(text)| - 1] == PAD <==> text[|text| - 1] == PAD)
  {
    if text != [] {
      LastUnit(text);
    }
  }

  /** The promised length is never short. */
  lemma ByteLengthIsEnough(text: seq<Scalar>)
    ensures |Joined(Symbols(Utf8(text)))| <= ByteLength(Utf16(text))
  {
    var kept := WithoutPads(text);
    NoMoreSymbolsThanUnits(kept);
    JoinedLength(Symbols(Utf8(text)));
  }

  predicate AlphabetOnly(text: seq<Scalar>) {
    forall i :: 0 <= i < |text| ==> text[i] < 0x80 && Decoded(text[i]).Some?
  }

  lemma {:induction false} AlphabetTextIsAllSymbols(text: seq<Scalar>)
    requires AlphabetOnly(text)
    ensures |Symbols(Utf8(text))| == |Utf16(text)|
  {
    if text != [] {
      assert text[0] != PAD;
      SymbolsOfText(text);
      AlphabetTextIsAllSymbols(text[1..]);
    }
  }

  lemma UnpaddedCountsPads(units: seq<nat>, pads: nat)
    requires pads <= 2 && (units == [] ==> pads < 2) && (units != [] ==> units[|units| - 1] != PAD)
    ensures
      var end := if pads == 0 then [] else if pads == 1 then [PAD as nat] else [PAD as nat] + [PAD as nat];
      Unpadded(units + end) == |units|
  {
  }

  lemma PadsAreNoSymbols(body: seq<Scalar>)
    ensures Symbols(Utf8(body + [PAD] + [PAD])) == Symbols(Utf8(body + [PAD])) == Symbols(Utf8(body))
    ensures Utf16(body + [PAD]) == Utf16(body) + [PAD as nat]
    ensures Utf16(body + [PAD] + [PAD]) == Utf16(body) + ([PAD as nat] + [PAD as nat])
  {
    TrailingPad(body);
    TrailingPad(body + [PAD]);
  }

  lemma NoPadAtTheEnd(body: seq<Scalar>)
    requires AlphabetOnly(body)
    ensures if body == [] then Utf16(body) == [] else Utf16(body) != [] && Utf16(body)[|Utf16(body)| - 1] != PAD
  {
    if body != [] {
      LastUnit(body);
      assert body[|body| - 1] != PAD;
    }
  }

  /** The pads at the end are the only ones, so `Unpadded` counts out all of them. */
  lemma UnpaddedIsTheBody(body: seq<Scalar>, pads: nat)
    requires AlphabetOnly(body) && pads <= 2 && (body == [] ==> pads < 2)
    ensures
      var text := body + seq(pads, _ => PAD as Scalar);
      Unpadded(Utf16(text)) == |Utf16(body)| && Symbols(Utf8(text)) == Symbols(Utf8(body))
  {
    hide Utf8, Utf16, Symbols, Unpadded, AlphabetOnly;
    NoPadAtTheEnd(body);
    PadsAreNoSymbols(body);
    UnpaddedCountsPads(Utf16(body), pads);
    assert Utf16(body) + [] == Utf16(body);
    PaddedText(body, pads);
  }

  lemma PaddedText(body: seq<Scalar>, pads: nat)
    requires pads <= 2
    ensures body + seq(pads, _ => PAD as Scalar) ==
      if pads == 0 then body else if pads == 1 then body + [PAD] else body + [PAD] + [PAD]
  {
  }

  /** For alphabet text followed by at most two pads it is the length. */
  lemma ByteLengthIsExact(body: seq<Scalar>, pads: nat)
    requires AlphabetOnly(body) && pads <= 2
    ensures
      var text := body + seq(pads, _ => PAD as Scalar);
      |Joined(Symbols(Utf8(text)))| == ByteLength(Utf16(text))
  {
    var text := body + seq(pads, _ => PAD as Scalar);
    JoinedLength(Symbols(Utf8(text)));
    AlphabetTextIsAllSymbols(body);
    if body == [] && pads == 2 {
      assert text == [PAD, PAD] && text[1..] == [PAD];
    } else {
      UnpaddedIsTheBody(body, pads);
    }
  }
}
