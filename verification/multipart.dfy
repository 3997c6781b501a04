/** Fields written as `multipart/form-data` and parsed back (section 5.1 of RFC 2046). */
module Multipart {
  import opened Prelude

  /** A byte is the character of its value; text is its UTF-8 bytes. */
  type Bytes = string

  const CRLF: Bytes := "\r\n"

  const OCTETS: Bytes := "application/octet-stream"

  datatype Value = Text(text: Bytes) | File(filename: Bytes, contentType: Bytes, bytes: Bytes)

  datatype Field = Field(name: Bytes, value: Value)

  // ---- Text -----------------------------------------------------------------

  predicate Continues(b: char) {
    0x80 <= b as int < 0xC0
  }

  /** The length of the well-formed character these bytes begin with, or zero. */
  function CharLength(b: Bytes): (n: nat)
    ensures n <= |b|
  {
    if b == [] then 0
    else
      var a := b[0] as int;
      var second := if |b| >= 2 && Continues(b[1]) then b[1] as int else 0;
      if a < 0x80 then 1
      else if 0xC2 <= a < 0xE0 && second > 0 then 2
      else if 0xE0 <= a < 0xF0 && second > 0 && |b| >= 3 && Continues(b[2]) &&
              (a == 0xE0 ==> second >= 0xA0) && (a == 0xED ==> second < 0xA0) then 3
      else if 0xF0 <= a < 0xF5 && second > 0 && |b| >= 4 && Continues(b[2]) && Continues(b[3]) &&
              (a == 0xF0 ==> second >= 0x90) && (a == 0xF4 ==> second < 0x90) then 4
      else 0
  }

  predicate ValidUtf8(b: Bytes)
    decreases |b|
  {
    b == [] || (CharLength(b) > 0 && ValidUtf8(b[CharLength(b)..]))
  }

  /** What a lenient conversion makes of bytes that are not text is the library's business. */
  type Repair = Bytes -> Bytes

  function Lossy(b: Bytes, repair: Repair): Bytes {
    if ValidUtf8(b) then b else repair(b)
  }

  /** The UTF-8 of a white space character of Unicode. */
  predicate IsWhite(c: Bytes) {
    match |c|
    case 1 => 9 <= c[0] as int <= 13 || c[0] == ' '
    case 2 => c[0] as int == 0xC2 && (c[1] as int == 0x85 || c[1] as int == 0xA0)
    case 3 =>
      var a, b, d := c[0] as int, c[1] as int, c[2] as int;
      || (a == 0xE1 && b == 0x9A && d == 0x80)
      || (a == 0xE2 && b == 0x80 && (0x80 <= d <= 0x8A || d == 0xA8 || d == 0xA9 || d == 0xAF))
      || (a == 0xE2 && b == 0x81 && d == 0x9F)
      || (a == 0xE3 && b == 0x80 && d == 0x80)
    case _ => false
  }

  /** The length of the white space character these bytes begin with, or zero. */
  function WhiteStart(b: Bytes): (n: nat)
    ensures n <= |b|
  {
    if |b| >= 1 && IsWhite(b[..1]) then 1
    else if |b| >= 2 && IsWhite(b[..2]) then 2
    else if |b| >= 3 && IsWhite(b[..3]) then 3
    else 0
  }

  function WhiteEnd(b: Bytes): (n: nat)
    ensures n <= |b|
  {
    if |b| >= 1 && IsWhite(b[|b| - 1..]) then 1
    else if |b| >= 2 && IsWhite(b[|b| - 2..]) then 2
    else if |b| >= 3 && IsWhite(b[|b| - 3..]) then 3
    else 0
  }

  function TrimStart(b: Bytes): Bytes
    decreases |b|
  {
    if WhiteStart(b) == 0 then b else TrimStart(b[WhiteStart(b)..])
  }

  function TrimEnd(b: Bytes): Bytes
    decreases |b|
  {
    if WhiteEnd(b) == 0 then b else TrimEnd(b[..|b| - WhiteEnd(b)])
  }

  function Trim(b: Bytes): Bytes {
    TrimEnd(TrimStart(b))
  }

  /** The text before the first `c` and the text after it. */
  function SplitOnce(b: Bytes, c: char): Option<(Bytes, Bytes)> {
    if b == [] then None
    else if b[0] == c then Some(([], b[1..]))
    else
      match SplitOnce(b[1..], c)
      case Some((before, after)) => Some(([b[0]] + before, after))
      case None => None
  }

  function Split(b: Bytes, c: char): seq<Bytes>
    decreases |b|
  {
    match SplitOnce(b, c)
    case Some((before, after)) => SplitOnceIsSmaller(b, c); [before] + Split(after, c)
    case None => [b]
  }

  lemma {:induction false} SplitOnceIsSmaller(b: Bytes, c: char)
    requires SplitOnce(b, c).Some?
    ensures b == SplitOnce(b, c).value.0 + [c] + SplitOnce(b, c).value.1
  {
    if b[0] != c {
      SplitOnceIsSmaller(b[1..], c);
    }
  }

  /** Lines end in a line feed, with or without a carriage return before it. */
  function Lines(b: Bytes): seq<Bytes>
    decreases |b|
  {
    match SplitOnce(b, '\n')
    case Some((line, after)) =>
      SplitOnceIsSmaller(b, '\n');
      [if line != [] && line[|line| - 1] == '\r' then line[..|line| - 1] else line] + Lines(after)
    case None => if b == [] then [] else [b]
  }

  // ---- Finding and splitting ------------------------------------------------

  predicate OccursAt(haystack: Bytes, needle: Bytes, at: nat) {
    at + |needle| <= |haystack| && haystack[at..at + |needle|] == needle
  }

  ghost predicate Occurs(haystack: Bytes, needle: Bytes) {
    exists at: nat :: OccursAt(haystack, needle, at)
  }

  /** The first place the needle occurs. */
  function Find(haystack: Bytes, needle: Bytes): (at: Option<nat>)
    ensures match at
            case Some(i) => OccursAt(haystack, needle, i) && forall k: nat :: k < i ==> !OccursAt(haystack, needle, k)
            case None => !Occurs(haystack, needle)
    ensures at.Some? ==> at.value + |needle| <= |haystack|
  {
    FindFrom(haystack, needle, 0)
  }

  function FindFrom(haystack: Bytes, needle: Bytes, start: nat): (at: Option<nat>)
    ensures match at
            case Some(i) =>
              && start <= i && OccursAt(haystack, needle, i)
              && forall k: nat :: start <= k < i ==> !OccursAt(haystack, needle, k)
            case None => forall k: nat :: start <= k ==> !OccursAt(haystack, needle, k)
    decreases |haystack| - start
  {
    if start + |needle| > |haystack| then None
    else if OccursAt(haystack, needle, start) then Some(start)
    else FindFrom(haystack, needle, start + 1)
  }

  method FindFirst(haystack: Bytes, needle: Bytes) returns (at: Option<nat>)
    ensures at == Find(haystack, needle)
  {
    var i := 0;
    while i + |needle| <= |haystack|
      invariant FindFrom(haystack, needle, i) == Find(haystack, needle)
      decreases |haystack| - i
    {
      if haystack[i..i + |needle|] == needle {
        return Some(i);
      }
      i := i + 1;
    }
    return None;
  }

  /** What stands between the separators, and after the last. */
  function Pieces(haystack: Bytes, sep: Bytes): seq<Bytes>
    requires sep != []
    decreases |haystack|
  {
    match Find(haystack, sep)
    case Some(at) => [haystack[..at]] + Pieces(haystack[at + |sep|..], sep)
    case None => [haystack]
  }

  /** What stands before the first separator does not count. */
  function PiecesAfterFirst(haystack: Bytes, sep: Bytes): seq<Bytes>
    requires sep != []
  {
    match Find(haystack, sep)
    case Some(first) => Pieces(haystack[first + |sep|..], sep)
    case None => []
  }

  method SplitOn(haystack: Bytes, sep: Bytes) returns (out: seq<Bytes>)
    requires sep != []
    ensures out == PiecesAfterFirst(haystack, sep)
  {
    hide OccursAt, FindFrom;
    out := [];
    var first := FindFirst(haystack, sep);
    if first.None? {
      return;
    }
    var rest := haystack[first.value + |sep|..];
    var at := FindFirst(rest, sep);
    while at.Some?
      invariant at == Find(rest, sep)
      invariant out + Pieces(rest, sep) == PiecesAfterFirst(haystack, sep)
      decreases |rest|
    {
      KeepingOne(out, rest[..at.value], Pieces(rest[at.value + |sep|..], sep));
      out := out + [rest[..at.value]];
      rest := rest[at.value + |sep|..];
      at := FindFirst(rest, sep);
    }
    out := out + [rest];
  }

  function WithoutPrefix(b: Bytes, prefix: Bytes): Bytes {
    if prefix <= b then b[|prefix|..] else b
  }

  function WithoutSuffix(b: Bytes, suffix: Bytes): Bytes {
    if |suffix| <= |b| && b[|b| - |suffix|..] == suffix then b[..|b| - |suffix|] else b
  }

  // ---- Writing --------------------------------------------------------------

  function Delimiter(boundary: Bytes): Bytes {
    "--" + boundary
  }

  const DISPOSITION: Bytes := "Content-Disposition"

  const CONTENT_TYPE: Bytes := "Content-Type"

  const FORM_DATA: Bytes := " form-data"

  /** A parameter as it is written, its value in quotes and otherwise as it is. */
  function Parameter(name: Bytes, value: Bytes): Bytes {
    " " + name + "=" + ("\"" + value + "\"")
  }

  /** The value of a part's `Content-Disposition`. */
  function Disposition(field: Field): Bytes {
    match field.value
    case Text(_) => FORM_DATA + ";" + Parameter("name", field.name)
    case File(filename, _, _) =>
      FORM_DATA + ";" + (Parameter("name", field.name) + ";" + Parameter("filename", filename))
  }

  function Head(field: Field): Bytes {
    match field.value
    case Text(_) => DISPOSITION + ":" + Disposition(field)
    case File(_, contentType, _) =>
      DISPOSITION + ":" + Disposition(field) + CRLF + (CONTENT_TYPE + ":" + (" " + contentType))
  }

  function Content(field: Field): Bytes {
    match field.value
    case Text(text) => text
    case File(_, _, bytes) => bytes
  }

  /** What stands between a field's delimiter and the next. */
  function Part(field: Field): Bytes {
    CRLF + (Head(field) + (CRLF + CRLF) + Content(field)) + CRLF
  }

  /** All that follows the first delimiter. */
  function Tail(fields: seq<Field>, delimiter: Bytes): Bytes {
    if fields == [] then "--" + CRLF else Part(fields[0]) + delimiter + Tail(fields[1..], delimiter)
  }

  method Serialize(fields: seq<Field>, boundary: Bytes) returns (body: Bytes)
    ensures body == Delimiter(boundary) + Tail(fields, Delimiter(boundary))
  {
    hide Head, Disposition;
    var delimiter := Delimiter(boundary);
    body := [];
    for i := 0 to |fields|
      invariant body + delimiter + Tail(fields[i..], delimiter) == delimiter + Tail(fields, delimiter)
    {
      assert fields[i..][1..] == fields[i + 1..];
      var field := fields[i];
      ghost var before := body;
      body := body + (delimiter + CRLF);
      body := body + (Head(field) + (CRLF + CRLF));
      body := body + Content(field);
      body := body + CRLF;
      OneMorePart(before, delimiter, Head(field), Content(field), Tail(fields[i + 1..], delimiter));
    }
    body := body + (delimiter + "--" + CRLF);
    assert fields[|fields|..] == [];
  }

  lemma OneMorePart(body: Bytes, delimiter: Bytes, head: Bytes, content: Bytes, rest: Bytes)
    ensures body + (delimiter + CRLF) + (head + (CRLF + CRLF)) + content + CRLF + delimiter + rest ==
      body + delimiter + (CRLF + (head + (CRLF + CRLF) + content) + CRLF + delimiter + rest)
  {
  }

  // ---- Reading --------------------------------------------------------------

  function Unquoted(v: Bytes): Bytes {
    if |v| >= 1 && v[0] == '"' then
      (if |v| >= 2 && v[|v| - 1] == '"' then v[1..|v| - 1] else v)
    else v
  }

  function ParameterIn(pieces: seq<Bytes>, name: Bytes): Option<Bytes> {
    if pieces == [] then None
    else
      match SplitOnce(pieces[0], '=')
      case Some((k, v)) => if Lower(Trim(k)) == name then Some(Unquoted(Trim(v))) else ParameterIn(pieces[1..], name)
      case None => ParameterIn(pieces[1..], name)
  }

  function HeaderParam(value: Bytes, name: Bytes): Option<Bytes> {
    ParameterIn(Split(value, ';'), name)
  }

  /** What the header lines of a part tell of it, the later ones over the earlier. */
  datatype Told = Told(name: Option<Bytes>, filename: Option<Bytes>, contentType: Option<Bytes>)

  function Hear(told: Told, line: Bytes): Told {
    match SplitOnce(line, ':')
    case Some((key, value)) =>
      if Lower(Trim(key)) == "content-type" then told.(contentType := Some(Trim(value)))
      else if Lower(Trim(key)) == "content-disposition" then
        told.(name := HeaderParam(value, "name"), filename := HeaderParam(value, "filename"))
      else told
    case None => told
  }

  function HearAll(told: Told, lines: seq<Bytes>): Told
    decreases |lines|
  {
    if lines == [] then told else HearAll(Hear(told, lines[0]), lines[1..])
  }

  function Trimmed(part: Bytes): Bytes {
    var open := if "--" <= part then [] else part;
    WithoutSuffix(WithoutPrefix(open, CRLF), CRLF)
  }

  function FieldFrom(told: Told, content: Bytes, repair: Repair): Option<Field> {
    match told.name
    case None => None
    case Some(name) =>
      Some(Field(name,
                 match told.filename
                 case Some(filename) =>
                   File(filename, if told.contentType.Some? then told.contentType.value else OCTETS, content)
                 case None => Text(Lossy(content, repair))))
  }

  function FieldOf(raw: Bytes, repair: Repair): Option<Field> {
    var part := Trimmed(raw);
    if part == [] then None
    else
      match Find(part, CRLF + CRLF)
      case None => None
      case Some(at) =>
        FieldFrom(HearAll(Told(None, None, None), Lines(Lossy(part[..at], repair))), part[at..][4..], repair)
  }

  function FieldsOf(parts: seq<Bytes>, repair: Repair): seq<Field> {
    if parts == [] then []
    else
      var field := FieldOf(parts[0], repair);
      (if field.Some? then [field.value] else []) + FieldsOf(parts[1..], repair)
  }

  method Parse(body: Bytes, boundary: Bytes, repair: Repair) returns (fields: seq<Field>)
    ensures fields == FieldsOf(PiecesAfterFirst(body, Delimiter(boundary)), repair)
  {
    hide FieldOf;
    var parts := SplitOn(body, Delimiter(boundary));
    fields := [];
    for i := 0 to |parts|
      invariant fields + FieldsOf(parts[i..], repair) == FieldsOf(parts, repair)
    {
      assert parts[i..][1..] == parts[i + 1..];
      var field := ParsePart(parts[i], repair);
      KeepingNone(fields, FieldsOf(parts[i + 1..], repair));
      if field.Some? {
        KeepingOne(fields, field.value, FieldsOf(parts[i + 1..], repair));
        fields := fields + [field.value];
      }
    }
  }

  method ParsePart(raw: Bytes, repair: Repair) returns (field: Option<Field>)
    ensures field == FieldOf(raw, repair)
  {
    hide Hear, Trimmed;
    var part := Trimmed(raw);
    if part == [] {
      return None;
    }
    var at := FindFirst(part, CRLF + CRLF);
    if at.None? {
      return None;
    }
    var lines := Lines(Lossy(part[..at.value], repair));
    var told := Told(None, None, None);
    for i := 0 to |lines|
      invariant HearAll(told, lines[i..]) == HearAll(Told(None, None, None), lines)
    {
      assert lines[i..][1..] == lines[i + 1..];
      told := Hear(told, lines[i]);
    }
    field := FieldFrom(told, part[at.value..][4..], repair);
  }

  // ---- What was written is cut at the delimiters ----------------------------

  /** A line ends with its line feed; a carriage return ends none. */
  predicate OneLine(text: Bytes) {
    '\n' !in text
  }

  predicate Unbroken(boundary: Bytes) {
    '\r' !in boundary && '\n' !in boundary
  }

  lemma DiffersAt(haystack: Bytes, needle: Bytes, at: nat, i: nat)
    requires i < |needle| && at + i < |haystack| && haystack[at + i] != needle[i]
    ensures !OccursAt(haystack, needle, at)
  {
    if at + |needle| <= |haystack| {
      assert haystack[at..at + |needle|][i] == haystack[at + i];
    }
  }

  /** A delimiter without a line feed cannot begin in a part and end in the delimiter that follows it. */
  lemma FoundWhereItStands(part: Bytes, delimiter: Bytes, rest: Bytes)
    requires !Occurs(part, delimiter) && part != [] && part[|part| - 1] == '\n' && '\n' !in delimiter && delimiter != []
    ensures Find(part + delimiter + rest, delimiter) == Some(|part|)
  {
    var whole := part + delimiter + rest;
    assert OccursAt(whole, delimiter, |part|);
    forall k: nat | k < |part| ensures !OccursAt(whole, delimiter, k) {
      if k + |delimiter| <= |part| {
        assert !OccursAt(part, delimiter, k);
        assert part[k..k + |delimiter|] == whole[k..k + |delimiter|];
      } else {
        assert delimiter[|part| - 1 - k] in delimiter;
        DiffersAt(whole, delimiter, k, |part| - 1 - k);
      }
    }
  }

  function Parts(fields: seq<Field>): seq<Bytes> {
    if fields == [] then [] else [Part(fields[0])] + Parts(fields[1..])
  }

  lemma {:induction false} CutAtTheDelimiters(fields: seq<Field>, delimiter: Bytes)
    requires |delimiter| >= 3 && Unbroken(delimiter)
    requires forall i :: 0 <= i < |fields| ==> !Occurs(Part(fields[i]), delimiter)
    ensures Pieces(Tail(fields, delimiter), delimiter) == Parts(fields) + ["--" + CRLF]
  {
    hide Part;
    if fields == [] {
      NotInTheEnd(delimiter);
    } else {
      PartEndsALine(fields[0]);
      var part, rest := Part(fields[0]), Tail(fields[1..], delimiter);
      FoundWhereItStands(part, delimiter, rest);
      var whole := part + delimiter + rest;
      assert whole[..|part|] == part && whole[|part| + |delimiter|..] == rest;
      CutAtTheDelimiters(fields[1..], delimiter);
    }
  }

  lemma PartEndsALine(field: Field)
    ensures Part(field) != [] && Part(field)[|Part(field)| - 1] == '\n'
  {
    hide Head, Content;
  }

  lemma NotInTheEnd(delimiter: Bytes)
    requires |delimiter| >= 3 && Unbroken(delimiter)
    ensures Find("--" + CRLF, delimiter) == None
  {
    var end := "--" + CRLF;
    forall at: nat ensures !OccursAt(end, delimiter, at) {
      if at <= 2 {
        assert delimiter[2 - at] in delimiter;
        DiffersAt(end, delimiter, at, 2 - at);
      }
    }
  }

  lemma PiecesOfABody(fields: seq<Field>, delimiter: Bytes)
    requires |delimiter| >= 3 && Unbroken(delimiter)
    requires forall i :: 0 <= i < |fields| ==> !Occurs(Part(fields[i]), delimiter)
    ensures PiecesAfterFirst(delimiter + Tail(fields, delimiter), delimiter) == Parts(fields) + ["--" + CRLF]
  {
    var body := delimiter + Tail(fields, delimiter);
    assert body[..|delimiter|] == delimiter;
    assert OccursAt(body, delimiter, 0);
    assert body[|delimiter|..] == Tail(fields, delimiter);
    CutAtTheDelimiters(fields, delimiter);
  }

  // ---- A part's head is read as it was written ------------------------------

  lemma {:induction false} SplitsAtTheFirst(before: Bytes, c: char, after: Bytes)
    requires c !in before
    ensures SplitOnce(before + [c] + after, c) == Some((before, after))
  {
    var b := before + [c] + after;
    if before == [] {
      assert b[1..] == after;
    } else {
      assert b[1..] == before[1..] + [c] + after;
      SplitsAtTheFirst(before[1..], c, after);
      assert [before[0]] + before[1..] == before;
    }
  }

  lemma {:induction false} NothingToSplit(b: Bytes, c: char)
    requires c !in b
    ensures SplitOnce(b, c) == None
  {
    if b != [] {
      NothingToSplit(b[1..], c);
    }
  }

  /** Neither end of the text is white space: it begins with a printable ASCII character and ends with one. */
  predicate Solid(b: Bytes) {
    b != [] && '!' <= b[0] <= '~' && '!' <= b[|b| - 1] <= '~'
  }

  lemma SolidStarts(b: Bytes)
    requires b != [] && '!' <= b[0] <= '~'
    ensures TrimStart(b) == b
  {
    assert !IsWhite(b[..1]);
    assert |b| >= 2 ==> !IsWhite(b[..2]);
    assert |b| >= 3 ==> !IsWhite(b[..3]);
  }

  lemma SolidEnds(b: Bytes)
    requires b != [] && '!' <= b[|b| - 1] <= '~'
    ensures TrimEnd(b) == b
  {
    assert !IsWhite(b[|b| - 1..]);
    assert |b| >= 2 ==> !IsWhite(b[|b| - 2..]);
    assert |b| >= 3 ==> !IsWhite(b[|b| - 3..]);
  }

  lemma SolidIsTrimmed(b: Bytes)
    requires Solid(b)
    ensures Trim(b) == b && Trim(" " + b) == b
  {
    SolidStarts(b);
    SolidEnds(b);
    LeadingSpaceIsTrimmed(b);
  }

  lemma LeadingSpaceIsTrimmed(b: Bytes)
    ensures Trim(" " + b) == Trim(b)
  {
    assert (" " + b)[..1] == " " && (" " + b)[1..] == b;
    assert IsWhite(" ");
  }

  lemma ParameterReads(name: Bytes, value: Bytes)
    requires Solid(name) && '=' !in name
    ensures SplitOnce(Parameter(name, value), '=') == Some((" " + name, "\"" + value + "\""))
    ensures Trim(" " + name) == name && Unquoted(Trim("\"" + value + "\"")) == value
  {
    assert '=' !in " " + name;
    SplitsAtTheFirst(" " + name, '=', "\"" + value + "\"");
    SolidIsTrimmed(name);
    SolidIsTrimmed("\"" + value + "\"");
    assert ("\"" + value + "\"")[1..|value| + 1] == value;
  }

  lemma SplitsOffOne(piece: Bytes, c: char, rest: Bytes)
    requires c !in piece
    ensures Split(piece + [c] + rest, c) == [piece] + Split(rest, c)
  {
    SplitsAtTheFirst(piece, c, rest);
  }

  lemma LastPiece(piece: Bytes, c: char)
    requires c !in piece
    ensures Split(piece, c) == [piece]
  {
    NothingToSplit(piece, c);
  }

  /** Names and file names that come back; a carriage return is no harm. */
  predicate Plain(text: Bytes) {
    OneLine(text) && ';' !in text
  }

  lemma NamesOfParameters()
    ensures ParameterName("name") && ParameterName("filename") && "name" != "filename"
    ensures ';' !in "name" && ';' !in "filename" && '=' !in FORM_DATA && ';' !in FORM_DATA
  {
  }

  lemma ParameterHasNoSemicolon(name: Bytes, value: Bytes)
    requires ';' !in name && ';' !in value
    ensures ';' !in Parameter(name, value)
  {
  }

  lemma PiecesOfDisposition(field: Field)
    requires Plain(field.name) && (field.value.File? ==> Plain(field.value.filename))
    ensures Split(Disposition(field), ';') ==
      match field.value
      case Text(_) => [FORM_DATA, Parameter("name", field.name)]
      case File(filename, _, _) => [FORM_DATA, Parameter("name", field.name), Parameter("filename", filename)]
  {
    NamesOfParameters();
    var named := Parameter("name", field.name);
    ParameterHasNoSemicolon("name", field.name);
    match field.value
    case Text(_) =>
      hide Parameter;
      SplitsOffOne(FORM_DATA, ';', named);
      LastPiece(named, ';');
    case File(filename, _, _) =>
      var file := Parameter("filename", filename);
      ParameterHasNoSemicolon("filename", filename);
      hide Parameter;
      SplitsOffOne(FORM_DATA, ';', named + ";" + file);
      SplitsOffOne(named, ';', file);
      LastPiece(file, ';');
  }

  lemma ParameterSkipped(piece: Bytes, rest: seq<Bytes>, name: Bytes)
    requires SplitOnce(piece, '=').Some? ==> Lower(Trim(SplitOnce(piece, '=').value.0)) != name
    ensures ParameterIn([piece] + rest, name) == ParameterIn(rest, name)
  {
    assert ([piece] + rest)[1..] == rest;
  }

  lemma ParameterFound(name: Bytes, value: Bytes, rest: seq<Bytes>, sought: Bytes)
    requires Solid(name) && '=' !in name && Lower(name) == name
    ensures ParameterIn([Parameter(name, value)] + rest, sought) ==
      if name == sought then Some(value) else ParameterIn(rest, sought)
  {
    ParameterReads(name, value);
    hide Parameter, Trim, Unquoted, SplitOnce;
    assert ([Parameter(name, value)] + rest)[1..] == rest;
  }

  predicate ParameterName(name: Bytes) {
    Solid(name) && '=' !in name && Lower(name) == name
  }

  /** Parameters after a word that is none. */
  lemma TwoParameters(form: Bytes, a: Bytes, x: Bytes, b: Bytes, y: Bytes)
    requires '=' !in form && ParameterName(a) && ParameterName(b) && a != b
    ensures
      var one, two := [form, Parameter(a, x)], [form, Parameter(a, x), Parameter(b, y)];
      && ParameterIn(one, a) == Some(x) && ParameterIn(one, b) == None
      && ParameterIn(two, a) == Some(x) && ParameterIn(two, b) == Some(y)
  {
    NothingToSplit(form, '=');
    var p, q := Parameter(a, x), Parameter(b, y);
    hide Parameter, Trim, Unquoted, SplitOnce, Solid, Lower;
    assert [form, p] == [form] + ([p] + []) && [form, p, q] == [form] + ([p] + ([q] + []));
    ParameterFound(a, x, [], a);
    ParameterFound(a, x, [], b);
    ParameterFound(a, x, [q] + [], a);
    ParameterFound(a, x, [q] + [], b);
    ParameterFound(b, y, [], b);
    ParameterSkipped(form, [p] + [], a);
    ParameterSkipped(form, [p] + [], b);
    ParameterSkipped(form, [p] + ([q] + []), a);
    ParameterSkipped(form, [p] + ([q] + []), b);
  }

  lemma DispositionReads(field: Field)
    requires Plain(field.name) && (field.value.File? ==> Plain(field.value.filename))
    ensures HeaderParam(Disposition(field), "name") == Some(field.name)
    ensures HeaderParam(Disposition(field), "filename") ==
      if field.value.File? then Some(field.value.filename) else None
  {
    PiecesOfDisposition(field);
    NamesOfParameters();
    TwoParameters(FORM_DATA, "name", field.name, "filename", if field.value.File? then field.value.filename else []);
    hide Parameter, Disposition, Split, ParameterIn;
  }

  // ---- The lines of a head --------------------------------------------------

  lemma LineBeforeAnother(line: Bytes, rest: Bytes)
    requires OneLine(line)
    ensures Lines(line + CRLF + rest) == [line] + Lines(rest)
  {
    var ended := line + "\r";
    assert line + CRLF + rest == ended + ['\n'] + rest;
    SplitsAtTheFirst(ended, '\n', rest);
    assert ended[..|ended| - 1] == line;
  }

  lemma LastLine(line: Bytes)
    requires OneLine(line) && line != []
    ensures Lines(line) == [line]
  {
    NothingToSplit(line, '\n');
  }

  lemma KeysOfHeaders()
    ensures Solid(DISPOSITION) && ':' !in DISPOSITION && Lower(DISPOSITION) == "content-disposition" &&
      OneLine(DISPOSITION)
    ensures Solid(CONTENT_TYPE) && ':' !in CONTENT_TYPE && Lower(CONTENT_TYPE) == "content-type" &&
      OneLine(CONTENT_TYPE)
    ensures "content-type" != "content-disposition"
  {
    assert |"content-type"| != |"content-disposition"|;
  }

  lemma HeaderReads(key: Bytes, value: Bytes)
    requires Solid(key) && ':' !in key
    ensures SplitOnce(key + ":" + value, ':') == Some((key, value)) && Trim(key) == key
  {
    SplitsAtTheFirst(key, ':', value);
    SolidIsTrimmed(key);
  }

  lemma HearingDisposition(told: Told, value: Bytes)
    ensures Hear(told, DISPOSITION + ":" + value) ==
      told.(name := HeaderParam(value, "name"), filename := HeaderParam(value, "filename"))
  {
    KeysOfHeaders();
    HeaderReads(DISPOSITION, value);
    hide HeaderParam, Lower;
  }

  lemma HearingType(told: Told, contentType: Bytes)
    requires Trim(contentType) == contentType
    ensures Hear(told, CONTENT_TYPE + ":" + (" " + contentType)) == told.(contentType := Some(contentType))
  {
    KeysOfHeaders();
    HeaderReads(CONTENT_TYPE, " " + contentType);
    LeadingSpaceIsTrimmed(contentType);
    hide HeaderParam, Lower, Trim;
  }

  /** What is text in a field is text. */
  predicate IsText(field: Field) {
    && ValidUtf8(field.name)
    && match field.value
       case Text(text) => ValidUtf8(text)
       case File(filename, contentType, _) => ValidUtf8(filename) && ValidUtf8(contentType)
  }

  /** Names and file names are plain, types are trimmed lines. */
  predicate Tame(field: Field) {
    Plain(field.name) &&
    (field.value.File? ==>
       Plain(field.value.filename) && OneLine(field.value.contentType) &&
       Trim(field.value.contentType) == field.value.contentType)
  }

  predicate Sayable(field: Field) {
    IsText(field) && Tame(field)
  }

  lemma LinesJoin(a: Bytes, b: Bytes)
    requires OneLine(a) && OneLine(b)
    ensures OneLine(a + b)
  {
  }

  lemma ParameterIsOneLine(name: Bytes, value: Bytes)
    requires OneLine(name) && OneLine(value)
    ensures OneLine(Parameter(name, value))
  {
  }

  lemma DispositionIsOneLine(field: Field)
    requires Sayable(field)
    ensures OneLine(DISPOSITION + ":" + Disposition(field))
  {
    ParameterIsOneLine("name", field.name);
    var named := Parameter("name", field.name);
    assert OneLine(FORM_DATA + ";") && OneLine(DISPOSITION + ":") && OneLine(";");
    if field.value.File? {
      ParameterIsOneLine("filename", field.value.filename);
      var file := Parameter("filename", field.value.filename);
      hide OneLine, Trim, ValidUtf8, Parameter;
      LinesJoin(named, ";");
      LinesJoin(named + ";", file);
      LinesJoin(FORM_DATA + ";", named + ";" + file);
    } else {
      hide OneLine, Trim, ValidUtf8, Parameter;
      LinesJoin(FORM_DATA + ";", named);
    }
    LinesJoin(DISPOSITION + ":", Disposition(field));
  }

  lemma TypeIsOneLine(contentType: Bytes)
    requires OneLine(contentType)
    ensures OneLine(CONTENT_TYPE + ":" + (" " + contentType))
  {
  }

  lemma HearingOne(told: Told, line: Bytes)
    ensures HearAll(told, [line]) == Hear(told, line)
  {
    hide Hear;
    assert [line][1..] == [];
  }

  lemma HearingTwo(told: Told, first: Bytes, second: Bytes)
    ensures HearAll(told, [first] + [second]) == Hear(Hear(told, first), second)
  {
    hide Hear;
    assert ([first] + [second])[1..] == [second];
    HearingOne(Hear(told, first), second);
  }

  function ToldBy(field: Field): Told {
    match field.value
    case Text(_) => Told(Some(field.name), None, None)
    case File(filename, contentType, _) => Told(Some(field.name), Some(filename), Some(contentType))
  }

  lemma HeadReads(field: Field)
    requires Sayable(field)
    ensures HearAll(Told(None, None, None), Lines(Head(field))) == ToldBy(field)
  {
    var first := DISPOSITION + ":" + Disposition(field);
    DispositionIsOneLine(field);
    DispositionReads(field);
    HearingDisposition(Told(None, None, None), Disposition(field));
    hide Disposition, Hear, HearAll, Trim, ValidUtf8, HeaderParam, Lines, OneLine;
    match field.value
    case Text(_) =>
      LastLine(first);
      HearingOne(Told(None, None, None), first);
    case File(filename, contentType, _) =>
      var second := CONTENT_TYPE + ":" + (" " + contentType);
      TypeIsOneLine(contentType);
      LineBeforeAnother(first, second);
      LastLine(second);
      HearingType(Told(Some(field.name), Some(filename), None), contentType);
      HearingTwo(Told(None, None, None), first, second);
  }

  // ---- A head is text -------------------------------------------------------

  lemma {:induction false} Utf8Joins(a: Bytes, b: Bytes)
    requires ValidUtf8(a) && ValidUtf8(b)
    ensures ValidUtf8(a + b)
    decreases |a|
  {
    if a == [] {
      assert a + b == b;
    } else {
      var n := CharLength(a);
      assert (a + b)[n..] == a[n..] + b;
      Utf8Joins(a[n..], b);
    }
  }

  lemma {:induction false} AsciiIsUtf8(a: Bytes)
    requires forall i :: 0 <= i < |a| ==> a[i] as int < 0x80
    ensures ValidUtf8(a)
    decreases |a|
  {
    if a != [] {
      AsciiIsUtf8(a[1..]);
    }
  }

  /** The words a head is made of. */
  lemma WordsAreUtf8()
    ensures ValidUtf8(FORM_DATA + ";") && ValidUtf8(DISPOSITION + ":") && ValidUtf8(CONTENT_TYPE + ":")
    ensures ValidUtf8(";") && ValidUtf8(" ") && ValidUtf8("\"") && ValidUtf8(CRLF)
  {
    hide ValidUtf8;
    AsciiIsUtf8(FORM_DATA);
    AsciiIsUtf8(DISPOSITION);
    AsciiIsUtf8(CONTENT_TYPE);
    AsciiIsUtf8(";");
    AsciiIsUtf8(":");
    AsciiIsUtf8(" ");
    AsciiIsUtf8("\"");
    AsciiIsUtf8(CRLF);
    Utf8Joins(FORM_DATA, ";");
    Utf8Joins(DISPOSITION, ":");
    Utf8Joins(CONTENT_TYPE, ":");
  }

  lemma ParameterIsUtf8(name: Bytes, value: Bytes)
    requires ValidUtf8(value) && forall i :: 0 <= i < |name| ==> name[i] as int < 0x80
    ensures ValidUtf8(Parameter(name, value))
  {
    AsciiIsUtf8(" " + name + "=");
    WordsAreUtf8();
    hide ValidUtf8;
    Utf8Joins("\"", value);
    Utf8Joins("\"" + value, "\"");
    Utf8Joins(" " + name + "=", "\"" + value + "\"");
  }

  lemma DispositionIsUtf8(field: Field)
    requires Sayable(field)
    ensures ValidUtf8(DISPOSITION + ":" + Disposition(field))
  {
    WordsAreUtf8();
    ParameterIsUtf8("name", field.name);
    var named := Parameter("name", field.name);
    if field.value.Text? {
      hide ValidUtf8, Parameter, Trim;
      Utf8Joins(FORM_DATA + ";", named);
    } else {
      ParameterIsUtf8("filename", field.value.filename);
      hide ValidUtf8, Parameter, Trim;
      var file := Parameter("filename", field.value.filename);
      Utf8Joins(named, ";");
      Utf8Joins(named + ";", file);
      Utf8Joins(FORM_DATA + ";", named + ";" + file);
    }
    hide ValidUtf8, Parameter, Trim;
    Utf8Joins(DISPOSITION + ":", Disposition(field));
  }

  lemma TypeIsUtf8(contentType: Bytes)
    requires ValidUtf8(contentType)
    ensures ValidUtf8(CONTENT_TYPE + ":" + (" " + contentType)) && ValidUtf8(CRLF)
  {
    WordsAreUtf8();
    hide ValidUtf8;
    Utf8Joins(" ", contentType);
    Utf8Joins(CONTENT_TYPE + ":", " " + contentType);
  }

  lemma HeadIsUtf8(field: Field)
    requires Sayable(field)
    ensures ValidUtf8(Head(field))
  {
    DispositionIsUtf8(field);
    hide ValidUtf8, Disposition, Trim;
    if field.value.File? {
      var first := DISPOSITION + ":" + Disposition(field);
      TypeIsUtf8(field.value.contentType);
      Utf8Joins(first, CRLF);
      Utf8Joins(first + CRLF, CONTENT_TYPE + ":" + (" " + field.value.contentType));
    }
  }

  // ---- The empty line ends the head -----------------------------------------

  lemma HeadHasNoEmptyLine(first: Bytes, second: Bytes, content: Bytes)
    requires OneLine(first) && OneLine(second) && |second| >= 2
    ensures Find(first + CRLF + second + (CRLF + CRLF) + content, CRLF + CRLF) == Some(|first + CRLF + second|)
  {
    var head, mark := first + CRLF + second, CRLF + CRLF;
    var whole := head + mark + content;
    assert whole[|head|..|head| + 4] == mark;
    assert OccursAt(whole, mark, |head|);
    forall k: nat | k < |head| ensures !OccursAt(whole, mark, k) {
      if k < |first| {
        assert whole[k + 1] == '\r' || (whole[k + 1] == first[k + 1] && first[k + 1] in first);
        DiffersAt(whole, mark, k, 1);
      } else if k == |first| {
        assert whole[k + 3] == second[1] && second[1] in second;
        DiffersAt(whole, mark, k, 3);
      } else if k == |first| + 1 {
        DiffersAt(whole, mark, k, 0);
      } else {
        var i := k - |first| - 1;
        assert whole[k + 1] == '\r' || (whole[k + 1] == second[i] && second[i] in second);
        DiffersAt(whole, mark, k, 1);
      }
    }
  }

  lemma OneLineHasNoEmptyLine(line: Bytes, content: Bytes)
    requires OneLine(line)
    ensures Find(line + (CRLF + CRLF) + content, CRLF + CRLF) == Some(|line|)
  {
    var mark := CRLF + CRLF;
    var whole := line + mark + content;
    assert whole[|line|..|line| + 4] == mark;
    assert OccursAt(whole, mark, |line|);
    forall k: nat | k < |line| ensures !OccursAt(whole, mark, k) {
      assert whole[k + 1] == '\r' || (whole[k + 1] == line[k + 1] && line[k + 1] in line);
      DiffersAt(whole, mark, k, 1);
    }
  }

  lemma HeadEndsAtTheEmptyLine(field: Field, content: Bytes)
    requires Sayable(field)
    ensures Find(Head(field) + (CRLF + CRLF) + content, CRLF + CRLF) == Some(|Head(field)|)
  {
    var first := DISPOSITION + ":" + Disposition(field);
    DispositionIsOneLine(field);
    hide Disposition, Trim, ValidUtf8;
    if field.value.Text? {
      OneLineHasNoEmptyLine(first, content);
    } else {
      var second := CONTENT_TYPE + ":" + (" " + field.value.contentType);
      TypeIsOneLine(field.value.contentType);
      HeadHasNoEmptyLine(first, second, content);
    }
  }

  // ---- There and back -------------------------------------------------------

  lemma PartTrims(field: Field)
    ensures Trimmed(Part(field)) == Head(field) + (CRLF + CRLF) + Content(field)
  {
    hide Head, Content;
    var inner := Head(field) + (CRLF + CRLF) + Content(field);
    var part := Part(field);
    assert part[0] == '\r' && part[..2] == CRLF;
    assert part[2..] == inner + CRLF;
    assert (inner + CRLF)[|inner|..] == CRLF && (inner + CRLF)[..|inner|] == inner;
  }

  lemma CutPartReads(raw: Bytes, head: Bytes, content: Bytes, repair: Repair)
    requires Trimmed(raw) == head + (CRLF + CRLF) + content && ValidUtf8(head)
    requires Find(head + (CRLF + CRLF) + content, CRLF + CRLF) == Some(|head|)
    ensures FieldOf(raw, repair) == FieldFrom(HearAll(Told(None, None, None), Lines(head)), content, repair)
  {
    hide Trimmed, HearAll, Lines, OccursAt, FindFrom;
    var inner := head + (CRLF + CRLF) + content;
    assert inner[..|head|] == head && inner[|head|..][4..] == content && inner != [];
  }

  lemma FieldComesBack(field: Field, repair: Repair)
    requires Sayable(field)
    ensures FieldFrom(ToldBy(field), Content(field), repair) == Some(field)
  {
    hide Trim, Plain, ValidUtf8;
  }

  lemma PartReads(field: Field, repair: Repair)
    requires Sayable(field)
    ensures FieldOf(Part(field), repair) == Some(field)
  {
    hide *;
    PartTrims(field);
    HeadEndsAtTheEmptyLine(field, Content(field));
    HeadIsUtf8(field);
    HeadReads(field);
    CutPartReads(Part(field), Head(field), Content(field), repair);
    FieldComesBack(field, repair);
  }

  lemma ClosingReadsAsNothing(repair: Repair)
    ensures FieldOf("--" + CRLF, repair) == None
  {
    assert "--" <= "--" + CRLF;
  }

  lemma {:induction false} PartsRead(fields: seq<Field>, repair: Repair)
    requires forall i :: 0 <= i < |fields| ==> Sayable(fields[i])
    ensures FieldsOf(Parts(fields) + ["--" + CRLF], repair) == fields
  {
    hide Sayable, FieldOf, Part;
    var parts := Parts(fields) + ["--" + CRLF];
    if fields == [] {
      ClosingReadsAsNothing(repair);
      assert parts[1..] == [];
    } else {
      PartReads(fields[0], repair);
      PartsRead(fields[1..], repair);
      assert parts[1..] == Parts(fields[1..]) + ["--" + CRLF];
    }
  }

  /**
   * Parsing what was written gives the fields back, whatever bytes the files hold, as long as the delimiter occurs in
   * none of the parts.
   */
  lemma ParsingUndoesSerializing(fields: seq<Field>, boundary: Bytes, repair: Repair)
    requires boundary != [] && Unbroken(boundary)
    requires forall i :: 0 <= i < |fields| ==> Sayable(fields[i]) && !Occurs(Part(fields[i]), Delimiter(boundary))
    ensures
      var delimiter := Delimiter(boundary);
      FieldsOf(PiecesAfterFirst(delimiter + Tail(fields, delimiter), delimiter), repair) == fields
  {
    hide Part, Sayable, FieldsOf, PiecesAfterFirst, Tail;
    PiecesOfABody(fields, Delimiter(boundary));
    PartsRead(fields, repair);
  }

  // ---- Only tame fields are ever parsed -------------------------------------

  /** Every byte of the one is a byte of the other. */
  predicate Within(a: Bytes, b: Bytes) {
    forall c :: c in a ==> c in b
  }

  lemma {:induction false} SplitOnceIsWithin(b: Bytes, c: char)
    ensures
      match SplitOnce(b, c)
      case Some((before, after)) => c !in before && Within(before, b) && Within(after, b)
      case None => c !in b
  {
    if b != [] && b[0] != c {
      SplitOnceIsWithin(b[1..], c);
    }
  }

  lemma {:induction false} SplitIsWithin(b: Bytes, c: char)
    ensures forall i :: 0 <= i < |Split(b, c)| ==> c !in Split(b, c)[i] && Within(Split(b, c)[i], b)
    decreases |b|
  {
    hide SplitOnce;
    SplitOnceIsWithin(b, c);
    if SplitOnce(b, c).Some? {
      SplitOnceIsSmaller(b, c);
      SplitIsWithin(SplitOnce(b, c).value.1, c);
    }
  }

  lemma {:induction false} LinesAreLines(b: Bytes)
    ensures forall i :: 0 <= i < |Lines(b)| ==> OneLine(Lines(b)[i])
    decreases |b|
  {
    hide SplitOnce;
    SplitOnceIsWithin(b, '\n');
    if SplitOnce(b, '\n').Some? {
      SplitOnceIsSmaller(b, '\n');
      LinesAreLines(SplitOnce(b, '\n').value.1);
    }
  }

  lemma {:induction false} StartIsTrimmed(b: Bytes)
    ensures WhiteStart(TrimStart(b)) == 0 && Within(TrimStart(b), b)
    decreases |b|
  {
    hide WhiteStart;
    if WhiteStart(b) > 0 {
      StartIsTrimmed(b[WhiteStart(b)..]);
    }
  }

  lemma {:induction false} EndIsTrimmed(b: Bytes)
    ensures TrimEnd(b) <= b && WhiteEnd(TrimEnd(b)) == 0
    decreases |b|
  {
    hide WhiteEnd;
    if WhiteEnd(b) > 0 {
      EndIsTrimmed(b[..|b| - WhiteEnd(b)]);
    }
  }

  lemma PrefixKeepsItsStart(a: Bytes, b: Bytes)
    requires WhiteStart(b) == 0 && a <= b
    ensures WhiteStart(a) == 0
  {
    hide IsWhite;
    assert |a| >= 1 ==> a[..1] == b[..1];
    assert |a| >= 2 ==> a[..2] == b[..2];
    assert |a| >= 3 ==> a[..3] == b[..3];
  }

  /** Trimming twice is trimming once. */
  lemma TrimmedIsTrimmed(b: Bytes)
    ensures Trim(Trim(b)) == Trim(b) && Within(Trim(b), b)
  {
    var begun := TrimStart(b);
    StartIsTrimmed(b);
    EndIsTrimmed(begun);
    PrefixKeepsItsStart(TrimEnd(begun), begun);
    hide WhiteStart, WhiteEnd;
    assert forall c :: c in TrimEnd(begun) ==> c in begun;
  }

  lemma {:induction false} ParameterIsWithin(pieces: seq<Bytes>, name: Bytes, value: Bytes)
    requires forall i :: 0 <= i < |pieces| ==> ';' !in pieces[i] && Within(pieces[i], value)
    ensures
      var found := ParameterIn(pieces, name);
      found.Some? ==> ';' !in found.value && Within(found.value, value)
  {
    hide Trim, Lower;
    if pieces != [] {
      ParameterIsWithin(pieces[1..], name, value);
      SplitOnceIsWithin(pieces[0], '=');
      if SplitOnce(pieces[0], '=').Some? {
        TrimmedIsTrimmed(SplitOnce(pieces[0], '=').value.1);
      }
    }
  }

  lemma ParameterIsPlain(value: Bytes, name: Bytes)
    requires OneLine(value)
    ensures HeaderParam(value, name).Some? ==> Plain(HeaderParam(value, name).value)
  {
    SplitIsWithin(value, ';');
    ParameterIsWithin(Split(value, ';'), name, value);
    hide Split, ParameterIn;
  }

  predicate TellsTame(told: Told) {
    && (told.name.Some? ==> Plain(told.name.value))
    && (told.filename.Some? ==> Plain(told.filename.value))
    && (told.contentType.Some? ==>
      OneLine(told.contentType.value) && Trim(told.contentType.value) == told.contentType.value)
  }

  lemma HearingStaysTame(told: Told, line: Bytes)
    requires TellsTame(told) && OneLine(line)
    ensures TellsTame(Hear(told, line))
  {
    hide SplitOnce, Trim, Lower, HeaderParam, Plain, OneLine;
    if SplitOnce(line, ':').Some? {
      var value := SplitOnce(line, ':').value.1;
      HeaderValueIsOneLine(line);
      TrimmedLineIsOne(value);
      ParameterIsPlain(value, "name");
      ParameterIsPlain(value, "filename");
    }
  }

  lemma HeaderValueIsOneLine(line: Bytes)
    requires OneLine(line) && SplitOnce(line, ':').Some?
    ensures OneLine(SplitOnce(line, ':').value.1)
  {
    SplitOnceIsWithin(line, ':');
  }

  lemma TrimmedLineIsOne(value: Bytes)
    requires OneLine(value)
    ensures OneLine(Trim(value)) && Trim(Trim(value)) == Trim(value)
  {
    hide Trim;
    TrimmedIsTrimmed(value);
  }

  lemma {:induction false} HearingAllStaysTame(told: Told, lines: seq<Bytes>)
    requires TellsTame(told) && forall i :: 0 <= i < |lines| ==> OneLine(lines[i])
    ensures TellsTame(HearAll(told, lines))
    decreases |lines|
  {
    hide TellsTame, Hear, OneLine;
    if lines != [] {
      HearingStaysTame(told, lines[0]);
      HearingAllStaysTame(Hear(told, lines[0]), lines[1..]);
    }
  }

  lemma OctetsAreTame()
    ensures OneLine(OCTETS) && Trim(OCTETS) == OCTETS
  {
    hide Trim;
    SolidIsTrimmed(OCTETS);
  }

  lemma ParsedFieldIsTame(raw: Bytes, repair: Repair)
    ensures FieldOf(raw, repair).Some? ==> Tame(FieldOf(raw, repair).value)
  {
    var part := Trimmed(raw);
    hide Trimmed, HearAll, Lines, Trim, Plain, OneLine;
    OctetsAreTame();
    if part != [] && Find(part, CRLF + CRLF).Some? {
      var lines := Lines(Lossy(part[..Find(part, CRLF + CRLF).value], repair));
      LinesAreLines(Lossy(part[..Find(part, CRLF + CRLF).value], repair));
      HearingAllStaysTame(Told(None, None, None), lines);
    }
  }

  /** Whatever body is parsed, every field found in it is tame. */
  lemma {:induction false} OnlyTameFieldsAreParsed(parts: seq<Bytes>, repair: Repair)
    ensures forall i :: 0 <= i < |FieldsOf(parts, repair)| ==> Tame(FieldsOf(parts, repair)[i])
  {
    hide FieldOf, Tame;
    if parts != [] {
      ParsedFieldIsTame(parts[0], repair);
      OnlyTameFieldsAreParsed(parts[1..], repair);
    }
  }

  /** So what was written comes back exactly when every field of it is tame. */
  lemma ComesBackIffTame(fields: seq<Field>, boundary: Bytes, repair: Repair)
    requires boundary != [] && Unbroken(boundary)
    requires forall i :: 0 <= i < |fields| ==> IsText(fields[i]) && !Occurs(Part(fields[i]), Delimiter(boundary))
    ensures
      var delimiter := Delimiter(boundary);
      FieldsOf(PiecesAfterFirst(delimiter + Tail(fields, delimiter), delimiter), repair) == fields <==>
      forall i :: 0 <= i < |fields| ==> Tame(fields[i])
  {
    hide Part, IsText, Tame, FieldsOf, PiecesAfterFirst, Tail, Occurs;
    var delimiter := Delimiter(boundary);
    OnlyTameFieldsAreParsed(PiecesAfterFirst(delimiter + Tail(fields, delimiter), delimiter), repair);
    if forall i :: 0 <= i < |fields| ==> Tame(fields[i]) {
      ParsingUndoesSerializing(fields, boundary, repair);
    }
  }

  /** A semicolon or a line feed in a name, which the serializer writes as it is, does not come back. */
  lemma BrokenNamesDoNotComeBack(text: Bytes, parts: seq<Bytes>, repair: Repair)
    ensures FieldsOf(parts, repair) != [Field("a;b", Text(text))] &&
      FieldsOf(parts, repair) != [Field("a\nb", Text(text))]
  {
    OnlyTameFieldsAreParsed(parts, repair);
    assert "a;b"[1] == ';' && "a\nb"[1] == '\n';
    assert !Plain("a;b") && !Plain("a\nb");
    hide FieldsOf, Plain;
    var fields := FieldsOf(parts, repair);
    assert fields != [] ==> Plain(fields[0].name);
  }

  // ---- On the wire ------------------------------------------------------------

  lemma TextIsNamed(name: Bytes)
    ensures DISPOSITION + ":" + (FORM_DATA + ";" + Parameter("name", name)) ==
      "Content-Disposition: form-data; name=\"" + name + "\""
  {
    assert DISPOSITION + ":" + FORM_DATA == "Content-Disposition: form-data";
    assert ";" + " " + "name" + "=" + "\"" == "; name=\"";
    assert "Content-Disposition: form-data" + "; name=\"" == "Content-Disposition: form-data; name=\"";
  }

  lemma FileIsNamed(named: Bytes, filename: Bytes)
    ensures DISPOSITION + ":" + (FORM_DATA + ";" + (named + "\"" + ";" + Parameter("filename", filename))) ==
      DISPOSITION + ":" + (FORM_DATA + ";" + named) + "\"; filename=\"" + filename + "\""
  {
    assert "\"" + ";" + " " + "filename" + "=" + "\"" == "\"; filename=\"";
  }

  lemma DispositionIsWritten(field: Field)
    ensures DISPOSITION + ":" + Disposition(field) ==
      match field.value
      case Text(_) => "Content-Disposition: form-data; name=\"" + field.name + "\""
      case File(filename, _, _) =>
        "Content-Disposition: form-data; name=\"" + field.name + "\"; filename=\"" + filename + "\""
  {
    TextIsNamed(field.name);
    var start := " " + "name" + "=" + ("\"" + field.name);
    assert Parameter("name", field.name) == start + "\"";
    if field.value.File? {
      FileIsNamed(start, field.value.filename);
      hide Parameter;
      Requoted(DISPOSITION + ":", FORM_DATA + ";", start, "Content-Disposition: form-data; name=\"" + field.name);
    }
  }

  lemma Requoted(a: Bytes, b: Bytes, c: Bytes, whole: Bytes)
    requires a + (b + (c + "\"")) == whole + "\""
    ensures a + (b + c) == whole
  {
    assert a + (b + (c + "\"")) == a + (b + c) + "\"";
    assert (a + (b + c) + "\"")[..|a + (b + c)|] == (whole + "\"")[..|whole|];
  }

  /** A field is written so, to the byte. */
  lemma PartsAreWritten(field: Field)
    ensures Part(field) ==
      match field.value
      case Text(text) =>
        "\r\n" + ("Content-Disposition: form-data; name=\"" + field.name + "\"") + "\r\n\r\n" + text + "\r\n"
      case File(filename, contentType, bytes) =>
        "\r\n" + ("Content-Disposition: form-data; name=\"" + field.name + "\"; filename=\"" + filename + "\"") +
        ("\r\nContent-Type: " + contentType) + "\r\n\r\n" + bytes + "\r\n"
  {
    DispositionIsWritten(field);
    if field.value.File? {
      TypeIsWritten(DISPOSITION + ":" + Disposition(field), field.value.contentType);
    }
    EmptyLine();
    hide Disposition;
    Enclosed(CRLF, Head(field), CRLF + CRLF, Content(field));
  }

  lemma TypeIsWritten(disposition: Bytes, contentType: Bytes)
    ensures CRLF + (disposition + CRLF + (CONTENT_TYPE + ":" + (" " + contentType))) ==
      CRLF + disposition + ("\r\nContent-Type: " + contentType)
  {
    assert CRLF + CONTENT_TYPE + ":" + " " == "\r\nContent-Type: ";
  }

  /** Quotes around a parameter are no part of it, and any other quote is. */
  lemma UnquotedIs(v: Bytes)
    ensures forall inner :: v == "\"" + inner + "\"" ==> Unquoted(v) == inner
    ensures (forall inner :: v != "\"" + inner + "\"") ==> Unquoted(v) == v
  {
    if |v| >= 2 && v[0] == '"' && v[|v| - 1] == '"' {
      assert v == "\"" + v[1..|v| - 1] + "\"";
    }
    forall inner | v == "\"" + inner + "\"" ensures Unquoted(v) == inner {
      assert v[1..|v| - 1] == inner;
    }
  }

  /** A parameter written without quotes reads as it is. */
  lemma BareParameterReads(value: Bytes)
    requires Solid(value) && ';' !in value && value[0] != '"'
    ensures HeaderParam(" form-data; name=" + value, "name") == Some(value)
  {
    var piece := " name=" + value;
    NamesOfParameters();
    assert " form-data; name=" == FORM_DATA + ";" + " name=";
    assert " form-data; name=" + value == FORM_DATA + [';'] + piece;
    assert ';' !in piece;
    SplitsOffOne(FORM_DATA, ';', piece);
    LastPiece(piece, ';');
    assert piece == " name" + "=" + value && '=' !in " name" && " name" == " " + "name";
    SplitsAtTheFirst(" name", '=', value);
    SolidIsTrimmed("name");
    SolidIsTrimmed(value);
    UnquotedIs(value);
    NothingToSplit(FORM_DATA, '=');
    hide Trim, Unquoted, SplitOnce, Solid, Split, Lower;
    ParameterSkipped(FORM_DATA, [piece], "name");
  }

  /** A file sent without a type reads as one of no particular type. */
  lemma UntypedFileReads(name: Bytes, filename: Bytes, bytes: Bytes, repair: Repair)
    requires Plain(name) && Plain(filename) && ValidUtf8(name) && ValidUtf8(filename)
    ensures
      var head := "Content-Disposition: form-data; name=\"" + name + "\"; filename=\"" + filename + "\"";
      FieldOf("\r\n" + head + "\r\n\r\n" + bytes + "\r\n", repair) ==
      Some(Field(name, File(filename, "application/octet-stream", bytes)))
  {
    var field := Field(name, File(filename, OCTETS, bytes));
    DispositionIsWritten(field);
    EmptyLine();
    hide *;
    UntypedPartReads(field, repair);
    UntypedFile(name, filename, bytes, repair);
  }

  lemma UntypedPartReads(field: Field, repair: Repair)
    requires field.value.File? && field.value.contentType == OCTETS
    requires Plain(field.name) && Plain(field.value.filename)
    requires ValidUtf8(field.name) && ValidUtf8(field.value.filename)
    ensures
      var head := DISPOSITION + ":" + Disposition(field);
      FieldOf(CRLF + head + (CRLF + CRLF) + field.value.bytes + CRLF, repair) ==
      FieldFrom(Told(Some(field.name), Some(field.value.filename), None), field.value.bytes, repair)
  {
    var head, bytes := DISPOSITION + ":" + Disposition(field), field.value.bytes;
    var inner := head + (CRLF + CRLF) + bytes;
    hide *;
    UntypedIsSayable(field);
    UntypedHeadReads(field);
    DispositionIsOneLine(field);
    DispositionIsUtf8(field);
    OneLineHasNoEmptyLine(head, bytes);
    TrimsItsEnds(inner);
    Enclosed(CRLF, head, CRLF + CRLF, bytes);
    CutPartReads(CRLF + inner + CRLF, head, bytes, repair);
  }

  lemma Enclosed(end: Bytes, a: Bytes, b: Bytes, c: Bytes)
    ensures end + (a + b + c) + end == end + a + b + c + end
  {
  }

  lemma UntypedIsSayable(field: Field)
    requires field.value.File? && field.value.contentType == OCTETS
    requires Plain(field.name) && Plain(field.value.filename)
    requires ValidUtf8(field.name) && ValidUtf8(field.value.filename)
    ensures Sayable(field)
  {
    hide OneLine, Trim, ValidUtf8, Plain;
    OctetsAreTame();
    OctetsAreUtf8();
  }

  lemma OctetsAreUtf8()
    ensures ValidUtf8(OCTETS)
  {
    hide ValidUtf8;
    AsciiIsUtf8(OCTETS);
  }

  lemma UntypedHeadReads(field: Field)
    requires Sayable(field) && field.value.File?
    ensures
      HearAll(Told(None, None, None), Lines(DISPOSITION + ":" + Disposition(field))) ==
      Told(Some(field.name), Some(field.value.filename), None)
  {
    var head := DISPOSITION + ":" + Disposition(field);
    DispositionIsOneLine(field);
    assert Plain(field.name) && Plain(field.value.filename);
    hide *;
    DispositionReads(field);
    HearingDisposition(Told(None, None, None), Disposition(field));
    LastLine(head);
    HearingOne(Told(None, None, None), head);
  }

  lemma EmptyLine()
    ensures CRLF == "\r\n" && CRLF + CRLF == "\r\n\r\n"
  {
  }

  lemma TrimsItsEnds(inner: Bytes)
    ensures Trimmed(CRLF + inner + CRLF) == inner
  {
    var part := CRLF + inner + CRLF;
    assert part[0] == '\r' && part[..2] == CRLF && part[2..] == inner + CRLF;
    assert (inner + CRLF)[|inner|..] == CRLF && (inner + CRLF)[..|inner|] == inner;
  }

  lemma UntypedFile(name: Bytes, filename: Bytes, bytes: Bytes, repair: Repair)
    ensures FieldFrom(Told(Some(name), Some(filename), None), bytes, repair) ==
      Some(Field(name, File(filename, "application/octet-stream", bytes)))
  {
  }

  method ThereAndBack(fields: seq<Field>, boundary: Bytes, repair: Repair) returns (back: seq<Field>)
    requires boundary != [] && Unbroken(boundary)
    requires forall i :: 0 <= i < |fields| ==> IsText(fields[i]) && !Occurs(Part(fields[i]), Delimiter(boundary))
    ensures back == fields <==> forall i :: 0 <= i < |fields| ==> Tame(fields[i])
  {
    hide Part, IsText, Tame, FieldsOf, PiecesAfterFirst, Tail;
    var body := Serialize(fields, boundary);
    back := Parse(body, boundary, repair);
    ComesBackIffTame(fields, boundary, repair);
  }
}
