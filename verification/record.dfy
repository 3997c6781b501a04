/**
 * The record a compiled bundle is stored in: written as one buffer, read back with a cursor, checked against stamps.
 */
module Records {
  import opened Prelude

  type Bytes = seq<Byte>

  /** UTF-8 text, as its bytes; which byte strings are text is a parameter of reading. */
  type Text = Bytes

  /** A path is bytes that need not be text; what is written of it is a lossy conversion, a parameter of storing. */
  type Path = Bytes

  /** A source file and its identity when the record was written. */
  datatype Input = Input(path: Text, stamp: nat)

  datatype Entry = Entry(bytecode: Bytes, name: Text, sourceMap: Option<Text>, aux: Option<Text>, inputs: seq<Text>)

  const MAGIC: Bytes := [0x46, 0x4A, 0x42, 0x31]

  const U32_LIMIT := 0x1_0000_0000

  const U64_LIMIT := 0x1_0000_0000_0000_0000

  // ---- Writing -------------------------------------------------------------

  /** `n` in `width` little-endian bytes; what does not fit is cut off. */
  function LittleEndian(n: nat, width: nat): (bytes: Bytes)
    ensures |bytes| == width
  {
    if width == 0 then [] else [n % 256] + LittleEndian(n / 256, width - 1)
  }

  function Slice(bytes: Bytes): Bytes {
    LittleEndian(if |bytes| < U64_LIMIT then |bytes| else 0, 8) + bytes
  }

  function Optional(text: Option<Text>): Bytes {
    match text
    case Some(t) => [1] + Slice(t)
    case None => [0]
  }

  function Inputs(inputs: seq<Input>): Bytes {
    if inputs == [] then []
    else LittleEndian(inputs[0].stamp, 8) + (Slice(inputs[0].path) + Inputs(inputs[1..]))
  }

  /** A count past 32 bits is written as zero. */
  function Count(n: nat): nat {
    if n < U32_LIMIT then n else 0
  }

  function Record(e: Entry, inputs: seq<Input>): Bytes {
    MAGIC + (LittleEndian(Count(|inputs|), 4) + (Inputs(inputs) +
      (Slice(e.name) + (Optional(e.sourceMap) + (Optional(e.aux) + Slice(e.bytecode))))))
  }

  type Stamps = Path -> Option<nat>

  /** The inputs that can be stamped, under the text of their paths; the others leave no trace. */
  function Stamped(paths: seq<Path>, lossy: Path -> Text, stamps: Stamps): seq<Input> {
    if paths == [] then []
    else
      var n := |paths| - 1;
      var rest := Stamped(paths[..n], lossy, stamps);
      match stamps(paths[n])
      case Some(stamp) => rest + [Input(lossy(paths[n]), stamp)]
      case None => rest
  }

  method Stamp(paths: seq<Path>, lossy: Path -> Text, stamps: Stamps) returns (stamped: seq<Input>)
    ensures stamped == Stamped(paths, lossy, stamps)
  {
    stamped := [];
    for i := 0 to |paths|
      invariant stamped == Stamped(paths[..i], lossy, stamps)
    {
      assert paths[..i + 1][..i] == paths[..i];
      var stamp := stamps(paths[i]);
      if stamp.Some? {
        stamped := stamped + [Input(lossy(paths[i]), stamp.value)];
      }
    }
    assert paths[..|paths|] == paths;
  }

  method PutInputs(buf: Bytes, inputs: seq<Input>) returns (buf': Bytes)
    ensures buf' == buf + Inputs(inputs)
  {
    hide LittleEndian, Slice;
    buf' := buf;
    assert inputs[0..] == inputs;
    for i := 0 to |inputs|
      invariant buf' + Inputs(inputs[i..]) == buf + Inputs(inputs)
    {
      var stamp, slice := LittleEndian(inputs[i].stamp, 8), Slice(inputs[i].path);
      assert inputs[i..][1..] == inputs[i + 1..];
      AppendingTwo(buf', stamp, slice, Inputs(inputs[i + 1..]));
      buf' := buf' + stamp + slice;
    }
    assert inputs[|inputs|..] == [];
  }

  lemma AppendingTwo(a: Bytes, b: Bytes, c: Bytes, rest: Bytes)
    ensures a + b + c + rest == a + (b + (c + rest))
  {
    assert b + c + rest == b + (c + rest);
  }

  lemma AppendingInTurn(buf: Bytes, b: Bytes, c: Bytes, d: Bytes, e: Bytes)
    ensures buf + b + c + d + e == buf + (b + (c + (d + e)))
  {
    AppendingTwo(buf, b, c, d + e);
    assert buf + b + c + d + e == buf + b + c + (d + e);
  }

  method Store(e: Entry, paths: seq<Path>, lossy: Path -> Text, stamps: Stamps) returns (buf: Bytes)
    ensures buf == Record(e, Stamped(paths, lossy, stamps))
  {
    var stamped := Stamp(paths, lossy, stamps);
    buf := MAGIC + LittleEndian(Count(|stamped|), 4);
    buf := PutInputs(buf, stamped);
    AppendingInTurn(buf, Slice(e.name), Optional(e.sourceMap), Optional(e.aux), Slice(e.bytecode));
    AppendingTwo(MAGIC, LittleEndian(Count(|stamped|), 4), Inputs(stamped),
                 Slice(e.name) + (Optional(e.sourceMap) + (Optional(e.aux) + Slice(e.bytecode))));
    buf := buf + Slice(e.name);
    buf := buf + Optional(e.sourceMap);
    buf := buf + Optional(e.aux);
    buf := buf + Slice(e.bytecode);
  }

  // ---- Reading, as functions of what is left to read -----------------------

  /** What a read makes of the bytes left: a value and the bytes after it, or nothing when they run out. */
  type Read<T> = Option<(T, Bytes)>

  function Take(left: Bytes, n: nat): Read<Bytes> {
    if n <= |left| then Some((left[..n], left[n..])) else None
  }

  function Value(bytes: Bytes): nat {
    if bytes == [] then 0 else bytes[0] + 256 * Value(bytes[1..])
  }

  function TakeNumber(left: Bytes, width: nat): Read<nat> {
    match Take(left, width)
    case Some((bytes, rest)) => Some((Value(bytes), rest))
    case None => None
  }

  function TakeSlice(left: Bytes): Read<Bytes> {
    match TakeNumber(left, 8)
    case Some((n, rest)) => Take(rest, n)
    case None => None
  }

  function TakeText(left: Bytes, isText: Bytes -> bool): Read<Text> {
    match TakeSlice(left)
    case Some((bytes, rest)) => if isText(bytes) then Some((bytes, rest)) else None
    case None => None
  }

  function TakeOptional(left: Bytes, isText: Bytes -> bool): Read<Option<Text>> {
    match Take(left, 1)
    case Some((tag, rest)) =>
      if tag[0] == 0 then Some((None, rest))
      else (match TakeText(rest, isText)
            case Some((text, after)) => Some((Some(text), after))
            case None => None)
    case None => None
  }

  /** One recorded input: refused when its stamp no longer holds. */
  function TakeInput(left: Bytes, isText: Bytes -> bool, stamps: Stamps): Read<Text> {
    match TakeNumber(left, 8)
    case Some((stamp, rest)) =>
      (match TakeText(rest, isText)
       case Some((path, after)) => if stamps(path) == Some(stamp) then Some((path, after)) else None
       case None => None)
    case None => None
  }

  function TakeInputs(left: Bytes, n: nat, isText: Bytes -> bool, stamps: Stamps): Read<seq<Text>> {
    if n == 0 then Some(([], left))
    else
      match TakeInput(left, isText, stamps)
      case Some((path, rest)) =>
        (match TakeInputs(rest, n - 1, isText, stamps)
         case Some((paths, after)) => Some(([path] + paths, after))
         case None => None)
      case None => None
  }

  function TakeBody(left: Bytes, inputs: seq<Text>, isText: Bytes -> bool): Read<Entry> {
    match TakeText(left, isText)
    case Some((name, r1)) =>
      (match TakeOptional(r1, isText)
       case Some((sourceMap, r2)) =>
         (match TakeOptional(r2, isText)
          case Some((aux, r3)) =>
            (match TakeSlice(r3)
             case Some((bytecode, r4)) => Some((Entry(bytecode, name, sourceMap, aux, inputs), r4))
             case None => None)
          case None => None)
       case None => None)
    case None => None
  }

  function TakeRecord(raw: Bytes, isText: Bytes -> bool, stamps: Stamps): Read<Entry> {
    match Take(raw, 4)
    case Some((magic, r1)) =>
      if magic != MAGIC then None
      else
        (match TakeNumber(r1, 4)
         case Some((n, r2)) =>
           (match TakeInputs(r2, n, isText, stamps)
            case Some((inputs, r3)) => TakeBody(r3, inputs, isText)
            case None => None)
         case None => None)
    case None => None
  }

  // ---- The cursor ----------------------------------------------------------

  /** The read happened, or nothing was read. */
  ghost predicate Reads<T(!new)>(left: Bytes, left': Bytes, got: Option<T>, read: Read<T>) {
    match read
    case Some((value, rest)) => got == Some(value) && left' == rest
    case None => got.None?
  }

  class Reader {
    const raw: Bytes
    var at: nat

    constructor (raw: Bytes)
      ensures Valid() && this.raw == raw && Left() == raw
    {
      this.raw, at := raw, 0;
    }

    predicate Valid()
      reads this
    {
      at <= |raw|
    }

    function Left(): Bytes
      requires Valid()
      reads this
    {
      raw[at..]
    }

    method Next(n: nat) returns (bytes: Option<Bytes>)
      requires Valid()
      modifies this
      ensures Valid() && Reads(old(Left()), Left(), bytes, Take(old(Left()), n))
    {
      var end := at + n;
      if end > |raw| {
        return None;
      }
      bytes := Some(raw[at..end]);
      assert raw[at..][..n] == raw[at..end] && raw[at..][n..] == raw[end..];
      at := end;
    }

    method NextNumber(width: nat) returns (n: Option<nat>)
      requires Valid()
      modifies this
      ensures Valid() && Reads(old(Left()), Left(), n, TakeNumber(old(Left()), width))
    {
      var bytes := Next(width);
      n := if bytes.Some? then Some(Value(bytes.value)) else None;
    }

    method NextSlice() returns (bytes: Option<Bytes>)
      requires Valid()
      modifies this
      ensures Valid() && Reads(old(Left()), Left(), bytes, TakeSlice(old(Left())))
    {
      var n := NextNumber(8);
      if n.None? {
        return None;
      }
      bytes := Next(n.value);
    }

    method NextText(isText: Bytes -> bool) returns (text: Option<Text>)
      requires Valid()
      modifies this
      ensures Valid() && Reads(old(Left()), Left(), text, TakeText(old(Left()), isText))
    {
      text := NextSlice();
      if text.Some? && !isText(text.value) {
        text := None;
      }
    }

    method NextOptional(isText: Bytes -> bool) returns (text: Option<Option<Text>>)
      requires Valid()
      modifies this
      ensures Valid() && Reads(old(Left()), Left(), text, TakeOptional(old(Left()), isText))
    {
      var tag := Next(1);
      if tag.None? {
        return None;
      }
      if tag.value[0] == 0 {
        return Some(None);
      }
      var some := NextText(isText);
      text := if some.Some? then Some(some) else None;
    }
  }

  function Loaded(read: Read<Entry>): Option<Entry> {
    if read.Some? then Some(read.value.0) else None
  }

  method LoadInputs(r: Reader, n: nat, isText: Bytes -> bool, stamps: Stamps) returns (inputs: Option<seq<Text>>)
    requires r.Valid()
    modifies r
    ensures r.Valid() && Reads(old(r.Left()), r.Left(), inputs, TakeInputs(old(r.Left()), n, isText, stamps))
  {
    ghost var start := r.Left();
    var read: seq<Text> := [];
    FirstInput(start, n, isText, stamps);
    for i := 0 to n
      invariant r.Valid() && |read| == i
      invariant InputsSoFar(start, n, read, r.Left(), isText, stamps)
    {
      ghost var left := r.Left();
      OneMoreInput(start, n, read, left, isText, stamps);
      var stamp := r.NextNumber(8);
      if stamp.None? {
        return None;
      }
      var path := r.NextText(isText);
      if path.None? || stamps(path.value) != stamp {
        return None;
      }
      read := read + [path.value];
    }
    assert read + [] == read;
    inputs := Some(read);
  }

  method LoadBody(r: Reader, inputs: seq<Text>, isText: Bytes -> bool) returns (entry: Option<Entry>)
    requires r.Valid()
    modifies r
    ensures entry == Loaded(TakeBody(old(r.Left()), inputs, isText))
  {
    var name := r.NextText(isText);
    if name.None? {
      return None;
    }
    var sourceMap := r.NextOptional(isText);
    if sourceMap.None? {
      return None;
    }
    var aux := r.NextOptional(isText);
    if aux.None? {
      return None;
    }
    var bytecode := r.NextSlice();
    if bytecode.None? {
      return None;
    }
    entry := Some(Entry(bytecode.value, name.value, sourceMap.value, aux.value, inputs));
  }

  method Load(raw: Bytes, isText: Bytes -> bool, stamps: Stamps) returns (entry: Option<Entry>)
    ensures entry == Loaded(TakeRecord(raw, isText, stamps))
  {
    var r := new Reader(raw);
    var magic := r.Next(4);
    if magic != Some(MAGIC) {
      return None;
    }
    var n := r.NextNumber(4);
    if n.None? {
      return None;
    }
    var inputs := LoadInputs(r, n.value, isText, stamps);
    if inputs.None? {
      return None;
    }
    entry := LoadBody(r, inputs.value, isText);
  }

  /** Reading all the inputs comes to reading the ones left after those read so far. */
  ghost predicate InputsSoFar(
    start: Bytes, n: nat, inputs: seq<Text>, left: Bytes, isText: Bytes -> bool, stamps: Stamps)
  {
    |inputs| <= n &&
    TakeInputs(start, n, isText, stamps) ==
      match TakeInputs(left, n - |inputs|, isText, stamps)
      case Some((paths, after)) => Some((inputs + paths, after))
      case None => None
  }

  lemma FirstInput(start: Bytes, n: nat, isText: Bytes -> bool, stamps: Stamps)
    ensures InputsSoFar(start, n, [], start, isText, stamps)
  {
    var all := TakeInputs(start, n, isText, stamps);
    assert all.Some? ==> [] + all.value.0 == all.value.0;
  }

  lemma OneMoreInput(start: Bytes, n: nat, inputs: seq<Text>, left: Bytes, isText: Bytes -> bool, stamps: Stamps)
    requires |inputs| < n && InputsSoFar(start, n, inputs, left, isText, stamps)
    ensures
      match TakeInput(left, isText, stamps)
      case Some((path, rest)) => InputsSoFar(start, n, inputs + [path], rest, isText, stamps)
      case None => TakeInputs(start, n, isText, stamps).None?
  {
    if TakeInput(left, isText, stamps).Some? {
      var (path, rest) := TakeInput(left, isText, stamps).value;
      var more := TakeInputs(rest, n - |inputs| - 1, isText, stamps);
      if more.Some? {
        assert inputs + ([path] + more.value.0) == inputs + [path] + more.value.0;
      }
    }
  }

  // ---- What was written reads back -----------------------------------------

  /** `n` is representable in `width` bytes. */
  predicate Fits(n: nat, width: nat) {
    if width == 0 then n == 0 else Fits(n / 256, width - 1)
  }

  lemma {:induction false} LittleEndianReadsBack(n: nat, width: nat)
    requires Fits(n, width)
    ensures Value(LittleEndian(n, width)) == n
  {
    if width > 0 {
      LittleEndianReadsBack(n / 256, width - 1);
      assert LittleEndian(n, width)[1..] == LittleEndian(n / 256, width - 1);
    }
  }

  lemma FourBytesFit(n: nat)
    requires n < U32_LIMIT
    ensures Fits(n, 4)
  {
    assert Fits(n / 256 / 256 / 256, 1);
    assert Fits(n / 256 / 256, 2);
    assert Fits(n / 256, 3);
  }

  lemma EightBytesFit(n: nat)
    requires n < U64_LIMIT
    ensures Fits(n, 8)
  {
    var high := n / 256 / 256 / 256 / 256;
    FourBytesFit(high);
    assert Fits(n / 256 / 256 / 256, 5);
    assert Fits(n / 256 / 256, 6);
    assert Fits(n / 256, 7);
  }

  lemma NumberReadsBack(n: nat, width: nat, rest: Bytes)
    requires Fits(n, width)
    ensures TakeNumber(LittleEndian(n, width) + rest, width) == Some((n, rest))
  {
    LittleEndianReadsBack(n, width);
    var bytes := LittleEndian(n, width);
    assert (bytes + rest)[..width] == bytes && (bytes + rest)[width..] == rest;
  }

  lemma SliceReadsBack(bytes: Bytes, rest: Bytes)
    requires |bytes| < U64_LIMIT
    ensures TakeSlice(Slice(bytes) + rest) == Some((bytes, rest))
  {
    EightBytesFit(|bytes|);
    NumberReadsBack(|bytes|, 8, bytes + rest);
    assert Slice(bytes) + rest == LittleEndian(|bytes|, 8) + (bytes + rest);
    assert (bytes + rest)[..|bytes|] == bytes && (bytes + rest)[|bytes|..] == rest;
  }

  predicate Storable(text: Text, isText: Bytes -> bool) {
    isText(text) && |text| < U64_LIMIT
  }

  lemma OptionalReadsBack(text: Option<Text>, rest: Bytes, isText: Bytes -> bool)
    requires text.Some? ==> Storable(text.value, isText)
    ensures TakeOptional(Optional(text) + rest, isText) == Some((text, rest))
  {
    hide TakeSlice, Slice;
    if text.Some? {
      SliceReadsBack(text.value, rest);
      assert (Optional(text) + rest)[1..] == Slice(text.value) + rest;
    } else {
      assert (Optional(text) + rest)[1..] == rest;
    }
  }

  predicate StorableInputs(inputs: seq<Input>, isText: Bytes -> bool) {
    forall i :: 0 <= i < |inputs| ==> Storable(inputs[i].path, isText) && inputs[i].stamp < U64_LIMIT
  }

  /** Every recorded stamp still holds. */
  predicate Fresh(inputs: seq<Input>, stamps: Stamps) {
    forall i :: 0 <= i < |inputs| ==> stamps(inputs[i].path) == Some(inputs[i].stamp)
  }

  function Paths(inputs: seq<Input>): seq<Text> {
    if inputs == [] then [] else [inputs[0].path] + Paths(inputs[1..])
  }

  lemma {:induction false} InputsReadBack(inputs: seq<Input>, rest: Bytes, isText: Bytes -> bool, stamps: Stamps)
    requires StorableInputs(inputs, isText)
    ensures TakeInputs(Inputs(inputs) + rest, |inputs|, isText, stamps) ==
            if Fresh(inputs, stamps) then Some((Paths(inputs), rest)) else None
  {
    hide LittleEndian, Slice, TakeNumber, TakeSlice;
    if inputs == [] {
      assert Inputs(inputs) + rest == rest;
    } else {
      var first, others := inputs[0], inputs[1..];
      var tail := Inputs(others) + rest;
      EightBytesFit(first.stamp);
      NumberReadsBack(first.stamp, 8, Slice(first.path) + tail);
      SliceReadsBack(first.path, tail);
      assert Inputs(inputs) + rest == LittleEndian(first.stamp, 8) + (Slice(first.path) + tail);
      InputsReadBack(others, rest, isText, stamps);
      assert Fresh(inputs, stamps) <==> stamps(first.path) == Some(first.stamp) && Fresh(others, stamps);
    }
  }

  predicate StorableEntry(e: Entry, isText: Bytes -> bool) {
    Storable(e.name, isText) && |e.bytecode| < U64_LIMIT &&
    (e.sourceMap.Some? ==> Storable(e.sourceMap.value, isText)) && (e.aux.Some? ==> Storable(e.aux.value, isText))
  }

  lemma BodyReadsBack(e: Entry, inputs: seq<Text>, isText: Bytes -> bool)
    requires StorableEntry(e, isText)
    ensures
      TakeBody(Slice(e.name) + (Optional(e.sourceMap) + (Optional(e.aux) + Slice(e.bytecode))), inputs, isText) ==
      Some((e.(inputs := inputs), []))
  {
    var r3 := Slice(e.bytecode);
    var r2 := Optional(e.aux) + r3;
    SliceReadsBack(e.name, Optional(e.sourceMap) + r2);
    OptionalReadsBack(e.sourceMap, r2, isText);
    OptionalReadsBack(e.aux, r3, isText);
    SliceReadsBack(e.bytecode, []);
    assert r3 + [] == r3;
  }

  /** A record of fewer than 2^32 inputs is read whole while its stamps hold, and refused once one does not. */
  lemma RecordReadsBack(e: Entry, inputs: seq<Input>, isText: Bytes -> bool, stamps: Stamps)
    requires StorableEntry(e, isText) && StorableInputs(inputs, isText) && |inputs| < U32_LIMIT
    ensures TakeRecord(Record(e, inputs), isText, stamps) ==
            if Fresh(inputs, stamps) then Some((e.(inputs := Paths(inputs)), [])) else None
  {
    var body := Slice(e.name) + (Optional(e.sourceMap) + (Optional(e.aux) + Slice(e.bytecode)));
    var raw := Record(e, inputs);
    assert raw[..4] == MAGIC && raw[4..] == LittleEndian(|inputs|, 4) + (Inputs(inputs) + body);
    FourBytesFit(|inputs|);
    NumberReadsBack(|inputs|, 4, Inputs(inputs) + body);
    InputsReadBack(inputs, body, isText, stamps);
    BodyReadsBack(e, Paths(inputs), isText);
  }

  lemma ZeroCountReadsNoInputs(raw: Bytes, isText: Bytes -> bool, stamps: Stamps)
    requires |raw| >= 8 && raw[4..8] == LittleEndian(0, 4)
    requires TakeRecord(raw, isText, stamps).Some?
    ensures TakeRecord(raw, isText, stamps).value.0.inputs == []
  {
    FourBytesFit(0);
    NumberReadsBack(0, 4, raw[8..]);
    assert raw[4..] == LittleEndian(0, 4) + raw[8..];
  }

  lemma CountIsAtFour(e: Entry, inputs: seq<Input>)
    ensures |Record(e, inputs)| >= 8 && Record(e, inputs)[4..8] == LittleEndian(Count(|inputs|), 4)
  {
    var count := LittleEndian(Count(|inputs|), 4);
    var rest := Record(e, inputs)[8..];
    assert Record(e, inputs)[4..] == count + rest;
    assert (count + rest)[..4] == count;
  }

  /**
   * Past 2^32 inputs the count is lost, and with it every input: the round trip holds on exactly the smaller records.
   */
  lemma RoundTripIffCountFits(e: Entry, inputs: seq<Input>, isText: Bytes -> bool, stamps: Stamps)
    requires StorableEntry(e, isText) && StorableInputs(inputs, isText) && Fresh(inputs, stamps)
    ensures Loaded(TakeRecord(Record(e, inputs), isText, stamps)) == Some(e.(inputs := Paths(inputs))) <==>
            |inputs| < U32_LIMIT
  {
    if |inputs| < U32_LIMIT {
      RecordReadsBack(e, inputs, isText, stamps);
    } else {
      CountIsAtFour(e, inputs);
      if TakeRecord(Record(e, inputs), isText, stamps).Some? {
        ZeroCountReadsNoInputs(Record(e, inputs), isText, stamps);
      }
      assert |Paths(inputs)| > 0;
    }
  }

  // ---- What is stored and loaded -------------------------------------------

  lemma {:induction false} StampedAre(paths: seq<Path>, lossy: Path -> Text, stamps: Stamps, input: Input)
    ensures input in Stamped(paths, lossy, stamps) <==>
      exists p :: p in paths && lossy(p) == input.path && stamps(p) == Some(input.stamp)
  {
    if paths != [] {
      var n := |paths| - 1;
      StampedAre(paths[..n], lossy, stamps, input);
      assert paths == paths[..n] + [paths[n]];
    }
  }

  /**
   * A stored entry loads exactly while, for every input that could be stamped then, what its path was written as is
   * stamped now as the input was: the input itself when its path is text, and when not whatever file the lossy text
   * names.
   */
  lemma StoredEntryIsFresh(
    e: Entry, paths: seq<Path>, lossy: Path -> Text, isText: Bytes -> bool, before: Stamps, now: Stamps)
    requires StorableEntry(e, isText) && |Stamped(paths, lossy, before)| < U32_LIMIT
    requires forall p :: p in paths ==> Storable(lossy(p), isText) && (before(p).Some? ==> before(p).value < U64_LIMIT)
    ensures TakeRecord(Record(e, Stamped(paths, lossy, before)), isText, now).Some? <==>
            forall p :: p in paths && before(p).Some? ==> now(lossy(p)) == before(p)
  {
    var inputs := Stamped(paths, lossy, before);
    forall i | 0 <= i < |inputs|
      ensures exists p :: p in paths && lossy(p) == inputs[i].path && before(p) == Some(inputs[i].stamp)
    {
      StampedAre(paths, lossy, before, inputs[i]);
    }
    forall p | p in paths && before(p).Some? ensures Input(lossy(p), before(p).value) in inputs {
      StampedAre(paths, lossy, before, Input(lossy(p), before(p).value));
    }
    RecordReadsBack(e, inputs, isText, now);
  }

  // ---- A record cut short --------------------------------------------------

  /** Bytes after those a read needed do not change it. */
  lemma TakeGoesOn(left: Bytes, n: nat, more: Bytes)
    requires Take(left, n).Some?
    ensures var (value, rest) := Take(left, n).value; Take(left + more, n) == Some((value, rest + more))
  {
    assert (left + more)[..n] == left[..n] && (left + more)[n..] == left[n..] + more;
  }

  lemma SliceGoesOn(left: Bytes, more: Bytes)
    requires TakeSlice(left).Some?
    ensures var (value, rest) := TakeSlice(left).value; TakeSlice(left + more) == Some((value, rest + more))
  {
    TakeGoesOn(left, 8, more);
    var (n, rest) := TakeNumber(left, 8).value;
    TakeGoesOn(rest, n, more);
  }

  lemma OptionalGoesOn(left: Bytes, more: Bytes, isText: Bytes -> bool)
    requires TakeOptional(left, isText).Some?
    ensures var (value, rest) := TakeOptional(left, isText).value;
            TakeOptional(left + more, isText) == Some((value, rest + more))
  {
    TakeGoesOn(left, 1, more);
    var (tag, rest) := Take(left, 1).value;
    if tag[0] != 0 {
      SliceGoesOn(rest, more);
    }
  }

  lemma {:induction false} InputsGoOn(left: Bytes, n: nat, more: Bytes, isText: Bytes -> bool, stamps: Stamps)
    requires TakeInputs(left, n, isText, stamps).Some?
    ensures var (value, rest) := TakeInputs(left, n, isText, stamps).value;
            TakeInputs(left + more, n, isText, stamps) == Some((value, rest + more))
  {
    if n > 0 {
      TakeGoesOn(left, 8, more);
      var (stamp, r1) := TakeNumber(left, 8).value;
      SliceGoesOn(r1, more);
      var (path, r2) := TakeSlice(r1).value;
      InputsGoOn(r2, n - 1, more, isText, stamps);
    }
  }

  lemma BodyGoesOn(left: Bytes, inputs: seq<Text>, more: Bytes, isText: Bytes -> bool)
    requires TakeBody(left, inputs, isText).Some?
    ensures var (value, rest) := TakeBody(left, inputs, isText).value;
            TakeBody(left + more, inputs, isText) == Some((value, rest + more))
  {
    SliceGoesOn(left, more);
    var (name, r1) := TakeSlice(left).value;
    OptionalGoesOn(r1, more, isText);
    var (sourceMap, r2) := TakeOptional(r1, isText).value;
    OptionalGoesOn(r2, more, isText);
    var (aux, r3) := TakeOptional(r2, isText).value;
    SliceGoesOn(r3, more);
  }

  lemma RecordGoesOn(raw: Bytes, more: Bytes, isText: Bytes -> bool, stamps: Stamps)
    requires TakeRecord(raw, isText, stamps).Some?
    ensures var (value, rest) := TakeRecord(raw, isText, stamps).value;
            TakeRecord(raw + more, isText, stamps) == Some((value, rest + more))
  {
    TakeGoesOn(raw, 4, more);
    var (magic, r1) := Take(raw, 4).value;
    TakeGoesOn(r1, 4, more);
    var (n, r2) := TakeNumber(r1, 4).value;
    InputsGoOn(r2, n, more, isText, stamps);
    var (inputs, r3) := TakeInputs(r2, n, isText, stamps).value;
    BodyGoesOn(r3, inputs, more, isText);
  }

  /** Every strict prefix of a record is refused, whatever the stamps say now. */
  lemma CutRecordIsRefused(e: Entry, inputs: seq<Input>, isText: Bytes -> bool, stamps: Stamps, cut: Bytes)
    requires StorableEntry(e, isText) && StorableInputs(inputs, isText) && |inputs| < U32_LIMIT
    requires cut < Record(e, inputs)
    ensures TakeRecord(cut, isText, stamps).None?
  {
    var raw := Record(e, inputs);
    var more := raw[|cut|..];
    assert raw == cut + more;
    RecordReadsBack(e, inputs, isText, stamps);
    if TakeRecord(cut, isText, stamps).Some? {
      RecordGoesOn(cut, more, isText, stamps);
    }
  }

  // ---- The bytes of a record -------------------------------------------------

  /** The four bytes of a number, the low one first. */
  function Four(n: nat): Bytes {
    [n % 0x100, n / 0x100 % 0x100, n / 0x1_0000 % 0x100, n / 0x100_0000 % 0x100]
  }

  function Eight(n: nat): Bytes {
    Four(n) + Four(n / 0x1_0000_0000)
  }

  lemma FourAreWritten(n: nat, more: nat)
    ensures LittleEndian(n, 4 + more) == Four(n) + LittleEndian(n / 0x1_0000_0000, more)
  {
    var a, b, c, d := n / 0x100, n / 0x1_0000, n / 0x100_0000, n / 0x1_0000_0000;
    assert a / 256 == b && b / 256 == c && c / 256 == d;
    assert LittleEndian(c, 1 + more) == [c % 256] + LittleEndian(d, more);
    assert LittleEndian(b, 2 + more) == [b % 256] + LittleEndian(c, 1 + more);
    assert LittleEndian(a, 3 + more) == [a % 256] + LittleEndian(b, 2 + more);
    assert LittleEndian(n, 4 + more) == [n % 256] + LittleEndian(a, 3 + more);
  }

  lemma NumbersAreWritten(n: nat)
    ensures LittleEndian(n, 4) == Four(n) && LittleEndian(n, 8) == Eight(n)
  {
    hide LittleEndian, Four;
    FourAreWritten(n, 0);
    FourAreWritten(n, 4);
    FourAreWritten(n / 0x1_0000_0000, 0);
    NoBytes(n / 0x1_0000_0000);
    NoBytes(n / 0x1_0000_0000 / 0x1_0000_0000);
  }

  lemma NoBytes(n: nat)
    ensures LittleEndian(n, 0) == []
  {
  }

  function Measured(bytes: Bytes): Bytes {
    Eight(|bytes|) + bytes
  }

  lemma SlicesAreWritten(bytes: Bytes)
    requires |bytes| < U64_LIMIT
    ensures Slice(bytes) == Measured(bytes)
  {
    NumbersAreWritten(|bytes|);
  }

  lemma OptionalsAreWritten(text: Option<Text>)
    requires text.Some? ==> |text.value| < U64_LIMIT
    ensures Optional(text) == match text case Some(t) => [1] + Measured(t) case None => [0]
  {
    hide Slice, Measured;
    if text.Some? {
      SlicesAreWritten(text.value);
    }
  }

  /** A record byte by byte: the four letters `FJB1`, the count of its inputs, the inputs, and the entry. */
  lemma RecordIsWritten(e: Entry, inputs: seq<Input>, isText: Bytes -> bool)
    requires StorableEntry(e, isText) && StorableInputs(inputs, isText) && |inputs| < 0x1_0000_0000
    ensures Record(e, inputs) ==
      ['F' as int, 'J' as int, 'B' as int, '1' as int] + (Four(|inputs|) + (Inputs(inputs) +
        (Measured(e.name) +
         ((match e.sourceMap case Some(t) => [1] + Measured(t) case None => [0]) +
          ((match e.aux case Some(t) => [1] + Measured(t) case None => [0]) + Measured(e.bytecode))))))
    ensures inputs != [] ==>
      Inputs(inputs) == Eight(inputs[0].stamp) + (Measured(inputs[0].path) + Inputs(inputs[1..]))
  {
    NumbersAreWritten(|inputs|);
    SlicesAreWritten(e.name);
    OptionalsAreWritten(e.sourceMap);
    OptionalsAreWritten(e.aux);
    SlicesAreWritten(e.bytecode);
    if inputs != [] {
      NumbersAreWritten(inputs[0].stamp);
      SlicesAreWritten(inputs[0].path);
    }
    hide LittleEndian, Slice, Measured, Optional, Four;
  }

  /** Bytes that begin otherwise are no record. */
  lemma OtherLettersAreRefused(raw: Bytes, isText: Bytes -> bool, stamps: Stamps)
    requires !(['F' as int, 'J' as int, 'B' as int, '1' as int] <= raw)
    ensures TakeRecord(raw, isText, stamps).None?
  {
    hide TakeNumber, TakeInputs, TakeBody;
    if |raw| >= 4 {
      assert raw[..4] <= raw;
    }
  }
}
