/** The header list of a request: ordered entries under names that compare without ASCII case. */
module HeaderLists {
  import opened Prelude

  datatype Entry = Entry(name: string, value: string)

  /** Two spellings of one header's name. */
  predicate Same(a: string, b: string) {
    Lower(a) == Lower(b)
  }

  /** Every value under `name`, in order. */
  function Values(entries: seq<Entry>, name: string): seq<string> {
    if entries == [] then []
    else (if Same(entries[0].name, name) then [entries[0].value] else []) + Values(entries[1..], name)
  }

  function Without(entries: seq<Entry>, name: string): seq<Entry> {
    if entries == [] then []
    else (if Same(entries[0].name, name) then [] else [entries[0]]) + Without(entries[1..], name)
  }

  /** `value` in the place of the first entry under `name`, or at the end when there is none. */
  function Put(entries: seq<Entry>, name: string, value: string): seq<Entry> {
    if entries == [] then [Entry(name, value)]
    else if Same(entries[0].name, name) then [Entry(entries[0].name, value)] + Without(entries[1..], name)
    else [entries[0]] + Put(entries[1..], name, value)
  }

  const COMMA := ", "

  const SET_COOKIE := "set-cookie"

  /** `value` joined onto the first entry under `name`, or at the end; a cookie is never joined on. */
  function Combined(entries: seq<Entry>, name: string, value: string): seq<Entry> {
    if entries == [] || name == SET_COOKIE then entries + [Entry(name, value)]
    else if Same(entries[0].name, name) then [Entry(entries[0].name, entries[0].value + COMMA + value)] + entries[1..]
    else [entries[0]] + Combined(entries[1..], name, value)
  }

  function Joined(values: seq<string>): string {
    if values == [] then "" else if |values| == 1 then values[0] else values[0] + COMMA + Joined(values[1..])
  }

  /** What keeping only the first entry under `name` leaves, `seen` telling whether it has gone by. */
  function FirstKept(entries: seq<Entry>, name: string, seen: bool): seq<Entry> {
    if entries == [] then []
    else if !Same(entries[0].name, name) then [entries[0]] + FirstKept(entries[1..], name, seen)
    else if seen then FirstKept(entries[1..], name, true)
    else [entries[0]] + FirstKept(entries[1..], name, true)
  }

  class Headers {
    var entries: seq<Entry>

    constructor (pairs: seq<Entry>)
      ensures entries == pairs
    {
      entries := pairs;
    }

    /** Where the first entry under `name` stands. */
    method Position(name: string) returns (at: Option<nat>)
      ensures at.Some? ==> at.value < |entries| && Same(entries[at.value].name, name)
      ensures forall k :: 0 <= k < (if at.Some? then at.value else |entries|) ==> !Same(entries[k].name, name)
    {
      for i := 0 to |entries|
        invariant forall k :: 0 <= k < i ==> !Same(entries[k].name, name)
      {
        if Same(entries[i].name, name) {
          return Some(i);
        }
      }
      return None;
    }

    method GetAll(name: string) returns (values: seq<string>)
      ensures values == Values(entries, name)
    {
      values := [];
      for i := 0 to |entries|
        invariant values + Values(entries[i..], name) == Values(entries, name)
      {
        assert entries[i..][1..] == entries[i + 1..];
        if Same(entries[i].name, name) {
          values := values + [entries[i].value];
        }
      }
    }

    method Contains(name: string) returns (present: bool)
      ensures present <==> Values(entries, name) != []
    {
      var at := Position(name);
      if at.Some? {
        ValueAt(entries, name, at.value);
      } else {
        NoValues(entries, name);
      }
      return at.Some?;
    }

    method Remove(name: string)
      modifies this
      ensures entries == Without(old(entries), name)
    {
      hide Same;
      var kept := [];
      for i := 0 to |entries|
        invariant entries == old(entries)
        invariant kept + Without(entries[i..], name) == Without(entries, name)
      {
        assert entries[i..][1..] == entries[i + 1..];
        KeepingOne(kept, entries[i], Without(entries[i + 1..], name));
        if !Same(entries[i].name, name) {
          kept := kept + [entries[i]];
        }
      }
      entries := kept;
    }

    method Set(name: string, value: string)
      modifies this
      ensures entries == Put(old(entries), name, value)
    {
      hide Same;
      var at := Position(name);
      match at
      case None =>
        PutAtEnd(entries, name, value);
        entries := entries + [Entry(name, value)];
      case Some(i) =>
        KeepingTheFirstIsPut(entries, name, value, i);
        entries := entries[i := entries[i].(value := value)];
        var kept := [];
        var seen := false;
        ghost var replaced := entries;
        for k := 0 to |entries|
          invariant entries == replaced
          invariant kept + FirstKept(entries[k..], name, seen) == FirstKept(entries, name, false)
        {
          assert entries[k..][1..] == entries[k + 1..];
          KeepingOne(kept, entries[k], FirstKept(entries[k + 1..], name, true));
          KeepingOne(kept, entries[k], FirstKept(entries[k + 1..], name, seen));
          if Same(entries[k].name, name) {
            if !seen {
              kept := kept + [entries[k]];
            }
            seen := true;
          } else {
            kept := kept + [entries[k]];
          }
        }
        entries := kept;
    }

    method AppendCombined(name: string, value: string)
      modifies this
      ensures entries == Combined(old(entries), name, value)
    {
      if name == SET_COOKIE {
        entries := entries + [Entry(name, value)];
        return;
      }
      var at := Position(name);
      match at
      case None =>
        CombinedAtEnd(entries, name, value);
        entries := entries + [Entry(name, value)];
      case Some(i) =>
        CombinedAt(entries, name, value, i);
        entries := entries[i := entries[i].(value := entries[i].value + COMMA + value)];
    }
  }

  // ---- The loops above against the specification ----------------------------

  lemma {:induction false} ValueAt(entries: seq<Entry>, name: string, i: nat)
    requires i < |entries| && Same(entries[i].name, name)
    ensures Values(entries, name) != []
  {
    if i > 0 {
      ValueAt(entries[1..], name, i - 1);
    }
  }

  lemma {:induction false} NoValues(entries: seq<Entry>, name: string)
    requires forall k :: 0 <= k < |entries| ==> !Same(entries[k].name, name)
    ensures Values(entries, name) == [] && Without(entries, name) == entries
  {
    if entries != [] {
      NoValues(entries[1..], name);
    }
  }

  lemma {:induction false} PutAtEnd(entries: seq<Entry>, name: string, value: string)
    requires forall k :: 0 <= k < |entries| ==> !Same(entries[k].name, name)
    ensures Put(entries, name, value) == entries + [Entry(name, value)]
  {
    if entries != [] {
      PutAtEnd(entries[1..], name, value);
    }
  }

  lemma {:induction false} SeenDropsTheRest(entries: seq<Entry>, name: string)
    ensures FirstKept(entries, name, true) == Without(entries, name)
  {
    if entries != [] {
      SeenDropsTheRest(entries[1..], name);
    }
  }

  lemma {:induction false} KeepingTheFirstIsPut(entries: seq<Entry>, name: string, value: string, i: nat)
    requires i < |entries| && Same(entries[i].name, name)
    requires forall k :: 0 <= k < i ==> !Same(entries[k].name, name)
    ensures FirstKept(entries[i := entries[i].(value := value)], name, false) == Put(entries, name, value)
  {
    var replaced := entries[i := entries[i].(value := value)];
    if i == 0 {
      assert replaced[1..] == entries[1..];
      SeenDropsTheRest(entries[1..], name);
    } else {
      assert replaced[1..] == entries[1..][i - 1 := entries[i].(value := value)];
      KeepingTheFirstIsPut(entries[1..], name, value, i - 1);
    }
  }

  lemma {:induction false} CombinedAtEnd(entries: seq<Entry>, name: string, value: string)
    requires forall k :: 0 <= k < |entries| ==> !Same(entries[k].name, name)
    ensures Combined(entries, name, value) == entries + [Entry(name, value)]
  {
    if entries != [] && name != SET_COOKIE {
      CombinedAtEnd(entries[1..], name, value);
    }
  }

  lemma {:induction false} CombinedAt(entries: seq<Entry>, name: string, value: string, i: nat)
    requires i < |entries| && Same(entries[i].name, name) && name != SET_COOKIE
    requires forall k :: 0 <= k < i ==> !Same(entries[k].name, name)
    ensures Combined(entries, name, value) == entries[i := entries[i].(value := entries[i].value + COMMA + value)]
  {
    if i > 0 {
      CombinedAt(entries[1..], name, value, i - 1);
      assert entries[i := entries[i].(value := entries[i].value + COMMA + value)] ==
        [entries[0]] + entries[1..][i - 1 := entries[i].(value := entries[i].value + COMMA + value)];
    }
  }

  // ---- What a caller sees ---------------------------------------------------

  /** Removing a name takes every value of it, in any spelling, and no value of another. */
  lemma {:induction false} RemovedIsGone(entries: seq<Entry>, name: string, other: string)
    ensures Values(Without(entries, name), other) == if Same(name, other) then [] else Values(entries, other)
  {
    if entries != [] {
      RemovedIsGone(entries[1..], name, other);
      if !Same(entries[0].name, name) {
        assert Without(entries, name)[1..] == Without(entries[1..], name);
      } else {
        assert Without(entries, name) == Without(entries[1..], name);
      }
    }
  }

  /** Setting a name leaves it that one value, in any spelling, and every other name its own. */
  lemma {:induction false} SetReplaces(entries: seq<Entry>, name: string, value: string, other: string)
    ensures Values(Put(entries, name, value), other) == if Same(name, other) then [value] else Values(entries, other)
  {
    if entries != [] {
      var put := Put(entries, name, value);
      if Same(entries[0].name, name) {
        assert put[1..] == Without(entries[1..], name);
        RemovedIsGone(entries[1..], name, other);
      } else {
        assert put[1..] == Put(entries[1..], name, value);
        SetReplaces(entries[1..], name, value, other);
      }
    }
  }

  /** And the other entries stay, in their order. */
  lemma {:induction false} SetKeepsTheOthers(entries: seq<Entry>, name: string, value: string)
    ensures Without(Put(entries, name, value), name) == Without(entries, name)
  {
    if entries != [] {
      var put := Put(entries, name, value);
      if Same(entries[0].name, name) {
        assert put[1..] == Without(entries[1..], name);
        RemovingTwice(entries[1..], name);
      } else {
        assert put[1..] == Put(entries[1..], name, value);
        SetKeepsTheOthers(entries[1..], name, value);
      }
    }
  }

  lemma {:induction false} RemovingTwice(entries: seq<Entry>, name: string)
    ensures Without(Without(entries, name), name) == Without(entries, name)
  {
    if entries != [] {
      RemovingTwice(entries[1..], name);
      if !Same(entries[0].name, name) {
        assert Without(entries, name)[1..] == Without(entries[1..], name);
      } else {
        assert Without(entries, name) == Without(entries[1..], name);
      }
    }
  }

  /** The values a combining append leaves: one joined on to the first, or one more; a cookie is always one more. */
  lemma {:induction false} CombinedValues(entries: seq<Entry>, name: string, value: string, other: string)
    ensures
      var before := Values(entries, other);
      Values(Combined(entries, name, value), other) ==
      if !Same(name, other) then before
      else if before == [] || name == "set-cookie" then before + [value]
      else [before[0] + ", " + value] + before[1..]
  {
    if entries == [] {
    } else if name == SET_COOKIE {
      AppendedValue(entries, Entry(name, value), other);
    } else {
      var after := Combined(entries, name, value);
      if Same(entries[0].name, name) {
        assert after[1..] == entries[1..];
      } else {
        assert after[1..] == Combined(entries[1..], name, value);
        CombinedValues(entries[1..], name, value, other);
      }
    }
  }

  lemma {:induction false} AppendedValue(entries: seq<Entry>, entry: Entry, other: string)
    ensures Values(entries + [entry], other) ==
      Values(entries, other) + if Same(entry.name, other) then [entry.value] else []
  {
    if entries != [] {
      assert (entries + [entry])[1..] == entries[1..] + [entry];
      AppendedValue(entries[1..], entry, other);
    }
  }

  lemma JoinedBehindTheFirst(first: string, more: seq<string>)
    requires more != []
    ensures Joined([first] + more) == first + ", " + Joined(more)
  {
    assert ([first] + more)[1..] == more;
  }

  lemma FirstWordsCancel(first: string, a: string, b: string)
    ensures first + COMMA + a == first + COMMA + b <==> a == b
  {
    if first + COMMA + a == first + COMMA + b {
      assert a == (first + COMMA + a)[|first| + |COMMA|..];
      assert b == (first + COMMA + b)[|first| + |COMMA|..];
    }
  }

  /**
   * A combining append reads as an appended value exactly when the name had one value at most, or the joined value
   * reads the same before the later ones as after them. A cookie is always one more value.
   */
  lemma CombiningReadsAsAppendingIff(entries: seq<Entry>, name: string, value: string)
    ensures
      var before, after := Values(entries, name), Values(Combined(entries, name, value), name);
      if name == SET_COOKIE then after == before + [value]
      else Joined(after) == Joined(before + [value]) <==>
        |before| <= 1 || Joined([value] + before[1..]) == Joined(before[1..] + [value])
  {
    var before, after := Values(entries, name), Values(Combined(entries, name, value), name);
    CombinedValues(entries, name, value, name);
    if name != SET_COOKIE && |before| > 1 {
      assert before == [before[0]] + before[1..];
      hide Values, Combined, Joined;
      JoiningOntoTheFirst(before[0], before[1..], value);
    }
  }

  lemma JoiningOntoTheFirst(first: string, later: seq<string>, value: string)
    requires later != []
    ensures Joined([first + COMMA + value] + later) == Joined([first] + later + [value]) <==>
      Joined([value] + later) == Joined(later + [value])
  {
    assert [first] + later + [value] == [first] + (later + [value]);
    JoinedBehindTheFirst(first, later + [value]);
    JoinedBehindTheFirst(value, later);
    JoinedBehindTheFirst(first + COMMA + value, later);
    hide Joined;
    assert first + COMMA + value + COMMA + Joined(later) == first + COMMA + (value + COMMA + Joined(later));
    FirstWordsCancel(first, Joined([value] + later), Joined(later + [value]));
  }

  /** Two values that are not the same come out in another order. */
  lemma CombiningReordersDuplicates()
    ensures
      var entries := [Entry("a", "x"), Entry("a", "y")];
      Joined(Values(Combined(entries, "a", "z"), "a")) != Joined(Values(entries, "a") + ["z"])
  {
    var entries := [Entry("a", "x"), Entry("a", "y")];
    CombiningReadsAsAppendingIff(entries, "a", "z");
    assert entries[1..] == [Entry("a", "y")] && Values(entries[1..], "a") == ["y"];
    assert Values(entries, "a") == ["x", "y"] && ["x", "y"][1..] == ["y"];
    JoinedBehindTheFirst("z", ["y"]);
    JoinedBehindTheFirst("y", ["z"]);
    assert Joined(["z"] + ["y"])[0] == 'z' && Joined(["y"] + ["z"])[0] == 'y';
  }

  /** No name but the cookies' is in the list twice. */
  ghost predicate Folded(entries: seq<Entry>) {
    forall name :: Lower(name) != SET_COOKIE ==> |Values(entries, name)| <= 1
  }

  /** Every edit keeps such a list so, and in it every combining append reads as an appended value. */
  lemma FoldedListsStayFolded(entries: seq<Entry>, name: string, value: string)
    requires Folded(entries) && name == Lower(name)
    ensures Folded(Combined(entries, name, value)) && Folded(Put(entries, name, value)) &&
      Folded(Without(entries, name))
    ensures Joined(Values(Combined(entries, name, value), name)) == Joined(Values(entries, name) + [value])
  {
    CombiningReadsAsAppendingIff(entries, name, value);
    LoweringTwice(name);
    forall other | Lower(other) != SET_COOKIE
      ensures |Values(Combined(entries, name, value), other)| <= 1
      ensures |Values(Put(entries, name, value), other)| <= 1 && |Values(Without(entries, name), other)| <= 1
    {
      CombinedValues(entries, name, value, other);
      SetReplaces(entries, name, value, other);
      RemovedIsGone(entries, name, other);
    }
  }

  lemma LoweringTwice(text: string)
    ensures Lower(Lower(text)) == Lower(text)
  {
  }
}
