/**
 * The table of compiled scripts: entries stamped with a clock, against the list of scripts by recency it stands for.
 */
module ScriptCaches {
  import opened Prelude

  type Hash = nat

  type Function = nat

  type HashOf = string -> Hash

  // ---- The list by recency --------------------------------------------------

  datatype Script = Script(source: string, function_: Function)

  /** The hashes in use, least recently used first, and the one script kept under each. */
  datatype Recency = Recency(order: seq<Hash>, scripts: map<Hash, Script>)

  const NOTHING := Recency([], map[])

  datatype Op = Get(source: string) | Put(script: Script)

  function Without(order: seq<Hash>, hash: Hash): (kept: seq<Hash>)
    ensures forall h :: h in kept <==> h in order && h != hash
  {
    if order == [] then []
    else (if order[0] == hash then [] else [order[0]]) + Without(order[1..], hash)
  }

  predicate Hits(scripts: map<Hash, Script>, source: string, hashOf: HashOf) {
    hashOf(source) in scripts && scripts[hashOf(source)].source == source
  }

  function Found(scripts: map<Hash, Script>, source: string, hashOf: HashOf): Option<Function> {
    if Hits(scripts, source, hashOf) then Some(scripts[hashOf(source)].function_) else None
  }

  function Evicted(r: Recency): Recency {
    if r.order == [] then r else Recency(r.order[1..], r.scripts - {r.order[0]})
  }

  /**
   * A script found moves to the end; a script kept goes to the end, in place of its hash's or else of the oldest at the
   * limit.
   */
  function Used(r: Recency, op: Op, limit: nat, hashOf: HashOf): Recency {
    match op
    case Get(source) =>
      if Hits(r.scripts, source, hashOf) then r.(order := Without(r.order, hashOf(source)) + [hashOf(source)]) else r
    case Put(script) =>
      var hash := hashOf(script.source);
      var room := if |r.scripts| >= limit && hash !in r.scripts then Evicted(r) else r;
      Recency(Without(room.order, hash) + [hash], room.scripts[hash := script])
  }

  // ---- The table ------------------------------------------------------------

  datatype Entry = Entry(script: Script, used: nat)

  function Scripts(entries: map<Hash, Entry>): map<Hash, Script> {
    map h | h in entries :: entries[h].script
  }

  /** The order is that of the entries' stamps, none of them later than the clock. */
  ghost predicate Ordered(entries: map<Hash, Entry>, clock: nat, order: seq<Hash>) {
    && (forall h :: h in order <==> h in entries)
    && (forall h :: h in entries ==> entries[h].used <= clock)
    && (forall i, j :: 0 <= i < j < |order| ==> Earlier(entries, order[i], order[j]))
  }

  predicate Earlier(entries: map<Hash, Entry>, a: Hash, b: Hash) {
    a in entries && b in entries && entries[a].used < entries[b].used
  }

  ghost predicate Stands(entries: map<Hash, Entry>, clock: nat, r: Recency) {
    r.scripts == Scripts(entries) && Ordered(entries, clock, r.order)
  }

  class ScriptCache {
    const limit: nat
    const hashOf: HashOf
    var entries: map<Hash, Entry>
    var clock: nat
    /** What the table stands for until its clock runs out. */
    ghost var recency: Recency

    ghost predicate Valid()
      reads this
    {
      && 0 < limit && |entries| <= limit && clock <= U64_MAX
      && forall h :: h in entries ==> hashOf(entries[h].script.source) == h
    }

    constructor (limit: nat, hashOf: HashOf)
      requires limit > 0
      ensures Valid() && this.limit == limit && this.hashOf == hashOf
      ensures clock == 0 && entries == map[] && recency == NOTHING && Stands(entries, clock, recency)
    {
      this.limit, this.hashOf := limit, hashOf;
      entries, clock, recency := map[], 0, NOTHING;
    }

    /** The function kept for this very source. */
    method Get(source: string) returns (found: Option<Function>)
      requires Valid()
      modifies this
      ensures Valid()
      ensures found == Found(Scripts(old(entries)), source, hashOf)
      ensures Scripts(entries) == Scripts(old(entries)) && clock <= old(clock) + 1
      ensures old(clock) < U64_MAX && old(Stands(entries, clock, recency)) ==>
        recency == Used(old(recency), Op.Get(source), limit, hashOf) && Stands(entries, clock, recency)
    {
      hide Ordered;
      var hash := hashOf(source);
      if hash !in entries || entries[hash].script.source != source {
        return None;
      }
      recency := Used(recency, Op.Get(source), limit, hashOf);
      StampingMovesToTheEnd(entries, clock, old(recency).order, hash, entries[hash].script);
      SameSize(entries, hash, Entry(entries[hash].script, if clock < U64_MAX then clock + 1 else U64_MAX));
      clock := if clock < U64_MAX then clock + 1 else U64_MAX;
      found := Some(entries[hash].script.function_);
      entries := entries[hash := entries[hash].(used := clock)];
    }

    method Oldest() returns (oldest: Hash)
      requires entries != map[]
      ensures oldest in entries && forall h :: h in entries ==> entries[oldest].used <= entries[h].used
    {
      var left := entries.Keys;
      assert left != {};
      oldest :| oldest in left;
      while left != {}
        invariant left <= entries.Keys && oldest in entries
        invariant forall h :: h in entries && h !in left ==> entries[oldest].used <= entries[h].used
        decreases left
      {
        var h :| h in left;
        if entries[h].used < entries[oldest].used {
          oldest := h;
        }
        left := left - {h};
      }
    }

    /** At the limit, a script under a new hash takes the slot of the least recently used one. */
    method MakeRoom(hash: Hash)
      requires 0 < limit && |entries| <= limit
      modifies this`entries
      ensures |entries| + (if hash in entries then 0 else 1) <= limit
      ensures forall h :: h in entries ==> h in old(entries) && entries[h] == old(entries)[h]
      ensures
        if |old(entries)| >= limit && hash !in old(entries) then
          old(Stands(entries, clock, recency)) ==> Stands(entries, clock, Evicted(recency))
        else entries == old(entries)
    {
      hide Stands, Evicted;
      if |entries| >= limit && hash !in entries {
        var oldest := Oldest();
        EvictingTheOldest(entries, clock, recency, oldest);
        RemovingOne(entries, oldest);
        entries := entries - {oldest};
      }
    }

    method Put(script: Script)
      requires Valid()
      modifies this
      ensures Valid() && hashOf(script.source) in entries && entries[hashOf(script.source)].script == script
      ensures forall h :: h in entries && h != hashOf(script.source) ==>
        h in old(entries) && entries[h].script == old(entries)[h].script
      ensures clock <= old(clock) + 1
      ensures old(clock) < U64_MAX && old(Stands(entries, clock, recency)) ==>
        recency == Used(old(recency), Op.Put(script), limit, hashOf) && Stands(entries, clock, recency)
    {
      hide Stands, Used, Evicted;
      var hash := hashOf(script.source);
      MakeRoom(hash);
      PuttingStands(old(entries), entries, clock, recency, script, limit, hashOf);
      recency := Used(recency, Op.Put(script), limit, hashOf);
      clock := if clock < U64_MAX then clock + 1 else U64_MAX;
      AddingOne(entries, hash, Entry(script, clock));
      entries := entries[hash := Entry(script, clock)];
    }
  }

  lemma SameSize(entries: map<Hash, Entry>, hash: Hash, e: Entry)
    requires hash in entries
    ensures |entries[hash := e]| == |entries|
    ensures e.script == entries[hash].script ==> Scripts(entries[hash := e]) == Scripts(entries)
  {
    assert entries[hash := e].Keys == entries.Keys;
  }

  lemma RemovingOne(entries: map<Hash, Entry>, hash: Hash)
    requires hash in entries
    ensures |entries - {hash}| == |entries| - 1
  {
    assert (entries - {hash})[hash := entries[hash]] == entries;
  }

  lemma AddingOne(entries: map<Hash, Entry>, hash: Hash, e: Entry)
    ensures |entries[hash := e]| == |entries| + if hash in entries then 0 else 1
  {
    if hash in entries {
      SameSize(entries, hash, e);
    }
  }

  lemma SameNumber(entries: map<Hash, Entry>)
    ensures |Scripts(entries)| == |entries|
  {
    assert Scripts(entries).Keys == entries.Keys;
  }

  lemma ScriptsFollow(entries: map<Hash, Entry>, hash: Hash, e: Entry)
    ensures Scripts(entries[hash := e]) == Scripts(entries)[hash := e.script]
    ensures Scripts(entries - {hash}) == Scripts(entries) - {hash}
  {
  }

  // ---- The table goes on standing for the list ------------------------------

  /** What is left of an order keeps its places. */
  lemma {:induction false} WithoutKeepsPlaces(order: seq<Hash>, hash: Hash, i: nat, j: nat) returns (a: nat, b: nat)
    requires i < j < |Without(order, hash)|
    ensures a < b < |order| && order[a] == Without(order, hash)[i] && order[b] == Without(order, hash)[j]
  {
    var rest := order[1..];
    if order[0] == hash {
      assert Without(order, hash) == Without(rest, hash);
      a, b := WithoutKeepsPlaces(rest, hash, i, j);
      a, b := a + 1, b + 1;
    } else if i == 0 {
      assert Without(order, hash)[j] == Without(rest, hash)[j - 1];
      assert Without(rest, hash)[j - 1] in Without(rest, hash);
      var k :| 0 <= k < |rest| && rest[k] == Without(order, hash)[j];
      a, b := 0, k + 1;
    } else {
      a, b := WithoutKeepsPlaces(rest, hash, i - 1, j - 1);
      a, b := a + 1, b + 1;
    }
  }

  lemma WithoutKeepsOrder(entries: map<Hash, Entry>, order: seq<Hash>, hash: Hash)
    requires forall i, j :: 0 <= i < j < |order| ==> Earlier(entries, order[i], order[j])
    ensures
      var kept := Without(order, hash);
      forall i, j :: 0 <= i < j < |kept| ==> Earlier(entries, kept[i], kept[j])
  {
    hide Earlier;
    var kept := Without(order, hash);
    forall i, j | 0 <= i < j < |kept| ensures Earlier(entries, kept[i], kept[j]) {
      var a, b := WithoutKeepsPlaces(order, hash, i, j);
    }
  }

  lemma EarlierStill(entries: map<Hash, Entry>, clock: nat, hash: Hash, script: Script, a: Hash)
    requires a in entries && a != hash && entries[a].used <= clock
    ensures Earlier(entries[hash := Entry(script, clock + 1)], a, hash)
    ensures forall b :: b != hash && Earlier(entries, a, b) ==> Earlier(entries[hash := Entry(script, clock + 1)], a, b)
  {
  }

  /** Stamping one hash with a later time moves it to the end of the order. */
  lemma StampingMovesToTheEnd(entries: map<Hash, Entry>, clock: nat, order: seq<Hash>, hash: Hash, script: Script)
    ensures Ordered(entries, clock, order) ==>
      Ordered(entries[hash := Entry(script, clock + 1)], clock + 1, Without(order, hash) + [hash])
  {
    if Ordered(entries, clock, order) {
      var kept := Without(order, hash);
      var after, moved := entries[hash := Entry(script, clock + 1)], kept + [hash];
      WithoutKeepsOrder(entries, order, hash);
      hide Without, Earlier;
      assert forall h :: h in moved <==> h in kept || h == hash;
      forall i, j | 0 <= i < j < |moved| ensures Earlier(after, moved[i], moved[j]) {
        assert moved[i] == kept[i] && kept[i] in kept;
        EarlierStill(entries, clock, hash, script, kept[i]);
        if j < |kept| {
          assert moved[j] == kept[j] && kept[j] in kept;
          assert Earlier(entries, kept[i], kept[j]) && kept[j] != hash;
        } else {
          assert j == |kept| && moved[|kept|] == hash;
        }
      }
    }
  }

  /** The entry with the least stamp is the first in the order. */
  lemma EvictingTheOldest(entries: map<Hash, Entry>, clock: nat, r: Recency, oldest: Hash)
    requires oldest in entries && forall h :: h in entries ==> entries[oldest].used <= entries[h].used
    ensures Stands(entries, clock, r) ==>
      r.order != [] && r.order[0] == oldest && Stands(entries - {oldest}, clock, Evicted(r))
  {
    if Stands(entries, clock, r) {
      var order := r.order;
      var k :| 0 <= k < |order| && order[k] == oldest;
      assert order[0] in order && forall j :: 0 < j < |order| ==> Earlier(entries, order[0], order[j]);
      assert k == 0;
      ScriptsFollow(entries, oldest, entries[oldest]);
      var fewer, rest := entries - {oldest}, order[1..];
      forall h ensures h in rest <==> h in fewer {
        if h in rest {
          var j :| 0 <= j < |rest| && rest[j] == h;
          assert order[j + 1] == h && h in order;
        }
        if h in fewer {
          var j :| 0 <= j < |order| && order[j] == h;
          assert rest[j - 1] == h;
        }
      }
      forall i, j | 0 <= i < j < |rest| ensures Earlier(fewer, rest[i], rest[j]) {
        assert rest[i] in rest && rest[j] in rest && rest[i] == order[i + 1] && rest[j] == order[j + 1];
      }
    }
  }

  lemma PuttingStands(before: map<Hash, Entry>, room: map<Hash, Entry>, clock: nat, r: Recency, script: Script,
                      limit: nat, hashOf: HashOf)
    requires
      if |before| >= limit && hashOf(script.source) !in before then
        Stands(before, clock, r) ==> Stands(room, clock, Evicted(r))
      else room == before
    ensures Stands(before, clock, r) ==>
      Stands(room[hashOf(script.source) := Entry(script, clock + 1)], clock + 1, Used(r, Op.Put(script), limit, hashOf))
  {
    hide Ordered, Evicted, Without;
    if Stands(before, clock, r) {
      var hash := hashOf(script.source);
      SameNumber(before);
      ScriptsFollow(room, hash, Entry(script, clock + 1));
      StampingMovesToTheEnd(
        room, clock, (if |before| >= limit && hash !in before then Evicted(r) else r).order, hash, script);
    }
  }

  // ---- What the list promises -----------------------------------------------

  /** What a table built with this limit stands for after these calls. */
  function After(ops: seq<Op>, limit: nat, hashOf: HashOf): Recency
    decreases |ops|
  {
    if ops == [] then NOTHING else Used(After(ops[..|ops| - 1], limit, hashOf), ops[|ops| - 1], limit, hashOf)
  }

  /** What was last kept for a source. */
  function LastPut(ops: seq<Op>, source: string): Option<Script>
    decreases |ops|
  {
    if ops == [] then None
    else
      var last := ops[|ops| - 1];
      if last.Put? && last.script.source == source then Some(last.script) else LastPut(ops[..|ops| - 1], source)
  }

  /** One place in the order for each script. */
  ghost predicate OneEach(r: Recency) {
    && (forall h :: h in r.order <==> h in r.scripts)
    && (forall i, j :: 0 <= i < j < |r.order| ==> r.order[i] != r.order[j])
  }

  lemma MovingIsDistinct(r: Recency, hash: Hash, script: Script)
    requires OneEach(r)
    ensures OneEach(Recency(Without(r.order, hash) + [hash], r.scripts[hash := script]))
  {
    var kept := Without(r.order, hash);
    var moved := kept + [hash];
    hide Without;
    forall i, j | 0 <= i < j < |moved| ensures moved[i] != moved[j] {
      if j < |kept| {
        var a, b := WithoutKeepsPlaces(r.order, hash, i, j);
      } else {
        assert moved[i] == kept[i] && kept[i] in kept;
      }
    }
    assert forall h :: h in moved <==> h in kept || h == hash;
  }

  lemma RestOfOrder(order: seq<Hash>)
    requires order != [] && forall i, j :: 0 <= i < j < |order| ==> order[i] != order[j]
    ensures forall h :: h in order[1..] <==> h in order && h != order[0]
  {
    var rest := order[1..];
    assert order == [order[0]] + rest;
    forall h | h in rest ensures h != order[0] {
      var j :| 0 <= j < |rest| && rest[j] == h;
      assert order[j + 1] == h;
    }
  }

  lemma RestIsOneEach(order: seq<Hash>, scripts: map<Hash, Script>)
    requires OneEach(Recency(order, scripts)) && order != []
    ensures OneEach(Recency(order[1..], scripts - {order[0]}))
  {
    RestOfOrder(order);
    var rest := order[1..];
    forall i, j | 0 <= i < j < |rest| ensures rest[i] != rest[j] {
      assert rest[i] == order[i + 1] && rest[j] == order[j + 1];
    }
  }

  lemma EvictingIsDistinct(r: Recency)
    requires OneEach(r) && r.scripts != map[]
    ensures r.order != [] && r.order[0] in r.scripts && OneEach(Evicted(r)) && |Evicted(r).scripts| == |r.scripts| - 1
  {
    var some :| some in r.scripts;
    assert some in r.order;
    assert r.order[0] in r.order;
    RestIsOneEach(r.order, r.scripts);
    FewerScripts(r.scripts, r.order[0]);
    hide OneEach;
  }

  lemma FewerScripts(scripts: map<Hash, Script>, hash: Hash)
    requires hash in scripts
    ensures |scripts - {hash}| == |scripts| - 1
  {
    assert (scripts - {hash})[hash := scripts[hash]] == scripts;
  }

  lemma MoreScripts(scripts: map<Hash, Script>, hash: Hash, script: Script)
    ensures |scripts[hash := script]| == |scripts| + if hash in scripts then 0 else 1
    ensures hash in scripts && scripts[hash] == script ==> scripts[hash := script] == scripts
  {
    if hash in scripts {
      assert scripts[hash := script].Keys == scripts.Keys;
    }
  }

  lemma UsingKeepsTheBound(r: Recency, op: Op, limit: nat, hashOf: HashOf)
    requires OneEach(r) && |r.scripts| <= limit && 0 < limit
    ensures OneEach(Used(r, op, limit, hashOf)) && |Used(r, op, limit, hashOf).scripts| <= limit
  {
    match op
    case Get(source) =>
      if Hits(r.scripts, source, hashOf) {
        var hash := hashOf(source);
        hide Without, OneEach;
        MoreScripts(r.scripts, hash, r.scripts[hash]);
        MovingIsDistinct(r, hash, r.scripts[hash]);
      }
    case Put(script) =>
      var hash := hashOf(script.source);
      var evict := |r.scripts| >= limit && hash !in r.scripts;
      var room := if evict then Evicted(r) else r;
      if evict {
        EvictingIsDistinct(r);
      }
      hide Without, OneEach, Evicted;
      MovingIsDistinct(room, hash, script);
      MoreScripts(room.scripts, hash, script);
  }

  /**
   * Under any hash function, however its hashes collide: never more than the limit is kept, and whatever is found for a
   * source is what was last kept for that very source.
   */
  lemma {:induction false} OnlyTheSourcesOwn(ops: seq<Op>, limit: nat, hashOf: HashOf)
    requires 0 < limit
    ensures
      var r := After(ops, limit, hashOf);
      && OneEach(r) && |r.scripts| <= limit
      && forall h :: h in r.scripts ==>
           hashOf(r.scripts[h].source) == h && LastPut(ops, r.scripts[h].source) == Some(r.scripts[h])
    decreases |ops|
  {
    if ops != [] {
      var before, op := ops[..|ops| - 1], ops[|ops| - 1];
      OnlyTheSourcesOwn(before, limit, hashOf);
      UsingKeepsTheBound(After(before, limit, hashOf), op, limit, hashOf);
    }
  }

  function HashUsed(op: Op, hashOf: HashOf): Hash {
    match op
    case Get(source) => hashOf(source)
    case Put(script) => hashOf(script.source)
  }

  /** Only these hashes come after this one in the order. */
  ghost predicate Behind(order: seq<Hash>, hash: Hash, hashes: set<Hash>) {
    exists k :: 0 <= k < |order| && order[k] == hash && forall j :: k < j < |order| ==> order[j] in hashes
  }

  lemma {:induction false} FewAreBehind(order: seq<Hash>, k: nat, hashes: set<Hash>)
    requires k <= |order| && forall i, j :: 0 <= i < j < |order| ==> order[i] != order[j]
    requires forall j :: k <= j < |order| ==> order[j] in hashes
    ensures |order| - k <= |hashes|
    decreases |order| - k
  {
    if k < |order| {
      FewAreBehind(order, k + 1, hashes - {order[k]});
    }
  }

  lemma {:induction false} MovingLeavesBehind(order: seq<Hash>, hash: Hash, moved: Hash, hashes: set<Hash>)
    requires Behind(order, hash, hashes) && hash != moved && moved in hashes
    ensures Behind(Without(order, moved) + [moved], hash, hashes)
  {
    var k :| 0 <= k < |order| && order[k] == hash && forall j :: k < j < |order| ==> order[j] in hashes;
    var rest := order[1..];
    var after := Without(rest, moved) + [moved];
    if k == 0 {
      forall h | h in after ensures h in hashes {
        if h != moved {
          var j :| 0 <= j < |rest| && rest[j] == h;
          assert order[j + 1] == h;
        }
      }
      assert Without(order, moved) + [moved] == [hash] + after;
      assert forall j :: 0 < j < |[hash] + after| ==> ([hash] + after)[j] in after;
      assert ([hash] + after)[0] == hash;
    } else {
      assert rest[k - 1] == hash && forall j :: k - 1 < j < |rest| ==> rest[j] == order[j + 1];
      MovingLeavesBehind(rest, hash, moved, hashes);
      var front := if order[0] == moved then [] else [order[0]];
      assert Without(order, moved) + [moved] == front + after;
      var m :| 0 <= m < |after| && after[m] == hash && forall j :: m < j < |after| ==> after[j] in hashes;
      assert (front + after)[|front| + m] == hash;
    }
  }

  lemma {:induction false} DistinctOrderCounts(order: seq<Hash>, scripts: map<Hash, Script>)
    requires OneEach(Recency(order, scripts))
    ensures |order| == |scripts|
    decreases |order|
  {
    if order == [] {
      assert scripts.Keys == {};
    } else {
      var r := Recency(order, scripts);
      assert order[0] in scripts;
      EvictingIsDistinct(r);
      DistinctOrderCounts(order[1..], scripts - {order[0]});
    }
  }

  /** At the limit, with fewer hashes behind it than the limit, a script is not the one evicted. */
  lemma NotTheOldest(r: Recency, hash: Hash, used: Hash, hashes: set<Hash>, limit: nat)
    requires OneEach(r) && |r.scripts| >= limit > 0 && Behind(r.order, hash, hashes)
    requires used in hashes && used !in r.scripts && |hashes| < limit
    ensures r.order != [] && r.order[0] != hash && Behind(Evicted(r).order, hash, hashes)
  {
    var k :| 0 <= k < |r.order| && r.order[k] == hash && forall j :: k < j < |r.order| ==> r.order[j] in hashes;
    DistinctOrderCounts(r.order, r.scripts);
    forall j | k < j < |r.order| ensures r.order[j] in hashes - {used} {
      assert r.order[j] in r.order;
    }
    FewAreBehind(r.order, k + 1, hashes - {used});
    assert k > 0;
    assert Evicted(r).order[k - 1] == hash;
  }

  lemma UsingLeavesBehind(r: Recency, script: Script, op: Op, hashes: set<Hash>, limit: nat, hashOf: HashOf)
    requires OneEach(r) && hashOf(script.source) in r.scripts && r.scripts[hashOf(script.source)] == script
    requires Behind(r.order, hashOf(script.source), hashes)
    requires HashUsed(op, hashOf) in hashes && hashOf(script.source) !in hashes && |hashes| < limit
    ensures
      var after, hash := Used(r, op, limit, hashOf), hashOf(script.source);
      Behind(after.order, hash, hashes) && hash in after.scripts && after.scripts[hash] == script
  {
    var hash, used := hashOf(script.source), HashUsed(op, hashOf);
    hide Behind, Without, OneEach;
    MovingLeavesBehind(r.order, hash, used, hashes);
    if op.Put? && |r.scripts| >= limit && used !in r.scripts {
      NotTheOldest(r, hash, used, hashes, limit);
      MovingLeavesBehind(Evicted(r).order, hash, used, hashes);
    }
  }

  /** A script just kept is found, whatever calls on fewer than `limit` other hashes come in between. */
  lemma {:induction false} RecentScriptsStay(
    ops: seq<Op>, script: Script, later: seq<Op>, hashes: set<Hash>, limit: nat, hashOf: HashOf)
    requires 0 < limit && hashOf(script.source) !in hashes && |hashes| < limit
    requires forall op :: op in later ==> HashUsed(op, hashOf) in hashes
    ensures
      var r := After(ops + [Put(script)] + later, limit, hashOf);
      Hits(r.scripts, script.source, hashOf) && r.scripts[hashOf(script.source)] == script &&
      Behind(r.order, hashOf(script.source), hashes)
    decreases |later|
  {
    hide Used, Behind, OneEach;
    var all := ops + [Put(script)] + later;
    if later == [] {
      assert all == ops + [Put(script)] && all[..|all| - 1] == ops;
      JustPutIsLast(After(ops, limit, hashOf), script, hashes, limit, hashOf);
    } else {
      var fewer := later[..|later| - 1];
      assert all[..|all| - 1] == ops + [Put(script)] + fewer;
      RecentScriptsStay(ops, script, fewer, hashes, limit, hashOf);
      OnlyTheSourcesOwn(all[..|all| - 1], limit, hashOf);
      UsingLeavesBehind(After(all[..|all| - 1], limit, hashOf), script, later[|later| - 1], hashes, limit, hashOf);
    }
  }

  lemma JustPutIsLast(r: Recency, script: Script, hashes: set<Hash>, limit: nat, hashOf: HashOf)
    ensures
      var after, hash := Used(r, Put(script), limit, hashOf), hashOf(script.source);
      Behind(after.order, hash, hashes) && hash in after.scripts && after.scripts[hash] == script
  {
    var order := Used(r, Put(script), limit, hashOf).order;
    assert order[|order| - 1] == hashOf(script.source);
  }

  // ---- A table over all its calls -------------------------------------------

  /** What the list by recency answers to each `Get` among these calls. */
  function Answers(ops: seq<Op>, limit: nat, hashOf: HashOf): seq<Option<Function>>
    decreases |ops|
  {
    if ops == [] then []
    else
      var before, last := ops[..|ops| - 1], ops[|ops| - 1];
      Answers(before, limit, hashOf) +
      if last.Get? then [Found(After(before, limit, hashOf).scripts, last.source, hashOf)] else []
  }

  /** One answer to each `Get`, and never a function other than the one last kept for its very source. */
  predicate OwnAnswers(ops: seq<Op>, answers: seq<Option<Function>>)
    decreases |ops|
  {
    if ops == [] then answers == []
    else
      var before, last := ops[..|ops| - 1], ops[|ops| - 1];
      if last.Put? then OwnAnswers(before, answers)
      else
        && answers != [] && OwnAnswers(before, answers[..|answers| - 1])
        && var answer := answers[|answers| - 1];
           answer.Some? ==> LastPut(before, last.source) == Some(Script(last.source, answer.value))
  }

  /** Every script kept is the one last kept for its source. */
  ghost predicate KeepsTheLast(entries: map<Hash, Entry>, ops: seq<Op>) {
    forall h :: h in entries ==> LastPut(ops, entries[h].script.source) == Some(entries[h].script)
  }

  lemma OneMoreCall(ops: seq<Op>, i: nat)
    requires i < |ops|
    ensures ops[..i + 1] != [] && ops[..i + 1][|ops[..i + 1]| - 1] == ops[i] &&
      ops[..i + 1][..|ops[..i + 1]| - 1] == ops[..i]
  {
  }

  /** A table after the first `i` calls, and what it has answered. */
  ghost predicate SoFar(entries: map<Hash, Entry>, clock: nat, r: Recency, ops: seq<Op>, i: nat,
                        answers: seq<Option<Function>>, limit: nat, hashOf: HashOf) {
    && i <= |ops| && clock <= i
    && KeepsTheLast(entries, ops[..i]) && OwnAnswers(ops[..i], answers)
    && (|ops| <= U64_MAX ==>
          Stands(entries, clock, r) && r == After(ops[..i], limit, hashOf) &&
            answers == Answers(ops[..i], limit, hashOf))
  }

  /**
   * One `Get` more: what it answered is the list's answer while the table stands for the list, and the source's own.
   */
  lemma GettingGoesOn(
      was: map<Hash, Entry>, clock: nat, r: Recency, entries: map<Hash, Entry>, clock': nat, r': Recency,
                      ops: seq<Op>, i: nat, answers: seq<Option<Function>>, found: Option<Function>, limit: nat,
                      hashOf: HashOf)
    requires i < |ops| && ops[i].Get? && SoFar(was, clock, r, ops, i, answers, limit, hashOf)
    requires Scripts(entries) == Scripts(was) && found == Found(Scripts(was), ops[i].source, hashOf) &&
      clock' <= clock + 1
    requires clock < U64_MAX && Stands(was, clock, r) ==>
      r' == Used(r, ops[i], limit, hashOf) && Stands(entries, clock', r')
    ensures SoFar(entries, clock', r', ops, i + 1, answers + [found], limit, hashOf)
  {
    OneMoreCall(ops, i);
    GettingKeepsTheLast(was, entries, ops[..i], ops[..i + 1]);
    hide Used, Ordered;
    assert found.Some? ==> was[hashOf(ops[i].source)].script == Script(ops[i].source, found.value);
    assert (answers + [found])[..|answers|] == answers;
  }

  /** One `Put` more: it keeps its script, and every other hash keeps its own. */
  lemma PuttingGoesOn(
      was: map<Hash, Entry>, clock: nat, r: Recency, entries: map<Hash, Entry>, clock': nat, r': Recency,
                      ops: seq<Op>, i: nat, answers: seq<Option<Function>>, limit: nat, hashOf: HashOf)
    requires i < |ops| && ops[i].Put? && SoFar(was, clock, r, ops, i, answers, limit, hashOf)
    requires clock' <= clock + 1
    requires forall h :: h in entries ==> hashOf(entries[h].script.source) == h
    requires var hash := hashOf(ops[i].script.source); hash in entries && entries[hash].script == ops[i].script
    requires forall h :: h in entries && h != hashOf(ops[i].script.source) ==>
      h in was && entries[h].script == was[h].script
    requires clock < U64_MAX && Stands(was, clock, r) ==>
      r' == Used(r, ops[i], limit, hashOf) && Stands(entries, clock', r')
    ensures SoFar(entries, clock', r', ops, i + 1, answers, limit, hashOf)
  {
    OneMoreCall(ops, i);
    hide Used, Stands;
  }

  lemma NothingSoFar(ops: seq<Op>, limit: nat, hashOf: HashOf)
    ensures SoFar(map[], 0, NOTHING, ops, 0, [], limit, hashOf)
  {
    assert ops[..0] == [];
  }

  lemma AllAnswered(entries: map<Hash, Entry>, clock: nat, r: Recency, ops: seq<Op>, answers: seq<Option<Function>>,
                    limit: nat, hashOf: HashOf)
    requires SoFar(entries, clock, r, ops, |ops|, answers, limit, hashOf)
    ensures |ops| <= U64_MAX ==> answers == Answers(ops, limit, hashOf)
    ensures OwnAnswers(ops, answers)
  {
    assert ops[..|ops|] == ops;
  }

  /**
   * A table answers every call as the list by recency does, for as long as its clock does not run out; and it answers
   * with the source's own function or not at all even after that.
   */
  method RunScripts(ops: seq<Op>, limit: nat, hashOf: HashOf) returns (answers: seq<Option<Function>>)
    requires 0 < limit
    ensures |ops| <= U64_MAX ==> answers == Answers(ops, limit, hashOf)
    ensures OwnAnswers(ops, answers)
  {
    hide Used, Stands, SoFar, Scripts, Found, Answers, OwnAnswers;
    var cache := new ScriptCache(limit, hashOf);
    answers := [];
    NothingSoFar(ops, limit, hashOf);
    for i := 0 to |ops|
      invariant fresh(cache) && cache.limit == limit && cache.hashOf == hashOf && cache.Valid()
      invariant SoFar(cache.entries, cache.clock, cache.recency, ops, i, answers, limit, hashOf)
    {
      ghost var was, clock, recency := cache.entries, cache.clock, cache.recency;
      match ops[i] {
        case Get(source) =>
          var found := cache.Get(source);
          GettingGoesOn(was, clock, recency, cache.entries, cache.clock, cache.recency, ops, i, answers, found, limit,
                        hashOf);
          answers := answers + [found];
        case Put(script) =>
          cache.Put(script);
          PuttingGoesOn(was, clock, recency, cache.entries, cache.clock, cache.recency, ops, i, answers, limit, hashOf);
      }
    }
    AllAnswered(cache.entries, cache.clock, cache.recency, ops, answers, limit, hashOf);
  }

  lemma GettingKeepsTheLast(was: map<Hash, Entry>, entries: map<Hash, Entry>, before: seq<Op>, ops: seq<Op>)
    requires Scripts(entries) == Scripts(was) && KeepsTheLast(was, before)
    requires ops != [] && ops[..|ops| - 1] == before && ops[|ops| - 1].Get?
    ensures KeepsTheLast(entries, ops)
  {
    forall h | h in entries ensures LastPut(ops, entries[h].script.source) == Some(entries[h].script) {
      assert h in Scripts(entries) && h in was && entries[h].script == was[h].script;
    }
  }
}
