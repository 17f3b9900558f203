// Tables and levels as values: what a lookup in one level, or in all levels from some depth on, sees. Also
// the list operations of a level (insertion in order, replacement of a run of tables, sorting by key or by
// id) and what they keep.
module Tables {
  import opened Base

  datatype Table = Table(id: nat, smallest: Key, biggest: Key, kvs: map<Key, ValueStruct>, size: nat)

  /** Every key of the table lies in its range. A flushed table may have a wider range than its user
      keys, because the flusher adds the internal head key. */
  ghost predicate GoodTable(t: Table) {
    && t.smallest <= t.biggest
    && forall k :: k in t.kvs ==> t.smallest <= k <= t.biggest && t.kvs[k].casCounter > 0
  }

  /** The ends of the range are keys of the table, as for every table a compaction builds. */
  ghost predicate ExactTable(t: Table) {
    GoodTable(t) && t.smallest in t.kvs && t.biggest in t.kvs
  }

  predicate Meets(t: Table, lo: Key, hi: Key) {
    t.smallest <= hi && lo <= t.biggest
  }

  /** The shape of every level >= 1. */
  ghost predicate SortedDisjoint(ts: seq<Table>) {
    && (forall i :: 0 <= i < |ts| ==> ts[i].smallest <= ts[i].biggest)
    && forall i, j :: 0 <= i < j < |ts| ==> ts[i].biggest < ts[j].smallest
  }

  ghost predicate DistinctIds(ts: seq<Table>) {
    forall i, j :: 0 <= i < j < |ts| ==> ts[i].id != ts[j].id
  }

  function Ids(ts: seq<Table>): (ids: set<nat>)
    ensures forall t :: t in ts ==> t.id in ids
    ensures forall id :: id in ids ==> exists t :: t in ts && t.id == id
  {
    set t | t in ts :: t.id
  }

  // ----- ranges of sequences of tables (KeyRange::get_range) -----

  function Lo(ts: seq<Table>): (lo: Key)
    requires ts != []
    ensures forall t :: t in ts ==> lo <= t.smallest
  {
    if |ts| == 1 then ts[0].smallest else
      assert ts == [ts[0]] + ts[1..];
      Min(ts[0].smallest, Lo(ts[1..]))
  }

  function Hi(ts: seq<Table>): (hi: Key)
    requires ts != []
    ensures forall t :: t in ts ==> t.biggest <= hi
  {
    if |ts| == 1 then ts[0].biggest else
      assert ts == [ts[0]] + ts[1..];
      Max(ts[0].biggest, Hi(ts[1..]))
  }

  lemma {:induction false} LoAttained(ts: seq<Table>) returns (t: Table)
    requires ts != []
    ensures t in ts && t.smallest == Lo(ts)
  {
    t := ts[0];
    if |ts| > 1 {
      var u := LoAttained(ts[1..]);
      if Lo(ts) != t.smallest { t := u; }
    }
  }

  lemma {:induction false} HiAttained(ts: seq<Table>) returns (t: Table)
    requires ts != []
    ensures t in ts && t.biggest == Hi(ts)
  {
    t := ts[0];
    if |ts| > 1 {
      var u := HiAttained(ts[1..]);
      if Hi(ts) != t.biggest { t := u; }
    }
  }

  // ----- lookups -----

  /** What a level answers for a key: the value in the last table of the sequence that holds it
      (newest first in level 0; in a disjoint level at most one table holds the key). */
  function LevelGet(ts: seq<Table>, k: Key): Option<ValueStruct> {
    if ts == [] then None
    else
      var last := ts[|ts| - 1];
      if k in last.kvs then Some(last.kvs[k]) else LevelGet(ts[..|ts| - 1], k)
  }

  /** The version a level holds for a key; 0 if it holds none. */
  function LevelVer(ts: seq<Table>, k: Key): (v: nat) {
    var r := LevelGet(ts, k);
    if r.Some? then r.value.casCounter else 0
  }

  /** The newest version of a key in the levels from depth i on; 0 if there is none. */
  function DeepVer(levels: seq<seq<Table>>, i: nat, k: Key): (v: nat)
    decreases |levels| - i
  {
    if i >= |levels| then 0 else Max(LevelVer(levels[i], k), DeepVer(levels, i + 1, k))
  }

  /** LevelsController::get: the first level, from depth i on, that holds the key answers. */
  function LevelsGet(levels: seq<seq<Table>>, i: nat, k: Key): (r: Option<ValueStruct>)
    decreases |levels| - i
  {
    if i >= |levels| then None
    else
      var r := LevelGet(levels[i], k);
      if r.Some? then r else LevelsGet(levels, i + 1, k)
  }

  /** The table that answers. */
  lemma {:induction false} Holder(ts: seq<Table>, k: Key) returns (t: Table)
    requires LevelGet(ts, k).Some?
    ensures t in ts && k in t.kvs && LevelGet(ts, k) == Some(t.kvs[k])
  {
    t := ts[|ts| - 1];
    if k !in t.kvs { t := Holder(ts[..|ts| - 1], k); }
  }

  /** A level that holds a key answers it. */
  lemma {:induction false} Answers(ts: seq<Table>, t: Table, k: Key)
    requires t in ts && k in t.kvs
    ensures LevelGet(ts, k).Some?
  {
    var last := ts[|ts| - 1];
    if k !in last.kvs {
      assert ts == ts[..|ts| - 1] + [last];
      Answers(ts[..|ts| - 1], t, k);
    }
  }

  /** A table that holds the key beats the ones before it. */
  lemma {:induction false} LevelGetSplit(a: seq<Table>, b: seq<Table>, k: Key)
    ensures LevelGet(a + b, k) == if LevelGet(b, k).Some? then LevelGet(b, k) else LevelGet(a, k)
  {
    if b == [] {
      assert a + b == a;
    } else {
      var last := b[|b| - 1];
      assert (a + b)[..|a + b| - 1] == a + b[..|b| - 1];
      LevelGetSplit(a, b[..|b| - 1], k);
    }
  }

  /** In a disjoint level the answer does not depend on the order of the tables. */
  lemma DisjointGet(ts: seq<Table>, t: Table, k: Key)
    requires SortedDisjoint(ts) && t in ts && k in t.kvs
    requires forall u :: u in ts ==> GoodTable(u)
    ensures LevelGet(ts, k) == Some(t.kvs[k])
  {
    Answers(ts, t, k);
    var u := Holder(ts, k);
    SameTable(ts, t, u, k);
  }

  lemma SameTable(ts: seq<Table>, t: Table, u: Table, p: Key)
    requires SortedDisjoint(ts) && t in ts && u in ts
    requires t.smallest <= p <= t.biggest && u.smallest <= p <= u.biggest
    ensures t == u
  {
    var i :| 0 <= i < |ts| && ts[i] == t;
    var j :| 0 <= j < |ts| && ts[j] == u;
  }

  /** Tables that meet in a disjoint level are the same table. */
  lemma MeetSame(ts: seq<Table>, t: Table, u: Table)
    requires SortedDisjoint(ts) && t in ts && u in ts
    requires Meets(t, u.smallest, u.biggest)
    ensures t == u
  {
    var i :| 0 <= i < |ts| && ts[i] == t;
    var j :| 0 <= j < |ts| && ts[j] == u;
  }

  lemma {:induction false} DeepVerFrame(a: seq<seq<Table>>, b: seq<seq<Table>>, i: nat, k: Key)
    requires |a| == |b| && forall j :: i <= j < |a| ==> LevelVer(a[j], k) == LevelVer(b[j], k)
    ensures DeepVer(a, i, k) == DeepVer(b, i, k)
    decreases |a| - i
  {
    if i < |a| { DeepVerFrame(a, b, i + 1, k); }
  }

  /** A level is no newer than the levels from any depth above it. */
  lemma {:induction false} DeepVerBound(levels: seq<seq<Table>>, i: nat, j: nat, k: Key)
    requires i <= j < |levels|
    ensures LevelVer(levels[j], k) <= DeepVer(levels, i, k)
    decreases j - i
  {
    if i < j { DeepVerBound(levels, i + 1, j, k); }
  }

  /** Replacing what one level answers changes the depth maxima above it accordingly. */
  lemma {:induction false} DeepVerChange(a: seq<seq<Table>>, b: seq<seq<Table>>, l: nat, i: nat, k: Key)
    requires |a| == |b| && i <= l < |a|
    requires forall j :: 0 <= j < l ==> LevelVer(a[j], k) == LevelVer(b[j], k)
    requires Max(LevelVer(a[l], k), DeepVer(a, l + 1, k)) == Max(LevelVer(b[l], k), DeepVer(b, l + 1, k))
    ensures DeepVer(a, i, k) == DeepVer(b, i, k)
    decreases l - i
  {
    if i < l { DeepVerChange(a, b, l, i + 1, k); }
  }

  // ----- sorting a level by smallest key -----

  function Insert(ts: seq<Table>, t: Table): seq<Table> {
    if ts == [] then [t]
    else if ts[|ts| - 1].smallest <= t.smallest then ts + [t]
    else Insert(ts[..|ts| - 1], t) + [ts[|ts| - 1]]
  }

  /** The stable sort by smallest key of level_handler.rs. */
  function SortBySmallest(ts: seq<Table>): seq<Table> {
    if ts == [] then []
    else Insert(SortBySmallest(ts[..|ts| - 1]), ts[|ts| - 1])
  }

  lemma SplitLast(ts: seq<Table>)
    requires ts != []
    ensures multiset(ts) == multiset(ts[..|ts| - 1]) + multiset{ts[|ts| - 1]}
  {
    assert ts == ts[..|ts| - 1] + [ts[|ts| - 1]];
  }

  lemma {:induction false} InsertIn(ts: seq<Table>, t: Table)
    ensures forall u :: u in Insert(ts, t) <==> u in ts || u == t
  {
    if ts != [] && ts[|ts| - 1].smallest > t.smallest {
      InsertIn(ts[..|ts| - 1], t);
      assert ts == ts[..|ts| - 1] + [ts[|ts| - 1]];
    }
  }

  lemma {:induction false} InsertElements(ts: seq<Table>, t: Table)
    ensures multiset(Insert(ts, t)) == multiset(ts) + multiset{t}
  {
    if ts != [] && ts[|ts| - 1].smallest > t.smallest {
      InsertElements(ts[..|ts| - 1], t);
      SplitLast(ts);
    }
  }

  lemma {:induction false} SortElements(ts: seq<Table>)
    ensures multiset(SortBySmallest(ts)) == multiset(ts)
  {
    if ts != [] {
      var front, last := ts[..|ts| - 1], ts[|ts| - 1];
      assert SortBySmallest(ts) == Insert(SortBySmallest(front), last);
      SortElements(front);
      InsertElements(SortBySmallest(front), last);
      SplitLast(ts);
    }
  }

  ghost predicate Apart(t: Table, u: Table) {
    t.biggest < u.smallest || u.biggest < t.smallest
  }

  ghost predicate PairwiseApart(ts: seq<Table>) {
    && (forall i :: 0 <= i < |ts| ==> ts[i].smallest <= ts[i].biggest)
    && forall i, j :: 0 <= i < j < |ts| ==> Apart(ts[i], ts[j])
  }

  lemma SameElements(a: seq<Table>, b: seq<Table>)
    requires multiset(a) == multiset(b)
    ensures |a| == |b| && forall t :: t in a <==> t in b
  {
    assert |multiset(a)| == |a| && |multiset(b)| == |b|;
    forall t ensures t in a <==> t in b {
      assert t in a <==> t in multiset(a);
      assert t in b <==> t in multiset(b);
    }
  }

  lemma SortedAppend(ts: seq<Table>, last: Table)
    requires SortedDisjoint(ts) && last.smallest <= last.biggest
    requires forall t :: t in ts ==> t.biggest < last.smallest
    ensures SortedDisjoint(ts + [last])
  {
  }

  lemma FrontBefore(ts: seq<Table>)
    requires SortedDisjoint(ts) && ts != []
    ensures SortedDisjoint(ts[..|ts| - 1])
    ensures forall u :: u in ts[..|ts| - 1] ==> u.biggest < ts[|ts| - 1].smallest
  {
  }

  lemma BeforeAll(ts: seq<Table>, t: Table)
    requires SortedDisjoint(ts) && ts != [] && ts[|ts| - 1].biggest < t.smallest
    ensures forall u :: u in ts ==> u.biggest < t.smallest
  {
  }

  lemma {:induction false} InsertSorts(ts: seq<Table>, t: Table)
    requires SortedDisjoint(ts) && t.smallest <= t.biggest
    requires forall u :: u in ts ==> Apart(t, u)
    ensures SortedDisjoint(Insert(ts, t))
  {
    if ts != [] {
      var front, last := ts[..|ts| - 1], ts[|ts| - 1];
      assert Apart(t, last) by { assert last in ts; }
      if last.smallest > t.smallest {
        InsertSorts(front, t);
        InsertIn(front, t);
        FrontBefore(ts);
        SortedAppend(Insert(front, t), last);
      } else {
        FrontBefore(ts);
        BeforeAll(ts, t);
        SortedAppend(ts, t);
      }
    }
  }

  /** Sorting pairwise apart tables gives a sorted disjoint level with the same tables. */
  lemma {:induction false} SortSorts(ts: seq<Table>)
    requires PairwiseApart(ts)
    ensures SortedDisjoint(SortBySmallest(ts))
    ensures forall t :: t in SortBySmallest(ts) <==> t in ts
  {
    SortElements(ts);
    SameElements(SortBySmallest(ts), ts);
    if ts != [] {
      var front := ts[..|ts| - 1];
      SortSorts(front);
      InsertSorts(SortBySmallest(front), ts[|ts| - 1]);
    }
  }

  lemma FrontElements(a: seq<Table>)
    requires SortedDisjoint(a) && a != []
    ensures forall t :: t in a[..|a| - 1] <==> t in a && t != a[|a| - 1]
  {
    assert a == a[..|a| - 1] + [a[|a| - 1]];
  }

  lemma LastElement(a: seq<Table>, t: Table)
    requires SortedDisjoint(a) && t in a
    ensures t == a[|a| - 1] || t.biggest < a[|a| - 1].smallest
  {
  }

  lemma HeadIn(ts: seq<Table>)
    ensures ts != [] ==> ts[0] in ts
  {
  }

  /** A sorted disjoint level is determined by the set of its tables. */
  lemma {:induction false} SortedUnique(a: seq<Table>, b: seq<Table>)
    requires SortedDisjoint(a) && SortedDisjoint(b)
    requires forall t :: t in a <==> t in b
    ensures a == b
    decreases |a|, 1
  {
    HeadIn(a);
    HeadIn(b);
    if a != [] {
      var x := a[|a| - 1];
      assert x in b;
      var y := b[|b| - 1];
      assert y in a;
      LastElement(a, y);
      LastElement(b, x);
      SortedUniqueFront(a, b);
    }
  }

  lemma {:induction false} SortedUniqueFront(a: seq<Table>, b: seq<Table>)
    requires SortedDisjoint(a) && SortedDisjoint(b) && a != [] && b != []
    requires a[|a| - 1] == b[|b| - 1]
    requires forall t :: t in a <==> t in b
    ensures a == b
    decreases |a|, 0
  {
    FrontElements(a);
    FrontElements(b);
    var fa, fb := a[..|a| - 1], b[..|b| - 1];
    forall t | t in fa ensures t in fb { assert t in b; }
    forall t | t in fb ensures t in fa { assert t in a; }
    assert forall t :: t in fa <==> t in fb;
    SortedUnique(fa, fb);
    assert a == fa + [a[|a| - 1]] && b == fb + [b[|b| - 1]];
  }

  // ----- sorting level 0 by id -----

  function InsertById(ts: seq<Table>, t: Table): seq<Table> {
    if ts == [] then [t]
    else if ts[|ts| - 1].id <= t.id then ts + [t]
    else InsertById(ts[..|ts| - 1], t) + [ts[|ts| - 1]]
  }

  /** The stable sort by file id of level 0. */
  function SortById(ts: seq<Table>): seq<Table> {
    if ts == [] then []
    else InsertById(SortById(ts[..|ts| - 1]), ts[|ts| - 1])
  }

  ghost predicate IdsAscend(ts: seq<Table>) {
    forall i, j :: 0 <= i < j < |ts| ==> ts[i].id < ts[j].id
  }

  lemma {:induction false} InsertByIdSorts(ts: seq<Table>, t: Table)
    requires IdsAscend(ts) && forall u :: u in ts ==> u.id != t.id
    ensures IdsAscend(InsertById(ts, t))
    ensures forall u :: u in InsertById(ts, t) <==> u in ts || u == t
  {
    if ts != [] && ts[|ts| - 1].id > t.id {
      var front, last := ts[..|ts| - 1], ts[|ts| - 1];
      assert ts == front + [last];
      InsertByIdSorts(front, t);
      assert forall u :: u in front ==> u.id < last.id;
      AscendAppend(InsertById(front, t), last);
    } else if ts != [] {
      assert ts[|ts| - 1] in ts;
      assert forall u :: u in ts ==> u.id < t.id;
      AscendAppend(ts, t);
    }
  }

  lemma AscendAppend(ts: seq<Table>, t: Table)
    requires IdsAscend(ts) && forall u :: u in ts ==> u.id < t.id
    ensures IdsAscend(ts + [t])
  {
  }

  lemma {:induction false} SortByIdSorts(ts: seq<Table>)
    requires DistinctIds(ts)
    ensures IdsAscend(SortById(ts)) && forall u :: u in SortById(ts) <==> u in ts
  {
    if ts != [] {
      var front, last := ts[..|ts| - 1], ts[|ts| - 1];
      assert ts == front + [last];
      assert forall i :: 0 <= i < |front| ==> front[i] == ts[i];
      SortByIdSorts(front);
      InsertByIdSorts(SortById(front), last);
    }
  }

  /** A level ordered by id is determined by the set of its tables. */
  lemma {:induction false} AscendUnique(a: seq<Table>, b: seq<Table>)
    requires IdsAscend(a) && IdsAscend(b) && forall t :: t in a <==> t in b
    ensures a == b
  {
    HeadIn(a);
    HeadIn(b);
    if a != [] {
      var x, y := a[|a| - 1], b[|b| - 1];
      assert x in b && y in a;
      LastId(a, y);
      LastId(b, x);
      var fa, fb := a[..|a| - 1], b[..|b| - 1];
      AscendFront(a);
      AscendFront(b);
      forall t | t in fa ensures t in fb { assert t in b; }
      forall t | t in fb ensures t in fa { assert t in a; }
      AscendUnique(fa, fb);
      assert a == fa + [x] && b == fb + [y];
    }
  }

  lemma LastId(a: seq<Table>, t: Table)
    requires IdsAscend(a) && t in a
    ensures t == a[|a| - 1] || t.id < a[|a| - 1].id
  {
  }

  lemma AscendFront(a: seq<Table>)
    requires IdsAscend(a) && a != []
    ensures IdsAscend(a[..|a| - 1])
    ensures forall t :: t in a[..|a| - 1] <==> t in a && t != a[|a| - 1]
  {
    assert a == a[..|a| - 1] + [a[|a| - 1]];
  }

  // ----- the two ways a level changes (replace_tables, delete_tables) -----

  function Keep(ts: seq<Table>, left: Key, right: Key): (r: seq<Table>)
    ensures forall t :: t in r <==> t in ts && (t.biggest <= left || t.smallest > right)
  {
    if ts == [] then []
    else
      var rest := Keep(ts[..|ts| - 1], left, right);
      var last := ts[|ts| - 1];
      assert ts == ts[..|ts| - 1] + [last];
      if last.biggest <= left || last.smallest > right then rest + [last] else rest
  }

  /** LevelHandler::replace_tables on the table list. */
  function Replaced(ts: seq<Table>, incoming: seq<Table>): (r: seq<Table>) {
    if incoming == [] then ts
    else SortBySmallest(Keep(ts, incoming[0].smallest, incoming[|incoming| - 1].biggest) + incoming)
  }

  /** LevelHandler::delete_tables on the table list. */
  function Without(ts: seq<Table>, ids: set<nat>): (r: seq<Table>)
    ensures forall t :: t in r <==> t in ts && t.id !in ids
  {
    if ts == [] then []
    else
      var rest := Without(ts[..|ts| - 1], ids);
      var last := ts[|ts| - 1];
      assert ts == ts[..|ts| - 1] + [last];
      if last.id in ids then rest else rest + [last]
  }

  lemma {:induction false} KeepApart(ts: seq<Table>, left: Key, right: Key)
    requires SortedDisjoint(ts)
    ensures SortedDisjoint(Keep(ts, left, right))
  {
    if ts != [] {
      var front, last := ts[..|ts| - 1], ts[|ts| - 1];
      KeepApart(front, left, right);
      assert forall t :: t in front ==> t.biggest < last.smallest;
      SortedAppend(Keep(front, left, right), last);
    }
  }

  lemma {:induction false} WithoutSorted(ts: seq<Table>, ids: set<nat>)
    requires SortedDisjoint(ts)
    ensures SortedDisjoint(Without(ts, ids))
  {
    if ts != [] {
      var front, last := ts[..|ts| - 1], ts[|ts| - 1];
      WithoutSorted(front, ids);
      assert forall t :: t in front ==> t.biggest < last.smallest;
      SortedAppend(Without(front, ids), last);
    }
  }

  lemma {:induction false} WithoutIds(ts: seq<Table>, ids: set<nat>)
    requires DistinctIds(ts)
    ensures DistinctIds(Without(ts, ids))
  {
    if ts != [] {
      var front, last := ts[..|ts| - 1], ts[|ts| - 1];
      WithoutIds(front, ids);
      var r := Without(front, ids);
      assert forall t :: t in front ==> t.id != last.id;
      assert forall i :: 0 <= i < |r| ==> r[i] in front;
    }
  }

  lemma {:induction false} WithoutConcat(a: seq<Table>, b: seq<Table>, ids: set<nat>)
    ensures Without(a + b, ids) == Without(a, ids) + Without(b, ids)
  {
    if b == [] {
      assert a + b == a;
    } else {
      assert (a + b)[..|a + b| - 1] == a + b[..|b| - 1];
      WithoutConcat(a, b[..|b| - 1], ids);
    }
  }

  lemma {:induction false} WithoutUnlisted(ts: seq<Table>, ids: set<nat>)
    requires forall t :: t in ts ==> t.id !in ids
    ensures Without(ts, ids) == ts
  {
    if ts != [] {
      assert ts[|ts| - 1] in ts;
      WithoutUnlisted(ts[..|ts| - 1], ids);
    }
  }

  lemma {:induction false} WithoutListed(ts: seq<Table>, ids: set<nat>)
    requires forall t :: t in ts ==> t.id in ids
    ensures Without(ts, ids) == []
  {
    if ts != [] {
      assert ts[|ts| - 1] in ts;
      WithoutListed(ts[..|ts| - 1], ids);
    }
  }

  lemma NotInPrefix(a: seq<Table>, b: seq<Table>, u: Table)
    requires DistinctIds(a + b) && u in b
    ensures forall t :: t in a ==> t.id != u.id
  {
    var j :| 0 <= j < |b| && b[j] == u;
    assert (a + b)[|a| + j] == u;
    forall t | t in a ensures t.id != u.id {
      var i :| 0 <= i < |a| && a[i] == t;
      assert (a + b)[i] == t;
    }
  }

  /** Deleting a prefix by id leaves exactly the rest. */
  lemma WithoutPrefix(a: seq<Table>, b: seq<Table>)
    requires DistinctIds(a + b)
    ensures Without(a + b, Ids(a)) == b
  {
    var ids := Ids(a);
    WithoutConcat(a, b, ids);
    WithoutListed(a, ids);
    forall u | u in b ensures u.id !in ids {
      NotInPrefix(a, b, u);
    }
    WithoutUnlisted(b, ids);
  }

  /** When no table of the level ends at the left end of the incoming ones, replace_tables evicts
      exactly the tables that meet the incoming range, and the level stays sorted and disjoint. */
  lemma ReplacedSorted(ts: seq<Table>, incoming: seq<Table>)
    requires SortedDisjoint(ts) && SortedDisjoint(incoming) && incoming != []
    requires forall t :: t in ts ==> t.biggest != incoming[0].smallest
    ensures SortedDisjoint(Replaced(ts, incoming))
    ensures forall t :: t in Replaced(ts, incoming) <==>
              t in incoming || (t in ts && !Meets(t, incoming[0].smallest, incoming[|incoming| - 1].biggest))
  {
    var left, right := incoming[0].smallest, incoming[|incoming| - 1].biggest;
    KeepApart(ts, left, right);
    SortedUnion(Keep(ts, left, right), incoming);
  }

  /** Tables that keep clear of the range of the incoming ones are sorted in around them. */
  lemma SortedUnion(kept: seq<Table>, incoming: seq<Table>)
    requires PairwiseApart(kept) && SortedDisjoint(incoming) && incoming != []
    requires forall t :: t in kept ==> !Meets(t, incoming[0].smallest, incoming[|incoming| - 1].biggest)
    ensures SortedDisjoint(SortBySmallest(kept + incoming))
    ensures forall t :: t in SortBySmallest(kept + incoming) <==> t in kept || t in incoming
  {
    var all := kept + incoming;
    forall i, j | 0 <= i < j < |all| ensures Apart(all[i], all[j]) {
      if i < |kept| && |kept| <= j {
        assert kept[i] in kept;
        FreshInside(incoming, j - |kept|);
      }
    }
    SortSorts(all);
  }

  lemma FreshInside(incoming: seq<Table>, i: nat)
    requires SortedDisjoint(incoming) && i < |incoming|
    ensures incoming[0].smallest <= incoming[i].smallest
    ensures incoming[i].biggest <= incoming[|incoming| - 1].biggest
  {
  }

  /** replace_tables keeps a level in shape exactly when no table of the level ends where the incoming
      tables start: such a table is kept although it overlaps the first incoming one. */
  lemma ReplacedInShape(ts: seq<Table>, incoming: seq<Table>)
    requires SortedDisjoint(ts) && SortedDisjoint(incoming) && incoming != []
    ensures SortedDisjoint(Replaced(ts, incoming)) <==> forall t :: t in ts ==> t.biggest != incoming[0].smallest
  {
    if t :| t in ts && t.biggest == incoming[0].smallest {
      var kept := Keep(ts, incoming[0].smallest, incoming[|incoming| - 1].biggest);
      var r := Replaced(ts, incoming);
      SortElements(kept + incoming);
      assert multiset(r) == multiset(kept) + multiset(incoming);
      assert t in kept && incoming[0] in incoming;
      assert multiset(kept)[t] > 0 && multiset(incoming)[incoming[0]] > 0;
      assert t in multiset(r) && incoming[0] in multiset(r);
      assert t in r && incoming[0] in r;
      if SortedDisjoint(r) {
        OnePosition(r, t);
        MeetSame(r, t, incoming[0]);
      }
    } else {
      ReplacedSorted(ts, incoming);
    }
  }

  lemma {:induction false} OnePosition(ts: seq<Table>, t: Table)
    requires SortedDisjoint(ts)
    ensures multiset(ts)[t] <= 1
  {
    if ts != [] {
      var front, last := ts[..|ts| - 1], ts[|ts| - 1];
      assert ts == front + [last];
      OnePosition(front, t);
      FrontElements(ts);
      assert last !in multiset(front);
    }
  }
}
