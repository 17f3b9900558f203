// One level of tables, updated in place (level_handler.rs).
module LevelHandler {
  // The table list changes as the functions of module Tables say; the binary searches agree with linear scans.

  import opened Base
  import opened Tables
  import opened Compaction
  import opened LsmSafety

  // ----- what the searches look for, said without searching -----

  function SumSizes(ts: seq<Table>): nat {
    if ts == [] then 0 else SumSizes(ts[..|ts| - 1]) + ts[|ts| - 1].size
  }

  lemma {:induction false} SumConcat(a: seq<Table>, b: seq<Table>)
    ensures SumSizes(a + b) == SumSizes(a) + SumSizes(b)
  {
    if b == [] {
      assert a + b == a;
    } else {
      assert (a + b)[..|a + b| - 1] == a + b[..|b| - 1];
      SumConcat(a, b[..|b| - 1]);
    }
  }

  lemma SumMore(ts: seq<Table>, t: Table)
    ensures SumSizes(ts + [t]) == SumSizes(ts) + t.size
  {
  }

  /** Taking the first of the rest. */
  lemma SumNext(ts: seq<Table>, i: nat)
    requires i < |ts|
    ensures SumSizes(ts[i..]) == ts[i].size + SumSizes(ts[i + 1..])
  {
    assert ts[i..] == [ts[i]] + ts[i + 1..];
    SumConcat([ts[i]], ts[i + 1..]);
    assert [ts[i]][..0] == [];
  }

  lemma KeepNext(ts: seq<Table>, i: nat, left: Key, right: Key)
    requires i < |ts|
    ensures Keep(ts[..i + 1], left, right) ==
            Keep(ts[..i], left, right) + if ts[i].biggest <= left || ts[i].smallest > right then [ts[i]] else []
  {
    assert ts[..i + 1][..i] == ts[..i];
  }

  lemma KeepNone(ts: seq<Table>, left: Key, right: Key)
    ensures Keep(ts[..0], left, right) == [] && SumSizes([]) == 0 && ts[0..] == ts
  {
  }

  lemma {:induction false} SumInsert(ts: seq<Table>, t: Table)
    ensures SumSizes(Insert(ts, t)) == SumSizes(ts) + t.size
  {
    if ts != [] && ts[|ts| - 1].smallest > t.smallest {
      var r := Insert(ts[..|ts| - 1], t);
      assert (r + [ts[|ts| - 1]])[..|r|] == r;
      SumInsert(ts[..|ts| - 1], t);
    } else {
      assert (ts + [t])[..|ts|] == ts;
    }
  }

  /** Sorting a level does not change its total size. */
  lemma {:induction false} SumSort(ts: seq<Table>)
    ensures SumSizes(SortBySmallest(ts)) == SumSizes(ts)
  {
    if ts != [] {
      SumSort(ts[..|ts| - 1]);
      SumInsert(SortBySmallest(ts[..|ts| - 1]), ts[|ts| - 1]);
    }
  }

  lemma {:induction false} SumInsertById(ts: seq<Table>, t: Table)
    ensures SumSizes(InsertById(ts, t)) == SumSizes(ts) + t.size
  {
    if ts != [] && ts[|ts| - 1].id > t.id {
      var r := InsertById(ts[..|ts| - 1], t);
      assert (r + [ts[|ts| - 1]])[..|r|] == r;
      SumInsertById(ts[..|ts| - 1], t);
    } else {
      assert (ts + [t])[..|ts|] == ts;
    }
  }

  lemma {:induction false} SumSortById(ts: seq<Table>)
    ensures SumSizes(SortById(ts)) == SumSizes(ts)
  {
    if ts != [] {
      SumSortById(ts[..|ts| - 1]);
      SumInsertById(SortById(ts[..|ts| - 1]), ts[|ts| - 1]);
    }
  }

  // ----- binary searches (slice::binary_search_by) -----

  /** Searches by biggest key: the index of the table that ends at k, or where one would go. */
  method SearchBiggest(ts: seq<Table>, k: Key) returns (found: bool, idx: nat)
    requires SortedDisjoint(ts)
    ensures idx <= |ts| && (found ==> idx < |ts| && ts[idx].biggest == k)
    ensures forall i :: 0 <= i < idx ==> ts[i].biggest < k
    ensures forall i :: idx <= i < |ts| ==> ts[i].biggest >= k
    ensures !found ==> forall i :: idx <= i < |ts| ==> ts[i].biggest > k
  {
    var lo, hi := 0, |ts|;
    while lo < hi
      invariant 0 <= lo <= hi <= |ts|
      invariant forall i :: 0 <= i < lo ==> ts[i].biggest < k
      invariant forall i :: hi <= i < |ts| ==> ts[i].biggest > k
    {
      var mid := (lo + hi) / 2;
      if ts[mid].biggest == k { return true, mid; }
      if ts[mid].biggest < k { lo := mid + 1; } else { hi := mid; }
    }
    return false, lo;
  }

  /** Searches by smallest key: the index of the table that starts at k, or where one would go. */
  method SearchSmallest(ts: seq<Table>, k: Key) returns (found: bool, idx: nat)
    requires SortedDisjoint(ts)
    ensures idx <= |ts| && (found ==> idx < |ts| && ts[idx].smallest == k)
    ensures forall i :: 0 <= i < idx ==> ts[i].smallest < k
    ensures forall i :: idx <= i < |ts| ==> ts[i].smallest >= k
    ensures !found ==> forall i :: idx <= i < |ts| ==> ts[i].smallest > k
    ensures found ==> forall i :: idx < i < |ts| ==> ts[i].smallest > k
  {
    var lo, hi := 0, |ts|;
    while lo < hi
      invariant 0 <= lo <= hi <= |ts|
      invariant forall i :: 0 <= i < lo ==> ts[i].smallest < k
      invariant forall i :: hi <= i < |ts| ==> ts[i].smallest > k
    {
      var mid := (lo + hi) / 2;
      if ts[mid].smallest == k { return true, mid; }
      if ts[mid].smallest < k { lo := mid + 1; } else { hi := mid; }
    }
    return false, lo;
  }

  /** overlapping_tables: index i is in the half-open result exactly when table i meets the range, so
      the slice is always valid. */
  method OverlappingTables(ts: seq<Table>, r: KeyRange) returns (left: nat, right: nat)
    requires SortedDisjoint(ts) && r.left <= r.right
    ensures left <= right <= |ts|
    ensures forall i :: 0 <= i < |ts| ==> (left <= i < right <==> Meets(ts[i], r.left, r.right))
    ensures (forall i :: 0 <= i < |ts| ==> !Meets(ts[i], r.left, r.right)) ==> left == right == 0
  {
    var lf, l := SearchBiggest(ts, r.left);
    var rf, rt := SearchSmallest(ts, r.right);
    left := l;
    right := if rf then rt + 1 else rt;
    if right < |ts| { assert ts[right].smallest <= ts[right].biggest; }
    assert left < right ==> Meets(ts[left], r.left, r.right);
    if left == right { left, right := 0, 0; }
  }

  /** The slice is the list of all tables of a disjoint level that meet the range. */
  lemma SliceIsOverlap(ts: seq<Table>, left: nat, right: nat, lo: Key, hi: Key)
    requires SortedDisjoint(ts) && left <= right <= |ts|
    requires forall i :: 0 <= i < |ts| ==> (left <= i < right <==> Meets(ts[i], lo, hi))
    ensures SortedDisjoint(ts[left..right])
    ensures forall t :: t in ts[left..right] <==> t in ts && Meets(t, lo, hi)
  {
    forall t | t in ts && Meets(t, lo, hi) ensures t in ts[left..right] {
      var i :| 0 <= i < |ts| && ts[i] == t;
      assert ts[left..right][i - left] == t;
    }
  }

  /** Only the first table that does not end before the key can hold it. */
  lemma OnlyCandidate(ts: seq<Table>, idx: nat, k: Key)
    requires SortedDisjoint(ts) && (forall t :: t in ts ==> GoodTable(t)) && idx <= |ts|
    requires forall i :: 0 <= i < idx ==> ts[i].biggest < k
    requires forall i :: idx <= i < |ts| ==> ts[i].biggest >= k
    ensures LevelGet(ts, k) == if idx < |ts| && k in ts[idx].kvs then Some(ts[idx].kvs[k]) else None
  {
    if LevelGet(ts, k).Some? {
      var t := Holder(ts, k);
      var i :| 0 <= i < |ts| && ts[i] == t;
      assert GoodTable(ts[i]) && ts[i].smallest <= k <= ts[i].biggest;
      assert idx <= i;
      assert ts[idx].biggest >= k >= ts[i].smallest;
      assert i == idx;
    } else if idx < |ts| && k in ts[idx].kvs {
      Answers(ts, ts[idx], k);
    }
  }

  class LevelHandler {
    const level: nat
    var tables: seq<Table>
    var totalSize: nat

    /** The recorded size is the size of the tables. */
    ghost predicate Valid()
      reads this
    {
      totalSize == SumSizes(tables)
    }

    constructor (level: nat)
      ensures Valid() && this.level == level && tables == []
    {
      this.level := level;
      tables, totalSize := [], 0;
    }

    method Validate() returns (ok: bool)
      ensures ok == Validates(level, tables)
    {
      if level == 0 { return true; }
      var j := 1;
      while j < |tables|
        invariant 1 <= j
        invariant forall i :: 1 <= i < j && i < |tables| ==>
                    tables[i - 1].biggest < tables[i].smallest && tables[i].smallest <= tables[i].biggest
      {
        if tables[j - 1].biggest >= tables[j].smallest { return false; }
        if tables[j].smallest > tables[j].biggest { return false; }
        j := j + 1;
      }
      return true;
    }

    method DeleteTables(ids: set<nat>)
      requires Valid()
      modifies this
      ensures Valid() && tables == Without(old(tables), ids)
    {
      var kept: seq<Table> := [];
      for i := 0 to |tables|
        invariant tables == old(tables)
        invariant kept == Without(tables[..i], ids)
        invariant totalSize == SumSizes(kept) + SumSizes(tables[i..])
      {
        var tb := tables[i];
        assert tables[..i + 1][..i] == tables[..i];
        SumNext(tables, i);
        SumMore(kept, tb);
        if tb.id in ids { totalSize := totalSize - tb.size; } else { kept := kept + [tb]; }
      }
      assert tables[..|tables|] == tables;
      tables := kept;
    }

    method InitTables(loaded: seq<Table>)
      modifies this
      ensures Valid() && tables == LsmSafety.InitTables(level, loaded)
    {
      totalSize := 0;
      for i := 0 to |loaded|
        invariant totalSize == SumSizes(loaded[..i])
      {
        totalSize := totalSize + loaded[i].size;
        assert loaded[..i + 1][..i] == loaded[..i];
      }
      assert loaded[..|loaded|] == loaded;
      SumSort(loaded);
      SumSortById(loaded);
      tables := if level == 0 then SortById(loaded) else SortBySmallest(loaded);
    }

    /** Drops the tables that are not outside (left, right]; `extra` is counted for tables still to come. */
    method RetainOutside(left: Key, right: Key, ghost extra: nat)
      requires totalSize == SumSizes(tables) + extra
      modifies this
      ensures tables == Keep(old(tables), left, right)
      ensures totalSize == SumSizes(tables) + extra
    {
      hide Keep, SumSizes;
      var kept: seq<Table> := [];
      KeepNone(tables, left, right);
      for i := 0 to |tables|
        invariant tables == old(tables)
        invariant kept == Keep(tables[..i], left, right)
        invariant totalSize == SumSizes(kept) + SumSizes(tables[i..]) + extra
      {
        var tb := tables[i];
        KeepNext(tables, i, left, right);
        SumNext(tables, i);
        SumMore(kept, tb);
        if tb.biggest <= left || tb.smallest > right {
          kept := kept + [tb];
        } else {
          totalSize := totalSize - tb.size;
        }
      }
      assert tables[..|tables|] == tables && tables[|tables|..] == [];
      tables := kept;
    }

    /** Adds the incoming tables and drops what they replace. */
    method ReplaceTables(incoming: seq<Table>)
      requires Valid()
      modifies this
      ensures Valid() && tables == Replaced(old(tables), incoming)
    {
      if incoming == [] { return; }
      for i := 0 to |incoming|
        invariant tables == old(tables)
        invariant totalSize == SumSizes(tables) + SumSizes(incoming[..i])
      {
        totalSize := totalSize + incoming[i].size;
        assert incoming[..i + 1][..i] == incoming[..i];
      }
      assert incoming[..|incoming|] == incoming;
      RetainOutside(incoming[0].smallest, incoming[|incoming| - 1].biggest, SumSizes(incoming));
      SumConcat(tables, incoming);
      SumSort(tables + incoming);
      tables := SortBySmallest(tables + incoming);
    }

    /** Refuses the table when level 0 is full. */
    method TryAddLevel0Table(t: Table, stall: nat) returns (ok: bool)
      requires Valid() && level == 0
      modifies this
      ensures Valid() && ok == (|old(tables)| < stall)
      ensures tables == if ok then old(tables) + [t] else old(tables)
    {
      if |tables| >= stall { return false; }
      SumConcat(tables, [t]);
      assert [t][..0] == [];
      totalSize := totalSize + t.size;
      tables := tables + [t];
      return true;
    }

    /** get_table_for_key: newest table first in level 0, one candidate by binary search elsewhere. */
    method Get(k: Key) returns (r: Option<ValueStruct>)
      requires level > 0 ==> SortedDisjoint(tables)
      requires forall t :: t in tables ==> GoodTable(t)
      ensures r == LevelGet(tables, k)
    {
      if level == 0 {
        var i := |tables|;
        assert tables[..i] == tables;
        while i > 0
          invariant 0 <= i <= |tables|
          invariant LevelGet(tables, k) == LevelGet(tables[..i], k)
        {
          i := i - 1;
          assert tables[..i + 1][..i] == tables[..i];
          if k in tables[i].kvs { return Some(tables[i].kvs[k]); }
        }
        return None;
      }
      var found, idx := SearchBiggest(tables, k);
      OnlyCandidate(tables, idx, k);
      if idx < |tables| && k in tables[idx].kvs { return Some(tables[idx].kvs[k]); }
      return None;
    }
  }

  // ----- the edge case of replace_tables -----

  /** The lookup of a level below 0 as the code does it on any table list: the candidate is the first
      table that does not end before the key. */
  function Probe(ts: seq<Table>, k: Key): Option<ValueStruct> {
    if ts == [] then None
    else if ts[0].biggest >= k then (if k in ts[0].kvs then Some(ts[0].kvs[k]) else None)
    else Probe(ts[1..], k)
  }

  /** On a disjoint level the probe is the level's answer. */
  lemma {:induction false} ProbeIsGet(ts: seq<Table>, k: Key)
    requires SortedDisjoint(ts) && forall t :: t in ts ==> GoodTable(t)
    ensures Probe(ts, k) == LevelGet(ts, k)
  {
    if ts != [] {
      if ts[0].biggest >= k {
        OnlyCandidate(ts, 0, k);
      } else {
        assert ts == [ts[0]] + ts[1..];
        LevelGetSplit([ts[0]], ts[1..], k);
        assert [ts[0]][..0] == [];
        assert ts[0] in ts && k !in ts[0].kvs;
        ProbeIsGet(ts[1..], k);
      }
    }
  }

  /** A table with the single key 5 meets an incoming merge that starts at 5: replace_tables keeps both,
      the level overlaps, and a lookup of 5 still finds the overwritten version. */
  lemma SingleKeyTableSurvives(v1: ValueStruct, v2: ValueStruct, v3: ValueStruct)
    requires 0 < v1.casCounter < v2.casCounter && 0 < v3.casCounter
    ensures var stale := Table(1, 5, 5, map[5 := v1], 1);
            var merged := Table(2, 5, 9, map[5 := v2, 9 := v3], 1);
            && Replaced([stale], [merged]) == [stale, merged]
            && !SortedDisjoint(Replaced([stale], [merged]))
            && !Validates(1, Replaced([stale], [merged]))
            && Probe([stale], 5) == Some(v1)
            && Probe(Replaced([stale], [merged]), 5) == Some(v1)
            && v1 != v2
  {
    var stale := Table(1, 5, 5, map[5 := v1], 1);
    var merged := Table(2, 5, 9, map[5 := v2, 9 := v3], 1);
    KeptAndSorted(stale, merged);
    var r := [stale, merged];
    assert r[0].biggest >= r[1].smallest;
  }

  lemma KeptAndSorted(a: Table, b: Table)
    requires a.biggest <= b.smallest && a.smallest <= b.smallest
    ensures Replaced([a], [b]) == [a, b]
  {
    KeepOne(a, b.smallest, b.biggest);
    SortTwo(a, b);
    assert [a] + [b] == [a, b];
  }

  lemma KeepOne(a: Table, left: Key, right: Key)
    requires a.biggest <= left
    ensures Keep([a], left, right) == [a]
  {
    assert [a][..0] == [];
    assert Keep([a], left, right) == Keep([], left, right) + [a];
  }

  lemma SortTwo(a: Table, b: Table)
    requires a.smallest <= b.smallest
    ensures SortBySmallest([a, b]) == [a, b]
  {
    hide Keep;
    assert [a][..0] == [] && [a, b][..1] == [a];
    assert SortBySmallest([a]) == Insert([], a) == [a];
    assert SortBySmallest([a, b]) == Insert([a], b);
    assert Insert([a], b) == [a] + [b];
  }
}
