// compact_build_tables: the merge is cut into tables, which finish in any order.
module CompactionOutput {
  import opened Base
  import opened Tables
  import opened Merge
  import opened MergeIterator
  import opened Lsm
  import opened CompactionBuild

  /** The table with the given items. */
  function TableOf(id: nat, xs: seq<Item>, size: nat): Table
    requires xs != []
  {
    Table(id, xs[0].key, xs[|xs| - 1].key, MapOf(xs), size)
  }

  /** The tables of consecutive chunks, each with its own id. */
  function TablesOf(chunks: seq<seq<Item>>, ids: seq<nat>, sizeOf: seq<Item> -> nat): (ts: seq<Table>)
    requires |ids| == |chunks| && forall i :: 0 <= i < |chunks| ==> chunks[i] != []
    ensures |ts| == |chunks|
    ensures forall i :: 0 <= i < |ts| ==> ts[i] == TableOf(ids[i], chunks[i], sizeOf(chunks[i]))
  {
    seq(|chunks|, i requires 0 <= i < |chunks| => TableOf(ids[i], chunks[i], sizeOf(chunks[i])))
  }

  /** The answers of reserve_file_id to the first n calls of one build; other workers call it in between. */
  function FileIds(fileId: nat -> nat, n: nat): (ids: seq<nat>)
    ensures |ids| == n && forall i :: 0 <= i < n ==> ids[i] == fileId(i)
  {
    seq(n, i requires 0 <= i < n => fileId(i))
  }

  /** No id is given out twice. */
  ghost predicate Fresh(fileId: nat -> nat) {
    forall a, b :: 0 <= a < b ==> fileId(a) != fileId(b)
  }

  /** The ids given out to the build. */
  function IdSet(ids: seq<nat>): set<nat> { set id | id in ids }

  /** Every chunk is closed by the first item that fills it; only the last one may stay below. */
  ghost predicate Cut(chunks: seq<seq<Item>>, full: seq<Item> -> bool) {
    && (forall i :: 0 <= i < |chunks| ==> chunks[i] != [])
    && (forall i, n :: 0 <= i < |chunks| && 0 < n < |chunks[i]| ==> !full(chunks[i][..n]))
    && forall i :: 0 <= i < |chunks| - 1 ==> full(chunks[i])
  }

  ghost predicate NoUserMix(mitr: MergeIterator)
  {
    AllSorted(mitr.rev, mitr.sources) &&
    forall i :: 0 <= i < |mitr.sources| ==> InternalLeads(mitr.internal, mitr.sources[i])
  }

  /** The iterator is in the middle of a pass over clean sources. */
  ghost predicate Passing(mitr: MergeIterator)
    reads mitr
  {
    && mitr.Valid() && mitr.cursorIndex.Some?
    && (mitr.cursorItem.None? ==> Merged(mitr.rev, mitr.Rests()) == [])
    && forall x :: x in Merged(mitr.rev, mitr.Rests()) ==> x.key !in mitr.internal
  }

  /** What the merge iterator has still to deliver, the current item included. */
  ghost function Pending(mitr: MergeIterator): seq<Item>
    requires Passing(mitr)
    reads mitr
  {
    if mitr.cursorItem.None? then [] else [mitr.cursorItem.value] + Merged(mitr.rev, mitr.Rests())
  }

  method Start(mitr: MergeIterator)
    requires mitr.Placed() && HeapOk(mitr.heap, mitr.heapFlag, mitr.Rests()) && NoUserMix(mitr)
    modifies mitr
    ensures Passing(mitr) && Pending(mitr) == Merged(mitr.rev, Dropped(mitr.internal, mitr.sources))
  {
    hide Merged, HeapOk, InternalLeads;
    NoInternalIff(mitr.rev, mitr.internal, mitr.sources);
    var r := mitr.Rewind();
  }

  /** One turn of the inner loop. */
  method Move(mitr: MergeIterator)
    requires Passing(mitr) && mitr.cursorItem.Some?
    modifies mitr
    ensures Passing(mitr) && Pending(mitr) == old(Pending(mitr))[1..]
  {
    hide Merged, HeapOk;
    ghost var m := Merged(mitr.rev, mitr.Rests());
    assert m != [] ==> m[0] in m;
    assert mitr.NextUser();
    assert old(Pending(mitr))[1..] == m;
    var r := mitr.Next();
  }

  /** One output file's items: from the current item until the builder is full or nothing is left. */
  method BuildChunk(mitr: MergeIterator, full: seq<Item> -> bool) returns (chunk: seq<Item>)
    requires Passing(mitr)
    modifies mitr
    ensures Passing(mitr) && chunk + Pending(mitr) == old(Pending(mitr))
    ensures chunk == [] <==> old(Pending(mitr)) == []
    ensures forall n :: 0 < n < |chunk| ==> !full(chunk[..n])
    ensures chunk != [] && !full(chunk) ==> Pending(mitr) == []
  {
    hide Passing, Pending, Merged, HeapOk;
    chunk := [];
    while mitr.cursorItem.Some?
      invariant Passing(mitr) && chunk + Pending(mitr) == old(Pending(mitr))
      invariant forall n :: 0 < n <= |chunk| ==> !full(chunk[..n])
      decreases |Pending(mitr)|
    {
      PendingHead(mitr);
      ghost var before, pending := chunk, Pending(mitr);
      chunk := chunk + [mitr.cursorItem.value];
      Move(mitr);
      assert before + pending == chunk + pending[1..];
      assert forall n :: 0 < n <= |before| ==> chunk[..n] == before[..n];
      if full(chunk) { return; }
      assert chunk[..|chunk|] == chunk;
    }
    PendingNone(mitr);
    assert chunk != [] ==> chunk[..|chunk|] == chunk;
  }

  lemma PendingHead(mitr: MergeIterator)
    requires Passing(mitr) && mitr.cursorItem.Some?
    ensures Pending(mitr) != [] && Pending(mitr)[0] == mitr.cursorItem.value
  {
  }

  lemma PendingNone(mitr: MergeIterator)
    requires Passing(mitr) && mitr.cursorItem.None?
    ensures Pending(mitr) == []
  {
  }

  /** The outer loop: the chunks in order are the whole merge. */
  method BuildChunks(mitr: MergeIterator, full: seq<Item> -> bool) returns (chunks: seq<seq<Item>>)
    requires mitr.Placed() && HeapOk(mitr.heap, mitr.heapFlag, mitr.Rests()) && NoUserMix(mitr)
    modifies mitr
    ensures Cut(chunks, full)
    ensures Flatten(chunks) == Merged(mitr.rev, Dropped(mitr.internal, mitr.sources))
  {
    hide Passing, Pending, Merged, HeapOk, NoUserMix, Dropped, Flatten, Cut;
    Start(mitr);
    CutNone(full);
    ghost var all := Pending(mitr);
    chunks := [];
    FlattenNone<Item>();
    while true
      invariant Passing(mitr) && Flatten(chunks) + Pending(mitr) == all
      invariant Cut(chunks, full) && (chunks != [] && !full(chunks[|chunks| - 1]) ==> Pending(mitr) == [])
      decreases |Pending(mitr)|
    {
      var chunk := BuildChunk(mitr, full);
      if chunk == [] { break; }
      CutMore(chunks, chunk, full);
      FlattenSnoc(chunks, chunk);
      assert Flatten(chunks) + (chunk + Pending(mitr)) == Flatten(chunks) + chunk + Pending(mitr);
      chunks := chunks + [chunk];
    }
  }

  lemma FlattenNone<T>()
    ensures Flatten<T>([]) == []
  {
  }

  lemma CutNone(full: seq<Item> -> bool)
    ensures Cut([], full)
  {
  }

  lemma CutMore(chunks: seq<seq<Item>>, chunk: seq<Item>, full: seq<Item> -> bool)
    requires Cut(chunks, full) && chunk != [] && forall n :: 0 < n < |chunk| ==> !full(chunk[..n])
    requires chunks != [] ==> full(chunks[|chunks| - 1])
    ensures Cut(chunks + [chunk], full)
  {
  }

  // ----- tables finish in any order -----

  /** The build tasks send their tables in any order. */
  method Collect(built: seq<Table>) returns (arrived: seq<Table>)
    ensures multiset(arrived) == multiset(built)
  {
    arrived := [];
    var running := built;
    while running != []
      invariant multiset(arrived) + multiset(running) == multiset(built)
      decreases |running|
    {
      var i: nat :| i < |running|;
      assert running == running[..i] + [running[i]] + running[i + 1..];
      arrived := arrived + [running[i]];
      running := running[..i] + running[i + 1..];
    }
  }

  ghost predicate BiggestAscend(ts: seq<Table>) {
    forall i, j :: 0 <= i < j < |ts| ==> ts[i].biggest <= ts[j].biggest
  }

  /** Where the stable sort puts the next table: after the last one that does not end later. */
  method InsertPoint(r: seq<Table>, t: Table) returns (n: nat)
    requires BiggestAscend(r)
    ensures n <= |r|
    ensures forall m :: 0 <= m < n ==> r[m].biggest <= t.biggest
    ensures forall m :: n <= m < |r| ==> t.biggest < r[m].biggest
  {
    n := |r|;
    while n > 0 && r[n - 1].biggest > t.biggest
      invariant 0 <= n <= |r| && forall m :: n <= m < |r| ==> t.biggest < r[m].biggest
    {
      n := n - 1;
    }
  }

  lemma Inserted(r: seq<Table>, n: nat, t: Table)
    requires BiggestAscend(r) && n <= |r|
    requires forall m :: 0 <= m < n ==> r[m].biggest <= t.biggest
    requires forall m :: n <= m < |r| ==> t.biggest < r[m].biggest
    ensures var r' := r[..n] + [t] + r[n..]; BiggestAscend(r') && multiset(r') == multiset(r) + multiset{t}
  {
    InsertedAscend(r, n, t);
    hide BiggestAscend;
    assert r == r[..n] + r[n..];
  }

  lemma InsertedAscend(r: seq<Table>, n: nat, t: Table)
    requires BiggestAscend(r) && n <= |r|
    requires forall m :: 0 <= m < n ==> r[m].biggest <= t.biggest
    requires forall m :: n <= m < |r| ==> t.biggest < r[m].biggest
    ensures BiggestAscend(r[..n] + [t] + r[n..])
  {
    var r' := r[..n] + [t] + r[n..];
    forall i, j | 0 <= i < j < |r'| ensures r'[i].biggest <= r'[j].biggest {
      assert r'[i] == if i < n then r[i] else if i == n then t else r[i - 1];
      assert r'[j] == if j < n then r[j] else if j == n then t else r[j - 1];
    }
  }

  /** The stable sort by biggest key. */
  method SortByBiggest(ts: seq<Table>) returns (r: seq<Table>)
    ensures multiset(r) == multiset(ts) && BiggestAscend(r)
  {
    hide BiggestAscend;
    r := [];
    assert BiggestAscend([]) by { NoneAscend(); }
    for i := 0 to |ts|
      invariant multiset(r) == multiset(ts[..i]) && BiggestAscend(r)
    {
      assert ts[..i + 1] == ts[..i] + [ts[i]];
      var n := InsertPoint(r, ts[i]);
      Inserted(r, n, ts[i]);
      r := r[..n] + [ts[i]] + r[n..];
    }
    assert ts[..|ts|] == ts;
  }

  lemma NoneAscend()
    ensures BiggestAscend([])
  {
  }

  /** Whatever the order of arrival, sorting disjoint tables by biggest key restores their order. */
  lemma OrderRestored(built: seq<Table>, r: seq<Table>)
    requires SortedDisjoint(built) && multiset(r) == multiset(built) && BiggestAscend(r)
    ensures r == built
  {
    SameElements(r, built);
    forall i, j | 0 <= i < j < |r| ensures r[i].biggest < r[j].smallest {
      TwoApart(built, r, i, j);
    }
    forall i | 0 <= i < |r| ensures r[i].smallest <= r[i].biggest { assert r[i] in built; }
    SortedUnique(r, built);
  }

  lemma TwoApart(built: seq<Table>, r: seq<Table>, i: nat, j: nat)
    requires SortedDisjoint(built) && multiset(r) == multiset(built) && BiggestAscend(r) && i < j < |r|
    ensures r[i].biggest < r[j].smallest
  {
    var a, b := r[i], r[j];
    assert a.biggest <= b.biggest;
    Occurs(r, i, j);
    SameElements(r, built);
    if a == b { OnceOnly(built, a); }
    hide BiggestAscend;
    assert a in r && b in r;
    assert a in built && b in built;
    var m :| 0 <= m < |built| && built[m] == a;
    var n :| 0 <= n < |built| && built[n] == b;
  }

  lemma Occurs(r: seq<Table>, i: nat, j: nat)
    requires i < j < |r|
    ensures r[i] == r[j] ==> multiset(r)[r[i]] >= 2
  {
    var rest := r[..i] + r[i + 1..];
    assert r == r[..i] + [r[i]] + r[i + 1..];
    assert rest[j - 1] == r[j] && r[j] in rest;
    assert multiset(r) == multiset(rest) + multiset{r[i]};
  }

  lemma {:induction false} OnceOnly(ts: seq<Table>, t: Table)
    requires SortedDisjoint(ts)
    ensures multiset(ts)[t] <= 1
  {
    if ts != [] {
      var front, last := ts[..|ts| - 1], ts[|ts| - 1];
      assert ts == front + [last];
      FrontBefore(ts);
      OnceOnly(front, t);
      if t == last { assert last !in front; }
    }
  }

  // ----- the output -----

  /** Consecutive chunks of a sorted list make disjoint tables in order. */
  lemma {:induction false} ChunksDisjoint(chunks: seq<seq<Item>>, ids: seq<nat>, sizeOf: seq<Item> -> nat)
    requires |ids| == |chunks| && forall i :: 0 <= i < |chunks| ==> chunks[i] != []
    requires Sorted(false, Flatten(chunks))
    ensures SortedDisjoint(TablesOf(chunks, ids, sizeOf))
    ensures forall i, x :: 0 <= i < |chunks| && x in chunks[i] ==> x in Flatten(chunks)
  {
    hide Flatten, Sorted, MapOf, SortedDisjoint;
    if chunks == [] {
      NoneDisjoint();
    } else {
      var n := |chunks| - 1;
      var front, last := chunks[..n], chunks[n];
      assert chunks == front + [last];
      FlattenSnoc(front, last);
      PrefixSorted(Flatten(front), last);
      ChunksDisjoint(front, ids[..n], sizeOf);
      var frontTables := TablesOf(front, ids[..n], sizeOf);
      var t := TableOf(ids[n], last, sizeOf(last));
      assert TablesOf(chunks, ids, sizeOf) == frontTables + [t];
      forall u | u in frontTables ensures u.biggest < t.smallest {
        var i :| 0 <= i < n && frontTables[i] == u;
        assert front[i][|front[i]| - 1] in front[i];
        assert last[0] in last;
      }
      EndsOrdered(last);
      SortedAppend(frontTables, t);
    }
  }

  lemma NoneDisjoint()
    ensures SortedDisjoint([])
  {
  }

  lemma EndsOrdered(xs: seq<Item>)
    requires Sorted(false, xs) && xs != []
    ensures xs[0].key <= xs[|xs| - 1].key
  {
  }

  lemma PrefixSorted(a: seq<Item>, b: seq<Item>)
    requires Sorted(false, a + b)
    ensures Sorted(false, a) && Sorted(false, b)
    ensures forall x, y :: x in a && y in b ==> x.key < y.key
  {
    assert forall i :: 0 <= i < |a| ==> (a + b)[i] == a[i];
    assert forall i :: 0 <= i < |b| ==> (a + b)[|a| + i] == b[i];
  }

  /** A built table's ends are keys of the table, and its range holds all of them. */
  lemma TableOfExact(id: nat, xs: seq<Item>, size: nat)
    requires xs != [] && Sorted(false, xs) && forall x :: x in xs ==> x.value.casCounter > 0
    ensures ExactTable(TableOf(id, xs, size))
  {
    var t := TableOf(id, xs, size);
    forall k | k in t.kvs ensures t.smallest <= k <= t.biggest && t.kvs[k].casCounter > 0 {
      SortedMap(xs, k, t.kvs[k]);
      var n :| 0 <= n < |xs| && xs[n] == Item(k, t.kvs[k]);
    }
    MapKeys(xs, t.smallest);
    MapKeys(xs, t.biggest);
    assert xs[0] in xs && xs[|xs| - 1] in xs;
  }

  /** Every merged item comes from an input table. */
  lemma OutputVersions(internal: set<Key>, top: seq<Table>, bot: seq<Table>, topItems: seq<seq<Item>>,
                       botItems: seq<seq<Item>>, x: Item)
    requires Input(internal, top, bot, topItems, botItems) && x in Output(internal, topItems, botItems)
    ensures Sorted(false, Output(internal, topItems, botItems)) && x.value.casCounter > 0
  {
    hide Merged, MapOf, Flatten, DropLeading, InternalLeads, LevelGet, Lowest, AllHold, NoInternal;
    var sources := Sources(topItems, botItems);
    SourcesSorted(internal, top, bot, topItems, botItems);
    DroppedSorted(false, internal, sources);
    MergedSorted(false, Dropped(internal, sources));
    SortedMap(Output(internal, topItems, botItems), x.key, x.value);
    OutputAnswers(internal, top, bot, topItems, botItems, x.key);
    if LevelGet(top, x.key).Some? {
      var t := Holder(top, x.key);
    } else {
      var t := Holder(bot, x.key);
    }
  }

  /** The tables cut from the merge are a correct output of the compaction. */
  lemma BuildIsOutput(internal: set<Key>, top: seq<Table>, bot: seq<Table>, topItems: seq<seq<Item>>,
                      botItems: seq<seq<Item>>, chunks: seq<seq<Item>>, ids: seq<nat>, sizeOf: seq<Item> -> nat)
    requires Input(internal, top, bot, topItems, botItems)
    requires |ids| == |chunks| && forall i :: 0 <= i < |chunks| ==> chunks[i] != []
    requires Flatten(chunks) == Output(internal, topItems, botItems)
    ensures var outs := TablesOf(chunks, ids, sizeOf);
            && SortedDisjoint(outs)
            && (outs != [] ==> IsOutput(outs, top, bot))
            && (outs == [] ==> forall k :: LevelGet(top, k).None? && LevelGet(bot, k).None?)
  {
    hide Merged, MapOf, Flatten, DropLeading, InternalLeads, LevelGet, Input, Output, Sorted, ItemGet;
    var outs := TablesOf(chunks, ids, sizeOf);
    SortedOutput(internal, top, bot, topItems, botItems);
    ChunksDisjoint(chunks, ids, sizeOf);
    forall t | t in outs ensures ExactTable(t) {
      var i :| 0 <= i < |outs| && outs[i] == t;
      forall x | x in chunks[i] ensures x.value.casCounter > 0 {
        OutputVersions(internal, top, bot, topItems, botItems, x);
      }
      ChunkSorted(chunks, i);
      TableOfExact(ids[i], chunks[i], sizeOf(chunks[i]));
    }
    forall k ensures LevelGet(outs, k) == if LevelGet(top, k).Some? then LevelGet(top, k) else LevelGet(bot, k) {
      TablesAnswer(outs, chunks, k);
      OutputAnswers(internal, top, bot, topItems, botItems, k);
    }
    if outs == [] {
      forall k ensures LevelGet(outs, k).None? { NoTables(k); }
    }
  }

  lemma NoTables(k: Key)
    ensures LevelGet([], k).None?
  {
  }

  lemma SortedOutput(internal: set<Key>, top: seq<Table>, bot: seq<Table>, topItems: seq<seq<Item>>,
                     botItems: seq<seq<Item>>)
    requires Input(internal, top, bot, topItems, botItems)
    ensures Sorted(false, Output(internal, topItems, botItems))
  {
    hide Merged, Flatten, Input, Sorted;
    SourcesSorted(internal, top, bot, topItems, botItems);
    DroppedSorted(false, internal, Sources(topItems, botItems));
    MergedSorted(false, Dropped(internal, Sources(topItems, botItems)));
  }

  lemma {:induction false} ChunkSorted(chunks: seq<seq<Item>>, i: nat)
    requires i < |chunks| && Sorted(false, Flatten(chunks))
    ensures Sorted(false, chunks[i])
  {
    PrefixSorted(chunks[0], Flatten(chunks[1..]));
    if i > 0 { ChunkSorted(chunks[1..], i - 1); }
  }

  /** The whole of compact_build_tables: the tables come out in key order under the ids reserved for them,
      are what the store's Log step asks for, and one after the other hold exactly the merged items,
      whatever order they finish in. */
  method CompactBuildTables(internal: set<Key>, ghost j: Job,
                            topItems: seq<seq<Item>>, botItems: seq<seq<Item>>, fileId: nat -> nat,
                            full: seq<Item> -> bool, sizeOf: seq<Item> -> nat)
    returns (outs: seq<Table>, ghost chunks: seq<seq<Item>>)
    requires Input(internal, j.top, j.bot, topItems, botItems) && !j.IsMove() && Fresh(fileId)
    ensures Cut(chunks, full) && Flatten(chunks) == Output(internal, topItems, botItems)
    ensures outs == TablesOf(chunks, FileIds(fileId, |chunks|), sizeOf)
    ensures |outs| == |chunks| && forall i :: 0 <= i < |outs| ==> chunks[i] != []
    ensures forall i :: 0 <= i < |outs| ==> outs[i].id == fileId(i) && outs[i].size == sizeOf(chunks[i])
    ensures forall i :: 0 <= i < |outs| ==>
              outs[i].smallest == chunks[i][0].key && outs[i].biggest == chunks[i][|chunks[i]| - 1].key
    ensures SortedDisjoint(outs) && DistinctIds(outs)
    ensures outs != [] ==> BuildOk(j.(ids := IdSet(FileIds(fileId, |outs|))), outs)
    ensures outs == [] ==> forall k :: LevelGet(j.top, k).None? && LevelGet(j.bot, k).None?
  {
    hide Merged, Flatten, Dropped, Sources, Input, IsOutput, HeapOk;
    var mitr := new MergeIterator(false, Sources(topItems, botItems), internal);
    SourcesSorted(internal, j.top, j.bot, topItems, botItems);
    var cut := BuildChunks(mitr, full);
    chunks := cut;
    var ids := FileIds(fileId, |cut|);
    BuildIsOutput(internal, j.top, j.bot, topItems, botItems, chunks, ids, sizeOf);
    var built := TablesOf(cut, ids, sizeOf);
    var arrived := Collect(built);
    outs := SortByBiggest(arrived);
    OrderRestored(built, outs);
  }
}
