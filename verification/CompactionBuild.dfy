// Building the output tables of a merging compaction (compact_build_tables).
module CompactionBuild {
  import opened Base
  import opened Tables
  import opened Merge

  // ----- items and tables -----

  /** A table's contents as a map; a later item wins. */
  function MapOf(xs: seq<Item>): map<Key, ValueStruct> {
    if xs == [] then map[] else MapOf(xs[..|xs| - 1])[xs[|xs| - 1].key := xs[|xs| - 1].value]
  }

  function ItemGet(xs: seq<Item>, k: Key): Option<ValueStruct> {
    if k in MapOf(xs) then Some(MapOf(xs)[k]) else None
  }

  /** The first source that holds the key answers. */
  function SourceGet(rests: seq<seq<Item>>, k: Key): Option<ValueStruct> {
    if rests == [] then None
    else
      var r := ItemGet(rests[0], k);
      if r.Some? then r else SourceGet(rests[1..], k)
  }

  lemma {:induction false} MapConcat(a: seq<Item>, b: seq<Item>)
    ensures MapOf(a + b) == MapOf(a) + MapOf(b)
  {
    if b == [] {
      assert a + b == a;
    } else {
      assert (a + b)[..|a + b| - 1] == a + b[..|b| - 1];
      MapConcat(a, b[..|b| - 1]);
    }
  }

  /** In a sorted list the map holds exactly its items. */
  lemma {:induction false} SortedMap(xs: seq<Item>, k: Key, v: ValueStruct)
    requires Sorted(false, xs)
    ensures Item(k, v) in xs <==> ItemGet(xs, k) == Some(v)
  {
    if xs != [] {
      var front, last := xs[..|xs| - 1], xs[|xs| - 1];
      assert xs == front + [last];
      SortedMap(front, k, v);
      assert Item(k, v) in front ==> k != last.key;
    }
  }

  lemma {:induction false} MapKeys(xs: seq<Item>, k: Key)
    ensures k in MapOf(xs) <==> HasKey(xs, k)
  {
    if xs != [] {
      var front, last := xs[..|xs| - 1], xs[|xs| - 1];
      assert xs == front + [last];
      MapKeys(front, k);
      if HasKey(front, k) {
        var x :| x in front && x.key == k;
        assert x in xs;
      } else if last.key == k {
        assert last in xs;
      }
    }
  }

  /** In sorted sources the lowest item of a key is what the first source that holds it says. */
  lemma {:induction false} LowestIsGet(rests: seq<seq<Item>>, k: Key, v: ValueStruct)
    requires AllSorted(false, rests)
    ensures Lowest(rests, Item(k, v)) <==> SourceGet(rests, k) == Some(v)
  {
    if rests != [] {
      var tail := rests[1..];
      assert forall i :: 0 <= i < |tail| ==> tail[i] == rests[i + 1];
      LowestIsGet(tail, k, v);
      SortedMap(rests[0], k, v);
      MapKeys(rests[0], k);
      var x := Item(k, v);
      assert x in rests[0] ==> HasKey(rests[0], k);
      if HasKey(rests[0], k) {
        if Lowest(rests, x) { var i := LowestSource(rests, x); assert i == 0; }
        if x in rests[0] { assert Lowest(rests, x); }
      } else {
        if Lowest(rests, x) {
          var i := LowestSource(rests, x);
          assert i > 0 && forall n :: 0 <= n < i - 1 ==> tail[n] == rests[n + 1];
          assert x in tail[i - 1];
          assert Lowest(tail, x);
        }
        if Lowest(tail, x) {
          var i := LowestSource(tail, x);
          assert forall n :: 0 < n <= i ==> rests[n] == tail[n - 1];
          assert x in rests[i + 1];
          assert Lowest(rests, x);
        }
      }
    }
  }

  /** The stored items of a table: sorted, the internal keys first, the rest the table's contents. */
  ghost predicate Holds(internal: set<Key>, t: Table, xs: seq<Item>) {
    && Sorted(false, xs) && InternalLeads(internal, xs)
    && t.kvs == MapOf(DropLeading(internal, xs))
  }

  ghost predicate AllHold(internal: set<Key>, ts: seq<Table>, items: seq<seq<Item>>) {
    |items| == |ts| && forall i :: 0 <= i < |ts| ==> Holds(internal, ts[i], items[i])
  }

  /** A table a compaction built holds no internal key. */
  ghost predicate NoInternal(internal: set<Key>, items: seq<seq<Item>>) {
    forall i, x :: 0 <= i < |items| && x in items[i] ==> x.key !in internal
  }

  function Reverse<T>(s: seq<T>): (r: seq<T>)
    ensures |r| == |s| && forall i :: 0 <= i < |r| ==> r[i] == s[|s| - 1 - i]
  {
    if s == [] then [] else [s[|s| - 1]] + Reverse(s[..|s| - 1])
  }

  /** The merge's sources: the top tables newest first, then the bottom tables as one. */
  function Sources(topItems: seq<seq<Item>>, botItems: seq<seq<Item>>): seq<seq<Item>> {
    Reverse(topItems) + [Flatten(botItems)]
  }

  // ----- what the sources answer -----

  /** Tables that hold exactly the given items answer as the items one after the other. */
  lemma {:induction false} TablesAnswer(ts: seq<Table>, items: seq<seq<Item>>, k: Key)
    requires |items| == |ts| && forall i :: 0 <= i < |ts| ==> ts[i].kvs == MapOf(items[i])
    ensures LevelGet(ts, k) == ItemGet(Flatten(items), k)
  {
    if ts != [] {
      var n := |ts| - 1;
      TablesAnswer(ts[..n], items[..n], k);
      assert items == items[..n] + [items[n]];
      FlattenSnoc(items[..n], items[n]);
      MapConcat(Flatten(items[..n]), items[n]);
    }
  }

  /** Newest first, the top tables past their internal keys answer as the level they come from. */
  lemma {:induction false} TopAnswers(internal: set<Key>, top: seq<Table>, items: seq<seq<Item>>, k: Key)
    requires AllHold(internal, top, items)
    ensures SourceGet(Dropped(internal, Reverse(items)), k) == LevelGet(top, k)
  {
    hide Sorted, InternalLeads, DropLeading, MapOf;
    if top != [] {
      var n := |top| - 1;
      TopAnswers(internal, top[..n], items[..n], k);
      assert Dropped(internal, Reverse(items))[0] == DropLeading(internal, items[n]);
      assert Dropped(internal, Reverse(items))[1..] == Dropped(internal, Reverse(items[..n]));
      assert Holds(internal, top[n], items[n]);
    }
  }

  lemma {:induction false} SourceGetSplit(a: seq<seq<Item>>, b: seq<Item>, k: Key)
    ensures SourceGet(a + [b], k) == if SourceGet(a, k).Some? then SourceGet(a, k) else ItemGet(b, k)
  {
    if a == [] {
      assert (a + [b])[1..] == [];
    } else {
      assert (a + [b])[1..] == a[1..] + [b];
      SourceGetSplit(a[1..], b, k);
    }
  }

  lemma {:induction false} NothingToDrop(internal: set<Key>, xs: seq<Item>)
    requires forall x :: x in xs ==> x.key !in internal
    ensures DropLeading(internal, xs) == xs && InternalLeads(internal, xs)
  {
    if xs != [] { assert xs[0] in xs; }
    assert forall i :: 0 <= i < |xs| ==> xs[i] in xs;
  }

  lemma CleanHold(internal: set<Key>, ts: seq<Table>, items: seq<seq<Item>>)
    requires AllHold(internal, ts, items) && NoInternal(internal, items)
    ensures forall i :: 0 <= i < |ts| ==> ts[i].kvs == MapOf(items[i])
  {
    forall i | 0 <= i < |ts| ensures ts[i].kvs == MapOf(items[i]) {
      assert Holds(internal, ts[i], items[i]);
      NothingToDrop(internal, items[i]);
    }
  }

  lemma InTable(t: Table, xs: seq<Item>, x: Item)
    requires GoodTable(t) && t.kvs == MapOf(xs) && x in xs
    ensures t.smallest <= x.key <= t.biggest
  {
    MapKeys(xs, x.key);
    assert HasKey(xs, x.key);
  }

  lemma SortedJoin(a: seq<Item>, b: seq<Item>)
    requires Sorted(false, a) && Sorted(false, b)
    requires forall x, y :: x in a && y in b ==> x.key < y.key
    ensures Sorted(false, a + b)
  {
    forall i, j | 0 <= i < j < |a + b| ensures (a + b)[i].key < (a + b)[j].key {
      if i < |a| <= j { assert a[i] in a && b[j - |a|] in b; }
    }
  }

  /** A disjoint level's items, table by table, are one sorted list. */
  lemma {:induction false} BotSorted(ts: seq<Table>, items: seq<seq<Item>>)
    requires SortedDisjoint(ts) && forall t :: t in ts ==> GoodTable(t)
    requires |items| == |ts|
    requires forall i :: 0 <= i < |ts| ==> ts[i].kvs == MapOf(items[i]) && Sorted(false, items[i])
    ensures Sorted(false, Flatten(items))
    ensures forall x :: x in Flatten(items) ==> exists t :: t in ts && t.smallest <= x.key <= t.biggest
  {
    if ts != [] {
      var n := |ts| - 1;
      var front, last := items[..n], items[n];
      FrontBefore(ts);
      assert ts == ts[..n] + [ts[n]] && items == front + [last];
      BotSorted(ts[..n], front);
      FlattenSnoc(front, last);
      forall x | x in last ensures ts[n].smallest <= x.key <= ts[n].biggest { InTable(ts[n], last, x); }
      forall x: Item | x in Flatten(front) ensures x.key < ts[n].smallest {
        var t :| t in ts[..n] && t.smallest <= x.key <= t.biggest;
      }
      SortedJoin(Flatten(front), last);
      assert ts[n] in ts;
    }
  }

  /** Input tables of a compaction and what is stored in them. */
  ghost predicate Input(internal: set<Key>, top: seq<Table>, bot: seq<Table>, topItems: seq<seq<Item>>,
                        botItems: seq<seq<Item>>) {
    && AllHold(internal, top, topItems) && AllHold(internal, bot, botItems) && NoInternal(internal, botItems)
    && (forall t :: t in top ==> GoodTable(t)) && (forall t :: t in bot ==> GoodTable(t))
    && SortedDisjoint(bot)
  }

  lemma SourcesSorted(internal: set<Key>, top: seq<Table>, bot: seq<Table>, topItems: seq<seq<Item>>,
                      botItems: seq<seq<Item>>)
    requires Input(internal, top, bot, topItems, botItems)
    ensures AllSorted(false, Sources(topItems, botItems))
    ensures forall i :: 0 <= i < |Sources(topItems, botItems)| ==>
              InternalLeads(internal, Sources(topItems, botItems)[i])
  {
    hide Sorted, InternalLeads, Flatten, AllHold, NoInternal;
    TopSorted(internal, top, topItems);
    BotSource(internal, bot, botItems);
  }

  lemma TopSorted(internal: set<Key>, top: seq<Table>, topItems: seq<seq<Item>>)
    requires AllHold(internal, top, topItems)
    ensures forall i :: 0 <= i < |topItems| ==>
              Sorted(false, Reverse(topItems)[i]) && InternalLeads(internal, Reverse(topItems)[i])
  {
    hide Sorted, InternalLeads;
    forall i | 0 <= i < |topItems|
      ensures Sorted(false, Reverse(topItems)[i]) && InternalLeads(internal, Reverse(topItems)[i])
    {
      assert Holds(internal, top[|top| - 1 - i], topItems[|top| - 1 - i]);
    }
  }

  lemma BotSource(internal: set<Key>, bot: seq<Table>, botItems: seq<seq<Item>>)
    requires AllHold(internal, bot, botItems) && NoInternal(internal, botItems)
    requires SortedDisjoint(bot) && forall t :: t in bot ==> GoodTable(t)
    ensures Sorted(false, Flatten(botItems)) && InternalLeads(internal, Flatten(botItems))
  {
    hide Sorted, InternalLeads, Flatten, MapOf, SortedDisjoint;
    CleanHold(internal, bot, botItems);
    forall i | 0 <= i < |bot| ensures Sorted(false, botItems[i]) { assert Holds(internal, bot[i], botItems[i]); }
    BotSorted(bot, botItems);
    FlattenClean(internal, botItems);
    NothingToDrop(internal, Flatten(botItems));
  }

  lemma {:induction false} FlattenClean(internal: set<Key>, items: seq<seq<Item>>)
    requires NoInternal(internal, items)
    ensures forall x :: x in Flatten(items) ==> x.key !in internal
  {
    if items != [] {
      assert forall i :: 0 <= i < |items| - 1 ==> items[1..][i] == items[i + 1];
      FlattenClean(internal, items[1..]);
      assert forall x :: x in items[0] ==> x.key !in internal;
    }
  }

  /** What the merge delivers in a compaction. */
  function Output(internal: set<Key>, topItems: seq<seq<Item>>, botItems: seq<seq<Item>>): seq<Item> {
    Merged(false, Dropped(internal, Sources(topItems, botItems)))
  }

  /** The merge answers every key as the top tables do, else as the bottom tables do. */
  lemma OutputAnswers(internal: set<Key>, top: seq<Table>, bot: seq<Table>, topItems: seq<seq<Item>>,
                      botItems: seq<seq<Item>>, k: Key)
    requires Input(internal, top, bot, topItems, botItems)
    ensures ItemGet(Output(internal, topItems, botItems), k) ==
            if LevelGet(top, k).Some? then LevelGet(top, k) else LevelGet(bot, k)
  {
    hide Sorted, Merged, Lowest, MapOf, LevelGet, Flatten, DropLeading, InternalLeads, ItemGet;
    var sources := Sources(topItems, botItems);
    var rests := Dropped(internal, sources);
    SourcesSorted(internal, top, bot, topItems, botItems);
    DroppedSorted(false, internal, sources);
    MergedSorted(false, rests);
    SourcesAnswer(internal, top, bot, topItems, botItems, k);
    GetAgrees(rests, k);
  }

  lemma SourcesAnswer(internal: set<Key>, top: seq<Table>, bot: seq<Table>, topItems: seq<seq<Item>>,
                      botItems: seq<seq<Item>>, k: Key)
    requires Input(internal, top, bot, topItems, botItems)
    ensures SourceGet(Dropped(internal, Sources(topItems, botItems)), k) ==
            if LevelGet(top, k).Some? then LevelGet(top, k) else LevelGet(bot, k)
  {
    hide Sorted, MapOf, LevelGet, Flatten, DropLeading, InternalLeads, ItemGet, SourceGet;
    FlattenClean(internal, botItems);
    NothingToDrop(internal, Flatten(botItems));
    assert Dropped(internal, Sources(topItems, botItems)) == Dropped(internal, Reverse(topItems)) + [Flatten(botItems)];
    SourceGetSplit(Dropped(internal, Reverse(topItems)), Flatten(botItems), k);
    TopAnswers(internal, top, topItems, k);
    CleanHold(internal, bot, botItems);
    TablesAnswer(bot, botItems, k);
  }

  /** Sources and their merge answer alike. */
  lemma GetAgrees(rests: seq<seq<Item>>, k: Key)
    requires AllSorted(false, rests) && Sorted(false, Merged(false, rests))
    ensures ItemGet(Merged(false, rests), k) == SourceGet(rests, k)
  {
    hide Sorted, Merged, Lowest, MapOf;
    forall v ensures ItemGet(Merged(false, rests), k) == Some(v) <==> SourceGet(rests, k) == Some(v) {
      SortedMap(Merged(false, rests), k, v);
      MergedItems(false, rests, Item(k, v));
      LowestIsGet(rests, k, v);
    }
    SameOption(ItemGet(Merged(false, rests), k), SourceGet(rests, k));
  }

  lemma SameOption<T(!new)>(a: Option<T>, b: Option<T>)
    requires forall v :: a == Some(v) <==> b == Some(v)
    ensures a == b
  {
    if a.Some? { assert b == Some(a.value); }
    if b.Some? { assert a == Some(b.value); }
  }
}
