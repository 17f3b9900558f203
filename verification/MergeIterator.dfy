// The k-way merge iterator: source cursors, a heap of heads and one flag per source.
module MergeIterator {
  import opened Base
  import opened Merge

  /** A heap entry: the head of source `index`. */
  datatype IterRef = IterRef(index: nat, item: Item)

  /** a is greater than b in the heap's order: the earlier key, and the lower index on a tie. */
  predicate Greater(rev: bool, a: IterRef, b: IterRef) {
    if a.item.key == b.item.key then a.index < b.index else Before(rev, a.item.key, b.item.key)
  }

  /** The heap's peek: the greatest entry, found by a scan. */
  method Peek(rev: bool, heap: seq<IterRef>) returns (g: nat)
    requires heap != []
    ensures g < |heap| && forall a :: 0 <= a < |heap| ==> a == g || !Greater(rev, heap[a], heap[g])
  {
    g := 0;
    var n := 1;
    while n < |heap|
      invariant 1 <= n <= |heap| && g < n
      invariant forall a :: 0 <= a < n ==> a == g || !Greater(rev, heap[a], heap[g])
    {
      if Greater(rev, heap[n], heap[g]) { g := n; }
      n := n + 1;
    }
  }

  // ----- the heap and its flags -----

  function Entries(heap: seq<IterRef>, i: nat): (n: nat) {
    if heap == [] then 0
    else Entries(heap[..|heap| - 1], i) + if heap[|heap| - 1].index == i then 1 else 0
  }

  /** Source i has an entry in the heap. */
  predicate InHeap(heap: seq<IterRef>, i: nat) { exists a :: 0 <= a < |heap| && heap[a].index == i }

  ghost predicate EntriesDistinct(heap: seq<IterRef>) {
    forall a, b :: 0 <= a < b < |heap| ==> heap[a].index != heap[b].index
  }

  ghost predicate EntryOk(e: IterRef, rests: seq<seq<Item>>) {
    e.index < |rests| && rests[e.index] != [] && rests[e.index][0] == e.item
  }

  /** The heap holds the current heads of the flagged sources, one entry each. */
  ghost predicate HeapOk(heap: seq<IterRef>, flags: seq<bool>, rests: seq<seq<Item>>) {
    && |flags| == |rests|
    && EntriesDistinct(heap)
    && (forall a :: 0 <= a < |heap| ==> EntryOk(heap[a], rests))
    && forall i :: 0 <= i < |flags| ==> (flags[i] <==> InHeap(heap, i))
  }

  lemma {:induction false} EntriesCount(heap: seq<IterRef>, i: nat)
    requires EntriesDistinct(heap)
    ensures Entries(heap, i) == if InHeap(heap, i) then 1 else 0
  {
    if heap != [] {
      var front := heap[..|heap| - 1];
      assert forall a :: 0 <= a < |front| ==> front[a] == heap[a];
      EntriesCount(front, i);
      if heap[|heap| - 1].index == i {
        assert !InHeap(front, i);
      } else if InHeap(heap, i) {
        var a :| 0 <= a < |heap| && heap[a].index == i;
        assert front[a].index == i;
      }
    }
  }

  /** A flag is set exactly when its source has one entry in the heap; no source ever has two. */
  lemma FlagExact(heap: seq<IterRef>, flags: seq<bool>, rests: seq<seq<Item>>, i: nat)
    requires HeapOk(heap, flags, rests) && i < |flags|
    ensures flags[i] <==> Entries(heap, i) == 1
    ensures Entries(heap, i) <= 1
  {
    EntriesCount(heap, i);
  }

  lemma PopOk(heap: seq<IterRef>, flags: seq<bool>, rests: seq<seq<Item>>, g: nat, rest: seq<Item>)
    requires HeapOk(heap, flags, rests) && g < |heap|
    ensures heap[g].index < |rests|
    ensures var i := heap[g].index;
            HeapOk(heap[..g] + heap[g + 1..], flags[i := false], rests[i := rest])
  {
    var i := heap[g].index;
    assert EntryOk(heap[g], rests);
    var heap' := heap[..g] + heap[g + 1..];
    var rests' := rests[i := rest];
    forall a | 0 <= a < |heap'| ensures EntryOk(heap'[a], rests') && heap'[a].index != i {
      assert EntryOk(if a < g then heap[a] else heap[a + 1], rests);
    }
    forall n | 0 <= n < |flags| && n != i ensures InHeap(heap', n) <==> InHeap(heap, n) {
      if InHeap(heap, n) {
        var a :| 0 <= a < |heap| && heap[a].index == n;
        assert heap'[if a < g then a else a - 1].index == n;
      }
    }
  }

  lemma PushOk(heap: seq<IterRef>, flags: seq<bool>, rests: seq<seq<Item>>, i: nat)
    requires HeapOk(heap, flags, rests) && i < |flags| && !flags[i] && rests[i] != []
    ensures HeapOk(heap + [IterRef(i, rests[i][0])], flags[i := true], rests)
  {
    var heap' := heap + [IterRef(i, rests[i][0])];
    assert heap'[|heap|].index == i;
    forall n | 0 <= n < |flags| && n != i ensures InHeap(heap', n) <==> InHeap(heap, n) {
      if InHeap(heap, n) {
        var a :| 0 <= a < |heap| && heap[a].index == n;
        assert heap'[a].index == n;
      }
    }
    assert forall a :: 0 <= a < |heap| ==> EntryOk(heap[a], rests);
  }

  /** With every source that has items in the heap, the greatest entry is the head the merge takes. */
  lemma GreatestIsBest(rev: bool, heap: seq<IterRef>, flags: seq<bool>, rests: seq<seq<Item>>, g: nat)
    requires HeapOk(heap, flags, rests) && g < |heap|
    requires forall i :: 0 <= i < |rests| ==> (flags[i] <==> rests[i] != [])
    requires forall a :: 0 <= a < |heap| ==> a == g || !Greater(rev, heap[a], heap[g])
    ensures EntryOk(heap[g], rests)
    ensures Best(rev, rests, |rests|) == Some(heap[g].index)
  {
    var b := Best(rev, rests, |rests|);
    EntryFlag(heap, flags, rests, g);
    assert b.Some?;
    var a := EntryOf(heap, flags, rests, b.value);
    EntryFlag(heap, flags, rests, a);
    GreatestWins(rev, heap, a, g);
  }

  /** The entry of a flagged source. */
  lemma EntryOf(heap: seq<IterRef>, flags: seq<bool>, rests: seq<seq<Item>>, i: nat) returns (a: nat)
    requires HeapOk(heap, flags, rests) && i < |flags| && flags[i]
    ensures a < |heap| && heap[a].index == i
  {
    a :| 0 <= a < |heap| && heap[a].index == i;
  }

  /** No entry's key comes before the greatest entry's, and none has the same key and a lower index. */
  lemma GreatestWins(rev: bool, heap: seq<IterRef>, a: nat, g: nat)
    requires a < |heap| && g < |heap|
    requires forall i :: 0 <= i < |heap| ==> i == g || !Greater(rev, heap[i], heap[g])
    ensures !Before(rev, heap[a].item.key, heap[g].item.key)
    ensures heap[a].item.key == heap[g].item.key ==> heap[g].index <= heap[a].index
  {
    if a != g { assert !Greater(rev, heap[a], heap[g]); }
  }

  /** Rewind has got to source n: the sources before it are past their internal keys and in the heap. */
  ghost predicate Started(internal: set<Key>, sources: seq<seq<Item>>, rests: seq<seq<Item>>, flags: seq<bool>,
                          n: nat) {
    && |sources| == |rests| == |flags|
    && forall i :: 0 <= i < |flags| ==>
         if i < n then rests[i] == DropLeading(internal, sources[i]) && (flags[i] <==> rests[i] != [])
         else !flags[i]
  }

  lemma NothingStarted(internal: set<Key>, sources: seq<seq<Item>>, rests: seq<seq<Item>>)
    requires |rests| == |sources|
    ensures Started(internal, sources, rests, seq(|sources|, _ => false), 0)
  {
  }

  lemma StartedMore(internal: set<Key>, sources: seq<seq<Item>>, rests: seq<seq<Item>>, flags: seq<bool>, n: nat)
    requires Started(internal, sources, rests, flags, n) && n < |sources|
    ensures |sources| == |rests| == |flags| && !flags[n]
    ensures var d := DropLeading(internal, sources[n]);
            Started(internal, sources, rests[n := d], flags[n := d != []], n + 1)
  {
  }

  lemma StartedAll(internal: set<Key>, sources: seq<seq<Item>>, rests: seq<seq<Item>>, flags: seq<bool>)
    requires Started(internal, sources, rests, flags, |sources|)
    ensures rests == Dropped(internal, sources) && |flags| == |rests|
    ensures forall i :: 0 <= i < |flags| ==> (flags[i] <==> rests[i] != [])
  {
  }

  lemma NothingFlagged(rests: seq<seq<Item>>)
    ensures HeapOk([], seq(|rests|, _ => false), rests)
  {
  }

  /** A source outside the heap may move freely. */
  lemma UnflaggedMoves(heap: seq<IterRef>, flags: seq<bool>, rests: seq<seq<Item>>, i: nat, rest: seq<Item>)
    requires HeapOk(heap, flags, rests) && i < |flags| && !flags[i]
    ensures HeapOk(heap, flags, rests[i := rest])
  {
    assert !InHeap(heap, i);
    forall a | 0 <= a < |heap| ensures EntryOk(heap[a], rests[i := rest]) {
      assert EntryOk(heap[a], rests);
    }
  }

  /** Which sources have been moved: those on the stack are out of the heap, the others unchanged. */
  ghost predicate Moving(k: Key, rests0: seq<seq<Item>>, rests: seq<seq<Item>>, flags: seq<bool>, stack: seq<nat>) {
    && |flags| == |rests| == |rests0|
    && (forall n :: 0 <= n < |stack| ==> stack[n] < |flags|)
    && forall i :: 0 <= i < |flags| ==>
         if i in stack then !flags[i] && rests0[i] != [] && rests0[i][0].key == k && rests[i] == rests0[i][1..]
         else (flags[i] <==> rests0[i] != []) && rests[i] == rests0[i]
  }

  lemma MovingNone(k: Key, rests: seq<seq<Item>>, flags: seq<bool>)
    requires |flags| == |rests| && forall i :: 0 <= i < |flags| ==> (flags[i] <==> rests[i] != [])
    ensures Moving(k, rests, rests, flags, [])
  {
  }

  lemma MovingMore(k: Key, rests0: seq<seq<Item>>, rests: seq<seq<Item>>, flags: seq<bool>, stack: seq<nat>,
                   e: IterRef)
    requires Moving(k, rests0, rests, flags, stack)
    requires EntryOk(e, rests) && e.item.key == k && flags[e.index]
    ensures Moving(k, rests0, rests[e.index := rests[e.index][1..]], flags[e.index := false], stack + [e.index])
  {
  }

  lemma MovingDone(k: Key, rests0: seq<seq<Item>>, rests: seq<seq<Item>>, flags: seq<bool>, stack: seq<nat>)
    requires Moving(k, rests0, rests, flags, stack)
    requires forall i :: 0 <= i < |flags| && flags[i] && rests[i] != [] ==> rests[i][0].key != k
    ensures rests == Advance(rests0, k)
    ensures forall n :: 0 <= n < |stack| ==> stack[n] < |flags| && !flags[stack[n]]
    ensures forall i :: 0 <= i < |flags| && i !in stack ==> (flags[i] <==> rests[i] != [])
  {
  }

  /** When no heap entry has key k, no flagged source has it as its head. */
  lemma NoneLeft(heap: seq<IterRef>, flags: seq<bool>, rests: seq<seq<Item>>, k: Key)
    requires HeapOk(heap, flags, rests)
    requires forall a :: 0 <= a < |heap| ==> heap[a].item.key != k
    ensures forall i :: 0 <= i < |flags| && flags[i] && rests[i] != [] ==> rests[i][0].key != k
  {
    forall i | 0 <= i < |flags| && flags[i] && rests[i] != [] ensures rests[i][0].key != k {
      var a :| 0 <= a < |heap| && heap[a].index == i;
      assert EntryOk(heap[a], rests);
    }
  }

  lemma EntryFlag(heap: seq<IterRef>, flags: seq<bool>, rests: seq<seq<Item>>, h: nat)
    requires HeapOk(heap, flags, rests) && h < |heap|
    ensures EntryOk(heap[h], rests) && flags[heap[h].index]
  {
    assert EntryOk(heap[h], rests);
    assert InHeap(heap, heap[h].index);
  }

  /** When the greatest entry has a key other than k, which comes before no entry's key, no entry has k. */
  lemma OthersDiffer(rev: bool, heap: seq<IterRef>, h: nat, k: Key)
    requires h < |heap| && heap[h].item.key != k
    requires forall a :: 0 <= a < |heap| ==> a == h || !Greater(rev, heap[a], heap[h])
    requires forall a :: 0 <= a < |heap| ==> !Before(rev, heap[a].item.key, k)
    ensures forall a :: 0 <= a < |heap| ==> heap[a].item.key != k
  {
  }

  /** The sources with their first pos[i] items gone. */
  function Remaining(sources: seq<seq<Item>>, pos: seq<nat>): (r: seq<seq<Item>>)
    requires |pos| == |sources| && forall i :: 0 <= i < |pos| ==> pos[i] <= |sources[i]|
    ensures |r| == |sources| && forall i :: 0 <= i < |r| ==> r[i] == sources[i][pos[i]..]
  {
    seq(|sources|, i requires 0 <= i < |sources| => sources[i][pos[i]..])
  }

  /** Steps from the start of a source over its leading internal keys. */
  method LeadingInternal(internal: set<Key>, xs: seq<Item>) returns (n: nat)
    ensures n <= |xs| && xs[n..] == DropLeading(internal, xs)
  {
    n := 0;
    assert xs[0..] == xs;
    while n < |xs| && xs[n].key in internal
      invariant n <= |xs| && DropLeading(internal, xs[n..]) == DropLeading(internal, xs)
    {
      assert xs[n..][1..] == xs[n + 1..];
      n := n + 1;
    }
  }

  class MergeIterator {
    const rev: bool
    /** What each source yields from its start. */
    const sources: seq<seq<Item>>
    /** The keys that start with `!badger!`. */
    const internal: set<Key>
    var pos: seq<nat>
    var heap: seq<IterRef>
    var heapFlag: seq<bool>
    /** None is usize::MAX, the index before the first rewind. */
    var cursorIndex: Option<nat>
    var cursorItem: Option<Item>

    constructor (rev: bool, sources: seq<seq<Item>>, internal: set<Key>)
      ensures this.rev == rev && this.sources == sources && this.internal == internal
      ensures Placed() && HeapOk(heap, heapFlag, Rests()) && cursorIndex == None
    {
      this.rev, this.sources, this.internal := rev, sources, internal;
      pos := seq(|sources|, _ => 0);
      heap, heapFlag := [], seq(|sources|, _ => false);
      cursorIndex, cursorItem := None, None;
    }

    ghost predicate Placed()
      reads this`pos, this`heapFlag
    {
      && |pos| == |sources| && |heapFlag| == |sources|
      && forall i :: 0 <= i < |pos| ==> pos[i] <= |sources[i]|
    }

    /** What each source has left. */
    ghost function Rests(): (r: seq<seq<Item>>)
      requires Placed()
      reads this`pos, this`heapFlag
      ensures |r| == |sources| && forall i :: 0 <= i < |r| ==> r[i] == sources[i][pos[i]..]
    {
      Remaining(sources, pos)
    }

    /** Between calls exactly the sources that have items left are in the heap. */
    ghost predicate Valid()
      reads this`pos, this`heap, this`heapFlag
    {
      && Placed()
      && HeapOk(heap, heapFlag, Rests())
      && forall i :: 0 <= i < |sources| ==> (heapFlag[i] <==> Rests()[i] != [])
    }

    /** A source's peek. */
    method SourcePeek(i: nat) returns (r: Option<Item>)
      requires Placed() && i < |sources|
      ensures r == if Rests()[i] == [] then None else Some(Rests()[i][0])
    {
      r := if pos[i] < |sources[i]| then Some(sources[i][pos[i]]) else None;
    }

    /** A source's next; past its end it stays there. */
    method SourceNext(i: nat)
      requires Placed() && i < |sources|
      modifies this`pos
      ensures Placed()
      ensures Rests() == old(Rests())[i := if old(Rests())[i] == [] then [] else old(Rests())[i][1..]]
    {
      if pos[i] < |sources[i]| { pos := pos[i := pos[i] + 1]; }
      assert Rests()[i] == if old(Rests())[i] == [] then [] else old(Rests())[i][1..];
    }

    method PushItem(i: nat, item: Item)
      requires Placed() && i < |sources| && HeapOk(heap, heapFlag, Rests())
      requires Rests()[i] != [] && Rests()[i][0] == item
      modifies this`heap, this`heapFlag
      ensures Placed() && HeapOk(heap, heapFlag, Rests())
      ensures heapFlag == old(heapFlag)[i := true]
    {
      if heapFlag[i] { return; }
      PushOk(heap, heapFlag, Rests(), i);
      heapFlag := heapFlag[i := true];
      heap := heap + [IterRef(i, item)];
    }

    /** Takes out the greatest entry, whose source then moves on. */
    method PopAndMove(g: nat)
      requires Placed() && HeapOk(heap, heapFlag, Rests()) && g < |heap|
      modifies this`heap, this`heapFlag, this`pos
      ensures Placed() && HeapOk(heap, heapFlag, Rests())
      ensures EntryOk(old(heap)[g], old(Rests()))
      ensures heap == old(heap)[..g] + old(heap)[g + 1..]
      ensures var i := old(heap)[g].index;
              && heapFlag == old(heapFlag)[i := false]
              && Rests() == old(Rests())[i := old(Rests())[i][1..]]
    {
      var i := heap[g].index;
      assert EntryOk(heap[g], Rests());
      PopOk(heap, heapFlag, Rests(), g, Rests()[i][1..]);
      heap := heap[..g] + heap[g + 1..];
      heapFlag := heapFlag[i := false];
      SourceNext(i);
    }

    /** The merge's next key, if there is one, may be delivered: the cursor asserts that it is no internal
        key. On a full pass this means InternalLeads for every source (Merge.NoInternalIff). */
    ghost predicate NextUser()
      requires Placed()
      reads this`pos, this`heapFlag
    {
      var m := Merged(rev, Rests());
      m != [] ==> m[0].key !in internal
    }

    /** `_next`: delivers the first head, moves every source that has its key, and puts those back in
        the heap that have more. */
    method Step() returns (r: Option<Item>)
      requires Valid() && cursorIndex.Some? && NextUser()
      modifies this`pos, this`heap, this`heapFlag, this`cursorIndex, this`cursorItem
      ensures Valid() && cursorIndex.Some? && cursorItem == r
      ensures r.None? <==> Merged(rev, old(Rests())) == []
      ensures r.Some? ==> Rests() == Advance(old(Rests()), r.value.key)
      ensures r.Some? ==> Merged(rev, old(Rests())) == [r.value] + Merged(rev, Rests())
      ensures r.None? ==> Rests() == old(Rests())
    {
      hide HeapOk, Rests, Merged, Best, Advance, InHeap, EntriesDistinct;
      if heap == [] {
        HeapEmpty();
        cursorIndex, cursorItem := Some(0), None;
        return None;
      }
      var g := Peek(rev, heap);
      GreatestIsBest(rev, heap, heapFlag, Rests(), g);
      var first := heap[g];
      MergedHead(rev, Rests());
      cursorIndex, cursorItem := Some(first.index), Some(first.item);
      var stack := MoveSameKey(g);
      Repush(stack);
      r := cursorItem;
    }

    lemma HeapEmpty()
      requires Valid() && heap == []
      ensures Merged(rev, Rests()) == []
    {
      assert forall i :: 0 <= i < |sources| ==> !InHeap(heap, i);
    }

    /** Pops the greatest entry g and then every entry with the same key; their sources move on. */
    method MoveSameKey(g: nat) returns (stack: seq<nat>)
      requires Valid() && g < |heap|
      requires forall a :: 0 <= a < |heap| ==> a == g || !Greater(rev, heap[a], heap[g])
      modifies this`pos, this`heap, this`heapFlag
      ensures Placed() && HeapOk(heap, heapFlag, Rests())
      ensures Rests() == Advance(old(Rests()), old(heap)[g].item.key)
      ensures forall n :: 0 <= n < |stack| ==> stack[n] < |sources| && !heapFlag[stack[n]]
      ensures forall i :: 0 <= i < |sources| && i !in stack ==> (heapFlag[i] <==> Rests()[i] != [])
    {
      hide HeapOk, Rests, Best, InHeap, EntriesDistinct, Advance, Moving;
      ghost var rests0 := Rests();
      ghost var k := heap[g].item.key;
      EntryFlag(heap, heapFlag, rests0, g);
      var first := heap[g];
      MovingNone(k, rests0, heapFlag);
      MovingMore(k, rests0, rests0, heapFlag, [], first);
      PopAndMove(g);
      stack := [] + [first.index];
      while heap != []
        invariant Placed() && HeapOk(heap, heapFlag, Rests()) && Moving(k, rests0, Rests(), heapFlag, stack)
        invariant forall a :: 0 <= a < |heap| ==> !Before(rev, heap[a].item.key, k)
        decreases |heap|
      {
        var h := Peek(rev, heap);
        var e := heap[h];
        EntryFlag(heap, heapFlag, Rests(), h);
        if e.item.key != first.item.key {
          OthersDiffer(rev, heap, h, k);
          break;
        }
        MovingMore(k, rests0, Rests(), heapFlag, stack, e);
        PopAndMove(h);
        stack := stack + [e.index];
      }
      NoneLeft(heap, heapFlag, Rests(), k);
      MovingDone(k, rests0, Rests(), heapFlag, stack);
    }

    /** init_heap_by_indexes. */
    method Repush(stack: seq<nat>)
      requires Placed() && HeapOk(heap, heapFlag, Rests())
      requires forall n :: 0 <= n < |stack| ==> stack[n] < |sources|
      requires forall i :: 0 <= i < |sources| && i !in stack ==> (heapFlag[i] <==> Rests()[i] != [])
      requires forall i :: 0 <= i < |sources| && heapFlag[i] ==> Rests()[i] != []
      modifies this`heap, this`heapFlag
      ensures Valid()
    {
      var n := 0;
      while n < |stack|
        invariant n <= |stack| && Placed() && HeapOk(heap, heapFlag, Rests())
        invariant forall i :: 0 <= i < |sources| && i !in stack[n..] ==> (heapFlag[i] <==> Rests()[i] != [])
        invariant forall i :: 0 <= i < |sources| && heapFlag[i] ==> Rests()[i] != []
      {
        assert stack[n..] == [stack[n]] + stack[n + 1..];
        var item := SourcePeek(stack[n]);
        if item.Some? { PushItem(stack[n], item.value); }
        n := n + 1;
      }
    }

    method Next() returns (r: Option<Item>)
      requires Valid() && (sources == [] || cursorIndex.Some?) && NextUser()
      modifies this`pos, this`heap, this`heapFlag, this`cursorIndex, this`cursorItem
      ensures Valid() && cursorIndex.Some? && cursorItem == r
      ensures r.None? <==> Merged(rev, old(Rests())) == []
      ensures r.Some? ==> Rests() == Advance(old(Rests()), r.value.key)
      ensures r.Some? ==> Merged(rev, old(Rests())) == [r.value] + Merged(rev, Rests())
      ensures r.None? ==> Rests() == old(Rests())
    {
      if sources == [] {
        cursorIndex, cursorItem := Some(0), None;
        return None;
      }
      r := Step();
    }

    /** Restarts every source, skips its leading internal keys and delivers the first key of the merge.
        No key delivered here is internal, whatever the sources hold. */
    method Rewind() returns (r: Option<Item>)
      requires Placed() && HeapOk(heap, heapFlag, Rests())
      modifies this`pos, this`heap, this`heapFlag, this`cursorIndex, this`cursorItem
      ensures Valid() && cursorIndex.Some? && cursorItem == r
      ensures var m := Merged(rev, Dropped(internal, sources));
              if r.None? then m == [] && Merged(rev, Rests()) == [] else m == [r.value] + Merged(rev, Rests())
      ensures r.Some? ==> r.value.key !in internal
      ensures r.Some? ==> Rests() == Advance(Dropped(internal, sources), r.value.key)
      ensures r.None? ==> Rests() == Dropped(internal, sources)
    {
      hide HeapOk, Best, Merged, Advance, Dropped, DropLeading, Remaining, Started, Rests;
      if sources == [] {
        NoSources();
        cursorIndex, cursorItem := Some(0), None;
        return None;
      }
      cursorIndex, cursorItem := None, None;
      heap, heapFlag := [], seq(|sources|, _ => false);
      NothingFlagged(Rests());
      NothingStarted(internal, sources, Rests());
      var i := 0;
      while i < |sources|
        invariant i <= |sources| && Placed() && HeapOk(heap, heapFlag, Rests())
        invariant Started(internal, sources, Rests(), heapFlag, i)
      {
        StartedMore(internal, sources, Rests(), heapFlag, i);
        StartSource(i);
        i := i + 1;
      }
      StartedAll(internal, sources, Rests(), heapFlag);
      cursorIndex, cursorItem := Some(0), None;
      FirstIsUser();
      r := Next();
    }

    /** One source's part of rewind: back to its start, past its internal keys, and its head pushed. */
    method StartSource(i: nat)
      requires Placed() && HeapOk(heap, heapFlag, Rests()) && i < |sources| && !heapFlag[i]
      modifies this`pos, this`heap, this`heapFlag
      ensures Placed() && HeapOk(heap, heapFlag, Rests())
      ensures Rests() == old(Rests())[i := DropLeading(internal, sources[i])]
      ensures heapFlag == old(heapFlag)[i := Rests()[i] != []]
    {
      hide HeapOk, Rests, Remaining, DropLeading;
      ghost var rests0 := Rests();
      SkipInternal(i);
      UnflaggedMoves(heap, heapFlag, rests0, i, DropLeading(internal, sources[i]));
      var item := SourcePeek(i);
      if item.Some? { PushItem(i, item.value); }
    }

    /** Source i restarts and moves past its leading internal keys. */
    method SkipInternal(i: nat)
      requires Placed() && i < |sources|
      modifies this`pos
      ensures Placed() && Rests() == old(Rests())[i := DropLeading(internal, sources[i])]
    {
      hide DropLeading;
      var n := LeadingInternal(internal, sources[i]);
      pos := pos[i := n];
      assert Rests()[i] == DropLeading(internal, sources[i]);
    }

    lemma FirstIsUser()
      requires Placed() && Rests() == Dropped(internal, sources)
      ensures NextUser()
    {
      MergedHead(rev, Rests());
    }

    lemma NoSources()
      requires Placed() && sources == [] && HeapOk(heap, heapFlag, Rests())
      ensures Valid() && Rests() == Dropped(internal, sources) == []
      ensures Merged(rev, Rests()) == []
    {
    }
  }
}
