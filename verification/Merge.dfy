// What a k-way merge is, apart from any iterator.
module Merge {
  import opened Base

  datatype Item = Item(key: Key, value: ValueStruct)

  /** The order the sources run in; a reversed iterator runs down. */
  predicate Before(rev: bool, a: Key, b: Key) { if rev then a > b else a < b }

  ghost predicate Sorted(rev: bool, xs: seq<Item>) {
    forall i, j :: 0 <= i < j < |xs| ==> Before(rev, xs[i].key, xs[j].key)
  }

  predicate HasKey(xs: seq<Item>, k: Key) { exists x :: x in xs && x.key == k }

  ghost predicate AllSorted(rev: bool, rests: seq<seq<Item>>) {
    forall i :: 0 <= i < |rests| ==> Sorted(rev, rests[i])
  }

  /** The source, among the first n, whose head comes first; the lowest index on a tie. */
  function Best(rev: bool, rests: seq<seq<Item>>, n: nat): (b: Option<nat>)
    requires n <= |rests|
    ensures b.Some? ==> b.value < n && rests[b.value] != []
    ensures b.None? <==> forall i :: 0 <= i < n ==> rests[i] == []
    ensures b.Some? ==> forall i :: 0 <= i < n && rests[i] != [] ==>
              !Before(rev, rests[i][0].key, rests[b.value][0].key)
    ensures b.Some? ==> forall i :: 0 <= i < b.value && rests[i] != [] ==> rests[i][0].key != rests[b.value][0].key
  {
    if n == 0 then None
    else
      var b := Best(rev, rests, n - 1);
      if rests[n - 1] == [] then b
      else if b.None? then Some(n - 1)
      else if Before(rev, rests[n - 1][0].key, rests[b.value][0].key) then Some(n - 1)
      else b
  }

  /** Every source whose head has key k moves on. */
  function Advance(rests: seq<seq<Item>>, k: Key): (r: seq<seq<Item>>)
    ensures |r| == |rests|
    ensures forall i :: 0 <= i < |rests| ==>
              r[i] == if rests[i] != [] && rests[i][0].key == k then rests[i][1..] else rests[i]
  {
    seq(|rests|, i requires 0 <= i < |rests| =>
      if rests[i] != [] && rests[i][0].key == k then rests[i][1..] else rests[i])
  }

  function Total(rests: seq<seq<Item>>): nat {
    if rests == [] then 0 else Total(rests[..|rests| - 1]) + |rests[|rests| - 1]|
  }

  lemma {:induction false} AdvanceTotal(rests: seq<seq<Item>>, k: Key)
    ensures Total(Advance(rests, k)) <= Total(rests)
    ensures (exists i :: 0 <= i < |rests| && rests[i] != [] && rests[i][0].key == k) ==>
              Total(Advance(rests, k)) < Total(rests)
  {
    if rests != [] {
      var front := rests[..|rests| - 1];
      assert Advance(rests, k)[..|rests| - 1] == Advance(front, k);
      AdvanceTotal(front, k);
      assert forall i :: 0 <= i < |front| ==> front[i] == rests[i];
    }
  }

  /** The merge: the first head, then the merge of what is left once every source has passed its key. */
  function Merged(rev: bool, rests: seq<seq<Item>>): seq<Item>
    decreases Total(rests)
  {
    var b := Best(rev, rests, |rests|);
    if b.None? then []
    else
      var x := rests[b.value][0];
      AdvanceTotal(rests, x.key);
      [x] + Merged(rev, Advance(rests, x.key))
  }

  lemma MergedHead(rev: bool, rests: seq<seq<Item>>)
    ensures var b := Best(rev, rests, |rests|);
            if b.None? then Merged(rev, rests) == []
            else Merged(rev, rests) == [rests[b.value][0]] + Merged(rev, Advance(rests, rests[b.value][0].key))
  {
  }

  /** Passing the first key drops that key from every source and nothing else. */
  lemma AdvanceKeys(rev: bool, rests: seq<seq<Item>>, k: Key, i: nat)
    requires AllSorted(rev, rests) && i < |rests|
    requires forall n :: 0 <= n < |rests| && rests[n] != [] ==> !Before(rev, rests[n][0].key, k)
    ensures forall x :: x in Advance(rests, k)[i] <==> x in rests[i] && x.key != k
    ensures Sorted(rev, Advance(rests, k)[i])
  {
    if rests[i] != [] {
      assert rests[i] == [rests[i][0]] + rests[i][1..];
    }
  }

  lemma AdvanceSorted(rev: bool, rests: seq<seq<Item>>, k: Key)
    requires AllSorted(rev, rests)
    ensures AllSorted(rev, Advance(rests, k))
  {
  }

  /** x is the item that the lowest source holding its key has for it. */
  ghost predicate Lowest(rests: seq<seq<Item>>, x: Item) {
    exists i :: 0 <= i < |rests| && x in rests[i] && forall n :: 0 <= n < i ==> !HasKey(rests[n], x.key)
  }

  /** The merge has exactly the winning items of all keys. */
  lemma {:induction false} MergedItems(rev: bool, rests: seq<seq<Item>>, x: Item)
    requires AllSorted(rev, rests)
    ensures x in Merged(rev, rests) <==> Lowest(rests, x)
    decreases Total(rests)
  {
    var b := Best(rev, rests, |rests|);
    if b.Some? {
      var first := rests[b.value][0];
      var k := first.key;
      var rests' := Advance(rests, k);
      AdvanceTotal(rests, k);
      AdvanceSorted(rev, rests, k);
      MergedItems(rev, rests', x);
      forall i | 0 <= i < |rests|
        ensures forall y :: y in rests'[i] <==> y in rests[i] && y.key != k
      {
        AdvanceKeys(rev, rests, k, i);
      }
      assert x in Merged(rev, rests) <==> x == first || x in Merged(rev, rests');
      if x.key == k {
        FirstWins(rev, rests, b.value, x);
      } else {
        LowestKept(rests, rests', k, x);
      }
    }
  }

  lemma FirstWins(rev: bool, rests: seq<seq<Item>>, b: nat, x: Item)
    requires AllSorted(rev, rests) && b < |rests| && rests[b] != [] && x.key == rests[b][0].key
    requires forall i :: 0 <= i < |rests| && rests[i] != [] ==> !Before(rev, rests[i][0].key, rests[b][0].key)
    requires forall i :: 0 <= i < b && rests[i] != [] ==> rests[i][0].key != rests[b][0].key
    ensures Lowest(rests, x) <==> x == rests[b][0]
  {
    var k := x.key;
    forall i, y | 0 <= i < |rests| && y in rests[i] && y.key == k ensures y == rests[i][0] {
      var n :| 0 <= n < |rests[i]| && rests[i][n] == y;
    }
    assert rests[b][0] in rests[b];
    assert forall i :: 0 <= i < b ==> !HasKey(rests[i], k);
    if Lowest(rests, x) {
      var i :| 0 <= i < |rests| && x in rests[i] && forall n :: 0 <= n < i ==> !HasKey(rests[n], x.key);
      assert HasKey(rests[b], k);
      assert i == b;
    }
  }

  lemma LowestKept(rests: seq<seq<Item>>, rests': seq<seq<Item>>, k: Key, x: Item)
    requires |rests'| == |rests| && x.key != k
    requires forall i :: 0 <= i < |rests| ==> forall y :: y in rests'[i] <==> y in rests[i] && y.key != k
    ensures Lowest(rests', x) <==> Lowest(rests, x)
  {
    forall i | 0 <= i < |rests| ensures HasKey(rests'[i], x.key) <==> HasKey(rests[i], x.key) {
      if HasKey(rests[i], x.key) {
        var y :| y in rests[i] && y.key == x.key;
        assert y in rests'[i];
      }
    }
  }

  /** The merge is strictly sorted. */
  lemma {:induction false} MergedSorted(rev: bool, rests: seq<seq<Item>>)
    requires AllSorted(rev, rests)
    ensures Sorted(rev, Merged(rev, rests))
    decreases Total(rests)
  {
    var b := Best(rev, rests, |rests|);
    if b.Some? {
      var k := rests[b.value][0].key;
      var rests' := Advance(rests, k);
      AdvanceTotal(rests, k);
      AdvanceSorted(rev, rests, k);
      MergedSorted(rev, rests');
      var tail := Merged(rev, rests');
      forall i | 0 <= i < |tail| ensures Before(rev, k, tail[i].key) {
        AfterFirst(rev, rests, k, tail[i]);
      }
      SortedCons(rev, rests[b.value][0], tail);
    }
  }

  lemma AfterFirst(rev: bool, rests: seq<seq<Item>>, k: Key, x: Item)
    requires AllSorted(rev, rests) && x in Merged(rev, Advance(rests, k))
    requires forall n :: 0 <= n < |rests| && rests[n] != [] ==> !Before(rev, rests[n][0].key, k)
    ensures Before(rev, k, x.key)
  {
    AdvanceSorted(rev, rests, k);
    MergedItems(rev, Advance(rests, k), x);
    var i :| 0 <= i < |rests| && x in Advance(rests, k)[i];
    AdvanceKeys(rev, rests, k, i);
    var n :| 0 <= n < |rests[i]| && rests[i][n] == x;
  }

  lemma SortedCons(rev: bool, x: Item, tail: seq<Item>)
    requires Sorted(rev, tail) && forall i :: 0 <= i < |tail| ==> Before(rev, x.key, tail[i].key)
    ensures Sorted(rev, [x] + tail)
  {
  }

  /** Sortedness and the winning items determine the merge: there is no other answer. */
  lemma {:induction false} MergedUnique(rev: bool, rests: seq<seq<Item>>, out: seq<Item>)
    requires AllSorted(rev, rests) && Sorted(rev, out)
    requires forall x :: x in out <==> Lowest(rests, x)
    ensures out == Merged(rev, rests)
  {
    MergedSorted(rev, rests);
    var m := Merged(rev, rests);
    forall x ensures x in out <==> x in m { MergedItems(rev, rests, x); }
    SameSorted(rev, out, m);
  }

  lemma {:induction false} SameSorted(rev: bool, a: seq<Item>, b: seq<Item>)
    requires Sorted(rev, a) && Sorted(rev, b) && forall x :: x in a <==> x in b
    ensures a == b
  {
    FirstIn(a);
    FirstIn(b);
    if a != [] {
      var x, y := a[0], b[0];
      assert x in b && y in a;
      FirstLeast(rev, a, y);
      FirstLeast(rev, b, x);
      var ta, tb := a[1..], b[1..];
      RestItems(rev, a);
      RestItems(rev, b);
      forall z | z in ta ensures z in tb { assert z in b; }
      forall z | z in tb ensures z in ta { assert z in a; }
      SameSorted(rev, ta, tb);
      assert a == [x] + ta && b == [y] + tb;
    }
  }

  lemma FirstIn(a: seq<Item>)
    ensures a != [] ==> a[0] in a
  {
  }

  lemma FirstLeast(rev: bool, a: seq<Item>, x: Item)
    requires Sorted(rev, a) && x in a
    ensures x == a[0] || Before(rev, a[0].key, x.key)
  {
  }

  lemma RestItems(rev: bool, a: seq<Item>)
    requires Sorted(rev, a) && a != []
    ensures Sorted(rev, a[1..]) && forall x :: x in a[1..] <==> x in a && x != a[0]
  {
    assert a == [a[0]] + a[1..];
  }

  // ----- internal keys -----

  /** Rewind skips the internal keys at the start of a source. */
  function DropLeading(internal: set<Key>, xs: seq<Item>): (r: seq<Item>)
    ensures r != [] ==> r[0].key !in internal
  {
    if xs != [] && xs[0].key in internal then DropLeading(internal, xs[1..]) else xs
  }

  lemma {:induction false} DropLeadingSuffix(internal: set<Key>, xs: seq<Item>)
    ensures var r := DropLeading(internal, xs);
            |r| <= |xs| && r == xs[|xs| - |r|..]
  {
    if xs != [] && xs[0].key in internal { DropLeadingSuffix(internal, xs[1..]); }
  }

  /** Internal keys, if any, come first. */
  ghost predicate InternalLeads(internal: set<Key>, xs: seq<Item>) {
    forall i, j :: 0 <= i < j < |xs| && xs[j].key in internal ==> xs[i].key in internal
  }

  lemma {:induction false} DropLeadingClean(internal: set<Key>, xs: seq<Item>)
    ensures InternalLeads(internal, xs) <==> forall x :: x in DropLeading(internal, xs) ==> x.key !in internal
  {
    if xs == [] {
    } else if xs[0].key in internal {
      DropLeadingClean(internal, xs[1..]);
      LeadsTail(internal, xs);
    } else {
      if InternalLeads(internal, xs) {
        assert forall j :: 0 < j < |xs| ==> xs[j].key !in internal;
      } else {
        var i, j :| 0 <= i < j < |xs| && xs[j].key in internal && xs[i].key !in internal;
        assert xs[j] in xs;
      }
    }
  }

  lemma LeadsTail(internal: set<Key>, xs: seq<Item>)
    requires xs != [] && xs[0].key in internal
    ensures InternalLeads(internal, xs) <==> InternalLeads(internal, xs[1..])
  {
    var t := xs[1..];
    if InternalLeads(internal, t) {
      forall i, j | 0 <= i < j < |xs| && xs[j].key in internal ensures xs[i].key in internal {
        if i > 0 { assert t[i - 1] == xs[i] && t[j - 1] == xs[j]; }
      }
    }
    if InternalLeads(internal, xs) {
      forall i, j | 0 <= i < j < |t| && t[j].key in internal ensures t[i].key in internal {
        assert t[i] == xs[i + 1] && t[j] == xs[j + 1];
      }
    }
  }

  function Dropped(internal: set<Key>, sources: seq<seq<Item>>): (r: seq<seq<Item>>)
    ensures |r| == |sources| && forall i :: 0 <= i < |r| ==> r[i] == DropLeading(internal, sources[i])
  {
    seq(|sources|, i requires 0 <= i < |sources| => DropLeading(internal, sources[i]))
  }

  lemma DroppedSorted(rev: bool, internal: set<Key>, sources: seq<seq<Item>>)
    requires AllSorted(rev, sources)
    ensures AllSorted(rev, Dropped(internal, sources))
  {
    hide Sorted;
    forall i | 0 <= i < |sources| ensures Sorted(rev, Dropped(internal, sources)[i]) {
      DropLeadingSuffix(internal, sources[i]);
      SuffixSorted(rev, sources[i], |sources[i]| - |DropLeading(internal, sources[i])|);
    }
  }

  lemma SuffixSorted(rev: bool, xs: seq<Item>, n: nat)
    requires Sorted(rev, xs) && n <= |xs|
    ensures Sorted(rev, xs[n..])
  {
  }

  /** The cursor's assertion that no internal key is ever delivered holds on a full pass exactly when the
      internal keys of every source come before its user keys. */
  lemma NoInternalIff(rev: bool, internal: set<Key>, sources: seq<seq<Item>>)
    requires AllSorted(rev, sources)
    ensures (forall x :: x in Merged(rev, Dropped(internal, sources)) ==> x.key !in internal) <==>
            forall i :: 0 <= i < |sources| ==> InternalLeads(internal, sources[i])
  {
    hide Merged, DropLeading, InternalLeads, Lowest, AllSorted;
    var rests := Dropped(internal, sources);
    DroppedSorted(rev, internal, sources);
    if forall i :: 0 <= i < |sources| ==> InternalLeads(internal, sources[i]) {
      forall x | x in Merged(rev, rests) ensures x.key !in internal {
        MergedItems(rev, rests, x);
        var i := LowestSource(rests, x);
        DropLeadingClean(internal, sources[i]);
      }
    } else {
      var i :| 0 <= i < |sources| && !InternalLeads(internal, sources[i]);
      DropLeadingClean(internal, sources[i]);
      var x: Item :| x in rests[i] && x.key in internal;
      assert HasKey(rests[i], x.key);
      var w := KeyWinner(rests, i, x.key);
      MergedItems(rev, rests, w);
    }
  }

  lemma LowestSource(rests: seq<seq<Item>>, x: Item) returns (i: nat)
    requires Lowest(rests, x)
    ensures i < |rests| && x in rests[i] && forall n :: 0 <= n < i ==> !HasKey(rests[n], x.key)
  {
    i :| 0 <= i < |rests| && x in rests[i] && forall n :: 0 <= n < i ==> !HasKey(rests[n], x.key);
  }

  /** Every key of a source has a winning item. */
  lemma {:induction false} KeyWinner(rests: seq<seq<Item>>, i: nat, k: Key) returns (x: Item)
    requires i < |rests| && HasKey(rests[i], k)
    ensures Lowest(rests, x) && x.key == k
  {
    if n :| 0 <= n < i && HasKey(rests[n], k) {
      x := KeyWinner(rests, n, k);
    } else {
      x :| x in rests[i] && x.key == k;
    }
  }
}
