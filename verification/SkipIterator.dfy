// The skip list iterator is a cursor over the base level: the head, the nodes in key order, the end. The
// lemmas relate a node's neighbours in the chain to the next pointers and to the searches of the list, which
// is how the iterator moves in both directions.
module SkipIterator {
  import opened Base
  import opened SkipShape
  import opened SkipList

  /** The key and value at a node; nothing at the head. */
  function ItemAt(s: Skip, n: nat): Option<(Key, ValueStruct)>
    requires n < |s.keys| == |s.vals|
  {
    if n == 0 then None else Some((s.keys[n], s.vals[n]))
  }

  lemma BaseNode(s: Skip, i: nat)
    requires s.Shape() && i < |s.chain[0]|
    ensures s.chain[0][i] < |s.keys| == |s.vals| && IndexOf(s.chain[0], s.chain[0][i]) == i
    ensures i == 0 <==> s.chain[0][i] == 0
  {
    assert s.LevelOk(0);
    var c := s.chain[0];
    var j := IndexOf(c, c[i]);
    SameIndex(s.keys, s.Column(0), c, i, j);
  }

  /** The next pointer at the base level is the next position. */
  lemma BaseNext(s: Skip, n: nat)
    requires s.Shape() && n in s.chain[0]
    ensures n < |s.keys| && s.Next(n, 0) == Entry(s.chain[0], IndexOf(s.chain[0], n) + 1)
  {
    hide Follows, Ascends, Skip.Nested;
    assert s.LevelOk(0);
    NextIs(s.keys, s.Column(0), s.chain[0], IndexOf(s.chain[0], n));
  }

  /** The nearest smaller node is the previous position. */
  lemma BasePrev(s: Skip, n: nat, r: Option<nat>)
    requires s.Shape() && n in s.chain[0] && 0 < n < |s.keys| && Nearest(s, s.keys[n], true, false, r)
    ensures var i := IndexOf(s.chain[0], n);
            i > 0 && (if r.None? then i == 1 else r.value == s.chain[0][i - 1] && i > 1)
  {
    assert s.LevelOk(0);
    var c := s.chain[0];
    var i := IndexOf(c, n);
    assert i > 0;
    if i > 1 {
      AscendsIff(s.keys, c, i - 1, i);
      assert c[i - 1] in c && Candidate(s, c[i - 1], s.keys[n], true, false);
    }
    if r.Some? {
      var j := IndexOf(c, r.value);
      assert j > 0;
      AscendsIff(s.keys, c, j, i);
      AscendsIff(s.keys, c, j, i - 1);
    }
  }

  lemma LastIsLast(s: Skip, r: Option<nat>)
    requires s.Shape()
    requires match r
             case None => Contents(s) == map[]
             case Some(n) => n in s.chain[0] && 0 < n < |s.keys| && s.keys[n] in Contents(s)
                             && forall k :: k in Contents(s) ==> k <= s.keys[n]
    ensures s.chain[0] != []
    ensures var last := s.chain[0][|s.chain[0]| - 1];
            if r.None? then |s.chain[0]| == 1 && last == 0 else r.value == last
  {
    assert s.LevelOk(0);
    var c := s.chain[0];
    var last := c[|c| - 1];
    if last != 0 { HasNode(s, last); }
    if r.Some? {
      var j := IndexOf(c, r.value);
      AscendsFrom(s.keys, c, j, |c| - 1);
      OneNode(s, 0, r.value, last);
    }
  }

  class SkipIterator {
    const st: SkipList
    /** None is the null pointer of an iterator that has moved off the end. */
    var node: Option<nat>

    constructor (st: SkipList)
      requires st.Valid()
      ensures Valid() && this.st == st && Pos() == 0
    {
      this.st := st;
      node := Some(0);
      new;
      HeadIn(st.Value(), 0);
      BaseNode(st.Value(), 0);
    }

    ghost predicate Valid()
      reads this, st
    {
      st.Valid() && (node.Some? ==> node.value in st.chain[0])
    }

    /** The position among the head, the nodes in key order, and the end. */
    ghost function Pos(): (i: nat)
      requires Valid()
      reads this, st
    {
      if node.None? then |st.chain[0]| else IndexOf(st.chain[0], node.value)
    }

    ghost function Current(): Option<(Key, ValueStruct)>
      requires Valid()
      reads this, st
    {
      if node.None? then None
      else
        BaseNext(st.Value(), node.value);
        ItemAt(st.Value(), node.value)
    }

    method Peek() returns (r: Option<(Key, ValueStruct)>)
      requires Valid()
      ensures r == Current()
    {
      if node.None? || node.value == 0 { return None; }
      BaseNext(st.Value(), node.value);
      return Some((st.keys[node.value], st.vals[node.value]));
    }

    method Next() returns (r: Option<(Key, ValueStruct)>)
      requires Valid()
      modifies this
      ensures Valid() && r == Current()
      ensures Pos() == Min(old(Pos()) + 1, |st.chain[0]|)
    {
      if node.None? { return None; }
      BaseNext(st.Value(), node.value);
      var next := st.tower[node.value][0];
      if next.Some? { BaseNode(st.Value(), Pos() + 1); }
      node := next;
      r := Peek();
    }

    method Prev() returns (r: Option<(Key, ValueStruct)>)
      requires Valid()
      modifies this
      ensures Valid() && r == Current()
      ensures Pos() == Max(old(Pos()) - 1, 0)
    {
      if node.None? {
        r := SeekToLast();
        return;
      }
      BaseNext(st.Value(), node.value);
      HeadIn(st.Value(), 0);
      BaseNode(st.Value(), 0);
      if node.value == 0 { return None; }
      ghost var i := Pos();
      var n, _ := st.FindNear(st.keys[node.value], true, false);
      BasePrev(st.Value(), node.value, n);
      BaseNode(st.Value(), i - 1);
      node := if n.None? then Some(0) else n;
      r := Peek();
    }

    /** Moves to the first entry with key >= k; past the last key the iterator goes back to the head. */
    method Seek(k: Key) returns (r: Option<(Key, ValueStruct)>)
      requires Valid()
      modifies this
      ensures Valid() && r == Current()
      ensures r.None? ==> Pos() == 0 && forall q :: q in Contents(st.Value()) ==> q < k
      ensures r.Some? ==> r.value.0 in Contents(st.Value()) && r.value.1 == Contents(st.Value())[r.value.0]
      ensures r.Some? ==> r.value.0 >= k && forall q :: q in Contents(st.Value()) && q >= k ==> q >= r.value.0
    {
      var n, _ := st.FindNear(k, false, true);
      NearestKey(st.Value(), k, false, true, n);
      r := MoveTo(n);
    }

    /** Moves to the last entry with key <= k, or to the head. */
    method SeekToPrev(k: Key) returns (r: Option<(Key, ValueStruct)>)
      requires Valid()
      modifies this
      ensures Valid() && r == Current()
      ensures r.None? ==> Pos() == 0 && forall q :: q in Contents(st.Value()) ==> q > k
      ensures r.Some? ==> r.value.0 in Contents(st.Value()) && r.value.1 == Contents(st.Value())[r.value.0]
      ensures r.Some? ==> r.value.0 <= k && forall q :: q in Contents(st.Value()) && q <= k ==> q <= r.value.0
    {
      var n, _ := st.FindNear(k, true, true);
      NearestKey(st.Value(), k, true, true, n);
      r := MoveTo(n);
    }

    method MoveTo(n: Option<nat>) returns (r: Option<(Key, ValueStruct)>)
      requires Valid() && (n.Some? ==> n.value in st.chain[0] && 0 < n.value < |st.keys|)
      modifies this
      ensures Valid() && r == Current()
      ensures n.None? ==> Pos() == 0 && r == None
      ensures n.Some? ==> node == n && r == ItemAt(st.Value(), n.value)
    {
      HeadIn(st.Value(), 0);
      BaseNode(st.Value(), 0);
      node := if n.None? then Some(0) else n;
      r := Peek();
    }

    /** The source panics on an empty list. */
    method SeekToFirst() returns (r: Option<(Key, ValueStruct)>)
      requires Valid() && Contents(st.Value()) != map[]
      modifies this
      ensures Valid() && r == Current() && r.Some? && Pos() == 1
    {
      var last := st.FindLast();
      LastIsLast(st.Value(), last);
      HeadIn(st.Value(), 0);
      BaseNext(st.Value(), 0);
      BaseNode(st.Value(), 0);
      BaseNode(st.Value(), 1);
      r := MoveTo(st.tower[0][0]);
    }

    /** The last entry; the head when there is none. */
    method SeekToLast() returns (r: Option<(Key, ValueStruct)>)
      requires Valid()
      modifies this
      ensures Valid() && r == Current()
      ensures Pos() == |st.chain[0]| - 1
    {
      var last := st.FindLast();
      LastIsLast(st.Value(), last);
      BaseNode(st.Value(), |st.chain[0]| - 1);
      r := MoveTo(last);
    }
  }

  /** The nearest node holds the nearest key of the contents. */
  lemma NearestKey(s: Skip, k: Key, less: bool, allowEqual: bool, n: Option<nat>)
    requires s.Shape() && Nearest(s, k, less, allowEqual, n)
    ensures n.None? ==> forall q :: q in Contents(s) ==> !Side(q, k, less, allowEqual)
    ensures n.Some? ==>
              && n.value < |s.keys| == |s.vals| && s.keys[n.value] in Contents(s)
              && Contents(s)[s.keys[n.value]] == s.vals[n.value] && Side(s.keys[n.value], k, less, allowEqual)
              && forall q :: q in Contents(s) && Side(q, k, less, allowEqual) ==>
                   if less then q <= s.keys[n.value] else q >= s.keys[n.value]
  {
    if n.Some? { HasNode(s, n.value); }
    forall q | q in Contents(s) && Side(q, k, less, allowEqual)
      ensures n.Some? && if less then q <= s.keys[n.value] else q >= s.keys[n.value]
    {
      var m := NodeOf(s, q);
    }
  }

  /** q is on the wanted side of k: below or above, k itself only when equality is allowed. */
  predicate Side(q: Key, k: Key, less: bool, allowEqual: bool) {
    if less then q < k || (allowEqual && q == k) else q > k || (allowEqual && q == k)
  }
}
