// Walking the tables of a disjoint level one after the other (ConcatIterator: rewind, next, peek).
module ConcatIterator {
  import opened Base
  import opened Merge

  /** What is left of a list of tables of which table c has been entered and stands at item a (-1: not
      yet moved to its first item). */
  ghost function Left(order: seq<seq<Item>>, c: nat, a: int): (r: seq<Item>)
    requires c < |order| && -1 <= a <= |order[c]|
  {
    order[c][Max(a, 0)..] + Flatten(order[c + 1..])
  }

  lemma LeftAll(order: seq<seq<Item>>)
    requires order != []
    ensures Left(order, 0, 0) == Flatten(order)
  {
  }

  lemma LeftHead(order: seq<seq<Item>>, c: nat, a: nat)
    requires c < |order| && a < |order[c]|
    ensures Left(order, c, a) != [] && Left(order, c, a)[0] == order[c][a]
    ensures Left(order, c, -1) == Left(order, c, 0)
  {
  }

  /** Passing one item: the next of the same table, else the start of the next table. */
  lemma LeftStep(order: seq<seq<Item>>, c: nat, a: nat)
    requires c < |order| && a < |order[c]|
    ensures Left(order, c, a) != []
    ensures Left(order, c, a)[1..] ==
            if a + 1 < |order[c]| then Left(order, c, a + 1)
            else if c + 1 < |order| then Left(order, c + 1, -1)
            else []
    ensures a + 1 < |order[c]| ==> Left(order, c, a + 1)[0] == order[c][a + 1]
  {
    if c + 1 < |order| {
      assert order[c + 1..][1..] == order[c + 2..];
    }
  }

  // ----- the walk, with tables and their cursors in the order of the walk -----

  ghost predicate NonEmpty(order: seq<seq<Item>>) { forall c :: 0 <= c < |order| ==> order[c] != [] }

  /** The walk is in table c: those before it have run out, those after it are untouched. */
  ghost predicate In(order: seq<seq<Item>>, at: seq<int>, c: int) {
    && |at| == |order| && 0 <= c < |order| && 0 <= at[c] < |order[c]|
    && (forall n :: 0 <= n < c ==> at[n] == |order[n]|)
    && forall n :: c < n < |order| ==> at[n] == -1
  }

  /** The walk is over. */
  ghost predicate Over(order: seq<seq<Item>>, at: seq<int>) {
    |at| == |order| && forall n :: 0 <= n < |order| ==> at[n] == |order[n]|
  }

  /** The retraced walk has got to its c-th table, having left off in its c0-th with `rest` to go. */
  ghost predicate Retrace(order: seq<seq<Item>>, at: seq<int>, c0: nat, c: nat, rest: seq<Item>) {
    && |at| == |order| && c <= |order| && c <= c0 + 1
    && (forall n :: 0 <= n < c ==> at[n] == |order[n]|)
    && (forall n :: c <= n < |order| && n != c0 ==> at[n] == if n < c0 then |order[n]| else -1)
    && (c <= c0 < |order| ==> 0 <= at[c0] < |order[c0]| && rest == Left(order, c0, at[c0]))
    && (c <= c0 && c0 >= |order| ==> rest == [])
    && (c > c0 ==> rest != [] && rest[1..] == if c < |order| then Left(order, c, -1) else [])
  }

  /** One table's next within the retraced walk. */
  lemma RetraceNext(order: seq<seq<Item>>, at: seq<int>, c0: nat, c: nat, rest: seq<Item>)
    requires NonEmpty(order) && Retrace(order, at, c0, c, rest) && c < |order|
    ensures -1 <= at[c] <= |order[c]|
    ensures var x := Min(at[c] + 1, |order[c]|);
            if x < |order[c]|
            then In(order, at[c := x], c) && c0 <= c && rest != [] && rest[1..] != []
                 && Left(order, c, x) == rest[1..] && rest[1..][0] == order[c][x]
            else Retrace(order, at[c := x], c0, c + 1, rest)
  {
    hide Left;
    if c == c0 {
      LeftStep(order, c, at[c]);
      if at[c] + 1 < |order[c]| { LeftHead(order, c, at[c] + 1); }
    } else if c > c0 {
      LeftHead(order, c, 0);
    }
  }

  lemma RetraceStarts(order: seq<seq<Item>>, at: seq<int>, c0: nat, rest: seq<Item>)
    requires if c0 < |order| then In(order, at, c0) && rest == Left(order, c0, at[c0])
             else Over(order, at) && rest == []
    ensures Retrace(order, at, c0, 0, rest)
  {
    hide Left;
  }

  lemma RetraceEnds(order: seq<seq<Item>>, at: seq<int>, c0: nat, rest: seq<Item>)
    requires Retrace(order, at, c0, |order|, rest)
    ensures Over(order, at) && (rest == [] || rest[1..] == [])
  {
    hide Left;
  }

  class ConcatIterator {
    /** The items of each table, in the direction of the walk. */
    const tables: seq<seq<Item>>
    const reversed: bool
    /** Where each table's iterator stands: -1 after a reset, the length once it has run out. */
    var at: seq<int>
    var index: int

    constructor (tables: seq<seq<Item>>, reversed: bool)
      ensures this.tables == tables && this.reversed == reversed && index == -1
      ensures |at| == |tables| && forall i :: 0 <= i < |at| ==> at[i] == -1
    {
      this.tables, this.reversed := tables, reversed;
      at, index := seq(|tables|, _ => -1), -1;
    }

    /** The position in `tables` of the c-th table visited. */
    function Slot(c: int): (i: int)
      ensures 0 <= c < |tables| <==> 0 <= i < |tables|
    {
      if reversed then |tables| - 1 - c else c
    }

    /** The tables in the order of the walk. */
    ghost function Order(): (r: seq<seq<Item>>)
      ensures |r| == |tables| && forall c :: 0 <= c < |r| ==> r[c] == tables[Slot(c)]
    {
      seq(|tables|, c requires 0 <= c < |tables| => tables[Slot(c)])
    }

    /** The tables as they are, or from the last to the first. */
    lemma WalkOrder(c: nat)
      requires c < |tables|
      ensures |Order()| == |tables| && Order()[c] == if reversed then tables[|tables| - 1 - c] else tables[c]
    {
    }

    /** Their cursors in that order. */
    ghost function Stands(): (r: seq<int>)
      requires |at| == |tables|
      reads this
      ensures |r| == |tables| && forall c :: 0 <= c < |r| ==> r[c] == at[Slot(c)]
    {
      Ordered(at)
    }

    ghost function Ordered(at: seq<int>): (r: seq<int>)
      requires |at| == |tables|
      ensures |r| == |tables| && forall c :: 0 <= c < |r| ==> r[c] == at[Slot(c)]
    {
      seq(|tables|, c requires 0 <= c < |tables| => at[Slot(c)])
    }

    /** All items of the walk. */
    ghost function All(): seq<Item> { Flatten(Order()) }

    ghost predicate Valid()
      reads this
    {
      && |at| == |tables| && NonEmpty(Order())
      && if Over(Order(), Stands()) then tables == [] || index == Slot(|tables|) else In(Order(), Stands(), Slot(index))
    }

    /** The items not yet passed; the first of them is the current one. */
    ghost function Rest(): seq<Item>
      requires Valid()
      reads this
    {
      if Over(Order(), Stands()) then [] else Left(Order(), Slot(index), Stands()[Slot(index)])
    }

    method Peek() returns (r: Option<Item>)
      requires Valid()
      ensures r == if Rest() == [] then None else Some(Rest()[0])
    {
      hide Left;
      if index < 0 || index >= |tables| { return None; }
      LeftHead(Order(), Slot(index), Stands()[Slot(index)]);
      if 0 <= at[index] < |tables[index]| { return Some(tables[index][at[index]]); }
      return None;
    }

    /** The next of one table's iterator. */
    method TableNext(i: nat) returns (r: Option<Item>)
      requires |at| == |tables| && i < |tables| && -1 <= at[i] <= |tables[i]|
      modifies this`at
      ensures |at| == |tables| && at == old(at)[i := Min(old(at)[i] + 1, |tables[i]|)]
      ensures Stands() == old(Stands())[Slot(i) := at[i]]
      ensures r == if at[i] < |tables[i]| then Some(tables[i][at[i]]) else None
    {
      at := at[i := Min(at[i] + 1, |tables[i]|)];
      r := if at[i] < |tables[i]| then Some(tables[i][at[i]]) else None;
    }

    /** Resets every table and moves the first one to its first item. */
    method Rewind() returns (r: Option<Item>)
      requires |at| == |tables| && NonEmpty(Order())
      modifies this
      ensures Valid() && Rest() == All()
      ensures r == if All() == [] then None else Some(All()[0])
    {
      hide Left;
      if tables == [] { return None; }
      index := if reversed then |tables| - 1 else 0;
      at := seq(|tables|, _ => -1);
      r := TableNext(index);
      assert In(Order(), Stands(), 0);
      LeftAll(Order());
      LeftHead(Order(), 0, 0);
    }

    /** One turn of the loop: the table at the index gives an item, or the index moves on. */
    method TryTable(ghost c0: nat, ghost c: nat, ghost rest: seq<Item>) returns (r: Option<Item>)
      requires |at| == |tables| && NonEmpty(Order()) && index == Slot(c)
      requires Retrace(Order(), Stands(), c0, c, rest) && c < |tables|
      modifies this
      ensures |at| == |tables|
      ensures r.Some? ==> In(Order(), Stands(), c) && index == Slot(c) && c0 <= c && rest != [] && rest[1..] != []
                          && Left(Order(), c, Stands()[c]) == rest[1..] && r.value == rest[1..][0]
      ensures r.None? ==> Retrace(Order(), Stands(), c0, c + 1, rest) && index == Slot(c + 1)
    {
      hide Left, Retrace, In, NonEmpty;
      RetraceNext(Order(), Stands(), c0, c, rest);
      r := TableNext(index);
      if r.Some? { return; }
      index := if reversed then index - 1 else index + 1;
    }

    /** `init` is never set, so the walk is retraced from its first table; the tables that have run out
        stay so. */
    method Next() returns (r: Option<Item>)
      requires Valid()
      modifies this
      ensures Valid()
      ensures Rest() == if old(Rest()) == [] then [] else old(Rest())[1..]
      ensures r == if Rest() == [] then None else Some(Rest()[0])
    {
      hide Left, Retrace, NonEmpty;
      if tables == [] { return None; }
      ghost var rest := Rest();
      ghost var c0 := if Over(Order(), Stands()) then |tables| else Slot(index);
      ghost var c := 0;
      RetraceStarts(Order(), Stands(), c0, rest);
      index := if reversed then |tables| - 1 else 0;
      while (!reversed && index < |tables|) || (reversed && index >= 0)
        invariant |at| == |tables| && index == Slot(c) && c <= |tables| && Retrace(Order(), Stands(), c0, c, rest)
        decreases |tables| - c
      {
        r := TryTable(c0, c, rest);
        if r.Some? { return; }
        c := c + 1;
      }
      RetraceEnds(Order(), Stands(), c0, rest);
      r := None;
    }
  }
}
