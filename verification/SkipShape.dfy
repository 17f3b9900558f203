// The skip list as an arena of nodes with towers, and the chain that each level's pointers form. The shape
// says that each chain ascends, ends at the null pointer and is part of the chain below it; the lemmas give
// the neighbours in a chain and say what linking one more node into one level does to it.
module SkipShape {
  import opened Base

  const MAX_HEIGHT := 20

  /** Node 0 is the head; it has no key of its own. A tower entry None is the nil offset. `chain` is
      auxiliary: the nodes linked at each level, in order, the head first. */
  datatype Skip = Skip(keys: seq<Key>, vals: seq<ValueStruct>, tower: seq<seq<Option<nat>>>, height: nat,
                       chain: seq<seq<nat>>)
  {
    /** Keys, values and towers are those of the same nodes. */
    ghost predicate Sized() {
      && |keys| == |vals| == |tower| && |keys| >= 1
      && (forall n :: 0 <= n < |tower| ==> |tower[n]| == MAX_HEIGHT)
      && |chain| == MAX_HEIGHT && 1 <= height <= MAX_HEIGHT
    }

    function Next(n: nat, l: nat): Option<nat>
      requires Sized() && n < |keys| && l < MAX_HEIGHT
    {
      tower[n][l]
    }

    /** The pointers of level l. */
    function Column(l: nat): (r: seq<Option<nat>>)
      requires Sized() && l < MAX_HEIGHT
      ensures |r| == |keys| && forall n :: 0 <= n < |r| ==> r[n] == tower[n][l]
    {
      seq(|keys|, n requires 0 <= n < |keys| => tower[n][l])
    }

    /** The pointers of level l form the chain, whose keys grow. */
    ghost predicate LevelOk(l: nat)
      requires Sized() && l < MAX_HEIGHT
    {
      LevelIn(keys, Column(l), chain[l])
    }

    /** Every node linked at a level is linked at the level below. */
    ghost predicate Nested(l: nat)
      requires Sized() && l + 1 < MAX_HEIGHT
    {
      forall n :: n in chain[l + 1] ==> n in chain[l]
    }

    ghost predicate Shape() {
      && Sized()
      && (forall l :: 0 <= l < MAX_HEIGHT ==> LevelOk(l))
      && (forall l :: 0 <= l < MAX_HEIGHT - 1 ==> Nested(l))
      && forall l :: height <= l < MAX_HEIGHT ==> chain[l] == [0]
    }

    /** The head, or a node with a smaller key. */
    predicate Below(n: nat, k: Key)
      requires n < |keys|
    {
      n == 0 || keys[n] < k
    }

    /** Nil, or a node with a greater key. */
    predicate Above(n: Option<nat>, k: Key) {
      n.None? || (n.value < |keys| && n.value != 0 && k < keys[n.value])
    }
  }

  function Entry(c: seq<nat>, i: nat): Option<nat> { if i < |c| then Some(c[i]) else None }

  /** All but the first entry of c have growing keys. */
  ghost predicate Ascends(keys: seq<Key>, c: seq<nat>) {
    && (forall i :: 0 <= i < |c| ==> c[i] < |keys|)
    && forall i, j :: 1 <= i < j < |c| ==> keys[c[i]] < keys[c[j]]
  }

  /** The pointers lead along c and end there. */
  ghost predicate Follows(col: seq<Option<nat>>, c: seq<nat>) {
    forall i :: 0 <= i < |c| ==> c[i] < |col| && col[c[i]] == Entry(c, i + 1)
  }

  ghost predicate LevelIn(keys: seq<Key>, col: seq<Option<nat>>, c: seq<nat>) {
    && c != [] && c[0] == 0 && Follows(col, c) && Ascends(keys, c)
    && forall i :: 1 <= i < |c| ==> c[i] != 0
  }

  function IndexOf(c: seq<nat>, n: nat): (i: nat)
    requires n in c
    ensures i < |c| && c[i] == n
  {
    if c[0] == n then 0 else 1 + IndexOf(c[1..], n)
  }

  function InsertAfter(c: seq<nat>, p: nat, x: nat): (r: seq<nat>)
    requires p in c
    ensures |r| == |c| + 1 && (forall n :: n in r <==> n in c || n == x)
  {
    var i := IndexOf(c, p);
    assert c == c[..i + 1] + c[i + 1..];
    c[..i + 1] + [x] + c[i + 1..]
  }

  /** Following a pointer of a level: it leads to the next node of the level, and no node of the level lies
      between. */
  lemma NextNode(s: Skip, l: nat, n: nat)
    requires s.Sized() && l < MAX_HEIGHT && s.LevelOk(l) && n in s.chain[l]
    ensures n < |s.keys|
    ensures var m := s.Next(n, l);
            if m.None? then forall q :: q in s.chain[l] && q != 0 ==> n != 0 && s.keys[q] <= s.keys[n]
            else
              && m.value in s.chain[l] && m.value != 0 && m.value < |s.keys|
              && (n != 0 ==> s.keys[n] < s.keys[m.value])
              && forall q :: q in s.chain[l] && q != 0 ==>
                   s.keys[q] >= s.keys[m.value] || (n != 0 && s.keys[q] <= s.keys[n])
  {
    var c := s.chain[l];
    var i := IndexOf(c, n);
    forall q | q in c && q != 0
      ensures if i + 1 < |c| then s.keys[q] >= s.keys[c[i + 1]] || (n != 0 && s.keys[q] <= s.keys[n])
              else n != 0 && s.keys[q] <= s.keys[n]
    {
      var j := IndexOf(c, q);
      assert j != 0;
    }
  }

  /** At one level a key belongs to one node. */
  lemma OneNode(s: Skip, l: nat, a: nat, b: nat)
    requires s.Sized() && l < MAX_HEIGHT && s.LevelOk(l)
    requires a in s.chain[l] && b in s.chain[l] && a != 0 && b != 0
    requires a < |s.keys| && b < |s.keys| && s.keys[a] == s.keys[b]
    ensures a == b
  {
    var i, j := IndexOf(s.chain[l], a), IndexOf(s.chain[l], b);
  }

  lemma {:induction false} NestedDown(s: Skip, l: nat, m: nat, n: nat)
    requires s.Sized() && m <= l < MAX_HEIGHT && n in s.chain[l]
    requires forall i :: 0 <= i < MAX_HEIGHT - 1 ==> s.Nested(i)
    ensures n in s.chain[m]
  {
    if m < l {
      assert s.Nested(l - 1);
      NestedDown(s, l - 1, m, n);
    }
  }

  // ----- the three updates -----

  /** A successful CAS at level l. */
  function Linked(s: Skip, l: nat, p: nat, x: nat): Skip
    requires s.Sized() && l < MAX_HEIGHT && p < |s.keys| && p in s.chain[l]
  {
    s.(tower := s.tower[p := s.tower[p][l := Some(x)]], chain := s.chain[l := InsertAfter(s.chain[l], p, x)])
  }

  lemma LinkedColumns(s: Skip, l: nat, p: nat, x: nat, m: nat)
    requires s.Sized() && l < MAX_HEIGHT && m < MAX_HEIGHT && p < |s.keys| && p in s.chain[l]
    ensures Linked(s, l, p, x).Sized()
    ensures Linked(s, l, p, x).Column(m) == if m == l then s.Column(m)[p := Some(x)] else s.Column(m)
  {
    assert Linked(s, l, p, x).Sized();
  }

  lemma Distinct(keys: seq<Key>, col: seq<Option<nat>>, c: seq<nat>, i: nat, j: nat)
    requires LevelIn(keys, col, c) && i < |c| && j < |c| && i != j
    ensures c[i] != c[j]
  {
  }

  lemma SameIndex(keys: seq<Key>, col: seq<Option<nat>>, c: seq<nat>, i: nat, j: nat)
    requires LevelIn(keys, col, c) && i < |c| && j < |c| && c[i] == c[j]
    ensures i == j
  {
  }

  lemma InsertFollows(keys: seq<Key>, col: seq<Option<nat>>, c: seq<nat>, i: nat, x: nat)
    requires LevelIn(keys, col, c) && i < |c| && x < |col| && x !in c && col[x] == col[c[i]]
    ensures Follows(col[c[i] := Some(x)], c[..i + 1] + [x] + c[i + 1..])
  {
    var c' := c[..i + 1] + [x] + c[i + 1..];
    var col' := col[c[i] := Some(x)];
    forall j | 0 <= j < |c'| ensures c'[j] < |col| && col'[c'[j]] == Entry(c', j + 1) {
      if j < i {
        assert c'[j] == c[j];
        Distinct(keys, col, c, i, j);
      } else if j > i + 1 {
        assert c'[j] == c[j - 1];
        Distinct(keys, col, c, i, j - 1);
      }
    }
  }

  /** Linking x between two neighbours of a level keeps the level in order. */
  lemma LinkIn(keys: seq<Key>, col: seq<Option<nat>>, c: seq<nat>, i: nat, x: nat)
    requires LevelIn(keys, col, c) && i < |c| && 0 < x < |keys| == |col| && x !in c && col[x] == col[c[i]]
    requires c[i] == 0 || keys[c[i]] < keys[x]
    requires i + 1 < |c| ==> keys[x] < keys[c[i + 1]]
    ensures LevelIn(keys, col[c[i] := Some(x)], c[..i + 1] + [x] + c[i + 1..])
  {
    InsertFollows(keys, col, c, i, x);
    InsertAscends(keys, c, i, x);
  }

  lemma LinkLevel(s: Skip, l: nat, p: nat, x: nat)
    requires s.Sized() && l < MAX_HEIGHT && s.LevelOk(l) && p in s.chain[l] && p < |s.keys|
    requires 0 < x < |s.keys| && x !in s.chain[l] && s.Below(p, s.keys[x])
    requires s.Next(x, l) == s.Next(p, l) && s.Above(s.Next(p, l), s.keys[x])
    ensures Linked(s, l, p, x).Sized() && Linked(s, l, p, x).LevelOk(l)
  {
    hide Follows, Ascends;
    var i := IndexOf(s.chain[l], p);
    NextIs(s.keys, s.Column(l), s.chain[l], i);
    LinkIn(s.keys, s.Column(l), s.chain[l], i, x);
    LinkedColumns(s, l, p, x, l);
  }

  lemma NextIs(keys: seq<Key>, col: seq<Option<nat>>, c: seq<nat>, i: nat)
    requires LevelIn(keys, col, c) && i < |c|
    ensures c[i] < |col| && col[c[i]] == Entry(c, i + 1)
    ensures forall j :: 0 <= j < |c| ==> c[j] < |keys|
  {
  }

  lemma InsertAscends(keys: seq<Key>, c: seq<nat>, i: nat, x: nat)
    requires Ascends(keys, c) && i < |c| && x < |keys|
    requires i == 0 || keys[c[i]] < keys[x]
    requires i + 1 < |c| ==> keys[x] < keys[c[i + 1]]
    ensures Ascends(keys, c[..i + 1] + [x] + c[i + 1..])
  {
    var c' := c[..i + 1] + [x] + c[i + 1..];
    assert forall a :: 0 <= a <= i ==> c'[a] == c[a];
    assert forall a :: i + 2 <= a < |c'| ==> c'[a] == c[a - 1];
    assert c'[i + 1] == x;
    forall a, b | 1 <= a < b < |c'| ensures keys[c'[a]] < keys[c'[b]] {
      if a == i + 1 {
        AscendsFrom(keys, c, i + 1, b - 1);
      } else if b == i + 1 {
        AscendsFrom(keys, c, a, i);
      }
    }
  }

  lemma AscendsIff(keys: seq<Key>, c: seq<nat>, i: nat, j: nat)
    requires Ascends(keys, c) && 1 <= i < |c| && 1 <= j < |c|
    ensures keys[c[i]] < keys[c[j]] <==> i < j
  {
  }

  lemma AscendsFrom(keys: seq<Key>, c: seq<nat>, a: nat, b: nat)
    requires Ascends(keys, c) && 1 <= a <= b < |c|
    ensures keys[c[a]] <= keys[c[b]]
  {
  }

  lemma SameLevel(s: Skip, s': Skip, m: nat)
    requires s.Sized() && s'.Sized() && m < MAX_HEIGHT && s.LevelOk(m)
    requires s'.keys == s.keys && s'.Column(m) == s.Column(m) && s'.chain[m] == s.chain[m]
    ensures s'.LevelOk(m)
  {
  }

  /** A successful CAS keeps the whole shape when x is already linked at the level below. */
  lemma LinkShape(s: Skip, l: nat, p: nat, x: nat)
    requires s.Shape() && l < s.height && p in s.chain[l] && p < |s.keys|
    requires 0 < x < |s.keys| && x !in s.chain[l] && (l > 0 ==> x in s.chain[l - 1])
    requires s.Below(p, s.keys[x]) && s.Next(x, l) == s.Next(p, l) && s.Above(s.Next(p, l), s.keys[x])
    ensures Linked(s, l, p, x).Shape()
  {
    hide Skip.LevelOk, InsertAfter;
    LinkLevel(s, l, p, x);
    var s' := Linked(s, l, p, x);
    forall m | 0 <= m < MAX_HEIGHT ensures s'.LevelOk(m) {
      LinkedColumns(s, l, p, x, m);
      if m != l { SameLevel(s, s', m); }
    }
    forall m | 0 <= m < MAX_HEIGHT - 1 ensures s'.Nested(m) {
      assert s.Nested(m);
    }
  }

  /** Writing a pointer of a node outside a level, a value, or the height. */
  function Stored(s: Skip, x: nat, l: nat, n: Option<nat>): Skip
    requires s.Sized() && l < MAX_HEIGHT && x < |s.keys|
  {
    s.(tower := s.tower[x := s.tower[x][l := n]])
  }

  lemma StoreShape(s: Skip, x: nat, l: nat, n: Option<nat>)
    requires s.Shape() && l < MAX_HEIGHT && x < |s.keys| && x !in s.chain[l]
    ensures Stored(s, x, l, n).Shape()
  {
    var s' := Stored(s, x, l, n);
    assert s'.Sized();
    forall m | 0 <= m < MAX_HEIGHT ensures s'.LevelOk(m) {
      assert s.LevelOk(m);
    }
    forall m | 0 <= m < MAX_HEIGHT - 1 ensures s'.Nested(m) { assert s.Nested(m); }
  }

  function NoTower(): (t: seq<Option<nat>>)
    ensures |t| == MAX_HEIGHT && forall l :: 0 <= l < MAX_HEIGHT ==> t[l] == None
  {
    seq(MAX_HEIGHT, _ => None)
  }

  /** A new node, linked nowhere. */
  function Grown(s: Skip, k: Key, v: ValueStruct): Skip {
    s.(keys := s.keys + [k], vals := s.vals + [v], tower := s.tower + [NoTower()])
  }

  lemma GrowShape(s: Skip, k: Key, v: ValueStruct)
    requires s.Shape()
    ensures Grown(s, k, v).Shape() && forall l :: 0 <= l < MAX_HEIGHT ==> |s.keys| !in s.chain[l]
  {
    var s' := Grown(s, k, v);
    assert s'.Sized();
    forall l | 0 <= l < MAX_HEIGHT ensures s'.LevelOk(l) && |s.keys| !in s.chain[l] {
      assert s.LevelOk(l);
    }
    forall m | 0 <= m < MAX_HEIGHT - 1 ensures s'.Nested(m) { assert s.Nested(m); }
  }

  lemma RaiseShape(s: Skip, h: nat)
    requires s.Shape() && s.height <= h <= MAX_HEIGHT
    ensures s.(height := h).Shape()
  {
    var s' := s.(height := h);
    assert s'.Sized();
    forall l | 0 <= l < MAX_HEIGHT ensures s'.LevelOk(l) { assert s.LevelOk(l); }
    forall m | 0 <= m < MAX_HEIGHT - 1 ensures s'.Nested(m) { assert s.Nested(m); }
  }

  lemma ValueShape(s: Skip, n: nat, v: ValueStruct)
    requires s.Shape() && n < |s.vals|
    ensures s.(vals := s.vals[n := v]).Shape()
  {
    var s' := s.(vals := s.vals[n := v]);
    assert s'.Sized();
    forall l | 0 <= l < MAX_HEIGHT ensures s'.LevelOk(l) { assert s.LevelOk(l); }
    forall m | 0 <= m < MAX_HEIGHT - 1 ensures s'.Nested(m) { assert s.Nested(m); }
  }

  // ----- the map a skip list stands for -----

  function MapUpTo(s: Skip, c: seq<nat>): map<Key, ValueStruct>
    requires |s.keys| == |s.vals| && forall i :: 0 <= i < |c| ==> c[i] < |s.keys|
  {
    if c == [] then map[] else MapUpTo(s, c[..|c| - 1])[s.keys[c[|c| - 1]] := s.vals[c[|c| - 1]]]
  }

  /** The contents: what the nodes linked at the base level hold. */
  function Contents(s: Skip): map<Key, ValueStruct>
    requires s.Shape()
  {
    assert s.LevelOk(0);
    MapUpTo(s, s.chain[0][1..])
  }

  lemma {:induction false} MapUpToHas(s: Skip, c: seq<nat>, n: nat)
    requires |s.keys| == |s.vals| && forall i :: 0 <= i < |c| ==> c[i] < |s.keys|
    requires forall i, j :: 0 <= i < j < |c| ==> s.keys[c[i]] < s.keys[c[j]]
    requires n in c
    ensures s.keys[n] in MapUpTo(s, c) && MapUpTo(s, c)[s.keys[n]] == s.vals[n]
  {
    var last := c[|c| - 1];
    assert c == c[..|c| - 1] + [last];
    if n != last { MapUpToHas(s, c[..|c| - 1], n); }
  }

  lemma {:induction false} MapUpToOnly(s: Skip, c: seq<nat>, k: Key) returns (n: nat)
    requires |s.keys| == |s.vals| && forall i :: 0 <= i < |c| ==> c[i] < |s.keys|
    requires k in MapUpTo(s, c)
    ensures n in c && s.keys[n] == k
  {
    n := c[|c| - 1];
    if s.keys[n] != k { n := MapUpToOnly(s, c[..|c| - 1], k); }
  }

  lemma BaseIn(s: Skip, n: nat)
    requires s.Shape()
    ensures s.chain[0] != [] && (n in s.chain[0][1..] <==> n in s.chain[0] && n != 0)
  {
    assert s.LevelOk(0);
    var c := s.chain[0];
    assert c == [0] + c[1..];
  }

  /** A linked node's key is in the contents with the node's value. */
  lemma HasNode(s: Skip, n: nat)
    requires s.Shape() && n in s.chain[0] && n != 0
    ensures n < |s.keys| && s.keys[n] in Contents(s) && Contents(s)[s.keys[n]] == s.vals[n]
  {
    assert s.LevelOk(0);
    BaseIn(s, n);
    MapUpToHas(s, s.chain[0][1..], n);
  }

  /** The node of a key of the contents. */
  lemma NodeOf(s: Skip, k: Key) returns (n: nat)
    requires s.Shape() && k in Contents(s)
    ensures n in s.chain[0] && n != 0 && n < |s.keys| && s.keys[n] == k && Contents(s)[k] == s.vals[n]
  {
    assert s.LevelOk(0);
    n := MapUpToOnly(s, s.chain[0][1..], k);
    BaseIn(s, n);
    HasNode(s, n);
  }

  /** Lists whose base levels hold the same keys and values have the same contents, with a change at one
      key when one node differs. */
  lemma ContentsAre(s: Skip, m: map<Key, ValueStruct>)
    requires s.Shape()
    requires forall n :: n in s.chain[0] && n != 0 && n < |s.keys| ==> s.keys[n] in m && m[s.keys[n]] == s.vals[n]
    requires forall k :: k in m ==> exists n :: n in s.chain[0] && n != 0 && n < |s.keys| && s.keys[n] == k
    ensures Contents(s) == m
  {
    forall k | k in Contents(s) ensures k in m && m[k] == Contents(s)[k] { var n := NodeOf(s, k); }
    forall k | k in m ensures k in Contents(s) {
      var n :| n in s.chain[0] && n != 0 && n < |s.keys| && s.keys[n] == k;
      HasNode(s, n);
    }
  }
}
