// The skip list used by one thread: it refines a sorted map.
module SkipList {
  import opened Base
  import opened SkipShape

  /** q is a node that find_near may return. */
  predicate Candidate(s: Skip, q: nat, k: Key, less: bool, allowEqual: bool)
    requires q < |s.keys|
  {
    if s.keys[q] == k then allowEqual else if less then s.keys[q] < k else s.keys[q] > k
  }

  /** The exact neighbour of k: the candidate nearest to it. */
  ghost predicate Nearest(s: Skip, k: Key, less: bool, allowEqual: bool, r: Option<nat>)
    requires s.Shape()
  {
    match r
    case None => forall q :: q in s.chain[0] && 0 < q < |s.keys| ==> !Candidate(s, q, k, less, allowEqual)
    case Some(n) =>
      && n in s.chain[0] && 0 < n < |s.keys| && Candidate(s, n, k, less, allowEqual)
      && forall q :: q in s.chain[0] && 0 < q < |s.keys| && Candidate(s, q, k, less, allowEqual) ==>
           if less then s.keys[q] <= s.keys[n] else s.keys[q] >= s.keys[n]
  }

  /** p and n are neighbours at level l with k strictly between them. */
  ghost predicate Splice(s: Skip, l: nat, p: nat, n: Option<nat>, k: Key)
    requires s.Sized() && l < MAX_HEIGHT
  {
    p in s.chain[l] && p < |s.keys| && s.Below(p, k) && s.Next(p, l) == n && s.Above(n, k)
  }

  lemma BetweenNodes(s: Skip, p: nat, n: Option<nat>, k: Key, less: bool, allowEqual: bool)
    requires s.Shape() && Splice(s, 0, p, n, k)
    ensures Nearest(s, k, less, allowEqual, if !less then n else if p == 0 then None else Some(p))
    ensures k !in Contents(s)
  {
    hide Skip.LevelOk, Skip.Nested, Contents;
    assert s.LevelOk(0);
    NextNode(s, 0, p);
    if k in Contents(s) { var q := NodeOf(s, k); }
  }

  lemma AtNode(s: Skip, l: nat, m: nat, k: Key, less: bool)
    requires s.Shape() && l < MAX_HEIGHT && m in s.chain[l] && 0 < m < |s.keys| && s.keys[m] == k
    ensures Nearest(s, k, less, true, Some(m)) && k in Contents(s) && Contents(s)[k] == s.vals[m]
    ensures m in s.chain[0] && s.Sized()
    ensures Nearest(s, k, false, false, s.Next(m, 0))
  {
    NestedDown(s, l, 0, m);
    HasNode(s, m);
    AfterNode(s, m, k);
  }

  lemma AfterNode(s: Skip, m: nat, k: Key)
    requires s.Shape() && m in s.chain[0] && 0 < m < |s.keys| && s.keys[m] == k
    ensures s.Sized() && Nearest(s, k, false, false, s.Next(m, 0))
  {
    assert s.LevelOk(0);
    NextNode(s, 0, m);
  }

  /** The predecessor of the node of k. */
  lemma BeforeNode(s: Skip, p: nat, m: nat, k: Key)
    requires s.Shape() && p in s.chain[0] && p < |s.keys| && s.Below(p, k) && s.Next(p, 0) == Some(m)
    requires m < |s.keys| && s.keys[m] == k
    ensures Nearest(s, k, true, false, if p == 0 then None else Some(p))
  {
    assert s.LevelOk(0);
    NextNode(s, 0, p);
  }

  lemma Rightwards(s: Skip, l: nat, p: nat, m: nat)
    requires s.Shape() && l < MAX_HEIGHT && p in s.chain[l] && p < |s.keys| && s.Next(p, l) == Some(m)
    ensures m in s.chain[l] && 0 < m < |s.keys|
    ensures IndexOf(s.chain[l], m) == IndexOf(s.chain[l], p) + 1
  {
    assert s.LevelOk(l);
    var c := s.chain[l];
    var i := IndexOf(c, p);
    NextIs(s.keys, s.Column(l), c, i);
    var j := IndexOf(c, m);
    SameIndex(s.keys, s.Column(l), c, j, i + 1);
  }

  lemma HeadIn(s: Skip, l: nat)
    requires s.Shape() && l < MAX_HEIGHT
    ensures 0 in s.chain[l]
  {
    assert s.LevelOk(l);
    assert s.chain[l][0] == 0;
  }

  lemma StepDown(s: Skip, l: nat, n: nat)
    requires s.Shape() && 0 < l < MAX_HEIGHT && n in s.chain[l]
    ensures n in s.chain[l - 1]
  {
    assert s.Nested(l - 1);
  }

  class SkipList {
    var keys: seq<Key>
    var vals: seq<ValueStruct>
    var tower: seq<seq<Option<nat>>>
    var height: nat
    ghost var chain: seq<seq<nat>>

    ghost function Value(): Skip
      reads this
    {
      Skip(keys, vals, tower, height, chain)
    }

    ghost predicate Valid()
      reads this
    {
      Value().Shape()
    }

    /** The head node has a full tower. */
    constructor ()
      ensures Valid() && Contents(Value()) == map[]
    {
      keys, vals := [0], [ValueStruct(0, 0, 0, [])];
      tower := [NoTower()];
      height := 1;
      chain := seq(MAX_HEIGHT, _ => [0]);
      new;
      EmptyShape(Value());
    }

    /** find_near. */
    method FindNear(k: Key, less: bool, allowEqual: bool) returns (r: Option<nat>, found: bool)
      requires Valid()
      ensures Nearest(Value(), k, less, allowEqual, r)
      ensures found <==> allowEqual && k in Contents(Value())
      ensures r.Some? ==> 0 < r.value < |keys| == |vals|
      ensures found ==> r.Some? && keys[r.value] == k && vals[r.value] == Contents(Value())[k]
    {
      hide Skip.Shape, Nearest, Contents, Splice;
      ghost var s := Value();
      var x, level := 0, height - 1;
      ShapeSized(s);
      HeadIn(s, level);
      while true
        invariant s == Value() && s.Shape() && s.Sized() && 0 <= level < MAX_HEIGHT
        invariant x in s.chain[level] && x < |keys| && s.Below(x, k)
        decreases level, |s.chain[level]| - IndexOf(s.chain[level], x)
      {
        var next := tower[x][level];
        if next.Some? { Rightwards(s, level, x, next.value); }
        if next.None? || k < keys[next.value] {
          if level > 0 {
            StepDown(s, level, x);
            level := level - 1;
            continue;
          }
          SpliceIs(s, 0, x, next, k);
          BetweenNodes(s, x, next, k, less, allowEqual);
          if !less { return next, false; }
          if x == 0 { return None, false; }
          return Some(x), false;
        }
        if k > keys[next.value] {
          x := next.value;
          continue;
        }
        AtNode(s, level, next.value, k, less);
        if allowEqual { return next, true; }
        if !less { return tower[next.value][0], false; }
        if level > 0 {
          StepDown(s, level, x);
          level := level - 1;
          continue;
        }
        BeforeNode(s, x, next.value, k);
        if x == 0 { return None, false; }
        return Some(x), false;
      }
    }

    method Get(k: Key) returns (r: Option<ValueStruct>)
      requires Valid()
      ensures r == if k in Contents(Value()) then Some(Contents(Value())[k]) else None
    {
      hide Skip.Shape, Nearest, Contents;
      var n, found := FindNear(k, false, true);
      if !found { return None; }
      return Some(vals[n.value]);
    }

    /** find_splice_for_level: from `before` on, the neighbours of k at a level, or the node of k. */
    method FindSplice(k: Key, before: nat, l: nat) returns (p: nat, n: Option<nat>)
      requires Valid() && l < MAX_HEIGHT && before in chain[l] && before < |keys| && Value().Below(before, k)
      ensures p in chain[l] && p < |keys|
      ensures if n == Some(p) then p != 0 && keys[p] == k else Splice(Value(), l, p, n, k)
    {
      hide Skip.Shape, Splice;
      ghost var s := Value();
      ShapeSized(s);
      p := before;
      while true
        invariant s == Value() && s.Shape() && s.Sized() && p in s.chain[l] && p < |keys| && s.Below(p, k)
        decreases |s.chain[l]| - IndexOf(s.chain[l], p)
      {
        n := tower[p][l];
        if n.None? {
          SpliceIs(s, l, p, n, k);
          return;
        }
        Rightwards(s, l, p, n.value);
        if k == keys[n.value] { return n.value, n; }
        if k < keys[n.value] {
          SpliceIs(s, l, p, n, k);
          return;
        }
        p := n.value;
      }
    }

    /** find_last: the node with the greatest key. */
    method FindLast() returns (r: Option<nat>)
      requires Valid()
      ensures match r
              case None => Contents(Value()) == map[]
              case Some(n) => n in chain[0] && 0 < n < |keys| && keys[n] in Contents(Value())
                              && forall k :: k in Contents(Value()) ==> k <= keys[n]
    {
      hide Skip.Shape, Contents;
      ghost var s := Value();
      ShapeSized(s);
      var n, level := 0, height - 1;
      HeadIn(s, level);
      while true
        invariant s == Value() && s.Shape() && s.Sized() && 0 <= level < MAX_HEIGHT
        invariant n in s.chain[level] && n < |keys|
        decreases level, |s.chain[level]| - IndexOf(s.chain[level], n)
      {
        var next := tower[n][level];
        if next.Some? {
          Rightwards(s, level, n, next.value);
          n := next.value;
          continue;
        }
        if level == 0 {
          LastNode(s, n);
          return if n == 0 then None else Some(n);
        }
        StepDown(s, level, n);
        level := level - 1;
      }
    }

    /** _put with the given tower height. The map changes at exactly one key; a new node is linked at
        exactly the levels of its tower. */
    method Put(k: Key, v: ValueStruct, h: nat)
      requires Valid() && 1 <= h <= MAX_HEIGHT
      modifies this
      ensures Valid() && Contents(Value()) == old(Contents(Value()))[k := v]
      ensures k in old(Contents(Value())) ==> chain == old(chain) && height == old(height) && keys == old(keys)
      ensures k !in old(Contents(Value())) ==>
                && keys == old(keys) + [k] && height == Max(old(height), h)
                && forall l :: 0 <= l < MAX_HEIGHT ==> (|old(keys)| in chain[l] <==> l < h)
    {
      hide Skip.Shape, Contents, Splice;
      var listHeight := height;
      var prev: seq<Option<nat>> := seq(MAX_HEIGHT + 1, _ => None);
      var next: seq<Option<nat>> := seq(MAX_HEIGHT + 1, _ => None);
      ShapeSized(Value());
      prev := prev[listHeight := Some(0)];
      TopSplice(Value(), k);
      var i := listHeight;
      while i > 0
        invariant Value() == old(Value()) && i <= listHeight && |prev| == |next| == MAX_HEIGHT + 1
        invariant forall j :: 0 <= j <= MAX_HEIGHT ==> (prev[j].Some? <==> i <= j <= listHeight)
        invariant Spliced(Value(), prev, next, i, k)
        invariant Entered(Value(), i, prev[i].value, k)
        decreases i
      {
        i := i - 1;
        Descend(Value(), i, prev[i + 1].value, k);
        var p, n := FindSplice(k, prev[i + 1].value, i);
        prev := prev[i := Some(p)];
        if n == Some(p) {
          OverwriteAt(Value(), i, p, v);
          vals := vals[p := v];
          return;
        }
        next := next[i := n];
        SpliceEnters(Value(), i, p, n, k);
      }
      NotThere(Value(), prev, next, k);
      AddNode(k, v, h, listHeight, prev, next);
    }

    /** The second half of _put: a new node, linked from the base level up. One thread's CAS always
        succeeds; the retries are in SkipConcurrent. */
    method AddNode(k: Key, v: ValueStruct, h: nat, listHeight: nat, prev0: seq<Option<nat>>, next0: seq<Option<nat>>)
      requires Valid() && 1 <= h <= MAX_HEIGHT && listHeight == height && k !in Contents(Value())
      requires |prev0| == |next0| == MAX_HEIGHT + 1
      requires forall j :: 0 <= j <= MAX_HEIGHT ==> (prev0[j].Some? <==> j <= listHeight)
      requires Spliced(Value(), prev0, next0, 0, k)
      modifies this
      ensures Valid() && Contents(Value()) == old(Contents(Value()))[k := v]
      ensures keys == old(keys) + [k] && height == Max(old(height), h)
      ensures forall l :: 0 <= l < MAX_HEIGHT ==> (|old(keys)| in chain[l] <==> l < h)
    {
      hide Skip.Shape, Contents, Splice;
      var prev, next := prev0, next0;
      ghost var m := Contents(Value());
      var x := |keys|;
      ShapeSized(Value());
      NewNode(Value(), prev, next, k, v, h);
      keys, vals, tower := keys + [k], vals + [v], tower + [NoTower()];
      if h > height { height := h; }
      ShapeSized(Value());
      var l := 0;
      while l < h
        invariant l <= h && Linking(Value(), x, l, h, k) && keys == old(keys) + [k] && vals[x] == v
        invariant |prev| == |next| == MAX_HEIGHT + 1 && Spliced(Value(), prev, next, l, k)
        invariant forall j :: 0 <= j <= MAX_HEIGHT ==> (prev[j].Some? <== j <= listHeight)
        invariant Contents(Value()) == if l == 0 then m else m[k := v]
        invariant height == Max(old(height), h)
      {
        if prev[l].None? {
          assert l > 1;
          HeadIn(Value(), l);
          var p, n := FindSplice(k, 0, l);
          NoEqual(Value(), x, l, h, k, p, n);
          assert n != Some(p);
          prev, next := prev[l := Some(p)], next[l := n];
        }
        var p, n := prev[l].value, next[l];
        LinkStep(Value(), x, l, h, k, p, n, prev, next);
        tower := tower[x := tower[x][l := n]];
        assert tower[p][l] == n;
        tower := tower[p := tower[p][l := Some(x)]];
        chain := chain[l := InsertAfter(chain[l], p, x)];
        l := l + 1;
      }
    }
  }

  ghost predicate Spliced(s: Skip, prev: seq<Option<nat>>, next: seq<Option<nat>>, i: nat, k: Key)
    requires s.Sized() && |prev| == |next| == MAX_HEIGHT + 1
  {
    forall j :: i <= j < MAX_HEIGHT && prev[j].Some? ==> Splice(s, j, prev[j].value, next[j], k)
  }

  /** Where the search of level i - 1 may start. */
  ghost predicate Entered(s: Skip, i: nat, p: nat, k: Key) {
    |s.chain| == MAX_HEIGHT && p < |s.keys| && s.Below(p, k) && (p == 0 || (i < MAX_HEIGHT && p in s.chain[i]))
  }

  lemma TopSplice(s: Skip, k: Key)
    requires s.Shape()
    ensures s.height < MAX_HEIGHT ==> Splice(s, s.height, 0, None, k)
    ensures Entered(s, s.height, 0, k)
  {
    if s.height < MAX_HEIGHT {
      assert s.LevelOk(s.height);
      NextIs(s.keys, s.Column(s.height), s.chain[s.height], 0);
    }
  }

  lemma Descend(s: Skip, i: nat, p: nat, k: Key)
    requires s.Shape() && Entered(s, i + 1, p, k) && i < MAX_HEIGHT
    ensures p in s.chain[i] && s.Below(p, k)
  {
    HeadIn(s, i);
    if p != 0 { StepDown(s, i + 1, p); }
  }

  lemma SpliceEnters(s: Skip, i: nat, p: nat, n: Option<nat>, k: Key)
    requires s.Sized() && i < MAX_HEIGHT && Splice(s, i, p, n, k)
    ensures Entered(s, i, p, k)
  {
  }

  lemma OverwriteAt(s: Skip, l: nat, p: nat, v: ValueStruct)
    requires s.Shape() && l < MAX_HEIGHT && p in s.chain[l] && 0 < p < |s.keys|
    ensures var s' := s.(vals := s.vals[p := v]);
            s'.Shape() && s.keys[p] in Contents(s) && Contents(s') == Contents(s)[s.keys[p] := v]
  {
    NestedDown(s, l, 0, p);
    assert s.LevelOk(0);
    HasNode(s, p);
    ValueShape(s, p, v);
    OverwriteContents(s, p, v);
  }

  lemma OverwriteContents(s: Skip, p: nat, v: ValueStruct)
    requires s.Shape() && p in s.chain[0] && 0 < p < |s.keys| && s.(vals := s.vals[p := v]).Shape()
    ensures Contents(s.(vals := s.vals[p := v])) == Contents(s)[s.keys[p] := v]
  {
    var s' := s.(vals := s.vals[p := v]);
    var m := Contents(s)[s.keys[p] := v];
    assert s.LevelOk(0) && s'.LevelOk(0);
    forall n | n in s'.chain[0] && n != 0 && n < |s'.keys| ensures s'.keys[n] in m && m[s'.keys[n]] == s'.vals[n] {
      HasNode(s, n);
      if s.keys[n] == s.keys[p] { OneNode(s, 0, n, p); }
    }
    forall k | k in m ensures exists n :: n in s'.chain[0] && n != 0 && n < |s'.keys| && s'.keys[n] == k {
      if k != s.keys[p] { var n := NodeOf(s, k); }
    }
    ContentsAre(s', m);
  }

  lemma NotThere(s: Skip, prev: seq<Option<nat>>, next: seq<Option<nat>>, k: Key)
    requires s.Shape() && |prev| == |next| == MAX_HEIGHT + 1 && Spliced(s, prev, next, 0, k) && prev[0].Some?
    ensures k !in Contents(s)
  {
    BetweenNodes(s, prev[0].value, next[0], k, true, true);
  }

  // ----- linking a new node -----

  /** Node x with key k is linked below level l and nowhere else. */
  ghost predicate Linking(s: Skip, x: nat, l: nat, h: nat, k: Key) {
    && s.Shape() && s.Sized() && 0 < x < |s.keys| && s.keys[x] == k && h <= s.height
    && forall j :: 0 <= j < MAX_HEIGHT ==> (x in s.chain[j] <==> j < l)
  }

  lemma NewNode(s: Skip, prev: seq<Option<nat>>, next: seq<Option<nat>>, k: Key, v: ValueStruct, h: nat)
    requires s.Shape() && 1 <= h <= MAX_HEIGHT && |prev| == |next| == MAX_HEIGHT + 1
    requires Spliced(s, prev, next, 0, k)
    ensures var s' := Grown(s, k, v).(height := Max(s.height, h));
            && Linking(s', |s.keys|, 0, h, k) && s'.Sized() && Spliced(s', prev, next, 0, k)
            && Contents(s') == Contents(s)
  {
    GrowShape(s, k, v);
    var g := Grown(s, k, v);
    RaiseShape(g, Max(s.height, h));
    var s' := g.(height := Max(s.height, h));
    forall j | 0 <= j < MAX_HEIGHT && prev[j].Some? ensures Splice(s', j, prev[j].value, next[j], k) {
      assert Splice(s, j, prev[j].value, next[j], k);
    }
    SameContents(s, s');
  }

  /** The contents depend on the base level's nodes only. */
  lemma SameContents(s: Skip, s': Skip)
    requires s.Shape() && s'.Shape() && s'.chain[0] == s.chain[0] && |s.keys| <= |s'.keys|
    requires forall n :: 0 <= n < |s.keys| ==> s'.keys[n] == s.keys[n] && s'.vals[n] == s.vals[n]
    ensures Contents(s') == Contents(s)
  {
    assert s.LevelOk(0) && s'.LevelOk(0);
    var m := Contents(s);
    forall n | n in s'.chain[0] && n != 0 && n < |s'.keys| ensures s'.keys[n] in m && m[s'.keys[n]] == s'.vals[n] {
      HasNode(s, n);
    }
    forall k | k in m ensures exists n :: n in s'.chain[0] && n != 0 && n < |s'.keys| && s'.keys[n] == k {
      var n := NodeOf(s, k);
    }
    ContentsAre(s', m);
  }

  /** Above the base level the search for k cannot hit its node: the only node with key k is x, which is
      not linked there yet. */
  lemma NoEqual(s: Skip, x: nat, l: nat, h: nat, k: Key, p: nat, n: Option<nat>)
    requires Linking(s, x, l, h, k) && 0 < l < MAX_HEIGHT && p in s.chain[l] && p < |s.keys|
    requires if n == Some(p) then p != 0 && s.keys[p] == k else Splice(s, l, p, n, k)
    ensures n != Some(p)
  {
    if n == Some(p) {
      NestedDown(s, l, 0, p);
      assert s.LevelOk(0);
      OneNode(s, 0, p, x);
    }
  }

  /** One turn: x's pointer is stored and the predecessor's pointer swung to x. */
  lemma LinkStep(s: Skip, x: nat, l: nat, h: nat, k: Key, p: nat, n: Option<nat>,
                 prev: seq<Option<nat>>, next: seq<Option<nat>>)
    requires Linking(s, x, l, h, k) && l < h <= MAX_HEIGHT && Splice(s, l, p, n, k)
    requires |prev| == |next| == MAX_HEIGHT + 1 && Spliced(s, prev, next, l, k)
    ensures var t := Stored(s, x, l, n);
            && t.Sized() && p in t.chain[l] && p < |t.keys| && t.Next(p, l) == n
            && var s' := Linked(t, l, p, x);
               && Linking(s', x, l + 1, h, k) && Spliced(s', prev, next, l + 1, k)
               && s'.keys == s.keys && s'.vals == s.vals && s'.height == s.height
               && Contents(s') == if l == 0 then Contents(s)[k := s.vals[x]] else Contents(s)
  {
    var t := Stored(s, x, l, n);
    StoreShape(s, x, l, n);
    LinkShape(t, l, p, x);
    var s' := Linked(t, l, p, x);
    forall j | l + 1 <= j < MAX_HEIGHT && prev[j].Some? ensures Splice(s', j, prev[j].value, next[j], k) {
      assert Splice(s, j, prev[j].value, next[j], k);
    }
    if l == 0 { InsertContents(s, s', x); } else { SameContents(s, s'); }
  }

  lemma InsertContents(s: Skip, s': Skip, x: nat)
    requires s.Shape() && s'.Shape() && s'.keys == s.keys && s'.vals == s.vals && 0 < x < |s.keys|
    requires forall n :: n in s'.chain[0] <==> n in s.chain[0] || n == x
    ensures Contents(s') == Contents(s)[s.keys[x] := s.vals[x]]
  {
    assert s.LevelOk(0) && s'.LevelOk(0);
    var m := Contents(s)[s.keys[x] := s.vals[x]];
    forall n | n in s'.chain[0] && n != 0 && n < |s'.keys| ensures s'.keys[n] in m && m[s'.keys[n]] == s'.vals[n] {
      if s.keys[n] == s.keys[x] { OneNode(s', 0, n, x); } else { HasNode(s, n); }
    }
    forall k | k in m ensures exists n :: n in s'.chain[0] && n != 0 && n < |s'.keys| && s'.keys[n] == k {
      if k == s.keys[x] { assert x in s'.chain[0]; } else { var n := NodeOf(s, k); assert n in s'.chain[0]; }
    }
    ContentsAre(s', m);
  }

  lemma ShapeSized(s: Skip)
    requires s.Shape()
    ensures s.Sized()
  {
  }

  lemma SpliceIs(s: Skip, l: nat, p: nat, n: Option<nat>, k: Key)
    requires s.Sized() && l < MAX_HEIGHT
    requires p in s.chain[l] && p < |s.keys| && s.Below(p, k) && s.Next(p, l) == n && s.Above(n, k)
    ensures Splice(s, l, p, n, k) && n != Some(p)
  {
  }

  /** The node without a successor at the base level. */
  lemma LastNode(s: Skip, n: nat)
    requires s.Shape() && n in s.chain[0] && n < |s.keys| && s.Next(n, 0) == None
    ensures n == 0 ==> Contents(s) == map[]
    ensures n != 0 ==> s.keys[n] in Contents(s)
    ensures forall k :: k in Contents(s) ==> n != 0 && k <= s.keys[n]
  {
    assert s.LevelOk(0);
    NextNode(s, 0, n);
    if n != 0 { HasNode(s, n); }
    forall k | k in Contents(s) ensures n != 0 && k <= s.keys[n] { var q := NodeOf(s, k); }
  }

  lemma EmptyShape(s: Skip)
    requires |s.keys| == |s.vals| == 1 && s.tower == [NoTower()] && s.height == 1
    requires |s.chain| == MAX_HEIGHT && forall l :: 0 <= l < MAX_HEIGHT ==> s.chain[l] == [0]
    ensures s.Shape() && Contents(s) == map[]
  {
    assert s.Sized();
    forall l | 0 <= l < MAX_HEIGHT ensures s.LevelOk(l) { assert s.Column(l)[0] == None; }
    assert s.chain[0][1..] == [];
  }
}
