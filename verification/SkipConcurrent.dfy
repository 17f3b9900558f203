// Many writers inserting without locks, as a state machine.
module SkipConcurrent {
  // One step per shared read, write or compare-and-swap of _put.

  import opened Base
  import opened SkipShape
  import opened SkipList

  /** Where a put stands. Seek is a find_splice_for_level while linking, Search the ones before it. */
  datatype Pc =
    | Idle
    | Search(l: nat)
    | Fresh
    | ReadHeight
    | Raise(seen: nat)
    | Link(l: nat)
    | Seek(l: nat, retry: bool)
    | Store(l: nat)
    | Cas(l: nat)
    | Overwrite(n: nat)
    | Finished
    | Panicked

  /** One put: its locals, and how often it has taken effect. */
  datatype Writer = Writer(pc: Pc, key: Key, val: ValueStruct, listHeight: nat, prev: seq<Option<nat>>,
                           next: seq<Option<nat>>, cur: nat, x: nat, height: nat, applied: nat)

  // ----- one step of a put -----

  /** The step does not run off an array. */
  ghost predicate Ready(s: Skip, w: Writer) {
    && s.Sized() && |w.prev| == |w.next| == MAX_HEIGHT + 1
    && match w.pc
       case Search(l) => l < MAX_HEIGHT && w.cur < |s.keys| && Safe(s, w.cur, l)
       case Raise(_) => 1 <= w.height <= MAX_HEIGHT
       case Link(l) => l <= w.height <= MAX_HEIGHT
       case Seek(l, _) => l < MAX_HEIGHT && w.cur < |s.keys| && Safe(s, w.cur, l)
       case Store(l) => l < MAX_HEIGHT && w.x < |s.keys|
       case Cas(l) => l < MAX_HEIGHT && w.prev[l].Some? && w.prev[l].value < |s.keys| && w.prev[l].value in s.chain[l]
       case Overwrite(n) => n < |s.keys|
       case _ => true
  }

  ghost predicate Safe(s: Skip, n: nat, l: nat)
    requires s.Sized() && n < |s.keys| && l < MAX_HEIGHT
  {
    s.Next(n, l).Some? ==> s.Next(n, l).value < |s.keys|
  }

  /** The next step of a put in progress. */
  ghost function Advance(s: Skip, w: Writer): (r: (Skip, Writer))
    requires Ready(s, w)
  {
    match w.pc
    case Search(l) =>
      var n := s.Next(w.cur, l);
      if n.None? || w.key < s.keys[n.value] then
        (s, w.(prev := w.prev[l := Some(w.cur)], next := if n.None? then w.next else w.next[l := n],
               pc := if l > 0 then Search(l - 1) else Fresh))
      else if w.key == s.keys[n.value] then (s, w.(pc := Overwrite(n.value)))
      else (s, w.(cur := n.value))
    case ReadHeight => (s, w.(pc := Raise(s.height)))
    case Raise(seen) =>
      if w.height <= seen then (s, w.(pc := Link(0)))
      else if s.height == seen then (s.(height := w.height), w.(pc := Link(0)))
      else (s, w.(pc := ReadHeight))
    case Link(l) =>
      if l == w.height then (s, w.(pc := Finished))
      else if w.prev[l].Some? then (s, w.(pc := Store(l)))
      else if l > 1 then (s, w.(pc := Seek(l, false), cur := 0))
      else (s, w.(pc := Panicked))
    case Seek(l, retry) =>
      var n := s.Next(w.cur, l);
      if n.None? then
        (s, w.(prev := w.prev[l := Some(w.cur)], next := if retry then w.next[l := None] else w.next, pc := Store(l)))
      else if w.key < s.keys[n.value] then
        (s, w.(prev := w.prev[l := Some(w.cur)], next := w.next[l := n], pc := Store(l)))
      else if w.key > s.keys[n.value] then (s, w.(cur := n.value))
      else if retry && l == 0 then (s, w.(pc := Overwrite(n.value)))
      else (s, w.(pc := Panicked))
    case Store(l) => (Stored(s, w.x, l, w.next[l]), w.(pc := Cas(l)))
    case Cas(l) =>
      var p := w.prev[l].value;
      if s.Next(p, l) == w.next[l] then
        (Linked(s, l, p, w.x), w.(pc := Link(l + 1), applied := w.applied + if l == 0 then 1 else 0))
      else (s, w.(pc := Seek(l, true), cur := p))
    case Overwrite(n) => (s.(vals := s.vals[n := w.val]), w.(pc := Finished, applied := w.applied + 1))
    case _ => (s, w)
  }

  /** The start of a put: the list height is read once. */
  function Begun(s: Skip, k: Key, v: ValueStruct): Writer
    requires 1 <= s.height <= MAX_HEIGHT
  {
    var none := seq(MAX_HEIGHT + 1, _ => None);
    Writer(Search(s.height - 1), k, v, s.height, none[s.height := Some(0)], none, 0, 0, 0, 0)
  }

  /** A new node with a tower of the chosen height. */
  function Allocated(s: Skip, w: Writer, h: nat): (Skip, Writer) {
    (Grown(s, w.key, w.val), w.(x := |s.keys|, height := h, pc := ReadHeight))
  }

  // ----- what a put relies on -----

  /** cur is linked at level l with a smaller key. */
  ghost predicate CurOk(s: Skip, w: Writer, l: nat)
    requires |s.chain| == MAX_HEIGHT
  {
    l < MAX_HEIGHT && w.cur < |s.keys| && w.cur in s.chain[l] && s.Below(w.cur, w.key)
  }

  /** p and n, when known, are linked around key k at level j. */
  ghost predicate PrevOk(s: Skip, k: Key, p: Option<nat>, n: Option<nat>, j: nat)
    requires |s.chain| == MAX_HEIGHT && j < MAX_HEIGHT
  {
    if p.Some? then p.value < |s.keys| && p.value in s.chain[j] && s.Below(p.value, k) && s.Above(n, k)
    else n.None?
  }

  /** The neighbours remembered for the levels from l on; those up to the list height are there. */
  ghost predicate PrevsOk(s: Skip, k: Key, prev: seq<Option<nat>>, next: seq<Option<nat>>, listHeight: nat, l: nat)
    requires |s.chain| == MAX_HEIGHT && |prev| == |next| == MAX_HEIGHT + 1
  {
    && (forall j :: l <= j < MAX_HEIGHT ==> PrevOk(s, k, prev[j], next[j], j))
    && forall j :: l <= j <= MAX_HEIGHT && j <= listHeight ==> prev[j].Some?
  }

  /** The new node is linked exactly below level l. */
  ghost predicate NodeOk(s: Skip, w: Writer, l: nat)
    requires |s.chain| == MAX_HEIGHT
  {
    && 0 < w.x < |s.keys| == |s.vals| && s.keys[w.x] == w.key && 1 <= w.height <= MAX_HEIGHT && l <= w.height
    && (l == 0 ==> s.vals[w.x] == w.val)
    && forall j :: 0 <= j < MAX_HEIGHT ==> (w.x in s.chain[j] <==> j < l)
  }

  predicate Owns(pc: Pc) {
    pc.ReadHeight? || pc.Raise? || pc.Link? || pc.Seek? || pc.Store? || pc.Cas?
  }

  /** The level below which the new node is linked. */
  function Level(pc: Pc): nat
  {
    match pc
    case Link(l) => l
    case Seek(l, _) => l
    case Store(l) => l
    case Cas(l) => l
    case _ => 0
  }

  ghost predicate WriterOk(s: Skip, w: Writer)
    requires s.Sized()
  {
    && |w.prev| == |w.next| == MAX_HEIGHT + 1
    && match w.pc
       case Idle => true
       case Search(l) => l < w.listHeight <= MAX_HEIGHT && CurOk(s, w, l) && w.applied == 0
                         && PrevsOk(s, w.key, w.prev, w.next, w.listHeight, l + 1)
                         && forall j :: 0 <= j <= l ==> w.next[j].None?
       case Fresh => 1 <= w.listHeight && PrevsOk(s, w.key, w.prev, w.next, w.listHeight, 0) && w.applied == 0
       case Overwrite(n) => n in s.chain[0] && 0 < n < |s.keys| && s.keys[n] == w.key && w.applied == 0
       case Finished => w.applied == 1
       case Panicked => false
       case _ => LinkingOk(s, w)
  }

  ghost predicate LinkingOk(s: Skip, w: Writer)
    requires s.Sized() && |w.prev| == |w.next| == MAX_HEIGHT + 1
  {
    var l := Level(w.pc);
    && 1 <= w.listHeight && (w.pc.Raise? ==> w.pc.seen <= s.height) && NodeOk(s, w, l)
    && PrevsOk(s, w.key, w.prev, w.next, w.listHeight, l)
    && w.applied == (if l == 0 then 0 else 1)
    && (w.pc.Link? || w.pc.Seek? || w.pc.Store? || w.pc.Cas? ==> w.height <= s.height)
    && (w.pc.Seek? || w.pc.Store? || w.pc.Cas? ==> l < w.height)
    && (w.pc.Seek? ==> CurOk(s, w, l) && if w.pc.retry then w.prev[l].Some? else l > 1 && w.prev[l].None?)
    && (w.pc.Store? || w.pc.Cas? ==> w.prev[l].Some?)
    && (w.pc.Cas? ==> s.Next(w.x, l) == w.next[l])
  }

  // ----- other writers are not disturbed -----

  /** Nothing linked is lost, no key changes. */
  ghost predicate Grows(s: Skip, s': Skip) {
    && s.Sized() && s'.Sized() && |s.keys| <= |s'.keys| && s.height <= s'.height
    && (forall n :: 0 <= n < |s.keys| ==> s'.keys[n] == s.keys[n])
    && forall j, n :: 0 <= j < MAX_HEIGHT && n in s.chain[j] ==> n in s'.chain[j]
  }

  /** Another writer's node is where it was; what it does not share yet is unchanged. */
  ghost predicate Untouched(s: Skip, s': Skip, x: nat)
    requires s.Sized() && s'.Sized()
  {
    x < |s.keys| ==>
      && x < |s'.keys| && (x !in s.chain[0] ==> s'.vals[x] == s.vals[x])
      && forall j :: 0 <= j < MAX_HEIGHT ==>
           (x !in s.chain[j] ==> s'.Next(x, j) == s.Next(x, j)) && (x in s'.chain[j] <==> x in s.chain[j])
  }

  lemma PrevsStable(s: Skip, s': Skip, w: Writer, l: nat)
    requires Grows(s, s') && |w.prev| == |w.next| == MAX_HEIGHT + 1
             && PrevsOk(s, w.key, w.prev, w.next, w.listHeight, l)
    ensures PrevsOk(s', w.key, w.prev, w.next, w.listHeight, l)
  {
    forall j | l <= j < MAX_HEIGHT ensures PrevOk(s', w.key, w.prev[j], w.next[j], j) {
      assert PrevOk(s, w.key, w.prev[j], w.next[j], j);
    }
  }

  lemma OthersStable(s: Skip, s': Skip, w: Writer)
    requires Grows(s, s') && WriterOk(s, w) && (Owns(w.pc) ==> Untouched(s, s', w.x))
    ensures WriterOk(s', w)
  {
    hide PrevsOk;
    match w.pc
    case Search(l) => PrevsStable(s, s', w, l + 1);
    case Fresh => PrevsStable(s, s', w, 0);
    case Idle =>
    case Overwrite(_) =>
    case Finished =>
    case Panicked =>
    case _ => PrevsStable(s, s', w, Level(w.pc));
  }

  // ----- each step keeps its own promise -----

  lemma OkReady(s: Skip, w: Writer)
    requires s.Shape() && WriterOk(s, w)
    ensures Ready(s, w)
  {
    match w.pc
    case Search(l) => assert s.LevelOk(l); NextNode(s, l, w.cur);
    case Seek(l, _) => assert s.LevelOk(l); NextNode(s, l, w.cur);
    case Cas(l) => assert PrevOk(s, w.key, w.prev[l], w.next[l], l);
    case _ =>
  }

  /** What a step of w must keep: the shape, everything linked, its own promise, and the nodes of others. */
  ghost predicate Kept(s: Skip, w: Writer, s': Skip, w': Writer) {
    && s.Shape() && s'.Shape() && Grows(s, s') && WriterOk(s', w')
    && (forall y :: y != w.x || !Owns(w.pc) ==> Untouched(s, s', y))
    && w'.key == w.key && w'.val == w.val
    && (Owns(w.pc) ==> w'.x == w.x) && (Owns(w'.pc) ==> Owns(w.pc))
    && w.applied <= w'.applied <= w.applied + 1
    && Contents(s') == if w'.applied > w.applied then Contents(s)[w.key := w.val] else Contents(s)
  }

  lemma Refl(s: Skip)
    requires s.Shape()
    ensures Grows(s, s) && forall y :: Untouched(s, s, y)
  {
  }

  lemma SearchStep(s: Skip, w: Writer)
    requires s.Shape() && WriterOk(s, w) && Ready(s, w) && w.pc.Search?
    ensures Kept(s, w, Advance(s, w).0, Advance(s, w).1)
  {
    hide Skip.Shape, Contents, WriterOk, Untouched, Grows;
    ShapeSized(s);
    Refl(s);
    SearchOk(s, w);
    SearchQuiet(s, w);
  }

  lemma SearchQuiet(s: Skip, w: Writer)
    requires s.Sized() && WriterOk(s, w) && Ready(s, w) && w.pc.Search?
    ensures var (s', w') := Advance(s, w);
            s' == s && w'.key == w.key && w'.val == w.val && !Owns(w'.pc) && w'.applied == w.applied
  {
    hide PrevsOk, CurOk;
  }

  lemma SearchOk(s: Skip, w: Writer)
    requires s.Shape() && WriterOk(s, w) && Ready(s, w) && w.pc.Search?
    ensures WriterOk(s, Advance(s, w).1)
  {
    hide Skip.Shape, Contents, PrevsOk, PrevOk;
    ShapeSized(s);
    var l := w.pc.l;
    var n := s.Next(w.cur, l);
    if n.Some? {
      Rightwards(s, l, w.cur, n.value);
      NodeDown(s, l, n.value);
    }
    if n.None? || w.key < s.keys[n.value] {
      if l > 0 { StepDown(s, l, w.cur); }
      PrevsSet(s, w.key, w.prev, w.next, w.listHeight, l, w.cur, n);
      assert n.None? ==> w.next[l := n] == w.next;
    }
  }

  /** The neighbours of one more level. */
  lemma PrevsSet(s: Skip, k: Key, prev: seq<Option<nat>>, next: seq<Option<nat>>, listHeight: nat, l: nat, p: nat,
                 n: Option<nat>)
    requires |s.chain| == MAX_HEIGHT && |prev| == |next| == MAX_HEIGHT + 1 && l < MAX_HEIGHT
    requires PrevsOk(s, k, prev, next, listHeight, l + 1)
    requires p < |s.keys| && p in s.chain[l] && s.Below(p, k) && s.Above(n, k)
    ensures PrevsOk(s, k, prev[l := Some(p)], next[l := n], listHeight, l)
  {
    var prev', next' := prev[l := Some(p)], next[l := n];
    forall j | l <= j < MAX_HEIGHT ensures PrevOk(s, k, prev'[j], next'[j], j) {
      if j > l { assert PrevOk(s, k, prev[j], next[j], j); }
    }
  }

  lemma NodeDown(s: Skip, l: nat, n: nat)
    requires s.Shape() && l < MAX_HEIGHT && n in s.chain[l]
    ensures n in s.chain[0]
  {
    NestedDown(s, l, 0, n);
  }

  lemma SeekStep(s: Skip, w: Writer)
    requires s.Shape() && WriterOk(s, w) && Ready(s, w) && w.pc.Seek?
    ensures Kept(s, w, Advance(s, w).0, Advance(s, w).1)
  {
    hide Skip.Shape, Contents, WriterOk, Untouched, Grows;
    ShapeSized(s);
    Refl(s);
    SeekOk(s, w);
    SeekQuiet(s, w);
  }

  lemma SeekQuiet(s: Skip, w: Writer)
    requires s.Sized() && WriterOk(s, w) && Ready(s, w) && w.pc.Seek?
    ensures var (s', w') := Advance(s, w);
            s' == s && w'.key == w.key && w'.val == w.val && w'.x == w.x && w'.applied == w.applied
  {
    hide PrevsOk, CurOk, NodeOk;
  }

  lemma SeekOk(s: Skip, w: Writer)
    requires s.Shape() && WriterOk(s, w) && Ready(s, w) && w.pc.Seek?
    ensures WriterOk(s, Advance(s, w).1)
  {
    hide Skip.Shape, Contents, PrevsOk, PrevOk;
    ShapeSized(s);
    var l := w.pc.l;
    var n := s.Next(w.cur, l);
    if n.Some? {
      Rightwards(s, l, w.cur, n.value);
      NodeDown(s, l, n.value);
      if s.keys[n.value] == w.key && l > 0 { OnlyNewNode(s, l, n.value, w.x); }
    }
    PrevsLater(s, w, l);
    if n.None? || w.key < s.keys[n.value] {
      PrevsSet(s, w.key, w.prev, w.next, w.listHeight, l, w.cur, n);
      if !w.pc.retry { FirstSeek(s, w, l); }
    }
  }

  /** Before its first search at a level a put remembers no successor there. */
  lemma FirstSeek(s: Skip, w: Writer, l: nat)
    requires s.Sized() && |w.prev| == |w.next| == MAX_HEIGHT + 1 && l < MAX_HEIGHT
    requires PrevsOk(s, w.key, w.prev, w.next, w.listHeight, l)
    ensures w.prev[l].None? ==> w.next == w.next[l := None]
  {
    assert PrevOk(s, w.key, w.prev[l], w.next[l], l);
  }

  /** A node with the key of x, which is linked below level l but not at l, cannot be linked at l. */
  lemma OnlyNewNode(s: Skip, l: nat, n: nat, x: nat)
    requires s.Shape() && 0 < l < MAX_HEIGHT && n in s.chain[l] && 0 < n < |s.keys|
    requires x in s.chain[0] && 0 < x < |s.keys| && s.keys[n] == s.keys[x]
    ensures n == x
  {
    NestedDown(s, l, 0, n);
    assert s.LevelOk(0);
    OneNode(s, 0, n, x);
  }

  lemma StoreStep(s: Skip, w: Writer)
    requires s.Shape() && WriterOk(s, w) && Ready(s, w) && w.pc.Store?
    ensures Kept(s, w, Advance(s, w).0, Advance(s, w).1)
  {
    hide Skip.Shape, Contents;
    ShapeSized(s);
    var l := w.pc.l;
    StoreShape(s, w.x, l, w.next[l]);
    var s' := Stored(s, w.x, l, w.next[l]);
    ShapeSized(s');
    SameContents(s, s');
    PrevsStable(s, s', w, l);
  }

  lemma CasStep(s: Skip, w: Writer)
    requires s.Shape() && WriterOk(s, w) && Ready(s, w) && w.pc.Cas?
    ensures Kept(s, w, Advance(s, w).0, Advance(s, w).1)
  {
    hide Skip.Shape, Contents, PrevsOk, InsertAfter;
    ShapeSized(s);
    Refl(s);
    var l, x := w.pc.l, w.x;
    PrevAt(s, w, l);
    var p := w.prev[l].value;
    if s.Next(p, l) == w.next[l] {
      LinkShape(s, l, p, x);
      var s' := Linked(s, l, p, x);
      ShapeSized(s');
      if l == 0 { InsertContents(s, s', x); } else { SameContents(s, s'); }
      PrevsStable(s, s', w, l);
      PrevsLater(s', w, l);
    }
  }

  lemma PrevAt(s: Skip, w: Writer, l: nat)
    requires |s.chain| == MAX_HEIGHT && |w.prev| == |w.next| == MAX_HEIGHT + 1
             && PrevsOk(s, w.key, w.prev, w.next, w.listHeight, l) && l < MAX_HEIGHT
    ensures PrevOk(s, w.key, w.prev[l], w.next[l], l)
  {
  }

  lemma PrevsLater(s: Skip, w: Writer, l: nat)
    requires |s.chain| == MAX_HEIGHT && |w.prev| == |w.next| == MAX_HEIGHT + 1
             && PrevsOk(s, w.key, w.prev, w.next, w.listHeight, l)
    ensures PrevsOk(s, w.key, w.prev, w.next, w.listHeight, l + 1)
  {
  }

  lemma OverwriteStep(s: Skip, w: Writer)
    requires s.Shape() && WriterOk(s, w) && Ready(s, w) && w.pc.Overwrite?
    ensures Kept(s, w, Advance(s, w).0, Advance(s, w).1)
  {
    hide Skip.Shape, Contents;
    ShapeSized(s);
    OverwriteAt(s, 0, w.pc.n, w.val);
    ShapeSized(Advance(s, w).0);
  }

  lemma RaiseStep(s: Skip, w: Writer)
    requires s.Shape() && WriterOk(s, w) && Ready(s, w) && w.pc.Raise?
    ensures Kept(s, w, Advance(s, w).0, Advance(s, w).1)
  {
    hide Skip.Shape, Contents;
    ShapeSized(s);
    Refl(s);
    if w.height > w.pc.seen && s.height == w.pc.seen {
      RaiseShape(s, w.height);
      var s' := s.(height := w.height);
      ShapeSized(s');
      SameContents(s, s');
      PrevsStable(s, s', w, 0);
    }
  }
}
