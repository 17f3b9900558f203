// Any number of writers and readers on one skip list: what every interleaving keeps.
module SkipWorld {
  import opened Base
  import opened SkipShape
  import opened SkipList
  import opened SkipConcurrent

  /** Where a lookup (find_near for the key itself or the next one, then the value) stands. */
  datatype ReadPc = Resting | Walking(l: nat, cur: nat) | Holding(n: nat) | Answered(answer: Option<ValueStruct>)

  datatype Reader = Reader(key: Key, at: ReadPc)

  /** `log` lists the puts in the order in which they took effect. */
  datatype World = World(list: Skip, writers: seq<Writer>, readers: seq<Reader>, log: seq<(Key, ValueStruct)>)

  datatype Action =
    | Begin(i: nat, k: Key, v: ValueStruct)
    | Alloc(i: nat, h: nat)
    | Move(i: nat)
    | WeakFail(i: nat)
    | Lookup(r: nat, k: Key)
    | Read(r: nat)

  function Replay(log: seq<(Key, ValueStruct)>): map<Key, ValueStruct> {
    if log == [] then map[] else Replay(log[..|log| - 1])[log[|log| - 1].0 := log[|log| - 1].1]
  }

  /** A writer's step, noted in the log when the put takes effect. */
  ghost predicate Moved(a: World, i: nat, s': Skip, w': Writer, b: World)
    requires i < |a.writers|
  {
    var w := a.writers[i];
    b == World(s', a.writers[i := w'], a.readers, if w'.applied > w.applied then a.log + [(w.key, w.val)] else a.log)
  }

  ghost predicate ReadReady(s: Skip, r: Reader) {
    && s.Sized()
    && match r.at
       case Walking(l, cur) => l < MAX_HEIGHT && cur < |s.keys| && Safe(s, cur, l)
       case Holding(n) => n < |s.vals|
       case _ => true
  }

  ghost function ReadOne(s: Skip, r: Reader): Reader
    requires ReadReady(s, r)
  {
    match r.at
    case Walking(l, cur) =>
      var n := s.Next(cur, l);
      if n.None? || r.key < s.keys[n.value] then r.(at := if l > 0 then Walking(l - 1, cur) else Answered(None))
      else if r.key == s.keys[n.value] then r.(at := Holding(n.value))
      else r.(at := Walking(l, n.value))
    case Holding(n) => r.(at := Answered(Some(s.vals[n])))
    case _ => r
  }

  ghost predicate Step(a: World, act: Action, b: World) {
    match act
    case Begin(i, k, v) =>
      && i < |a.writers| && (a.writers[i].pc.Idle? || a.writers[i].pc.Finished?) && 1 <= a.list.height <= MAX_HEIGHT
      && b == a.(writers := a.writers[i := Begun(a.list, k, v)])
    case Alloc(i, h) =>
      && i < |a.writers| && a.writers[i].pc.Fresh? && 1 <= h <= MAX_HEIGHT
      && Moved(a, i, Allocated(a.list, a.writers[i], h).0, Allocated(a.list, a.writers[i], h).1, b)
    case Move(i) =>
      && i < |a.writers| && Ready(a.list, a.writers[i])
      && Moved(a, i, Advance(a.list, a.writers[i]).0, Advance(a.list, a.writers[i]).1, b)
    case WeakFail(i) =>
      && i < |a.writers| && a.writers[i].pc.Raise? && a.writers[i].height > a.writers[i].pc.seen
      && b == a.(writers := a.writers[i := a.writers[i].(pc := ReadHeight)])
    case Lookup(r, k) =>
      && r < |a.readers| && 1 <= a.list.height
      && b == a.(readers := a.readers[r := Reader(k, Walking(a.list.height - 1, 0))])
    case Read(r) =>
      && r < |a.readers| && ReadReady(a.list, a.readers[r])
      && b == a.(readers := a.readers[r := ReadOne(a.list, a.readers[r])])
  }

  ghost predicate ReaderOk(s: Skip, r: Reader)
    requires s.Sized()
  {
    match r.at
    case Walking(l, cur) => l < MAX_HEIGHT && cur < |s.keys| && cur in s.chain[l] && s.Below(cur, r.key)
    case Holding(n) => n in s.chain[0] && 0 < n < |s.keys| && s.keys[n] == r.key
    case _ => true
  }

  ghost predicate Inv(a: World) {
    && a.list.Shape() && a.list.Sized()
    && (forall i :: 0 <= i < |a.writers| ==> WriterOk(a.list, a.writers[i]))
    && (forall i, j :: 0 <= i < j < |a.writers| && Owns(a.writers[i].pc) && Owns(a.writers[j].pc) ==>
          a.writers[i].x != a.writers[j].x)
    && (forall r :: 0 <= r < |a.readers| ==> ReaderOk(a.list, a.readers[r]))
    && Contents(a.list) == Replay(a.log)
  }

  ghost predicate Start(a: World) {
    && |a.list.keys| == |a.list.vals| == 1 && a.list.tower == [NoTower()] && a.list.height == 1
    && |a.list.chain| == MAX_HEIGHT && (forall l :: 0 <= l < MAX_HEIGHT ==> a.list.chain[l] == [0])
    && (forall i :: 0 <= i < |a.writers| ==>
          a.writers[i].pc.Idle? && |a.writers[i].prev| == |a.writers[i].next| == MAX_HEIGHT + 1)
    && (forall r :: 0 <= r < |a.readers| ==> a.readers[r].at.Resting?)
    && a.log == []
  }

  lemma StartInv(a: World)
    requires Start(a)
    ensures Inv(a)
  {
    EmptyShape(a.list);
  }

  lemma BeginOk(s: Skip, k: Key, v: ValueStruct)
    requires s.Shape() && s.Sized()
    ensures WriterOk(s, Begun(s, k, v))
  {
    var w := Begun(s, k, v);
    HeadIn(s, s.height - 1);
    if s.height < MAX_HEIGHT { HeadIn(s, s.height); }
    forall j | s.height <= j < MAX_HEIGHT ensures PrevOk(s, k, w.prev[j], w.next[j], j) { }
  }

  lemma AllocKept(s: Skip, w: Writer, h: nat)
    requires s.Shape() && s.Sized() && WriterOk(s, w) && w.pc.Fresh? && 1 <= h <= MAX_HEIGHT
    ensures var (s', w') := Allocated(s, w, h);
            && s'.Shape() && Grows(s, s') && WriterOk(s', w') && w'.x == |s.keys|
            && (forall y :: Untouched(s, s', y))
            && w'.applied == w.applied && Contents(s') == Contents(s)
  {
    hide Skip.Shape, Contents;
    GrowShape(s, w.key, w.val);
    var s' := Grown(s, w.key, w.val);
    ShapeSized(s');
    SameContents(s, s');
    PrevsStable(s, s', w, 0);
  }

  /** Every step of a put in progress keeps the list in shape and every other put's promise. */
  lemma AdvanceKept(s: Skip, w: Writer)
    requires s.Shape() && s.Sized() && WriterOk(s, w)
    ensures Ready(s, w) && Kept(s, w, Advance(s, w).0, Advance(s, w).1)
  {
    hide Skip.Shape, Contents, Kept, LinkingOk;
    OkReady(s, w);
    match w.pc
    case Search(_) => SearchStep(s, w);
    case Seek(_, _) => SeekStep(s, w);
    case Store(_) => StoreStep(s, w);
    case Cas(_) => CasStep(s, w);
    case Overwrite(_) => OverwriteStep(s, w);
    case Raise(_) => RaiseStep(s, w);
    case _ => QuietStep(s, w);
  }

  lemma QuietStep(s: Skip, w: Writer)
    requires s.Shape() && WriterOk(s, w) && Ready(s, w)
    requires w.pc.Idle? || w.pc.Fresh? || w.pc.Finished? || w.pc.ReadHeight? || w.pc.Link?
    ensures Kept(s, w, Advance(s, w).0, Advance(s, w).1)
  {
    hide Skip.Shape, Contents;
    ShapeSized(s);
    Refl(s);
    if w.pc.Link? && w.pc.l < w.height && w.prev[w.pc.l].None? { HeadIn(s, w.pc.l); }
  }

  lemma ReadersStable(s: Skip, s': Skip, r: Reader)
    requires Grows(s, s') && ReaderOk(s, r)
    ensures ReaderOk(s', r)
  {
  }

  /** A lookup answers what the list holds at the moment of its last read. */
  lemma ReadOk(s: Skip, r: Reader)
    requires s.Shape() && s.Sized() && ReaderOk(s, r)
    ensures ReadReady(s, r) && ReaderOk(s, ReadOne(s, r))
    ensures var r' := ReadOne(s, r);
            !r.at.Answered? && r'.at.Answered? ==>
              r'.at.answer == if r.key in Contents(s) then Some(Contents(s)[r.key]) else None
  {
    match r.at
    case Walking(l, cur) =>
      assert s.LevelOk(l);
      NextNode(s, l, cur);
      var n := s.Next(cur, l);
      if n.Some? { NodeDown(s, l, n.value); }
      if n.None? || r.key < s.keys[n.value] {
        if l > 0 { StepDown(s, l, cur); } else { BetweenNodes(s, cur, n, r.key, false, true); }
      }
    case Holding(n) => HasNode(s, n);
    case _ =>
  }

  lemma StepInv(a: World, act: Action, b: World)
    requires Inv(a) && Step(a, act, b)
    ensures Inv(b)
  {
    hide Skip.Shape, Contents, Kept, WriterOk, ReaderOk, Advance, Allocated, Begun, ReadOne;
    match act
    case Begin(i, k, v) => BeginOk(a.list, k, v); BegunIdle(a.list, k, v);
    case Alloc(i, h) =>
      AllocKept(a.list, a.writers[i], h);
      MovedAlloc(a, i, h, b);
    case Move(i) =>
      AdvanceKept(a.list, a.writers[i]);
      MovedInv(a, i, Advance(a.list, a.writers[i]).0, Advance(a.list, a.writers[i]).1, b);
    case WeakFail(i) => WeakOk(a.list, a.writers[i]);
    case Lookup(r, k) => LookupOk(a.list, k);
    case Read(r) => ReadOk(a.list, a.readers[r]);
  }

  lemma BegunIdle(s: Skip, k: Key, v: ValueStruct)
    requires 1 <= s.height <= MAX_HEIGHT
    ensures !Owns(Begun(s, k, v).pc)
  {
  }

  lemma LookupOk(s: Skip, k: Key)
    requires s.Shape() && s.Sized()
    ensures ReaderOk(s, Reader(k, Walking(s.height - 1, 0)))
  {
    HeadIn(s, s.height - 1);
  }

  lemma WeakOk(s: Skip, w: Writer)
    requires s.Sized() && WriterOk(s, w) && w.pc.Raise?
    ensures WriterOk(s, w.(pc := ReadHeight))
  {
  }

  lemma OwnNode(s: Skip, w: Writer)
    requires s.Sized() && WriterOk(s, w) && Owns(w.pc)
    ensures w.x < |s.keys|
  {
  }

  lemma MovedAlloc(a: World, i: nat, h: nat, b: World)
    requires Inv(a) && i < |a.writers| && a.writers[i].pc.Fresh?
    requires var (s', w') := Allocated(a.list, a.writers[i], h);
             && Moved(a, i, s', w', b)
             && s'.Shape() && Grows(a.list, s') && WriterOk(s', w') && w'.x == |a.list.keys|
             && (forall y :: Untouched(a.list, s', y))
             && w'.applied == a.writers[i].applied && Contents(s') == Contents(a.list)
    ensures Inv(b)
  {
    hide Skip.Shape, Contents, WriterOk, ReaderOk, Grows, Untouched;
    var (s', w') := Allocated(a.list, a.writers[i], h);
    ShapeSized(s');
    forall j | 0 <= j < |b.writers| ensures WriterOk(b.list, b.writers[j]) {
      if j != i { OthersStable(a.list, s', a.writers[j]); }
    }
    forall j | 0 <= j < |a.writers| && Owns(a.writers[j].pc) ensures a.writers[j].x != w'.x {
      OwnNode(a.list, a.writers[j]);
    }
    forall r | 0 <= r < |b.readers| ensures ReaderOk(b.list, b.readers[r]) {
      ReadersStable(a.list, s', a.readers[r]);
    }
  }

  lemma MovedInv(a: World, i: nat, s': Skip, w': Writer, b: World)
    requires Inv(a) && i < |a.writers| && Kept(a.list, a.writers[i], s', w') && Moved(a, i, s', w', b)
    ensures Inv(b)
  {
    hide Skip.Shape, Contents, WriterOk, ReaderOk, Untouched;
    var w := a.writers[i];
    forall j | 0 <= j < |b.writers| ensures WriterOk(b.list, b.writers[j]) {
      if j != i {
        assert Owns(w.pc) && Owns(a.writers[j].pc) ==> a.writers[j].x != w.x;
        OthersStable(a.list, s', a.writers[j]);
      }
    }
    forall r | 0 <= r < |b.readers| ensures ReaderOk(b.list, b.readers[r]) {
      ReadersStable(a.list, s', a.readers[r]);
    }
    if w'.applied > w.applied {
      assert (a.log + [(w.key, w.val)])[..|a.log|] == a.log;
    }
  }

  // ----- runs -----

  ghost predicate Run(ws: seq<World>, acts: seq<Action>) {
    && |ws| == |acts| + 1 && Start(ws[0])
    && forall i :: 0 <= i < |acts| ==> Step(ws[i], acts[i], ws[i + 1])
  }

  lemma {:induction false} RunInv(ws: seq<World>, acts: seq<Action>, i: nat)
    requires Run(ws, acts) && i < |ws|
    ensures Inv(ws[i])
  {
    hide Inv, Step, Start;
    if i == 0 {
      StartInv(ws[0]);
    } else {
      RunInv(ws, acts, i - 1);
      StepInv(ws[i - 1], acts[i - 1], ws[i]);
    }
  }

  /** Over every run: each level strictly sorted and part of the one below, no assertion of _put has
      failed, no two linked nodes share a key, and the contents are those of the puts that have taken
      effect, in their order. */
  lemma RunSafe(ws: seq<World>, acts: seq<Action>, i: nat)
    requires Run(ws, acts) && i < |ws|
    ensures ws[i].list.Shape() && Contents(ws[i].list) == Replay(ws[i].log)
    ensures forall j :: 0 <= j < |ws[i].writers| ==> !ws[i].writers[j].pc.Panicked?
    ensures KeysUnique(ws[i].list)
  {
    RunInv(ws, acts, i);
    var s := ws[i].list;
    forall m, n | m in s.chain[0] && n in s.chain[0] && 0 < m < |s.keys| && 0 < n < |s.keys| && s.keys[m] == s.keys[n]
      ensures m == n
    {
      assert s.LevelOk(0);
      OneNode(s, 0, m, n);
    }
  }

  ghost predicate KeysUnique(s: Skip)
    requires s.Shape()
  {
    forall m, n :: m in s.chain[0] && n in s.chain[0] && 0 < m < |s.keys| && 0 < n < |s.keys| ==>
      (s.keys[m] == s.keys[n] ==> m == n)
  }

  /** The answer is what the list holds for the key. */
  ghost predicate Holds(s: Skip, k: Key, answer: Option<ValueStruct>)
    requires s.Shape()
  {
    answer == if k in Contents(s) then Some(Contents(s)[k]) else None
  }

  /** A reader only moves by its own reads. */
  lemma ReaderStep(a: World, act: Action, b: World, r: nat)
    requires Inv(a) && Step(a, act, b) && r < |a.readers| && !(act.Lookup? && act.r == r)
    ensures r < |b.readers| && b.readers[r].key == a.readers[r].key
    ensures a.readers[r].at.Resting? <==> b.readers[r].at.Resting?
    ensures b.readers[r].at.Answered? ==>
              b.readers[r] == a.readers[r] || Holds(a.list, a.readers[r].key, b.readers[r].at.answer)
  {
    hide Skip.Shape, Contents, WriterOk, Advance, Allocated, Begun, Ready;
    if act == Read(r) {
      hide Step, Inv;
      ReadHere(a, b, r);
    }
  }

  lemma ReadHere(a: World, b: World, r: nat)
    requires Inv(a) && Step(a, Read(r), b)
    ensures r < |a.readers| == |b.readers| && b.readers[r].key == a.readers[r].key
    ensures a.readers[r].at.Resting? <==> b.readers[r].at.Resting?
    ensures b.readers[r].at.Answered? ==>
              b.readers[r] == a.readers[r] || Holds(a.list, a.readers[r].key, b.readers[r].at.answer)
  {
    hide Skip.Shape, Contents, WriterOk;
    ReadOk(a.list, a.readers[r]);
  }

  /** A lookup that runs while any number of puts go on is atomic: its answer is what the list holds at some
      moment between its start and its answer. */
  lemma {:induction false} LookupIsAtomic(ws: seq<World>, acts: seq<Action>, i: nat, j: nat, r: nat)
    requires Run(ws, acts) && i < |acts| && i < j < |ws| && acts[i].Lookup? && acts[i].r == r
    requires forall n :: i < n < j ==> !(acts[n].Lookup? && acts[n].r == r)
    ensures r < |ws[j].readers| && ws[j].readers[r].key == acts[i].k && !ws[j].readers[r].at.Resting?
    ensures ws[j].readers[r].at.Answered? ==>
              exists m :: i < m < j && ws[m].list.Shape() && Holds(ws[m].list, acts[i].k, ws[j].readers[r].at.answer)
    decreases j
  {
    hide Inv, Skip.Shape, Holds, Start;
    if j == i + 1 {
      assert Step(ws[i], acts[i], ws[j]);
    } else {
      hide Step;
      LookupIsAtomic(ws, acts, i, j - 1, r);
      RunInv(ws, acts, j - 1);
      assert ws[j - 1].list.Shape() by { InvShape(ws[j - 1]); }
      ReaderStep(ws[j - 1], acts[j - 1], ws[j], r);
    }
  }

  lemma InvShape(a: World)
    requires Inv(a)
    ensures a.list.Shape()
  {
    hide Skip.Shape;
  }

  /** A put takes effect once: not before it has linked its node at the base level or overwritten a value,
      and exactly once when it is finished. */
  lemma PutOnce(ws: seq<World>, acts: seq<Action>, i: nat, j: nat)
    requires Run(ws, acts) && i < |ws| && j < |ws[i].writers|
    ensures ws[i].writers[j].pc.Finished? ==> ws[i].writers[j].applied == 1
    ensures !ws[i].writers[j].pc.Idle? ==> ws[i].writers[j].applied <= 1
  {
    RunInv(ws, acts, i);
    assert WriterOk(ws[i].list, ws[i].writers[j]);
  }

  /** No step loses a linked node at any level or changes the list's contents, except the one that
      makes a put take effect: it changes them at that key only. */
  lemma StepEffect(a: World, act: Action, b: World)
    requires Inv(a) && Step(a, act, b)
    ensures Inv(b) && forall l, n :: 0 <= l < MAX_HEIGHT && n in a.list.chain[l] ==> n in b.list.chain[l]
    ensures if act.Move? && b.writers[act.i].applied > a.writers[act.i].applied
            then Contents(b.list) == Contents(a.list)[a.writers[act.i].key := a.writers[act.i].val]
            else Contents(b.list) == Contents(a.list)
  {
    hide Skip.Shape, Contents, WriterOk, ReaderOk, Advance;
    StepInv(a, act, b);
    match act
    case Alloc(i, h) => AllocKept(a.list, a.writers[i], h);
    case Move(i) => AdvanceKept(a.list, a.writers[i]);
    case _ =>
  }

  /** A put that has gone through its levels has linked its node at every level of its tower and at no
      other. */
  lemma TowerComplete(a: World, i: nat, l: nat)
    requires Inv(a) && i < |a.writers| && a.writers[i].pc == Link(a.writers[i].height) && l < MAX_HEIGHT
    ensures a.writers[i].x in a.list.chain[l] <==> l < a.writers[i].height
  {
    assert WriterOk(a.list, a.writers[i]);
  }

  /** A put in progress is never stuck. */
  lemma NeverStuck(a: World, i: nat)
    requires Inv(a) && i < |a.writers|
    ensures Ready(a.list, a.writers[i]) && !Advance(a.list, a.writers[i]).1.pc.Panicked?
  {
    AdvanceKept(a.list, a.writers[i]);
  }
}
