// Memtables and levels together always hold the last write of every key as their newest version: the ghost
// history of writes against what is stored. One group of lemmas per kind of step; the steps that only move
// data (flush, install, remove) keep the newest version, a write replaces it.
module LsmHistory {
  import opened Base
  import opened Tables
  import opened Lsm
  import opened LsmInv
  import opened LsmJobs
  import opened LsmDepth

  // ----- first hits in the memtables -----

  lemma {:induction false} MemHolder(mems: map<nat, map<Key, ValueStruct>>, ids: seq<nat>, k: Key) returns (q: nat)
    requires MemGet(mems, ids, k).Some?
    ensures q in ids && q in mems && k in mems[q] && MemGet(mems, ids, k) == Some(mems[q][k])
  {
    q := ids[|ids| - 1];
    if !(q in mems && k in mems[q]) { q := MemHolder(mems, ids[..|ids| - 1], k); }
  }

  /** The oldest memtable only answers for keys no newer one holds. */
  lemma {:induction false} MemSplit(mems: map<nat, map<Key, ValueStruct>>, m: nat, rest: seq<nat>, k: Key)
    requires m in mems
    ensures MemGet(mems, [m] + rest, k) ==
              if MemGet(mems, rest, k).Some? then MemGet(mems, rest, k)
              else if k in mems[m] then Some(mems[m][k]) else None
  {
    var ids := [m] + rest;
    if rest == [] {
      assert ids[..0] == [];
    } else {
      assert ids[..|ids| - 1] == [m] + rest[..|rest| - 1];
      MemSplit(mems, m, rest[..|rest| - 1], k);
    }
  }

  /** The answer of the memtables is the newest version they hold. */
  lemma {:induction false} MemNewest(mems: map<nat, map<Key, ValueStruct>>, ids: seq<nat>, p: nat, k: Key)
    requires Increasing(ids) && p in ids && p in mems && k in mems[p]
    requires forall x, y :: x < y && x in mems && y in mems && k in mems[x] && k in mems[y] ==>
               mems[x][k].casCounter <= mems[y][k].casCounter
    ensures MemGet(mems, ids, k).Some? && Ver(MemGet(mems, ids, k)) >= mems[p][k].casCounter
  {
    var q := ids[|ids| - 1];
    if q in mems && k in mems[q] {
      LastIsGreatest(ids, p);
    } else {
      assert ids == ids[..|ids| - 1] + [q];
      MemNewest(mems, ids[..|ids| - 1], p, k);
    }
  }

  lemma LastIsGreatest(ids: seq<nat>, p: nat)
    requires Increasing(ids) && p in ids
    ensures p == ids[|ids| - 1] || p < ids[|ids| - 1]
  {
  }

  lemma {:induction false} MemFrame(a: map<nat, map<Key, ValueStruct>>, b: map<nat, map<Key, ValueStruct>>,
                                    ids: seq<nat>, k: Key)
    requires forall q :: q in ids ==> (q in a && k in a[q] <==> q in b && k in b[q])
    requires forall q :: q in ids && q in a && k in a[q] ==> a[q][k] == b[q][k]
    ensures MemGet(a, ids, k) == MemGet(b, ids, k)
  {
    if ids != [] {
      assert ids[|ids| - 1] in ids;
      MemFrame(a, b, ids[..|ids| - 1], k);
    }
  }

  // ----- the store part of the invariant -----

  ghost predicate StoreInv(s: State) {
    && |s.levels| >= 2 && MemOk(s) && MemDepthOk(s) && HistoryOk(s) && NewestOk(s)
  }

  /** The parts StoreInv reads are unchanged. */
  ghost predicate SameStore(s: State, s': State) {
    && s'.mems == s.mems && s'.active == s.active && s'.imm == s.imm && s'.queue == s.queue && s'.flush == s.flush
    && s'.levels == s.levels && s'.latest == s.latest && s'.log == s.log && s'.applied == s.applied
    && s'.counter >= s.counter
  }

  lemma StoreSame(s: State, s': State)
    requires StoreInv(s) && SameStore(s, s')
    ensures StoreInv(s')
  {
    hide MemOk, NewestOk, HistoryOk, MemDepthOk;
    MemSame(s, s');
    NewestSame(s, s');
    CounterBound(s);
    HistorySame(s, s');
    assert MemDepthOk(s') by { SameDepth(s, s'); }
  }

  lemma SameDepth(s: State, s': State)
    requires MemDepthOk(s) && SameStore(s, s')
    ensures MemDepthOk(s')
  {
    hide DeepVer;
    assert Live(s') == Live(s);
  }

  lemma CounterBound(s: State)
    requires HistoryOk(s)
    ensures s.applied <= s.counter
  {
  }

  lemma NewestAt(s: State, k: Key)
    requires NewestOk(s)
    ensures Max(Ver(MemGet(s.mems, Live(s), k)), DeepVer(s.levels, 0, k)) == Ver(Latest(s, k))
  {
  }

  lemma HistorySame(s: State, s': State)
    requires HistoryOk(s) && s'.mems == s.mems && s'.levels == s.levels && s'.latest == s.latest && s'.log == s.log
    requires s.applied <= s'.applied <= s'.counter
    ensures HistoryOk(s')
  {
    assert forall k, v :: Known(s', k, v) <==> Known(s, k, v);
  }

  // ----- levels change, newest versions from the top do not -----

  ghost predicate SameMem(s: State, s': State) {
    && s'.mems == s.mems && s'.active == s.active && s'.imm == s.imm && s'.queue == s.queue && s'.flush == s.flush
    && s'.latest == s.latest && s'.log == s.log && s'.applied == s.applied && s'.counter == s.counter
  }

  lemma StoreSunk(s: State, s': State)
    requires StoreInv(s) && SameMem(s, s') && |s'.levels| >= 2
    requires forall k :: DeepVer(s'.levels, 0, k) == DeepVer(s.levels, 0, k)
    requires forall l, t, k :: 0 <= l < |s'.levels| && t in s'.levels[l] && k in t.kvs ==> Known(s, k, t.kvs[k])
    ensures StoreInv(s')
  {
    hide MemOk, NewestOk, HistoryOk, MemDepthOk;
    assert MemOk(s') by { MemSame(s, s'); }
    assert MemDepthOk(s') by { DepthSame(s, s'); }
    NewestSame(s, s');
    KnownHistory(s, s');
  }

  lemma MemSame(s: State, s': State)
    requires MemOk(s)
    requires s'.mems == s.mems && s'.active == s.active && s'.imm == s.imm && s'.queue == s.queue && s'.flush == s.flush
    ensures MemOk(s') && Live(s') == Live(s)
  {
  }

  lemma DepthSame(s: State, s': State)
    requires MemDepthOk(s) && SameMem(s, s') && forall k :: DeepVer(s'.levels, 0, k) == DeepVer(s.levels, 0, k)
    ensures MemDepthOk(s')
  {
    hide DeepVer;
    assert Live(s') == Live(s);
  }

  lemma NewestSame(s: State, s': State)
    requires NewestOk(s) && s'.mems == s.mems && s'.latest == s.latest && Live(s') == Live(s)
    requires forall k :: DeepVer(s'.levels, 0, k) == DeepVer(s.levels, 0, k)
    ensures NewestOk(s')
  {
    hide DeepVer, MemGet;
    forall k ensures Max(Ver(MemGet(s'.mems, Live(s'), k)), DeepVer(s'.levels, 0, k)) == Ver(Latest(s', k)) {
      assert Latest(s', k) == Latest(s, k);
      NewestAt(s, k);
    }
  }

  lemma KnownHistory(s: State, s': State)
    requires HistoryOk(s) && SameMem(s, s')
    requires forall l, t, k :: 0 <= l < |s'.levels| && t in s'.levels[l] && k in t.kvs ==> Known(s, k, t.kvs[k])
    ensures HistoryOk(s')
  {
    assert forall k, v :: Known(s', k, v) <==> Known(s, k, v);
  }

  /** Every cell of an output table was a cell of the input. */
  lemma OutsKnown(s: State, j: Job, t: Table, k: Key)
    requires LevelsOk(s.levels) && JobOk(s.levels, j) && j.phase == Logged && HistoryOk(s)
    requires t in j.outs && k in t.kvs
    ensures Known(s, k, t.kvs[k])
  {
    hide HistoryOk, LevelsOk, JobOk, SortedDisjoint, LevelGet, RangesOk, TopIn;
    OutsSorted(s.levels, j);
    DisjointGet(j.outs, t, k);
    JobShape(s.levels, j);
    assert OutsOk(j) by { LoggedOuts(s.levels, j); }
    OutsGet(j, k);
    if LevelGet(j.top, k).Some? {
      var u := Holder(j.top, k);
      TopMember(s.levels, j, u);
      LevelKnown(s, j.level, u, k);
    } else {
      var u := Holder(j.bot, k);
      LevelKnown(s, j.level + 1, u, k);
    }
  }

  lemma LoggedOuts(levels: seq<seq<Table>>, j: Job)
    requires JobOk(levels, j) && j.phase == Logged
    ensures OutsOk(j)
  {
  }

  lemma LevelKnown(s: State, l: nat, t: Table, k: Key)
    requires HistoryOk(s) && l < |s.levels| && t in s.levels[l] && k in t.kvs
    ensures Known(s, k, t.kvs[k])
  {
  }

  lemma OutsSorted(levels: seq<seq<Table>>, j: Job)
    requires LevelsOk(levels) && JobOk(levels, j) && j.phase == Logged
    ensures SortedDisjoint(j.outs) && forall t :: t in j.outs ==> GoodTable(t)
  {
    forall t | t in j.outs ensures GoodTable(t) { OutInFoot(levels, j, t); }
  }

  lemma TopMember(levels: seq<seq<Table>>, j: Job, t: Table)
    requires RangesOk(j) && TopIn(levels, j) && t in j.top
    ensures t in levels[j.level]
  {
    if j.level == 0 { assert levels[0] == j.top + levels[0][|j.top|..]; }
  }

  lemma StoreInstall(s: State, j: Job, s': State)
    requires StoreInv(s) && SameMem(s, s') && Installing(s.levels, j, s'.levels)
    ensures StoreInv(s')
  {
    hide StoreInv, LevelsOk, JobOk, DepthOk, AgeOk, Replaced, SortedDisjoint, ExactTable, DeepVer, LevelGet, Known;
    forall k ensures DeepVer(s'.levels, 0, k) == DeepVer(s.levels, 0, k) {
      InstallSinks(s.levels, j, s'.levels, k);
      SinkDeep(s.levels, j.level, j.top, s'.levels, 0, k);
    }
    InstallSet(s.levels, j, s'.levels[j.level + 1]);
    History(s);
    forall l, t, k | 0 <= l < |s'.levels| && t in s'.levels[l] && k in t.kvs ensures Known(s, k, t.kvs[k]) {
      if t !in s.levels[l] {
        OutsKnown(s, j, t, k);
      }
    }
    StoreSunk(s, s');
  }

  lemma History(s: State)
    requires StoreInv(s)
    ensures HistoryOk(s) && |s.levels| >= 2
    ensures forall l, t, k :: 0 <= l < |s.levels| && t in s.levels[l] && k in t.kvs ==> Known(s, k, t.kvs[k])
  {
  }

  lemma StoreRemove(s: State, j: Job, s': State)
    requires StoreInv(s) && SameMem(s, s') && Removing(s.levels, j, s'.levels)
    ensures StoreInv(s')
  {
    hide StoreInv, LevelsOk, JobOk, DepthOk, AgeOk, DeepVer, LevelGet, Known;
    forall k ensures DeepVer(s'.levels, 0, k) == DeepVer(s.levels, 0, k) {
      RemoveFades(s.levels, j, s'.levels, k);
      FadeDeep(s.levels, j.level, s'.levels, 0, k);
    }
    History(s);
    StoreSunk(s, s');
  }

  // ----- the flusher -----

  lemma StoreAdding(s: State)
    requires StoreInv(s) && s.flush.Described?
    ensures s.flush.m in s.mems && s.flush.t.kvs == s.mems[s.flush.m] && GoodTable(s.flush.t)
    ensures s.imm != [] && s.imm[0] == s.flush.m && s.flush.m in Live(s)
    ensures forall k :: k in s.flush.t.kvs ==> s.flush.t.kvs[k].casCounter >= DeepVer(s.levels, 0, k)
  {
    hide HistoryOk, NewestOk, DeepVer;
  }

  ghost predicate AddingStore(s: State, s': State) {
    && StoreInv(s) && s.flush.Described? && Adding(s.levels, s.flush.t, s'.levels)
    && s' == s.(levels := s'.levels, flush := Added(s.flush.m))
  }

  lemma MemOrder(s: State, p: nat, q: nat, k: Key)
    requires MemOk(s) && p <= q && p in s.mems && q in s.mems && k in s.mems[p] && k in s.mems[q]
    ensures s.mems[p][k].casCounter <= s.mems[q][k].casCounter
  {
  }

  lemma FlushedFirst(s: State, q: nat)
    requires StoreInv(s) && s.flush.Described? && q in Live(s)
    ensures s.flush.m <= q
  {
    hide HistoryOk, NewestOk, MemDepthOk;
    assert Live(s)[0] == s.flush.m;
  }

  lemma AddMemDepth(s: State, s': State)
    requires AddingStore(s, s')
    ensures MemDepthOk(s')
  {
    hide HistoryOk, NewestOk, DeepVer, Adding, MemOk;
    StoreAdding(s);
    forall q, k | q in Live(s') && q in s'.mems && k in s'.mems[q]
      ensures s'.mems[q][k].casCounter >= DeepVer(s'.levels, 0, k)
    {
      assert q in Live(s);
      AddDeep(s.levels, s.flush.t, s'.levels, 0, k);
      FlushedFirst(s, q);
      if k in s.flush.t.kvs { MemOrder(s, s.flush.m, q, k); }
    }
    forall k | k in s'.mems[s.flush.m] ensures DeepVer(s'.levels, 0, k) >= s'.mems[s.flush.m][k].casCounter {
      AddDeep(s.levels, s.flush.t, s'.levels, 0, k);
    }
  }

  lemma AddNewest(s: State, s': State)
    requires AddingStore(s, s')
    ensures NewestOk(s')
  {
    hide HistoryOk, DeepVer, Adding, MemDepthOk, MemGet;
    StoreAdding(s);
    assert Live(s') == Live(s);
    forall k ensures Max(Ver(MemGet(s'.mems, Live(s'), k)), DeepVer(s'.levels, 0, k)) == Ver(Latest(s', k)) {
      assert Latest(s', k) == Latest(s, k);
      NewestAt(s, k);
      AddDeep(s.levels, s.flush.t, s'.levels, 0, k);
      if k in s.flush.t.kvs { MemNewest(s.mems, Live(s), s.flush.m, k); }
    }
  }

  lemma AddHistory(s: State, s': State)
    requires AddingStore(s, s')
    ensures HistoryOk(s')
  {
    hide MemOk, NewestOk, DeepVer, LevelGet, DepthOk, AgeOk, LevelsOk;
    StoreAdding(s);
    assert forall k, v :: Known(s', k, v) <==> Known(s, k, v);
  }

  lemma StoreAdd(s: State, s': State)
    requires AddingStore(s, s')
    ensures StoreInv(s')
  {
    hide HistoryOk, NewestOk, MemDepthOk, Adding;
    AddMemDepth(s, s');
    AddNewest(s, s');
    AddHistory(s, s');
    AddingShape(s.levels, s.flush.t, s'.levels);
  }

  lemma AddingShape(levels: seq<seq<Table>>, t: Table, levels': seq<seq<Table>>)
    requires Adding(levels, t, levels')
    ensures |levels'| == |levels|
  {
  }

  /** The memtable dropped by advance_imm is the one whose table was just added to level 0. */
  lemma AdvanceDropsFlushed(s: State)
    requires MemOk(s) && s.flush.Added?
    ensures s.imm != [] && s.imm[0] == s.flush.m && s.imm[1..] == s.queue
  {
  }

  ghost predicate Advancing(s: State, s': State) {
    StoreInv(s) && s.flush.Added? && s.imm != [] && s' == s.(imm := s.imm[1..], flush := Idle)
  }

  lemma AdvanceMem(s: State, s': State)
    requires Advancing(s, s')
    ensures MemOk(s') && Live(s) == [s.flush.m] + Live(s')
  {
    hide HistoryOk, NewestOk, MemDepthOk;
    AdvanceDropsFlushed(s);
    assert Live(s) == [s.flush.m] + Live(s');
    assert forall i :: 0 <= i < |Live(s')| ==> Live(s')[i] == Live(s)[i + 1];
  }

  lemma AdvanceNewest(s: State, s': State)
    requires Advancing(s, s')
    ensures NewestOk(s')
  {
    hide HistoryOk, DeepVer, MemGet, MemOk;
    AdvanceMem(s, s');
    var m := s.flush.m;
    assert m in Live(s);
    forall k ensures Max(Ver(MemGet(s'.mems, Live(s'), k)), DeepVer(s'.levels, 0, k)) == Ver(Latest(s', k)) {
      assert Latest(s', k) == Latest(s, k);
      NewestAt(s, k);
      MemSplit(s.mems, m, Live(s'), k);
    }
  }

  lemma StoreAdvance(s: State, s': State)
    requires Advancing(s, s')
    ensures StoreInv(s')
  {
    hide HistoryOk, NewestOk, MemOk, DeepVer;
    AdvanceMem(s, s');
    AdvanceNewest(s, s');
    CounterBound(s);
    HistorySame(s, s');
    assert forall q :: q in Live(s') ==> q in Live(s);
  }

  lemma StoreTake(s: State, s': State)
    requires StoreInv(s) && s.flush.Idle? && s.queue != []
    requires s' == s.(flush := Taken(s.queue[0]), queue := s.queue[1..])
    ensures StoreInv(s')
  {
    hide DeepVer, NewestOk, HistoryOk;
    assert Live(s') == Live(s);
    assert s.queue == [s.queue[0]] + s.queue[1..];
    CounterBound(s);
    HistorySame(s, s');
    NewestSame(s, s');
  }

  lemma StoreName(s: State, s': State)
    requires StoreInv(s) && s.flush.Taken?
    requires s' == s.(flush := Named(s.flush.m, s.nextId), nextId := s.nextId + 1)
    ensures StoreInv(s')
  {
    hide DeepVer, NewestOk, HistoryOk;
    assert Live(s') == Live(s);
    CounterBound(s);
    HistorySame(s, s');
    NewestSame(s, s');
  }

  lemma StoreDescribe(s: State, t: Table, s': State)
    requires StoreInv(s) && s.flush.Named? && s.flush.m in s.mems && GoodTable(t) && t.kvs == s.mems[s.flush.m]
    requires s'.flush == Described(s.flush.m, t)
    requires s'.mems == s.mems && s'.active == s.active && s'.imm == s.imm && s'.queue == s.queue
    requires s'.levels == s.levels && s'.latest == s.latest && s'.log == s.log
    requires s'.applied == s.applied && s'.counter == s.counter
    ensures StoreInv(s')
  {
    hide DeepVer, NewestOk, HistoryOk;
    assert Live(s') == Live(s);
    CounterBound(s);
    HistorySame(s, s');
    NewestSame(s, s');
  }

  // ----- swapping the memtable -----

  ghost predicate Swapping(s: State, s': State) {
    && StoreInv(s) && s.active in s.mems && s.mems[s.active] != map[]
    && s' == s.(imm := s.imm + [s.active], queue := s.queue + [s.active],
                active := s.active + 1, mems := s.mems[s.active + 1 := map[]])
  }

  lemma SwapLive(s: State, s': State)
    requires Swapping(s, s')
    ensures Live(s') == Live(s) + [s.active + 1] && Increasing(Live(s'))
    ensures s.active + 1 !in s.mems && forall q :: q in Live(s) ==> q in s.mems
  {
    hide HistoryOk, NewestOk, MemDepthOk;
    assert Live(s') == Live(s) + [s.active + 1];
    forall i | 0 <= i < |Live(s)| ensures Live(s)[i] <= s.active {
      assert i < |s.imm| ==> s.imm[i] in s.imm;
    }
  }

  lemma SwapMem(s: State, s': State)
    requires Swapping(s, s')
    ensures MemOk(s') && MemDepthOk(s')
  {
    hide HistoryOk, NewestOk, DeepVer;
    SwapLive(s, s');
    SwapDepth(s, s');
    SwapOrder(s, s');
  }

  lemma SwapDepth(s: State, s': State)
    requires Swapping(s, s') && Live(s') == Live(s) + [s.active + 1] && s.active + 1 !in s.mems
    ensures MemDepthOk(s')
  {
    hide HistoryOk, NewestOk, DeepVer, MemOk;
  }

  lemma SwapOrder(s: State, s': State)
    requires Swapping(s, s') && Increasing(Live(s')) && s.active + 1 !in s.mems
    ensures MemOk(s')
  {
    hide HistoryOk, NewestOk, DeepVer, MemDepthOk, Increasing;
  }

  lemma SwapHistory(s: State, s': State)
    requires Swapping(s, s')
    ensures HistoryOk(s')
  {
    hide NewestOk, MemDepthOk;
    SwapLive(s, s');
    assert forall k, v :: Known(s', k, v) <==> Known(s, k, v);
  }

  lemma SwapNewest(s: State, s': State)
    requires Swapping(s, s')
    ensures NewestOk(s')
  {
    hide HistoryOk, DeepVer, MemGet, MemOk, MemDepthOk;
    SwapLive(s, s');
    forall k ensures Max(Ver(MemGet(s'.mems, Live(s'), k)), DeepVer(s'.levels, 0, k)) == Ver(Latest(s', k)) {
      assert Latest(s', k) == Latest(s, k);
      NewestAt(s, k);
      EmptyLast(s'.mems, Live(s), s.active + 1, k);
      MemFrame(s.mems, s'.mems, Live(s), k);
    }
  }

  lemma StoreSwap(s: State, s': State)
    requires Swapping(s, s')
    ensures StoreInv(s')
  {
    hide HistoryOk, NewestOk, MemOk, MemDepthOk;
    SwapMem(s, s');
    SwapHistory(s, s');
    SwapNewest(s, s');
  }

  lemma EmptyLast(mems: map<nat, map<Key, ValueStruct>>, ids: seq<nat>, q: nat, k: Key)
    requires q in mems && mems[q] == map[]
    ensures MemGet(mems, ids + [q], k) == MemGet(mems, ids, k)
  {
    assert (ids + [q])[..|ids|] == ids;
  }

  // ----- writing -----

  ghost predicate Writing(s: State, k: Key, v: ValueStruct, s': State) {
    && StoreInv(s) && s.applied < v.casCounter <= s.counter && s.active in s.mems && v.Visible()
    && s' == Applied(s, k, v)
  }

  lemma VersionsApplied(s: State, k: Key)
    requires StoreInv(s)
    ensures Ver(Latest(s, k)) <= s.applied && DeepVer(s.levels, 0, k) <= s.applied
    ensures forall q :: q in s.mems && k in s.mems[q] ==> s.mems[q][k].casCounter <= s.applied
  {
    hide MemOk, MemDepthOk, DeepVer, MemGet;
    NewestAt(s, k);
  }

  lemma WriteMem(s: State, k: Key, v: ValueStruct, s': State)
    requires Writing(s, k, v, s')
    ensures MemOk(s')
  {
    hide MemShape, MemAged, HistoryOk, NewestOk, MemDepthOk;
    VersionsApplied(s, k);
    WriteShapeOk(s, k, v);
    WriteOrder(s, k, v);
  }

  lemma WriteShapeOk(s: State, k: Key, v: ValueStruct)
    requires MemShape(s) && v.Visible() && v.casCounter > 0
    ensures MemShape(Applied(s, k, v))
  {
    hide Increasing;
    assert Live(Applied(s, k, v)) == Live(s);
  }

  lemma WriteOrder(s: State, k: Key, v: ValueStruct)
    requires MemShape(s) && MemAged(s.mems)
    requires forall q :: q in s.mems && k in s.mems[q] ==> s.mems[q][k].casCounter <= v.casCounter
    ensures MemAged(Applied(s, k, v).mems)
  {
  }

  lemma WriteMemDepth(s: State, k: Key, v: ValueStruct, s': State)
    requires Writing(s, k, v, s')
    ensures MemDepthOk(s')
  {
    hide HistoryOk, NewestOk, DeepVer;
    assert Live(s') == Live(s);
    VersionsApplied(s, k);
    ActiveNotFlushed(s);
  }

  lemma ActiveNotFlushed(s: State)
    requires MemOk(s)
    ensures !s.flush.Idle? ==> s.flush.m != s.active
  {
    if !s.flush.Idle? { assert Live(s)[0] == s.flush.m && Live(s)[|Live(s)| - 1] == s.active; }
  }

  lemma WriteHistory(s: State, k: Key, v: ValueStruct, s': State)
    requires Writing(s, k, v, s')
    ensures HistoryOk(s')
  {
    hide MemOk, MemDepthOk, NewestOk, DeepVer, MemGet;
    VersionsApplied(s, k);
    assert v.casCounter !in s.log;
    forall x, y | Known(s, x, y) ensures Known(s', x, y) { }
    assert Known(s', k, v);
    hide Known;
  }

  lemma WriteNewest(s: State, k: Key, v: ValueStruct, s': State)
    requires Writing(s, k, v, s')
    ensures NewestOk(s')
  {
    hide HistoryOk, DeepVer, MemDepthOk;
    assert Live(s') == Live(s);
    VersionsApplied(s, k);
    forall x ensures Max(Ver(MemGet(s'.mems, Live(s'), x)), DeepVer(s'.levels, 0, x)) == Ver(Latest(s', x)) {
      if x == k {
        assert Live(s)[|Live(s)| - 1] == s.active;
      } else {
        NewestAt(s, x);
        MemFrame(s.mems, s'.mems, Live(s), x);
        assert Latest(s', x) == Latest(s, x);
      }
    }
  }

  lemma StoreWrite(s: State, k: Key, v: ValueStruct, s': State)
    requires Writing(s, k, v, s')
    ensures StoreInv(s')
  {
    hide MemOk, MemDepthOk, NewestOk, HistoryOk;
    WriteMem(s, k, v, s');
    WriteMemDepth(s, k, v, s');
    WriteHistory(s, k, v, s');
    WriteNewest(s, k, v, s');
  }

  /** A rejected entry only uses up its counter. */
  lemma StoreReject(s: State, cas: nat, s': State)
    requires StoreInv(s) && s.applied < cas <= s.counter && s' == s.(applied := cas)
    ensures StoreInv(s')
  {
    hide DeepVer, NewestOk, HistoryOk;
    assert Live(s') == Live(s);
    CounterBound(s);
    HistorySame(s, s');
    NewestSame(s, s');
  }
}
