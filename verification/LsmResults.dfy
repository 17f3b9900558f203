// What a client sees: every run of the store answers like one plain map.
module LsmResults {
  import opened Base
  import opened Tables
  import opened Compaction
  import opened Changes
  import opened Lsm
  import opened LsmInv
  import opened LsmDepth
  import LsmManifest
  import opened LsmHistory
  import opened LsmTheorems

  // ----- a lookup finds the newest version -----

  lemma {:induction false} MemFindGet(mems: map<nat, map<Key, ValueStruct>>, ids: seq<nat>, k: Key)
    requires forall q :: q in mems && k in mems[q] ==> mems[q][k].Visible()
    ensures MemFind(mems, ids, k) == MemGet(mems, ids, k)
  {
    if ids != [] { MemFindGet(mems, ids[..|ids| - 1], k); }
  }

  /** Going down the levels, the first hit has the newest version of all levels. */
  lemma {:induction false} FirstHitNewest(levels: seq<seq<Table>>, i: nat, k: Key)
    requires LevelsOk(levels) && DepthOk(levels)
    ensures Ver(LevelsGet(levels, i, k)) == DeepVer(levels, i, k)
    ensures LevelsGet(levels, i, k).Some? ==>
              exists l, t :: 0 <= l < |levels| && t in levels[l] && k in t.kvs &&
                             LevelsGet(levels, i, k) == Some(t.kvs[k])
    decreases |levels| - i
  {
    hide LevelsOk, DepthOk, GoodTable, LevelGet;
    if i < |levels| {
      assert DepthAt(levels, i, k) by { DepthHere(levels, i, k); }
      LevelGood(levels, i);
      LevelVerPositive(levels[i], k);
      if LevelGet(levels[i], k).Some? {
        var t := Holder(levels[i], k);
      } else {
        FirstHitNewest(levels, i + 1, k);
      }
    }
  }

  lemma DepthHere(levels: seq<seq<Table>>, i: nat, k: Key)
    requires DepthOk(levels) && i < |levels|
    ensures DepthAt(levels, i, k)
  {
  }

  lemma LevelGood(levels: seq<seq<Table>>, i: nat)
    requires LevelsOk(levels) && i < |levels|
    ensures forall t :: t in levels[i] ==> GoodTable(t)
  {
  }

  /** In every state that satisfies the invariant `_get` finds exactly the last write. */
  lemma FindIsLatest(s: State, k: Key)
    requires Inv(s)
    ensures Find(s, k) == Latest(s, k)
  {
    Regroup(s);
    FindIsLatestHere(s, k);
  }

  /** What a client sees: the last write itself, every field as written, or nothing for a key that was never
      written or whose last write is a tombstone. */
  lemma GetIsLatest(s: State, k: Key)
    requires Inv(s)
    ensures k in s.latest && s.latest[k].meta % 2 == 0 ==> Get(s, k) == Some(s.latest[k])
    ensures k !in s.latest || s.latest[k].meta % 2 == 1 ==> Get(s, k) == None
  {
    hide Inv, Find;
    FindIsLatest(s, k);
  }

  lemma FindIsLatestHere(s: State, k: Key)
    requires LevelsOk(s.levels) && DepthOk(s.levels) && StoreInv(s)
    ensures Find(s, k) == Latest(s, k)
  {
    hide LevelsOk, DepthOk, MemOk, MemDepthOk, HistoryOk, NewestOk, DeepVer, LevelsGet, MemGet, MemFind;
    assert MemFind(s.mems, Live(s), k) == MemGet(s.mems, Live(s), k) by {
      AllVisible(s);
      MemFindGet(s.mems, Live(s), k);
    }
    FirstHitNewest(s.levels, 0, k);
    NewestAt(s, k);
    if MemGet(s.mems, Live(s), k).Some? {
      var q := MemHolder(s.mems, Live(s), k);
      MemCell(s, q, k);
    } else if LevelsGet(s.levels, 0, k).Some? {
      var l, t :| 0 <= l < |s.levels| && t in s.levels[l] && k in t.kvs && LevelsGet(s.levels, 0, k) == Some(t.kvs[k]);
      LevelKnown(s, l, t, k);
      KnownLatest(s, k, t.kvs[k]);
    } else {
      LatestPositive(s, k);
    }
  }

  lemma AllVisible(s: State)
    requires MemOk(s)
    ensures forall q, k :: q in s.mems && k in s.mems[q] ==> s.mems[q][k].Visible()
  {
  }

  /** A live memtable's cell is at least as new as the levels. */
  lemma MemCell(s: State, q: nat, k: Key)
    requires StoreInv(s) && q in Live(s) && q in s.mems && k in s.mems[q]
    requires Ver(MemGet(s.mems, Live(s), k)) == s.mems[q][k].casCounter
    ensures Latest(s, k) == Some(s.mems[q][k])
  {
    hide DeepVer, MemGet, MemOk;
    NewestAt(s, k);
    assert Known(s, k, s.mems[q][k]);
    KnownLatest(s, k, s.mems[q][k]);
  }

  lemma KnownLatest(s: State, k: Key, v: ValueStruct)
    requires HistoryOk(s) && Known(s, k, v)
    ensures Latest(s, k).Some? && (v.casCounter == Ver(Latest(s, k)) ==> Latest(s, k) == Some(v))
  {
    assert Known(s, k, s.latest[k]);
  }

  lemma LatestPositive(s: State, k: Key)
    requires StoreInv(s) && DeepVer(s.levels, 0, k) == 0 && MemGet(s.mems, Live(s), k).None?
    ensures Latest(s, k) == None
  {
    hide DeepVer, MemGet, MemOk, MemDepthOk;
    NewestAt(s, k);
    if k in s.latest {
      LoggedPositive(s, k);
    }
  }

  lemma LoggedPositive(s: State, k: Key)
    requires HistoryOk(s) && k in s.latest
    ensures s.latest[k].casCounter > 0
  {
  }

  // ----- the plain map -----

  /** The specification: a last-write map that only looks at the writes of a run. */
  ghost function Spec(acts: seq<Action>): map<Key, ValueStruct> {
    if acts == [] then map[]
    else
      var m := Spec(acts[..|acts| - 1]);
      match acts[|acts| - 1]
      case Write(e, cas, threshold, ptr) =>
        if Decide(SpecGet(m, e.key), e) == Done then m[e.key := Stored(e, cas, threshold, ptr)] else m
      case _ => m
  }

  /** A plain map of values; a tombstone, bit 0 of the meta byte, counts as absent. */
  ghost function SpecGet(m: map<Key, ValueStruct>, k: Key): Option<ValueStruct> {
    if k in m && m[k].meta % 2 == 0 then Some(m[k]) else None
  }

  lemma {:induction false} LatestIsSpec(ss: seq<State>, acts: seq<Action>, i: nat)
    requires Run(ss, acts) && i < |ss|
    ensures i <= |acts| && ss[i].latest == Spec(acts[..i])
  {
    hide Inv, Run, Step, Find, Decide;
    RunLength(ss, acts);
    if i == 0 {
      RunStarts(ss, acts);
    } else {
      LatestIsSpec(ss, acts, i - 1);
      RunInv(ss, acts, i - 1);
      RunStep(ss, acts, i - 1);
      assert acts[..i][..i - 1] == acts[..i - 1];
      StepLatest(ss[i - 1], acts[i - 1], ss[i]);
      if acts[i - 1].Write? { FindIsLatest(ss[i - 1], acts[i - 1].e.key); }
    }
  }

  lemma RunStarts(ss: seq<State>, acts: seq<Action>)
    requires Run(ss, acts)
    ensures ss[0].latest == map[]
  {
    hide Step;
    InitLatest(ss[0]);
  }

  lemma InitLatest(s: State)
    requires Init(s)
    ensures s.latest == map[]
  {
  }

  /** Refinement: after any run, whatever memtable swaps, flushes and compaction half-steps it contains,
      `_get` of every key answers like the plain last-write map of the writes alone. */
  lemma LookupRefinesMap(ss: seq<State>, acts: seq<Action>, i: nat, k: Key)
    requires Run(ss, acts) && i < |ss|
    ensures var m := Spec(acts[..i]);
            Get(ss[i], k) == if k in m && m[k].meta % 2 == 0 then Some(m[k]) else None
  {
    RunInv(ss, acts, i);
    LatestIsSpec(ss, acts, i);
    GetIsLatest(ss[i], k);
  }

  /** No step other than a write changes any lookup. */
  lemma InternalStepInvisible(ss: seq<State>, acts: seq<Action>, i: nat, k: Key)
    requires Run(ss, acts) && i < |acts| && !acts[i].Write?
    ensures Get(ss[i + 1], k) == Get(ss[i], k)
  {
    LookupRefinesMap(ss, acts, i, k);
    LookupRefinesMap(ss, acts, i + 1, k);
    assert acts[..i + 1][..i] == acts[..i];
  }

  // ----- compare-and-set -----

  /** The run applies a write to k at step m. */
  ghost predicate AppliesTo(ss: seq<State>, acts: seq<Action>, m: nat, k: Key) {
    && m < |acts| && m < |ss| && acts[m].Write? && acts[m].e.key == k
    && Decide(Get(ss[m], k), acts[m].e) == Done
  }

  lemma RunLength(ss: seq<State>, acts: seq<Action>)
    requires Run(ss, acts)
    ensures |ss| == |acts| + 1
  {
    hide Step, Init;
  }

  lemma RunStep(ss: seq<State>, acts: seq<Action>, i: nat)
    requires Run(ss, acts) && i < |acts|
    ensures i + 1 < |ss| && Step(ss[i], acts[i], ss[i + 1])
  {
    hide Step, Init;
  }

  /** What a step does to the history: only a write that is not refused changes it. */
  lemma StepLatest(s: State, a: Action, s': State)
    requires Step(s, a, s')
    ensures if a.Write? && Decide(Get(s, a.e.key), a.e) == Done
            then s'.latest == s.latest[a.e.key := Stored(a.e, a.cas, a.threshold, a.ptr)] && a.cas > s.applied
            else s'.latest == s.latest
  {
    hide Get, Decide, BuildOk, PickOk, ApplyAll, Replaced, Without, Register, Compaction.Unregister;
  }

  /** Each applied write gets a greater counter than everything before it, and nothing else moves the
      counter of a key. */
  lemma VersionStep(ss: seq<State>, acts: seq<Action>, m: nat, k: Key)
    requires Run(ss, acts) && m < |acts|
    ensures Ver(Latest(ss[m], k)) <= ss[m].applied
    ensures AppliesTo(ss, acts, m, k) ==> Ver(Latest(ss[m + 1], k)) == acts[m].cas > ss[m].applied
    ensures !AppliesTo(ss, acts, m, k) ==> Latest(ss[m + 1], k) == Latest(ss[m], k)
  {
    hide Inv, Run, Step, Get, Decide;
    RunStep(ss, acts, m);
    RunInv(ss, acts, m);
    StepLatest(ss[m], acts[m], ss[m + 1]);
    AppliedBound(ss[m], k);
  }

  lemma AppliedBound(s: State, k: Key)
    requires Inv(s)
    ensures Ver(Latest(s, k)) <= s.applied
  {
    Regroup(s);
    VersionsApplied(s, k);
  }

  lemma {:induction false} VersionGrows(ss: seq<State>, acts: seq<Action>, i: nat, j: nat, k: Key)
    requires Run(ss, acts) && i <= j < |ss|
    ensures Ver(Latest(ss[i], k)) <= Ver(Latest(ss[j], k))
    decreases j - i
  {
    hide Run, AppliesTo, Ver, Latest;
    RunLength(ss, acts);
    if i < j {
      VersionStep(ss, acts, j - 1, k);
      VersionGrows(ss, acts, i, j - 1, k);
    }
  }

  /** If a key shows the same counter at two points of a run, no write to it was applied in between. */
  lemma SameVersionNoWrite(ss: seq<State>, acts: seq<Action>, i: nat, j: nat, m: nat, k: Key)
    requires Run(ss, acts) && i <= m < j < |ss|
    requires Ver(Latest(ss[i], k)) == Ver(Latest(ss[j], k))
    ensures !AppliesTo(ss, acts, m, k)
  {
    hide Run, AppliesTo, Ver, Latest;
    RunLength(ss, acts);
    VersionGrows(ss, acts, i, m, k);
    VersionStep(ss, acts, m, k);
    VersionGrows(ss, acts, m + 1, j, k);
  }

  /** Compare-and-set has no ABA: when a client read counter c of a key at step i and a write checked
      against c succeeds at step j, no write to the key was applied in between. */
  lemma CasNoAba(ss: seq<State>, acts: seq<Action>, i: nat, j: nat, m: nat, k: Key)
    requires Run(ss, acts) && i <= m < j < |acts|
    requires Get(ss[i], k).Some?
    requires AppliesTo(ss, acts, j, k) && acts[j].e.casCheck == Get(ss[i], k).value.casCounter != 0
    ensures !AppliesTo(ss, acts, m, k)
    ensures Get(ss[j], k) == Get(ss[i], k)
  {
    RunInv(ss, acts, i);
    RunInv(ss, acts, j);
    FindIsLatest(ss[i], k);
    FindIsLatest(ss[j], k);
    assert Ver(Latest(ss[i], k)) == Ver(Latest(ss[j], k));
    SameVersionNoWrite(ss, acts, i, j, m, k);
    NoWriteSame(ss, acts, i, j, k);
  }

  lemma {:induction false} NoWriteSame(ss: seq<State>, acts: seq<Action>, i: nat, j: nat, k: Key)
    requires Run(ss, acts) && i <= j < |ss| && Ver(Latest(ss[i], k)) == Ver(Latest(ss[j], k))
    ensures Latest(ss[i], k) == Latest(ss[j], k)
    decreases j - i
  {
    hide Run, AppliesTo, Ver, Latest;
    RunLength(ss, acts);
    if i < j {
      VersionGrows(ss, acts, i, j - 1, k);
      VersionStep(ss, acts, j - 1, k);
      VersionGrows(ss, acts, j - 1, j, k);
      SameVersionNoWrite(ss, acts, i, j, j - 1, k);
      VersionStep(ss, acts, j - 1, k);
      NoWriteSame(ss, acts, i, j - 1, k);
    }
  }

  ghost predicate LiveKey(s: State, k: Key) { k in s.latest && s.latest[k].meta % 2 == 0 }

  /** A checked write is applied exactly when the key is live, its current counter matches and the write does
      not also ask for an absent key, which a live one never is. Each refusal has its own exact condition. */
  lemma CheckedWriteIff(s: State, e: WriteEntry)
    requires Inv(s) && e.casCheck != 0
    ensures var resp := Decide(Get(s, e.key), e);
            && (resp == NotFound <==> !LiveKey(s, e.key))
            && (resp == CasMismatch <==> LiveKey(s, e.key) && s.latest[e.key].casCounter != e.casCheck)
            && (resp == KeyExists <==>
                  LiveKey(s, e.key) && s.latest[e.key].casCounter == e.casCheck && e.meta == 8)
            && (resp == Done <==>
                  LiveKey(s, e.key) && s.latest[e.key].casCounter == e.casCheck && e.meta != 8)
  {
    hide Inv, Get;
    GetIsLatest(s, e.key);
    LatestVisible(s, e.key);
  }

  /** A write without a check counter is refused exactly when it asks for an absent key, bit 3 of the meta byte
      alone, and the key is live. */
  lemma UncheckedWriteIff(s: State, e: WriteEntry)
    requires Inv(s) && e.casCheck == 0
    ensures var resp := Decide(Get(s, e.key), e);
            && (resp == KeyExists <==> e.meta == 8 && LiveKey(s, e.key))
            && (resp == Done <==> !(e.meta == 8 && LiveKey(s, e.key)))
  {
    hide Inv, Get;
    GetIsLatest(s, e.key);
    LatestVisible(s, e.key);
  }

  /** What an applied write puts into the memtable: a value below the threshold as it is, a longer one as the
      pointer, with bit 1 of the meta byte set and its other bits kept. */
  ghost predicate Carries(v: ValueStruct, e: WriteEntry, cas: nat, threshold: nat, ptr: seq<byte>) {
    && v.userMeta == e.userMeta && v.casCounter == cas
    && if |e.value| < threshold then v.value == e.value && v.meta == e.meta
       else v.value == ptr && v.meta / 2 % 2 == 1 && v.meta % 2 == e.meta % 2 && v.meta / 4 == e.meta / 4
  }

  /** A write changes its own key, and only when it is not refused. */
  lemma WriteEffects(s: State, e: WriteEntry, cas: nat, threshold: nat, ptr: seq<byte>, s': State)
    requires WriteEffect(s, e, cas, threshold, ptr, s')
    ensures s'.active == s.active && s.active in s.mems && s.active in s'.mems && s'.applied == cas
    ensures Decide(Get(s, e.key), e) != Done ==> s'.latest == s.latest && s'.mems == s.mems
    ensures Decide(Get(s, e.key), e) == Done ==>
              && e.key in s'.latest && s'.latest == s.latest[e.key := s'.latest[e.key]]
              && e.key in s'.mems[s.active] && s'.mems[s.active][e.key] == s'.latest[e.key]
              && s'.mems == s.mems[s.active := s.mems[s.active][e.key := s'.latest[e.key]]]
              && Carries(s'.latest[e.key], e, cas, threshold, ptr)
  {
    hide Get, Decide;
  }

  /** No live value without bytes was written. */
  lemma LatestVisible(s: State, k: Key)
    requires Inv(s)
    ensures k in s.latest ==> s.latest[k].Visible()
  {
    hide BookInv, MemOk, MemDepthOk, NewestOk, StatusOk;
    if k in s.latest { assert Known(s, k, s.latest[k]); }
  }

  // ----- values a lookup cannot see -----

  /** A written value is what the next lookup finds exactly when it is a tombstone or has bytes: a live
      value with no bytes is fallen through while it is in a memtable. */
  lemma WriteFoundIff(s: State, k: Key, v: ValueStruct)
    requires Inv(s) && v.casCounter > s.applied
    ensures s.active in s.mems
    ensures Find(Applied(s, k, v), k) == Some(v) <==> v.meta % 2 == 1 || v.value != []
  {
    hide Inv, BookInv, NewestOk, DeepVer;
    Regroup(s);
    LsmManifest.BookLevels(s);
    var s' := Applied(s, k, v);
    assert Live(s)[|Live(s)| - 1] == s.active && Live(s)[..|Live(s)| - 1] == s.imm;
    if !v.Visible() {
      FallsThrough(s, s', k, v);
    }
  }

  lemma FallsThrough(s: State, s': State, k: Key, v: ValueStruct)
    requires LevelsOk(s.levels) && DepthOk(s.levels) && StoreInv(s) && s.active in s.mems && v.casCounter > s.applied
    requires s' == Applied(s, k, v) && !v.Visible()
    ensures Find(s', k) != Some(v)
  {
    hide LevelsOk, DepthOk, HistoryOk, NewestOk, MemDepthOk, DeepVer, LevelsGet, MemAged;
    assert Live(s') == s.imm + [s.active] && (s.imm + [s.active])[..|s.imm|] == s.imm;
    VersionsApplied(s, k);
    FirstHitNewest(s.levels, 0, k);
    assert s.active !in s.imm by { ActiveNew(s); }
    MemFindSame(s.mems, s'.mems, s.imm, k);
    MemFindGet(s.mems, s.imm, k);
    if MemGet(s.mems, s.imm, k).Some? { var q := MemHolder(s.mems, s.imm, k); }
  }

  lemma ActiveNew(s: State)
    requires MemOk(s)
    ensures s.active !in s.imm
  {
    assert Live(s)[|s.imm|] == s.active;
    assert forall i :: 0 <= i < |s.imm| ==> Live(s)[i] == s.imm[i];
  }

  lemma {:induction false} MemFindSame(a: map<nat, map<Key, ValueStruct>>, b: map<nat, map<Key, ValueStruct>>,
                                       ids: seq<nat>, k: Key)
    requires forall q :: q in ids ==> (q in a <==> q in b) && (q in a ==> a[q] == b[q])
    ensures MemFind(a, ids, k) == MemFind(b, ids, k)
  {
    if ids != [] {
      assert ids[|ids| - 1] in ids;
      MemFindSame(a, b, ids[..|ids| - 1], k);
    }
  }
}
