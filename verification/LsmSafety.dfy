// Safety of parallel compactions, manifest and restart.
module LsmSafety {
  import opened Base
  import opened Tables
  import Compaction
  import opened Changes
  import opened Lsm
  import opened LsmInv
  import opened LsmJobs
  import opened LsmDepth
  import opened LsmManifest
  import LsmStatus
  import LsmBooks
  import opened LsmHistory
  import opened LsmTheorems
  import opened LsmResults

  // ----- ranges, footprints, evictions -----

  /** Ranges claimed in one level are pairwise disjoint, in every reachable state. */
  lemma ClaimsApart(ss: seq<State>, acts: seq<Action>, i: nat, l: nat)
    requires Run(ss, acts) && i < |ss| && l < |ss[i].status|
    ensures Compaction.Apart(ss[i].status[l].ranges)
  {
    hide BookInv, MemOk, MemDepthOk, HistoryOk, NewestOk;
    RunInv(ss, acts, i);
    assert StatusAt(ss[i].status[l], ss[i].jobs, l);
  }

  /** Two compactions of one level that are not yet installed have disjoint footprints below. */
  lemma FootprintsApart(ss: seq<State>, acts: seq<Action>, i: nat, v: nat, w: nat)
    requires Run(ss, acts) && i < |ss| && v != w && HasJob(ss[i], v) && HasJob(ss[i], w)
    requires Waiting(ss[i].jobs[v].value) && Waiting(ss[i].jobs[w].value)
    requires ss[i].jobs[v].value.level == ss[i].jobs[w].value.level
    ensures var a, b := ss[i].jobs[v].value, ss[i].jobs[w].value;
            a.top != [] && b.top != [] && (a.FootHi() < b.FootLo() || b.FootHi() < a.FootLo())
  {
    hide BookInv, MemOk, MemDepthOk, HistoryOk, NewestOk, JobOk;
    RunInv(ss, acts, i);
    var s := ss[i];
    JobKnown(s, v, s.jobs[v].value);
    JobKnown(s, w, s.jobs[w].value);
    Distinct2(s, v, s.jobs[v].value, w, s.jobs[w].value);
    BookLevels(s);
    FootApart(s.levels, s.jobs[v].value, s.jobs[w].value);
  }

  /** Each install evicts exactly the bottom input of its compaction and adds exactly its output. */
  lemma InstallEvictsBot(ss: seq<State>, acts: seq<Action>, i: nat, w: nat)
    requires Run(ss, acts) && i < |acts| && acts[i] == Install(w)
    ensures HasJob(ss[i], w) && ss[i].jobs[w].value.level + 1 < |ss[i].levels| && |ss[i + 1].levels| == |ss[i].levels|
    ensures var j := ss[i].jobs[w].value;
            && (forall t :: t in j.bot ==> t in ss[i].levels[j.level + 1])
            && forall t :: t in ss[i + 1].levels[j.level + 1] <==>
                 t in j.outs || (t in ss[i].levels[j.level + 1] && t !in j.bot)
  {
    hide Run, Inv, Step;
    RunLength(ss, acts);
    RunInv(ss, acts, i);
    RunStep(ss, acts, i);
    InstallHere(ss[i], w, ss[i + 1]);
  }

  lemma InstallHere(s: State, w: nat, s': State)
    requires Inv(s) && Step(s, Install(w), s')
    ensures HasJob(s, w) && s.jobs[w].value.level + 1 < |s.levels| && |s'.levels| == |s.levels|
    ensures var j := s.jobs[w].value;
            && (forall t :: t in j.bot ==> t in s.levels[j.level + 1])
            && forall t :: t in s'.levels[j.level + 1] <==>
                 t in j.outs || (t in s.levels[j.level + 1] && t !in j.bot)
  {
    hide BookInv, LevelsOk, JobOk, SortedDisjoint, Replaced, ExactTable, StatusOk, MemOk, MemDepthOk, HistoryOk,
         NewestOk, DepthOk, AgeOk;
    var j := s.jobs[w].value;
    JobKnown(s, w, j);
    BookLevels(s);
    JobShape(s.levels, j);
    ReplaceExchanges(s.levels, j);
    InstallSet(s.levels, j, s'.levels[j.level + 1]);
  }

  /** A bottom table that ends where the output starts holds a single key: Install is only ever held back
      by such a table, so never when every table spans at least two keys. */
  lemma EdgeIsSingleKey(outs: seq<Table>, top: seq<Table>, bot: seq<Table>, t: Table)
    requires IsOutput(outs, top, bot) && t in bot && ExactTable(t) && t.biggest == outs[0].smallest
    ensures t.smallest == t.biggest
  {
    hide LevelGet;
    Answers(bot, t, t.smallest);
    var u := Holder(outs, t.smallest);
    var i :| 0 <= i < |outs| && outs[i] == u;
    assert outs[0].smallest <= u.smallest;
  }

  /** LevelHandler::validate: tables are ordered, apart, and no range is inverted. */
  predicate Validates(level: nat, ts: seq<Table>) {
    level == 0 || forall j :: 1 <= j < |ts| ==> ts[j - 1].biggest < ts[j].smallest && ts[j].smallest <= ts[j].biggest
  }

  /** Below level 0 it succeeds on a list of tables exactly when they are sorted and disjoint; the range of the
      first table alone is not looked at. */
  lemma ValidatesIff(level: nat, ts: seq<Table>)
    requires level > 0
    ensures Validates(level, ts) && (ts != [] ==> ts[0].smallest <= ts[0].biggest) <==> SortedDisjoint(ts)
  {
    if Validates(level, ts) && (ts != [] ==> ts[0].smallest <= ts[0].biggest) {
      forall i, j | 0 <= i < j < |ts| ensures ts[i].biggest < ts[j].smallest { NeighboursSorted(level, ts, i, j); }
    }
  }

  lemma {:induction false} NeighboursSorted(level: nat, ts: seq<Table>, i: nat, j: nat)
    requires level > 0 && Validates(level, ts) && i < j < |ts|
    ensures ts[i].biggest < ts[j].smallest
    decreases j
  {
    assert ts[j - 1].biggest < ts[j].smallest;
    if i < j - 1 { NeighboursSorted(level, ts, i, j - 1); }
  }

  /** `validate` succeeds on every level of every reachable state. */
  lemma AlwaysValidates(ss: seq<State>, acts: seq<Action>, i: nat, l: nat)
    requires Run(ss, acts) && i < |ss| && l < |ss[i].levels|
    ensures Validates(l, ss[i].levels[l])
  {
    hide BookInv, MemOk, MemDepthOk, HistoryOk, NewestOk;
    RunInv(ss, acts, i);
    BookLevels(ss[i]);
  }

  /** In every reachable state `delete` finds each range a compaction registered and the size does not
      underflow. */
  lemma UnregisterNeverFails(ss: seq<State>, acts: seq<Action>, i: nat, w: nat)
    requires Run(ss, acts) && i < |ss| && HasJob(ss[i], w)
    ensures var s, j := ss[i], ss[i].jobs[w].value;
            && j.level + 1 < |s.status| && j.thisSize <= s.status[j.level].delSize
            && j.thisRange in s.status[j.level].ranges && j.nextRange in s.status[j.level + 1].ranges
            && s.status[j.level].delSize == Sizes(s.jobs, j.level)
  {
    hide BookInv, MemOk, MemDepthOk, HistoryOk, NewestOk;
    RunInv(ss, acts, i);
    JobKnown(ss[i], w, ss[i].jobs[w].value);
    LsmStatus.Listed(ss[i].status, ss[i].jobs, w);
    assert StatusAt(ss[i].status[ss[i].jobs[w].value.level], ss[i].jobs, ss[i].jobs[w].value.level);
  }

  /** The bytes of the tables that registered compactions take from level l. */
  ghost function TopBytes(jobs: seq<Option<Job>>, l: nat): nat {
    if jobs == [] then 0
    else
      var o := jobs[|jobs| - 1];
      TopBytes(jobs[..|jobs| - 1], l)
      + if o.Some? && o.value.level == l && o.value.top != [] then o.value.top[0].size else 0
  }

  lemma {:induction false} SizesAreTops(levels: seq<seq<Table>>, jobs: seq<Option<Job>>, l: nat)
    requires JobsOk(levels, jobs) && l > 0
    ensures Sizes(jobs, l) == TopBytes(jobs, l)
  {
    hide JobOk;
    if jobs != [] {
      var o := jobs[|jobs| - 1];
      if o.Some? { JobSize(levels, o.value); }
      SizesAreTops(levels, jobs[..|jobs| - 1], l);
    }
  }

  lemma JobSize(levels: seq<seq<Table>>, j: Job)
    requires JobOk(levels, j)
    ensures j.top != [] && j.thisSize == if j.level == 0 then 0 else j.top[0].size
  {
  }

  /** In every reachable state del_size of a level is the size of the tables being compacted out of it; level 0
      counts none. */
  lemma DelSizeIsTops(ss: seq<State>, acts: seq<Action>, i: nat, l: nat)
    requires Run(ss, acts) && i < |ss| && l < |ss[i].status|
    ensures ss[i].status[l].delSize == if l == 0 then 0 else TopBytes(ss[i].jobs, l)
  {
    hide BookInv, MemOk, MemDepthOk, HistoryOk, NewestOk, Run;
    RunInv(ss, acts, i);
    var s := ss[i];
    assert StatusAt(s.status[l], s.jobs, l);
    JobsKnown(s);
    if l == 0 { NoSizes(s.levels, s.jobs); } else { SizesAreTops(s.levels, s.jobs, l); }
  }

  lemma JobsKnown(s: State)
    requires BookInv(s)
    ensures JobsOk(s.levels, s.jobs)
  {
  }

  lemma {:induction false} NoSizes(levels: seq<seq<Table>>, jobs: seq<Option<Job>>)
    requires JobsOk(levels, jobs)
    ensures Sizes(jobs, 0) == 0
  {
    hide JobOk;
    if jobs != [] {
      var o := jobs[|jobs| - 1];
      if o.Some? { JobSize(levels, o.value); }
      NoSizes(levels, jobs[..|jobs| - 1]);
    }
  }

  /** In every reachable state the change set of a compaction ready to be logged applies without error. */
  lemma LogNeverFails(ss: seq<State>, acts: seq<Action>, i: nat, w: nat, outs: seq<Table>)
    requires Run(ss, acts) && i < |ss| && HasJob(ss[i], w) && ss[i].jobs[w].value.phase == Picked
    requires BuildOk(ss[i].jobs[w].value, outs)
    ensures ss[i].jobs[w].value.top != []
    ensures ApplyAll(ss[i].manifest, ChangeSet(ss[i].jobs[w].value, outs)).Some?
  {
    hide BookInv, MemOk, MemDepthOk, HistoryOk, NewestOk, BuildOk;
    RunInv(ss, acts, i);
    JobTops(ss[i], w, ss[i].jobs[w].value);
    LogApplies(ss[i], w, ss[i].jobs[w].value, outs);
  }

  /** The memtable advance_imm drops is the one whose table was added to level 0. */
  lemma DropsTheFlushed(ss: seq<State>, acts: seq<Action>, i: nat)
    requires Run(ss, acts) && i < |acts| && acts[i] == Advance
    ensures ss[i].flush.Added? && ss[i].imm == [ss[i].flush.m] + ss[i + 1].imm
  {
    hide BookInv, MemDepthOk, HistoryOk, NewestOk;
    RunInv(ss, acts, i);
    assert Step(ss[i], acts[i], ss[i + 1]);
    AdvanceDropsFlushed(ss[i]);
  }

  // ----- manifest and levels -----

  /** No compaction or flush is between its manifest record and its last level change. */
  ghost predicate Settled(s: State) {
    && !s.flush.Described?
    && forall w :: 0 <= w < |s.jobs| && s.jobs[w].Some? ==> s.jobs[w].value.phase in {Picked, Removed}
  }

  /** With no half-done step the manifest lists exactly the (id, level) pairs of the levels. */
  lemma ManifestIsLevels(s: State, l: nat, id: nat)
    requires BookInv(s) && Settled(s) && l < |s.levels|
    ensures (id in s.manifest && s.manifest[id] == l) <==> id in Ids(s.levels[l])
  {
    hide LevelsOk, JobsOk, CrossOk, PlaceOk, IdsOk;
    assert Agree(s.levels, s.jobs, s.flush, s.manifest, l, id);
  }

  /** LevelHandler::init_tables: the order given to the tables of a level on start-up. */
  function InitTables(l: nat, loaded: seq<Table>): seq<Table> {
    if l == 0 then SortById(loaded) else SortBySmallest(loaded)
  }

  /** The tables opened for level l, in whatever order the manifest map is walked. */
  ghost predicate LoadedFor(manifest: map<nat, nat>, files: map<nat, Table>, l: nat, loaded: seq<Table>) {
    && DistinctIds(loaded)
    && forall t :: t in loaded <==> t.id in manifest && manifest[t.id] == l && t.id in files && files[t.id] == t
  }

  /** The table files on disk include every table of the levels. */
  ghost predicate OnDisk(levels: seq<seq<Table>>, files: map<nat, Table>) {
    forall l, t :: 0 <= l < |levels| && t in levels[l] ==> t.id in files && files[t.id] == t
  }

  lemma LoadedIsLevel(s: State, files: map<nat, Table>, l: nat, loaded: seq<Table>)
    requires BookInv(s) && Settled(s) && l < |s.levels| && OnDisk(s.levels, files)
    requires LoadedFor(s.manifest, files, l, loaded)
    ensures forall t :: t in loaded <==> t in s.levels[l]
  {
    hide BookInv;
    forall t ensures t in loaded <==> t in s.levels[l] {
      ManifestIsLevels(s, l, t.id);
      if t in loaded {
        var u :| u in s.levels[l] && u.id == t.id;
        assert u == files[t.id];
      }
    }
  }

  /** Rebuilding a level from the manifest gives the same tables in the same order: by age in level 0,
      by key below. */
  lemma RebuildLevel(s: State, files: map<nat, Table>, l: nat, loaded: seq<Table>)
    requires BookInv(s) && Settled(s) && l < |s.levels| && OnDisk(s.levels, files)
    requires LoadedFor(s.manifest, files, l, loaded)
    ensures InitTables(l, loaded) == s.levels[l]
  {
    hide BookInv, SortById, SortBySmallest, SortedDisjoint, IdsAscend, LoadedFor;
    LoadedIsLevel(s, files, l, loaded);
    BookLevels(s);
    assert DistinctIds(loaded) by { LoadedDistinct(s.manifest, files, l, loaded); }
    if l == 0 {
      SortByIdSorts(loaded);
      AscendUnique(SortById(loaded), s.levels[0]);
    } else {
      LoadedApart(s.levels[l], loaded);
      SortSorts(loaded);
      SortedUnique(SortBySmallest(loaded), s.levels[l]);
    }
  }

  lemma LoadedDistinct(manifest: map<nat, nat>, files: map<nat, Table>, l: nat, loaded: seq<Table>)
    requires LoadedFor(manifest, files, l, loaded)
    ensures DistinctIds(loaded)
  {
  }

  lemma LoadedApart(ts: seq<Table>, loaded: seq<Table>)
    requires SortedDisjoint(ts) && DistinctIds(loaded) && forall t :: t in loaded <==> t in ts
    ensures PairwiseApart(loaded)
  {
    forall i | 0 <= i < |loaded| ensures loaded[i].smallest <= loaded[i].biggest {
      assert loaded[i] in ts;
    }
    forall i, j | 0 <= i < j < |loaded| ensures Tables.Apart(loaded[i], loaded[j]) {
      assert loaded[i] in ts && loaded[j] in ts;
      if Meets(loaded[i], loaded[j].smallest, loaded[j].biggest) { MeetSame(ts, loaded[i], loaded[j]); }
    }
  }

  // ----- a crash at any point -----

  /** Tables of the levels, and those written by a step that is half done. */
  ghost predicate Written(s: State, t: Table) {
    || (exists l :: 0 <= l < |s.levels| && t in s.levels[l])
    || (exists w :: WrittenBy(s, w, t))
    || (s.flush.Described? && t == s.flush.t)
  }

  ghost predicate WrittenBy(s: State, w: nat, t: Table) {
    HasJob(s, w) && s.jobs[w].value.phase == Logged && t in s.jobs[w].value.outs
  }

  ghost predicate FewerWritten(s: State, s': State) {
    forall t :: Written(s', t) ==> Written(s, t)
  }

  /** The files on disk include these tables. */
  ghost predicate AllOnDisk(s: State, files: map<nat, Table>) {
    forall t :: Written(s, t) ==> t.id in files && files[t.id] == t
  }

  /** Finishing a half-done compaction touches neither the manifest nor any newest version, and needs no
      table that is not written. */
  ghost predicate Finishes(s: State, s': State) {
    && s'.manifest == s.manifest && s'.flush == s.flush && s'.log == s.log
    && |s'.levels| == |s.levels| && |s'.jobs| == |s.jobs| && FewerWritten(s, s')
    && forall k :: DeepVer(s'.levels, 0, k) == DeepVer(s.levels, 0, k)
  }

  /** The jobs of the first n workers are not half done. */
  ghost predicate DoneUpTo(s: State, n: nat) {
    forall w :: 0 <= w < n && w < |s.jobs| && s.jobs[w].Some? ==> s.jobs[w].value.phase in {Picked, Removed}
  }

  /** Whatever replace_tables would make of it, there is a level with the output in the place of the bottom
      input. It is the one the manifest describes. */
  lemma ExchangeExists(levels: seq<seq<Table>>, j: Job) returns (r: seq<Table>)
    requires LevelsOk(levels) && JobOk(levels, j) && j.phase == Logged && j.outs != []
    ensures Exchanged(levels[j.level + 1], j.bot, j.outs, r)
  {
    hide LevelsOk, JobOk, SortedDisjoint, PairwiseApart, Meets, Without, SortBySmallest;
    NextLevel(levels, j);
    var ts := levels[j.level + 1];
    var kept := Without(ts, Ids(j.bot));
    EvictsBot(levels, j);
    WithoutSorted(ts, Ids(j.bot));
    ApartSorted(kept);
    BotGone(levels, j, kept);
    SortedUnion(kept, j.outs);
    r := SortBySmallest(kept + j.outs);
  }

  lemma BotGone(levels: seq<seq<Table>>, j: Job, kept: seq<Table>)
    requires LevelsOk(levels) && j.level + 1 < |levels| && forall t :: t in j.bot ==> t in levels[j.level + 1]
    requires kept == Without(levels[j.level + 1], Ids(j.bot))
    ensures forall t :: t in kept <==> t in levels[j.level + 1] && t !in j.bot
  {
    hide LevelsOk;
    forall t | t in levels[j.level + 1] && t.id in Ids(j.bot) ensures t in j.bot {
      var b :| b in j.bot && b.id == t.id;
      SameId(levels, j.level + 1, t, b);
    }
  }

  lemma ApartSorted(ts: seq<Table>)
    requires SortedDisjoint(ts)
    ensures PairwiseApart(ts)
  {
  }

  lemma InstallFinish(s: State, w: nat) returns (s': State)
    requires Inv(s) && HasJob(s, w) && s.jobs[w].value.phase == Logged
    ensures Inv(s') && Finishes(s, s')
    ensures s'.jobs == s.jobs[w := s'.jobs[w]] && HasJob(s', w) && s'.jobs[w].value.phase == Installed
  {
    hide Inv, BookInv, StatusOk, StoreInv, JobOk, DeepVer, LevelsOk, DepthOk, AgeOk, LsmTheorems.Grouped, Exchanged;
    var j := s.jobs[w].value;
    InvJob(s, w, j);
    var r := ExchangeExists(s.levels, j);
    s' := s.(levels := s.levels[j.level + 1 := r], jobs := s.jobs[w := Some(j.(phase := Installed))]);
    Regroup(s);
    ExchangeKeeps(s, w, j, s');
    Regroup(s');
    forall k ensures DeepVer(s'.levels, 0, k) == DeepVer(s.levels, 0, k) {
      InstallSinks(s.levels, j, s'.levels, k);
      SinkDeep(s.levels, j.level, j.top, s'.levels, 0, k);
    }
    ExchangeWritten(s, w, j, s');
  }

  lemma ExchangeWritten(s: State, w: nat, j: Job, s': State)
    requires JobIs(s, w, j) && j.phase == Logged && j.level + 1 < |s.levels| && s'.flush == s.flush
    requires |s'.levels| == |s.levels| && s'.levels == s.levels[j.level + 1 := s'.levels[j.level + 1]]
    requires Exchanged(s.levels[j.level + 1], j.bot, j.outs, s'.levels[j.level + 1])
    requires s'.jobs == s.jobs[w := Some(j.(phase := Installed))]
    ensures FewerWritten(s, s')
  {
    forall t | Written(s', t) ensures Written(s, t) {
      if v :| WrittenBy(s', v, t) {
        assert WrittenBy(s, v, t);
      } else if l :| 0 <= l < |s'.levels| && t in s'.levels[l] {
        if t !in s.levels[l] { assert WrittenBy(s, w, t); }
      }
    }
  }

  lemma InvJob(s: State, w: nat, j: Job)
    requires Inv(s) && JobIs(s, w, j)
    ensures LevelsOk(s.levels) && DepthOk(s.levels) && AgeOk(s.levels[0]) && JobOk(s.levels, j)
    ensures j.level + 1 < |s.levels| && (j.phase == Logged ==> j.outs != [])
  {
    hide MemOk, MemDepthOk, HistoryOk, NewestOk, AgreeOk, PlaceOk, IdsOk, StatusOk;
    JobKnown(s, w, j);
  }

  lemma RemoveFinish(s: State, w: nat) returns (s': State)
    requires Inv(s) && HasJob(s, w) && s.jobs[w].value.phase == Installed
    ensures Inv(s') && Finishes(s, s')
    ensures s'.jobs == s.jobs[w := s'.jobs[w]] && HasJob(s', w) && s'.jobs[w].value.phase == Removed
  {
    hide Inv, BookInv, StatusOk, StoreInv, JobOk, DeepVer, LevelsOk, DepthOk, AgeOk, LsmTheorems.Grouped, Without;
    var j := s.jobs[w].value;
    InvJob(s, w, j);
    s' := s.(levels := s.levels[j.level := Without(s.levels[j.level], Ids(j.top))],
             jobs := s.jobs[w := Some(j.(phase := Removed))]);
    assert RemoveStep(s, w, s');
    StepInv(s, Remove(w), s');
    forall k ensures DeepVer(s'.levels, 0, k) == DeepVer(s.levels, 0, k) {
      RemoveFades(s.levels, j, s'.levels, k);
      FadeDeep(s.levels, j.level, s'.levels, 0, k);
    }
    RemoveWritten(s, w, j, s');
  }

  lemma RemoveWritten(s: State, w: nat, j: Job, s': State)
    requires JobIs(s, w, j) && j.level < |s.levels| && s'.flush == s.flush
    requires s'.levels == s.levels[j.level := Without(s.levels[j.level], Ids(j.top))]
    requires s'.jobs == s.jobs[w := Some(j.(phase := Removed))]
    ensures FewerWritten(s, s')
  {
    forall t | Written(s', t) ensures Written(s, t) {
      if v :| WrittenBy(s', v, t) { assert WrittenBy(s, v, t); }
    }
  }

  /** All half-done compactions can be finished without touching manifest or newest versions. */
  lemma {:induction false} FinishAll(s: State, n: nat) returns (s': State)
    requires Inv(s) && n <= |s.jobs| && DoneUpTo(s, n)
    ensures Inv(s') && Finishes(s, s') && DoneUpTo(s', |s'.jobs|)
    decreases |s.jobs| - n
  {
    hide Inv, DeepVer, Step, Written;
    if n == |s.jobs| {
      s' := s;
    } else {
      var s1 := s;
      if HasJob(s, n) && s.jobs[n].value.phase == Logged { s1 := InstallFinish(s, n); }
      var s2 := s1;
      if HasJob(s1, n) && s1.jobs[n].value.phase == Installed { s2 := RemoveFinish(s1, n); }
      assert DoneUpTo(s2, n + 1);
      s' := FinishAll(s2, n + 1);
    }
  }

  /** A table whose create change is in the manifest is added to level 0. */
  lemma AddFinish(s: State) returns (s': State)
    requires Inv(s) && s.flush.Described?
    ensures Inv(s') && !s'.flush.Described? && s'.manifest == s.manifest && s'.log == s.log && s'.jobs == s.jobs
    ensures FewerWritten(s, s')
    ensures |s'.levels| == |s.levels| && s.flush.t in s'.levels[0]
    ensures forall k :: DeepVer(s'.levels, 0, k) ==
                          if k in s.flush.t.kvs then s.flush.t.kvs[k].casCounter else DeepVer(s.levels, 0, k)
  {
    hide Inv, BookInv, StatusOk, StoreInv, DeepVer, LevelsOk, DepthOk, AgeOk, GoodTable;
    Regroup(s);
    InvShape(s);
    StoreAdding(s);
    s' := s.(levels := s.levels[0 := s.levels[0] + [s.flush.t]], flush := Added(s.flush.m));
    assert Step(s, AddL0(|s.levels[0]| + 1), s');
    StepInv(s, AddL0(|s.levels[0]| + 1), s');
    forall k ensures DeepVer(s'.levels, 0, k) ==
                       if k in s.flush.t.kvs then s.flush.t.kvs[k].casCounter else DeepVer(s.levels, 0, k)
    {
      AddDeep(s.levels, s.flush.t, s'.levels, 0, k);
    }
    AddWritten(s, s');
  }

  lemma AddWritten(s: State, s': State)
    requires |s.levels| > 0 && s.flush.Described? && !s'.flush.Described? && s'.jobs == s.jobs
    requires s'.levels == s.levels[0 := s.levels[0] + [s.flush.t]]
    ensures FewerWritten(s, s')
  {
    forall t | Written(s', t) ensures Written(s, t) {
      if v :| WrittenBy(s', v, t) { assert WrittenBy(s, v, t); }
    }
  }

  /** What the levels answer for a key is in the log under its version, the newest one they hold. */
  lemma LevelLogged(s: State, k: Key)
    requires Inv(s)
    ensures var r := LevelsGet(s.levels, 0, k);
            && Ver(r) == DeepVer(s.levels, 0, k)
            && (r.Some? ==> r.value.casCounter > 0 && InLog(s.log, k, r.value))
  {
    hide BookInv, DeepVer, LevelsGet, NewestOk, MemOk, MemDepthOk, StatusOk, AgeOk;
    InvShape(s);
    FirstHitNewest(s.levels, 0, k);
    var r := LevelsGet(s.levels, 0, k);
    if r.Some? {
      var l, t :| 0 <= l < |s.levels| && t in s.levels[l] && k in t.kvs && r == Some(t.kvs[k]);
      LevelKnown(s, l, t, k);
      KnownLogged(s, k, t.kvs[k]);
    }
  }

  ghost predicate InLog(log: map<nat, (Key, ValueStruct)>, k: Key, v: ValueStruct) {
    v.casCounter in log && log[v.casCounter] == (k, v)
  }

  lemma KnownLogged(s: State, k: Key, v: ValueStruct)
    requires HistoryOk(s) && Known(s, k, v)
    ensures v.casCounter > 0 && InLog(s.log, k, v)
  {
  }

  lemma TableLogged(s: State, t: Table, k: Key)
    requires Inv(s) && t in s.levels[0] && k in t.kvs
    ensures t.kvs[k].casCounter > 0 && InLog(s.log, k, t.kvs[k])
  {
    hide BookInv, NewestOk, MemOk, MemDepthOk, StatusOk, AgeOk;
    LevelKnown(s, 0, t, k);
    KnownLogged(s, k, t.kvs[k]);
  }

  /** What the manifest makes of the levels: the table being flushed is on top once it is recorded. */
  ghost function Recorded(s: State, k: Key): Option<ValueStruct> {
    if s.flush.Described? && k in s.flush.t.kvs then Some(s.flush.t.kvs[k]) else LevelsGet(s.levels, 0, k)
  }

  /** The levels that a restart builds from the manifest, with the files on disk. */
  ghost predicate Rebuilds(s: State, levels: seq<seq<Table>>) {
    forall files, l, loaded ::
      0 <= l < |levels| && AllOnDisk(s, files) && LoadedFor(s.manifest, files, l, loaded) ==>
        InitTables(l, loaded) == levels[l]
  }

  /** The state in which everything half done that the manifest records is finished: its levels are those of
      a restart. */
  lemma CrashFinish(s: State) returns (f: State)
    requires Inv(s)
    ensures Inv(f) && Settled(f) && f.manifest == s.manifest && |f.levels| == |s.levels| && |f.jobs| == |s.jobs|
    ensures Rebuilds(s, f.levels)
    ensures forall k :: LevelsGet(f.levels, 0, k) == Recorded(s, k)
  {
    hide Inv, DeepVer, LevelsOk, DepthOk, InitTables, LevelsGet, LoadedFor;
    var s1 := s;
    if s.flush.Described? { s1 := AddFinish(s); }
    f := FinishAll(s1, 0);
    assert Settled(f);
    InvShape(f);
    forall files, l, loaded |
      0 <= l < |f.levels| && AllOnDisk(s, files) && LoadedFor(s.manifest, files, l, loaded)
      ensures InitTables(l, loaded) == f.levels[l]
    {
      assert OnDisk(f.levels, files) by {
        forall m, t | 0 <= m < |f.levels| && t in f.levels[m] ensures t.id in files && files[t.id] == t {
          assert Written(f, t);
        }
      }
      RebuildLevel(f, files, l, loaded);
    }
    forall k ensures LevelsGet(f.levels, 0, k) == Recorded(s, k) {
      LevelLogged(f, k);
      LevelLogged(s, k);
      if s.flush.Described? && k in s.flush.t.kvs { TableLogged(s1, s.flush.t, k); }
    }
  }

  /** A crash in any reachable state, also between a manifest record and the level changes it stands for,
      loses nothing from the levels: those rebuilt from the manifest are in shape and answer every key as
      the running ones did, with a flushed table that is already recorded on top. */
  lemma CrashRebuild(s: State) returns (rebuilt: seq<seq<Table>>)
    requires Inv(s)
    ensures |rebuilt| == |s.levels| && LevelsOk(rebuilt) && DepthOk(rebuilt)
    ensures Rebuilds(s, rebuilt)
    ensures forall k :: LevelsGet(rebuilt, 0, k) == Recorded(s, k)
  {
    hide Inv, LevelsGet, LevelsOk, DepthOk, Rebuilds;
    var f := CrashFinish(s);
    InvShape(f);
    rebuilt := f.levels;
  }

  // ----- the store after a restart -----

  /** The newest values that are in the levels. */
  ghost function Surviving(s: State): map<Key, ValueStruct> {
    map k | k in s.latest && LevelsGet(s.levels, 0, k).Some? :: LevelsGet(s.levels, 0, k).value
  }

  /** The entries of the history up to those values. */
  ghost function SurvivingLog(s: State): map<nat, (Key, ValueStruct)> {
    var latest := Surviving(s);
    map c | c in s.log && s.log[c].0 in latest && c <= latest[s.log[c].0].casCounter :: s.log[c]
  }

  /** A store opened on the levels and the manifest of f, with empty memtables and idle workers; file ids and
      CAS counters go on above those in use. */
  ghost predicate Restarted(f: State, s: State) {
    && s.mems == map[0 := map[]] && s.active == 0 && s.imm == [] && s.queue == [] && s.flush == Idle
    && s.levels == f.levels && s.manifest == f.manifest && (forall id :: id in s.manifest ==> id < s.nextId)
    && |s.status| == |s.levels| && (forall l :: 0 <= l < |s.status| ==> s.status[l] == Compaction.LevelStatus([], 0))
    && (forall w :: 0 <= w < |s.jobs| ==> s.jobs[w] == None)
    && s.latest == Surviving(f) && s.applied <= s.counter
    && (forall k :: k in s.latest ==> s.latest[k].casCounter <= s.applied)
    && s.log == SurvivingLog(f)
  }

  lemma RestartBooks(f: State, s: State)
    requires Inv(f) && Settled(f) && Restarted(f, s)
    ensures BookInv(s)
  {
    hide MemOk, MemDepthOk, HistoryOk, NewestOk, StatusOk, LevelsOk, Inv, BookInv;
    InvShape(f);
    RestartAgree(f, s);
    RestartPlace(f, s);
    RestartIds(f, s);
    hide AgreeOk, PlaceOk, IdsOk;
    assert BookInv(s) by { BooksOf(s); }
  }

  lemma BooksOf(s: State)
    requires LevelsOk(s.levels) && forall w :: 0 <= w < |s.jobs| ==> s.jobs[w] == None
    requires AgreeOk(s.levels, s.jobs, s.flush, s.manifest) && PlaceOk(s.levels, s.jobs)
    requires IdsOk(s.levels, s.jobs, s.flush, s.manifest, s.nextId)
    ensures BookInv(s)
  {
    hide LevelsOk, AgreeOk, PlaceOk, IdsOk;
  }

  lemma RestartAgree(f: State, s: State)
    requires BookInv(f) && Settled(f) && Restarted(f, s)
    ensures AgreeOk(s.levels, s.jobs, s.flush, s.manifest)
  {
    hide BookInv;
    LsmBooks.LevelBound(f);
    forall l, id | 0 <= l < |s.levels| ensures Agree(s.levels, s.jobs, s.flush, s.manifest, l, id) {
      ManifestIsLevels(f, l, id);
      assert forall w :: !JobDies(s.jobs, w, l, id) && !JobPends(s.jobs, w, l, id);
    }
  }

  lemma RestartPlace(f: State, s: State)
    requires BookInv(f) && Settled(f) && Restarted(f, s)
    ensures PlaceOk(s.levels, s.jobs)
  {
    hide BookInv;
    forall a, b, t, u | 0 <= a < b < |s.levels| && t in s.levels[a] && u in s.levels[b] && t.id == u.id
      ensures false
    {
      var w, j := Mover(f, a, b, t, u);
    }
  }

  lemma RestartIds(f: State, s: State)
    requires BookInv(f) && Settled(f) && Restarted(f, s)
    ensures IdsOk(s.levels, s.jobs, s.flush, s.manifest, s.nextId)
  {
    hide BookInv;
    forall l, t | 0 <= l < |s.levels| && t in s.levels[l] ensures t.id < s.nextId {
      ManifestIsLevels(f, l, t.id);
      assert t.id in Ids(f.levels[l]);
    }
  }

  lemma RestartStore(f: State, s: State)
    requires Inv(f) && Restarted(f, s)
    ensures StoreInv(s)
  {
    hide Inv, DeepVer, LevelsGet, BookInv;
    InvShape(f);
    assert Live(s) == [0];
    forall k ensures MemGet(s.mems, Live(s), k) == None { assert Live(s)[..0] == []; }
    forall k ensures Ver(Latest(s, k)) == DeepVer(s.levels, 0, k) {
      LevelLogged(f, k);
      LoggedLatest(f, k);
    }
    RestartHistory(f, s);
  }

  /** A key that the levels answer was written. */
  lemma LoggedLatest(s: State, k: Key)
    requires Inv(s)
    ensures LevelsGet(s.levels, 0, k).Some? ==> k in s.latest
  {
    hide BookInv, DeepVer, LevelsGet, NewestOk, MemOk, MemDepthOk, StatusOk, AgeOk;
    LevelLogged(s, k);
    var r := LevelsGet(s.levels, 0, k);
    if r.Some? { assert Known(s, s.log[r.value.casCounter].0, s.log[r.value.casCounter].1); }
  }

  lemma RestartHistory(f: State, s: State)
    requires Inv(f) && Restarted(f, s) && forall k :: Ver(Latest(s, k)) == DeepVer(s.levels, 0, k)
    ensures HistoryOk(s)
  {
    hide Inv, DeepVer, LevelsGet, Surviving, Known;
    forall c | c in s.log
      ensures 0 < c <= s.applied && s.log[c].1.casCounter == c && s.log[c].1.Visible()
      ensures Known(s, s.log[c].0, s.log[c].1)
    {
      LogEntry(f, c);
      KnownAgain(f, s, s.log[c].0, s.log[c].1);
    }
    forall k | k in s.latest ensures Known(s, k, s.latest[k]) { LatestKnown(f, s, k); }
    forall l, t, k | 0 <= l < |s.levels| && t in s.levels[l] && k in t.kvs ensures Known(s, k, t.kvs[k]) {
      CellLogged(f, l, t, k);
      assert Ver(Latest(s, k)) == DeepVer(s.levels, 0, k);
      KnownAgain(f, s, k, t.kvs[k]);
    }
  }

  lemma LatestKnown(f: State, s: State, k: Key)
    requires Inv(f) && Restarted(f, s) && k in s.latest
    ensures Known(s, k, s.latest[k])
  {
    hide Inv, DeepVer, LevelsGet;
    LevelLogged(f, k);
  }

  /** An entry of the old log that is not newer than the surviving value of its key is in the new one. */
  lemma KnownAgain(f: State, s: State, k: Key, v: ValueStruct)
    requires Restarted(f, s) && InLog(f.log, k, v) && k in s.latest && v.casCounter <= s.latest[k].casCounter
    ensures Known(s, k, v)
  {
    hide Surviving;
  }

  lemma LogEntry(s: State, c: nat)
    requires Inv(s) && c in s.log
    ensures 0 < c && s.log[c].1.casCounter == c && s.log[c].1.Visible()
  {
    hide BookInv, NewestOk, MemOk, MemDepthOk, StatusOk, AgeOk;
  }

  /** What a table holds is in the log, and not newer than what the levels answer. */
  lemma CellLogged(s: State, l: nat, t: Table, k: Key)
    requires Inv(s) && l < |s.levels| && t in s.levels[l] && k in t.kvs
    ensures InLog(s.log, k, t.kvs[k]) && 0 < t.kvs[k].casCounter <= DeepVer(s.levels, 0, k)
  {
    hide BookInv, DeepVer, NewestOk, MemOk, MemDepthOk, StatusOk;
    LevelKnown(s, l, t, k);
    KnownLogged(s, k, t.kvs[k]);
    InvShape(s);
    CellDeep(s.levels, l, t, k);
  }

  lemma CellDeep(levels: seq<seq<Table>>, l: nat, t: Table, k: Key)
    requires LevelsOk(levels) && AgeOk(levels[0]) && l < |levels| && t in levels[l] && k in t.kvs
    ensures t.kvs[k].casCounter <= DeepVer(levels, 0, k)
  {
    if l == 0 {
      AgeMax(levels[0], t, k);
    } else {
      DisjointGet(levels[l], t, k);
    }
    DeepVerBound(levels, 0, l, k);
  }

  /** The invariant survives a crash in any reachable state: the store opened on what the manifest records
      satisfies it again, and answers every key with what the levels had, or with the flushed table that was
      already recorded. The CAS counter must not be below a version in those tables. */
  lemma CrashRestart(s: State, nextId: nat, counter: nat) returns (s': State)
    requires Inv(s) && forall id :: id in s.manifest ==> id < nextId
    requires forall k :: Ver(Recorded(s, k)) <= counter
    ensures Inv(s') && Rebuilds(s, s'.levels)
    ensures s'.manifest == s.manifest && s'.nextId == nextId && s'.counter == counter && s'.flush == Idle
    ensures s'.mems == map[0 := map[]] && |s'.jobs| == |s.jobs| && forall w :: 0 <= w < |s'.jobs| ==> s'.jobs[w] == None
    ensures forall k :: Get(s', k) == Shown(Recorded(s, k))
  {
    hide Inv, LevelsGet, Rebuilds, BookInv, StoreInv, DepthOk, AgeOk, StatusOk, Find, Recorded;
    var f := CrashFinish(s);
    s' := State(map[0 := map[]], 0, [], [], Idle, f.levels, seq(|f.jobs|, _ => None),
                seq(|f.levels|, _ => Compaction.LevelStatus([], 0)), f.manifest, nextId, counter, counter,
                Surviving(f), SurvivingLog(f));
    assert Restarted(f, s') by {
      forall k | k in s'.latest ensures s'.latest[k].casCounter <= s'.applied {
        assert Ver(Recorded(s, k)) <= counter;
      }
    }
    RestartInv(f, s');
    forall k ensures Get(s', k) == Shown(Recorded(s, k)) {
      FindIsLatest(s', k);
      LoggedLatest(f, k);
    }
  }

  lemma RestartInv(f: State, s: State)
    requires Inv(f) && Settled(f) && Restarted(f, s)
    ensures Inv(s)
  {
    hide Inv, BookInv, StoreInv, DepthOk, AgeOk, StatusOk, Settled, StatusAt, Surviving;
    RestartBooks(f, s);
    RestartStore(f, s);
    Regroup(f);
    forall l | 0 <= l < |s.status| ensures StatusAt(s.status[l], s.jobs, l) { IdleStatus(s, l); }
    assert StatusOk(s.status, s.jobs) by { AllStatus(s); }
    Regroup(s);
  }

  lemma AllStatus(s: State)
    requires forall l :: 0 <= l < |s.status| ==> StatusAt(s.status[l], s.jobs, l)
    ensures StatusOk(s.status, s.jobs)
  {
    hide StatusAt;
  }

  lemma IdleStatus(s: State, l: nat)
    requires l < |s.status| && s.status[l] == Compaction.LevelStatus([], 0)
    requires forall w :: 0 <= w < |s.jobs| ==> s.jobs[w] == None
    ensures StatusAt(s.status[l], s.jobs, l)
  {
    NoClaims(s.jobs, l);
  }


  lemma InvShape(s: State)
    requires Inv(s)
    ensures BookInv(s) && LevelsOk(s.levels) && DepthOk(s.levels)
  {
    hide MemOk, MemDepthOk, HistoryOk, NewestOk, AgreeOk, PlaceOk, IdsOk, StatusOk;
  }
}
