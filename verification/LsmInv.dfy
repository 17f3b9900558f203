// The invariant of the store.
module LsmInv {
  import opened Base
  import opened Tables
  import opened Compaction
  import opened Lsm

  // ----- levels -----

  /** Level 0 by age with growing ids; every other level sorted, disjoint, with exact ranges. */
  ghost predicate LevelsOk(levels: seq<seq<Table>>) {
    && |levels| >= 2
    && (forall t :: t in levels[0] ==> GoodTable(t))
    && IdsAscend(levels[0])
    && forall l :: 0 < l < |levels| ==> LevelOk(levels[l])
  }

  ghost predicate LevelOk(ts: seq<Table>) {
    SortedDisjoint(ts) && DistinctIds(ts) && forall t :: t in ts ==> ExactTable(t)
  }

  /** A level that holds a key holds its newest version among all deeper levels. */
  ghost predicate DepthOk(levels: seq<seq<Table>>) {
    forall l, k :: 0 <= l < |levels| ==> DepthAt(levels, l, k)
  }

  ghost predicate DepthAt(levels: seq<seq<Table>>, l: nat, k: Key)
    requires l < |levels|
  {
    LevelVer(levels[l], k) > 0 ==> LevelVer(levels[l], k) >= DeepVer(levels, l + 1, k)
  }

  /** In level 0 the later of two tables that hold a key has the newer version. */
  ghost predicate AgeOk(ts: seq<Table>) {
    forall i, j, k :: 0 <= i < j < |ts| && k in ts[i].kvs && k in ts[j].kvs ==>
      ts[i].kvs[k].casCounter <= ts[j].kvs[k].casCounter
  }

  // ----- jobs -----

  ghost predicate RangesOk(j: Job) {
    && j.top != []
    && (j.level > 0 ==> |j.top| == 1 && j.thisRange == RangeOf(j.top) && j.thisSize == j.top[0].size)
    && (j.level == 0 ==> j.thisRange == INFO_RANGE && j.thisSize == 0)
    && SortedDisjoint(j.bot)
    && (forall t :: t in j.bot ==> Meets(t, Lo(j.top), Hi(j.top)))
    && (forall t :: t in j.top ==> GoodTable(t))
    && j.nextRange == (if j.bot == [] then RangeOf(j.top) else RangeOf(j.bot))
  }

  /** The input from this level is still there; in level 0 it is the oldest part. */
  ghost predicate TopIn(levels: seq<seq<Table>>, j: Job) {
    && j.level < |levels|
    && (j.level == 0 ==> |j.top| <= |levels[0]| && levels[0][..|j.top|] == j.top)
    && (j.level > 0 ==> j.top != [] && j.top[0] in levels[j.level])
  }

  /** The tables of the next level that meet the footprint are exactly the bottom input. */
  ghost predicate BotIn(levels: seq<seq<Table>>, j: Job) {
    && j.level + 1 < |levels| && j.top != []
    && (forall t :: t in j.bot ==> t in levels[j.level + 1])
    && forall t :: t in levels[j.level + 1] && Meets(t, j.FootLo(), j.FootHi()) ==> t in j.bot
  }

  /** What the input from this level holds is not older than anything deeper. */
  ghost predicate TopFresh(levels: seq<seq<Table>>, j: Job) {
    forall k :: LevelVer(j.top, k) > 0 ==> LevelVer(j.top, k) >= DeepVer(levels, j.level + 1, k)
  }

  /** What the input from this level holds is also held, at least as new, deeper down. */
  ghost predicate Covered(levels: seq<seq<Table>>, j: Job) {
    forall k :: LevelVer(j.top, k) <= DeepVer(levels, j.level + 1, k)
  }

  ghost predicate OutsOk(j: Job) {
    && DistinctIds(j.outs)
    && if j.IsMove() then j.outs == j.top else IsOutput(j.outs, j.top, j.bot)
  }

  predicate Waiting(j: Job) { j.phase == Picked || j.phase == Logged }

  ghost predicate JobOk(levels: seq<seq<Table>>, j: Job) {
    && j.level + 1 < |levels|
    && RangesOk(j) && (j.phase == Picked ==> j.outs == [])
    && (j.phase != Removed ==> TopIn(levels, j))
    && (Waiting(j) ==> BotIn(levels, j))
    && (Waiting(j) && j.level == 0 ==> TopFresh(levels, j))
    && (j.phase == Logged ==> OutsOk(j))
    && (j.phase == Installed ==> Covered(levels, j))
  }

  ghost predicate JobsOk(levels: seq<seq<Table>>, jobs: seq<Option<Job>>) {
    forall w :: 0 <= w < |jobs| && jobs[w].Some? ==> JobOk(levels, jobs[w].value)
  }

  /** Two registered compactions never claim overlapping ranges of one level. */
  ghost predicate Compatible(a: Job, b: Job) {
    && (a.level == b.level ==> !Overlaps(a.thisRange, b.thisRange) && !Overlaps(a.nextRange, b.nextRange))
    && (b.level == a.level + 1 ==> !Overlaps(a.nextRange, b.thisRange))
  }

  ghost predicate CrossOk(jobs: seq<Option<Job>>) {
    forall v, w :: 0 <= v < |jobs| && 0 <= w < |jobs| && v != w && jobs[v].Some? && jobs[w].Some? ==>
      Compatible(jobs[v].value, jobs[w].value)
  }

  // ----- compaction status -----

  /** The ranges the registered compactions claim in level l. */
  ghost function Claims(jobs: seq<Option<Job>>, l: nat): multiset<KeyRange> {
    if jobs == [] then multiset{}
    else Claims(jobs[..|jobs| - 1], l) + ClaimsOf(jobs[|jobs| - 1], l)
  }

  ghost function ClaimsOf(o: Option<Job>, l: nat): multiset<KeyRange> {
    if o.None? then multiset{}
    else if o.value.level == l then multiset{o.value.thisRange}
    else if o.value.level + 1 == l then multiset{o.value.nextRange}
    else multiset{}
  }

  ghost function Sizes(jobs: seq<Option<Job>>, l: nat): nat {
    if jobs == [] then 0
    else Sizes(jobs[..|jobs| - 1], l) + SizeOf(jobs[|jobs| - 1], l)
  }

  ghost function SizeOf(o: Option<Job>, l: nat): nat {
    if o.Some? && o.value.level == l then o.value.thisSize else 0
  }

  ghost predicate StatusOk(status: seq<LevelStatus>, jobs: seq<Option<Job>>) {
    forall l :: 0 <= l < |status| ==> StatusAt(status[l], jobs, l)
  }

  ghost predicate StatusAt(st: LevelStatus, jobs: seq<Option<Job>>, l: nat) {
    && multiset(st.ranges) == Claims(jobs, l)
    && st.delSize == Sizes(jobs, l)
    && Compaction.Apart(st.ranges)
  }

  // ----- manifest -----

  /** A table still in level l whose deletion is already in the manifest. */
  ghost predicate JobDies(jobs: seq<Option<Job>>, w: nat, l: nat, id: nat) {
    && w < |jobs| && jobs[w].Some?
    && var j := jobs[w].value;
    || (j.phase in {Logged, Installed} && j.level == l && id in Ids(j.top))
    || (j.phase == Logged && j.level + 1 == l && id in Ids(j.bot))
  }

  ghost predicate Dying(jobs: seq<Option<Job>>, l: nat, id: nat) {
    exists w :: JobDies(jobs, w, l, id)
  }

  /** A table already in the manifest at level l but not yet in that level. */
  ghost predicate JobPends(jobs: seq<Option<Job>>, w: nat, l: nat, id: nat) {
    && w < |jobs| && jobs[w].Some?
    && jobs[w].value.phase == Logged && jobs[w].value.level + 1 == l && id in Ids(jobs[w].value.outs)
  }

  ghost predicate Pending(jobs: seq<Option<Job>>, flush: Flush, l: nat, id: nat) {
    (exists w :: JobPends(jobs, w, l, id)) || FlushPends(flush, l, id)
  }

  ghost predicate FlushPends(flush: Flush, l: nat, id: nat) {
    flush.Described? && l == 0 && flush.t.id == id
  }

  /** Up to half-done steps the manifest lists exactly the tables of the levels. */
  ghost predicate AgreeOk(levels: seq<seq<Table>>, jobs: seq<Option<Job>>, flush: Flush, manifest: map<nat, nat>) {
    && (forall id :: id in manifest ==> manifest[id] < |levels|)
    && forall l, id :: 0 <= l < |levels| ==> Agree(levels, jobs, flush, manifest, l, id)
  }

  ghost predicate Agree(levels: seq<seq<Table>>, jobs: seq<Option<Job>>, flush: Flush, manifest: map<nat, nat>, l: nat,
                        id: nat)
    requires l < |levels|
  {
    (id in manifest && manifest[id] == l) <==>
    ((id in Ids(levels[l]) && !Dying(jobs, l, id)) || Pending(jobs, flush, l, id))
  }

  /** An id is in two levels only while the move of its table is half done. */
  ghost predicate PlaceOk(levels: seq<seq<Table>>, jobs: seq<Option<Job>>) {
    forall a, b, t, u :: 0 <= a < b < |levels| && t in levels[a] && u in levels[b] && t.id == u.id ==>
      b == a + 1 && t == u && exists w :: Moving(jobs, w, a, t)
  }

  ghost predicate Moving(jobs: seq<Option<Job>>, w: nat, a: nat, t: Table) {
    && w < |jobs| && jobs[w].Some?
    && var j := jobs[w].value;
    && j.phase == Installed && j.level == a && j.IsMove() && j.top == [t]
  }

  /** Ids are handed out once: each belongs to the flusher, or to one job, or to a table of the levels. */
  ghost predicate IdsOk(levels: seq<seq<Table>>, jobs: seq<Option<Job>>, flush: Flush, manifest: map<nat, nat>,
                        nextId: nat) {
    && (forall l, t :: 0 <= l < |levels| && t in levels[l] ==> t.id < nextId)
    && (forall id :: id in manifest ==> id < nextId)
    && (forall w: nat, id: nat :: JobOuts(jobs, w, id) ==> id < nextId)
    && (forall id: nat :: FlushHolds(flush, id) ==> id < nextId && NewId(levels, id))
    && (forall id: nat, t :: FlushHolds(flush, id) && |levels| > 0 && t in levels[0] ==> t.id < id)
    && (forall w: nat, id: nat :: JobHolds(jobs, w, id) ==> id < nextId && NewId(levels, id) && !FlushHolds(flush, id))
    && (forall v: nat, w: nat, id: nat :: v != w && JobHolds(jobs, v, id) ==> !JobHolds(jobs, w, id))
    && (forall id: nat :: Unused(jobs, flush, id) ==> id !in manifest && forall w: nat :: !JobOuts(jobs, w, id))
  }

  /** The flusher has reserved the id for a table that is not in level 0 yet. */
  ghost predicate FlushHolds(flush: Flush, id: nat) {
    (flush.Named? && flush.id == id) || (flush.Described? && flush.t.id == id)
  }

  /** The job has reserved the id for an output table that is not in its level yet. */
  ghost predicate JobHolds(jobs: seq<Option<Job>>, w: nat, id: nat) {
    && w < |jobs| && jobs[w].Some?
    && var j := jobs[w].value;
    || (j.phase == Picked && id in j.ids)
    || (j.phase == Logged && !j.IsMove() && id in Ids(j.outs))
  }

  /** The id is reserved, and no record of the manifest mentions it. */
  ghost predicate Unused(jobs: seq<Option<Job>>, flush: Flush, id: nat) {
    || (flush.Named? && flush.id == id)
    || exists w :: JobBuilds(jobs, w, id)
  }

  ghost predicate JobBuilds(jobs: seq<Option<Job>>, w: nat, id: nat) {
    w < |jobs| && jobs[w].Some? && jobs[w].value.phase == Picked && id in jobs[w].value.ids
  }

  /** The id of an output table of the job, whatever became of it. */
  ghost predicate JobOuts(jobs: seq<Option<Job>>, w: nat, id: nat) {
    w < |jobs| && jobs[w].Some? && id in Ids(jobs[w].value.outs)
  }

  ghost predicate NewId(levels: seq<seq<Table>>, id: nat) {
    forall l :: 0 <= l < |levels| ==> id !in Ids(levels[l])
  }

  // ----- memtables -----

  /** What the memtables hold for a key, newest first; the same as MemFind when all values are visible. */
  ghost function MemGet(mems: map<nat, map<Key, ValueStruct>>, ids: seq<nat>, k: Key): Option<ValueStruct> {
    if ids == [] then None
    else
      var q := ids[|ids| - 1];
      if q in mems && k in mems[q] then Some(mems[q][k]) else MemGet(mems, ids[..|ids| - 1], k)
  }

  ghost function Ver(r: Option<ValueStruct>): nat { if r.Some? then r.value.casCounter else 0 }

  ghost predicate Increasing(ids: seq<nat>) { forall i, j :: 0 <= i < j < |ids| ==> ids[i] < ids[j] }

  ghost predicate MemOk(s: State) { MemShape(s) && MemAged(s.mems) }

  ghost predicate MemShape(s: State) {
    && s.active in s.mems && (forall q :: q in s.mems ==> q <= s.active)
    && Increasing(Live(s)) && (forall q :: q in s.imm ==> q in s.mems && s.mems[q] != map[])
    && s.imm == (if s.flush.Idle? then [] else [s.flush.m]) + s.queue
    && (forall q, k :: q in s.mems && k in s.mems[q] ==> s.mems[q][k].Visible() && s.mems[q][k].casCounter > 0)
  }

  /** Of two memtables that hold a key the later has the newer version. */
  ghost predicate MemAged(mems: map<nat, map<Key, ValueStruct>>) {
    forall p, q, k :: p < q && p in mems && q in mems && k in mems[p] && k in mems[q] ==>
      mems[p][k].casCounter <= mems[q][k].casCounter
  }

  /** Live memtables are not older than the levels. */
  ghost predicate MemDepthOk(s: State) {
    && (forall q, k :: q in Live(s) && q in s.mems && k in s.mems[q] ==>
          s.mems[q][k].casCounter >= DeepVer(s.levels, 0, k))
    && (s.flush.Described? ==> s.flush.m in s.mems && s.flush.t.kvs == s.mems[s.flush.m] && GoodTable(s.flush.t))
    && (s.flush.Added? ==> s.flush.m in s.mems)
    && forall k :: s.flush.Added? && k in s.mems[s.flush.m] ==>
         DeepVer(s.levels, 0, k) >= s.mems[s.flush.m][k].casCounter
  }

  // ----- history -----

  ghost predicate Known(s: State, k: Key, v: ValueStruct) {
    && v.casCounter in s.log && s.log[v.casCounter] == (k, v)
    && k in s.latest && v.casCounter <= s.latest[k].casCounter
  }

  ghost predicate HistoryOk(s: State) {
    && s.applied <= s.counter
    && (forall c :: c in s.log ==> 0 < c <= s.applied && s.log[c].1.casCounter == c && s.log[c].1.Visible())
    && (forall c :: c in s.log ==> Known(s, s.log[c].0, s.log[c].1))
    && (forall q, k :: q in s.mems && k in s.mems[q] ==> Known(s, k, s.mems[q][k]))
    && (forall l, t, k :: 0 <= l < |s.levels| && t in s.levels[l] && k in t.kvs ==> Known(s, k, t.kvs[k]))
    && (forall k :: k in s.latest ==> Known(s, k, s.latest[k]))
  }

  /** The newest version anywhere in the store is the last write. */
  ghost predicate NewestOk(s: State) {
    forall k :: Max(Ver(MemGet(s.mems, Live(s), k)), DeepVer(s.levels, 0, k)) == Ver(Latest(s, k))
  }

  /** The part of the invariant that ties levels, jobs and manifest together. */
  ghost predicate BookInv(s: State) {
    && LevelsOk(s.levels) && JobsOk(s.levels, s.jobs) && CrossOk(s.jobs)
    && AgreeOk(s.levels, s.jobs, s.flush, s.manifest) && PlaceOk(s.levels, s.jobs)
    && IdsOk(s.levels, s.jobs, s.flush, s.manifest, s.nextId)
  }

  ghost predicate Inv(s: State) {
    && |s.levels| >= 2 && |s.status| == |s.levels|
    && BookInv(s)
    && DepthOk(s.levels) && AgeOk(s.levels[0])
    && StatusOk(s.status, s.jobs)
    && MemOk(s) && MemDepthOk(s) && HistoryOk(s) && NewestOk(s)
  }
}
