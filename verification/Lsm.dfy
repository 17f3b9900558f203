// The store as a state machine. Memtables, levels, registered compactions and the manifest change in
// the same half-steps as in kv.rs, st_manager.rs, levels.rs and manifest.rs; any number of workers
// compact in parallel and every half-step may interleave with every other.
module Lsm {
  import opened Base
  import opened Tables
  import opened Compaction
  import opened Changes

  // ----- compactions in flight -----

  datatype Phase =
    | Picked     // registered in the compaction status
    | Logged     // change set written to the manifest
    | Installed  // output added to the next level
    | Removed    // input deleted from this level

  datatype Job = Job(level: nat, top: seq<Table>, bot: seq<Table>, thisRange: KeyRange, nextRange: KeyRange,
                     thisSize: nat, ids: set<nat>, outs: seq<Table>, phase: Phase)
  {
    /** run_compact_def moves the table when nothing of the next level overlaps it. */
    predicate IsMove() { level >= 1 && bot == [] }

    /** The range the compaction may write to in the next level. */
    function FootLo(): Key requires top != [] { if bot == [] then Lo(top) else Min(Lo(top), Lo(bot)) }
    function FootHi(): Key requires top != [] { if bot == [] then Hi(top) else Max(Hi(top), Hi(bot)) }
  }

  // ----- the flusher -----

  datatype Flush =
    | Idle
    | Taken(m: nat)               // received from the flush channel
    | Named(m: nat, id: nat)      // file id reserved
    | Described(m: nat, t: Table) // table written and its create change logged
    | Added(m: nat)               // table pushed onto level 0

  datatype State = State(
    mems: map<nat, map<Key, ValueStruct>>, // every memtable by its sequence number
    active: nat,                           // the one being written
    imm: seq<nat>,                         // immutable memtables, oldest first
    queue: seq<nat>,                       // the flush channel
    flush: Flush,
    levels: seq<seq<Table>>,
    jobs: seq<Option<Job>>,                // one slot for each compaction worker
    status: seq<LevelStatus>,
    manifest: map<nat, nat>,
    nextId: nat,
    counter: nat,                          // last_used_cas_counter
    applied: nat,                          // counter of the last entry applied
    latest: map<Key, ValueStruct>,         // history: the plain last-write map
    log: map<nat, (Key, ValueStruct)>      // history: every applied entry by its counter
  )

  // ----- lookups (KVCore::_get) -----

  /** The live memtables, oldest first. */
  function Live(s: State): seq<nat> { s.imm + [s.active] }

  /** The memtable part of `_get`: newest first, falling through live values with no bytes. */
  function MemFind(mems: map<nat, map<Key, ValueStruct>>, ids: seq<nat>, k: Key): (r: Option<ValueStruct>) {
    if ids == [] then None
    else
      var q := ids[|ids| - 1];
      if q in mems && k in mems[q] && mems[q][k].Visible() then Some(mems[q][k])
      else MemFind(mems, ids[..|ids| - 1], k)
  }

  /** What `_get` finds, tombstones included. */
  function Find(s: State, k: Key): (r: Option<ValueStruct>) {
    var m := MemFind(s.mems, Live(s), k);
    if m.Some? then m else LevelsGet(s.levels, 0, k)
  }

  /** `_get`: a tombstone is reported as not found. */
  function Get(s: State, k: Key): (r: Option<ValueStruct>) {
    Shown(Find(s, k))
  }

  function Shown(r: Option<ValueStruct>): Option<ValueStruct> {
    if r.Some? && r.value.Deleted() then None else r
  }

  function Latest(s: State, k: Key): Option<ValueStruct> {
    if k in s.latest then Some(s.latest[k]) else None
  }

  // ----- writing an entry (write_to_lsm) -----

  datatype WriteEntry = WriteEntry(key: Key, meta: byte, userMeta: byte, value: seq<byte>, casCheck: nat)

  datatype Response = Done | NotFound | CasMismatch | KeyExists

  const BIT_SET_IF_ABSENT: byte := 8

  /** `_exists` on the result of `_get`. */
  predicate Exists(cur: Option<ValueStruct>) {
    match cur
    case None => false
    case Some(v) => if v.value == [] && v.meta == 0 then false else !v.Deleted()
  }

  function Decide(cur: Option<ValueStruct>, e: WriteEntry): Response {
    if e.casCheck != 0 && cur.None? then NotFound
    else if e.casCheck != 0 && cur.value.casCounter != e.casCheck then CasMismatch
    else if e.meta == BIT_SET_IF_ABSENT && Exists(cur) then KeyExists
    else Done
  }

  /** Sets BIT_VALUE_POINTER, bit 1 of the meta byte. */
  function WithPointerBit(meta: byte): byte {
    if (meta / 2) % 2 == 1 then meta else meta + 2
  }

  /** The value struct put into the memtable: short values inline, long ones as a value-log pointer. */
  function Stored(e: WriteEntry, cas: nat, threshold: nat, ptr: seq<byte>): ValueStruct {
    if |e.value| < threshold then ValueStruct(e.meta, e.userMeta, cas, e.value)
    else ValueStruct(WithPointerBit(e.meta), e.userMeta, cas, ptr)
  }

  // ----- choosing and building a compaction -----

  /** What fill_tables_l0 (level 0) and fill_tables (other levels) settle on. */
  ghost predicate PickOk(levels: seq<seq<Table>>, j: Job) {
    && j.level + 1 < |levels| && j.phase == Picked && j.outs == [] && j.ids == {}
    && (j.level == 0 ==> j.top == levels[0] && j.thisRange == INFO_RANGE && j.thisSize == 0)
    && (j.level > 0 ==> |j.top| == 1 && j.top[0] in levels[j.level] && j.thisSize == j.top[0].size)
    && j.top != []
    && (j.level > 0 ==> j.thisRange == RangeOf(j.top))
    && SortedDisjoint(j.bot)
    && (forall t :: t in j.bot <==> t in levels[j.level + 1] && Meets(t, Lo(j.top), Hi(j.top)))
    && j.nextRange == (if j.bot == [] then RangeOf(j.top) else RangeOf(j.bot))
  }

  /** The output of a merging compaction: sorted disjoint tables that hold exactly the newest-wins merge
      of the inputs, tombstones included. */
  ghost predicate IsOutput(outs: seq<Table>, top: seq<Table>, bot: seq<Table>) {
    && outs != [] && SortedDisjoint(outs)
    && (forall t :: t in outs ==> ExactTable(t))
    && forall k :: LevelGet(outs, k) == if LevelGet(top, k).Some? then LevelGet(top, k) else LevelGet(bot, k)
  }

  /** What run_compact_def hands to the manifest: the moved table, or the output under file ids that were
      reserved for it. */
  ghost predicate BuildOk(j: Job, outs: seq<Table>) {
    if j.IsMove() then outs == j.top
    else IsOutput(outs, j.top, j.bot) && DistinctIds(outs) && forall t :: t in outs ==> t.id in j.ids
  }

  /** The change set run_compact_def writes. */
  function ChangeSet(j: Job, outs: seq<Table>): seq<Change>
    requires j.top != []
  {
    if j.IsMove() then [Delete(j.top[0].id), Create(j.top[0].id, j.level + 1)]
    else Creates(outs, j.level + 1) + Deletes(j.top) + Deletes(j.bot)
  }

  // ----- steps -----

  datatype Action =
    | Reserve(n: nat)
    | Write(e: WriteEntry, cas: nat, threshold: nat, ptr: seq<byte>)
    | Swap
    | Take
    | NameTable
    | Describe(t: Table)
    | AddL0(stall: nat)
    | Advance
    | Pick(w: nat, job: Job)
    | NameOutput(w: nat)
    | Log(w: nat, outs: seq<Table>)
    | Install(w: nat)
    | Remove(w: nat)
    | Unregister(w: nat)

  ghost predicate HasJob(s: State, w: nat) { w < |s.jobs| && s.jobs[w].Some? }

  /** One step of the store. */
  ghost predicate Step(s: State, a: Action, s': State) {
    match a
    case Reserve(n) => s' == s.(counter := s.counter + n)
    case Write(e, cas, threshold, ptr) => WriteStep(s, e, cas, threshold, ptr, s')
    case Swap =>
      && s.active in s.mems && s.mems[s.active] != map[]
      && s' == s.(imm := s.imm + [s.active], queue := s.queue + [s.active],
                  active := s.active + 1, mems := s.mems[s.active + 1 := map[]])
    case Take =>
      && s.flush.Idle? && s.queue != []
      && s' == s.(flush := Taken(s.queue[0]), queue := s.queue[1..])
    case NameTable =>
      && s.flush.Taken?
      && s' == s.(flush := Named(s.flush.m, s.nextId), nextId := s.nextId + 1)
    case Describe(t) => DescribeStep(s, t, s')
    case AddL0(stall) =>
      && s.flush.Described? && 0 < |s.levels| && |s.levels[0]| < stall
      && s' == s.(levels := s.levels[0 := s.levels[0] + [s.flush.t]], flush := Added(s.flush.m))
    case Advance =>
      && s.flush.Added? && s.imm != []
      && s' == s.(imm := s.imm[1..], flush := Idle)
    case Pick(w, j) => PickStep(s, w, j, s')
    case NameOutput(w) => NameStep(s, w, s')
    case Log(w, outs) => LogStep(s, w, outs, s')
    case Install(w) => InstallStep(s, w, s')
    case Remove(w) => RemoveStep(s, w, s')
    case Unregister(w) => UnregisterStep(s, w, s')
  }

  /** Applying one entry: the check against the current value, then the memtable update. */
  ghost predicate WriteEffect(s: State, e: WriteEntry, cas: nat, threshold: nat, ptr: seq<byte>, s': State) {
    && s.applied < cas <= s.counter
    && s.active in s.mems
    && s' == if Decide(Get(s, e.key), e) == Done
             then Applied(s, e.key, Stored(e, cas, threshold, ptr))
             else s.(applied := cas)
  }

  /** The step excludes live values with no bytes, since lookups fall through them. */
  ghost predicate WriteStep(s: State, e: WriteEntry, cas: nat, threshold: nat, ptr: seq<byte>, s': State) {
    && WriteEffect(s, e, cas, threshold, ptr, s')
    && (Decide(Get(s, e.key), e) == Done ==> Stored(e, cas, threshold, ptr).Visible())
  }

  function Applied(s: State, k: Key, v: ValueStruct): State
    requires s.active in s.mems
  {
    s.(mems := s.mems[s.active := s.mems[s.active][k := v]], applied := v.casCounter,
       latest := s.latest[k := v], log := s.log[v.casCounter := (k, v)])
  }

  ghost predicate DescribeStep(s: State, t: Table, s': State) {
    && s.flush.Named? && s.flush.m in s.mems
    && GoodTable(t) && t.kvs == s.mems[s.flush.m] && t.id == s.flush.id
    && ApplyAll(s.manifest, [Create(t.id, 0)]).Some?
    && s' == s.(manifest := ApplyAll(s.manifest, [Create(t.id, 0)]).value, flush := Described(s.flush.m, t))
  }

  ghost predicate PickStep(s: State, w: nat, j: Job, s': State) {
    && w < |s.jobs| && s.jobs[w].None?
    && PickOk(s.levels, j) && |s.status| == |s.levels|
    && !AnyOverlap(s.status[j.level].ranges, j.thisRange)
    && !AnyOverlap(s.status[j.level + 1].ranges, j.nextRange)
    && s' == s.(jobs := s.jobs[w := Some(j)],
                status := Register(s.status, j.level, j.thisRange, j.nextRange, j.thisSize))
  }

  /** reserve_file_id for one more output table; other workers and the flusher take theirs in between. */
  ghost predicate NameStep(s: State, w: nat, s': State) {
    && HasJob(s, w) && s.jobs[w].value.phase == Picked
    && var j := s.jobs[w].value;
    && s' == s.(nextId := s.nextId + 1, jobs := s.jobs[w := Some(j.(ids := j.ids + {s.nextId}))])
  }

  ghost predicate LogStep(s: State, w: nat, outs: seq<Table>, s': State) {
    && HasJob(s, w) && s.jobs[w].value.phase == Picked && s.jobs[w].value.top != []
    && var j := s.jobs[w].value;
    && BuildOk(j, outs)
    && ApplyAll(s.manifest, ChangeSet(j, outs)).Some?
    && s' == s.(manifest := ApplyAll(s.manifest, ChangeSet(j, outs)).value,
                jobs := s.jobs[w := Some(j.(outs := outs, phase := Logged))])
  }

  /** The next level's replace_tables. It must not meet a bottom table that ends where the output
      starts: replace_tables would keep that table (Tables.ReplacedInShape). */
  ghost predicate InstallStep(s: State, w: nat, s': State) {
    && HasJob(s, w) && s.jobs[w].value.phase == Logged
    && var j := s.jobs[w].value;
    && j.level + 1 < |s.levels| && j.outs != []
    && (forall t :: t in j.bot ==> t.biggest != j.outs[0].smallest)
    && s' == s.(levels := s.levels[j.level + 1 := Replaced(s.levels[j.level + 1], j.outs)],
                jobs := s.jobs[w := Some(j.(phase := Installed))])
  }

  ghost predicate RemoveStep(s: State, w: nat, s': State) {
    && HasJob(s, w) && s.jobs[w].value.phase == Installed
    && var j := s.jobs[w].value;
    && j.level < |s.levels|
    && s' == s.(levels := s.levels[j.level := Without(s.levels[j.level], Ids(j.top))],
                jobs := s.jobs[w := Some(j.(phase := Removed))])
  }

  /** The compaction is over, or was given up before anything was logged. */
  ghost predicate UnregisterStep(s: State, w: nat, s': State) {
    && HasJob(s, w)
    && var j := s.jobs[w].value;
    && j.phase in {Picked, Removed}
    && j.level + 1 < |s.status| && j.thisSize <= s.status[j.level].delSize
    && s' == s.(jobs := s.jobs[w := None],
                status := Compaction.Unregister(s.status, j.level, j.thisRange, j.nextRange, j.thisSize))
  }

  /** An empty store with n levels and any number of workers. */
  ghost predicate Init(s: State) {
    && s.mems == map[0 := map[]] && s.active == 0 && s.imm == [] && s.queue == [] && s.flush == Idle
    && |s.levels| >= 2 && |s.status| == |s.levels|
    && (forall l :: 0 <= l < |s.levels| ==> s.levels[l] == [])
    && (forall l :: 0 <= l < |s.status| ==> s.status[l] == LevelStatus([], 0))
    && (forall w :: 0 <= w < |s.jobs| ==> s.jobs[w] == None)
    && s.manifest == map[] && s.latest == map[] && s.log == map[] && s.applied == 0
  }

  /** A run: the states passed through, each by the action of the same index. */
  ghost predicate Run(ss: seq<State>, acts: seq<Action>) {
    && |ss| == |acts| + 1 && Init(ss[0])
    && forall i :: 0 <= i < |acts| ==> Step(ss[i], acts[i], ss[i + 1])
  }
}
