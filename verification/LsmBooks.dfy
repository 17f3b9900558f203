// Every half-step keeps levels, jobs and manifest in agreement. The manifest lists a table exactly when it is
// in that level and not dying, or is a pending output; ids are never used twice. The lemmas go through the
// half-steps in turn: log, install, remove, describe, add, and the steps that leave the books alone.
module LsmBooks {
  import opened Base
  import opened Tables
  import opened Changes
  import opened Lsm
  import opened LsmInv
  import opened LsmJobs
  import opened LsmDepth
  import opened LsmManifest

  // ----- one slot of the job table changes -----

  ghost predicate DyingBut(jobs: seq<Option<Job>>, w: nat, l: nat, id: nat) {
    exists v :: v != w && JobDies(jobs, v, l, id)
  }

  ghost predicate PendingBut(jobs: seq<Option<Job>>, w: nat, flush: Flush, l: nat, id: nat) {
    (exists v :: v != w && JobPends(jobs, v, l, id)) || FlushPends(flush, l, id)
  }

  lemma SplitSlot(jobs: seq<Option<Job>>, w: nat, flush: Flush, l: nat, id: nat)
    ensures Dying(jobs, l, id) <==> JobDies(jobs, w, l, id) || DyingBut(jobs, w, l, id)
    ensures Pending(jobs, flush, l, id) <==> JobPends(jobs, w, l, id) || PendingBut(jobs, w, flush, l, id)
  {
    hide JobDies, JobPends, FlushPends;
  }

  lemma OtherSlots(jobs: seq<Option<Job>>, w: nat, o: Option<Job>, flush: Flush, l: nat, id: nat)
    requires w < |jobs|
    ensures DyingBut(jobs[w := o], w, l, id) <==> DyingBut(jobs, w, l, id)
    ensures PendingBut(jobs[w := o], w, flush, l, id) <==> PendingBut(jobs, w, flush, l, id)
  {
    var jobs' := jobs[w := o];
    forall v | v != w
      ensures JobDies(jobs', v, l, id) <==> JobDies(jobs, v, l, id)
      ensures JobPends(jobs', v, l, id) <==> JobPends(jobs, v, l, id)
    {
    }
  }

  /** How agreement at (l, id) reads before and after slot w changes. */
  lemma AgreeSlots(s: State, w: nat, o: Option<Job>, l: nat, id: nat)
    requires BookInv(s) && w < |s.jobs| && l < |s.levels|
    ensures (id in s.manifest && s.manifest[id] == l) <==>
            || (id in Ids(s.levels[l]) && !JobDies(s.jobs, w, l, id) && !DyingBut(s.jobs, w, l, id))
            || JobPends(s.jobs, w, l, id) || PendingBut(s.jobs, w, s.flush, l, id)
    ensures var jobs' := s.jobs[w := o];
            && (Dying(jobs', l, id) <==> JobDies(jobs', w, l, id) || DyingBut(s.jobs, w, l, id))
            && (Pending(jobs', s.flush, l, id) <==> JobPends(jobs', w, l, id) || PendingBut(s.jobs, w, s.flush, l, id))
  {
    hide LevelsOk, JobsOk, CrossOk, PlaceOk, IdsOk, JobDies, JobPends, DyingBut, PendingBut, Dying, Pending;
    assert Agree(s.levels, s.jobs, s.flush, s.manifest, l, id);
    SplitSlot(s.jobs, w, s.flush, l, id);
    SplitSlot(s.jobs[w := o], w, s.flush, l, id);
    OtherSlots(s.jobs, w, o, s.flush, l, id);
  }

  /** An input of a waiting job: where its id occurs, and which other half-steps touch it. */
  lemma InputAlone(s: State, w: nat, j: Job, t: Table, l: nat, m: nat)
    requires BookInv(s) && JobIs(s, w, j) && Waiting(j) && Input(j, t, l) && m < |s.levels|
    ensures t.id in Ids(s.levels[m]) <==> m == l
    ensures !DyingBut(s.jobs, w, l, t.id) && !PendingBut(s.jobs, w, s.flush, m, t.id)
  {
    hide BookInv, Input, JobDies, JobPends, FlushPends;
    InputHere(s, w, j, t, l);
    if t.id in Ids(s.levels[m]) {
      var u :| u in s.levels[m] && u.id == t.id;
      OnlyHere(s, w, j, t, l, u, m);
    }
    forall v | v != w
      ensures !JobDies(s.jobs, v, l, t.id) && !JobPends(s.jobs, v, m, t.id)
    {
      NotDying(s, w, j, t, l, v);
      NotPending(s, w, j, t, l, v, m);
    }
    NotPending(s, w, j, t, l, w + 1, m);
  }

  // ----- logging -----

  ghost predicate Logging(s: State, w: nat, j: Job, outs: seq<Table>, s': State) {
    && BookInv(s) && JobIs(s, w, j) && j.phase == Picked && BuildOk(j, outs)
    && Moved(s.manifest, outs, j.top, j.bot, j.level + 1, s'.manifest)
    && s'.levels == s.levels && s'.flush == s.flush && s'.nextId == s.nextId
    && s'.jobs == s.jobs[w := Some(j.(outs := outs, phase := Logged))]
  }

  lemma LogAgree(s: State, w: nat, j: Job, outs: seq<Table>, s': State, m: nat, id: nat)
    requires Logging(s, w, j, outs, s') && m < |s.levels|
    ensures Agree(s'.levels, s'.jobs, s'.flush, s'.manifest, m, id)
  {
    hide BookInv, IsOutput, DyingBut, PendingBut, Dying, Pending, Input;
    AgreeSlots(s, w, Some(j.(outs := outs, phase := Logged)), m, id);
    if id in Ids(j.top) {
      var t :| t in j.top && t.id == id;
      InputTop(j, t);
      InputAlone(s, w, j, t, j.level, m);
    } else if id in Ids(j.bot) {
      var t :| t in j.bot && t.id == id;
      InputBot(j, t);
      InputAlone(s, w, j, t, j.level + 1, m);
    } else if id in Ids(outs) {
      JobTops(s, w, j);
      JobKnown(s, w, j);
      BuiltIds(j, outs);
      BuildingNowhere(s, w, j, id, m);
    }
  }

  lemma BuiltIds(j: Job, outs: seq<Table>)
    requires BuildOk(j, outs)
    ensures if j.IsMove() then Ids(outs) == Ids(j.top) else forall id :: id in Ids(outs) ==> id in j.ids
  {
    hide IsOutput;
  }

  /** An id reserved by a build is in no level and pends nowhere. */
  lemma BuildingNowhere(s: State, w: nat, j: Job, id: nat, m: nat)
    requires BookInv(s) && JobIs(s, w, j) && j.phase == Picked && id in j.ids && m < |s.levels|
    ensures id !in s.manifest && id !in Ids(s.levels[m])
    ensures !PendingBut(s.jobs, w, s.flush, m, id)
  {
    hide BookInv;
    BuildingNew(s, w, j, id);
    forall v: nat ensures !JobPends(s.jobs, v, m, id) { assert !JobOuts(s.jobs, v, id); }
  }

  lemma LogPlace(s: State, w: nat, j: Job, outs: seq<Table>, s': State)
    requires Logging(s, w, j, outs, s')
    ensures PlaceOk(s'.levels, s'.jobs)
  {
    hide LevelsOk, JobsOk, CrossOk, IsOutput, AgreeOk, IdsOk, BuildOk, Moved;
    forall a, b, t, u | 0 <= a < b < |s'.levels| && t in s'.levels[a] && u in s'.levels[b] && t.id == u.id
      ensures b == a + 1 && t == u && exists v :: Moving(s'.jobs, v, a, t)
    {
      var v :| Moving(s.jobs, v, a, t);
      assert Moving(s'.jobs, v, a, t);
    }
  }

  /** The ids of the output have been given out, and nobody else holds them. */
  lemma OutIdsKnown(s: State, w: nat, j: Job, outs: seq<Table>, id: nat)
    requires BookInv(s) && JobIs(s, w, j) && j.phase == Picked && BuildOk(j, outs) && id in Ids(outs)
    ensures id < s.nextId
    ensures forall v: nat :: v != w ==> !JobBuilds(s.jobs, v, id)
    ensures s.flush.Named? ==> s.flush.id != id
  {
    hide BookInv, BuildOk, JobHolds;
    BuiltIds(j, outs);
    if j.IsMove() {
      var t :| t in j.top && t.id == id;
      TopHere(s, w, j);
      LevelIdUsed(s, j.level, t);
      forall v: nat | JobBuilds(s.jobs, v, id) ensures false { BuilderHolds(s.jobs, v, id); }
    } else {
      BuildingNew(s, w, j, id);
      forall v: nat | v != w && JobBuilds(s.jobs, v, id) ensures false { BuilderHolds(s.jobs, v, id); }
    }
  }

  /** Nobody holds the id of a table of the levels. */
  lemma LevelIdUsed(s: State, l: nat, t: Table)
    requires BookInv(s) && l < |s.levels| && t in s.levels[l]
    ensures t.id < s.nextId && !FlushHolds(s.flush, t.id) && forall v: nat :: !JobHolds(s.jobs, v, t.id)
  {
    hide LevelsOk, JobsOk, CrossOk, AgreeOk, PlaceOk, FlushHolds, JobHolds;
    assert t.id in Ids(s.levels[l]);
    assert !NewId(s.levels, t.id);
  }

  lemma LogHolds(s: State, w: nat, j: Job, outs: seq<Table>, s': State)
    requires Logging(s, w, j, outs, s')
    ensures forall v: nat, id: nat :: JobHolds(s'.jobs, v, id) ==> JobHolds(s.jobs, v, id)
    ensures forall v: nat, id: nat :: JobOuts(s'.jobs, v, id) ==> JobOuts(s.jobs, v, id) || (v == w && id in Ids(outs))
    ensures forall v: nat, id: nat :: JobBuilds(s'.jobs, v, id) ==> v != w && JobBuilds(s.jobs, v, id)
  {
    hide BookInv, BuildOk, Moved;
    BuiltIds(j, outs);
  }

  /** Ids reserved by others stay unmentioned. */
  lemma LogUnused(s: State, w: nat, j: Job, outs: seq<Table>, s': State, id: nat)
    requires Logging(s, w, j, outs, s') && Unused(s'.jobs, s'.flush, id)
    ensures id !in s'.manifest && forall v: nat :: !JobOuts(s'.jobs, v, id)
  {
    hide BookInv, BuildOk, JobHolds, JobOuts, JobBuilds;
    LogHolds(s, w, j, outs, s');
    assert id !in Ids(outs) by {
      if id in Ids(outs) { OutIdsKnown(s, w, j, outs, id); }
    }
    UnusedNew(s, id);
  }

  lemma UnusedNew(s: State, id: nat)
    requires BookInv(s) && Unused(s.jobs, s.flush, id)
    ensures id !in s.manifest && forall v: nat :: !JobOuts(s.jobs, v, id)
  {
    hide LevelsOk, JobsOk, CrossOk, AgreeOk, PlaceOk, Unused, JobOuts, JobHolds, FlushHolds;
  }

  lemma LogIds(s: State, w: nat, j: Job, outs: seq<Table>, s': State)
    requires Logging(s, w, j, outs, s')
    ensures IdsOk(s'.levels, s'.jobs, s'.flush, s'.manifest, s'.nextId)
  {
    hide LevelsOk, JobsOk, CrossOk, AgreeOk, PlaceOk, BuildOk, Unused, JobOuts, JobHolds, FlushHolds, NewId, JobBuilds;
    LogHolds(s, w, j, outs, s');
    forall id | id in Ids(outs) ensures id < s.nextId { OutIdsKnown(s, w, j, outs, id); }
    forall id: nat | Unused(s'.jobs, s'.flush, id)
      ensures id !in s'.manifest && forall v: nat :: !JobOuts(s'.jobs, v, id)
    {
      LogUnused(s, w, j, outs, s', id);
    }
  }

  lemma LogLevels(s: State, w: nat, j: Job, outs: seq<Table>, s': State)
    requires Logging(s, w, j, outs, s')
    ensures forall id :: id in s'.manifest ==> s'.manifest[id] < |s'.levels|
  {
    hide BookInv, BuildOk;
    LevelBound(s);
    JobKnown(s, w, j);
  }

  // ----- installing -----

  ghost predicate Placing(s: State, w: nat, j: Job, s': State) {
    && BookInv(s) && JobIs(s, w, j) && Installing(s.levels, j, s'.levels)
    && s'.flush == s.flush && s'.nextId == s.nextId && s'.manifest == s.manifest
    && s'.jobs == s.jobs[w := Some(j.(phase := Installed))]
  }

  lemma SwapIds(ts: seq<Table>, r: seq<Table>, outs: seq<Table>, bot: seq<Table>, id: nat)
    requires forall t :: t in r <==> t in outs || (t in ts && t !in bot)
    requires forall t :: t in ts && t.id in Ids(bot) ==> t in bot
    ensures id in Ids(r) <==> id in Ids(outs) || (id in Ids(ts) && id !in Ids(bot))
  {
    if id in Ids(outs) {
      var t :| t in outs && t.id == id;
      assert t in r;
    } else if id in Ids(ts) && id !in Ids(bot) {
      var t :| t in ts && t.id == id;
      assert t in r;
    }
  }

  /** The ids of the next level after the install. */
  lemma PlacedIds(s: State, w: nat, j: Job, s': State, id: nat)
    requires Placing(s, w, j, s')
    ensures var ts, r := s.levels[j.level + 1], s'.levels[j.level + 1];
            id in Ids(r) <==> id in Ids(j.outs) || (id in Ids(ts) && id !in Ids(j.bot))
  {
    hide BookInv, LevelsOk, JobOk, DepthOk, AgeOk, Replaced, SortedDisjoint, ExactTable;
    InstallSet(s.levels, j, s'.levels[j.level + 1]);
    BotOnly(s, w, j);
    SwapIds(s.levels[j.level + 1], s'.levels[j.level + 1], j.outs, j.bot, id);
  }

  /** Within the next level only a bottom table has the id of a bottom table. */
  lemma BotOnly(s: State, w: nat, j: Job)
    requires BookInv(s) && JobIs(s, w, j) && Waiting(j) && j.level + 1 < |s.levels|
    ensures forall t :: t in s.levels[j.level + 1] && t.id in Ids(j.bot) ==> t in j.bot
  {
    hide BookInv;
    forall t | t in s.levels[j.level + 1] && t.id in Ids(j.bot) ensures t in j.bot {
      var b :| b in j.bot && b.id == t.id;
      InputHere(s, w, j, b, j.level + 1);
      BookLevels(s);
      SameId(s.levels, j.level + 1, t, b);
    }
  }

  /** An id of the output: new in the next level, or the moved table's. */
  lemma OutIdNew(s: State, w: nat, j: Job, id: nat, m: nat)
    requires BookInv(s) && JobIs(s, w, j) && j.phase == Logged && id in Ids(j.outs) && m < |s.levels|
    ensures id in Ids(s.levels[m]) <==> j.IsMove() && m == j.level
  {
    hide BookInv;
    var o :| o in j.outs && o.id == id;
    if j.IsMove() {
      JobKnownOuts(s, w, j);
      InputAlone(s, w, j, o, j.level, m);
    } else if id in Ids(s.levels[m]) {
      var t :| t in s.levels[m] && t.id == id;
      MergeIdNew(s, w, o, m, t);
    }
  }

  /** An id pending in a level is not dying there. */
  lemma OutIdNotDying(s: State, w: nat, j: Job, id: nat)
    requires BookInv(s) && JobIs(s, w, j) && j.phase == Logged && id in Ids(j.outs) && j.level + 1 < |s.levels|
    ensures !DyingBut(s.jobs, w, j.level + 1, id)
  {
    hide BookInv;
    var l := j.level + 1;
    OutIdNew(s, w, j, id, l);
    if v :| v != w && JobDies(s.jobs, v, l, id) {
      DyingHere(s, v, l, id);
    }
  }

  lemma DyingHere(s: State, v: nat, l: nat, id: nat)
    requires BookInv(s) && JobDies(s.jobs, v, l, id)
    ensures l < |s.levels| && id in Ids(s.levels[l])
  {
    hide BookInv;
    var a := s.jobs[v].value;
    TopHere(s, v, a);
    if a.level == l && id in Ids(a.top) {
      var u :| u in a.top && u.id == id;
      assert u in s.levels[l];
    } else {
      var u :| u in a.bot && u.id == id;
      InputHere(s, v, a, u, l);
      assert u in s.levels[l];
    }
  }

  lemma InstallAgree(s: State, w: nat, j: Job, s': State, m: nat, id: nat)
    requires Placing(s, w, j, s') && m < |s.levels|
    ensures Agree(s'.levels, s'.jobs, s'.flush, s'.manifest, m, id)
  {
    hide BookInv, LevelsOk, JobOk, DepthOk, AgeOk, Replaced, DyingBut, PendingBut, Dying, Pending, Input;
    AgreeSlots(s, w, Some(j.(phase := Installed)), m, id);
    if m == j.level + 1 {
      PlacedIds(s, w, j, s', id);
      if id in Ids(j.outs) {
        OutIdNotDying(s, w, j, id);
        OutIdNew(s, w, j, id, m);
      } else if id in Ids(j.bot) {
        var t :| t in j.bot && t.id == id;
        InputBot(j, t);
        InputAlone(s, w, j, t, j.level + 1, m);
      }
    }
  }

  lemma InstallPlace(s: State, w: nat, j: Job, s': State)
    requires Placing(s, w, j, s')
    ensures PlaceOk(s'.levels, s'.jobs)
  {
    hide BookInv, LevelsOk, JobOk, DepthOk, AgeOk, Replaced, SortedDisjoint, ExactTable;
    InstallSet(s.levels, j, s'.levels[j.level + 1]);
    forall a, b, t, u | 0 <= a < b < |s'.levels| && t in s'.levels[a] && u in s'.levels[b] && t.id == u.id
      ensures b == a + 1 && t == u && exists v :: Moving(s'.jobs, v, a, t)
    {
      if t in s.levels[a] && u in s.levels[b] {
        var v, x := Mover(s, a, b, t, u);
        assert Moving(s'.jobs, v, a, t);
      } else if a == j.level + 1 && t in j.outs {
        OutIdNew(s, w, j, t.id, b);
      } else {
        assert b == j.level + 1 && u in j.outs;
        OutIdNew(s, w, j, u.id, a);
        JobKnownOuts(s, w, j);
        OnlyTop(s, w, j, t, a);
        assert Moving(s'.jobs, w, a, t);
      }
    }
  }

  /** In its own level the moved table is the only one with its id. */
  lemma OnlyTop(s: State, w: nat, j: Job, t: Table, a: nat)
    requires BookInv(s) && JobIs(s, w, j) && Waiting(j) && j.IsMove() && a < |s.levels|
    requires t in s.levels[a] && t.id in Ids(j.top)
    ensures a == j.level && j.top == [t]
  {
    hide BookInv;
    var o :| o in j.top && o.id == t.id;
    OnlyHere(s, w, j, o, j.level, t, a);
    OneTop(s, w, j);
  }

  lemma OneTop(s: State, w: nat, j: Job)
    requires BookInv(s) && JobIs(s, w, j) && j.level > 0
    ensures |j.top| == 1
  {
    JobKnown(s, w, j);
  }

  lemma InstallHolds(s: State, w: nat, j: Job, s': State)
    requires Placing(s, w, j, s')
    ensures forall v: nat, id: nat :: JobHolds(s'.jobs, v, id) ==> v != w && JobHolds(s.jobs, v, id)
    ensures forall v: nat, id: nat :: JobOuts(s'.jobs, v, id) <==> JobOuts(s.jobs, v, id)
    ensures forall v: nat, id: nat :: JobBuilds(s'.jobs, v, id) ==> JobBuilds(s.jobs, v, id)
  {
    hide BookInv, Installing;
  }

  lemma InstallIds(s: State, w: nat, j: Job, s': State)
    requires Placing(s, w, j, s')
    ensures IdsOk(s'.levels, s'.jobs, s'.flush, s'.manifest, s'.nextId)
  {
    hide LevelsOk, JobsOk, CrossOk, AgreeOk, PlaceOk, JobOk, Installing, JobHolds, JobOuts, JobBuilds, FlushHolds,
         NewId;
    PlacingShape(s, w, j, s');
    InstallHolds(s, w, j, s');
    OutsBound(s, w, j);
    assert forall id: nat :: Unused(s'.jobs, s'.flush, id) ==> Unused(s.jobs, s.flush, id);
    forall l, t | 0 <= l < |s'.levels| && t in s'.levels[l] ensures t.id < s'.nextId {
      if l == j.level + 1 { PlacedIds(s, w, j, s', t.id); }
    }
    forall id: nat | FlushHolds(s'.flush, id) ensures NewId(s'.levels, id) {
      NewIdKept(s, w, j, s', id);
    }
    forall v: nat, id: nat | JobHolds(s'.jobs, v, id) ensures NewId(s'.levels, id) {
      NewIdKept(s, w, j, s', id);
    }
  }

  lemma PlacingShape(s: State, w: nat, j: Job, s': State)
    requires Placing(s, w, j, s')
    ensures |s'.levels| == |s.levels| && j.level + 1 < |s.levels| && j.phase == Logged
    ensures forall l :: 0 <= l < |s.levels| && l != j.level + 1 ==> s'.levels[l] == s.levels[l]
  {
  }

  lemma OutsBound(s: State, w: nat, j: Job)
    requires BookInv(s) && JobIs(s, w, j)
    ensures forall id :: id in Ids(j.outs) ==> id < s.nextId
    ensures forall l, t :: 0 <= l < |s.levels| && t in s.levels[l] ==> t.id < s.nextId
  {
    hide LevelsOk, JobsOk, CrossOk, AgreeOk, PlaceOk, JobHolds, FlushHolds, NewId;
    forall id: nat | id in Ids(j.outs) ensures id < s.nextId { assert JobOuts(s.jobs, w, id); }
  }

  /** An id that is pending elsewhere stays out of the levels when another job installs. */
  lemma NewIdKept(s: State, w: nat, j: Job, s': State, id: nat)
    requires Placing(s, w, j, s') && NewId(s.levels, id)
    requires FlushHolds(s.flush, id) || exists v: nat :: v != w && JobHolds(s.jobs, v, id)
    ensures NewId(s'.levels, id)
  {
    hide BookInv, LevelsOk, JobOk, DepthOk, AgeOk, Replaced, SortedDisjoint, ExactTable, Installing;
    PlacingShape(s, w, j, s');
    PlacedIds(s, w, j, s', id);
    if id in Ids(j.outs) {
      if j.IsMove() {
        OutIdNew(s, w, j, id, j.level);
      } else {
        HoldsApart(s, w, id);
      }
    }
  }

  lemma HoldsApart(s: State, w: nat, id: nat)
    requires BookInv(s) && JobHolds(s.jobs, w, id)
    ensures !FlushHolds(s.flush, id)
    ensures forall v: nat :: v != w ==> !JobHolds(s.jobs, v, id)
  {
    hide LevelsOk, JobsOk, CrossOk, AgreeOk, PlaceOk, JobHolds, FlushHolds;
  }

  lemma InjectiveDistinct(r: seq<Table>)
    requires SortedDisjoint(r) && forall t, u :: t in r && u in r && t.id == u.id ==> t == u
    ensures DistinctIds(r)
  {
  }

  lemma InstallLevels(s: State, w: nat, j: Job, s': State)
    requires Placing(s, w, j, s')
    ensures LevelsOk(s'.levels)
  {
    hide BookInv, JobOk, DepthOk, AgeOk, Replaced, SortedDisjoint, ExactTable, GoodTable, DistinctIds;
    assert LevelsOk(s.levels);
    InstallSet(s.levels, j, s'.levels[j.level + 1]);
    var ts, r := s.levels[j.level + 1], s'.levels[j.level + 1];
    forall t, u | t in r && u in r && t.id == u.id ensures t == u {
      if t in j.outs && u in j.outs {
        JobKnownOuts(s, w, j);
        OtherIds(j.outs, t);
      } else if t in ts && u in ts && t !in j.outs && u !in j.outs {
        SameId(s.levels, j.level + 1, t, u);
      } else if t in j.outs {
        OutIdNew(s, w, j, t.id, j.level + 1);
      } else {
        OutIdNew(s, w, j, u.id, j.level + 1);
      }
    }
    InjectiveDistinct(r);
  }

  /** Installing keeps the books. */
  lemma InstallBooks(s: State, w: nat, j: Job, s': State)
    requires Placing(s, w, j, s')
    ensures LevelsOk(s'.levels) && PlaceOk(s'.levels, s'.jobs)
    ensures AgreeOk(s'.levels, s'.jobs, s'.flush, s'.manifest)
    ensures IdsOk(s'.levels, s'.jobs, s'.flush, s'.manifest, s'.nextId)
  {
    hide BookInv, LevelsOk, PlaceOk, IdsOk, Installing, Agree;
    PlacingShape(s, w, j, s');
    InstallLevels(s, w, j, s');
    InstallPlace(s, w, j, s');
    InstallIds(s, w, j, s');
    LevelBound(s);
    forall m, id | 0 <= m < |s'.levels| ensures Agree(s'.levels, s'.jobs, s'.flush, s'.manifest, m, id) {
      InstallAgree(s, w, j, s', m, id);
    }
  }

  lemma LevelBound(s: State)
    requires BookInv(s)
    ensures forall id :: id in s.manifest ==> s.manifest[id] < |s.levels|
  {
  }

  /** Logging keeps the books. */
  lemma LogBooks(s: State, w: nat, j: Job, outs: seq<Table>, s': State)
    requires Logging(s, w, j, outs, s')
    ensures PlaceOk(s'.levels, s'.jobs)
    ensures AgreeOk(s'.levels, s'.jobs, s'.flush, s'.manifest)
    ensures IdsOk(s'.levels, s'.jobs, s'.flush, s'.manifest, s'.nextId)
  {
    hide BookInv, LevelsOk, PlaceOk, IdsOk, Agree, BuildOk, Moved;
    LogIds(s, w, j, outs, s');
    LogPlace(s, w, j, outs, s');
    LogLevels(s, w, j, outs, s');
    forall m, id | 0 <= m < |s'.levels| ensures Agree(s'.levels, s'.jobs, s'.flush, s'.manifest, m, id) {
      LogAgree(s, w, j, outs, s', m, id);
    }
  }

  // ----- removing -----

  ghost predicate Dropping(s: State, w: nat, j: Job, s': State) {
    && BookInv(s) && JobIs(s, w, j) && Removing(s.levels, j, s'.levels)
    && s'.flush == s.flush && s'.nextId == s.nextId && s'.manifest == s.manifest
    && s'.jobs == s.jobs[w := Some(j.(phase := Removed))]
  }

  lemma DroppingShape(s: State, w: nat, j: Job, s': State)
    requires Dropping(s, w, j, s')
    ensures |s'.levels| == |s.levels| && j.level < |s.levels|
    ensures forall l :: 0 <= l < |s.levels| && l != j.level ==> s'.levels[l] == s.levels[l]
    ensures forall t :: t in s'.levels[j.level] <==> t in s.levels[j.level] && t.id !in Ids(j.top)
  {
  }

  lemma RemoveAgree(s: State, w: nat, j: Job, s': State, m: nat, id: nat)
    requires Dropping(s, w, j, s') && m < |s.levels|
    ensures Agree(s'.levels, s'.jobs, s'.flush, s'.manifest, m, id)
  {
    hide BookInv, Removing, DyingBut, PendingBut, Dying, Pending;
    DroppingShape(s, w, j, s');
    AgreeSlots(s, w, Some(j.(phase := Removed)), m, id);
    if m == j.level && id in Ids(s.levels[m]) && id !in Ids(j.top) {
      var t :| t in s.levels[m] && t.id == id;
      assert t in s'.levels[m];
    }
    assert Removing(s.levels, j, s'.levels);
    RemovingPhase(s.levels, j, s'.levels);
  }

  lemma RemovingPhase(levels: seq<seq<Table>>, j: Job, levels': seq<seq<Table>>)
    requires Removing(levels, j, levels')
    ensures j.phase == Installed
  {
  }

  lemma RemovePlace(s: State, w: nat, j: Job, s': State)
    requires Dropping(s, w, j, s')
    ensures PlaceOk(s'.levels, s'.jobs)
  {
    hide BookInv, Removing;
    DroppingShape(s, w, j, s');
    forall a, b, t, u | 0 <= a < b < |s'.levels| && t in s'.levels[a] && u in s'.levels[b] && t.id == u.id
      ensures b == a + 1 && t == u && exists v :: Moving(s'.jobs, v, a, t)
    {
      var v, x := Mover(s, a, b, t, u);
      assert v != w;
      assert Moving(s'.jobs, v, a, t);
    }
  }

  lemma RemoveHolds(s: State, w: nat, j: Job, s': State)
    requires Dropping(s, w, j, s')
    ensures forall v: nat, id: nat :: JobHolds(s'.jobs, v, id) ==> JobHolds(s.jobs, v, id)
    ensures forall v: nat, id: nat :: JobOuts(s'.jobs, v, id) <==> JobOuts(s.jobs, v, id)
    ensures forall v: nat, id: nat :: JobBuilds(s'.jobs, v, id) ==> JobBuilds(s.jobs, v, id)
  {
    hide BookInv, Removing;
  }

  lemma RemoveIds(s: State, w: nat, j: Job, s': State)
    requires Dropping(s, w, j, s')
    ensures IdsOk(s'.levels, s'.jobs, s'.flush, s'.manifest, s'.nextId)
  {
    hide LevelsOk, JobsOk, CrossOk, AgreeOk, PlaceOk, Removing, JobHolds, JobOuts, JobBuilds, FlushHolds, NewId;
    DroppingShape(s, w, j, s');
    RemoveHolds(s, w, j, s');
    NewIdFewer(s.levels, s'.levels);
    assert forall id: nat :: Unused(s'.jobs, s'.flush, id) ==> Unused(s.jobs, s.flush, id);
  }

  lemma NewIdFewer(levels: seq<seq<Table>>, levels': seq<seq<Table>>)
    requires |levels'| == |levels|
    requires forall l, t :: 0 <= l < |levels| && t in levels'[l] ==> t in levels[l]
    ensures forall id :: NewId(levels, id) ==> NewId(levels', id)
  {
  }

  lemma RemoveLevels(s: State, w: nat, j: Job, s': State)
    requires Dropping(s, w, j, s')
    ensures LevelsOk(s'.levels)
  {
    hide JobsOk, CrossOk, AgreeOk, PlaceOk, IdsOk, DepthOk, AgeOk, Without, JobOk, LevelOk;
    if j.level == 0 {
      RemoveSet0(s.levels, j, s'.levels);
      SuffixAscends(s.levels[0], |j.top|, s'.levels[0]);
    } else {
      RemoveLevel(s.levels[j.level], Ids(j.top));
    }
  }

  lemma SuffixAscends(ts: seq<Table>, n: nat, r: seq<Table>)
    requires IdsAscend(ts) && n <= |ts| && r == ts[n..] && forall t :: t in ts ==> GoodTable(t)
    ensures IdsAscend(r) && forall t :: t in r ==> GoodTable(t)
  {
    hide GoodTable;
    assert forall i :: 0 <= i < |r| ==> r[i] == ts[n + i];
  }

  lemma RemoveLevel(ts: seq<Table>, ids: set<nat>)
    requires LevelOk(ts)
    ensures LevelOk(Without(ts, ids))
  {
    WithoutSorted(ts, ids);
    WithoutIds(ts, ids);
  }

  /** Removing keeps the books. */
  lemma RemoveBooks(s: State, w: nat, j: Job, s': State)
    requires Dropping(s, w, j, s')
    ensures LevelsOk(s'.levels) && PlaceOk(s'.levels, s'.jobs)
    ensures AgreeOk(s'.levels, s'.jobs, s'.flush, s'.manifest)
    ensures IdsOk(s'.levels, s'.jobs, s'.flush, s'.manifest, s'.nextId)
  {
    hide BookInv, LevelsOk, PlaceOk, IdsOk, Removing, Agree;
    DroppingShape(s, w, j, s');
    RemoveLevels(s, w, j, s');
    RemovePlace(s, w, j, s');
    RemoveIds(s, w, j, s');
    LevelBound(s);
    forall m, id | 0 <= m < |s'.levels| ensures Agree(s'.levels, s'.jobs, s'.flush, s'.manifest, m, id) {
      RemoveAgree(s, w, j, s', m, id);
    }
  }

  // ----- the flusher -----

  ghost predicate Describing(s: State, t: Table, s': State) {
    && BookInv(s) && s.flush.Named? && t.id == s.flush.id
    && s'.manifest == s.manifest[t.id := 0] && s'.nextId == s.nextId
    && s'.flush.Described? && s'.flush.t == t && s'.levels == s.levels && s'.jobs == s.jobs
  }

  /** The create change of a flushed table always applies. */
  lemma DescribeApplies(s: State, t: Table)
    requires BookInv(s) && s.flush.Named? && t.id == s.flush.id
    ensures ApplyAll(s.manifest, [Create(t.id, 0)]) == Some(s.manifest[t.id := 0])
  {
    hide BookInv;
    var cs := [Create(t.id, 0)];
    assert cs[..0] == [];
    UnusedNew(s, t.id);
  }

  lemma DescribeBooks(s: State, t: Table, s': State)
    requires Describing(s, t, s')
    ensures AgreeOk(s'.levels, s'.jobs, s'.flush, s'.manifest)
    ensures IdsOk(s'.levels, s'.jobs, s'.flush, s'.manifest, s'.nextId)
  {
    hide BookInv, AgreeOk, IdsOk, Dying;
    DescribeIds(s, t, s');
    assert forall id :: id in s'.manifest ==> s'.manifest[id] < |s.levels| by { LevelBound(s); HasLevels(s); }
    forall m, id | 0 <= m < |s.levels| ensures Agree(s'.levels, s'.jobs, s'.flush, s'.manifest, m, id) {
      if id == t.id {
        NamedNowhere(s, m);
      } else {
        assert Agree(s.levels, s.jobs, s.flush, s.manifest, m, id) by { AgreeAt(s, m, id); }
      }
    }
    AgreeAll(s');
  }

  lemma DescribeIds(s: State, t: Table, s': State)
    requires Describing(s, t, s')
    ensures IdsOk(s'.levels, s'.jobs, s'.flush, s'.manifest, s'.nextId)
  {
    hide LevelsOk, JobsOk, CrossOk, PlaceOk, AgreeOk, JobHolds, JobOuts, NewId;
    assert forall id: nat :: FlushHolds(s'.flush, id) <==> FlushHolds(s.flush, id);
    assert FlushHolds(s.flush, t.id);
    forall id: nat | Unused(s'.jobs, s'.flush, id) ensures Unused(s.jobs, s.flush, id) && id != t.id {
      var w :| JobBuilds(s.jobs, w, id);
      BuilderHolds(s.jobs, w, id);
    }
  }

  lemma BuilderHolds(jobs: seq<Option<Job>>, w: nat, id: nat)
    requires JobBuilds(jobs, w, id)
    ensures JobHolds(jobs, w, id)
  {
  }

  /** The id the flusher has reserved is in no level and pends nowhere. */
  lemma NamedNowhere(s: State, m: nat)
    requires BookInv(s) && s.flush.Named? && m < |s.levels|
    ensures s.flush.id !in Ids(s.levels[m]) && forall v: nat :: !JobPends(s.jobs, v, m, s.flush.id)
  {
    hide LevelsOk, JobsOk, CrossOk, PlaceOk, AgreeOk, JobHolds;
    var id := s.flush.id;
    assert FlushHolds(s.flush, id) && NewId(s.levels, id);
    assert Unused(s.jobs, s.flush, id);
    forall v: nat ensures !JobPends(s.jobs, v, m, id) { assert !JobOuts(s.jobs, v, id); }
  }

  lemma HasLevels(s: State)
    requires BookInv(s)
    ensures |s.levels| >= 2
  {
  }

  lemma AgreeAt(s: State, m: nat, id: nat)
    requires BookInv(s) && m < |s.levels|
    ensures Agree(s.levels, s.jobs, s.flush, s.manifest, m, id)
  {
  }

  ghost predicate Appending(s: State, s': State) {
    && BookInv(s) && s.flush.Described? && s'.flush.Added? && |s.levels| >= 2
    && s'.levels == s.levels[0 := s.levels[0] + [s.flush.t]]
    && s'.jobs == s.jobs && s'.manifest == s.manifest && s'.nextId == s.nextId
  }

  lemma FlushNotDying(s: State)
    requires BookInv(s) && s.flush.Described?
    ensures !Dying(s.jobs, 0, s.flush.t.id)
  {
    hide BookInv, JobDies;
    FlushNew(s);
    if v :| JobDies(s.jobs, v, 0, s.flush.t.id) {
      DyingHere(s, v, 0, s.flush.t.id);
    }
  }

  lemma AddAgree(s: State, s': State, m: nat, id: nat)
    requires Appending(s, s') && m < |s.levels|
    ensures Agree(s'.levels, s'.jobs, s'.flush, s'.manifest, m, id)
  {
    hide BookInv, Dying;
    AgreeAt(s, m, id);
    var t := s.flush.t;
    FlushNew(s);
    if m == 0 {
      assert Ids(s'.levels[0]) == Ids(s.levels[0]) + {t.id} by { AppendIds(s.levels[0], t); }
      FlushNotDying(s);
    }
  }

  lemma AppendIds(ts: seq<Table>, t: Table)
    ensures Ids(ts + [t]) == Ids(ts) + {t.id}
  {
  }

  lemma FlushNew(s: State)
    requires BookInv(s) && s.flush.Described?
    ensures NewId(s.levels, s.flush.t.id) && s.flush.t.id < s.nextId
    ensures |s.levels| >= 2 && forall t :: t in s.levels[0] ==> t.id < s.flush.t.id
    ensures forall w: nat :: !JobHolds(s.jobs, w, s.flush.t.id)
  {
    hide JobsOk, CrossOk, AgreeOk, PlaceOk, JobHolds, NewId;
    assert FlushHolds(s.flush, s.flush.t.id);
  }

  lemma AddPlace(s: State, s': State)
    requires Appending(s, s')
    ensures PlaceOk(s'.levels, s'.jobs)
  {
    hide BookInv;
    FlushNew(s);
    forall a, b, t, u | 0 <= a < b < |s'.levels| && t in s'.levels[a] && u in s'.levels[b] && t.id == u.id
      ensures b == a + 1 && t == u && exists v :: Moving(s'.jobs, v, a, t)
    {
      assert u in s.levels[b];
      assert t in s.levels[a] by { if a == 0 { assert s.flush.t.id !in Ids(s.levels[b]); } }
      var v, x := Mover(s, a, b, t, u);
    }
  }

  lemma AddIds(s: State, s': State)
    requires Appending(s, s')
    ensures IdsOk(s'.levels, s'.jobs, s'.flush, s'.manifest, s'.nextId)
  {
    hide LevelsOk, JobsOk, CrossOk, AgreeOk, PlaceOk, JobHolds, JobOuts, JobBuilds;
    FlushNew(s);
    AppendIds(s.levels[0], s.flush.t);
    assert forall id: nat :: Unused(s'.jobs, s'.flush, id) ==> Unused(s.jobs, s.flush, id);
  }

  /** Adding a flushed table keeps the books. */
  lemma AddBooks(s: State, s': State)
    requires Appending(s, s') && GoodTable(s.flush.t)
    ensures LevelsOk(s'.levels) && PlaceOk(s'.levels, s'.jobs)
    ensures AgreeOk(s'.levels, s'.jobs, s'.flush, s'.manifest)
    ensures IdsOk(s'.levels, s'.jobs, s'.flush, s'.manifest, s'.nextId)
  {
    hide PlaceOk, IdsOk, Agree, JobsOk, CrossOk, GoodTable;
    FlushNew(s);
    AddPlace(s, s');
    AddIds(s, s');
    LevelBound(s);
    forall m, id | 0 <= m < |s'.levels| ensures Agree(s'.levels, s'.jobs, s'.flush, s'.manifest, m, id) {
      AddAgree(s, s', m, id);
    }
  }

  // ----- steps that touch neither levels nor manifest -----

  /** Not half done, and with no output before it is logged. */
  predicate Quiet(o: Option<Job>) {
    o.None? || (o.value.phase in {Picked, Removed} && (o.value.phase == Picked ==> o.value.outs == []))
  }

  ghost predicate QuietChange(s: State, w: nat, o: Option<Job>, s': State) {
    && BookInv(s) && w < |s.jobs| && Quiet(s.jobs[w]) && Quiet(o)
    && s'.levels == s.levels && s'.manifest == s.manifest && s'.flush == s.flush && s'.jobs == s.jobs[w := o]
  }

  /** A job is registered or unregistered. */
  lemma QuietBooks(s: State, w: nat, o: Option<Job>, s': State)
    requires QuietChange(s, w, o, s') && s'.nextId == s.nextId
    requires o.None? || (o.value.outs == [] && o.value.ids == {})
    ensures PlaceOk(s'.levels, s'.jobs)
    ensures AgreeOk(s'.levels, s'.jobs, s'.flush, s'.manifest)
    ensures IdsOk(s'.levels, s'.jobs, s'.flush, s'.manifest, s'.nextId)
  {
    hide QuietChange, AgreeOk, PlaceOk, IdsOk;
    QuietAgree(s, w, o, s');
    QuietIds(s, w, o, s');
  }

  lemma QuietAgree(s: State, w: nat, o: Option<Job>, s': State)
    requires QuietChange(s, w, o, s')
    ensures PlaceOk(s'.levels, s'.jobs)
    ensures AgreeOk(s'.levels, s'.jobs, s'.flush, s'.manifest)
  {
    hide BookInv, AgreeOk, PlaceOk, Dying, Pending, DyingBut, PendingBut;
    LevelBound(s);
    forall m, id | 0 <= m < |s.levels| ensures Agree(s'.levels, s'.jobs, s'.flush, s'.manifest, m, id) {
      AgreeSlots(s, w, o, m, id);
    }
    AgreeAll(s');
    QuietPlace(s, w, o, s');
  }

  lemma QuietIds(s: State, w: nat, o: Option<Job>, s': State)
    requires QuietChange(s, w, o, s') && s'.nextId == s.nextId
    requires o.None? || (o.value.outs == [] && o.value.ids == {})
    ensures IdsOk(s'.levels, s'.jobs, s'.flush, s'.manifest, s'.nextId)
  {
    hide BookInv, NewId, FlushHolds, IdsOk;
    FewerIds(s, s');
  }

  /** The ids stay in order when jobs only give some up. */
  lemma FewerIds(s: State, s': State)
    requires BookInv(s) && s'.levels == s.levels && s'.manifest == s.manifest && s'.flush == s.flush
    requires s'.nextId == s.nextId
    requires forall v: nat, id: nat :: JobHolds(s'.jobs, v, id) ==> JobHolds(s.jobs, v, id)
    requires forall v: nat, id: nat :: JobOuts(s'.jobs, v, id) ==> JobOuts(s.jobs, v, id)
    requires forall v: nat, id: nat :: JobBuilds(s'.jobs, v, id) ==> JobBuilds(s.jobs, v, id)
    ensures IdsOk(s'.levels, s'.jobs, s'.flush, s'.manifest, s'.nextId)
  {
    hide LevelsOk, JobsOk, CrossOk, AgreeOk, PlaceOk, JobHolds, JobOuts, JobBuilds, NewId, FlushHolds;
    assert forall id: nat :: Unused(s'.jobs, s'.flush, id) ==> Unused(s.jobs, s.flush, id);
  }

  // ----- reserving a file id -----

  /** An id not handed out yet occurs nowhere. */
  lemma FreshId(s: State)
    requires BookInv(s)
    ensures s.nextId !in s.manifest && NewId(s.levels, s.nextId) && !FlushHolds(s.flush, s.nextId)
    ensures forall v: nat :: !JobHolds(s.jobs, v, s.nextId) && !JobOuts(s.jobs, v, s.nextId)
  {
    hide LevelsOk, JobsOk, CrossOk, PlaceOk, AgreeOk, JobHolds, JobOuts, FlushHolds;
  }

  /** A build reserves one more id. */
  lemma NameBooks(s: State, w: nat, j: Job, s': State)
    requires JobIs(s, w, j) && j.phase == Picked && QuietChange(s, w, Some(j.(ids := j.ids + {s.nextId})), s')
    requires s'.nextId == s.nextId + 1
    ensures PlaceOk(s'.levels, s'.jobs)
    ensures AgreeOk(s'.levels, s'.jobs, s'.flush, s'.manifest)
    ensures IdsOk(s'.levels, s'.jobs, s'.flush, s'.manifest, s'.nextId)
  {
    hide QuietChange, AgreeOk, PlaceOk, IdsOk;
    QuietAgree(s, w, Some(j.(ids := j.ids + {s.nextId})), s');
    NameIds(s, w, j, s');
  }

  lemma NameHolds(s: State, w: nat, j: Job, s': State)
    requires JobIs(s, w, j) && j.phase == Picked && s'.jobs == s.jobs[w := Some(j.(ids := j.ids + {s.nextId}))]
    ensures forall v: nat, id: nat ::
              JobHolds(s'.jobs, v, id) <==> JobHolds(s.jobs, v, id) || (v == w && id == s.nextId)
    ensures forall v: nat, id: nat ::
              JobBuilds(s'.jobs, v, id) <==> JobBuilds(s.jobs, v, id) || (v == w && id == s.nextId)
    ensures forall v: nat, id: nat :: JobOuts(s'.jobs, v, id) <==> JobOuts(s.jobs, v, id)
  {
  }

  lemma NameIds(s: State, w: nat, j: Job, s': State)
    requires JobIs(s, w, j) && j.phase == Picked && QuietChange(s, w, Some(j.(ids := j.ids + {s.nextId})), s')
    requires s'.nextId == s.nextId + 1
    ensures IdsOk(s'.levels, s'.jobs, s'.flush, s'.manifest, s'.nextId)
  {
    hide LevelsOk, JobsOk, CrossOk, AgreeOk, PlaceOk, JobHolds, JobOuts, JobBuilds, NewId, FlushHolds, Quiet;
    FreshId(s);
    NameHolds(s, w, j, s');
    forall id: nat | Unused(s'.jobs, s'.flush, id) ensures Unused(s.jobs, s.flush, id) || id == s.nextId {
      if v :| JobBuilds(s'.jobs, v, id) { assert JobBuilds(s.jobs, v, id) || id == s.nextId; }
    }
  }

  /** The flusher reserves the id of its table: greater than every id in level 0. */
  lemma NameFlushBooks(s: State, s': State)
    requires BookInv(s) && s.flush.Taken? && s'.flush == Named(s.flush.m, s.nextId) && s'.nextId == s.nextId + 1
    requires s'.levels == s.levels && s'.manifest == s.manifest && s'.jobs == s.jobs
    ensures AgreeOk(s'.levels, s'.jobs, s'.flush, s'.manifest)
    ensures IdsOk(s'.levels, s'.jobs, s'.flush, s'.manifest, s'.nextId)
  {
    hide BookInv, AgreeOk, IdsOk, Dying;
    LevelBound(s);
    forall m, id | 0 <= m < |s.levels| ensures Agree(s'.levels, s'.jobs, s'.flush, s'.manifest, m, id) {
      AgreeAt(s, m, id);
    }
    AgreeAll(s');
    NameFlushIds(s, s');
  }

  lemma NameFlushIds(s: State, s': State)
    requires BookInv(s) && s.flush.Taken? && s'.flush == Named(s.flush.m, s.nextId) && s'.nextId == s.nextId + 1
    requires s'.levels == s.levels && s'.manifest == s.manifest && s'.jobs == s.jobs
    ensures IdsOk(s'.levels, s'.jobs, s'.flush, s'.manifest, s'.nextId)
  {
    hide LevelsOk, JobsOk, CrossOk, AgreeOk, PlaceOk, JobHolds, JobOuts, JobBuilds, NewId;
    FreshId(s);
    assert forall id: nat :: Unused(s'.jobs, s'.flush, id) ==> Unused(s.jobs, s.flush, id) || id == s.nextId;
  }

  lemma AgreeAll(s: State)
    requires forall id :: id in s.manifest ==> s.manifest[id] < |s.levels|
    requires forall m, id :: 0 <= m < |s.levels| ==> Agree(s.levels, s.jobs, s.flush, s.manifest, m, id)
    ensures AgreeOk(s.levels, s.jobs, s.flush, s.manifest)
  {
  }

  lemma QuietPlace(s: State, w: nat, o: Option<Job>, s': State)
    requires BookInv(s) && w < |s.jobs| && Quiet(s.jobs[w])
    requires s'.levels == s.levels && s'.jobs == s.jobs[w := o]
    ensures PlaceOk(s'.levels, s'.jobs)
  {
    hide BookInv;
    forall a, b, t, u | 0 <= a < b < |s'.levels| && t in s'.levels[a] && u in s'.levels[b] && t.id == u.id
      ensures b == a + 1 && t == u && exists v :: Moving(s'.jobs, v, a, t)
    {
      var v, x := Mover(s, a, b, t, u);
      assert Moving(s'.jobs, v, a, t);
    }
  }

  lemma FlushQuietBooks(s: State, s': State)
    requires BookInv(s) && !s.flush.Described? && !s'.flush.Described? && !s'.flush.Named?
    requires s'.levels == s.levels && s'.manifest == s.manifest && s'.nextId == s.nextId && s'.jobs == s.jobs
    ensures AgreeOk(s'.levels, s'.jobs, s'.flush, s'.manifest)
    ensures IdsOk(s'.levels, s'.jobs, s'.flush, s'.manifest, s'.nextId)
  {
    hide BookInv, AgreeOk, Dying, IdsOk;
    LevelBound(s);
    forall m, id | 0 <= m < |s.levels| ensures Agree(s'.levels, s'.jobs, s'.flush, s'.manifest, m, id) {
      AgreeAt(s, m, id);
    }
    AgreeAll(s');
    FlushQuietIds(s, s');
  }

  lemma FlushQuietIds(s: State, s': State)
    requires BookInv(s) && !s'.flush.Described? && !s'.flush.Named?
    requires s'.levels == s.levels && s'.manifest == s.manifest && s'.nextId == s.nextId && s'.jobs == s.jobs
    ensures IdsOk(s'.levels, s'.jobs, s'.flush, s'.manifest, s'.nextId)
  {
    hide LevelsOk, JobsOk, CrossOk, AgreeOk, PlaceOk, JobHolds, JobOuts, JobBuilds, NewId;
    assert forall id: nat :: Unused(s'.jobs, s'.flush, id) ==> Unused(s.jobs, s.flush, id);
  }
}
