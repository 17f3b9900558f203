// No half-step of one compaction disturbs another: the job part of the invariant. For a job and a step of
// some other worker the lemmas say that the job's top and bottom tables are still in place, that its range is
// still clear of the other footprints, and that what lies deeper is still older.
module LsmParallel {
  import opened Base
  import opened Tables
  import opened Lsm
  import opened LsmInv
  import opened LsmJobs
  import opened LsmDepth

  // ----- another job installs -----

  /** The input of a job stays in its level when another job installs. */
  lemma TopInAfterInstall(levels: seq<seq<Table>>, a: Job, b: Job, levels': seq<seq<Table>>)
    requires Installing(levels, a, levels') && JobOk(levels, b) && b.phase != Removed && Compatible(a, b)
    ensures TopIn(levels', b)
  {
    hide LevelsOk, JobOk, DepthOk, AgeOk, Replaced, OutsOk, Compatible, SortedDisjoint, ExactTable;
    JobShape(levels, b);
    if b.level == a.level + 1 {
      JobShape(levels, a);
      WaitsLogged(levels, a);
      TopOffFoot(levels, a, b);
      InstallSet(levels, a, levels'[a.level + 1]);
      OutsideFoot(a, b.top[0]);
    }
  }

  lemma OutsideFoot(a: Job, t: Table)
    requires RangesOk(a) && !Meets(t, a.FootLo(), a.FootHi())
    ensures t !in a.bot
  {
    if t in a.bot { BotInFoot(a, t); }
  }

  lemma WaitingBot(levels: seq<seq<Table>>, j: Job)
    requires JobOk(levels, j) && Waiting(j)
    ensures BotIn(levels, j) && j.top != []
  {
  }

  lemma WaitsLogged(levels: seq<seq<Table>>, j: Job)
    requires JobOk(levels, j) && j.phase == Logged
    ensures Waiting(j) && j.top != []
  {
  }

  /** So does the exact match of footprint and bottom input. */
  lemma BotInAfterInstall(levels: seq<seq<Table>>, a: Job, b: Job, levels': seq<seq<Table>>)
    requires Installing(levels, a, levels') && JobOk(levels, b) && Waiting(b) && Compatible(a, b)
    ensures BotIn(levels', b)
  {
    hide LevelsOk, JobOk, RangesOk, DepthOk, AgeOk, Replaced, OutsOk, Compatible, SortedDisjoint, ExactTable;
    JobShape(levels, b);
    WaitingBot(levels, b);
    if b.level == a.level {
      WaitsLogged(levels, a);
      FootApart(levels, a, b);
      InstallSet(levels, a, levels'[a.level + 1]);
      SwapKeepsBot(levels[b.level + 1], levels'[b.level + 1], a, b, levels);
    }
  }

  lemma SwapKeepsBot(ts: seq<Table>, r: seq<Table>, a: Job, b: Job, levels: seq<seq<Table>>)
    requires a.top != [] && b.top != [] && a.level + 1 < |levels| && ts == levels[a.level + 1]
    requires LevelsOk(levels) && JobOk(levels, a) && a.phase == Logged && RangesOk(b)
    requires a.FootHi() < b.FootLo() || b.FootHi() < a.FootLo()
    requires forall t :: t in r <==> t in a.outs || (t in ts && t !in a.bot)
    requires forall t :: t in b.bot ==> t in ts
    requires forall t :: t in ts && Meets(t, b.FootLo(), b.FootHi()) ==> t in b.bot
    ensures forall t :: t in b.bot ==> t in r
    ensures forall t :: t in r && Meets(t, b.FootLo(), b.FootHi()) ==> t in b.bot
  {
    forall t | t in b.bot ensures t in r {
      BotInFoot(b, t);
      JobShape(levels, a);
      assert t.smallest <= t.biggest;
      if t in a.bot { BotInFoot(a, t); }
    }
    forall t | t in r && Meets(t, b.FootLo(), b.FootHi()) ensures t in b.bot {
      if t in a.outs { OutInFoot(levels, a, t); }
    }
  }

  lemma DeepAfterInstall(levels: seq<seq<Table>>, a: Job, b: Job, levels': seq<seq<Table>>, k: Key)
    requires Installing(levels, a, levels') && Compatible(a, b) && RangesOk(a) && RangesOk(b)
    ensures DeepVer(levels', b.level + 1, k) >= DeepVer(levels, b.level + 1, k)
    ensures b.level == 0 ==> DeepVer(levels', 1, k) == DeepVer(levels, 1, k)
  {
    hide LevelsOk, DepthOk, AgeOk, JobOk, Replaced, LevelGet, DeepVer, OutsOk;
    InstallSinks(levels, a, levels', k);
    SinkDeep(levels, a.level, a.top, levels', b.level + 1, k);
  }

  lemma OtherAfterInstall(levels: seq<seq<Table>>, a: Job, b: Job, levels': seq<seq<Table>>)
    requires Installing(levels, a, levels') && JobOk(levels, b) && Compatible(a, b)
    ensures JobOk(levels', b)
  {
    hide LevelsOk, DepthOk, AgeOk, Replaced, LevelGet, LevelVer, DeepVer, OutsOk, TopIn, BotIn, RangesOk, Compatible,
         Installing;
    assert RangesOk(a) && |levels'| == |levels| by { InstallShape(levels, a, levels'); }
    if b.phase != Removed { TopInAfterInstall(levels, a, b, levels'); }
    if Waiting(b) { BotInAfterInstall(levels, a, b, levels'); }
    var n := b.level + 1;
    forall k
      ensures DeepVer(levels', n, k) >= DeepVer(levels, n, k)
      ensures b.level == 0 ==> DeepVer(levels', n, k) == DeepVer(levels, n, k)
    {
      DeepAfterInstall(levels, a, b, levels', k);
    }
  }

  lemma InstallShape(levels: seq<seq<Table>>, a: Job, levels': seq<seq<Table>>)
    requires Installing(levels, a, levels')
    ensures RangesOk(a) && |levels'| == |levels|
  {
  }

  lemma SelfAfterInstall(levels: seq<seq<Table>>, a: Job, levels': seq<seq<Table>>)
    requires Installing(levels, a, levels')
    ensures JobOk(levels', a.(phase := Installed))
  {
    hide LevelsOk, DepthOk, AgeOk, Replaced, LevelGet, DeepVer, OutsOk;
    InstallShape(levels, a, levels');
    forall k ensures LevelVer(a.top, k) <= DeepVer(levels', a.level + 1, k) {
      InstallSinks(levels, a, levels', k);
      SinkDeep(levels, a.level, a.top, levels', a.level + 1, k);
    }
  }

  // ----- another job removes -----

  lemma OtherAfterRemove(levels: seq<seq<Table>>, a: Job, b: Job, levels': seq<seq<Table>>)
    requires Removing(levels, a, levels') && JobOk(levels, b) && Compatible(a, b) && Compatible(b, a)
    ensures JobOk(levels', b)
  {
    hide LevelsOk, DepthOk, AgeOk, Without, LevelGet, LevelVer, DeepVer, OutsOk, TopIn, BotIn, RangesOk, Compatible,
         Removing;
    assert |levels'| == |levels| by { RemoveShape(levels, a, levels'); }
    if b.phase != Removed { TopInAfterRemove(levels, a, b, levels'); }
    if Waiting(b) { BotInAfterRemove(levels, a, b, levels'); }
    var n := b.level + 1;
    forall k ensures DeepVer(levels', n, k) == DeepVer(levels, n, k) {
      RemoveFades(levels, a, levels', k);
      FadeDeep(levels, a.level, levels', b.level + 1, k);
    }
  }

  lemma RemoveShape(levels: seq<seq<Table>>, a: Job, levels': seq<seq<Table>>)
    requires Removing(levels, a, levels')
    ensures |levels'| == |levels| && RangesOk(a) && TopIn(levels, a)
  {
  }

  lemma TopInAfterRemove(levels: seq<seq<Table>>, a: Job, b: Job, levels': seq<seq<Table>>)
    requires Removing(levels, a, levels') && JobOk(levels, b) && b.phase != Removed && Compatible(a, b)
    ensures TopIn(levels', b)
  {
    hide DepthOk, AgeOk, Without, OutsOk;
    if b.level == a.level && b.level > 0 {
      RemoveSet(levels, a, levels');
      assert b.top[0] in b.top && a.top[0] in a.top;
    }
  }

  lemma BotInAfterRemove(levels: seq<seq<Table>>, a: Job, b: Job, levels': seq<seq<Table>>)
    requires Removing(levels, a, levels') && JobOk(levels, b) && Waiting(b) && Compatible(b, a)
    ensures BotIn(levels', b)
  {
    hide DepthOk, AgeOk, Without, OutsOk, TopIn, TopFresh, Covered, LevelVer, DeepVer;
    if b.level + 1 == a.level {
      RemoveSet(levels, a, levels');
      TopOffFoot(levels, b, a);
      forall t | t in b.bot ensures t in levels'[a.level] { BotInFoot(b, t); }
    }
  }

  // ----- a table is added to level 0 -----

  lemma OtherAfterAdd(levels: seq<seq<Table>>, t: Table, b: Job, levels': seq<seq<Table>>)
    requires Adding(levels, t, levels') && JobOk(levels, b)
    ensures JobOk(levels', b)
  {
    hide LevelGet, DeepVer, OutsOk, LevelVer, DepthOk, AgeOk;
    var n := b.level + 1;
    forall k ensures DeepVer(levels', n, k) == DeepVer(levels, n, k) {
      AddDeep(levels, t, levels', b.level + 1, k);
    }
  }

  // ----- picking and logging -----

  /** What fill_tables settles on meets the job invariant. */
  lemma PickedJob(levels: seq<seq<Table>>, j: Job)
    requires LevelsOk(levels) && DepthOk(levels) && PickOk(levels, j)
    ensures JobOk(levels, j)
  {
    hide DepthAt, LevelGet, LevelVer, DeepVer;
    assert forall t :: t in j.top ==> GoodTable(t);
    forall t | t in levels[j.level + 1] && Meets(t, j.FootLo(), j.FootHi()) ensures t in j.bot {
      PickedAll(levels[j.level + 1], j, t);
    }
    if j.level == 0 { PickedFresh(levels, j); }
  }

  lemma PickedFresh(levels: seq<seq<Table>>, j: Job)
    requires LevelsOk(levels) && DepthOk(levels) && j.top == levels[0] && j.level == 0
    ensures TopFresh(levels, j)
  {
    forall k ensures LevelVer(j.top, k) > 0 ==> LevelVer(j.top, k) >= DeepVer(levels, 1, k) {
      assert DepthAt(levels, 0, k);
    }
  }

  lemma LoggedJob(levels: seq<seq<Table>>, j: Job, outs: seq<Table>)
    requires JobOk(levels, j) && j.phase == Picked && BuildOk(j, outs)
    ensures JobOk(levels, j.(outs := outs, phase := Logged))
  {
    hide LevelGet, LevelVer, DeepVer, IsOutput;
  }
}
