// The manifest agrees with the levels: change sets always apply.
module LsmManifest {
  import opened Base
  import opened Tables
  import opened Changes
  import opened Lsm
  import opened LsmInv

  ghost predicate JobIs(s: State, w: nat, j: Job) {
    w < |s.jobs| && s.jobs[w] == Some(j)
  }

  lemma JobKnown(s: State, w: nat, j: Job)
    requires BookInv(s) && JobIs(s, w, j)
    ensures JobOk(s.levels, j) && RangesOk(j) && j.level + 1 < |s.levels|
  {
  }

  lemma Distinct2(s: State, v: nat, a: Job, w: nat, b: Job)
    requires BookInv(s) && JobIs(s, v, a) && JobIs(s, w, b) && v != w
    ensures Compatible(a, b) && Compatible(b, a)
  {
  }

  // ----- a table is the input of at most one job -----

  lemma TopTopApart(s: State, v: nat, a: Job, w: nat, b: Job, t: Table)
    requires BookInv(s) && JobIs(s, v, a) && JobIs(s, w, b) && v != w && a.level == b.level
    requires t in a.top
    ensures t !in b.top
  {
    hide LevelsOk, AgreeOk, PlaceOk, IdsOk, JobsOk, CrossOk, JobOk;
    JobKnown(s, v, a);
    JobKnown(s, w, b);
    Distinct2(s, v, a, w, b);
  }

  /** The table lies in the range the job claims in the next level. */
  ghost predicate InNext(a: Job, t: Table) {
    a.top != [] && (t in a.bot || (a.bot == [] && t in a.top))
  }

  lemma BotBotApart(s: State, v: nat, a: Job, w: nat, b: Job, t: Table)
    requires BookInv(s) && JobIs(s, v, a) && JobIs(s, w, b) && v != w && a.level == b.level
    requires t.smallest <= t.biggest && InNext(a, t)
    ensures !InNext(b, t)
  {
    hide LevelsOk, AgreeOk, PlaceOk, IdsOk, JobsOk, CrossOk, JobOk;
    JobKnown(s, v, a);
    JobKnown(s, w, b);
    Distinct2(s, v, a, w, b);
  }

  lemma BotTopApart(s: State, v: nat, a: Job, w: nat, b: Job, t: Table)
    requires BookInv(s) && JobIs(s, v, a) && JobIs(s, w, b) && b.level == a.level + 1
    requires t.smallest <= t.biggest
    ensures !(InNext(a, t) && t in b.top)
  {
    hide LevelsOk, AgreeOk, PlaceOk, IdsOk, JobsOk, CrossOk, JobOk;
    JobKnown(s, v, a);
    JobKnown(s, w, b);
    Distinct2(s, v, a, w, b);
  }

  /** t is an input of j taken from level l. */
  ghost predicate Input(j: Job, t: Table, l: nat) {
    (t in j.top && l == j.level) || (t in j.bot && l == j.level + 1)
  }

  lemma InputHere(s: State, w: nat, j: Job, t: Table, l: nat)
    requires BookInv(s) && JobIs(s, w, j) && Waiting(j) && Input(j, t, l)
    ensures l < |s.levels| && t in s.levels[l] && t.smallest <= t.biggest
  {
    JobKnown(s, w, j);
    TopHere(s, w, j);
  }

  lemma TopHere(s: State, w: nat, j: Job)
    requires BookInv(s) && JobIs(s, w, j) && j.phase != Removed
    ensures j.level < |s.levels| && forall t :: t in j.top ==> t in s.levels[j.level] && t.smallest <= t.biggest
  {
    hide AgreeOk, PlaceOk, IdsOk, CrossOk;
    JobKnown(s, w, j);
    if j.level == 0 {
      assert s.levels[0] == j.top + s.levels[0][|j.top|..];
    }
  }

  lemma SameId(levels: seq<seq<Table>>, l: nat, t: Table, u: Table)
    requires LevelsOk(levels) && l < |levels| && t in levels[l] && u in levels[l] && t.id == u.id
    ensures t == u
  {
    var i :| 0 <= i < |levels[l]| && levels[l][i] == t;
    var j :| 0 <= j < |levels[l]| && levels[l][j] == u;
  }

  /** The job half-way through a move that explains an id in two levels. */
  lemma Mover(s: State, a: nat, b: nat, t: Table, u: Table) returns (w: nat, j: Job)
    requires BookInv(s) && a < b < |s.levels| && t in s.levels[a] && u in s.levels[b] && t.id == u.id
    ensures b == a + 1 && t == u && JobIs(s, w, j) && Moving(s.jobs, w, a, t) && InNext(j, t) && j.level == a
    ensures j.phase == Installed && t in j.top
  {
    hide LevelsOk, AgreeOk, IdsOk, JobsOk, CrossOk;
    w :| Moving(s.jobs, w, a, t);
    j := s.jobs[w].value;
  }

  /** The id of an input of a waiting job occurs in one level only. */
  lemma OnlyHere(s: State, w: nat, j: Job, t: Table, l: nat, u: Table, m: nat)
    requires BookInv(s) && JobIs(s, w, j) && Waiting(j) && Input(j, t, l)
    requires m < |s.levels| && u in s.levels[m] && u.id == t.id
    ensures m == l && u == t
  {
    hide BookInv;
    InputHere(s, w, j, t, l);
    JobTops(s, w, j);
    if l < m {
      var v, a := Mover(s, l, m, t, u);
      if t in j.top && l == j.level { TopTopApart(s, w, j, v, a, t); } else { BotTopApart(s, w, j, v, a, t); }
    } else if m < l {
      var v, a := Mover(s, m, l, u, t);
      if t in j.top && l == j.level { BotTopApart(s, v, a, w, j, t); } else { BotBotApart(s, v, a, w, j, t); }
    } else {
      assert LevelsOk(s.levels) by { BookLevels(s); }
      SameId(s.levels, l, t, u);
    }
  }

  lemma BookLevels(s: State)
    requires BookInv(s)
    ensures LevelsOk(s.levels)
  {
  }

  /** A table of another job's input at the same level is a different one. */
  lemma InputApart(s: State, w: nat, j: Job, v: nat, a: Job, t: Table, l: nat)
    requires BookInv(s) && JobIs(s, w, j) && JobIs(s, v, a) && v != w && Waiting(j) && Input(j, t, l)
    ensures !Input(a, t, l)
  {
    hide BookInv;
    InputHere(s, w, j, t, l);
    JobTops(s, w, j);
    JobTops(s, v, a);
    if t in j.top && l == j.level {
      if t in a.top && l == a.level { TopTopApart(s, w, j, v, a, t); }
      if t in a.bot && l == a.level + 1 { BotTopApart(s, v, a, w, j, t); }
    } else {
      if t in a.top && l == a.level { BotTopApart(s, w, j, v, a, t); }
      if t in a.bot && l == a.level + 1 { BotBotApart(s, w, j, v, a, t); }
    }
  }

  lemma JobTops(s: State, w: nat, j: Job)
    requires BookInv(s) && JobIs(s, w, j)
    ensures j.top != []
  {
    JobKnown(s, w, j);
  }

  /** No other job is deleting an input of a waiting job. */
  lemma NotDying(s: State, w: nat, j: Job, t: Table, l: nat, v: nat)
    requires BookInv(s) && JobIs(s, w, j) && Waiting(j) && Input(j, t, l) && v != w
    ensures !JobDies(s.jobs, v, l, t.id)
  {
    hide BookInv;
    if JobDies(s.jobs, v, l, t.id) {
      var a := s.jobs[v].value;
      InputHere(s, w, j, t, l);
      TopHere(s, v, a);
      BookLevels(s);
      if a.level == l && t.id in Ids(a.top) {
        var u :| u in a.top && u.id == t.id;
        SameId(s.levels, l, t, u);
      } else {
        var u :| u in a.bot && u.id == t.id;
        InputHere(s, v, a, u, l);
        SameId(s.levels, l, t, u);
      }
      InputApart(s, w, j, v, a, t, l);
    }
  }

  /** Nor is any other half-step about to add its id to a level. */
  lemma NotPending(s: State, w: nat, j: Job, t: Table, l: nat, v: nat, m: nat)
    requires BookInv(s) && JobIs(s, w, j) && Waiting(j) && Input(j, t, l) && v != w
    ensures !JobPends(s.jobs, v, m, t.id) && !FlushPends(s.flush, m, t.id)
  {
    hide BookInv;
    InputHere(s, w, j, t, l);
    FlushIdNew(s, l, t);
    if JobPends(s.jobs, v, m, t.id) {
      var a := s.jobs[v].value;
      var o :| o in a.outs && o.id == t.id;
      if !a.IsMove() {
        MergeIdNew(s, v, o, l, t);
      } else {
        JobKnownOuts(s, v, a);
        TopHere(s, v, a);
        OnlyHere(s, w, j, t, l, o, a.level);
        InputApart(s, w, j, v, a, t, l);
      }
    }
  }

  lemma JobKnownOuts(s: State, w: nat, j: Job)
    requires BookInv(s) && JobIs(s, w, j) && j.phase == Logged
    ensures OutsOk(j)
  {
    JobKnown(s, w, j);
  }

  lemma MergeIdNew(s: State, v: nat, o: Table, l: nat, t: Table)
    requires BookInv(s) && JobHolds(s.jobs, v, o.id) && l < |s.levels| && t in s.levels[l]
    ensures o.id != t.id
  {
    hide LevelsOk, JobsOk, CrossOk, AgreeOk, PlaceOk;
    assert NewId(s.levels, o.id);
  }

  lemma FlushIdNew(s: State, l: nat, t: Table)
    requires BookInv(s) && l < |s.levels| && t in s.levels[l]
    ensures s.flush.Described? ==> s.flush.t.id != t.id
  {
    hide LevelsOk, JobsOk, CrossOk, AgreeOk, PlaceOk;
    if s.flush.Described? {
      assert FlushHolds(s.flush, s.flush.t.id);
      assert NewId(s.levels, s.flush.t.id);
    }
  }

  // ----- logging: the change set applies -----

  /** An input of a picked job is listed in the manifest at its level. */
  lemma InputListed(s: State, w: nat, j: Job, t: Table, l: nat)
    requires BookInv(s) && JobIs(s, w, j) && j.phase == Picked && Input(j, t, l)
    ensures t.id in s.manifest && s.manifest[t.id] == l
  {
    hide LevelsOk, JobsOk, CrossOk, PlaceOk, IdsOk, Input;
    InputHere(s, w, j, t, l);
    forall v ensures !JobDies(s.jobs, v, l, t.id) {
      if v != w { NotDying(s, w, j, t, l, v); }
    }
    assert Agree(s.levels, s.jobs, s.flush, s.manifest, l, t.id);
  }

  lemma InputDistinct(s: State, w: nat, j: Job)
    requires BookInv(s) && JobIs(s, w, j) && Waiting(j)
    ensures DistinctIds(j.top) && DistinctIds(j.bot)
  {
    hide AgreeOk, PlaceOk, IdsOk, CrossOk;
    JobKnown(s, w, j);
    SubDistinct(s.levels[j.level + 1], j.bot);
    if j.level == 0 {
      assert forall i :: 0 <= i < |j.top| ==> j.top[i] == s.levels[0][i];
    }
  }

  lemma SubDistinct(ts: seq<Table>, bot: seq<Table>)
    requires DistinctIds(ts) && SortedDisjoint(bot) && forall t :: t in bot ==> t in ts
    ensures DistinctIds(bot)
  {
    forall i, j | 0 <= i < j < |bot| ensures bot[i].id != bot[j].id {
      assert bot[i] in bot && bot[j] in bot;
      var m :| 0 <= m < |ts| && ts[m] == bot[i];
      var n :| 0 <= n < |ts| && ts[n] == bot[j];
    }
  }

  lemma MergeLogApplies(s: State, w: nat, j: Job, outs: seq<Table>)
    requires BookInv(s) && JobIs(s, w, j) && j.phase == Picked && BuildOk(j, outs) && !j.IsMove()
    ensures var r := ApplyAll(s.manifest, Creates(outs, j.level + 1) + Deletes(j.top) + Deletes(j.bot));
            r.Some? && Moved(s.manifest, outs, j.top, j.bot, j.level + 1, r.value)
  {
    hide BookInv, IsOutput, Input, ApplyAll, Moved, DistinctIds;
    forall t | t in j.top ensures t.id in s.manifest && s.manifest[t.id] == j.level {
      assert Input(j, t, j.level) by { InputTop(j, t); }
      InputListed(s, w, j, t, j.level);
    }
    forall t | t in j.bot ensures t.id in s.manifest && s.manifest[t.id] == j.level + 1 {
      assert Input(j, t, j.level + 1) by { InputBot(j, t); }
      InputListed(s, w, j, t, j.level + 1);
    }
    InputDistinct(s, w, j);
    forall t | t in outs ensures t.id !in s.manifest { BuildingNew(s, w, j, t.id); }
    MergeApplies(s.manifest, outs, j.top, j.bot, j.level);
  }

  lemma InputTop(j: Job, t: Table)
    requires t in j.top
    ensures Input(j, t, j.level)
  {
  }

  lemma InputBot(j: Job, t: Table)
    requires t in j.bot
    ensures Input(j, t, j.level + 1)
  {
  }

  /** Change sets built by moves and merges always apply without error. */
  lemma LogApplies(s: State, w: nat, j: Job, outs: seq<Table>)
    requires BookInv(s) && JobIs(s, w, j) && j.phase == Picked && BuildOk(j, outs) && j.top != []
    ensures var r := ApplyAll(s.manifest, ChangeSet(j, outs));
            r.Some? && Moved(s.manifest, outs, j.top, j.bot, j.level + 1, r.value)
  {
    hide BookInv, IsOutput, ApplyAll, Moved, JobOk;
    if j.IsMove() {
      JobKnown(s, w, j);
      assert j.top == [j.top[0]] && j.bot == [];
      InputListed(s, w, j, j.top[0], j.level);
      MoveApplies(s.manifest, j.top[0], j.level);
    } else {
      MergeLogApplies(s, w, j, outs);
    }
  }

  /** An id reserved by a build is nowhere else: not in the manifest, not in the levels, and not held by the
      flusher or another job. */
  lemma BuildingNew(s: State, w: nat, j: Job, id: nat)
    requires BookInv(s) && JobIs(s, w, j) && j.phase == Picked && id in j.ids
    ensures id < s.nextId && id !in s.manifest && NewId(s.levels, id) && !FlushHolds(s.flush, id)
    ensures forall v: nat :: v != w ==> !JobHolds(s.jobs, v, id)
    ensures forall v: nat :: !JobOuts(s.jobs, v, id)
  {
    hide LevelsOk, JobsOk, CrossOk, AgreeOk, PlaceOk, NewId, JobOuts, FlushHolds;
    assert JobHolds(s.jobs, w, id);
    assert JobBuilds(s.jobs, w, id);
    assert Unused(s.jobs, s.flush, id);
  }
}
