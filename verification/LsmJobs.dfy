// Geometry of parallel compactions.
module LsmJobs {
  // Footprints of waiting jobs never meet, a job's replace_tables evicts exactly its bottom input, and no
  // half-step disturbs the input of another job.

  import opened Base
  import opened Tables
  import opened Compaction
  import opened Lsm
  import opened LsmInv

  /** What the invariant says of the input of a job. */
  lemma JobShape(levels: seq<seq<Table>>, j: Job)
    requires LevelsOk(levels) && JobOk(levels, j)
    ensures j.level + 1 < |levels| && RangesOk(j) && (j.phase != Removed ==> TopIn(levels, j))
            && forall t :: t in j.top ==> GoodTable(t)
    ensures LevelOk(levels[j.level + 1]) && forall t :: t in levels[j.level + 1] ==> GoodTable(t)
    ensures Waiting(j) ==> forall t :: t in j.bot ==> t in levels[j.level + 1]
  {
  }

  // ----- footprints -----

  /** All tables of the next level that meet the footprint were picked: the footprint is covered by the
      top range and by bottom tables that meet it. */
  lemma PickedAll(ts: seq<Table>, j: Job, t: Table)
    requires SortedDisjoint(ts) && j.top != []
    requires forall u :: u in j.bot <==> u in ts && Meets(u, Lo(j.top), Hi(j.top))
    requires t in ts && Meets(t, j.FootLo(), j.FootHi())
    ensures t in j.bot
  {
    if j.bot != [] {
      var lo := LoAttained(j.bot);
      var hi := HiAttained(j.bot);
      if t.biggest < Lo(j.top) {
        SameTable(ts, t, lo, t.biggest);
      } else if Hi(j.top) < t.smallest {
        SameTable(ts, t, hi, t.smallest);
      }
    }
  }

  /** Within a job the bottom range lies in the footprint. */
  lemma BotInFoot(j: Job, t: Table)
    requires RangesOk(j) && t in j.bot
    ensures j.FootLo() <= t.smallest && t.biggest <= j.FootHi()
    ensures j.nextRange.left <= t.smallest && t.biggest <= j.nextRange.right && !j.nextRange.inf
  {
  }

  /** Waiting jobs of one level have disjoint footprints in the next. */
  lemma FootApart(levels: seq<seq<Table>>, a: Job, b: Job)
    requires LevelsOk(levels) && JobOk(levels, a) && JobOk(levels, b)
    requires a.level == b.level && Waiting(a) && Waiting(b) && Compatible(a, b)
    ensures a.FootHi() < b.FootLo() || b.FootHi() < a.FootLo()
  {
    hide LevelsOk, JobOk;
    FootKnown(levels, a);
    FootKnown(levels, b);
    if Hi(a.top) < Lo(b.top) {
      FootOrder(levels[a.level + 1], a, b);
    } else {
      TopsApart(a, b);
      FootOrder(levels[a.level + 1], b, a);
    }
  }

  /** What the invariant says of the footprint of a waiting job. */
  lemma FootKnown(levels: seq<seq<Table>>, j: Job)
    requires LevelsOk(levels) && JobOk(levels, j) && Waiting(j)
    ensures j.level + 1 < |levels| && SortedDisjoint(levels[j.level + 1]) && RangesOk(j)
    ensures forall t :: t in j.bot ==> t in levels[j.level + 1]
    ensures forall t :: t in levels[j.level + 1] && Meets(t, j.FootLo(), j.FootHi()) ==> t in j.bot
  {
  }

  lemma TopsApart(a: Job, b: Job)
    requires RangesOk(a) && RangesOk(b) && a.level == b.level && Compatible(a, b) && Hi(a.top) >= Lo(b.top)
    ensures Hi(b.top) < Lo(a.top)
  {
  }

  lemma FootOrder(ts: seq<Table>, a: Job, b: Job)
    requires SortedDisjoint(ts) && RangesOk(a) && RangesOk(b)
    requires forall t :: t in a.bot ==> t in ts
    requires forall t :: t in b.bot ==> t in ts
    requires forall t :: t in ts && Meets(t, a.FootLo(), a.FootHi()) ==> t in a.bot
    requires forall t :: t in ts && Meets(t, b.FootLo(), b.FootHi()) ==> t in b.bot
    requires !Overlaps(a.nextRange, b.nextRange)
    requires Hi(a.top) < Lo(b.top)
    ensures a.FootHi() < b.FootLo()
  {
    assert a.top[0] in a.top && b.top[0] in b.top;
    if a.bot != [] {
      var hi := HiAttained(a.bot);
      BotInFoot(a, hi);
    }
    if b.bot != [] {
      var lo := LoAttained(b.bot);
      BotInFoot(b, lo);
    }
  }

  /** The input of a job one level down never meets the footprint of a waiting job. */
  lemma TopOffFoot(levels: seq<seq<Table>>, a: Job, b: Job)
    requires LevelsOk(levels) && JobOk(levels, a) && RangesOk(b)
    requires b.level == a.level + 1 && Waiting(a) && TopIn(levels, b) && Compatible(a, b)
    ensures !Meets(b.top[0], a.FootLo(), a.FootHi())
  {
    if Meets(b.top[0], a.FootLo(), a.FootHi()) {
      BotInFoot(a, b.top[0]);
    }
  }

  // ----- the output -----

  /** Every output table lies inside the footprint. */
  lemma OutInFoot(levels: seq<seq<Table>>, j: Job, t: Table)
    requires LevelsOk(levels) && JobOk(levels, j) && j.phase == Logged && t in j.outs
    ensures j.FootLo() <= t.smallest && t.biggest <= j.FootHi() && ExactTable(t)
  {
    if j.IsMove() {
      assert t == j.top[0];
    } else {
      KeyInFoot(levels, j, t, t.smallest);
      KeyInFoot(levels, j, t, t.biggest);
    }
  }

  lemma KeyInFoot(levels: seq<seq<Table>>, j: Job, t: Table, k: Key)
    requires LevelsOk(levels) && JobOk(levels, j) && j.phase == Logged && !j.IsMove() && t in j.outs && k in t.kvs
    ensures j.FootLo() <= k <= j.FootHi()
  {
    DisjointGet(j.outs, t, k);
    if LevelGet(j.top, k).Some? {
      var u := Holder(j.top, k);
    } else {
      var u := Holder(j.bot, k);
      BotInFoot(j, u);
    }
  }

  /** Every bottom table lies inside the range of the output. */
  lemma BotInOut(levels: seq<seq<Table>>, j: Job, t: Table)
    requires LevelsOk(levels) && JobOk(levels, j) && j.phase == Logged && t in j.bot
    ensures j.outs != [] && SortedDisjoint(j.outs)
    ensures j.outs[0].smallest <= t.smallest && t.biggest <= j.outs[|j.outs| - 1].biggest
  {
    KeyInOut(levels, j, t, t.smallest);
    KeyInOut(levels, j, t, t.biggest);
  }

  lemma KeyInOut(levels: seq<seq<Table>>, j: Job, t: Table, k: Key)
    requires LevelsOk(levels) && JobOk(levels, j) && j.phase == Logged && t in j.bot && k in t.kvs
    ensures j.outs != [] && SortedDisjoint(j.outs)
    ensures j.outs[0].smallest <= k <= j.outs[|j.outs| - 1].biggest
  {
    Answers(j.bot, t, k);
    var u := Holder(j.outs, k);
    var i :| 0 <= i < |j.outs| && j.outs[i] == u;
    FreshInside(j.outs, i);
  }

  /** r is level ts, in shape, with the tables of outs in the place of those of bot. */
  ghost predicate Exchanged(ts: seq<Table>, bot: seq<Table>, outs: seq<Table>, r: seq<Table>) {
    SortedDisjoint(r) && forall t :: t in r <==> t in outs || (t in ts && t !in bot)
  }

  lemma NextLevel(levels: seq<seq<Table>>, j: Job)
    requires LevelsOk(levels) && JobOk(levels, j) && j.phase == Logged
    ensures j.level + 1 < |levels| && SortedDisjoint(levels[j.level + 1])
    ensures forall t :: t in j.bot ==> t in levels[j.level + 1]
  {
  }

  /** replace_tables evicts exactly the bottom input of the job, and the level stays in shape. */
  lemma ReplaceExchanges(levels: seq<seq<Table>>, j: Job)
    requires LevelsOk(levels) && JobOk(levels, j) && j.phase == Logged
    requires j.outs != [] && forall t :: t in j.bot ==> t.biggest != j.outs[0].smallest
    ensures Exchanged(levels[j.level + 1], j.bot, j.outs, Replaced(levels[j.level + 1], j.outs))
  {
    hide LevelsOk, JobOk, SortedDisjoint, Replaced, Meets;
    NextLevel(levels, j);
    EvictsBot(levels, j);
    ReplacedSorted(levels[j.level + 1], j.outs);
  }

  /** The next level after the exchange. */
  lemma InstallSet(levels: seq<seq<Table>>, j: Job, r: seq<Table>)
    requires LevelsOk(levels) && JobOk(levels, j) && j.phase == Logged
    requires Exchanged(levels[j.level + 1], j.bot, j.outs, r)
    ensures SortedDisjoint(r) && forall t :: t in r ==> ExactTable(t)
    ensures forall t :: t in r <==> t in j.outs || (t in levels[j.level + 1] && t !in j.bot)
  {
    hide LevelsOk, JobOk, SortedDisjoint, ExactTable;
    JobShape(levels, j);
    forall t | t in j.outs ensures ExactTable(t) { OutInFoot(levels, j, t); }
  }

  lemma OutsShape(j: Job)
    requires OutsOk(j) && RangesOk(j) && j.outs != []
    ensures SortedDisjoint(j.outs)
  {
  }

  /** Exactly the bottom tables meet the range of the output. */
  lemma EvictsBot(levels: seq<seq<Table>>, j: Job)
    requires LevelsOk(levels) && JobOk(levels, j) && j.phase == Logged && j.outs != []
    ensures SortedDisjoint(j.outs)
    ensures forall t :: t in levels[j.level + 1] ==>
              (Meets(t, j.outs[0].smallest, j.outs[|j.outs| - 1].biggest) <==> t in j.bot)
    ensures forall t :: t in levels[j.level + 1] && t.biggest == j.outs[0].smallest ==> t in j.bot
  {
    OutsShape(j);
    OutInFoot(levels, j, j.outs[0]);
    OutInFoot(levels, j, j.outs[|j.outs| - 1]);
    FreshInside(j.outs, |j.outs| - 1);
    forall t | t in levels[j.level + 1]
      ensures Meets(t, j.outs[0].smallest, j.outs[|j.outs| - 1].biggest) <==> t in j.bot
    {
      if t in j.bot { BotInOut(levels, j, t); }
    }
  }
}
