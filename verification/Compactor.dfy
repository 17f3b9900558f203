// Choosing a compaction, updated in place.
module Compactor {
  // The compaction status (compaction.rs) and fill_tables (levels.rs) refine the Pick step of the store.

  import opened Base
  import opened Tables
  import opened Compaction
  import opened Lsm
  import opened LevelHandler

  const U64_SIZE := 0x1_0000_0000_0000_0000

  /** `get_total_size() - get_del_size()` on u64. */
  function Remaining(total: nat, del: nat): nat { (total - del) % U64_SIZE }

  /** It is the difference while the tables being compacted are part of the level, and wraps when they are not. */
  lemma RemainingIs(total: nat, del: nat)
    requires total <= U64_MAX && del <= U64_MAX
    ensures del <= total ==> Remaining(total, del) == total - del
    ensures del > total ==> Remaining(total, del) == U64_MAX + 1 - (del - total)
  {
    if del > total {
      assert total - del == -1 * U64_SIZE + (U64_SIZE - (del - total));
    }
  }

  /** KeyRange::get_range: the hull of a non-empty list of tables. */
  method GetRange(ts: seq<Table>) returns (r: KeyRange)
    requires ts != []
    ensures !r.inf && r.left == Lo(ts) && r.right == Hi(ts)
    ensures forall t :: t in ts ==> r.left <= t.smallest && t.biggest <= r.right
    ensures exists t, u :: t in ts && u in ts && r.left == t.smallest && r.right == u.biggest
  {
    var smallest, biggest := ts[0].smallest, ts[0].biggest;
    ghost var a, b := ts[0], ts[0];
    for i := 1 to |ts|
      invariant a in ts && b in ts && smallest == a.smallest && biggest == b.biggest
      invariant forall n :: 0 <= n < i ==> smallest <= ts[n].smallest && ts[n].biggest <= biggest
    {
      if ts[i].smallest < smallest { smallest := ts[i].smallest; a := ts[i]; }
      if ts[i].biggest > biggest { biggest := ts[i].biggest; b := ts[i]; }
    }
    r := KeyRange(smallest, biggest, false);
    var lo := LoAttained(ts);
    var hi := HiAttained(ts);
  }

  class CompactStatus {
    var levels: seq<LevelStatus>

    constructor (n: nat)
      ensures |levels| == n && forall l :: 0 <= l < n ==> levels[l] == LevelStatus([], 0)
    {
      levels := seq(n, _ => LevelStatus([], 0));
    }

    method OverlapsWith(level: nat, r: KeyRange) returns (overlaps: bool)
      requires level < |levels|
      ensures overlaps == AnyOverlap(levels[level].ranges, r)
    {
      var ranges := levels[level].ranges;
      for i := 0 to |ranges|
        invariant forall n :: 0 <= n < i ==> !Overlaps(ranges[n], r)
      {
        if Overlaps(ranges[i], r) { return true; }
      }
      return false;
    }

    /** Registers the compaction when neither range overlaps a registered one and the level, counted
        without the tables already being compacted, is over its size. */
    method CompareAndAdd(level: nat, here: KeyRange, next: KeyRange, size: nat, total: nat, max: nat) returns (ok: bool)
      requires level + 1 < |levels|
      modifies this
      ensures ok ==> !AnyOverlap(old(levels)[level].ranges, here) && !AnyOverlap(old(levels)[level + 1].ranges, next)
      ensures !AnyOverlap(old(levels)[level].ranges, here) && !AnyOverlap(old(levels)[level + 1].ranges, next) ==>
                (ok <==> Remaining(total, old(levels)[level].delSize) >= max)
      ensures ok && old(levels)[level].delSize <= total <= U64_MAX ==> total - old(levels)[level].delSize >= max
      ensures levels == if ok then Register(old(levels), level, here, next, size) else old(levels)
    {
      if total <= U64_MAX && levels[level].delSize <= total { RemainingIs(total, levels[level].delSize); }
      var overlaps := OverlapsWith(level, here);
      if overlaps { return false; }
      overlaps := OverlapsWith(level + 1, next);
      if overlaps { return false; }
      if Remaining(total, levels[level].delSize) < max { return false; }
      levels := levels[level := levels[level].(ranges := levels[level].ranges + [here])];
      levels := levels[level + 1 := levels[level + 1].(ranges := levels[level + 1].ranges + [next])];
      levels := levels[level := levels[level].(delSize := levels[level].delSize + size)];
      return true;
    }

    /** Takes a compaction off the list; found tells whether both ranges were there. */
    method Delete(level: nat, here: KeyRange, next: KeyRange, size: nat) returns (found: bool)
      requires level + 1 < |levels| && size <= levels[level].delSize
      modifies this
      ensures levels == Compaction.Unregister(old(levels), level, here, next, size)
      ensures found == (&& |levels[level].ranges| < |old(levels)[level].ranges|
                        && |levels[level + 1].ranges| < |old(levels)[level + 1].ranges|)
    {
      var before, below := |levels[level].ranges|, |levels[level + 1].ranges|;
      var kept := RetainLoop(levels[level].ranges, here);
      var keptBelow := RetainLoop(levels[level + 1].ranges, next);
      levels := levels[level := LevelStatus(kept, levels[level].delSize - size)]
      [level + 1 := LevelStatus(keptBelow, levels[level + 1].delSize)];
      found := before > |kept| && below > |keptBelow|;
    }
  }

  method RetainLoop(ranges: seq<KeyRange>, r: KeyRange) returns (kept: seq<KeyRange>)
    ensures kept == Retain(ranges, r)
  {
    kept := [];
    for i := 0 to |ranges|
      invariant kept == Retain(ranges[..i], r)
    {
      assert ranges[..i + 1][..i] == ranges[..i];
      if !RangeEquals(ranges[i], r) { kept := kept + [ranges[i]]; }
    }
    assert ranges[..|ranges|] == ranges;
  }

  // ----- filling a compaction -----

  /** The tables of a level that meet a range, in order. */
  function Meeting(ts: seq<Table>, lo: Key, hi: Key): (r: seq<Table>)
    ensures forall t :: t in r <==> t in ts && Meets(t, lo, hi)
  {
    if ts == [] then []
    else
      var rest := Meeting(ts[..|ts| - 1], lo, hi);
      var last := ts[|ts| - 1];
      assert ts == ts[..|ts| - 1] + [last];
      if Meets(last, lo, hi) then rest + [last] else rest
  }

  /** The compaction of the given top tables. */
  function Candidate(level: nat, top: seq<Table>, next: seq<Table>): Job
    requires top != []
  {
    var bot := Meeting(next, Lo(top), Hi(top));
    Job(level, top, bot,
        if level == 0 then INFO_RANGE else RangeOf(top),
        if bot == [] then RangeOf(top) else RangeOf(bot),
        if level == 0 then 0 else top[0].size, {}, [], Picked)
  }

  lemma {:induction false} MeetingSorted(ts: seq<Table>, lo: Key, hi: Key)
    requires SortedDisjoint(ts)
    ensures SortedDisjoint(Meeting(ts, lo, hi))
  {
    if ts != [] {
      FrontBefore(ts);
      MeetingSorted(ts[..|ts| - 1], lo, hi);
      SortedAppend(Meeting(ts[..|ts| - 1], lo, hi), ts[|ts| - 1]);
    }
  }

  /** Both fill functions settle on a compaction the store may pick. */
  lemma CandidatePickOk(levels: seq<seq<Table>>, level: nat, top: seq<Table>)
    requires level + 1 < |levels| && top != [] && SortedDisjoint(levels[level + 1])
    requires if level == 0 then top == levels[0] else |top| == 1 && top[0] in levels[level]
    ensures PickOk(levels, Candidate(level, top, levels[level + 1]))
  {
    MeetingSorted(levels[level + 1], Lo(top), Hi(top));
  }

  /** What overlapping_tables cuts out of the next level. */
  method BottomTables(next: seq<Table>, r: KeyRange) returns (bot: seq<Table>)
    requires SortedDisjoint(next) && r.left <= r.right
    ensures bot == Meeting(next, r.left, r.right)
  {
    var left, right := OverlappingTables(next, r);
    SliceIsOverlap(next, left, right, r.left, r.right);
    MeetingSorted(next, r.left, r.right);
    bot := next[left..right];
    SortedUnique(bot, Meeting(next, r.left, r.right));
  }

  /** fill_tables_l0: all of level 0 goes down. */
  method FillTablesL0(here: LevelHandler, next: LevelHandler, status: CompactStatus, max: nat)
    returns (job: Option<Job>)
    requires here.level == 0 && |status.levels| > 1
    requires SortedDisjoint(next.tables) && forall t :: t in here.tables ==> GoodTable(t)
    modifies status
    ensures job.Some? <==> here.tables != [] && var j := Candidate(0, here.tables, next.tables);
              && !AnyOverlap(old(status.levels)[0].ranges, j.thisRange)
              && !AnyOverlap(old(status.levels)[1].ranges, j.nextRange)
              && Remaining(here.totalSize, old(status.levels)[0].delSize) >= max
    ensures job.Some? ==> job.value == Candidate(0, here.tables, next.tables)
    ensures status.levels == if job.None? then old(status.levels) else
              Register(old(status.levels), 0, job.value.thisRange, job.value.nextRange, job.value.thisSize)
  {
    var top := here.tables;
    if top == [] { return None; }
    var kr := GetRange(top);
    assert kr.left <= kr.right by { assert top[0] in top; }
    var bot := BottomTables(next.tables, kr);
    var nextRange := kr;
    if bot != [] { nextRange := GetRange(bot); }
    var ok := status.CompareAndAdd(0, INFO_RANGE, nextRange, 0, here.totalSize, max);
    if !ok { return None; }
    return Some(Job(0, top, bot, INFO_RANGE, nextRange, 0, {}, [], Picked));
  }

  /** The compaction of t is refused: a range is taken, or the level is small enough already. */
  ghost predicate Refused(levels: seq<LevelStatus>, level: nat, t: Table, next: seq<Table>, total: nat, max: nat)
    requires level + 1 < |levels|
  {
    || AnyOverlap(levels[level].ranges, Candidate(level, [t], next).thisRange)
    || AnyOverlap(levels[level + 1].ranges, Candidate(level, [t], next).nextRange)
    || Remaining(total, levels[level].delSize) < max
  }

  /** Table i of the order is not refused, all before it are. */
  ghost predicate FirstAccepted(levels: seq<LevelStatus>, level: nat, order: seq<Table>, i: int, next: seq<Table>,
                                total: nat, max: nat)
    requires level + 1 < |levels|
  {
    && 0 <= i < |order| && !Refused(levels, level, order[i], next, total, max)
    && forall n :: 0 <= n < i ==> Refused(levels, level, order[n], next, total, max)
  }

  /** fill_tables: the first table, in the given order, whose compaction is not refused. */
  method FillTables(here: LevelHandler, next: LevelHandler, status: CompactStatus,
                    order: seq<Table>, max: nat) returns (job: Option<Job>)
    requires here.level > 0 && here.level + 1 < |status.levels|
    requires SortedDisjoint(next.tables) && forall t :: t in order ==> GoodTable(t)
    requires forall t :: t in order <==> t in here.tables
    modifies status
    ensures job.Some? ==> exists i ::
              && FirstAccepted(old(status.levels), here.level, order, i, next.tables, here.totalSize, max)
              && job.value == Candidate(here.level, [order[i]], next.tables)
    ensures status.levels == if job.None? then old(status.levels) else
              Register(old(status.levels), here.level, job.value.thisRange, job.value.nextRange, job.value.thisSize)
    ensures job.None? ==> forall t :: t in here.tables ==>
              Refused(old(status.levels), here.level, t, next.tables, here.totalSize, max)
  {
    var l := here.level;
    for i := 0 to |order|
      invariant status.levels == old(status.levels)
      invariant forall n :: 0 <= n < i ==> Refused(status.levels, l, order[n], next.tables, here.totalSize, max)
    {
      var t := order[i];
      assert t in order;
      var thisRange := KeyRange(t.smallest, t.biggest, false);
      var taken := status.OverlapsWith(l, thisRange);
      if taken { continue; }
      var bot := BottomTables(next.tables, thisRange);
      var nextRange := thisRange;
      if bot != [] {
        nextRange := GetRange(bot);
        taken := status.OverlapsWith(l + 1, nextRange);
        if taken { continue; }
      }
      assert Candidate(l, [t], next.tables) == Job(l, [t], bot, thisRange, nextRange, t.size, {}, [], Picked);
      var ok := status.CompareAndAdd(l, thisRange, nextRange, t.size, here.totalSize, max);
      if ok { return Some(Job(l, [t], bot, thisRange, nextRange, t.size, {}, [], Picked)); }
    }
    return None;
  }

  /** A filled compaction is exactly a Pick step of the store. */
  lemma FillIsPick(s: State, w: nat, level: nat, top: seq<Table>, s': State)
    requires w < |s.jobs| && s.jobs[w].None? && level + 1 < |s.levels| == |s.status|
    requires SortedDisjoint(s.levels[level + 1]) && top != []
    requires if level == 0 then top == s.levels[0] else |top| == 1 && top[0] in s.levels[level]
    requires var j := Candidate(level, top, s.levels[level + 1]);
             && !AnyOverlap(s.status[level].ranges, j.thisRange)
             && !AnyOverlap(s.status[level + 1].ranges, j.nextRange)
             && s' == s.(jobs := s.jobs[w := Some(j)],
                         status := Register(s.status, level, j.thisRange, j.nextRange, j.thisSize))
    ensures Step(s, Pick(w, Candidate(level, top, s.levels[level + 1])), s')
  {
    CandidatePickOk(s.levels, level, top);
  }
}
