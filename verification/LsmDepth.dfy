// How each half-step moves versions between levels: data only sinks, and never disappears. For every depth
// the lemmas follow what the levels from there on hold of a key, through installs, removals and additions to
// level 0, for the tables a step touches and for all the others.
module LsmDepth {
  import opened Base
  import opened Tables
  import opened Lsm
  import opened LsmInv
  import opened LsmJobs

  /** In an aged level the answer is the newest version held. */
  lemma {:induction false} AgeMax(ts: seq<Table>, t: Table, k: Key)
    requires AgeOk(ts) && t in ts && k in t.kvs
    ensures LevelVer(ts, k) >= t.kvs[k].casCounter
  {
    var last := ts[|ts| - 1];
    if k !in last.kvs {
      var front := ts[..|ts| - 1];
      assert ts == front + [last];
      AgeMax(front, t, k);
    }
  }

  lemma AgePrefix(a: seq<Table>, b: seq<Table>)
    requires AgeOk(a + b)
    ensures AgeOk(a) && AgeOk(b)
  {
    assert forall i :: 0 <= i < |a| ==> (a + b)[i] == a[i];
    assert forall i :: 0 <= i < |b| ==> (a + b)[|a| + i] == b[i];
  }

  /** The answer of a level for a key it holds has a positive version. */
  lemma LevelVerPositive(ts: seq<Table>, k: Key)
    requires forall t :: t in ts ==> GoodTable(t)
    ensures LevelVer(ts, k) > 0 <==> LevelGet(ts, k).Some?
  {
    if LevelGet(ts, k).Some? { var t := Holder(ts, k); }
  }

  /** The job's input is part of what its level answers. */
  lemma TopVer(levels: seq<seq<Table>>, j: Job, k: Key)
    requires LevelsOk(levels) && AgeOk(levels[0]) && RangesOk(j) && TopIn(levels, j)
    ensures LevelVer(j.top, k) <= LevelVer(levels[j.level], k)
    ensures j.level > 0 && LevelVer(j.top, k) > 0 ==> LevelGet(j.top, k) == LevelGet(levels[j.level], k)
  {
    if LevelGet(j.top, k).Some? {
      var t := Holder(j.top, k);
      if j.level == 0 {
        assert levels[0] == j.top + levels[0][|j.top|..];
        AgeMax(levels[0], t, k);
      } else {
        DisjointGet(levels[j.level], t, k);
      }
    }
  }

  lemma TopNotStale(levels: seq<seq<Table>>, j: Job, k: Key)
    requires LevelsOk(levels) && DepthOk(levels) && AgeOk(levels[0]) && JobOk(levels, j) && Waiting(j)
    ensures LevelVer(j.top, k) > 0 ==> LevelVer(j.top, k) >= DeepVer(levels, j.level + 1, k)
  {
    if j.level > 0 {
      TopVer(levels, j, k);
      assert DepthAt(levels, j.level, k);
    }
  }

  // ----- installing -----

  /** The output takes the place of the bottom input in the next level. */
  ghost predicate Installing(levels: seq<seq<Table>>, j: Job, levels': seq<seq<Table>>) {
    && j.level + 1 < |levels|
    && LevelsOk(levels) && DepthOk(levels) && AgeOk(levels[0]) && JobOk(levels, j) && j.phase == Logged
    && j.outs != [] && |levels'| == |levels| && levels' == levels[j.level + 1 := levels'[j.level + 1]]
    && Exchanged(levels[j.level + 1], j.bot, j.outs, levels'[j.level + 1])
  }

  /** A disjoint level ts whose part bot was replaced by the newest-wins merge outs of top and bot
      answers top first. */
  lemma MergedGet(ts: seq<Table>, r: seq<Table>, top: seq<Table>, bot: seq<Table>, outs: seq<Table>, k: Key)
    requires SortedDisjoint(ts) && (forall t :: t in ts ==> GoodTable(t))
    requires SortedDisjoint(r) && (forall t :: t in r ==> GoodTable(t))
    requires forall t :: t in r <==> t in outs || (t in ts && t !in bot)
    requires forall t :: t in bot ==> t in ts
    requires LevelGet(outs, k) == if LevelGet(top, k).Some? then LevelGet(top, k) else LevelGet(bot, k)
    ensures LevelGet(r, k) == if LevelGet(top, k).Some? then LevelGet(top, k) else LevelGet(ts, k)
  {
    if LevelGet(outs, k).Some? {
      var u := Holder(outs, k);
      DisjointGet(r, u, k);
      if LevelGet(top, k).None? {
        var b := Holder(bot, k);
        DisjointGet(ts, b, k);
      }
    } else if LevelGet(ts, k).Some? {
      var t := Holder(ts, k);
      if t in bot { Answers(bot, t, k); }
      DisjointGet(r, t, k);
    } else if LevelGet(r, k).Some? {
      var u := Holder(r, k);
      if u in outs { Answers(outs, u, k); } else { Answers(ts, u, k); }
    }
  }

  /** The effect of an install from level l on one key. */
  ghost predicate Sinks(levels: seq<seq<Table>>, l: nat, top: seq<Table>, levels': seq<seq<Table>>, k: Key) {
    && |levels'| == |levels| && l + 1 < |levels|
    && (forall i :: 0 <= i < |levels| && i != l + 1 ==> levels'[i] == levels[i])
    && LevelVer(levels'[l + 1], k) == (if LevelVer(top, k) > 0 then LevelVer(top, k) else LevelVer(levels[l + 1], k))
    && LevelVer(top, k) <= LevelVer(levels[l], k)
    && (LevelVer(top, k) > 0 ==> LevelVer(top, k) >= DeepVer(levels, l + 1, k))
  }

  lemma InstallSinks(levels: seq<seq<Table>>, j: Job, levels': seq<seq<Table>>, k: Key)
    requires Installing(levels, j, levels')
    ensures Sinks(levels, j.level, j.top, levels', k)
  {
    hide LevelsOk, DepthOk, AgeOk, JobOk, RangesOk, TopIn, GoodTable, Replaced, LevelGet, DeepVer;
    JobShape(levels, j);
    TopNotStale(levels, j, k);
    TopVer(levels, j, k);
    InstallGet(levels, j, levels', k);
    LevelVerPositive(j.top, k);
  }

  lemma OutsGet(j: Job, k: Key)
    requires OutsOk(j)
    ensures LevelGet(j.outs, k) == if LevelGet(j.top, k).Some? then LevelGet(j.top, k) else LevelGet(j.bot, k)
  {
  }

  lemma InstallGet(levels: seq<seq<Table>>, j: Job, levels': seq<seq<Table>>, k: Key)
    requires Installing(levels, j, levels')
    ensures LevelGet(levels'[j.level + 1], k) ==
              if LevelGet(j.top, k).Some? then LevelGet(j.top, k) else LevelGet(levels[j.level + 1], k)
  {
    JobShape(levels, j);
    InstallSet(levels, j, levels'[j.level + 1]);
    OutsGet(j, k);
    MergedGet(levels[j.level + 1], levels'[j.level + 1], j.top, j.bot, j.outs, k);
  }

  /** Sinking raises exactly the versions visible from the next level on; from every other depth on the
      newest version is unchanged. */
  lemma SinkDeep(levels: seq<seq<Table>>, l: nat, top: seq<Table>, levels': seq<seq<Table>>, i: nat, k: Key)
    requires Sinks(levels, l, top, levels', k)
    ensures DeepVer(levels', i, k) ==
              if i == l + 1 then Max(DeepVer(levels, i, k), LevelVer(top, k)) else DeepVer(levels, i, k)
  {
    DeepVerFrame(levels, levels', l + 2, k);
    if i > l + 1 {
      DeepVerFrame(levels, levels', i, k);
    } else if i <= l {
      DeepVerChange(levels, levels', l, i, k);
    }
  }

  lemma SinkDepth(levels: seq<seq<Table>>, l: nat, top: seq<Table>, levels': seq<seq<Table>>, i: nat, k: Key)
    requires Sinks(levels, l, top, levels', k) && i < |levels|
    requires DepthAt(levels, i, k)
    ensures DepthAt(levels', i, k)
  {
    SinkDeep(levels, l, top, levels', i + 1, k);
  }

  lemma InstallDepthOk(levels: seq<seq<Table>>, j: Job, levels': seq<seq<Table>>)
    requires Installing(levels, j, levels')
    ensures DepthOk(levels')
  {
    forall l, k | 0 <= l < |levels'| ensures DepthAt(levels', l, k) {
      assert DepthAt(levels, l, k);
      InstallSinks(levels, j, levels', k);
      SinkDepth(levels, j.level, j.top, levels', l, k);
    }
  }

  // ----- removing -----

  ghost predicate Removing(levels: seq<seq<Table>>, j: Job, levels': seq<seq<Table>>) {
    && j.level + 1 < |levels|
    && LevelsOk(levels) && DepthOk(levels) && AgeOk(levels[0]) && JobOk(levels, j) && j.phase == Installed
    && levels' == levels[j.level := Without(levels[j.level], Ids(j.top))]
  }

  /** Deleting by id leaves the newer part of level 0. */
  lemma RemoveSet0(levels: seq<seq<Table>>, j: Job, levels': seq<seq<Table>>)
    requires Removing(levels, j, levels') && j.level == 0
    ensures levels[0] == j.top + levels'[0]
  {
    hide DepthOk, AgeOk, RangesOk, BotIn, OutsOk, Covered, Without;
    var rest := levels[0][|j.top|..];
    assert levels[0] == j.top + rest;
    IdsDistinct(levels[0]);
    WithoutPrefix(j.top, rest);
  }

  lemma IdsDistinct(ts: seq<Table>)
    requires IdsAscend(ts)
    ensures DistinctIds(ts)
  {
  }

  /** In a disjoint level it leaves the other tables. */
  lemma RemoveSet(levels: seq<seq<Table>>, j: Job, levels': seq<seq<Table>>)
    requires Removing(levels, j, levels') && j.level > 0
    ensures forall t :: t in levels'[j.level] <==> t in levels[j.level] && t != j.top[0]
    ensures SortedDisjoint(levels'[j.level])
  {
    var ts := levels[j.level];
    OtherIds(ts, j.top[0]);
    assert j.top == [j.top[0]];
    assert Ids(j.top) == {j.top[0].id};
    WithoutSorted(ts, Ids(j.top));
  }

  lemma OtherIds(ts: seq<Table>, t: Table)
    requires DistinctIds(ts) && t in ts
    ensures forall u :: u in ts && u.id == t.id ==> u == t
  {
  }

  /** Taking one table out of a disjoint level hides exactly its keys. */
  lemma TakenOut(ts: seq<Table>, r: seq<Table>, t: Table, k: Key)
    requires SortedDisjoint(ts) && SortedDisjoint(r) && t in ts && (forall u :: u in ts ==> GoodTable(u))
    requires forall u :: u in r <==> u in ts && u != t
    ensures LevelGet(r, k) == if k in t.kvs then None else LevelGet(ts, k)
  {
    if k in t.kvs {
      if LevelGet(r, k).Some? {
        var u := Holder(r, k);
        SameTable(ts, t, u, k);
      }
    } else if LevelGet(ts, k).Some? {
      var u := Holder(ts, k);
      DisjointGet(r, u, k);
    } else if LevelGet(r, k).Some? {
      var u := Holder(r, k);
      Answers(ts, u, k);
    }
  }

  lemma RemoveVer(levels: seq<seq<Table>>, j: Job, levels': seq<seq<Table>>, k: Key)
    requires Removing(levels, j, levels')
    ensures || LevelVer(levels'[j.level], k) == LevelVer(levels[j.level], k)
            || (LevelVer(levels'[j.level], k) == 0 && LevelVer(levels[j.level], k) == LevelVer(j.top, k))
  {
    if j.level == 0 {
      RemoveSet0(levels, j, levels');
      LevelGetSplit(j.top, levels'[0], k);
    } else {
      RemoveSet(levels, j, levels');
      var t := j.top[0];
      TakenOut(levels[j.level], levels'[j.level], t, k);
      if k in t.kvs {
        DisjointGet(levels[j.level], t, k);
        assert j.top == [t];
      }
    }
  }

  /** The effect of a removal at level l on one key. */
  ghost predicate Fades(levels: seq<seq<Table>>, l: nat, levels': seq<seq<Table>>, k: Key) {
    && |levels'| == |levels| && l < |levels|
    && (forall i :: 0 <= i < |levels| && i != l ==> levels'[i] == levels[i])
    && (|| LevelVer(levels'[l], k) == LevelVer(levels[l], k)
        || (LevelVer(levels'[l], k) == 0 && LevelVer(levels[l], k) <= DeepVer(levels, l + 1, k)))
  }

  lemma RemoveFades(levels: seq<seq<Table>>, j: Job, levels': seq<seq<Table>>, k: Key)
    requires Removing(levels, j, levels')
    ensures Fades(levels, j.level, levels', k)
  {
    RemoveVer(levels, j, levels', k);
    assert LevelVer(j.top, k) <= DeepVer(levels, j.level + 1, k);
  }

  /** Removing the input changes no newest version from any depth on. */
  lemma FadeDeep(levels: seq<seq<Table>>, l: nat, levels': seq<seq<Table>>, i: nat, k: Key)
    requires Fades(levels, l, levels', k)
    ensures DeepVer(levels', i, k) == DeepVer(levels, i, k)
  {
    DeepVerFrame(levels, levels', l + 1, k);
    if i > l {
      DeepVerFrame(levels, levels', i, k);
    } else {
      DeepVerChange(levels, levels', l, i, k);
    }
  }

  lemma FadeDepth(levels: seq<seq<Table>>, l: nat, levels': seq<seq<Table>>, i: nat, k: Key)
    requires Fades(levels, l, levels', k) && i < |levels| && DepthAt(levels, i, k)
    ensures DepthAt(levels', i, k)
  {
    FadeDeep(levels, l, levels', i + 1, k);
  }

  lemma RemoveDepthOk(levels: seq<seq<Table>>, j: Job, levels': seq<seq<Table>>)
    requires Removing(levels, j, levels')
    ensures DepthOk(levels') && AgeOk(levels'[0])
  {
    forall l, k | 0 <= l < |levels'| ensures DepthAt(levels', l, k) {
      assert DepthAt(levels, l, k);
      RemoveFades(levels, j, levels', k);
      FadeDepth(levels, j.level, levels', l, k);
    }
    if j.level == 0 {
      RemoveSet0(levels, j, levels');
      AgePrefix(j.top, levels'[0]);
    }
  }

  // ----- adding to level 0 -----

  ghost predicate Adding(levels: seq<seq<Table>>, t: Table, levels': seq<seq<Table>>) {
    && LevelsOk(levels) && DepthOk(levels) && AgeOk(levels[0]) && GoodTable(t)
    && (forall k :: k in t.kvs ==> t.kvs[k].casCounter >= DeepVer(levels, 0, k))
    && levels' == levels[0 := levels[0] + [t]]
  }

  lemma AddDeep(levels: seq<seq<Table>>, t: Table, levels': seq<seq<Table>>, i: nat, k: Key)
    requires Adding(levels, t, levels')
    ensures i > 0 ==> DeepVer(levels', i, k) == DeepVer(levels, i, k)
    ensures DeepVer(levels', 0, k) == if k in t.kvs then t.kvs[k].casCounter else DeepVer(levels, 0, k)
  {
    LevelGetSplit(levels[0], [t], k);
    DeepVerFrame(levels, levels', 1, k);
    if i > 0 { DeepVerFrame(levels, levels', i, k); }
  }

  lemma AddDepthOk(levels: seq<seq<Table>>, t: Table, levels': seq<seq<Table>>)
    requires Adding(levels, t, levels')
    ensures DepthOk(levels') && AgeOk(levels'[0])
  {
    forall l, k | 0 <= l < |levels'| ensures DepthAt(levels', l, k) {
      assert DepthAt(levels, l, k);
      AddDeep(levels, t, levels', l + 1, k);
      LevelGetSplit(levels[0], [t], k);

    }
    forall i, k | 0 <= i < |levels[0]| && k in levels[0][i].kvs && k in t.kvs
      ensures levels[0][i].kvs[k].casCounter <= t.kvs[k].casCounter
    {
      AgeMax(levels[0], levels[0][i], k);
    }
  }
}
