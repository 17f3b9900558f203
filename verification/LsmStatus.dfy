// The compaction status lists exactly the ranges and sizes of the registered compactions. The claims of all
// workers at a level form a multiset, and the lemmas follow that multiset and the sum of sizes through
// registration and removal, one worker at a time.
module LsmStatus {
  import opened Base
  import opened Compaction
  import opened Lsm
  import opened LsmInv

  lemma {:induction false} ClaimsUpdate(jobs: seq<Option<Job>>, w: nat, o: Option<Job>, l: nat, r: KeyRange)
    requires w < |jobs|
    ensures Claims(jobs[w := o], l)[r] + ClaimsOf(jobs[w], l)[r] == Claims(jobs, l)[r] + ClaimsOf(o, l)[r]
    ensures Sizes(jobs[w := o], l) + SizeOf(jobs[w], l) == Sizes(jobs, l) + SizeOf(o, l)
  {
    hide ClaimsOf, SizeOf;
    var front := jobs[..|jobs| - 1];
    if w == |jobs| - 1 {
      assert jobs[w := o][..|jobs| - 1] == front;
    } else {
      assert jobs[w := o][..|jobs| - 1] == front[w := o];
      ClaimsUpdate(front, w, o, l, r);
    }
  }

  /** The claims of level l after slot w changes. */
  lemma ClaimsAfter(jobs: seq<Option<Job>>, w: nat, o: Option<Job>, l: nat)
    requires w < |jobs|
    ensures Claims(jobs[w := o], l) == Claims(jobs, l) - ClaimsOf(jobs[w], l) + ClaimsOf(o, l)
    ensures Sizes(jobs[w := o], l) == Sizes(jobs, l) - SizeOf(jobs[w], l) + SizeOf(o, l)
    ensures ClaimsOf(jobs[w], l) <= Claims(jobs, l) && SizeOf(jobs[w], l) <= Sizes(jobs, l)
  {
    hide ClaimsOf, SizeOf, Claims, Sizes;
    ClaimIn(jobs, w, l);
    ClaimsUpdate(jobs, w, o, l, INFO_RANGE);
    forall r ensures Claims(jobs[w := o], l)[r] == (Claims(jobs, l) - ClaimsOf(jobs[w], l) + ClaimsOf(o, l))[r] {
      ClaimsUpdate(jobs, w, o, l, r);
    }
  }

  lemma {:induction false} ClaimIn(jobs: seq<Option<Job>>, w: nat, l: nat)
    requires w < |jobs|
    ensures ClaimsOf(jobs[w], l) <= Claims(jobs, l)
    ensures SizeOf(jobs[w], l) <= Sizes(jobs, l)
  {
    if w < |jobs| - 1 { ClaimIn(jobs[..|jobs| - 1], w, l); }
  }

  lemma InRanges(ranges: seq<KeyRange>, claims: multiset<KeyRange>, r: KeyRange)
    requires claims <= multiset(ranges) && r in claims
    ensures r in ranges
  {
    assert r in multiset(ranges);
  }

  /** Every claimed range of a registered job is on the list of its level. */
  lemma Listed(status: seq<LevelStatus>, jobs: seq<Option<Job>>, w: nat)
    requires StatusOk(status, jobs) && w < |jobs| && jobs[w].Some? && jobs[w].value.level + 1 < |status|
    ensures var j := jobs[w].value;
            && j.thisRange in status[j.level].ranges
            && j.nextRange in status[j.level + 1].ranges
            && j.thisSize <= status[j.level].delSize
  {
    hide Compaction.Apart, Claims, Sizes;
    var j := jobs[w].value;
    ClaimIn(jobs, w, j.level);
    ClaimIn(jobs, w, j.level + 1);
    InRanges(status[j.level].ranges, ClaimsOf(jobs[w], j.level), j.thisRange);
    InRanges(status[j.level + 1].ranges, ClaimsOf(jobs[w], j.level + 1), j.nextRange);
  }

  /** A compaction that passes compare_and_add is compatible with every registered one. */
  lemma PickCross(status: seq<LevelStatus>, jobs: seq<Option<Job>>, w: nat, j: Job)
    requires StatusOk(status, jobs) && CrossOk(jobs) && w < |jobs| && jobs[w].None?
    requires j.level + 1 < |status|
    requires forall v :: 0 <= v < |jobs| && jobs[v].Some? ==> jobs[v].value.level + 1 < |status|
    requires !AnyOverlap(status[j.level].ranges, j.thisRange)
    requires !AnyOverlap(status[j.level + 1].ranges, j.nextRange)
    ensures CrossOk(jobs[w := Some(j)])
  {
    hide StatusOk;
    forall v | 0 <= v < |jobs| && jobs[v].Some?
      ensures Compatible(jobs[v].value, j) && Compatible(j, jobs[v].value)
    {
      Listed(status, jobs, v);
    }
  }

  lemma ClaimAdded(st: LevelStatus, jobs: seq<Option<Job>>, w: nat, j: Job, l: nat, r: KeyRange, size: nat)
    requires StatusAt(st, jobs, l) && w < |jobs| && jobs[w].None?
    requires ClaimsOf(Some(j), l) == multiset{r} && SizeOf(Some(j), l) == size
    requires Proper(r) && !AnyOverlap(st.ranges, r)
    ensures StatusAt(LevelStatus(st.ranges + [r], st.delSize + size), jobs[w := Some(j)], l)
  {
    hide Claims, Sizes, Compaction.Apart;
    ClaimsAfter(jobs, w, Some(j), l);
    ApartSplit(st.ranges, r);
  }

  lemma ClaimKept(st: LevelStatus, jobs: seq<Option<Job>>, w: nat, o: Option<Job>, l: nat)
    requires StatusAt(st, jobs, l) && w < |jobs|
    requires ClaimsOf(o, l) == ClaimsOf(jobs[w], l) && SizeOf(o, l) == SizeOf(jobs[w], l)
    ensures StatusAt(st, jobs[w := o], l)
  {
    hide Claims, Sizes, Compaction.Apart;
    ClaimsAfter(jobs, w, o, l);
  }

  lemma ClaimDropped(st: LevelStatus, jobs: seq<Option<Job>>, w: nat, l: nat, r: KeyRange, size: nat)
    requires StatusAt(st, jobs, l) && w < |jobs|
    requires ClaimsOf(jobs[w], l) == multiset{r} && SizeOf(jobs[w], l) == size && r in st.ranges && size <= st.delSize
    ensures multiset(Retain(st.ranges, r)) == multiset(st.ranges) - multiset{r}
    ensures StatusAt(LevelStatus(Retain(st.ranges, r), st.delSize - size), jobs[w := None], l)
  {
    hide Claims, Sizes, Compaction.Apart;
    ClaimsAfter(jobs, w, None, l);
    RetainRemovesOne(st.ranges, r);
  }

  /** Registering keeps the list exact and its ranges disjoint. */
  lemma PickStatus(status: seq<LevelStatus>, jobs: seq<Option<Job>>, w: nat, j: Job)
    requires StatusOk(status, jobs) && w < |jobs| && jobs[w].None?
    requires j.level + 1 < |status| && Proper(j.thisRange) && Proper(j.nextRange)
    requires !AnyOverlap(status[j.level].ranges, j.thisRange)
    requires !AnyOverlap(status[j.level + 1].ranges, j.nextRange)
    ensures StatusOk(Register(status, j.level, j.thisRange, j.nextRange, j.thisSize), jobs[w := Some(j)])
  {
    hide StatusAt;
    var status' := Register(status, j.level, j.thisRange, j.nextRange, j.thisSize);
    forall l | 0 <= l < |status'| ensures StatusAt(status'[l], jobs[w := Some(j)], l) {
      if l == j.level {
        ClaimAdded(status[l], jobs, w, j, l, j.thisRange, j.thisSize);
      } else if l == j.level + 1 {
        ClaimAdded(status[l], jobs, w, j, l, j.nextRange, 0);
      } else {
        ClaimKept(status[l], jobs, w, Some(j), l);
      }
    }
  }

  /** In every state `delete` removes exactly the one range each compaction registered at each level,
      and the recorded size does not underflow. */
  lemma UnregisterStatus(status: seq<LevelStatus>, jobs: seq<Option<Job>>, w: nat)
    requires StatusOk(status, jobs) && w < |jobs| && jobs[w].Some? && jobs[w].value.level + 1 < |status|
    ensures var j := jobs[w].value;
            && j.thisSize <= status[j.level].delSize
            && var status' := Compaction.Unregister(status, j.level, j.thisRange, j.nextRange, j.thisSize);
            && StatusOk(status', jobs[w := None])
            && multiset(status'[j.level].ranges) == multiset(status[j.level].ranges) - multiset{j.thisRange}
            && multiset(status'[j.level + 1].ranges) == multiset(status[j.level + 1].ranges) - multiset{j.nextRange}
  {
    hide StatusAt, Retain;
    var j := jobs[w].value;
    Listed(status, jobs, w);
    var status' := Compaction.Unregister(status, j.level, j.thisRange, j.nextRange, j.thisSize);
    ClaimDropped(status[j.level], jobs, w, j.level, j.thisRange, j.thisSize);
    ClaimDropped(status[j.level + 1], jobs, w, j.level + 1, j.nextRange, 0);
    forall l | 0 <= l < |status'| ensures StatusAt(status'[l], jobs[w := None], l) {
      if l != j.level && l != j.level + 1 { ClaimKept(status[l], jobs, w, None, l); }
    }
  }

  /** Progress of a job leaves its claims alone. */
  lemma SameClaims(status: seq<LevelStatus>, jobs: seq<Option<Job>>, w: nat, j: Job)
    requires StatusOk(status, jobs) && CrossOk(jobs) && w < |jobs| && jobs[w].Some?
    requires j.level == jobs[w].value.level && j.thisSize == jobs[w].value.thisSize
    requires j.thisRange == jobs[w].value.thisRange && j.nextRange == jobs[w].value.nextRange
    ensures StatusOk(status, jobs[w := Some(j)]) && CrossOk(jobs[w := Some(j)])
  {
    hide StatusAt;
    forall l | 0 <= l < |status| ensures StatusAt(status[l], jobs[w := Some(j)], l) {
      ClaimKept(status[l], jobs, w, Some(j), l);
    }
  }
}
