// Main results about the store.
module LsmTheorems {
  // The invariant holds in every reachable state. LsmResults and LsmSafety draw the conclusions from it.

  import opened Base
  import opened Tables
  import opened Compaction
  import opened Changes
  import opened Lsm
  import opened LsmInv
  import opened LsmJobs
  import opened LsmDepth
  import opened LsmParallel
  import opened LsmStatus
  import opened LsmManifest
  import opened LsmBooks
  import opened LsmHistory

  // ----- the invariant holds initially and after every step -----

  lemma InitInv(s: State)
    requires Init(s)
    ensures Inv(s)
  {
    hide BookInv, StoreInv, DepthOk, AgeOk, StatusOk;
    InitBooks(s);
    InitStore(s);
    InitDepth(s);
    InitStatus(s);
    Regroup(s);
  }

  lemma InitBooks(s: State)
    requires Init(s)
    ensures BookInv(s)
  {
    hide AgreeOk, IdsOk;
    InitAgree(s);
    InitIds(s);
  }

  lemma NoIds(s: State)
    requires Init(s)
    ensures forall l, id :: 0 <= l < |s.levels| ==> id !in Ids(s.levels[l])
  {
    forall l, id | 0 <= l < |s.levels| ensures id !in Ids(s.levels[l]) { assert s.levels[l] == []; }
  }

  lemma InitAgree(s: State)
    requires Init(s)
    ensures AgreeOk(s.levels, s.jobs, s.flush, s.manifest)
  {
    NoIds(s);
    forall l, id | 0 <= l < |s.levels| ensures !Pending(s.jobs, s.flush, l, id) {
      assert forall w :: !JobPends(s.jobs, w, l, id);
    }
  }

  lemma InitIds(s: State)
    requires Init(s)
    ensures IdsOk(s.levels, s.jobs, s.flush, s.manifest, s.nextId)
  {
    assert forall l :: 0 <= l < |s.levels| ==> s.levels[l] == [];
  }

  lemma InitStatus(s: State)
    requires Init(s)
    ensures StatusOk(s.status, s.jobs)
  {
    forall l | 0 <= l < |s.status| ensures StatusAt(s.status[l], s.jobs, l) { NoClaims(s.jobs, l); }
  }

  lemma InitDepth(s: State)
    requires Init(s)
    ensures DepthOk(s.levels) && AgeOk(s.levels[0])
  {
    forall l, k | 0 <= l < |s.levels| ensures DepthAt(s.levels, l, k) { assert s.levels[l] == []; }
  }

  lemma InitStore(s: State)
    requires Init(s)
    ensures StoreInv(s)
  {
    hide DeepVer;
    forall k ensures DeepVer(s.levels, 0, k) == 0 { EmptyDeep(s.levels, 0, k); }
    assert Live(s) == [0];
    forall k ensures MemGet(s.mems, Live(s), k) == None { assert Live(s)[..0] == []; }
  }

  lemma {:induction false} NoClaims(jobs: seq<Option<Job>>, l: nat)
    requires forall w :: 0 <= w < |jobs| ==> jobs[w] == None
    ensures Claims(jobs, l) == multiset{} && Sizes(jobs, l) == 0
  {
    if jobs != [] { NoClaims(jobs[..|jobs| - 1], l); }
  }

  lemma {:induction false} EmptyDeep(levels: seq<seq<Table>>, i: nat, k: Key)
    requires forall l :: 0 <= l < |levels| ==> levels[l] == []
    ensures DeepVer(levels, i, k) == 0
    decreases |levels| - i
  {
    if i < |levels| { EmptyDeep(levels, i + 1, k); }
  }

  /** Inv, grouped the way the step lemmas use it. */
  ghost predicate Grouped(s: State) {
    && |s.levels| >= 2 && |s.status| == |s.levels| && BookInv(s)
    && DepthOk(s.levels) && AgeOk(s.levels[0]) && StatusOk(s.status, s.jobs) && StoreInv(s)
  }

  lemma Regroup(s: State)
    ensures Inv(s) <==> Grouped(s)
  {
    hide BookInv, DepthOk, AgeOk, StatusOk, MemOk, MemDepthOk, HistoryOk, NewestOk;
  }

  ghost predicate Books(s: State) {
    && PlaceOk(s.levels, s.jobs) && AgreeOk(s.levels, s.jobs, s.flush, s.manifest)
    && IdsOk(s.levels, s.jobs, s.flush, s.manifest, s.nextId)
  }

  lemma InstallKeeps(s: State, w: nat, s': State)
    requires Grouped(s) && InstallStep(s, w, s')
    ensures Grouped(s')
  {
    hide LevelsOk, CrossOk, PlaceOk, AgreeOk, IdsOk, DepthOk, AgeOk, StatusOk, StoreInv, JobOk, Replaced;
    var j := s.jobs[w].value;
    assert JobOk(s.levels, j);
    ReplaceExchanges(s.levels, j);
    ExchangeKeeps(s, w, j, s');
  }

  /** However the output comes to take the place of the bottom input, the invariant is kept. */
  lemma ExchangeKeeps(s: State, w: nat, j: Job, s': State)
    requires Grouped(s) && JobIs(s, w, j) && Installing(s.levels, j, s'.levels)
    requires s' == s.(levels := s'.levels, jobs := s.jobs[w := Some(j.(phase := Installed))])
    ensures Grouped(s')
  {
    hide LevelsOk, CrossOk, PlaceOk, AgreeOk, IdsOk, DepthOk, AgeOk, StatusOk, StoreInv, JobOk, Compatible, Exchanged;
    assert Placing(s, w, j, s');
    InstallBooks(s, w, j, s');
    InstallDepthOk(s.levels, j, s'.levels);
    StoreInstallStep(s, w, j, s');
    SameClaims(s.status, s.jobs, w, j.(phase := Installed));
    forall v | 0 <= v < |s'.jobs| && s'.jobs[v].Some? ensures JobOk(s'.levels, s'.jobs[v].value) {
      if v == w {
        SelfAfterInstall(s.levels, j, s'.levels);
      } else {
        Distinct2(s, w, j, v, s.jobs[v].value);
        OtherAfterInstall(s.levels, j, s.jobs[v].value, s'.levels);
      }
    }
  }

  lemma StoreInstallStep(s: State, w: nat, j: Job, s': State)
    requires StoreInv(s) && Installing(s.levels, j, s'.levels)
    requires s' == s.(levels := s'.levels, jobs := s'.jobs)
    ensures StoreInv(s')
  {
    hide StoreInv, Installing;
    StoreInstall(s, j, s');
  }

  lemma RemoveKeeps(s: State, w: nat, s': State)
    requires Grouped(s) && RemoveStep(s, w, s')
    ensures Grouped(s')
  {
    hide LevelsOk, CrossOk, PlaceOk, AgreeOk, IdsOk, DepthOk, AgeOk, StatusOk, StoreInv, JobOk, Without, Compatible;
    var j := s.jobs[w].value;
    assert JobOk(s.levels, j);
    JobKnown(s, w, j);
    assert Removing(s.levels, j, s'.levels);
    assert Dropping(s, w, j, s');
    RemoveBooks(s, w, j, s');
    RemoveDepthOk(s.levels, j, s'.levels);
    StoreRemove(s, j, s');
    SameClaims(s.status, s.jobs, w, j.(phase := Removed));
    forall v | 0 <= v < |s'.jobs| && s'.jobs[v].Some? ensures JobOk(s'.levels, s'.jobs[v].value) {
      if v == w {
        SelfAfterRemove(s.levels, j, s'.levels);
      } else {
        Distinct2(s, w, j, v, s.jobs[v].value);
        OtherAfterRemove(s.levels, j, s.jobs[v].value, s'.levels);
      }
    }
  }

  lemma SelfAfterRemove(levels: seq<seq<Table>>, j: Job, levels': seq<seq<Table>>)
    requires Removing(levels, j, levels')
    ensures JobOk(levels', j.(phase := Removed))
  {
    hide LevelsOk, DepthOk, AgeOk, Without, TopIn, Covered;
  }

  lemma LogKeeps(s: State, w: nat, outs: seq<Table>, s': State)
    requires Grouped(s) && LogStep(s, w, outs, s')
    ensures Grouped(s')
  {
    hide LevelsOk, CrossOk, PlaceOk, AgreeOk, IdsOk, DepthOk, AgeOk, StatusOk, StoreInv, JobOk, BuildOk, ApplyAll,
         Moved;
    var j := s.jobs[w].value;
    assert JobOk(s.levels, j);
    LogApplies(s, w, j, outs);
    assert Logging(s, w, j, outs, s');
    LogBooks(s, w, j, outs, s');
    SameClaims(s.status, s.jobs, w, j.(outs := outs, phase := Logged));
    LoggedJob(s.levels, j, outs);
    StoreSame(s, s');
  }

  lemma NameKeeps(s: State, w: nat, s': State)
    requires Grouped(s) && NameStep(s, w, s')
    ensures Grouped(s')
  {
    hide LevelsOk, CrossOk, PlaceOk, AgreeOk, IdsOk, DepthOk, AgeOk, StatusOk, StoreInv, JobOk, Compatible;
    var j := s.jobs[w].value;
    PickedNoOuts(s, w, j);
    assert JobOk(s.levels, j.(ids := j.ids + {s.nextId})) by { SameInput(s.levels, j, j.ids + {s.nextId}); }
    NameBooks(s, w, j, s');
    SameClaims(s.status, s.jobs, w, j.(ids := j.ids + {s.nextId}));
    StoreSame(s, s');
  }

  lemma SameInput(levels: seq<seq<Table>>, j: Job, ids: set<nat>)
    requires JobOk(levels, j)
    ensures JobOk(levels, j.(ids := ids))
  {
    hide LevelVer, DeepVer;
  }

  lemma NameFlushKeeps(s: State, s': State)
    requires Grouped(s) && s.flush.Taken?
    requires s' == s.(flush := Named(s.flush.m, s.nextId), nextId := s.nextId + 1)
    ensures Grouped(s')
  {
    hide LevelsOk, CrossOk, PlaceOk, AgreeOk, IdsOk, DepthOk, AgeOk, StatusOk, StoreInv, JobsOk;
    NameFlushBooks(s, s');
    StoreName(s, s');
  }

  lemma PickKeeps(s: State, w: nat, j: Job, s': State)
    requires Grouped(s) && PickStep(s, w, j, s')
    ensures Grouped(s')
  {
    hide LevelsOk, CrossOk, PlaceOk, AgreeOk, IdsOk, DepthOk, AgeOk, StatusOk, StoreInv, JobOk, PickOk, Register;
    PickedJob(s.levels, j);
    PickShape(s.levels, j);
    assert forall v :: 0 <= v < |s.jobs| && s.jobs[v].Some? ==> s.jobs[v].value.level + 1 < |s.levels|
      by { JobLevels(s.levels, s.jobs); }
    PickCross(s.status, s.jobs, w, j);
    PickStatus(s.status, s.jobs, w, j);
    QuietBooks(s, w, Some(j), s');
    StoreSame(s, s');
  }

  lemma JobLevels(levels: seq<seq<Table>>, jobs: seq<Option<Job>>)
    requires JobsOk(levels, jobs)
    ensures forall v :: 0 <= v < |jobs| && jobs[v].Some? ==> jobs[v].value.level + 1 < |levels|
  {
  }

  lemma PickShape(levels: seq<seq<Table>>, j: Job)
    requires LevelsOk(levels) && PickOk(levels, j)
    ensures j.phase == Picked && j.outs == [] && j.ids == {} && j.level + 1 < |levels|
    ensures Proper(j.thisRange) && Proper(j.nextRange)
  {
    assert j.top[0] in j.top;
    assert j.bot != [] ==> j.bot[0] in j.bot;
  }

  lemma UnregisterKeeps(s: State, w: nat, s': State)
    requires Grouped(s) && UnregisterStep(s, w, s')
    ensures Grouped(s')
  {
    hide LevelsOk, CrossOk, PlaceOk, AgreeOk, IdsOk, DepthOk, AgeOk, StatusOk, StoreInv, JobOk, Compaction.Unregister;
    assert CrossOk(s'.jobs) by { CrossFewer(s.jobs, w); }
    UnregisterStatus(s.status, s.jobs, w);
    UnregisterBooks(s, w, s');
    StoreSame(s, s');
  }

  lemma CrossFewer(jobs: seq<Option<Job>>, w: nat)
    requires CrossOk(jobs) && w < |jobs|
    ensures CrossOk(jobs[w := None])
  {
  }

  lemma UnregisterBooks(s: State, w: nat, s': State)
    requires BookInv(s) && UnregisterStep(s, w, s')
    ensures Books(s')
  {
    hide BookInv, PlaceOk, AgreeOk, IdsOk;
    PickedNoOuts(s, w, s.jobs[w].value);
    QuietBooks(s, w, None, s');
  }

  lemma PickedNoOuts(s: State, w: nat, j: Job)
    requires BookInv(s) && JobIs(s, w, j)
    ensures j.phase == Picked ==> j.outs == []
  {
    JobKnown(s, w, j);
  }

  lemma AddKeeps(s: State, s': State)
    requires Grouped(s) && s.flush.Described?
    requires s' == s.(levels := s.levels[0 := s.levels[0] + [s.flush.t]], flush := Added(s.flush.m))
    ensures Grouped(s')
  {
    hide LevelsOk, CrossOk, PlaceOk, AgreeOk, IdsOk, DepthOk, AgeOk, StatusOk, StoreInv, JobOk;
    StoreAdding(s);
    assert Adding(s.levels, s.flush.t, s'.levels);
    AddBooks(s, s');
    AddDepthOk(s.levels, s.flush.t, s'.levels);
    StoreAdd(s, s');
    forall v | 0 <= v < |s'.jobs| && s'.jobs[v].Some? ensures JobOk(s'.levels, s'.jobs[v].value) {
      OtherAfterAdd(s.levels, s.flush.t, s.jobs[v].value, s'.levels);
    }
  }

  lemma DescribeKeeps(s: State, t: Table, s': State)
    requires Grouped(s) && DescribeStep(s, t, s')
    ensures Grouped(s')
  {
    hide LevelsOk, CrossOk, PlaceOk, AgreeOk, IdsOk, DepthOk, AgeOk, StatusOk, StoreInv, JobsOk, ApplyAll;
    DescribeApplies(s, t);
    DescribeBooks(s, t, s');
    StoreDescribe(s, t, s');
  }

  lemma FlushKeeps(s: State, s': State)
    requires Grouped(s) && StoreInv(s') && !s.flush.Described? && !s'.flush.Described? && !s'.flush.Named?
    requires s'.levels == s.levels && s'.manifest == s.manifest && s'.nextId == s.nextId && s'.jobs == s.jobs
    requires s'.status == s.status
    ensures Grouped(s')
  {
    hide LevelsOk, CrossOk, PlaceOk, AgreeOk, IdsOk, DepthOk, AgeOk, StatusOk, StoreInv, JobsOk;
    FlushQuietBooks(s, s');
  }

  lemma MemKeeps(s: State, s': State)
    requires Grouped(s) && StoreInv(s') && s'.flush == s.flush
    requires s'.levels == s.levels && s'.manifest == s.manifest && s'.nextId == s.nextId && s'.jobs == s.jobs
    requires s'.status == s.status
    ensures Grouped(s')
  {
    hide LevelsOk, CrossOk, PlaceOk, AgreeOk, IdsOk, DepthOk, AgeOk, StatusOk, StoreInv, JobsOk;
  }

  lemma WriteKeeps(s: State, e: WriteEntry, cas: nat, threshold: nat, ptr: seq<byte>, s': State)
    requires StoreInv(s) && WriteStep(s, e, cas, threshold, ptr, s')
    ensures StoreInv(s')
  {
    hide StoreInv, Get;
    if Decide(Get(s, e.key), e) == Done {
      StoreWrite(s, e.key, Stored(e, cas, threshold, ptr), s');
    } else {
      StoreReject(s, cas, s');
    }
  }

  /** Every step, of any worker, keeps the invariant. */
  lemma StepInv(s: State, a: Action, s': State)
    requires Inv(s) && Step(s, a, s')
    ensures Inv(s')
  {
    hide Inv, BookInv, StatusOk, DepthOk, AgeOk, StoreInv, WriteStep, DescribeStep, PickStep, NameStep, LogStep,
         InstallStep, RemoveStep, UnregisterStep;
    Regroup(s);
    Regroup(s');
    match a {
      case Reserve(n) => StoreSame(s, s'); MemKeeps(s, s');
      case Write(e, cas, threshold, ptr) =>
        WriteShape(s, e, cas, threshold, ptr, s');
        WriteKeeps(s, e, cas, threshold, ptr, s');
        MemKeeps(s, s');
      case Swap => StoreSwap(s, s'); MemKeeps(s, s');
      case Take => StoreTake(s, s'); FlushKeeps(s, s');
      case NameTable => NameFlushKeeps(s, s');
      case Describe(t) => DescribeKeeps(s, t, s');
      case AddL0(stall) => AddKeeps(s, s');
      case Advance => StoreAdvance(s, s'); FlushKeeps(s, s');
      case Pick(w, j) => PickKeeps(s, w, j, s');
      case NameOutput(w) => NameKeeps(s, w, s');
      case Log(w, outs) => LogKeeps(s, w, outs, s');
      case Install(w) => InstallKeeps(s, w, s');
      case Remove(w) => RemoveKeeps(s, w, s');
      case Unregister(w) => UnregisterKeeps(s, w, s');
    }
  }

  lemma WriteShape(s: State, e: WriteEntry, cas: nat, threshold: nat, ptr: seq<byte>, s': State)
    requires WriteStep(s, e, cas, threshold, ptr, s')
    ensures s'.flush == s.flush && s'.levels == s.levels && s'.manifest == s.manifest && s'.nextId == s.nextId
    ensures s'.jobs == s.jobs && s'.status == s.status
  {
  }

  /** Every state of every run satisfies the invariant. */
  lemma {:induction false} RunInv(ss: seq<State>, acts: seq<Action>, i: nat)
    requires Run(ss, acts) && i < |ss|
    ensures Inv(ss[i])
  {
    hide Inv, Step, Init;
    if i == 0 {
      InitInv(ss[0]);
    } else {
      RunInv(ss, acts, i - 1);
      StepInv(ss[i - 1], acts[i - 1], ss[i]);
    }
  }
}
