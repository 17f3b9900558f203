// A reader that takes memtables and levels one at a time.
module Reader {
  // With any store steps in between it answers like an atomic lookup at some moment of its visit.

  import opened Base
  import opened Tables
  import opened Lsm
  import opened LsmInv
  import LsmJobs
  import LsmManifest
  import opened LsmDepth
  import opened LsmHistory
  import opened LsmTheorems
  import opened LsmResults

  datatype Reader =
    | AtMem(rest: seq<nat>)               // memtables still to look at; the last one is next
    | AtLevel(l: nat)                     // next level to lock and read
    | Answer(r: Option<ValueStruct>)

  /** get_mem_tables: the reader holds on to the memtables that are live when it starts. */
  function Start(s: State): Reader { AtMem(Live(s)) }

  /** One read: one memtable or one level, in the state the store is in by then. */
  function Look(s: State, rd: Reader, k: Key): Reader {
    match rd
    case AtMem(rest) =>
      if rest == [] then AtLevel(0)
      else
        var q := rest[|rest| - 1];
        if q in s.mems && k in s.mems[q] && s.mems[q][k].Visible() then Answer(Some(s.mems[q][k]))
        else AtMem(rest[..|rest| - 1])
    case AtLevel(l) =>
      if l >= |s.levels| then Answer(None)
      else if LevelGet(s.levels[l], k).Some? then Answer(LevelGet(s.levels[l], k))
      else AtLevel(l + 1)
    case Answer(_) => rd
  }

  /** A reading: its n-th look happens in state at[n] of the run. */
  ghost predicate Reading(ss: seq<State>, at: seq<nat>, rs: seq<Reader>, k: Key) {
    && |at| == |rs| > 0
    && (forall n :: 0 <= n < |at| ==> at[n] < |ss|)
    && (forall n :: 0 < n < |at| ==> at[n - 1] <= at[n])
    && rs[0] == Start(ss[at[0]])
    && forall n :: 0 < n < |rs| ==> rs[n] == Look(ss[at[n]], rs[n - 1], k)
  }

  // ----- data only sinks -----

  /** The newest version from any depth on never decreases. */
  lemma DeepGrows(s: State, a: Action, s': State, i: nat, k: Key)
    requires Inv(s) && Step(s, a, s')
    ensures DeepVer(s'.levels, i, k) >= DeepVer(s.levels, i, k)
  {
    hide Inv, BookInv, StoreInv, DeepVer, InstallStep, RemoveStep, WriteStep, DescribeStep, PickStep, NameStep, LogStep,
         UnregisterStep, DepthOk, AgeOk, StatusOk;
    if !a.AddL0? && !a.Install? && !a.Remove? { QuietLevels(s, a, s'); }
    Regroup(s);
    match a {
      case AddL0(stall) =>
        AddGrows(s, s', i, k);
      case Install(w) =>
        InstallGrows(s, w, s', i, k);
      case Remove(w) =>
        RemoveGrows(s, w, s', i, k);
      case _ =>
    }
  }

  /** Only these steps touch the levels. */
  lemma QuietLevels(s: State, a: Action, s': State)
    requires Step(s, a, s') && !a.AddL0? && !a.Install? && !a.Remove?
    ensures s'.levels == s.levels
  {
    hide Get, Decide, BuildOk, PickOk;
  }

  lemma AddGrows(s: State, s': State, i: nat, k: Key)
    requires Grouped(s) && s.flush.Described? && s'.levels == s.levels[0 := s.levels[0] + [s.flush.t]]
    ensures DeepVer(s'.levels, i, k) >= DeepVer(s.levels, i, k)
  {
    hide BookInv, StoreInv, LevelsOk, DepthOk, AgeOk, StatusOk, DeepVer, GoodTable;
    LsmManifest.BookLevels(s);
    StoreAdding(s);
    AddDeep(s.levels, s.flush.t, s'.levels, i, k);
  }

  lemma InstallGrows(s: State, w: nat, s': State, i: nat, k: Key)
    requires Grouped(s) && InstallStep(s, w, s')
    ensures DeepVer(s'.levels, i, k) >= DeepVer(s.levels, i, k)
  {
    hide BookInv, StoreInv, LevelsOk, DepthOk, AgeOk, StatusOk, DeepVer, JobOk, Replaced;
    var j := s.jobs[w].value;
    LsmManifest.JobKnown(s, w, j);
    LsmManifest.BookLevels(s);
    LsmJobs.ReplaceExchanges(s.levels, j);
    InstallSinks(s.levels, j, s'.levels, k);
    SinkDeep(s.levels, j.level, j.top, s'.levels, i, k);
  }

  lemma RemoveGrows(s: State, w: nat, s': State, i: nat, k: Key)
    requires Grouped(s) && RemoveStep(s, w, s')
    ensures DeepVer(s'.levels, i, k) >= DeepVer(s.levels, i, k)
  {
    hide BookInv, StoreInv, LevelsOk, DepthOk, AgeOk, StatusOk, DeepVer, JobOk, Without;
    var j := s.jobs[w].value;
    LsmManifest.JobKnown(s, w, j);
    LsmManifest.BookLevels(s);
    RemoveFades(s.levels, j, s'.levels, k);
    FadeDeep(s.levels, j.level, s'.levels, i, k);
  }

  // ----- the reader's invariant -----

  ghost predicate Keeps(s: State, rest: seq<nat>) {
    && Increasing(rest)
    && forall q :: q in rest ==> q in s.mems && q <= s.active
  }

  /** Whatever the reader still has in front of it shows version v0 or a newer one. */
  ghost predicate ReaderInv(s: State, rd: Reader, k: Key, v0: nat) {
    match rd
    case AtMem(rest) =>
      && Keeps(s, rest)
      && if MemGet(s.mems, rest, k).Some? then Ver(MemGet(s.mems, rest, k)) >= v0
         else DeepVer(s.levels, 0, k) >= v0
    case AtLevel(l) => DeepVer(s.levels, l, k) >= v0
    case Answer(r) => Ver(r) >= v0 && (r.Some? ==> Known(s, k, r.value))
  }

  lemma StartInv(s: State, k: Key)
    requires Inv(s)
    ensures ReaderInv(s, Start(s), k, Ver(Latest(s, k)))
  {
    hide BookInv, DeepVer, MemGet, StatusOk, DepthOk, AgeOk;
    Regroup(s);
    NewestAt(s, k);
    if MemGet(s.mems, Live(s), k).Some? {
      var q := MemHolder(s.mems, Live(s), k);
    }
    assert forall q :: q in Live(s) ==> q in s.mems;
  }

  lemma LookInv(s: State, rd: Reader, k: Key, v0: nat)
    requires Inv(s) && ReaderInv(s, rd, k, v0)
    ensures ReaderInv(s, Look(s, rd, k), k, v0)
  {
    hide BookInv, StatusOk, DepthOk, AgeOk, MemDepthOk, NewestOk;
    Regroup(s);
    match rd {
      case AtMem(rest) =>
        if rest != [] { assert forall q :: q in rest[..|rest| - 1] ==> q in rest; }
      case AtLevel(l) => LookLevel(s, l, k, v0);
      case Answer(_) =>
    }
  }

  lemma LookLevel(s: State, l: nat, k: Key, v0: nat)
    requires Inv(s) && DeepVer(s.levels, l, k) >= v0
    ensures ReaderInv(s, Look(s, AtLevel(l), k), k, v0)
  {
    hide BookInv, StatusOk, AgeOk, MemOk, MemDepthOk, NewestOk, DepthOk, LevelsOk, HistoryOk, LevelGet;
    LsmManifest.BookLevels(s);
    if l < |s.levels| {
      DepthHere(s.levels, l, k);
      LevelGood(s.levels, l);
      LevelVerPositive(s.levels[l], k);
      if LevelGet(s.levels[l], k).Some? {
        var t := Holder(s.levels[l], k);
        LevelKnown(s, l, t, k);
      }
    }
  }

  lemma StepReaderInv(s: State, a: Action, s': State, rd: Reader, k: Key, v0: nat)
    requires Inv(s) && Step(s, a, s') && ReaderInv(s, rd, k, v0) && v0 <= s.applied
    ensures ReaderInv(s', rd, k, v0) && v0 <= s'.applied
  {
    hide Inv, DeepVer, MemGet, Known, PickStep, LogStep, InstallStep, RemoveStep, UnregisterStep, DescribeStep;
    AppliedGrows(s, a, s');
    match rd {
      case AtMem(rest) =>
        DeepGrows(s, a, s', 0, k);
        MemStep(s, a, s', rest, k);
      case AtLevel(l) => DeepGrows(s, a, s', l, k);
      case Answer(r) => if r.Some? { KnownStays(s, a, s', k, r.value); }
    }
  }

  lemma AppliedGrows(s: State, a: Action, s': State)
    requires Step(s, a, s')
    ensures s.applied <= s'.applied
  {
  }

  /** A write is refused or applied. */
  lemma WriteCases(s: State, e: WriteEntry, cas: nat, threshold: nat, ptr: seq<byte>, s': State)
    requires Step(s, Write(e, cas, threshold, ptr), s')
    ensures s.active in s.mems && s.applied < cas
    ensures s' == s.(applied := cas) || s' == Applied(s, e.key, Stored(e, cas, threshold, ptr))
  {
    hide Get, Decide;
  }

  /** Held memtables only gain a newer version, and only the active one does. */
  lemma MemStep(s: State, a: Action, s': State, rest: seq<nat>, k: Key)
    requires Inv(s) && Step(s, a, s') && Keeps(s, rest)
    ensures Keeps(s', rest)
    ensures MemGet(s'.mems, rest, k) == MemGet(s.mems, rest, k) || Ver(MemGet(s'.mems, rest, k)) > s.applied
  {
    hide BookInv, StatusOk, DepthOk, AgeOk, MemDepthOk, NewestOk, HistoryOk, MemGet, MemOk, Step;
    match a {
      case Write(e, cas, threshold, ptr) =>
        WriteCases(s, e, cas, threshold, ptr, s');
        WriteMemStep(s, e.key, Stored(e, cas, threshold, ptr), s', rest, k);
      case _ =>
        SameRest(s, a, s', rest);
        MemFrame(s.mems, s'.mems, rest, k);
    }
  }

  lemma WriteMemStep(s: State, key: Key, v: ValueStruct, s': State, rest: seq<nat>, k: Key)
    requires Keeps(s, rest) && s.active in s.mems && v.casCounter > s.applied
    requires s' == s.(applied := v.casCounter) || s' == Applied(s, key, v)
    ensures Keeps(s', rest)
    ensures MemGet(s'.mems, rest, k) == MemGet(s.mems, rest, k) || Ver(MemGet(s'.mems, rest, k)) > s.applied
  {
    hide MemGet;
    if s'.mems != s.mems && key == k && s.active in rest {
      ActiveLast(s, rest);
      LastAnswers(s'.mems, rest, k);
    } else {
      MemFrame(s.mems, s'.mems, rest, k);
    }
  }

  lemma SameRest(s: State, a: Action, s': State, rest: seq<nat>)
    requires MemOk(s) && Step(s, a, s') && Keeps(s, rest) && !a.Write?
    ensures forall q :: q in rest ==> q in s'.mems && s'.mems[q] == s.mems[q]
    ensures s'.active >= s.active
  {
    hide Increasing;
  }

  lemma ActiveLast(s: State, rest: seq<nat>)
    requires Keeps(s, rest) && s.active in rest
    ensures rest[|rest| - 1] == s.active
  {
    LastIsGreatest(rest, s.active);
    assert rest[|rest| - 1] in rest;
  }

  lemma LastAnswers(mems: map<nat, map<Key, ValueStruct>>, ids: seq<nat>, k: Key)
    requires ids != [] && ids[|ids| - 1] in mems && k in mems[ids[|ids| - 1]]
    ensures MemGet(mems, ids, k) == Some(mems[ids[|ids| - 1]][k])
  {
  }

  lemma KnownStays(s: State, a: Action, s': State, k: Key, v: ValueStruct)
    requires Inv(s) && Step(s, a, s') && Known(s, k, v)
    ensures Known(s', k, v)
  {
    hide BookInv, StatusOk, DepthOk, AgeOk, MemDepthOk, NewestOk, MemOk, HistoryOk, Step;
    match a {
      case Write(e, cas, threshold, ptr) =>
        WriteCases(s, e, cas, threshold, ptr, s');
        VersionsHere(s, k);
      case _ => SameHistory(s, a, s');
    }
  }

  lemma SameHistory(s: State, a: Action, s': State)
    requires Step(s, a, s') && !a.Write?
    ensures s'.log == s.log && s'.latest == s.latest
  {
  }

  lemma VersionsHere(s: State, k: Key)
    requires HistoryOk(s)
    ensures k in s.latest ==> s.latest[k].casCounter <= s.applied
    ensures forall c :: c in s.log ==> c <= s.applied
  {
  }

  /** The invariant holds at every look, and between looks. */
  lemma {:induction false} ReaderRun(ss: seq<State>, acts: seq<Action>, i: nat, j: nat, rd: Reader, k: Key, v0: nat)
    requires Run(ss, acts) && i <= j < |ss| && ReaderInv(ss[i], rd, k, v0) && v0 <= ss[i].applied
    ensures ReaderInv(ss[j], rd, k, v0) && v0 <= ss[j].applied
    decreases j - i
  {
    hide Inv, ReaderInv, Step;
    if i < j {
      ReaderRun(ss, acts, i, j - 1, rd, k, v0);
      RunInv(ss, acts, j - 1);
      StepReaderInv(ss[j - 1], acts[j - 1], ss[j], rd, k, v0);
    }
  }

  lemma {:induction false} ReadingInv(ss: seq<State>, acts: seq<Action>, at: seq<nat>, rs: seq<Reader>, n: nat, k: Key)
    requires Run(ss, acts) && Reading(ss, at, rs, k) && n < |rs|
    ensures var v0 := Ver(Latest(ss[at[0]], k)); ReaderInv(ss[at[n]], rs[n], k, v0) && v0 <= ss[at[n]].applied
    ensures at[0] <= at[n]
  {
    hide Inv, ReaderInv, Run, Look, Latest;
    var v0 := Ver(Latest(ss[at[0]], k));
    if n == 0 {
      RunInv(ss, acts, at[0]);
      StartInv(ss[at[0]], k);
      AppliedBound(ss[at[0]], k);
    } else {
      ReadingInv(ss, acts, at, rs, n - 1, k);
      ReaderRun(ss, acts, at[n - 1], at[n], rs[n - 1], k, v0);
      RunInv(ss, acts, at[n]);
      LookInv(ss[at[n]], rs[n - 1], k, v0);
    }
  }

  // ----- the moment of the lookup -----

  /** A value known at step t and not older than the last write at step i was the last write at some step
      in between. */
  lemma {:induction false} CurrentSometime(ss: seq<State>, acts: seq<Action>, i: nat, t: nat, k: Key, v: ValueStruct)
    returns (m: nat)
    requires Run(ss, acts) && i <= t < |ss|
    requires Known(ss[t], k, v) && v.casCounter >= Ver(Latest(ss[i], k))
    ensures i <= m <= t && Latest(ss[m], k) == Some(v)
    decreases t - i
  {
    hide Inv, Known;
    RunInv(ss, acts, t);
    if Latest(ss[t], k) == Some(v) {
      m := t;
    } else if i == t {
      NotNewer(ss[t], k, v);
      m := t;
    } else {
      RunInv(ss, acts, t - 1);
      assert Step(ss[t - 1], acts[t - 1], ss[t]);
      KnownBefore(ss[t - 1], acts[t - 1], ss[t], k, v);
      m := CurrentSometime(ss, acts, i, t - 1, k, v);
    }
  }

  lemma NotNewer(s: State, k: Key, v: ValueStruct)
    requires Inv(s) && Known(s, k, v) && v.casCounter >= Ver(Latest(s, k))
    ensures Latest(s, k) == Some(v)
  {
    hide BookInv, StatusOk, DepthOk, AgeOk, MemDepthOk, NewestOk, MemOk;
    KnownLatest(s, k, v);
  }

  lemma KnownBefore(s: State, a: Action, s': State, k: Key, v: ValueStruct)
    requires Inv(s) && Step(s, a, s') && Known(s', k, v) && Latest(s', k) != Some(v)
    ensures Known(s, k, v)
  {
    hide Inv, Get, Decide, BuildOk, PickOk;
    LogVersions(s);
  }

  /** Every entry of the log has its own counter, none greater than the last applied. */
  lemma LogVersions(s: State)
    requires Inv(s)
    ensures forall c :: c in s.log ==> c <= s.applied && Known(s, s.log[c].0, s.log[c].1)
    ensures forall c :: c in s.log ==> s.log[c].1.casCounter == c
  {
    hide BookInv, StatusOk, DepthOk, AgeOk, MemDepthOk, NewestOk, MemOk;
  }

  /** Reader safety: whatever writes, flushes and compaction half-steps happen between its looks, a reader
      returns what an atomic lookup would have returned at some moment between its first and last look.
      It never misses a key and never sees a version older than the one current when it started. */
  lemma ReadIsAtomic(ss: seq<State>, acts: seq<Action>, at: seq<nat>, rs: seq<Reader>, k: Key) returns (m: nat)
    requires Run(ss, acts) && Reading(ss, at, rs, k) && rs[|rs| - 1].Answer?
    ensures at[0] <= m <= at[|at| - 1]
    ensures rs[|rs| - 1].r == Find(ss[m], k)
  {
    hide Inv, Known, Look, Reading, Find;
    assert |at| == |rs| > 0 by { ReadingShape(ss, at, rs, k); }
    var n := |rs| - 1;
    assert forall x :: 0 <= x < |at| ==> at[x] < |ss| by { ReadingShape(ss, at, rs, k); }
    ReadingInv(ss, acts, at, rs, n, k);
    if rs[n].r.Some? {
      m := CurrentSometime(ss, acts, at[0], at[n], k, rs[n].r.value);
    } else {
      m := at[0];
      RunInv(ss, acts, m);
      NoVersion(ss[m], k);
    }
    RunInv(ss, acts, m);
    FindIsLatest(ss[m], k);
  }

  lemma ReadingShape(ss: seq<State>, at: seq<nat>, rs: seq<Reader>, k: Key)
    requires Reading(ss, at, rs, k)
    ensures |at| == |rs| > 0 && forall x :: 0 <= x < |at| ==> at[x] < |ss|
  {
  }

  lemma NoVersion(s: State, k: Key)
    requires Inv(s) && Ver(Latest(s, k)) == 0
    ensures Latest(s, k) == None
  {
    hide BookInv, StatusOk, DepthOk, AgeOk, MemDepthOk, NewestOk, MemOk;
    if k in s.latest { LoggedPositive(s, k); }
  }

  /** With no write to the key during the visit, the reader answers like an atomic lookup at its end. */
  lemma ReadOfStableKey(ss: seq<State>, acts: seq<Action>, at: seq<nat>, rs: seq<Reader>, k: Key)
    requires Run(ss, acts) && Reading(ss, at, rs, k) && rs[|rs| - 1].Answer?
    requires forall m :: at[0] <= m < at[|at| - 1] ==> !AppliesTo(ss, acts, m, k)
    ensures rs[|rs| - 1].r == Find(ss[at[|at| - 1]], k)
  {
    hide Inv, Look, Find;
    var m := ReadIsAtomic(ss, acts, at, rs, k);
    var n := at[|at| - 1];
    StableLatest(ss, acts, m, n, k);
    RunInv(ss, acts, m);
    RunInv(ss, acts, n);
    FindIsLatest(ss[m], k);
    FindIsLatest(ss[n], k);
  }

  lemma {:induction false} StableLatest(ss: seq<State>, acts: seq<Action>, i: nat, j: nat, k: Key)
    requires Run(ss, acts) && i <= j < |ss| && forall m :: i <= m < j ==> !AppliesTo(ss, acts, m, k)
    ensures Latest(ss[i], k) == Latest(ss[j], k)
    decreases j - i
  {
    if i < j {
      StableLatest(ss, acts, i, j - 1, k);
      VersionStep(ss, acts, j - 1, k);
    }
  }
}
