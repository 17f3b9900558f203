// Running a compaction (run_compact_def).
module CompactRun {
  // It works on the level handlers and the manifest; the steps of the store that it takes come last.

  import opened Base
  import opened Tables
  import opened Changes
  import opened Merge
  import opened CompactionBuild
  import opened CompactionOutput
  import opened Lsm
  import opened LevelHandler
  import opened ManifestApply
  import opened ManifestFile

  /** build_change_set: creates for the output, then deletes for the inputs. */
  method BuildChangeSet(j: Job, outs: seq<Table>) returns (cs: seq<Change>)
    requires j.top != [] && !j.IsMove()
    ensures cs == ChangeSet(j, outs)
  {
    cs := Creates(outs, j.level + 1);
    cs := cs + Deletes(j.top);
    cs := cs + Deletes(j.bot);
  }

  lemma ChangeLevels(j: Job, outs: seq<Table>)
    requires j.top != [] && j.level + 1 < 256
    ensures LevelsFit(ChangeSet(j, outs))
  {
  }

  /** Writes the manifest first, then adds to the next level, then deletes from this level. When the
      change set does not apply, both levels stay as they are. */
  method RunCompactDef(here: LevelHandler, next: LevelHandler, mf: ManifestFile, j: Job, internal: set<Key>,
                       topItems: seq<seq<Item>>, botItems: seq<seq<Item>>, fileId: nat -> nat,
                       full: seq<Item> -> bool, sizeOf: seq<Item> -> nat)
    returns (ok: bool, outs: seq<Table>)
    requires here != next && here.Valid() && next.Valid() && mf.Valid()
    requires j.level == here.level && next.level == here.level + 1 < 256 && j.top != []
    requires Input(internal, j.top, j.bot, topItems, botItems) && Fresh(fileId)
    modifies here, next, mf
    ensures here.Valid() && next.Valid() && mf.Valid()
    ensures ok <==> ApplyAll(old(mf.tables), ChangeSet(j, outs)).Some?
    ensures outs != [] ==> BuildOk(j.(ids := IdSet(FileIds(fileId, |outs|))), outs)
    ensures outs == [] ==> forall k :: LevelGet(j.top, k).None? && LevelGet(j.bot, k).None?
    ensures ok ==> ApplyAll(old(mf.tables), ChangeSet(j, outs)) == Some(mf.tables)
    ensures ok && old(mf.Logged()) ==> mf.Logged()
    ensures next.tables == if ok then Replaced(old(next.tables), outs) else old(next.tables)
    ensures here.tables == if ok then Without(old(here.tables), Ids(j.top)) else old(here.tables)
  {
    hide ApplyAll, ApplySet, ApplyChange, Input, BuildOk, LevelHandler.Valid, ManifestFile.Valid, ManifestFile.Logged,
         Replaced, Without, LevelsFit, LevelGet, IdSet, FileIds, Fresh;
    outs := j.top;
    var changes: seq<Change>;
    if here.level >= 1 && j.bot == [] {
      changes := [Delete(j.top[0].id), Create(j.top[0].id, next.level)];
      MoveBuilds(j.(ids := IdSet(FileIds(fileId, |outs|))));
    } else {
      ghost var chunks;
      outs, chunks := CompactBuildTables(internal, j, topItems, botItems, fileId, full, sizeOf);
      changes := BuildChangeSet(j, outs);
    }
    ChangeLevels(j, outs);
    var o, rewritten := mf.AddChanges(changes);
    ok := o.Applied?;
    if !ok { return; }
    next.ReplaceTables(outs);
    here.DeleteTables(Ids(j.top));
  }

  lemma MoveBuilds(j: Job)
    requires j.IsMove()
    ensures BuildOk(j, j.top)
  {
  }

  /** The store after worker w's compaction: manifest changed, output at the next level, input gone. */
  ghost function Compacted(s: State, j: Job, w: nat, outs: seq<Table>, manifest: map<nat, nat>): State
    requires w < |s.jobs| && j.level + 1 < |s.levels|
  {
    var levels := s.levels[j.level + 1 := Replaced(s.levels[j.level + 1], outs)];
    s.(manifest := manifest, levels := levels[j.level := Without(s.levels[j.level], Ids(j.top))],
       jobs := s.jobs[w := Some(j.(outs := outs, phase := Removed))])
  }

  /** Such a run is a Log, an Install and a Remove step of the store. */
  lemma RunIsSteps(s: State, j: Job, w: nat, outs: seq<Table>) returns (s1: State, s2: State)
    requires w < |s.jobs| && s.jobs[w] == Some(j) && j.phase == Picked && j.top != [] && outs != []
    requires j.level + 1 < |s.levels|
    requires BuildOk(j, outs) && ApplyAll(s.manifest, ChangeSet(j, outs)).Some?
    requires forall t :: t in j.bot ==> t.biggest != outs[0].smallest
    ensures Step(s, Log(w, outs), s1) && Step(s1, Install(w), s2)
    ensures Step(s2, Remove(w), Compacted(s, j, w, outs, ApplyAll(s.manifest, ChangeSet(j, outs)).value))
  {
    hide ApplyAll, BuildOk, Replaced, Without, ChangeSet, Job.IsMove, Ids;
    s1 := s.(manifest := ApplyAll(s.manifest, ChangeSet(j, outs)).value,
             jobs := s.jobs[w := Some(j.(outs := outs, phase := Logged))]);
    var j1 := s1.jobs[w].value;
    s2 := s1.(levels := s1.levels[j.level + 1 := Replaced(s1.levels[j.level + 1], j1.outs)],
              jobs := s1.jobs[w := Some(j1.(phase := Installed))]);
    var j2 := s2.jobs[w].value;
    var s3 := s2.(levels := s2.levels[j.level := Without(s2.levels[j.level], Ids(j2.top))],
                  jobs := s2.jobs[w := Some(j2.(phase := Removed))]);
    assert s3.jobs == s.jobs[w := Some(j.(outs := outs, phase := Removed))];
  }
}
