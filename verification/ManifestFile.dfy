// The manifest file object: memory and log updated together.
module ManifestFile {
  import opened Base
  import opened Changes
  import opened ManifestApply
  import opened ManifestLog

  const DELETIONS_RATIO := 10

  /** The log replays to the tables and counters given. */
  ghost predicate Agrees(c: Codec, records: seq<Record>, m: Manifest) {
    var r := ReplayFrom(c, EMPTY, records);
    r.1.Applied? && r.0.tables == m.tables && r.0.creations == m.creations && r.0.deletions == m.deletions
  }

  ghost predicate LogFits(records: seq<Record>) {
    forall i :: 0 <= i < |records| ==> LevelsFit(records[i].changes)
  }

  /** A log that agrees with memory gives back the same tables under every level. */
  lemma AgreesLevels(c: Codec, records: seq<Record>, m: Manifest, l: nat)
    requires AllIntact(c, records) && LogFits(records) && m.Consistent() && Agrees(c, records, m)
    ensures ReplayFrom(c, EMPTY, records).0.LevelSet(l) == m.LevelSet(l)
  {
    hide Manifest.Consistent, ReplayFrom, Intact, LevelsFit, ApplyAll, Manifest.LevelSet;
    EmptyConsistent();
    ReplayTables(c, EMPTY, records);
    SameLevels(ReplayFrom(c, EMPTY, records).0, m, l);
  }

  /** Only the table map decides whether and how a change set applies to consistent manifests. */
  lemma {:induction false} SameEffect(a: Manifest, b: Manifest, cs: seq<Change>)
    requires a.Consistent() && b.Consistent() && LevelsFit(cs)
    requires a.tables == b.tables && a.creations == b.creations && a.deletions == b.deletions
    ensures var (a', o) := ApplySet(a, cs);
            var (b', p) := ApplySet(b, cs);
            o == p && a'.tables == b'.tables && a'.creations == b'.creations && a'.deletions == b'.deletions
    decreases |cs|
  {
    hide Manifest.Consistent, ApplyChange, ApplyOne;
    if cs != [] {
      var c := cs[0];
      ChangeConsistent(a, c);
      ChangeConsistent(b, c);
      SameCounts(a, b, c);
      if ApplyChange(a, c).1.Applied? { SameEffect(ApplyChange(a, c).0, ApplyChange(b, c).0, cs[1..]); }
    }
  }

  lemma SameCounts(a: Manifest, b: Manifest, c: Change)
    requires a.creations == b.creations && a.deletions == b.deletions
    requires ApplyChange(a, c).1 == ApplyChange(b, c).1
    ensures ApplyChange(a, c).0.creations == ApplyChange(b, c).0.creations
    ensures ApplyChange(a, c).0.deletions == ApplyChange(b, c).0.deletions
  {
    hide Grown;
  }

  /** Appending a change set that applied keeps memory and log in agreement. */
  lemma AppendAgrees(c: Codec, records: seq<Record>, m: Manifest, cs: seq<Change>)
    requires m.Consistent() && AllIntact(c, records) && LogFits(records) && LevelsFit(cs)
    requires Agrees(c, records, m) && ApplySet(m, cs).1.Applied?
    ensures Agrees(c, records + [Record(cs, c.crc(cs))], ApplySet(m, cs).0)
  {
    hide Manifest.Consistent, ApplySet, ReplayFrom, LevelsFit, Intact;
    EmptyConsistent();
    ReplayTables(c, EMPTY, records);
    ReplaySplit(c, EMPTY, records, [Record(cs, c.crc(cs))]);
    var r := ReplayFrom(c, EMPTY, records).0;
    ReplayOne(c, r, cs);
    SameEffect(r, m, cs);
  }

  /** A change set that fails is not logged, but the changes before the failing one stay in memory: the
      log still agrees exactly when the very first change was the one that failed. */
  lemma FailedAgreesIff(c: Codec, records: seq<Record>, m: Manifest, cs: seq<Change>)
    requires m.Consistent() && LevelsFit(cs) && Agrees(c, records, m) && ApplySet(m, cs).1.Failed?
    ensures Agrees(c, records, ApplySet(m, cs).0) <==> ApplyChange(m, cs[0]).1.Failed?
  {
    hide Manifest.Consistent, ReplayFrom, ApplyChange;
    ChangeConsistent(m, cs[0]);
    ChangeCounted(m, cs[0]);
    if ApplyChange(m, cs[0]).1.Applied? { SetCounted(ApplyChange(m, cs[0]).0, cs[1..]); }
  }

  /** A concrete change set that leaves memory and log apart: the second change repeats the first. */
  lemma FailedExample(c: Codec)
    ensures var cs := [Create(1, 0), Create(1, 0)];
            ApplySet(EMPTY, cs).1.Failed? && Agrees(c, [], EMPTY) && !Agrees(c, [], ApplySet(EMPTY, cs).0)
  {
    hide Manifest.Consistent;
    var cs := [Create(1, 0), Create(1, 0)];
    EmptyConsistent();
    CreateTwice(1);
    FailedAgreesIff(c, [], EMPTY, cs);
  }

  lemma CreateTwice(id: nat)
    ensures var cs := [Create(id, 0), Create(id, 0)];
            ApplySet(EMPTY, cs).1.Failed? && ApplyChange(EMPTY, cs[0]).1.Applied? && LevelsFit(cs)
  {
    hide Grown;
    var cs := [Create(id, 0), Create(id, 0)];
    var m1 := ApplyChange(EMPTY, cs[0]).0;
    assert cs[1..] == [Create(id, 0)];
    assert id in m1.tables;
    assert ApplySet(m1, cs[1..]) == (m1, Failed);
  }

  class ManifestFile {
    const codec: Codec
    const threshold: nat
    var levels: seq<set<nat>>
    var tables: map<nat, nat>
    var creations: nat
    var deletions: nat
    /** What is in the file. */
    var records: seq<Record>

    function Value(): Manifest
      reads this
    {
      Manifest(levels, tables, creations, deletions)
    }

    ghost predicate Valid()
      reads this
    {
      Value().Consistent() && AllIntact(codec, records) && LogFits(records)
    }

    /** Memory and file agree. */
    ghost predicate Logged()
      reads this
    {
      Agrees(codec, records, Value())
    }

    /** A new file holds the snapshot of no tables. */
    constructor (codec: Codec, threshold: nat)
      ensures Valid() && Logged() && Value() == EMPTY && this.codec == codec && this.threshold == threshold
    {
      hide Manifest.Consistent, Manifest.LevelSet, Agrees, AllIntact, LogFits;
      this.codec, this.threshold := codec, threshold;
      levels, tables, creations, deletions := [], map[], 0, 0;
      records := [Record([], codec.crc([]))];
      new;
      EmptyLog(codec);
    }

    /** Applies one change in place. */
    method ApplyManifestChange(c: Change) returns (o: Outcome)
      modifies this`levels, this`tables, this`creations, this`deletions
      ensures (Value(), o) == ApplyChange(old(Value()), c)
    {
      match c
      case Create(id, level) =>
        if id in tables { return Failed; }
        ExpandLevels(level);
        tables := tables[id := level % 256];
        levels := levels[level := levels[level] + {id}];
        creations := creations + 1;
        return Applied;
      case Delete(id) =>
        if id !in tables { return Failed; }
        var l := tables[id];
        tables := tables - {id};
        if l >= |levels| || id !in levels[l] { return Panicked; }
        levels := levels[l := levels[l] - {id}];
        deletions := deletions + 1;
        return Applied;
    }

    method ExpandLevels(level: nat)
      modifies this`levels
      ensures levels == Grown(old(levels), level + 1)
    {
      ghost var before := levels;
      for n := |levels| to Max(|levels|, level + 1)
        invariant |levels| == n && levels[..|before|] == before
        invariant forall l :: |before| <= l < n ==> levels[l] == {}
      {
        levels := levels + [{}];
      }
    }

    /** Applies the changes in order up to the first that does not apply. */
    method ApplyChangeSet(cs: seq<Change>) returns (o: Outcome)
      modifies this`levels, this`tables, this`creations, this`deletions
      ensures (Value(), o) == ApplySet(old(Value()), cs)
    {
      hide ApplyChange;
      assert cs[0..] == cs;
      for i := 0 to |cs|
        invariant ApplySet(old(Value()), cs) == ApplySet(Value(), cs[i..])
      {
        assert cs[i..][1..] == cs[i + 1..];
        o := ApplyManifestChange(cs[i]);
        if !o.Applied? { return; }
      }
      return Applied;
    }

    /** Opening an existing file: its change sets are replayed and the file is cut after its last good
        record; an error when a change set does not apply. */
    method Open(found: seq<Record>) returns (o: Outcome, offset: nat)
      modifies this
      ensures o == ReplayFrom(codec, EMPTY, found).1
      ensures o.Applied? ==> Value() == ReplayFrom(codec, EMPTY, found).0 && Logged()
      ensures o.Applied? ==> records == IntactPrefix(codec, found) && offset == Offset(codec, records)
      ensures o.Applied? && LogFits(records) ==> Valid()
    {
      hide ApplySet, ReplayFrom, Manifest.Consistent, LevelsFit, Intact;
      levels, tables, creations, deletions := [], map[], 0, 0;
      o, offset := Applied, 8;
      var n := 0;
      ReplayStart(codec, found);
      while n < |found| && Intact(codec, found[n])
        invariant o.Applied? && n <= |found| && offset == Offset(codec, found[..n]) && AllIntact(codec, found[..n])
        invariant ReplayFrom(codec, EMPTY, found) == ReplayFrom(codec, Value(), found[n..])
        invariant ReplayFrom(codec, EMPTY, found[..n]) == (Value(), Applied)
      {
        ReplayMore(codec, found, n, Value());
        o := ApplyChangeSet(found[n].changes);
        if !o.Applied? { return; }
        offset := offset + 8 + codec.size(found[n].changes);
        n := n + 1;
      }
      ReplayEnd(codec, found, n, Value());
      records := found[..n];
      if LogFits(records) {
        EmptyConsistent();
        ReplayTables(codec, EMPTY, records);
      }
    }

    /** Lists the tables as creates; the map gives them in any order. */
    method AsChanges() returns (cs: seq<Change>)
      ensures IsSnapshot(tables, cs) && |cs| == |tables|
    {
      cs := [];
      var left := tables;
      while left != map[]
        invariant left.Keys <= tables.Keys && forall id :: id in left ==> left[id] == tables[id]
        invariant forall i :: 0 <= i < |cs| ==> cs[i].Create? && cs[i].id in tables && cs[i].level == tables[cs[i].id]
        invariant forall i :: 0 <= i < |cs| ==> cs[i].id !in left
        invariant forall i, j :: 0 <= i < j < |cs| ==> cs[i].id != cs[j].id
        invariant forall id :: id in tables && id !in left ==> Create(id, tables[id]) in cs
        invariant |cs| + |left| == |tables|
        decreases |left|
      {
        var id :| id in left;
        cs := cs + [Create(id, left[id])];
        RemoveOne(left, id);
        left := left - {id};
      }
    }

    /** Replaces the file by one snapshot. */
    method Rewrite()
      modifies this`records, this`creations, this`deletions
      ensures creations == |tables| && deletions == 0
      ensures |records| == 1 && IsSnapshot(tables, records[0].changes)
      ensures old(Value().Consistent()) ==> Valid() && Logged()
    {
      hide Manifest.Consistent, Manifest.LevelSet, IsSnapshot, Intact, ApplySet, LevelsFit;
      var cs := AsChanges();
      if Value().Consistent() { SnapshotAgrees(codec, Value(), cs); }
      records := [Record(cs, codec.crc(cs))];
      creations, deletions := |tables|, 0;
    }

    /** add_changes: memory first, then either one more record or a rewrite. What ties memory, file and the
        store's table map together holds when the levels fit eight bits. */
    method AddChanges(cs: seq<Change>) returns (o: Outcome, rewritten: bool)
      requires Valid()
      modifies this
      ensures o == ApplySet(old(Value()), cs).1
      ensures levels == ApplySet(old(Value()), cs).0.levels && tables == ApplySet(old(Value()), cs).0.tables
      ensures !rewritten ==> Value() == ApplySet(old(Value()), cs).0
      ensures !rewritten ==> records == if o.Applied? then old(records) + [Record(cs, codec.crc(cs))] else old(records)
      ensures var m := ApplySet(old(Value()), cs).0;
              rewritten <==> o.Applied? && m.deletions > threshold && m.deletions > 10 * |m.tables|
      ensures o.Applied? ==> deletions <= threshold || deletions <= 10 * |tables|
      ensures rewritten ==> |records| == 1 && IsSnapshot(tables, records[0].changes) && deletions == 0
      ensures !o.Panicked? ==> deletions <= creations && creations - deletions == |tables|
      ensures LevelsFit(cs) ==> Valid() && !o.Panicked? && (o.Applied? <==> ApplyAll(old(tables), cs).Some?)
      ensures LevelsFit(cs) && o.Applied? ==> ApplyAll(old(tables), cs) == Some(tables)
      ensures LevelsFit(cs) && o.Applied? && (rewritten || old(Logged())) ==> Logged()
      ensures LevelsFit(cs) && !o.Applied? && old(Logged()) ==>
                (Logged() <==> ApplyChange(old(Value()), cs[0]).1.Failed?)
    {
      hide Manifest.Consistent, Agrees, AllIntact, LogFits, ApplySet, ApplyAll, LevelsFit, IsSnapshot;
      ghost var m := Value();
      if LevelsFit(cs) {
        SetConsistent(m, cs);
        if Agrees(codec, records, m) { LogsAlong(codec, records, m, cs); }
      }
      CountsAre(m);
      CountsKept(m, cs);
      o := ApplyChangeSet(cs);
      if !o.Applied? { return o, false; }
      rewritten := deletions > threshold && deletions > DELETIONS_RATIO * (creations - deletions);
      if rewritten {
        Rewrite();
      } else {
        if LevelsFit(cs) { AppendIntact(codec, records, cs); }
        records := records + [Record(cs, codec.crc(cs))];
      }
    }
  }

  /** Whatever the levels, creations less deletions stay the number of tables until an assertion fails. */
  lemma {:induction false} CountsKept(m: Manifest, cs: seq<Change>)
    requires m.deletions <= m.creations && m.creations - m.deletions == |m.tables|
    ensures var (m', o) := ApplySet(m, cs);
            !o.Panicked? ==> m'.deletions <= m'.creations && m'.creations - m'.deletions == |m'.tables|
    decreases |cs|
  {
    if cs != [] {
      CountKept(m, cs[0]);
      hide ApplyChange;
      if ApplyChange(m, cs[0]).1.Applied? { CountsKept(ApplyChange(m, cs[0]).0, cs[1..]); }
    }
  }

  lemma CountKept(m: Manifest, c: Change)
    requires m.deletions <= m.creations && m.creations - m.deletions == |m.tables|
    ensures var (m', o) := ApplyChange(m, c);
            !o.Panicked? ==> m'.deletions <= m'.creations && m'.creations - m'.deletions == |m'.tables|
  {
    hide Grown;
    match c
    case Create(id, level) =>
      if id !in m.tables { AddOne(m.tables, id, level % 256); }
    case Delete(id) =>
      if id in m.tables { RemoveOne(m.tables, id); }
  }

  lemma SnapshotAgrees(c: Codec, m: Manifest, cs: seq<Change>)
    requires m.Consistent() && IsSnapshot(m.tables, cs)
    ensures var m' := m.(creations := |m.tables|, deletions := 0);
            var records := [Record(cs, c.crc(cs))];
            m'.Consistent() && Agrees(c, records, m') && AllIntact(c, records) && LogFits(records)
  {
    hide Manifest.LevelSet, ApplySet, IsSnapshot, LevelsFit;
    SnapshotRebuilds(m, cs);
    SnapshotFits(m, cs);
    ReplayOne(c, EMPTY, cs);
    Recounted(m);
  }

  lemma Recounted(m: Manifest)
    requires m.Consistent()
    ensures m.(creations := |m.tables|, deletions := 0).Consistent()
  {
    var m' := m.(creations := |m.tables|, deletions := 0);
    forall l: nat, id: nat ensures m'.Listed(l, id) { assert m.Listed(l, id); }
  }

  lemma AppendIntact(c: Codec, records: seq<Record>, cs: seq<Change>)
    requires AllIntact(c, records) && LogFits(records) && LevelsFit(cs)
    ensures AllIntact(c, records + [Record(cs, c.crc(cs))]) && LogFits(records + [Record(cs, c.crc(cs))])
  {
    hide LevelsFit;
  }

  /** How a change set, applied or failed, leaves memory and log to each other. */
  lemma LogsAlong(c: Codec, records: seq<Record>, m: Manifest, cs: seq<Change>)
    requires m.Consistent() && AllIntact(c, records) && LogFits(records) && LevelsFit(cs) && Agrees(c, records, m)
    ensures ApplySet(m, cs).1.Applied? ==> Agrees(c, records + [Record(cs, c.crc(cs))], ApplySet(m, cs).0)
    ensures ApplySet(m, cs).1.Failed? ==>
              cs != [] && (Agrees(c, records, ApplySet(m, cs).0) <==> ApplyChange(m, cs[0]).1.Failed?)
  {
    hide Manifest.Consistent, Agrees, AllIntact, LogFits, LevelsFit, ApplyChange;
    if ApplySet(m, cs).1.Applied? { AppendAgrees(c, records, m, cs); }
    if ApplySet(m, cs).1.Failed? { FailedAgreesIff(c, records, m, cs); }
  }

  lemma EmptyLog(c: Codec)
    ensures var records := [Record([], c.crc([]))];
            EMPTY.Consistent() && AllIntact(c, records) && LogFits(records) && Agrees(c, records, EMPTY)
  {
    hide Manifest.Consistent;
    EmptyConsistent();
    ReplayOne(c, EMPTY, []);
  }

  lemma ReplayStart(c: Codec, found: seq<Record>)
    ensures AllIntact(c, found[..0]) && Offset(c, found[..0]) == 8 && found[0..] == found
    ensures ReplayFrom(c, EMPTY, found[..0]) == (EMPTY, Applied)
  {
  }

  lemma ReplayMore(c: Codec, found: seq<Record>, n: nat, m: Manifest)
    requires n < |found| && AllIntact(c, found[..n]) && Intact(c, found[n])
    requires ReplayFrom(c, EMPTY, found[..n]) == (m, Applied)
    ensures AllIntact(c, found[..n + 1])
    ensures Offset(c, found[..n + 1]) == Offset(c, found[..n]) + 8 + c.size(found[n].changes)
    ensures ReplayFrom(c, EMPTY, found[..n + 1]) == ApplySet(m, found[n].changes)
    ensures var r := ApplySet(m, found[n].changes);
            ReplayFrom(c, m, found[n..]) == if r.1.Applied? then ReplayFrom(c, r.0, found[n + 1..]) else r
  {
    hide ApplySet;
    var one := [found[n]];
    assert found[..n + 1] == found[..n] + one && found[..n + 1][..n] == found[..n];
    ReplaySplit(c, EMPTY, found[..n], one);
    ReplayOne(c, m, found[n].changes);
    assert one == [Record(found[n].changes, c.crc(found[n].changes))];
    assert found[n..][1..] == found[n + 1..];
  }

  lemma ReplayEnd(c: Codec, found: seq<Record>, n: nat, m: Manifest)
    requires n <= |found| && AllIntact(c, found[..n]) && (n < |found| ==> !Intact(c, found[n]))
    ensures ReplayFrom(c, m, found[n..]) == (m, Applied)
    ensures IntactPrefix(c, found) == found[..n]
  {
    IntactSplit(c, found[..n], found[n..]);
    assert found == found[..n] + found[n..];
  }
}
