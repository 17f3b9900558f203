// The manifest file as a list of checksummed records.
module ManifestLog {
  import opened Base
  import opened Changes
  import opened ManifestApply

  /** One change set and the checksum stored with it. */
  datatype Record = Record(changes: seq<Change>, sum: nat)

  /** The checksum of an encoded change set, and the encoding's length. */
  datatype Codec = Codec(crc: seq<Change> -> nat, size: seq<Change> -> nat)

  predicate Intact(c: Codec, r: Record) { r.sum == c.crc(r.changes) }

  ghost predicate AllIntact(c: Codec, records: seq<Record>) {
    forall i :: 0 <= i < |records| ==> Intact(c, records[i])
  }

  /** Applies the records in order, up to the first one with a bad checksum. */
  function ReplayFrom(c: Codec, m: Manifest, records: seq<Record>): (r: (Manifest, Outcome))
    decreases |records|
  {
    if records == [] || !Intact(c, records[0]) then (m, Applied)
    else
      var r := ApplySet(m, records[0].changes);
      if r.1.Applied? then ReplayFrom(c, r.0, records[1..]) else r
  }

  /** The records before the first one with a bad checksum, and the file offset where they end. */
  function IntactPrefix(c: Codec, records: seq<Record>): (r: seq<Record>)
    ensures |r| <= |records| && r == records[..|r|]
    ensures AllIntact(c, r) && (|r| < |records| ==> !Intact(c, records[|r|]))
  {
    if records == [] || !Intact(c, records[0]) then [] else [records[0]] + IntactPrefix(c, records[1..])
  }

  function Offset(c: Codec, records: seq<Record>): nat {
    if records == [] then 8 else Offset(c, records[..|records| - 1]) + 8 + c.size(records[|records| - 1].changes)
  }

  function ContentSize(c: Codec, records: seq<Record>): nat {
    if records == [] then 0 else c.size(records[0].changes) + ContentSize(c, records[1..])
  }

  /** The offset counts the eight bytes at the start of the file, and for each record its length, its checksum and
      its content. */
  lemma {:induction false} OffsetCounts(c: Codec, records: seq<Record>)
    ensures Offset(c, records) == 8 + 8 * |records| + ContentSize(c, records)
  {
    if records != [] {
      OffsetCounts(c, records[..|records| - 1]);
      ContentSnoc(c, records[..|records| - 1], records[|records| - 1]);
      assert records == records[..|records| - 1] + [records[|records| - 1]];
    }
  }

  lemma {:induction false} ContentSnoc(c: Codec, records: seq<Record>, r: Record)
    ensures ContentSize(c, records + [r]) == ContentSize(c, records) + c.size(r.changes)
  {
    if records == [] {
      assert ([r])[1..] == [];
    } else {
      assert (records + [r])[1..] == records[1..] + [r];
      ContentSnoc(c, records[1..], r);
    }
  }

  lemma {:induction false} ReplaySplit(c: Codec, m: Manifest, a: seq<Record>, b: seq<Record>)
    requires AllIntact(c, a)
    ensures ReplayFrom(c, m, a + b) ==
            (var r := ReplayFrom(c, m, a); if r.1.Applied? then ReplayFrom(c, r.0, b) else r)
    decreases |a|
  {
    if a == [] {
      assert a + b == b;
    } else {
      assert (a + b)[1..] == a[1..] + b;
      assert Intact(c, a[0]);
      var r := ApplySet(m, a[0].changes);
      if r.1.Applied? { ReplaySplit(c, r.0, a[1..], b); }
    }
  }

  lemma ReplayOne(c: Codec, m: Manifest, cs: seq<Change>)
    ensures ReplayFrom(c, m, [Record(cs, c.crc(cs))]) == ApplySet(m, cs)
  {
    var r := Record(cs, c.crc(cs));
    assert [r][1..] == [];
  }

  /** A record with a bad checksum, and whatever comes after it, changes nothing: the replay ends with the
      state and the offset of the last good record. */
  lemma BadTail(c: Codec, m: Manifest, good: seq<Record>, bad: Record, junk: seq<Record>)
    requires AllIntact(c, good) && !Intact(c, bad)
    ensures ReplayFrom(c, m, good + [bad] + junk) == ReplayFrom(c, m, good)
    ensures IntactPrefix(c, good + [bad] + junk) == good
  {
    assert good + [bad] + junk == good + ([bad] + junk);
    ReplaySplit(c, m, good, [bad] + junk);
    IntactSplit(c, good, [bad] + junk);
  }

  lemma {:induction false} IntactSplit(c: Codec, good: seq<Record>, rest: seq<Record>)
    requires AllIntact(c, good)
    ensures IntactPrefix(c, good + rest) == good + IntactPrefix(c, rest)
  {
    if good == [] {
      assert good + rest == rest;
    } else {
      assert Intact(c, good[0]);
      assert (good + rest)[1..] == good[1..] + rest;
      IntactSplit(c, good[1..], rest);
    }
  }

  /** Replaying intact records is applying their change sets one after the other to the table map. */
  lemma {:induction false} ReplayTables(c: Codec, m: Manifest, records: seq<Record>)
    requires AllIntact(c, records) && m.Consistent()
    requires forall i :: 0 <= i < |records| ==> LevelsFit(records[i].changes)
    ensures var (m', o) := ReplayFrom(c, m, records);
            && m'.Consistent() && !o.Panicked?
            && (o.Applied? <==> ApplyAll(m.tables, AllChanges(records)).Some?)
            && (o.Applied? ==> ApplyAll(m.tables, AllChanges(records)) == Some(m'.tables))
    decreases |records|
  {
    hide Manifest.Consistent, ApplySet;
    if records != [] {
      var cs := records[0].changes;
      assert Intact(c, records[0]);
      SetConsistent(m, cs);
      ApplySplit(m.tables, cs, AllChanges(records[1..]));
      if ApplySet(m, cs).1.Applied? { ReplayTables(c, ApplySet(m, cs).0, records[1..]); }
    }
  }

  function AllChanges(records: seq<Record>): seq<Change> {
    if records == [] then [] else records[0].changes + AllChanges(records[1..])
  }

  // ----- snapshots -----

  /** The changes that re-create a table map, in any order. */
  ghost predicate IsSnapshot(tables: map<nat, nat>, cs: seq<Change>) {
    && (forall i :: 0 <= i < |cs| ==> cs[i].Create? && cs[i].id in tables && cs[i].level == tables[cs[i].id])
    && (forall i, j :: 0 <= i < j < |cs| ==> cs[i].id != cs[j].id)
    && forall id :: id in tables ==> Create(id, tables[id]) in cs
  }

  lemma {:induction false} CreatesApply(tables: map<nat, nat>, cs: seq<Change>)
    requires forall i :: 0 <= i < |cs| ==> cs[i].Create? && cs[i].id in tables && cs[i].level == tables[cs[i].id]
    requires forall i, j :: 0 <= i < j < |cs| ==> cs[i].id != cs[j].id
    ensures var r := ApplyAll(map[], cs);
            && r.Some?
            && forall id :: (id in r.value <==> id in tables && Create(id, tables[id]) in cs)
                         && (id in r.value ==> r.value[id] == tables[id])
  {
    if cs != [] {
      var front, last := cs[..|cs| - 1], cs[|cs| - 1];
      assert cs == front + [last];
      CreatesApply(tables, front);
      assert last !in front;
    }
  }

  lemma {:induction false} CreatesCount(m: Manifest, cs: seq<Change>)
    requires forall i :: 0 <= i < |cs| ==> cs[i].Create?
    ensures ApplySet(m, cs).0.deletions == m.deletions
    decreases |cs|
  {
    if cs != [] && ApplyChange(m, cs[0]).1.Applied? { CreatesCount(ApplyChange(m, cs[0]).0, cs[1..]); }
  }

  lemma EmptyConsistent()
    ensures EMPTY.Consistent()
  {
    forall l: nat, id: nat ensures EMPTY.Listed(l, id) { }
  }

  lemma SnapshotFits(m: Manifest, cs: seq<Change>)
    requires m.Consistent() && IsSnapshot(m.tables, cs)
    ensures LevelsFit(cs)
  {
  }

  lemma CountsAre(m: Manifest)
    requires m.Consistent()
    ensures m.deletions <= m.creations && m.creations - m.deletions == |m.tables|
  {
  }

  /** A snapshot taken in any order rebuilds the same tables under the same levels, with as many creations
      as tables and no deletions. */
  lemma SnapshotRebuilds(m: Manifest, cs: seq<Change>)
    requires m.Consistent() && IsSnapshot(m.tables, cs)
    ensures var (m', o) := ApplySet(EMPTY, cs);
            && o.Applied? && m'.Consistent() && m'.tables == m.tables
            && m'.creations == |m.tables| && m'.deletions == 0
            && forall l: nat :: m'.LevelSet(l) == m.LevelSet(l)
  {
    hide Manifest.Consistent, Manifest.LevelSet, ApplySet, ApplyAll;
    CreatesApply(m.tables, cs);
    SnapshotFits(m, cs);
    EmptyConsistent();
    SetConsistent(EMPTY, cs);
    CreatesCount(EMPTY, cs);
    var m' := ApplySet(EMPTY, cs).0;
    CountsAre(m');
    forall l: nat ensures m'.LevelSet(l) == m.LevelSet(l) { SameLevels(m', m, l); }
  }
}
