// The manifest: changes applied in memory, the log of change sets, its replay and its rewriting.
module ManifestApply {
  import opened Base
  import opened Changes

  /** In-memory state: the set of tables of each level, the level of each table, and two counters. */
  datatype Manifest = Manifest(levels: seq<set<nat>>, tables: map<nat, nat>, creations: nat, deletions: nat)
  {
    /** The tables listed under level l. */
    function LevelSet(l: nat): set<nat> { if l < |levels| then levels[l] else {} }

    /** Level l lists a table exactly when the table is there with that level. */
    ghost predicate Listed(l: nat, id: nat) {
      id in LevelSet(l) <==> id in tables && tables[id] == l
    }

    /** The two views of the tables agree and the counters count them. */
    ghost predicate Consistent() {
      && (forall l: nat, id: nat :: Listed(l, id))
      && (forall id :: id in tables ==> tables[id] < 256)
      && deletions <= creations && creations - deletions == |tables|
    }
  }

  const EMPTY := Manifest([], map[], 0, 0)

  /** Failed is the error of a create that exists or a delete that does not; Panicked the failed assertion
      that a deleted table is listed under its level. */
  datatype Outcome = Applied | Failed | Panicked

  function Grown(levels: seq<set<nat>>, n: nat): (r: seq<set<nat>>)
    ensures |r| == Max(|levels|, n)
    ensures forall l :: 0 <= l < |r| ==> r[l] == if l < |levels| then levels[l] else {}
  {
    if |levels| < n then levels + seq(n - |levels|, _ => {}) else levels
  }

  /** apply_manifest_change. The level of a table is stored in 8 bits. */
  function ApplyChange(m: Manifest, c: Change): (r: (Manifest, Outcome)) {
    match c
    case Create(id, level) =>
      if id in m.tables then (m, Failed)
      else
        var levels := Grown(m.levels, level + 1);
        (Manifest(levels[level := levels[level] + {id}], m.tables[id := level % 256], m.creations + 1, m.deletions),
         Applied)
    case Delete(id) =>
      if id !in m.tables then (m, Failed)
      else
        var l := m.tables[id];
        var tables := m.tables - {id};
        if l < |m.levels| && id in m.levels[l] then
          (Manifest(m.levels[l := m.levels[l] - {id}], tables, m.creations, m.deletions + 1), Applied)
        else (m.(tables := tables), Panicked)
  }

  /** apply_manifest_change_set: stops at the first change that does not apply; the earlier ones stay. */
  function ApplySet(m: Manifest, cs: seq<Change>): (r: (Manifest, Outcome))
    decreases |cs|
  {
    if cs == [] then (m, Applied)
    else
      var r := ApplyChange(m, cs[0]);
      if r.1.Applied? then ApplySet(r.0, cs[1..]) else r
  }

  predicate LevelsFit(cs: seq<Change>) { forall i :: 0 <= i < |cs| && cs[i].Create? ==> cs[i].level < 256 }

  // ----- consistency -----

  lemma RemoveOne(m: map<nat, nat>, id: nat)
    requires id in m
    ensures |m - {id}| == |m| - 1
  {
    assert m.Keys == (m - {id}).Keys + {id};
    assert |m| == |m.Keys| && |m - {id}| == |(m - {id}).Keys|;
  }

  lemma AddOne(m: map<nat, nat>, id: nat, l: nat)
    requires id !in m
    ensures |m[id := l]| == |m| + 1
  {
    assert m[id := l].Keys == m.Keys + {id};
    assert |m| == |m.Keys| && |m[id := l]| == |m[id := l].Keys|;
  }

  /** What a create does to the levels. */
  lemma CreateLevels(m: Manifest, id: nat, level: nat, l: nat)
    requires id !in m.tables
    ensures var m' := ApplyChange(m, Create(id, level)).0;
            m'.LevelSet(l) == if l == level then m.LevelSet(l) + {id} else m.LevelSet(l)
  {
  }

  lemma CreateListed(m: Manifest, id: nat, level: nat, l: nat, n: nat)
    requires m.Listed(l, n) && (n == id ==> id !in m.LevelSet(l)) && id !in m.tables && level < 256
    ensures ApplyChange(m, Create(id, level)).0.Listed(l, n)
  {
    CreateLevels(m, id, level, l);
  }

  lemma CreateMisses(m: Manifest, id: nat, level: nat)
    requires id !in m.tables && level >= 256
    ensures !ApplyChange(m, Create(id, level)).0.Listed(level, id)
  {
    CreateLevels(m, id, level, level);
  }

  /** Creating a table keeps the two views together exactly when its level fits in 8 bits. */
  lemma CreateConsistentIff(m: Manifest, id: nat, level: nat)
    requires m.Consistent() && id !in m.tables
    ensures ApplyChange(m, Create(id, level)).0.Consistent() <==> level < 256
  {
    hide Grown, Manifest.Listed, Manifest.LevelSet;
    AddOne(m.tables, id, level % 256);
    if level >= 256 {
      CreateMisses(m, id, level);
    } else {
      forall l: nat, n: nat ensures ApplyChange(m, Create(id, level)).0.Listed(l, n) {
        assert m.Listed(l, n);
        NotListed(m, l, id);
        CreateListed(m, id, level, l, n);
      }
    }
  }

  lemma NotListed(m: Manifest, l: nat, id: nat)
    requires m.Consistent() && id !in m.tables
    ensures id !in m.LevelSet(l)
  {
    assert m.Listed(l, id);
  }

  lemma DeleteConsistent(m: Manifest, id: nat)
    requires m.Consistent() && id in m.tables
    ensures var (m', o) := ApplyChange(m, Delete(id));
            o.Applied? && m'.Consistent() && m'.tables == m.tables - {id}
  {
    RemoveOne(m.tables, id);
    var k := m.tables[id];
    assert m.Listed(k, id);
    var m' := ApplyChange(m, Delete(id)).0;
    forall l: nat, n: nat ensures m'.Listed(l, n) { assert m.Listed(l, n); }
  }

  /** In a consistent manifest the assertion never fails, and a change has the effect on the table map
      that the store assumes. */
  lemma ChangeConsistent(m: Manifest, c: Change)
    requires m.Consistent() && (c.Create? ==> c.level < 256)
    ensures var (m', o) := ApplyChange(m, c);
            && m'.Consistent() && !o.Panicked?
            && (o.Applied? <==> ApplyOne(m.tables, c).Some?)
            && (if o.Applied? then ApplyOne(m.tables, c) == Some(m'.tables) else m' == m)
  {
    hide Manifest.Consistent, Manifest.Listed, Manifest.LevelSet, Grown;
    match c
    case Create(id, level) =>
      if id !in m.tables { CreateConsistentIff(m, id, level); }
    case Delete(id) =>
      if id in m.tables { DeleteConsistent(m, id); }
  }

  /** Every change that applies is counted. */
  lemma ChangeCounted(m: Manifest, c: Change)
    ensures var (m', o) := ApplyChange(m, c);
            m'.creations + m'.deletions == m.creations + m.deletions + if o.Applied? then 1 else 0
  {
    hide Grown;
  }

  lemma {:induction false} SetCounted(m: Manifest, cs: seq<Change>)
    ensures m.creations + m.deletions <= ApplySet(m, cs).0.creations + ApplySet(m, cs).0.deletions
    decreases |cs|
  {
    hide ApplyChange;
    if cs != [] {
      ChangeCounted(m, cs[0]);
      if ApplyChange(m, cs[0]).1.Applied? { SetCounted(ApplyChange(m, cs[0]).0, cs[1..]); }
    }
  }

  /** A change set applies as a whole exactly when the store's table map says so, with the same result;
      otherwise some of it may stay. */
  lemma {:induction false} SetConsistent(m: Manifest, cs: seq<Change>)
    requires m.Consistent() && LevelsFit(cs)
    ensures var (m', o) := ApplySet(m, cs);
            && m'.Consistent() && !o.Panicked?
            && (o.Applied? <==> ApplyAll(m.tables, cs).Some?)
            && (o.Applied? ==> ApplyAll(m.tables, cs) == Some(m'.tables))
    decreases |cs|
  {
    hide ApplyChange, Manifest.Consistent;
    if cs != [] {
      ChangeConsistent(m, cs[0]);
      ApplyAllHead(m.tables, cs);
      if ApplyChange(m, cs[0]).1.Applied? { SetConsistent(ApplyChange(m, cs[0]).0, cs[1..]); }
    }
  }

  lemma ApplyAllHead(t: map<nat, nat>, cs: seq<Change>)
    requires cs != []
    ensures ApplyAll(t, cs) == (var r := ApplyOne(t, cs[0]); if r.None? then None else ApplyAll(r.value, cs[1..]))
  {
    assert cs == [cs[0]] + cs[1..];
    ApplySplit(t, [cs[0]], cs[1..]);
    assert [cs[0]][..0] == [];
    assert ApplyAll(t, [cs[0]]) == ApplyOne(t, cs[0]);
  }

  /** Consistent manifests with the same table map list the same tables under every level. */
  lemma SameLevels(a: Manifest, b: Manifest, l: nat)
    requires a.Consistent() && b.Consistent() && a.tables == b.tables
    ensures a.LevelSet(l) == b.LevelSet(l)
  {
    forall id: nat ensures id in a.LevelSet(l) <==> id in b.LevelSet(l) {
      assert a.Listed(l, id) && b.Listed(l, id);
    }
    assert a.LevelSet(l) == b.LevelSet(l);
  }
}
