// Manifest changes and their effect on the id -> level table map.
module Changes {
  import opened Base
  import opened Tables

  datatype Change = Create(id: nat, level: nat) | Delete(id: nat)

  /** The table part of apply_manifest_change; None is the error of a create that exists or a delete
      that does not. */
  function ApplyOne(m: map<nat, nat>, c: Change): (r: Option<map<nat, nat>>) {
    match c
    case Create(id, level) => if id in m then None else Some(m[id := level])
    case Delete(id) => if id in m then Some(m - {id}) else None
  }

  function ApplyAll(m: map<nat, nat>, cs: seq<Change>): (r: Option<map<nat, nat>>) {
    if cs == [] then Some(m)
    else
      var r := ApplyAll(m, cs[..|cs| - 1]);
      if r.None? then None else ApplyOne(r.value, cs[|cs| - 1])
  }

  function Creates(ts: seq<Table>, level: nat): (cs: seq<Change>)
    ensures |cs| == |ts| && forall i :: 0 <= i < |ts| ==> cs[i] == Create(ts[i].id, level)
  {
    seq(|ts|, i requires 0 <= i < |ts| => Create(ts[i].id, level))
  }

  function Deletes(ts: seq<Table>): (cs: seq<Change>)
    ensures |cs| == |ts| && forall i :: 0 <= i < |ts| ==> cs[i] == Delete(ts[i].id)
  {
    seq(|ts|, i requires 0 <= i < |ts| => Delete(ts[i].id))
  }

  lemma {:induction false} ApplySplit(m: map<nat, nat>, a: seq<Change>, b: seq<Change>)
    ensures ApplyAll(m, a + b) == (var r := ApplyAll(m, a); if r.None? then None else ApplyAll(r.value, b))
  {
    if b == [] {
      assert a + b == a;
    } else {
      assert (a + b)[..|a + b| - 1] == a + b[..|b| - 1];
      ApplySplit(m, a, b[..|b| - 1]);
    }
  }

  /** Creating tables with new, distinct ids always succeeds and maps exactly these ids. */
  lemma LastApplied(m: map<nat, nat>, cs: seq<Change>)
    requires cs != []
    ensures var r := ApplyAll(m, cs[..|cs| - 1]);
            ApplyAll(m, cs) == if r.None? then None else ApplyOne(r.value, cs[|cs| - 1])
  {
  }

  lemma {:induction false} ApplyCreates(m: map<nat, nat>, ts: seq<Table>, level: nat)
    requires DistinctIds(ts) && forall t :: t in ts ==> t.id !in m
    ensures var r := ApplyAll(m, Creates(ts, level));
            && r.Some?
            && r.value.Keys == m.Keys + Ids(ts)
            && forall id :: id in r.value ==> r.value[id] == if id in Ids(ts) then level else m[id]
  {
    if ts != [] {
      var front, last := ts[..|ts| - 1], ts[|ts| - 1];
      assert ts == front + [last];
      assert Creates(ts, level)[..|ts| - 1] == Creates(front, level);
      ApplyCreates(m, front, level);
      assert last.id !in Ids(front);
      IdsSnoc(front, last);
      hide ApplyAll;
      LastApplied(m, Creates(ts, level));
    }
  }

  /** Deleting tables with present, distinct ids always succeeds and removes exactly these ids. */
  lemma {:induction false} ApplyDeletes(m: map<nat, nat>, ts: seq<Table>)
    requires DistinctIds(ts) && forall t :: t in ts ==> t.id in m
    ensures ApplyAll(m, Deletes(ts)) == Some(m - Ids(ts))
  {
    if ts == [] {
      assert m - Ids(ts) == m;
    } else {
      var front, last := ts[..|ts| - 1], ts[|ts| - 1];
      assert ts == front + [last];
      assert Deletes(ts)[..|ts| - 1] == Deletes(front);
      ApplyDeletes(m, front);
      assert last.id !in Ids(front);
      IdsSnoc(front, last);
      RemoveTwice(m, Ids(front), last.id);
    }
  }

  lemma IdsSnoc(ts: seq<Table>, t: Table)
    ensures Ids(ts + [t]) == Ids(ts) + {t.id}
  {
  }

  lemma RemoveTwice(m: map<nat, nat>, ids: set<nat>, id: nat)
    ensures m - ids - {id} == m - (ids + {id})
  {
  }

  /** The manifest after a compaction: the output at the next level, the inputs gone, the rest as before. */
  ghost predicate Moved(m: map<nat, nat>, outs: seq<Table>, top: seq<Table>, bot: seq<Table>, level: nat,
                        m': map<nat, nat>) {
    forall id ::
      && (id in m' <==> id in Ids(outs) || (id in m && id !in Ids(top) && id !in Ids(bot)))
      && (id in m' ==> m'[id] == if id in Ids(outs) then level else m[id])
  }

  /** The change set of a merge applies whenever its outputs are new and its inputs are listed at their
      levels. */
  lemma MergeApplies(m: map<nat, nat>, outs: seq<Table>, top: seq<Table>, bot: seq<Table>, l: nat)
    requires DistinctIds(outs) && DistinctIds(top) && DistinctIds(bot)
    requires forall t :: t in outs ==> t.id !in m
    requires forall t :: t in top ==> t.id in m && m[t.id] == l
    requires forall t :: t in bot ==> t.id in m && m[t.id] == l + 1
    ensures var r := ApplyAll(m, Creates(outs, l + 1) + Deletes(top) + Deletes(bot));
            r.Some? && Moved(m, outs, top, bot, l + 1, r.value)
  {
    hide ApplyAll, DistinctIds;
    ApplySplit(m, Creates(outs, l + 1) + Deletes(top), Deletes(bot));
    ApplySplit(m, Creates(outs, l + 1), Deletes(top));
    ApplyCreates(m, outs, l + 1);
    var m1 := ApplyAll(m, Creates(outs, l + 1)).value;
    ApplyDeletes(m1, top);
    var m2 := m1 - Ids(top);
    forall t | t in bot ensures t.id in m2 {
      assert t.id !in Ids(top);
    }
    ApplyDeletes(m2, bot);
  }

  lemma MoveApplies(m: map<nat, nat>, t: Table, l: nat)
    requires t.id in m
    ensures var r := ApplyAll(m, [Delete(t.id), Create(t.id, l + 1)]);
            r.Some? && Moved(m, [t], [t], [], l + 1, r.value)
  {
    var cs := [Delete(t.id), Create(t.id, l + 1)];
    assert cs[..1] == [Delete(t.id)] && cs[..1][..0] == [];
    assert ApplyAll(m, cs[..1]) == Some(m - {t.id});
    assert Ids([t]) == {t.id};
  }
}
