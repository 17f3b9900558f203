// Key ranges and the compaction status: which ranges of each level a running compaction has claimed.
module Compaction {
  import opened Base
  import opened Tables

  datatype KeyRange = KeyRange(left: Key, right: Key, inf: bool)

  /** The range that stands for all keys; its ends carry no information. */
  const INFO_RANGE := KeyRange(0, 0, true)

  /** KeyRange::equals compares `right` and `inf` with themselves, so only `left` counts. */
  predicate RangeEquals(a: KeyRange, b: KeyRange) {
    a.left == b.left && a.right == a.right && a.inf == a.inf
  }

  predicate Overlaps(a: KeyRange, b: KeyRange) {
    if a.inf || b.inf then true
    else if a.left > b.right then false
    else if a.right < b.left then false
    else true
  }

  predicate InRange(r: KeyRange, k: Key) { r.inf || r.left <= k <= r.right }

  /** Two ranges overlap exactly when some key lies in both. */
  lemma OverlapsIff(a: KeyRange, b: KeyRange)
    requires Proper(a) && Proper(b)
    ensures Overlaps(a, b) <==> exists k :: InRange(a, k) && InRange(b, k)
  {
    if Overlaps(a, b) {
      var k := if a.inf then b.left else if b.inf then a.left else Max(a.left, b.left);
      assert InRange(a, k) && InRange(b, k);
    }
  }

  function RangeOf(ts: seq<Table>): KeyRange
    requires ts != []
  {
    KeyRange(Lo(ts), Hi(ts), false)
  }

  datatype LevelStatus = LevelStatus(ranges: seq<KeyRange>, delSize: nat)

  predicate AnyOverlap(ranges: seq<KeyRange>, r: KeyRange) {
    exists x :: x in ranges && Overlaps(x, r)
  }

  /** LevelCompactStatus::remove: drop every range that `equals` the given one. */
  function Retain(ranges: seq<KeyRange>, r: KeyRange): (kept: seq<KeyRange>)
    ensures |kept| <= |ranges|
  {
    if ranges == [] then []
    else
      var rest := Retain(ranges[..|ranges| - 1], r);
      var last := ranges[|ranges| - 1];
      if RangeEquals(last, r) then rest else rest + [last]
  }

  /** What compare_and_add records for a compaction from level l. */
  function Register(status: seq<LevelStatus>, l: nat, here: KeyRange, next: KeyRange, size: nat): (r: seq<LevelStatus>)
    requires l + 1 < |status|
    ensures |r| == |status|
  {
    status[l := LevelStatus(status[l].ranges + [here], status[l].delSize + size)]
    [l + 1 := LevelStatus(status[l + 1].ranges + [next], status[l + 1].delSize)]
  }

  /** What CompactStatus::delete leaves; the size must not exceed the recorded sum. */
  function Unregister(status: seq<LevelStatus>, l: nat, here: KeyRange, next: KeyRange,
                      size: nat): (r: seq<LevelStatus>)
    requires l + 1 < |status| && size <= status[l].delSize
    ensures |r| == |status|
  {
    status[l := LevelStatus(Retain(status[l].ranges, here), status[l].delSize - size)]
    [l + 1 := LevelStatus(Retain(status[l + 1].ranges, next), status[l + 1].delSize)]
  }

  ghost predicate Apart(ranges: seq<KeyRange>) {
    && (forall i :: 0 <= i < |ranges| ==> Proper(ranges[i]))
    && forall i, j :: 0 <= i < j < |ranges| ==> !Overlaps(ranges[i], ranges[j])
  }

  ghost predicate Proper(r: KeyRange) { r.inf || r.left <= r.right }

  lemma {:induction false} RetainAll(ranges: seq<KeyRange>, r: KeyRange)
    requires forall x :: x in ranges ==> x.left != r.left
    ensures Retain(ranges, r) == ranges
  {
    if ranges != [] {
      assert ranges[|ranges| - 1] in ranges;
      RetainAll(ranges[..|ranges| - 1], r);
    }
  }

  lemma ApartSplit(front: seq<KeyRange>, last: KeyRange)
    ensures Apart(front + [last]) <==>
              Apart(front) && Proper(last) && forall x :: x in front ==> !Overlaps(x, last)
  {
    var all := front + [last];
    assert forall i :: 0 <= i < |front| ==> all[i] == front[i];
    if Apart(all) {
      assert Proper(all[|front|]);
      forall i, j | 0 <= i < j < |front| ensures !Overlaps(front[i], front[j]) {
        assert !Overlaps(all[i], all[j]);
      }
      forall x | x in front ensures !Overlaps(x, last) {
        var i :| 0 <= i < |front| && front[i] == x;
        assert !Overlaps(all[i], all[|front|]);
      }
    }
  }

  /** Although `equals` looks at `left` only, removing a registered range from pairwise disjoint ranges
      removes exactly that one. */
  lemma {:induction false} RetainRemovesOne(ranges: seq<KeyRange>, r: KeyRange)
    requires Apart(ranges) && r in ranges
    ensures multiset(Retain(ranges, r)) == multiset(ranges) - multiset{r}
    ensures Apart(Retain(ranges, r))
    ensures forall x :: x in Retain(ranges, r) ==> x in ranges
  {
    hide Apart, Overlaps, Retain;
    var front, last := ranges[..|ranges| - 1], ranges[|ranges| - 1];
    assert ranges == front + [last];
    ApartSplit(front, last);
    RetainLast(front, last, r);
    if last == r {
      OthersLeft(front, last);
      RetainAll(front, r);
    } else {
      Disjoint(front, last, r);
      RetainRemovesOne(front, r);
      ApartSplit(Retain(front, r), last);
      TakeOne(front, last, r, Retain(front, r));
    }
  }

  lemma TakeOne(front: seq<KeyRange>, last: KeyRange, r: KeyRange, kept: seq<KeyRange>)
    requires r in front && multiset(kept) == multiset(front) - multiset{r}
    ensures multiset(kept + [last]) == multiset(front + [last]) - multiset{r}
  {
    assert r in multiset(front);
  }

  lemma RetainLast(front: seq<KeyRange>, last: KeyRange, r: KeyRange)
    ensures Retain(front + [last], r) == if last.left == r.left then Retain(front, r) else Retain(front, r) + [last]
  {
    assert (front + [last])[..|front|] == front;
  }

  lemma Disjoint(front: seq<KeyRange>, last: KeyRange, r: KeyRange)
    requires Apart(front) && Proper(last) && r in front && !Overlaps(r, last)
    ensures r.left != last.left
  {
  }

  lemma OthersLeft(front: seq<KeyRange>, last: KeyRange)
    requires Apart(front) && Proper(last) && forall x :: x in front ==> !Overlaps(x, last)
    ensures forall x :: x in front ==> x.left != last.left
  {
  }
}
