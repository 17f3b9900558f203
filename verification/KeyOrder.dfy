// The byte order of keys, and why the other modules may compare ranks instead.
module KeyOrder {
  import opened Base

  /** Lexicographic byte order. */
  predicate Less(a: seq<byte>, b: seq<byte>) {
    b != [] && (a == [] || a[0] < b[0] || (a[0] == b[0] && Less(a[1..], b[1..])))
  }

  /** One key comes before another exactly when it is a proper prefix of it, or has the smaller byte where they
      first differ. */
  ghost predicate DiffersAt(a: seq<byte>, b: seq<byte>, i: nat) {
    i < |a| && i < |b| && a[..i] == b[..i] && a[i] < b[i]
  }

  lemma {:induction false} LessIff(a: seq<byte>, b: seq<byte>)
    ensures Less(a, b) <==> (|a| < |b| && a == b[..|a|]) || exists i: nat :: DiffersAt(a, b, i)
  {
    if a != [] && b != [] && a[0] == b[0] {
      var x, y := a[1..], b[1..];
      assert a == [a[0]] + x && b == [b[0]] + y;
      LessIff(x, y);
      if |x| < |y| && x == y[..|x|] { assert a == b[..|a|]; }
      if |a| < |b| && a == b[..|a|] { assert x == y[..|x|]; }
      if i: nat :| DiffersAt(x, y, i) {
        assert a[..i + 1] == [a[0]] + x[..i] && b[..i + 1] == [b[0]] + y[..i];
        assert DiffersAt(a, b, i + 1);
      }
      if i: nat :| DiffersAt(a, b, i) {
        assert i > 0 && x[..i - 1] == a[..i][1..] && y[..i - 1] == b[..i][1..];
        assert DiffersAt(x, y, i - 1);
      }
    } else if a != [] && b != [] {
      if a[0] < b[0] { assert DiffersAt(a, b, 0); }
      assert |a| < |b| ==> b[..|a|][0] == b[0];
      if i: nat :| DiffersAt(a, b, i) { assert i > 0 ==> a[..i][0] == b[..i][0]; }
    }
  }

  lemma {:induction false} Irreflexive(a: seq<byte>)
    ensures !Less(a, a)
  {
    if a != [] { Irreflexive(a[1..]); }
  }

  lemma {:induction false} Transitive(a: seq<byte>, b: seq<byte>, c: seq<byte>)
    requires Less(a, b) && Less(b, c)
    ensures Less(a, c)
  {
    if a != [] && a[0] == b[0] && b[0] == c[0] { Transitive(a[1..], b[1..], c[1..]); }
  }

  lemma {:induction false} Total(a: seq<byte>, b: seq<byte>)
    ensures Less(a, b) || a == b || Less(b, a)
  {
    if a != [] && b != [] && a[0] == b[0] {
      Total(a[1..], b[1..]);
      assert a == [a[0]] + a[1..] && b == [b[0]] + b[1..];
    }
  }

  lemma Asymmetric(a: seq<byte>, b: seq<byte>)
    requires Less(a, b)
    ensures !Less(b, a) && a != b
  {
    Irreflexive(a);
    if Less(b, a) { Transitive(a, b, a); }
  }

  /** How many keys of a finite set come before a key. */
  function Rank(keys: set<seq<byte>>, k: seq<byte>): nat {
    |set q | q in keys && Less(q, k)|
  }

  lemma RankGrows(keys: set<seq<byte>>, a: seq<byte>, b: seq<byte>)
    requires a in keys && Less(a, b)
    ensures Rank(keys, a) < Rank(keys, b)
  {
    var before, upto := set q | q in keys && Less(q, a), set q | q in keys && Less(q, b);
    forall q | q in before ensures q in upto { Transitive(q, a, b); }
    Irreflexive(a);
    assert a in upto - before;
    StrictSubset(before, upto, a);
  }

  lemma StrictSubset(a: set<seq<byte>>, b: set<seq<byte>>, x: seq<byte>)
    requires a <= b && x in b && x !in a
    ensures |a| < |b|
  {
    assert b == a + (b - a);
    assert |b| == |a| + |b - a|;
    assert x in b - a;
  }

  /** Ranks keep the order of any finite set of byte strings, so comparing integers loses nothing. */
  lemma RankEmbeds(keys: set<seq<byte>>, a: seq<byte>, b: seq<byte>)
    requires a in keys && b in keys
    ensures Rank(keys, a) < Rank(keys, b) <==> Less(a, b)
    ensures Rank(keys, a) == Rank(keys, b) <==> a == b
  {
    Total(a, b);
    if Less(a, b) { RankGrows(keys, a, b); Asymmetric(a, b); }
    if Less(b, a) { RankGrows(keys, b, a); Asymmetric(b, a); }
    if a == b { Irreflexive(a); }
  }
}
