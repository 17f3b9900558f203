// Shared vocabulary: keys, bytes, value structs.
module Base {

  datatype Option<+T> = None | Some(value: T)

  /** A user key, seen through its rank in byte order: outside the byte formats the store only
      compares keys, and any finite set of byte strings embeds into the integers
      (KeyOrder.RankEmbeds). */
  type Key = int

  type byte = b: int | 0 <= b < 256

  const U16_MAX := 0xffff
  const U32_MAX := 0xffff_ffff
  const U64_MAX := 0xffff_ffff_ffff_ffff

  /** The value kept with a key, `|meta|user_meta|cas_counter|value|`. */
  datatype ValueStruct = ValueStruct(meta: byte, userMeta: byte, casCounter: nat, value: seq<byte>)
  {
    /** BIT_DELETE is bit 0 of the meta byte. */
    predicate Deleted() { meta % 2 == 1 }

    /** A memtable lookup falls through a live value with no bytes. */
    predicate Visible() { Deleted() || value != [] }
  }

  function Max(a: int, b: int): int { if a < b then b else a }

  function Min(a: int, b: int): int { if a < b then a else b }

  function Flatten<T>(xss: seq<seq<T>>): seq<T> {
    if xss == [] then [] else xss[0] + Flatten(xss[1..])
  }

  lemma {:induction false} FlattenConcat<T>(a: seq<seq<T>>, b: seq<seq<T>>)
    ensures Flatten(a + b) == Flatten(a) + Flatten(b)
  {
    if a == [] {
      assert a + b == b;
    } else {
      assert (a + b)[1..] == a[1..] + b;
      FlattenConcat(a[1..], b);
    }
  }

  lemma FlattenSnoc<T>(a: seq<seq<T>>, x: seq<T>)
    ensures Flatten(a + [x]) == Flatten(a) + x
  {
    FlattenConcat(a, [x]);
    assert [x][1..] == [];
  }
}
