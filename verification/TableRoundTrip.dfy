// A table built from entries, opened and walked, gives the entries back.
module TableRoundTrip {
  import opened Base
  import opened Bytes
  import opened TableFormat
  import opened TableBuilder
  import opened TableIndex
  import opened TableIterator

  /** A bound on the size of the blocks; offsets in the file have four bytes. */
  function SizeBound(es: seq<Entry>): nat {
    if es == [] then 0
    else
      var e := es[|es| - 1];
      SizeBound(es[..|es| - 1]) + 2 * DUMMY_SIZE + |e.key| + |e.val.value|
  }

  lemma {:induction false} BoundPrefix(es: seq<Entry>, n: nat)
    requires n <= |es|
    ensures SizeBound(es[..n]) <= SizeBound(es)
  {
    if n < |es| {
      BoundPrefix(es[..|es| - 1], n);
      assert es[..|es| - 1][..n] == es[..n];
    } else {
      assert es[..n] == es;
    }
  }

  ghost predicate Storable(es: seq<Entry>) {
    es != [] && (forall i :: 0 <= i < |es| ==> EntryOk(es[i])) && SizeBound(es) + 2 * DUMMY_SIZE <= U32_MAX
  }

  lemma ChunkSizes(es: seq<Entry>, blocks: seq<seq<Entry>>)
    requires Chunked(es, blocks)
    ensures Flatten(blocks) == es
    ensures forall i :: 0 <= i < |blocks| ==> 0 < |blocks[i]| <= 100 && (i < |blocks| - 1 ==> |blocks[i]| == 100)
  {
    hide EntryOk, Flatten;
    assert forall i :: 0 <= i < |blocks| ==> BlockOk(blocks[i]);
  }

  lemma BoundNone()
    ensures SizeBound([]) == 0
  {
  }

  lemma BoundStep(es: seq<Entry>, i: nat)
    requires i < |es|
    ensures SizeBound(es[..i + 1]) == SizeBound(es[..i]) + 2 * DUMMY_SIZE + |es[i].key| + |es[i].val.value|
    ensures SizeBound(es[..i + 1]) <= SizeBound(es)
  {
    assert es[..i + 1][..i] == es[..i];
    BoundPrefix(es, i + 1);
  }

  /** Adds the entries and finishes the table. */
  method Build(es: seq<Entry>, bloom: seq<byte>) returns (file: seq<byte>, ghost blocks: seq<seq<Entry>>)
    requires Storable(es) && |bloom| <= U32_MAX
    ensures TableFile(file, blocks, bloom) && Chunked(es, blocks) && Flatten(blocks) == es
    ensures forall i :: 0 <= i < |blocks| ==> 0 < |blocks[i]| <= 100 && (i < |blocks| - 1 ==> |blocks[i]| == 100)
  {
    hide Concat, Body, Ends, EncOffsets, BlockOk, EntryOk, TableBytes, Builder.Valid, BigEndian, SizeBound, Flatten;
    BoundNone();
    var b := new Builder();
    for i := 0 to |es|
      invariant b.Valid() && b.Entries() == es[..i] && fresh(b) && |b.buf| <= SizeBound(es[..i])
      invariant i > 0 ==> b.cur != []
    {
      BoundStep(es, i);
      assert es[..i + 1] == es[..i] + [es[i]];
      assert es[i] == Entry(es[i].key, es[i].val);
      b.Add(es[i].key, es[i].val);
    }
    assert es[..|es|] == es;
    blocks := b.blocks + [b.cur];
    file := b.Finish(bloom);
    ChunkSizes(es, blocks);
  }

  /** Rewinds and calls next to the end. */
  method Walk(it: IteratorImpl) returns (out: seq<Entry>)
    requires it.Valid() && !it.reversed
    modifies it.Repr()
    ensures out == it.Entries()
  {
    hide Flatten, IteratorImpl.Valid, IteratorImpl.Here;
    var r := it.Rewind();
    out := [];
    while r.Some?
      invariant it.Valid() && (it.bi == null || fresh(it.bi)) && |out| <= |it.Entries()| && out == it.Entries()[..|out|]
      invariant if |out| < |it.Entries()| then it.bi != null && it.Here() == |out| && r == EntryAt(it.Entries(), |out|)
                else r == None
      decreases |it.Entries()| - |out|
    {
      out := out + [r.value];
      r := it.Next();
    }
  }

  /** Rewinds a reversed iterator and calls prev to the start. */
  method WalkBack(it: IteratorImpl) returns (out: seq<Entry>)
    requires it.Valid() && it.reversed
    modifies it.Repr()
    ensures |out| == |it.Entries()| && forall i :: 0 <= i < |out| ==> out[i] == it.Entries()[|out| - 1 - i]
  {
    hide Flatten, IteratorImpl.Valid, IteratorImpl.Here;
    var r := it.Rewind();
    out := [];
    while r.Some?
      invariant it.Valid() && it.bi != null && fresh(it.bi) && it.Here() == |it.Entries()| - 1 - |out| >= -1
      invariant r == EntryAt(it.Entries(), it.Here())
      invariant forall i :: 0 <= i < |out| ==> out[i] == it.Entries()[|it.Entries()| - 1 - i]
      decreases |it.Entries()| - |out|
    {
      out := out + [r.value];
      r := it.Prev();
    }
  }

  lemma IndexedIs(index: seq<KeyOffset>, blocks: seq<seq<Entry>>)
    requires |index| == |blocks| && forall i :: 0 <= i < |index| ==> blocks[i] != [] && index[i] == IndexAt(blocks, i)
    ensures Indexed(index, blocks)
  {
  }

  /** The first key, as open_table computes it, and a walk from there. */
  method FromStart(file: seq<byte>, index: seq<KeyOffset>, ghost blocks: seq<seq<Entry>>, ghost bloom: seq<byte>)
    returns (smallest: seq<byte>, forward: seq<Entry>)
    requires TableFile(file, blocks, bloom) && Indexed(index, blocks)
    ensures forward == Flatten(blocks) && forward != [] && smallest == forward[0].key
  {
    hide TableFile, Flatten, IteratorImpl.Valid, IteratorImpl.Here, Indexed;
    var it := new IteratorImpl(file, index, false, blocks, bloom);
    var s := it.Rewind();
    smallest := s.value.key;
    forward := Walk(it);
  }

  /** The last key, as open_table computes it, and a walk back from there. */
  method FromEnd(file: seq<byte>, index: seq<KeyOffset>, ghost blocks: seq<seq<Entry>>, ghost bloom: seq<byte>)
    returns (biggest: seq<byte>, backward: seq<Entry>)
    requires TableFile(file, blocks, bloom) && Indexed(index, blocks)
    ensures |backward| == |Flatten(blocks)| > 0 && biggest == backward[0].key
    ensures forall i :: 0 <= i < |backward| ==> backward[i] == Flatten(blocks)[|backward| - 1 - i]
  {
    hide TableFile, Flatten, IteratorImpl.Valid, IteratorImpl.Here, Indexed;
    var it := new IteratorImpl(file, index, true, blocks, bloom);
    var s := it.Rewind();
    biggest := s.value.key;
    backward := WalkBack(it);
  }

  /** The round trip: forward the entries, backward their reverse, and the table's ends are the first and
      the last key. */
  method RoundTrip(es: seq<Entry>, bloom: seq<byte>)
    returns (forward: seq<Entry>, backward: seq<Entry>, smallest: seq<byte>, biggest: seq<byte>)
    requires Storable(es) && KeysAscend(es) && |bloom| <= U32_MAX
    ensures forward == es
    ensures |backward| == |es| && forall i :: 0 <= i < |es| ==> backward[i] == es[|es| - 1 - i]
    ensures smallest == es[0].key && biggest == es[|es| - 1].key
  {
    hide TableFile, Flatten, IteratorImpl.Valid, KeysAscend, IteratorImpl.Here, BlockOk, Indexed;
    var file, blocks := Build(es, bloom);
    var index := ReadIndex(file, blocks, bloom);
    assert Indexed(index, blocks) by { IndexedIs(index, blocks); }
    biggest, backward := FromEnd(file, index, blocks, bloom);
    smallest, forward := FromStart(file, index, blocks, bloom);
  }
}
