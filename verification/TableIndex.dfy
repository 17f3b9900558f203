// Opening a table: the block index is read back from the end of the file. The lemmas place each block,
// its restarts and its index entry in the file, so that what the reader finds at each offset is what the
// builder wrote there.
module TableIndex {
  import opened Base
  import opened Bytes
  import opened KeyOrder
  import opened TableFormat
  import opened TableBuilder

  datatype KeyOffset = KeyOffset(offset: nat, len: nat, key: seq<byte>)

  /** Keys strictly grow. */
  ghost predicate KeysAscend(es: seq<Entry>) {
    forall i, j :: 0 <= i < j < |es| ==> Less(es[i].key, es[j].key)
  }

  /** The file of a table: what the builder wrote for these blocks, small enough for 4-byte offsets. */
  ghost predicate TableFile(file: seq<byte>, blocks: seq<seq<Entry>>, bloom: seq<byte>) {
    && file == TableBytes(blocks, bloom)
    && blocks != [] && (forall i :: 0 <= i < |blocks| ==> BlockOk(blocks[i]))
    && |Concat(blocks)| <= U32_MAX && |bloom| <= U32_MAX
  }

  /** Where block i starts. */
  function StartOf(blocks: seq<seq<Entry>>, i: nat): nat
    requires i <= |blocks|
  {
    |Concat(blocks[..i])|
  }

  /** The index entry of block i: in a table of one block the key is not loaded. */
  ghost function IndexAt(blocks: seq<seq<Entry>>, i: nat): KeyOffset
    requires i < |blocks| && blocks[i] != []
  {
    KeyOffset(StartOf(blocks, i), |BlockBytes(blocks[i])|, if |blocks| == 1 then [] else blocks[i][0].key)
  }

  // ----- the bytes at the end of the file -----

  lemma {:induction false} OffsetAt(xs: seq<nat>, i: nat)
    requires i < |xs|
    ensures EncOffsets(xs)[4 * i..4 * i + 4] == BigEndian(xs[i], 4)
  {
    hide BigEndian;
    var front := xs[..|xs| - 1];
    if i < |front| {
      OffsetAt(front, i);
      Slice(EncOffsets(xs), 0, EncOffsets(front), 4 * i, 4 * i + 4);
      assert EncOffsets(xs)[0..|EncOffsets(front)|] == EncOffsets(front);
    } else {
      assert EncOffsets(xs) == EncOffsets(front) + BigEndian(xs[i], 4);
    }
  }

  /** The parts of the file, found from its end. */
  lemma Tail(a: seq<byte>, b: seq<byte>, c: seq<byte>, d: seq<byte>, e: seq<byte>)
    ensures var file := a + b + c + d + e;
            && file[|file| - |e|..] == e
            && file[|file| - |e| - |d| - |c|..|file| - |e| - |d|] == c
            && file[|a|..|a| + |b|] == b
            && |a| + |b| + |c| + |d| + |e| == |file|
            && file[..|a|] == a
  {
    var file := a + b + c + d + e;
    assert file == a + b + c + (d + e);
    assert file == a + b + (c + (d + e));
    assert file == a + (b + (c + (d + e)));
  }

  /** Block i's bytes are where the index says. */
  lemma {:induction false} BlockIn(blocks: seq<seq<Entry>>, i: nat)
    requires i < |blocks|
    ensures StartOf(blocks, i) + |BlockBytes(blocks[i])| == StartOf(blocks, i + 1) <= |Concat(blocks)|
    ensures Concat(blocks)[StartOf(blocks, i)..StartOf(blocks, i + 1)] == BlockBytes(blocks[i])
  {
    hide BlockBytes, Concat, Ends;
    var front, last := blocks[..|blocks| - 1], blocks[|blocks| - 1];
    assert blocks == front + [last];
    ConcatSnoc(front, last);
    if i < |front| {
      BlockIn(front, i);
      assert front[..i] == blocks[..i] && front[..i + 1] == blocks[..i + 1];
      Slice(Concat(blocks), 0, Concat(front), StartOf(blocks, i), StartOf(blocks, i + 1));
      assert Concat(blocks)[0..|Concat(front)|] == Concat(front);
    } else {
      assert blocks[..i] == front && blocks[..i + 1] == blocks;
    }
  }

  lemma BlockInFile(file: seq<byte>, blocks: seq<seq<Entry>>, bloom: seq<byte>, i: nat)
    requires TableFile(file, blocks, bloom) && i < |blocks|
    ensures StartOf(blocks, i) + |BlockBytes(blocks[i])| == StartOf(blocks, i + 1) <= |file|
    ensures StartOf(blocks, i + 1) <= U32_MAX
    ensures file[StartOf(blocks, i)..StartOf(blocks, i + 1)] == BlockBytes(blocks[i])
  {
    hide BlockBytes, Concat, BigEndian, EncOffsets, Ends, BlockOk;
    BlockIn(blocks, i);
    Tail(Concat(blocks), EncOffsets(Ends(blocks)), BigEndian(|blocks|, 4), bloom, BigEndian(|bloom|, 4));
    Slice(file, 0, Concat(blocks), StartOf(blocks, i), StartOf(blocks, i + 1));
    assert file[0..|Concat(blocks)|] == file[..|Concat(blocks)|];
  }

  /** A block starts with the header of its first entry and that entry's whole key. */
  lemma FirstOfBlock(file: seq<byte>, blocks: seq<seq<Entry>>, bloom: seq<byte>, i: nat)
    requires TableFile(file, blocks, bloom) && i < |blocks|
    ensures blocks[i] != []
    ensures var off := StartOf(blocks, i);
            && off + HEADER_SIZE + |blocks[i][0].key| <= |file|
            && var h := DecHeader(file[off..off + HEADER_SIZE]);
               h.pLen == 0 && h.kLen == |blocks[i][0].key|
               && file[off + HEADER_SIZE..off + HEADER_SIZE + h.kLen] == blocks[i][0].key
  {
    hide TableFile, BlockOk, BlockBytes, DecHeader, StartOf;
    BlockInFile(file, blocks, bloom, i);
    var es := blocks[i];
    BlocksOk(file, blocks, bloom, i);
    BlockHead(es);
    var off := StartOf(blocks, i);
    var data := BlockBytes(es);
    Slice(file, off, data, 0, HEADER_SIZE);
    Slice(file, off, data, HEADER_SIZE, HEADER_SIZE + |es[0].key|);
  }

  lemma BlocksOk(file: seq<byte>, blocks: seq<seq<Entry>>, bloom: seq<byte>, i: nat)
    requires TableFile(file, blocks, bloom) && i < |blocks|
    ensures BlockOk(blocks[i])
  {
    hide BlockOk, TableBytes;
  }

  lemma BlockHead(es: seq<Entry>)
    requires BlockOk(es)
    ensures es != [] && HEADER_SIZE + |es[0].key| <= |BlockBytes(es)|
    ensures var h := DecHeader(BlockBytes(es)[0..HEADER_SIZE]);
            && h.pLen == 0 && h.kLen == |es[0].key|
            && BlockBytes(es)[HEADER_SIZE..HEADER_SIZE + h.kLen] == es[0].key
  {
    hide DecHeader, EncValue;
    ReadEntry(es, 0);
    assert HeaderAt(es, 0).pLen == 0 && es[0].key[0..] == es[0].key;
  }

  lemma TailOf(file: seq<byte>, blocks: seq<seq<Entry>>, bloom: seq<byte>)
    requires TableFile(file, blocks, bloom)
    ensures var n := |file|;
            && |Concat(blocks)| + 4 * |blocks| + 8 + |bloom| == n
            && file[n - 4..] == BigEndian(|bloom|, 4)
            && file[n - 8 - |bloom|..n - 4 - |bloom|] == BigEndian(|blocks|, 4)
            && file[|Concat(blocks)|..|Concat(blocks)| + 4 * |blocks|] == EncOffsets(Ends(blocks))
  {
    hide Concat, BigEndian, EncOffsets, Ends, BlockOk;
    Tail(Concat(blocks), EncOffsets(Ends(blocks)), BigEndian(|blocks|, 4), bloom, BigEndian(|bloom|, 4));
  }

  lemma {:induction false} ManyBlocks(blocks: seq<seq<Entry>>)
    ensures |blocks| <= |Concat(blocks)|
  {
    hide BlockBytes;
    if blocks != [] { ManyBlocks(blocks[..|blocks| - 1]); }
  }

  // ----- read_index -----

  /** Reads the end offsets. */
  method ReadOffsets(file: seq<byte>, ghost blocks: seq<seq<Entry>>, ghost bloom: seq<byte>)
    returns (offsets: seq<nat>)
    requires TableFile(file, blocks, bloom)
    ensures offsets == Ends(blocks)
  {
    hide Concat, BigEndian, EncOffsets, Ends, BlockOk, FromBigEndian, TableFile;
    Widths();
    TailOf(file, blocks, bloom);
    FileSizes(file, blocks, bloom);
    var readPos := |file|;
    readPos := readPos - 4;
    BigEndianRoundTrip(|bloom|, 4);
    assert file[readPos..readPos + 4] == file[|file| - 4..];
    var bloomLen := FromBigEndian(file[readPos..readPos + 4]);
    assert bloomLen == |bloom|;
    readPos := readPos - bloomLen;
    readPos := readPos - 4;
    BigEndianRoundTrip(|blocks|, 4);
    var restartsLen := FromBigEndian(file[readPos..readPos + 4]);
    assert restartsLen == |blocks|;
    readPos := readPos - 4 * restartsLen;
    assert readPos == |Concat(blocks)|;
    offsets := [];
    for i := 0 to restartsLen
      invariant |offsets| == i <= |Ends(blocks)| && forall n :: 0 <= n < i ==> offsets[n] == Ends(blocks)[n]
    {
      EndFits(file, blocks, bloom, i);
      OffsetAt(Ends(blocks), i);
      Slice(file, readPos, EncOffsets(Ends(blocks)), 4 * i, 4 * i + 4);
      BigEndianRoundTrip(Ends(blocks)[i], 4);
      offsets := offsets + [FromBigEndian(file[readPos + 4 * i..readPos + 4 * i + 4])];
    }
  }

  lemma FileSizes(file: seq<byte>, blocks: seq<seq<Entry>>, bloom: seq<byte>)
    requires TableFile(file, blocks, bloom)
    ensures |blocks| <= U32_MAX && |bloom| <= U32_MAX
  {
    ManyBlocks(blocks);
  }

  lemma EndFits(file: seq<byte>, blocks: seq<seq<Entry>>, bloom: seq<byte>, i: nat)
    requires TableFile(file, blocks, bloom) && i < |blocks|
    ensures Ends(blocks)[i] == StartOf(blocks, i + 1) <= U32_MAX
  {
    hide Concat, BlockBytes, BlockOk;
    EndsAt(blocks, i);
    BlockIn(blocks, i);
  }

  ghost predicate IndexAscends(index: seq<KeyOffset>) {
    forall i, j :: 0 <= i < j < |index| ==> !Less(index[j].key, index[i].key)
  }

  /** The stable sort by key; an index that is in order stays as it is. */
  method SortByKey(index: seq<KeyOffset>) returns (r: seq<KeyOffset>)
    ensures multiset(r) == multiset(index)
    ensures IndexAscends(index) ==> r == index
  {
    r := [];
    for i := 0 to |index|
      invariant multiset(r) == multiset(index[..i]) && |r| == i
      invariant IndexAscends(index) ==> r == index[..i]
    {
      var n := |r|;
      while n > 0 && Less(index[i].key, r[n - 1].key)
        invariant 0 <= n <= |r| && (IndexAscends(index) ==> n == |r|)
      {
        n := n - 1;
      }
      assert index[..i + 1] == index[..i] + [index[i]];
      InsertAt(r, n, index[i]);
      r := r[..n] + [index[i]] + r[n..];
    }
    assert index[..|index|] == index;
  }

  lemma InsertAt(r: seq<KeyOffset>, n: nat, x: KeyOffset)
    requires n <= |r|
    ensures multiset(r[..n] + [x] + r[n..]) == multiset(r) + multiset{x}
    ensures n == |r| ==> r[..n] + [x] + r[n..] == r + [x]
  {
    assert r == r[..n] + r[n..];
  }

  /** read_index: for keys in order, the index lists the blocks in order with the first key of each. */
  method ReadIndex(file: seq<byte>, ghost blocks: seq<seq<Entry>>, ghost bloom: seq<byte>)
    returns (index: seq<KeyOffset>)
    requires TableFile(file, blocks, bloom) && KeysAscend(Flatten(blocks))
    ensures |index| == |blocks| && forall i :: 0 <= i < |index| ==> blocks[i] != [] && index[i] == IndexAt(blocks, i)
  {
    hide TableFile, Concat, BlockBytes, DecHeader, Less, Flatten, KeysAscend;
    var offsets := ReadOffsets(file, blocks, bloom);
    index := [];
    for i := 0 to |offsets|
      invariant |index| == i <= |blocks|
      invariant forall n :: 0 <= n < i ==> index[n] == KeyOffset(StartOf(blocks, n), |BlockBytes(blocks[n])|, [])
    {
      EndFits(file, blocks, bloom, i);
      BlockInFile(file, blocks, bloom, i);
      if i > 0 { EndFits(file, blocks, bloom, i - 1); }
      assert blocks[..0] == [];
      NoBlocks();
      var offset := if i == 0 then 0 else offsets[i - 1];
      index := index + [KeyOffset(offset, offsets[i] - offset, [])];
    }
    SomeBlocks(file, blocks, bloom);
    if |index| == 1 { return; }
    var loaded := FirstKeys(file, blocks, bloom, index);
    IndexInOrder(blocks, loaded);
    index := SortByKey(loaded);
  }

  /** The first key of every block, read from the block's start. */
  method FirstKeys(file: seq<byte>, ghost blocks: seq<seq<Entry>>, ghost bloom: seq<byte>, index: seq<KeyOffset>)
    returns (loaded: seq<KeyOffset>)
    requires TableFile(file, blocks, bloom) && |index| == |blocks| > 1
    requires forall n :: 0 <= n < |index| ==> index[n] == KeyOffset(StartOf(blocks, n), |BlockBytes(blocks[n])|, [])
    ensures |loaded| == |blocks| && forall n :: 0 <= n < |loaded| ==> blocks[n] != [] && loaded[n] == IndexAt(blocks, n)
  {
    hide TableFile, Concat, BlockBytes, DecHeader, StartOf;
    loaded := [];
    for i := 0 to |index|
      invariant |loaded| == i && forall n :: 0 <= n < i ==> blocks[n] != [] && loaded[n] == IndexAt(blocks, n)
    {
      FirstOfBlock(file, blocks, bloom, i);
      var block := index[i];
      var head := DecHeader(file[block.offset..block.offset + HEADER_SIZE]);
      assert head.pLen == 0;
      var key := file[HEADER_SIZE + block.offset..HEADER_SIZE + block.offset + head.kLen];
      loaded := loaded + [block.(key := key)];
    }
  }

  lemma NoBlocks()
    ensures |Concat([])| == 0
  {
  }

  lemma SomeBlocks(file: seq<byte>, blocks: seq<seq<Entry>>, bloom: seq<byte>)
    requires TableFile(file, blocks, bloom)
    ensures blocks != [] && forall i :: 0 <= i < |blocks| ==> blocks[i] != []
  {
    assert forall i :: 0 <= i < |blocks| ==> BlockOk(blocks[i]);
  }

  /** Where entry n of block i is in the whole list. */
  function FirstIndex(blocks: seq<seq<Entry>>, i: nat): nat
    requires i <= |blocks|
  {
    |Flatten(blocks[..i])|
  }

  lemma {:induction false} EntryIn(blocks: seq<seq<Entry>>, i: nat)
    requires i < |blocks|
    ensures FirstIndex(blocks, i) + |blocks[i]| == FirstIndex(blocks, i + 1) <= |Flatten(blocks)|
    ensures Flatten(blocks)[FirstIndex(blocks, i)..FirstIndex(blocks, i + 1)] == blocks[i]
  {
    hide Flatten;
    FlattenSnoc(blocks[..i], blocks[i]);
    assert blocks[..i + 1] == blocks[..i] + [blocks[i]];
    FlattenConcat(blocks[..i + 1], blocks[i + 1..]);
    assert blocks == blocks[..i + 1] + blocks[i + 1..];
  }

  lemma {:induction false} FirstsGrow(blocks: seq<seq<Entry>>, i: nat, j: nat)
    requires i <= j <= |blocks| && forall n :: 0 <= n < |blocks| ==> blocks[n] != []
    ensures FirstIndex(blocks, i) <= FirstIndex(blocks, j)
    ensures i < j ==> FirstIndex(blocks, i) < FirstIndex(blocks, j)
  {
    hide Flatten;
    if i < j {
      FirstsGrow(blocks, i, j - 1);
      EntryIn(blocks, j - 1);
    }
  }

  lemma FirstEntry(blocks: seq<seq<Entry>>, i: nat)
    requires i < |blocks| && blocks[i] != []
    ensures FirstIndex(blocks, i) < |Flatten(blocks)| && Flatten(blocks)[FirstIndex(blocks, i)] == blocks[i][0]
  {
    hide Flatten;
    EntryIn(blocks, i);
    assert Flatten(blocks)[FirstIndex(blocks, i)..FirstIndex(blocks, i + 1)][0] == blocks[i][0];
  }

  lemma IndexInOrder(blocks: seq<seq<Entry>>, index: seq<KeyOffset>)
    requires |index| == |blocks| && KeysAscend(Flatten(blocks))
    requires forall i :: 0 <= i < |index| ==> blocks[i] != [] && index[i] == IndexAt(blocks, i)
    ensures IndexAscends(index)
  {
    hide Flatten, Less, StartOf, BlockBytes;
    forall i, j | 0 <= i < j < |index| ensures !Less(index[j].key, index[i].key) {
      FirstEntry(blocks, i);
      FirstEntry(blocks, j);
      FirstsGrow(blocks, i, j);
      Asymmetric(blocks[i][0].key, blocks[j][0].key);
    }
  }
}
