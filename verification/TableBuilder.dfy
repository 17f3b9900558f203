// Building a table's bytes.
module TableBuilder {
  import opened Base
  import opened Bytes
  import opened TableFormat

  /** The blocks one after the other. */
  function Concat(blocks: seq<seq<Entry>>): seq<byte> {
    if blocks == [] then [] else Concat(blocks[..|blocks| - 1]) + BlockBytes(blocks[|blocks| - 1])
  }

  /** Where each block ends. */
  function Ends(blocks: seq<seq<Entry>>): (r: seq<nat>)
    ensures |r| == |blocks|
  {
    if blocks == [] then [] else Ends(blocks[..|blocks| - 1]) + [|Concat(blocks)|]
  }

  lemma {:induction false} EndsAt(blocks: seq<seq<Entry>>, i: nat)
    requires i < |blocks|
    ensures Ends(blocks)[i] == |Concat(blocks[..i + 1])|
  {
    hide Concat;
    var front := blocks[..|blocks| - 1];
    if i < |front| {
      EndsAt(front, i);
      assert front[..i + 1] == blocks[..i + 1];
    } else {
      assert blocks[..i + 1] == blocks;
    }
  }

  function EncOffsets(xs: seq<nat>): (r: seq<byte>)
    ensures |r| == 4 * |xs|
  {
    if xs == [] then [] else EncOffsets(xs[..|xs| - 1]) + BigEndian(xs[|xs| - 1], 4)
  }

  /** The whole file: blocks, end offsets and their number, bloom filter and its length. */
  function TableBytes(blocks: seq<seq<Entry>>, bloom: seq<byte>): seq<byte> {
    Concat(blocks) + EncOffsets(Ends(blocks)) + BigEndian(|blocks|, 4) + bloom + BigEndian(|bloom|, 4)
  }

  /** The entries cut into full blocks of RESTART_INTERVAL, the last one possibly shorter but not empty. */
  ghost predicate Chunked(entries: seq<Entry>, blocks: seq<seq<Entry>>) {
    && Flatten(blocks) == entries && blocks != []
    && (forall i :: 0 <= i < |blocks| ==> BlockOk(blocks[i]))
    && forall i :: 0 <= i < |blocks| - 1 ==> |blocks[i]| == RESTART_INTERVAL
  }

  lemma ConcatSnoc(blocks: seq<seq<Entry>>, es: seq<Entry>)
    ensures Concat(blocks + [es]) == Concat(blocks) + BlockBytes(es)
    ensures Ends(blocks + [es]) == Ends(blocks) + [|Concat(blocks)| + |BlockBytes(es)|]
  {
    hide BlockBytes, Concat, Ends;
    var all := blocks + [es];
    assert all[..|all| - 1] == blocks && all[|all| - 1] == es;
    LastBlock(all);
  }

  lemma LastBlock(blocks: seq<seq<Entry>>)
    requires blocks != []
    ensures Concat(blocks) == Concat(blocks[..|blocks| - 1]) + BlockBytes(blocks[|blocks| - 1])
    ensures Ends(blocks) == Ends(blocks[..|blocks| - 1]) + [|Concat(blocks)|]
  {
    hide BlockBytes;
  }

  class Builder {
    var counter: nat
    var buf: seq<byte>
    var baseKey: seq<byte>
    var baseOffset: nat
    var restarts: seq<nat>
    var prevOffset: nat
    /** The finished blocks and the entries of the current one. */
    ghost var blocks: seq<seq<Entry>>
    ghost var cur: seq<Entry>

    constructor ()
      ensures Valid() && Entries() == [] && buf == []
    {
      counter, buf, baseKey, baseOffset, restarts, prevOffset := 0, [], [], 0, [], U32_MAX;
      blocks, cur := [], [];
    }

    ghost predicate Valid()
      reads this
    {
      && (forall i :: 0 <= i < |blocks| ==> BlockOk(blocks[i]) && |blocks[i]| == RESTART_INTERVAL)
      && (forall i :: 0 <= i < |cur| ==> EntryOk(cur[i]))
      && counter == |cur| <= RESTART_INTERVAL
      && buf == Concat(blocks) + Body(cur, |cur|)
      && baseOffset == |Concat(blocks)| && restarts == Ends(blocks)
      && baseKey == (if cur == [] then [] else cur[0].key)
      && prevOffset == Back(cur, |cur|)
      && (blocks != [] ==> cur != [])
    }

    /** Everything added so far. */
    ghost function Entries(): seq<Entry>
      reads this
    {
      Flatten(blocks) + cur
    }

    /** The part of a new key that differs from the base key. */
    static method KeyDiff(newKey: seq<byte>, key: seq<byte>) returns (diff: seq<byte>)
      ensures diff == newKey[Common(newKey, key)..]
    {
      var i := 0;
      while i < |newKey| && i < |key|
        invariant i <= |newKey| && i <= |key| && newKey[..i] == key[..i]
      {
        if newKey[i] != key[i] { break; }
        i := i + 1;
      }
      CommonIs(newKey, key, i);
      diff := newKey[i..];
    }

    /** Appends one record; a key of no bytes makes it the dummy. */
    method AddHelper(key: seq<byte>, v: ValueStruct)
      requires |key| <= U16_MAX && VALUE_HEADER_SIZE + |v.value| <= U16_MAX && baseOffset <= |buf|
      modifies this`counter, this`buf, this`baseKey, this`prevOffset
      ensures baseKey == if old(baseKey) == [] then key else old(baseKey)
      ensures prevOffset == |old(buf)| - baseOffset && counter == old(counter) + 1
      ensures var p := if old(baseKey) == [] then 0 else Common(key, old(baseKey));
              buf == old(buf) + (EncHeader(Header(p, |key| - p, VALUE_HEADER_SIZE + |v.value|, old(prevOffset)))
                                 + key[p..] + EncValue(v))
    {
      var diff := key;
      if baseKey == [] {
        baseKey := key;
      } else {
        diff := KeyDiff(key, baseKey);
      }
      var h := Header(|key| - |diff|, |diff|, VALUE_HEADER_SIZE + |v.value|, prevOffset);
      prevOffset := |buf| - baseOffset;
      assert diff == key[|key| - |diff|..];
      buf := buf + (EncHeader(h) + diff + EncValue(v));
      counter := counter + 1;
    }

    /** Closes the current block with the dummy entry. */
    method FinishBlock()
      requires Valid()
      modifies this`counter, this`buf, this`baseKey, this`prevOffset
      ensures buf == Concat(blocks + [cur]) && |buf| == |old(buf)| + DUMMY_SIZE
      ensures cur != [] ==> baseKey == old(baseKey)
    {
      hide Off, PrefixLen, EncHeader, EncValue, Concat, Body, Ends, Common, BlockBytes, Back, BlockOk;
      ConcatSnoc(blocks, cur);
      DummyRecord(cur);
      AddHelper([], NO_VALUE);
    }

    method Add(key: seq<byte>, v: ValueStruct)
      requires Valid() && EntryOk(Entry(key, v)) && |buf| + DUMMY_SIZE <= U32_MAX
      modifies this
      ensures Valid() && Entries() == old(Entries()) + [Entry(key, v)] && buf != [] && cur != []
      ensures |buf| <= |old(buf)| + 2 * DUMMY_SIZE + |key| + |v.value|
    {
      hide Off, PrefixLen, EncHeader, EncValue, Concat, Body, Ends, Common, Flatten, EntryOk;
      if counter >= RESTART_INTERVAL {
        ConcatSnoc(blocks, cur);
        FlattenSnoc(blocks, cur);
        FinishBlock();
        restarts := restarts + [|buf|];
        counter, baseKey, baseOffset, prevOffset := 0, [], |buf|, U32_MAX;
        blocks, cur := blocks + [cur], [];
        NoBody();
      }
      AddToBlock(Entry(key, v));
    }

    /** A record of a real entry in the current block. */
    method AddToBlock(e: Entry)
      requires counter < RESTART_INTERVAL && EntryOk(e)
      requires (forall i :: 0 <= i < |blocks| ==> BlockOk(blocks[i]) && |blocks[i]| == RESTART_INTERVAL)
      requires (forall i :: 0 <= i < |cur| ==> EntryOk(cur[i])) && counter == |cur|
      requires buf == Concat(blocks) + Body(cur, |cur|)
      requires baseOffset == |Concat(blocks)| && restarts == Ends(blocks)
      requires baseKey == (if cur == [] then [] else cur[0].key) && prevOffset == Back(cur, |cur|)
      modifies this`counter, this`buf, this`baseKey, this`prevOffset, this`cur
      ensures Valid() && cur == old(cur) + [e] && buf != []
      ensures |buf| <= |old(buf)| + DUMMY_SIZE + |e.key| + |e.val.value|
    {
      hide Off, PrefixLen, EncHeader, EncValue, Concat, Body, Ends, Common, BlockOk;
      BodyAppend(cur, e);
      RecordIs(cur, e);
      assert cur != [] ==> EntryOk(cur[0]);
      AddHelper(e.key, e.val);
      cur := cur + [e];
    }

    /** The bytes of the whole table. The bloom filter's bytes come from a library. */
    method Finish(bloom: seq<byte>) returns (file: seq<byte>)
      requires Valid() && cur != []
      modifies this
      ensures file == TableBytes(old(blocks) + [old(cur)], bloom) == buf
      ensures |Concat(old(blocks) + [old(cur)])| == |old(buf)| + DUMMY_SIZE
      ensures Chunked(old(Entries()), old(blocks) + [old(cur)])
    {
      hide Off, PrefixLen, EncHeader, EncValue, Concat, Body, Ends, Common, Flatten, EncOffsets;
      ConcatSnoc(blocks, cur);
      FlattenSnoc(blocks, cur);
      FinishBlock();
      var index := BlockIndex();
      buf := buf + index;
      buf := buf + bloom;
      buf := buf + BigEndian(|bloom|, 4);
      file := buf;
    }

    /** block_index: the end offset of every block and their number. */
    method BlockIndex() returns (out: seq<byte>)
      modifies this`restarts
      ensures restarts == old(restarts) + [|buf|]
      ensures out == EncOffsets(restarts) + BigEndian(|restarts|, 4)
    {
      restarts := restarts + [|buf|];
      out := [];
      for i := 0 to |restarts|
        invariant restarts == old(restarts) + [|buf|]
        invariant out == EncOffsets(restarts[..i])
      {
        assert restarts[..i + 1][..i] == restarts[..i];
        out := out + BigEndian(restarts[i], 4);
      }
      assert restarts[..|restarts|] == restarts;
      out := out + BigEndian(|restarts|, 4);
    }
  }

  lemma NoBody()
    ensures Body([], 0) == [] && Back([], 0) == U32_MAX
  {
  }

  lemma DummyRecord(es: seq<Entry>)
    ensures var d := EncHeader(Header(0, 0, VALUE_HEADER_SIZE, Back(es, |es|))) + [] + EncValue(NO_VALUE);
            forall a :: a + Body(es, |es|) + d == a + BlockBytes(es)
    ensures es != [] ==> Common([], es[0].key) == 0
  {
    hide Off, Body, EncHeader, EncValue, PrefixLen, Back;
    var d := EncHeader(Header(0, 0, VALUE_HEADER_SIZE, Back(es, |es|))) + [] + EncValue(NO_VALUE);
    assert d == DummyBytes(es);
    forall a ensures a + Body(es, |es|) + d == a + BlockBytes(es) { Assoc(a, Body(es, |es|), d); }
  }

  lemma Assoc(a: seq<byte>, b: seq<byte>, c: seq<byte>)
    ensures a + b + c == a + (b + c)
  {
  }

  lemma RecordIs(es: seq<Entry>, e: Entry)
    ensures var p := if es == [] then 0 else Common(e.key, es[0].key);
            NewRecord(es, e) == EncHeader(Header(p, |e.key| - p, VALUE_HEADER_SIZE + |e.val.value|, Back(es, |es|)))
                                + e.key[p..] + EncValue(e.val)
    ensures 0 < |NewRecord(es, e)| <= DUMMY_SIZE + |e.key| + |e.val.value|
  {
  }

  lemma {:induction false} CommonIs(a: seq<byte>, b: seq<byte>, i: nat)
    requires i <= |a| && i <= |b| && a[..i] == b[..i] && (i < |a| && i < |b| ==> a[i] != b[i])
    ensures Common(a, b) == i
  {
    if i > 0 {
      assert a[..i][0] == b[..i][0];
      assert a[1..][..i - 1] == a[..i][1..] && b[1..][..i - 1] == b[..i][1..];
      CommonIs(a[1..], b[1..], i - 1);
    }
  }
}
