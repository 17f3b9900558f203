// The iterator over a whole table: a cursor over all its entries, block by block.
module TableIterator {
  import opened Base
  import opened Bytes
  import opened KeyOrder
  import opened TableFormat
  import opened TableBuilder
  import opened TableIndex
  import opened BlockIterator

  /** A key with its decoded value. */
  function Decoded(item: Option<Item>): Option<Entry>
    requires item.Some? ==> |item.value.value| >= VALUE_HEADER_SIZE
  {
    if item.None? then None else Some(Entry(item.value.key, DecValue(item.value.value)))
  }

  function EntryAt(es: seq<Entry>, p: int): Option<Entry> {
    if 0 <= p < |es| then Some(es[p]) else None
  }

  lemma DecodedAt(es: seq<Entry>, at: int)
    requires BlockOk(es)
    ensures ItemAt(es, at).Some? ==> |ItemAt(es, at).value.value| >= VALUE_HEADER_SIZE
    ensures Decoded(ItemAt(es, at)) == EntryAt(es, at)
  {
    hide EncValue, DecValue;
    if 0 <= at < |es| {
      assert EntryOk(es[at]);
      ValueRoundTrip(es[at].val);
    }
  }

  /** The index that read_index gives for these blocks. */
  ghost predicate Indexed(index: seq<KeyOffset>, blocks: seq<seq<Entry>>) {
    |index| == |blocks| && forall i :: 0 <= i < |index| ==> blocks[i] != [] && index[i] == IndexAt(blocks, i)
  }

  lemma InBlock(blocks: seq<seq<Entry>>, b: nat, at: nat)
    requires b < |blocks| && at < |blocks[b]|
    ensures FirstIndex(blocks, b) + at < FirstIndex(blocks, b + 1) <= |Flatten(blocks)|
    ensures Flatten(blocks)[FirstIndex(blocks, b) + at] == blocks[b][at]
  {
    hide Flatten;
    EntryIn(blocks, b);
    assert Flatten(blocks)[FirstIndex(blocks, b)..FirstIndex(blocks, b + 1)][at] == blocks[b][at];
  }

  lemma Ends0(blocks: seq<seq<Entry>>)
    ensures FirstIndex(blocks, 0) == 0 && FirstIndex(blocks, |blocks|) == |Flatten(blocks)|
  {
    assert blocks[..|blocks|] == blocks && blocks[..0] == [];
  }

  class IteratorImpl {
    const file: seq<byte>
    const index: seq<KeyOffset>
    const reversed: bool
    ghost const blocks: seq<seq<Entry>>
    ghost const bloom: seq<byte>
    var bpos: int
    var bi: BlockIterator?

    /** Opens the iterator on an opened table. */
    constructor (file: seq<byte>, index: seq<KeyOffset>, reversed: bool,
                 ghost blocks: seq<seq<Entry>>, ghost bloom: seq<byte>)
      requires TableFile(file, blocks, bloom) && Indexed(index, blocks)
      ensures Valid() && bi == null && bpos == if reversed then |blocks| - 1 else 0
      ensures this.file == file && this.index == index && this.blocks == blocks && this.bloom == bloom
      ensures this.reversed == reversed
    {
      this.file, this.index, this.reversed, this.blocks, this.bloom := file, index, reversed, blocks, bloom;
      bpos := if reversed then |index| - 1 else 0;
      bi := null;
    }

    ghost function Entries(): seq<Entry> { Flatten(blocks) }

    ghost function Repr(): set<object>
      reads this
    {
      if bi == null then {this} else {this, bi}
    }

    ghost predicate Valid()
      reads Repr()
    {
      && TableFile(file, blocks, bloom) && Indexed(index, blocks)
      && 0 <= bpos <= |blocks|
      && (bi != null ==>
            && bpos < |blocks| && bi.es == blocks[bpos] && bi.Valid() && -1 <= bi.at <= |bi.es|
            && (bi.at == -1 ==> bpos == 0) && (bi.at == |bi.es| ==> bpos == |blocks| - 1))
    }

    /** The cursor: -1 before the first entry, |Entries()| past the last. Without a block iterator it
        stands before block bpos. */
    ghost function Here(): int
      requires Valid()
      reads Repr()
    {
      if bi == null then FirstIndex(blocks, bpos) - 1 else FirstIndex(blocks, bpos) + bi.at
    }

    /** Past the end without a block iterator; going back from there panics. */
    ghost predicate Overrun()
      reads this
    {
      bi == null && bpos == |blocks|
    }

    /** Opens the iterator of block bpos (get_bi_by_bpos). */
    method OpenBlock() returns (it: BlockIterator)
      requires Valid() && bpos < |blocks|
      modifies this`bi
      ensures it == bi && fresh(it) && it.Valid() && it.es == blocks[bpos] && it.at == -1
    {
      hide TableFile, BlockBytes, Concat, BlockIterator.Valid;
      BlockInFile(file, blocks, bloom, bpos);
      BlockFine(file, blocks, bloom, bpos);
      var ko := index[bpos];
      it := new BlockIterator(file[ko.offset..ko.offset + ko.len], blocks[bpos]);
      bi := it;
    }

    /** `_next`. */
    method Next() returns (r: Option<Entry>)
      requires Valid()
      modifies Repr()
      ensures Valid() && (bi == old(bi) || bi == null || fresh(bi))
      ensures if old(Here()) + 1 < |Entries()|
              then Here() == old(Here()) + 1 && bi != null && r == EntryAt(Entries(), Here())
              else Overrun() && r == None
      decreases |blocks| - bpos
    {
      hide TableFile, Flatten, BlockIterator.Valid, ItemAt, IndexAt;
      Ends0(blocks);
      if bpos >= |index| { return None; }
      var it := bi;
      if it == null { it := OpenBlock(); }
      var item := it.Next();
      BlockFine(file, blocks, bloom, bpos);
      DecodedAt(it.es, it.at);
      EntryIn(blocks, bpos);
      ItemSome(it.es, it.at);
      if item.Some? {
        InBlock(blocks, bpos, it.at);
        return Decoded(item);
      }
      bpos := bpos + 1;
      bi := null;
      r := Next();
    }

    method Peek() returns (r: Option<Entry>)
      requires Valid()
      ensures r == if bi == null then None else EntryAt(Entries(), Here())
    {
      hide TableFile, Flatten, BlockIterator.Valid, ItemAt, IndexAt;
      if bi == null { return None; }
      var item := bi.Peek();
      HereItem();
      return Decoded(item);
    }

    /** The block cursor and the table cursor show the same entry. */
    lemma HereItem()
      requires Valid() && bi != null
      ensures ItemAt(bi.es, bi.at).Some? ==> |ItemAt(bi.es, bi.at).value.value| >= VALUE_HEADER_SIZE
      ensures Decoded(ItemAt(bi.es, bi.at)) == EntryAt(Entries(), Here())
      ensures Here() == -1 <==> bi.at == -1
      ensures -1 <= Here() <= |Entries()|
    {
      hide TableFile, Flatten, BlockIterator.Valid, IndexAt;
      BlockFine(file, blocks, bloom, bpos);
      DecodedAt(bi.es, bi.at);
      EntryIn(blocks, bpos);
      Ends0(blocks);
      if 0 <= bi.at < |bi.es| { InBlock(blocks, bpos, bi.at); }
    }

    /** `prev`: one entry back; the last entry of block bpos when there is no block iterator. */
    method Prev() returns (r: Option<Entry>)
      requires Valid() && !Overrun()
      modifies Repr()
      ensures Valid() && bi != null && (bi == old(bi) || fresh(bi))
      ensures r == EntryAt(Entries(), Here())
      ensures Here() == if old(bi) == null then FirstIndex(blocks, old(bpos) + 1) - 1 else Max(old(Here()) - 1, -1)
      decreases bpos, if bi == null then 0 else 1
    {
      hide TableFile, Flatten, BlockIterator.Valid, ItemAt, IndexAt;
      BlockFine(file, blocks, bloom, bpos);
      EntryIn(blocks, bpos);
      Ends0(blocks);
      if bi == null {
        var it := OpenBlock();
        var last := it.SeekToLast();
        HereItem();
        return Decoded(last);
      }
      var item := bi.Prev();
      ItemSome(bi.es, bi.at);
      if item.Some? {
        HereItem();
        return Decoded(item);
      }
      if bpos == 0 { return None; }
      FirstsAre(blocks, bpos);
      bpos := bpos - 1;
      bi := null;
      r := Prev();
    }

    method Reset()
      requires Valid()
      modifies this
      ensures Valid() && bi == null && bpos == if reversed then |blocks| - 1 else 0
    {
      SomeBlocks(file, blocks, bloom);
      bpos := if reversed then |index| - 1 else 0;
      bi := null;
    }

    /** Xiterator::rewind: the first entry, or the last one of a reversed iterator. */
    method Rewind() returns (r: Option<Entry>)
      requires Valid()
      modifies this
      ensures Valid() && bi != null && fresh(bi)
      ensures r == EntryAt(Entries(), Here()) && r.Some?
      ensures Here() == if reversed then |Entries()| - 1 else 0
    {
      hide TableFile, Flatten, BlockIterator.Valid, ItemAt, IndexAt;
      SomeBlocks(file, blocks, bloom);
      bpos := if reversed then |index| - 1 else 0;
      bi := null;
      BlockFine(file, blocks, bloom, bpos);
      EntryIn(blocks, bpos);
      Ends0(blocks);
      var it := OpenBlock();
      if reversed {
        var item := it.SeekToLast();
        HereItem();
        return Decoded(item);
      }
      var item := it.SeekToFirst();
      HereItem();
      return Decoded(item);
    }

    // ----- seeking -----

    /** binary_search_by on the index keys. */
    method SearchIndex(key: seq<byte>) returns (found: bool, idx: nat)
      requires Valid() && KeysAscend(Entries())
      ensures idx <= |index| && (found ==> idx < |index| && index[idx].key == key)
      ensures forall i :: 0 <= i < idx ==> Less(index[i].key, key)
      ensures !found ==> forall i :: idx <= i < |index| ==> Less(key, index[i].key)
    {
      hide TableFile, Flatten, IndexAt, Less, KeysAscend, Valid;
      IndexStrict();
      var lo, hi := 0, |index|;
      while lo < hi
        invariant 0 <= lo <= hi <= |index|
        invariant forall i :: 0 <= i < lo ==> Less(index[i].key, key)
        invariant forall i :: hi <= i < |index| ==> Less(key, index[i].key)
      {
        var mid := (lo + hi) / 2;
        if index[mid].key == key { return true, mid; }
        Total(index[mid].key, key);
        if Less(index[mid].key, key) {
          forall i | 0 <= i < mid ensures Less(index[i].key, key) { Transitive(index[i].key, index[mid].key, key); }
          lo := mid + 1;
        } else {
          forall i | mid < i < |index| ensures Less(key, index[i].key) {
            Transitive(key, index[mid].key, index[i].key);
          }
          hi := mid;
        }
      }
      return false, lo;
    }

    lemma IndexStrict()
      requires Valid() && KeysAscend(Entries())
      ensures forall i, j :: 0 <= i < j < |index| ==> Less(index[i].key, index[j].key)
    {
      hide TableFile, Flatten, Less, StartOf, BlockBytes;
      forall i, j | 0 <= i < j < |index| ensures Less(index[i].key, index[j].key) {
        FirstEntry(blocks, i);
        FirstEntry(blocks, j);
        FirstsGrow(blocks, i, j);
      }
    }

    /** The cursor stands at the least entry whose key is not less than k, or past the end. */
    ghost predicate Sought(key: seq<byte>)
      requires Valid()
      reads Repr()
    {
      && bi != null && 0 <= Here() <= |Entries()|
      && (forall i :: 0 <= i < |Entries()| && i < Here() ==> Less(Entries()[i].key, key))
      && (Here() < |Entries()| ==> !Less(Entries()[Here()].key, key))
    }

    /** seek_helper: the first entry of block b that is not less than the key, or its dummy. */
    method SeekHelper(b: nat, key: seq<byte>) returns (r: Option<Entry>)
      requires TableFile(file, blocks, bloom) && Indexed(index, blocks) && b < |blocks| && KeysAscend(Entries())
      requires forall i :: 0 <= i < FirstIndex(blocks, b) && i < |Entries()| ==> Less(Entries()[i].key, key)
      modifies this
      ensures bpos == b && bi != null && fresh(bi) && bi.Valid() && bi.es == blocks[b] && 0 <= bi.at <= |bi.es|
      ensures r.Some? <==> bi.at < |bi.es|
      ensures r.Some? || b == |blocks| - 1 ==> Valid() && Sought(key) && r == EntryAt(Entries(), Here())
      ensures r.None? ==> forall i :: 0 <= i < FirstIndex(blocks, b + 1) && i < |Entries()| ==>
                            Less(Entries()[i].key, key)
    {
      hide TableFile, Flatten, BlockIterator.Valid, IndexAt, Less, KeysAscend, ItemAt;
      bpos := b;
      bi := null;
      var it := OpenBlock();
      var item := it.Seek(key);
      BlockFine(file, blocks, bloom, b);
      ItemSome(it.es, it.at);
      SoughtInBlock(b, it.at, key);
      Ends0(blocks);
      EntryIn(blocks, b);
      DecodedAt(it.es, it.at);
      if item.Some? || b == |blocks| - 1 { HereItem(); }
      return Decoded(item);
    }

    /** A scan of block b, with everything before the block less than the key. */
    lemma SoughtInBlock(b: nat, at: nat, key: seq<byte>)
      requires b < |blocks| && at <= |blocks[b]|
      requires forall i :: 0 <= i < FirstIndex(blocks, b) && i < |Entries()| ==> Less(Entries()[i].key, key)
      requires forall i :: 0 <= i < at ==> Less(blocks[b][i].key, key)
      requires at < |blocks[b]| ==> !Less(blocks[b][at].key, key)
      ensures FirstIndex(blocks, b) + at <= |Entries()|
      ensures forall i :: 0 <= i < FirstIndex(blocks, b) + at ==> Less(Entries()[i].key, key)
      ensures at < |blocks[b]| ==> FirstIndex(blocks, b) + at < |Entries()|
                                   && !Less(Entries()[FirstIndex(blocks, b) + at].key, key)
    {
      hide Valid, Flatten, Less, TableFile, IndexAt;
      EntryIn(blocks, b);
      var f := FirstIndex(blocks, b);
      forall i | 0 <= i < f + at ensures Less(Entries()[i].key, key) {
        if i >= f { InBlock(blocks, b, i - f); }
      }
      if at < |blocks[b]| { InBlock(blocks, b, at); }
    }

    /** Everything before block b is less than a key that is not less than the block's first. */
    lemma BeforeBlock(b: nat, key: seq<byte>)
      requires Indexed(index, blocks) && KeysAscend(Entries()) && b < |blocks| && |blocks| > 1
      requires index[b].key == key || Less(index[b].key, key)
      ensures forall i :: 0 <= i < FirstIndex(blocks, b) && i < |Entries()| ==> Less(Entries()[i].key, key)
    {
      hide Flatten, Less, TableFile, StartOf, BlockBytes;
      FirstEntry(blocks, b);
      forall i | 0 <= i < FirstIndex(blocks, b) && i < |Entries()| ensures Less(Entries()[i].key, key) {
        if blocks[b][0].key != key { Transitive(Entries()[i].key, blocks[b][0].key, key); }
      }
    }

    /** seek_from(Origin): the two-stage search agrees with a scan of the whole table. */
    method SeekFrom(key: seq<byte>) returns (r: Option<Entry>)
      requires Valid() && KeysAscend(Entries())
      modifies this
      ensures Valid() && Sought(key) && r == EntryAt(Entries(), Here()) && fresh(bi)
    {
      hide TableFile, Flatten, BlockIterator.Valid, Less, KeysAscend, Sought, ItemAt, IndexAt;
      Reset();
      Ends0(blocks);
      SomeBlocks(file, blocks, bloom);
      var found, idx := SearchIndex(key);
      if found {
        if |blocks| > 1 { BeforeBlock(idx, key); }
        r := SeekHelper(idx, key);
        if r.None? && idx < |blocks| - 1 { NotAfterAll(idx, key); }
        return;
      }
      if idx == 0 {
        r := SeekHelper(0, key);
        if r.None? && |blocks| > 1 { NotAfterAll(0, key); }
        return;
      }
      if |blocks| > 1 { BeforeBlock(idx - 1, key); }
      if idx >= |index| {
        r := SeekHelper(idx - 1, key);
        return;
      }
      r := SeekHelper(idx - 1, key);
      if r.Some? { return; }
      r := SeekHelper(idx, key);
      if r.None? && idx < |blocks| - 1 { NotAfterAll(idx, key); }
    }

    /** A key not greater than the first of block b is not greater than all of the block. */
    lemma NotAfterAll(b: nat, key: seq<byte>)
      requires TableFile(file, blocks, bloom) && Indexed(index, blocks) && b < |blocks| && |blocks| > 1
      requires index[b].key == key || Less(key, index[b].key)
      ensures exists i :: 0 <= i < FirstIndex(blocks, b + 1) && i < |Entries()| && !Less(Entries()[i].key, key)
    {
      hide TableFile, Flatten, Less;
      FirstEntry(blocks, b);
      FirstsGrow(blocks, b, b + 1);
      Irreflexive(key);
      if Less(key, blocks[b][0].key) { Asymmetric(key, blocks[b][0].key); }
      assert !Less(Entries()[FirstIndex(blocks, b)].key, key);
    }

    /** seek_for_prev: the greatest entry whose key is not greater. */
    method SeekForPrev(key: seq<byte>) returns (r: Option<Entry>)
      requires Valid() && KeysAscend(Entries())
      modifies this
      ensures Valid() && bi != null && fresh(bi) && r == EntryAt(Entries(), Here())
      ensures -1 <= Here() < |Entries()|
      ensures forall i :: 0 <= i < |Entries()| ==> (i <= Here() <==> !Less(key, Entries()[i].key))
    {
      hide TableFile, Flatten, BlockIterator.Valid, Less, KeysAscend, ItemAt, StartOf, BlockBytes;
      var item := SeekFrom(key);
      PrevOfSought(Entries(), Here(), key);
      if item.Some? && item.value.key == key { return item; }
      r := Prev();
    }
  }

  /** Around the least entry not less than the key. */
  lemma PrevOfSought(es: seq<Entry>, p: nat, key: seq<byte>)
    requires KeysAscend(es) && p <= |es| && (p < |es| ==> !Less(es[p].key, key))
    requires forall i :: 0 <= i < |es| && i < p ==> Less(es[i].key, key)
    ensures var q := if p < |es| && es[p].key == key then p else p - 1;
            forall i :: 0 <= i < |es| ==> (i <= q <==> !Less(key, es[i].key))
  {
    hide Less;
    forall i | 0 <= i < |es|
      ensures i < p ==> !Less(key, es[i].key)
      ensures i > p ==> Less(key, es[i].key)
      ensures i == p ==> (Less(key, es[i].key) <==> es[i].key != key)
    {
      if i < p { Asymmetric(es[i].key, key); }
      if i >= p { Total(es[p].key, key); Irreflexive(key); }
      if i > p && es[p].key != key { Transitive(key, es[p].key, es[i].key); }
    }
  }

  lemma FirstsAre(blocks: seq<seq<Entry>>, b: nat)
    requires 0 < b <= |blocks|
    ensures FirstIndex(blocks, b - 1) + |blocks[b - 1]| == FirstIndex(blocks, b)
  {
    hide Flatten;
    EntryIn(blocks, b - 1);
  }

  lemma BlockFine(file: seq<byte>, blocks: seq<seq<Entry>>, bloom: seq<byte>, i: nat)
    requires TableFile(file, blocks, bloom) && i < |blocks|
    ensures BlockOk(blocks[i]) && blocks[i] != []
  {
  }

  lemma ItemSome(es: seq<Entry>, at: int)
    ensures ItemAt(es, at).Some? <==> 0 <= at < |es|
  {
  }
}
