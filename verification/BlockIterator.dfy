// The iterator over the bytes of one block: a cursor on the block's entries.
module BlockIterator {
  import opened Base
  import opened Bytes
  import opened KeyOrder
  import opened TableFormat

  /** What the iterator delivers: a key and the bytes of a value. */
  datatype Item = Item(key: seq<byte>, value: seq<byte>)

  function ItemOf(e: Entry): Item { Item(e.key, EncValue(e.val)) }

  /** The item at a cursor position; nothing before the first and past the last entry. */
  function ItemAt(es: seq<Entry>, at: int): Option<Item> {
    if 0 <= at < |es| then Some(ItemOf(es[at])) else None
  }

  class BlockIterator {
    const data: seq<byte>
    var pos: nat
    var baseKey: seq<byte>
    var lastHeader: Option<Header>
    var lastBlock: Option<Item>
    /** The entries encoded in the block, and where the cursor stands: -1 before the first entry, |es|
        on the dummy, |es| + 1 past it. */
    ghost const es: seq<Entry>
    ghost var at: int

    constructor (data: seq<byte>, ghost es: seq<Entry>)
      requires BlockOk(es) && data == BlockBytes(es)
      ensures Valid() && at == -1 && this.data == data && this.es == es
    {
      this.data, this.es := data, es;
      pos, baseKey, lastHeader, lastBlock := 0, [], None, None;
      at := -1;
    }

    ghost predicate Valid()
      reads this
    {
      && BlockOk(es) && data == BlockBytes(es)
      && -1 <= at <= |es| + 1
      && (baseKey == [] || baseKey == es[0].key)
      && if at == -1 then lastHeader == None && pos == 0
         else if at < |es| then
           && lastHeader == Some(HeaderAt(es, at)) && pos == Off(es, at + 1) && baseKey == es[0].key
           && lastBlock == Some(ItemOf(es[at]))
         else if at == |es| then
           lastHeader == Some(DummyHeader(es)) && pos == Off(es, |es|) + HEADER_SIZE && baseKey == es[0].key
         else
           lastHeader == Some(Header(0, 0, 0, 0)) && pos == |data| && baseKey == es[0].key
    }

    method Reset()
      requires Valid()
      modifies this
      ensures Valid() && at == -1
    {
      pos, baseKey, lastHeader, lastBlock := 0, [], None, None;
      at := -1;
    }

    /** parse_kv: the key is the shared prefix of the base key and the bytes at pos. */
    method ParseKv(h: Header, ghost i: nat) returns (r: Item)
      requires BlockOk(es) && data == BlockBytes(es) && baseKey == es[0].key && i < |es|
      requires h == HeaderAt(es, i) && pos == Off(es, i) + HEADER_SIZE
      modifies this`pos, this`lastBlock
      ensures r == ItemOf(es[i]) && lastBlock == Some(r) && pos == Off(es, i + 1)
    {
      hide EncValue, BlockBytes, DecHeader, Off, PrefixLen, EncHeader;
      ReadEntry(es, i);
      var key := baseKey[..h.pLen] + data[pos..pos + h.kLen];
      assert es[i].key == es[i].key[..h.pLen] + es[i].key[h.pLen..];
      pos := pos + h.kLen;
      var value := data[pos..pos + h.vLen];
      pos := pos + h.vLen;
      r := Item(key, value);
      lastBlock := Some(r);
    }

    method Next() returns (r: Option<Item>)
      requires Valid()
      modifies this
      ensures Valid() && at == Min(old(at) + 1, |es| + 1) && r == ItemAt(es, at)
    {
      hide BlockBytes, DecHeader, Off, PrefixLen, EncHeader, EncValue, ItemOf;
      ghost var i := Min(at + 1, |es| + 1);
      ReadDummy(es);
      Starts(es, i);
      if pos >= |data| { return None; }
      var h := DecHeader(data[pos..pos + HEADER_SIZE]);
      lastHeader := Some(h);
      pos := pos + HEADER_SIZE;
      at := i;
      if h.Dummy() { return None; }
      if baseKey == [] {
        FirstKey(es);
        baseKey := data[pos..pos + h.kLen];
      }
      var item := ParseKv(h, i);
      return Some(item);
    }

    method Peek() returns (r: Option<Item>)
      requires Valid()
      ensures r == ItemAt(es, at)
    {
      if lastHeader.None? { return None; }
      if lastHeader.value.Dummy() { return None; }
      if 0 <= at < |es| { HeaderFits(es, at); }
      return lastBlock;
    }

    /** One entry back. From past the dummy (after two overruns) the bytes there send it to the first
        entry. */
    method Prev() returns (r: Option<Item>)
      requires Valid()
      modifies this
      ensures Valid() && r == ItemAt(es, at)
      ensures at == if old(at) > |es| then 0 else Max(old(at) - 1, -1)
    {
      hide BlockBytes, DecHeader, Off, PrefixLen, EncHeader, EncValue, ItemOf, Back;
      if lastHeader.None? { return None; }
      ghost var i := if at > |es| then 0 else at - 1;
      Backs(es, at);
      if lastHeader.value.prev == U32_MAX {
        pos, lastHeader, lastBlock := 0, None, None;
        at := -1;
        return None;
      }
      pos := lastHeader.value.prev;
      Starts(es, i);
      var h := DecHeader(data[pos..pos + HEADER_SIZE]);
      lastHeader := Some(h);
      pos := pos + HEADER_SIZE;
      at := i;
      var item := ParseKv(h, i);
      return Some(item);
    }

    method SeekToFirst() returns (r: Option<Item>)
      requires Valid()
      modifies this
      ensures Valid() && at == 0 && r == ItemAt(es, 0)
    {
      Reset();
      r := Next();
    }

    /** Runs to the dummy and one entry back: the last entry, if the iterator had not yet overrun. */
    method SeekToLast() returns (r: Option<Item>)
      requires Valid()
      modifies this
      ensures Valid() && r == ItemAt(es, at)
      ensures at == if old(at) < |es| then |es| - 1 else 0
    {
      var item := Next();
      while item.Some?
        invariant Valid() && item == ItemAt(es, at)
        invariant if old(at) < |es| then 0 <= at <= |es| else at == |es| + 1
        decreases |es| - at
      {
        item := Next();
      }
      r := Prev();
    }

    lemma NotEmpty()
      requires Valid()
      ensures es != []
    {
    }

    /** The first entry with a key not less than the given one, or the dummy. */
    method Seek(key: seq<byte>) returns (r: Option<Item>)
      requires Valid()
      modifies this
      ensures Valid() && 0 <= at <= |es| && r == ItemAt(es, at)
      ensures forall i :: 0 <= i < at ==> Less(es[i].key, key)
      ensures at < |es| ==> !Less(es[at].key, key)
    {
      hide Less, BlockBytes, Off, PrefixLen, EncValue, DecHeader, Valid;
      Reset();
      NotEmpty();
      while true
        invariant Valid() && -1 <= at < |es|
        invariant forall i :: 0 <= i <= at ==> Less(es[i].key, key)
        decreases |es| - at
      {
        r := Next();
        if r.None? { return; }
        if !Less(r.value.key, key) { return; }
      }
    }
  }

  /** The header found at each place the iterator can stand. */
  lemma Starts(es: seq<Entry>, i: nat)
    requires BlockOk(es) && i <= |es| + 1
    ensures Off(es, 0) == 0
    ensures i <= |es| ==> Off(es, i) + 2 * HEADER_SIZE <= |BlockBytes(es)|
    ensures i < |es| ==> var h := DecHeader(BlockBytes(es)[Off(es, i)..Off(es, i) + HEADER_SIZE]);
                         h == HeaderAt(es, i) && !h.Dummy()
    ensures i == |es| ==> DecHeader(BlockBytes(es)[Off(es, i)..Off(es, i) + HEADER_SIZE]) == DummyHeader(es)
  {
    hide DecHeader, PrefixLen, EncHeader, EncValue;
    ReadDummy(es);
    if i <= |es| { OffGrows(es, i, |es|); }
    if i < |es| { ReadEntry(es, i); }
  }

  /** The first entry of a block stores its whole key. */
  lemma FirstKey(es: seq<Entry>)
    requires BlockOk(es)
    ensures var h := HeaderAt(es, 0);
            h.pLen == 0 && HEADER_SIZE + h.kLen <= |BlockBytes(es)|
            && BlockBytes(es)[HEADER_SIZE..HEADER_SIZE + h.kLen] == es[0].key
            && es[0].key != []
  {
    hide DecHeader, EncHeader, EncValue;
    ReadEntry(es, 0);
    assert EntryOk(es[0]);
    assert es[0].key[0..] == es[0].key;
  }

  /** Where the header at each position points back to. */
  lemma Backs(es: seq<Entry>, at: int)
    requires BlockOk(es) && 0 <= at <= |es| + 1
    ensures Back(es, 0) == U32_MAX
    ensures 0 < at <= |es| ==> Back(es, at) == Off(es, at - 1) < U32_MAX
    ensures Off(es, 0) == 0
  {
    hide PrefixLen;
    if 0 < at <= |es| { OffBound(es, at - 1); }
  }
}
