// The double-ended arena of a skip list: nodes grow up from the front, keys and values down from the back.
module Arena {
  import opened Base
  import opened Bytes

  const ALIGN := 8
  /** Size of a node: 4 + 2 + 2 + 8 bytes of fields and a tower of 20 four-byte offsets, aligned. */
  const NODE_SIZE := 96

  /** Rounds up to a multiple of the pointer alignment. */
  function AlignUp(n: nat): (r: nat)
    ensures n <= r < n + ALIGN && r % ALIGN == 0
  {
    (n + ALIGN - 1) / ALIGN * ALIGN
  }

  // ----- the value word of a node -----

  const TWO_32 := 0x1_0000_0000
  const TWO_16 := 0x1_0000

  /** Offset in the low 32 bits, size in the next 16. */
  function EncodeValue(offset: nat, size: nat): nat { size * TWO_32 + offset }

  function DecodeValue(word: nat): (nat, nat) { (word % TWO_32, word / TWO_32 % TWO_16) }

  lemma ValueWord(offset: nat, size: nat)
    requires offset < TWO_32 && size < TWO_16
    ensures DecodeValue(EncodeValue(offset, size)) == (offset, size)
    ensures EncodeValue(offset, size) <= U64_MAX
    ensures EncodeValue(offset, size) == size * 0x1_0000_0000 + offset
  {
    var word := EncodeValue(offset, size);
    assert word == TWO_32 * size + offset;
    assert word / TWO_32 == size;
  }

  // ----- regions -----

  /** Bytes written at an offset. */
  datatype Region = Region(offset: nat, bytes: seq<byte>)

  /** The regions handed out from the back, each ending where the one before starts. */
  ghost predicate Stacked(regions: seq<Region>, tail: nat, cap: nat)
    decreases |regions|
  {
    if regions == [] then tail == cap
    else
      var last := regions[|regions| - 1];
      last.offset == tail && Stacked(regions[..|regions| - 1], tail + |last.bytes|, cap)
  }

  /** A region lies between the tail and the end. */
  lemma {:induction false} RegionBounds(regions: seq<Region>, tail: nat, cap: nat, i: nat)
    requires Stacked(regions, tail, cap) && i < |regions|
    ensures tail <= regions[i].offset && regions[i].offset + |regions[i].bytes| <= cap
    decreases |regions|
  {
    var last := regions[|regions| - 1];
    TailBound(regions[..|regions| - 1], tail + |last.bytes|, cap);
    if i < |regions| - 1 { RegionBounds(regions[..|regions| - 1], tail + |last.bytes|, cap, i); }
  }

  lemma {:induction false} TailBound(regions: seq<Region>, tail: nat, cap: nat)
    requires Stacked(regions, tail, cap)
    ensures tail <= cap
    decreases |regions|
  {
    if regions != [] {
      var last := regions[|regions| - 1];
      TailBound(regions[..|regions| - 1], tail + |last.bytes|, cap);
    }
  }

  /** Regions handed out at different times do not overlap: the later one ends before the earlier starts. */
  lemma {:induction false} RegionsApart(regions: seq<Region>, tail: nat, cap: nat, i: nat, j: nat)
    requires Stacked(regions, tail, cap) && i < j < |regions|
    ensures regions[j].offset + |regions[j].bytes| <= regions[i].offset
    decreases |regions|
  {
    var last := regions[|regions| - 1];
    var front := regions[..|regions| - 1];
    if j < |regions| - 1 {
      RegionsApart(front, tail + |last.bytes|, cap, i, j);
    } else {
      RegionBounds(front, tail + |last.bytes|, cap, i);
    }
  }

  /** The bytes handed out from the back. */
  function TotalBytes(regions: seq<Region>): nat {
    if regions == [] then 0 else TotalBytes(regions[..|regions| - 1]) + |regions[|regions| - 1].bytes|
  }

  lemma {:induction false} StackedTotal(regions: seq<Region>, tail: nat, cap: nat)
    requires Stacked(regions, tail, cap)
    ensures cap - tail == TotalBytes(regions)
    decreases |regions|
  {
    if regions != [] {
      StackedTotal(regions[..|regions| - 1], tail + |regions[|regions| - 1].bytes|, cap);
    }
  }

  /** Offset of the i-th node: 8 bytes, then NODE_SIZE for each node before it. */
  function NodeOffset(i: nat): nat { 8 + 96 * i }

  /** Nodes do not overlap each other, and none is at the nil offset. */
  lemma NodesApart(i: nat, j: nat)
    requires i < j
    ensures 0 < NodeOffset(i) && NodeOffset(i) + NODE_SIZE <= NodeOffset(j)
  {
    assert NodeOffset(i) == 96 * i + 8;
    assert NodeOffset(j) == 96 * j + 8;
  }

  datatype Node = Node(keyOffset: nat, keySize: nat, height: nat, value: nat)

  /** The region's bytes are in the buffer. */
  ghost predicate Written(buf: seq<byte>, r: Region) {
    r.offset + |r.bytes| <= |buf| && buf[r.offset..r.offset + |r.bytes|] == r.bytes
  }

  /** Writing below the tail does not touch the regions written before. */
  lemma KeepWritten(before: seq<byte>, after: seq<byte>, regions: seq<Region>, tail: nat, cap: nat,
                    offset: nat, bytes: seq<byte>)
    requires |before| == |after| && Stacked(regions, tail, cap) && offset + |bytes| == tail
    requires forall i :: 0 <= i < |regions| ==> Written(before, regions[i])
    requires forall p :: 0 <= p < |before| && !(offset <= p < tail) ==> after[p] == before[p]
    ensures forall i :: 0 <= i < |regions| ==> Written(after, regions[i])
  {
    forall i | 0 <= i < |regions| ensures Written(after, regions[i]) {
      RegionBounds(regions, tail, cap, i);
      var r := regions[i];
      assert Written(before, r);
      forall p | 0 <= p < |r.bytes| ensures after[r.offset..r.offset + |r.bytes|][p] == r.bytes[p] {
        assert before[r.offset..r.offset + |r.bytes|][p] == r.bytes[p];
      }
    }
  }

  /** A node points at its key and at its current value. */
  ghost predicate NodeOk(n: Node, key: seq<byte>, v: ValueStruct, regions: seq<Region>) {
    && Region(n.keyOffset, key) in regions && n.keySize == |key|
    && v.casCounter <= U64_MAX
    && Region(DecodeValue(n.value).0, EncValue(v)) in regions
    && DecodeValue(n.value).1 == |EncValue(v)|
  }

  ghost predicate AllNodes(nodes: seq<Node>, keys: seq<seq<byte>>, vals: seq<ValueStruct>, regions: seq<Region>) {
    && |keys| == |vals| == |nodes|
    && forall i :: 0 <= i < |nodes| ==> NodeOk(nodes[i], keys[i], vals[i], regions)
  }

  /** A further region does not disturb the nodes. */
  lemma MoreRegions(nodes: seq<Node>, keys: seq<seq<byte>>, vals: seq<ValueStruct>, regions: seq<Region>, r: Region)
    requires AllNodes(nodes, keys, vals, regions)
    ensures AllNodes(nodes, keys, vals, regions + [r])
  {
    hide EncValue, DecodeValue;
    forall i | 0 <= i < |nodes| ensures NodeOk(nodes[i], keys[i], vals[i], regions + [r]) {
      assert NodeOk(nodes[i], keys[i], vals[i], regions);
    }
  }

  lemma OneMoreNode(nodes: seq<Node>, keys: seq<seq<byte>>, vals: seq<ValueStruct>, regions: seq<Region>,
                    n: Node, key: seq<byte>, v: ValueStruct)
    requires AllNodes(nodes, keys, vals, regions) && NodeOk(n, key, v, regions)
    ensures AllNodes(nodes + [n], keys + [key], vals + [v], regions)
  {
    hide NodeOk;
  }

  lemma OneNodeChanged(nodes: seq<Node>, keys: seq<seq<byte>>, vals: seq<ValueStruct>, regions: seq<Region>,
                       i: nat, n: Node, v: ValueStruct)
    requires AllNodes(nodes, keys, vals, regions) && i < |nodes| && NodeOk(n, keys[i], v, regions)
    ensures AllNodes(nodes[i := n], keys, vals[i := v], regions)
  {
    hide NodeOk;
  }

  class Arena {
    const cap: nat
    const buf: array<byte>
    /** Offset 0 is kept as the nil pointer. */
    var head: nat
    var tail: nat
    /** The fields of the node at each NodeOffset. */
    var nodes: seq<Node>
    /** Everything written from the back, and what each node stands for. */
    ghost var regions: seq<Region>
    ghost var keys: seq<seq<byte>>
    ghost var vals: seq<ValueStruct>

    constructor (n: nat)
      requires 0 < n && AlignUp(n + 1) <= U32_MAX
      ensures Valid() && fresh(buf) && nodes == [] && regions == [] && cap == AlignUp(n + 1)
    {
      cap := AlignUp(n + 1);
      buf := new byte[AlignUp(n + 1)](_ => 0);
      head, tail := ALIGN, AlignUp(n + 1);
      nodes, regions, keys, vals := [], [], [], [];
    }

    ghost predicate Valid()
      reads this, buf
    {
      && buf.Length == cap <= U32_MAX && cap % ALIGN == 0
      && head == NodeOffset(|nodes|) && head <= tail <= cap
      && Stacked(regions, tail, cap)
      && (forall i :: 0 <= i < |regions| ==> Written(buf[..], regions[i]))
      && AllNodes(nodes, keys, vals, regions)
    }

    /** free_count. */
    function Free(): int
      reads this
    {
      tail - head
    }

    /** `len`: the capacity less what is free. */
    function Len(): int
      reads this
    {
      cap - Free()
    }

    /** put_key: copies the bytes to the back. It panics when they do not leave a byte free. */
    method PutKey(key: seq<byte>) returns (offset: nat)
      requires Valid() && Free() > |key|
      modifies this`tail, this`regions, buf
      ensures Valid() && regions == old(regions) + [Region(offset, key)]
      ensures Free() == old(Free()) - |key|
    {
      hide EncValue, DecodeValue, Stacked;
      ghost var before := buf[..];
      offset := tail - |key|;
      for i := 0 to |key|
        invariant tail == old(tail) && regions == old(regions) && buf[offset..offset + i] == key[..i]
        invariant forall p :: 0 <= p < buf.Length && !(offset <= p < offset + i) ==> buf[p] == before[p]
      {
        buf[offset + i] := key[i];
      }
      tail := offset;
      StackMore(regions, offset, cap, key);
      assert buf[..][offset..offset + |key|] == key;
      KeepWritten(before, buf[..], regions, old(tail), cap, offset, key);
      regions := regions + [Region(offset, key)];
      assert Written(buf[..], Region(offset, key));
      MoreRegions(nodes, keys, vals, old(regions), Region(offset, key));
    }

    /** get_key: the bytes at an offset. */
    method GetKey(offset: nat, size: nat, ghost r: Region) returns (bytes: seq<byte>)
      requires Valid() && r in regions && r.offset == offset && |r.bytes| == size
      ensures bytes == r.bytes
    {
      assert Written(buf[..], r);
      bytes := buf[offset..offset + size];
    }

    /** put_val: the encoded value. */
    method PutVal(v: ValueStruct) returns (offset: nat, size: nat)
      requires Valid() && Free() > VALUE_HEADER_SIZE + |v.value|
      modifies this`tail, this`regions, buf
      ensures Valid() && regions == old(regions) + [Region(offset, EncValue(v))] && size == |EncValue(v)|
      ensures Free() == old(Free()) - size
    {
      var bytes := EncValue(v);
      offset := PutKey(bytes);
      size := |bytes|;
    }

    /** put_node: the next node slot at the front. */
    method PutNode() returns (offset: nat)
      requires Valid() && Free() > NODE_SIZE
      modifies this`head
      ensures offset == NodeOffset(|nodes|) && head == offset + NODE_SIZE <= tail
    {
      offset := head;
      head := head + NODE_SIZE;
    }

    /** Node::new: the new node reads back its key and value, every other node what it did. */
    method NewNode(key: seq<byte>, v: ValueStruct, height: nat) returns (offset: nat)
      requires Valid() && Free() > |key| + VALUE_HEADER_SIZE + |v.value| + NODE_SIZE
      requires |key| <= U16_MAX && VALUE_HEADER_SIZE + |v.value| <= U16_MAX && v.casCounter <= U64_MAX
      modifies this, buf
      ensures Valid() && offset == NodeOffset(|old(nodes)|)
      ensures keys == old(keys) + [key] && vals == old(vals) + [v] && |nodes| == |old(nodes)| + 1
      ensures nodes[..|old(nodes)|] == old(nodes) && nodes[|old(nodes)|].height == height
      ensures old(regions) <= regions
    {
      hide EncValue, Stacked, EncodeValue, DecodeValue;
      var keyOffset := PutKey(key);
      var valueOffset, valueSize := PutVal(v);
      LastIn(regions, Region(valueOffset, EncValue(v)));
      RegionBounds(regions, tail, cap, |regions| - 1);
      RegionBounds(regions, tail, cap, |regions| - 2);
      ValueWord(valueOffset, valueSize);
      offset := PutNode();
      var node := Node(keyOffset, |key|, height, EncodeValue(valueOffset, valueSize));
      OneMoreNode(nodes, keys, vals, regions, node, key, v);
      MoreNodes(|nodes|);
      nodes := nodes + [node];
      keys, vals := keys + [key], vals + [v];
    }

    /** set_value: node i reads back the new value, every other node what it did. */
    method SetValue(i: nat, v: ValueStruct)
      requires Valid() && i < |nodes| && Free() > VALUE_HEADER_SIZE + |v.value|
      requires VALUE_HEADER_SIZE + |v.value| <= U16_MAX && v.casCounter <= U64_MAX
      modifies this, buf
      ensures Valid() && keys == old(keys) && vals == old(vals)[i := v] && |nodes| == |old(nodes)|
      ensures nodes == old(nodes)[i := old(nodes)[i].(value := nodes[i].value)]
      ensures old(regions) <= regions
    {
      hide EncValue, Stacked, EncodeValue, DecodeValue;
      var offset, size := PutVal(v);
      RegionBounds(regions, tail, cap, |regions| - 1);
      LastIn(regions, Region(offset, EncValue(v)));
      ValueWord(offset, size);
      assert NodeOk(nodes[i], keys[i], vals[i], regions);
      OneNodeChanged(nodes, keys, vals, regions, i, nodes[i].(value := EncodeValue(offset, size)), v);
      nodes := nodes[i := nodes[i].(value := EncodeValue(offset, size))];
      vals := vals[i := v];
    }

    /** Node::key. */
    method KeyOf(i: nat) returns (key: seq<byte>)
      requires Valid() && i < |nodes|
      ensures key == keys[i]
    {
      assert NodeOk(nodes[i], keys[i], vals[i], regions);
      key := GetKey(nodes[i].keyOffset, nodes[i].keySize, Region(nodes[i].keyOffset, keys[i]));
    }

    /** get_value_offset and get_val. */
    method ValueOf(i: nat) returns (v: ValueStruct)
      requires Valid() && i < |nodes|
      ensures v == vals[i]
    {
      hide DecValue, DecodeValue;
      assert NodeOk(nodes[i], keys[i], vals[i], regions);
      var (offset, size) := DecodeValue(nodes[i].value);
      var bytes := GetKey(offset, size, Region(offset, EncValue(vals[i])));
      ValueRoundTrip(vals[i]);
      v := DecValue(bytes);
    }

    /** What `len` counts is exactly what was handed out: the nil slot and the nodes in front, the keys and
        values at the back. */
    lemma LenIsUsed()
      requires Valid()
      ensures Len() == NodeOffset(|nodes|) + TotalBytes(regions) && Len() + Free() == cap
    {
      StackedTotal(regions, tail, cap);
    }

    lemma MoreNodes(n: nat)
      ensures NodeOffset(n + 1) == NodeOffset(n) + NODE_SIZE
    {
    }

    /** Nothing handed out overlaps: nodes are aligned and end before the head, everything else starts at the tail. */
    lemma NoOverlap(i: nat, j: nat)
      requires Valid() && i < |nodes| && j < |regions|
      ensures NodeOffset(i) == 8 * (12 * i + 1)
      ensures NodeOffset(i) + NODE_SIZE <= head <= tail <= regions[j].offset
      ensures regions[j].offset + |regions[j].bytes| <= cap
    {
      NodesApart(i, |nodes|);
      RegionBounds(regions, tail, cap, j);
    }
  }

  lemma LastIn(regions: seq<Region>, r: Region)
    requires regions != [] && regions[|regions| - 1] == r
    ensures r in regions
  {
  }

  lemma StackMore(regions: seq<Region>, offset: nat, cap: nat, bytes: seq<byte>)
    requires Stacked(regions, offset + |bytes|, cap)
    ensures Stacked(regions + [Region(offset, bytes)], offset, cap)
  {
    assert (regions + [Region(offset, bytes)])[..|regions|] == regions;
  }
}
