// The byte format of a table: prefix-compressed blocks of entries, each closed by a dummy entry. Encoding,
// reading one entry at an offset, and the back-pointers are functions here; the lemmas say that reading gives
// back what was written, entry by entry and block by block.
module TableFormat {
  import opened Base
  import opened Bytes

  datatype Entry = Entry(key: seq<byte>, val: ValueStruct)

  /** Lengths fit their two bytes; an empty key would look like the dummy. */
  predicate EntryOk(e: Entry) {
    0 < |e.key| <= U16_MAX && VALUE_HEADER_SIZE + |e.val.value| <= U16_MAX && e.val.casCounter <= U64_MAX
  }

  const RESTART_INTERVAL := 100

  ghost predicate BlockOk(es: seq<Entry>) {
    0 < |es| <= RESTART_INTERVAL && forall i :: 0 <= i < |es| ==> EntryOk(es[i])
  }

  /** The length of the longest common prefix. */
  function Common(a: seq<byte>, b: seq<byte>): (n: nat)
    ensures n <= |a| && n <= |b| && a[..n] == b[..n]
    ensures n < |a| && n < |b| ==> a[n] != b[n]
  {
    if a != [] && b != [] && a[0] == b[0] then
      var n := Common(a[1..], b[1..]);
      assert a == [a[0]] + a[1..] && b == [b[0]] + b[1..];
      1 + n
    else 0
  }

  // ----- one block -----

  /** How much of entry i's key is shared with the block's first key. */
  function PrefixLen(es: seq<Entry>, i: nat): (p: nat)
    requires i < |es|
    ensures p <= |es[i].key| && p <= |es[0].key| && es[i].key[..p] == es[0].key[..p]
  {
    if i == 0 then 0 else Common(es[i].key, es[0].key)
  }

  function Size(es: seq<Entry>, i: nat): nat
    requires i < |es|
  {
    HEADER_SIZE + (|es[i].key| - PrefixLen(es, i)) + VALUE_HEADER_SIZE + |es[i].val.value|
  }

  /** Where entry i starts in its block. */
  function Off(es: seq<Entry>, i: nat): nat
    requires i <= |es|
  {
    if i == 0 then 0 else Off(es, i - 1) + Size(es, i - 1)
  }

  /** The back pointer of entry i; the first entry has none. */
  function Back(es: seq<Entry>, i: nat): nat
    requires i <= |es|
  {
    if i == 0 then U32_MAX else Off(es, i - 1)
  }

  function HeaderAt(es: seq<Entry>, i: nat): Header
    requires i < |es|
  {
    Header(PrefixLen(es, i), |es[i].key| - PrefixLen(es, i), VALUE_HEADER_SIZE + |es[i].val.value|, Back(es, i))
  }

  function RecordAt(es: seq<Entry>, i: nat): (r: seq<byte>)
    requires i < |es|
    ensures |r| == Size(es, i)
  {
    EncHeader(HeaderAt(es, i)) + es[i].key[PrefixLen(es, i)..] + EncValue(es[i].val)
  }

  function Body(es: seq<Entry>, n: nat): (r: seq<byte>)
    requires n <= |es|
    ensures |r| == Off(es, n)
  {
    if n == 0 then [] else Body(es, n - 1) + RecordAt(es, n - 1)
  }

  const NO_VALUE := ValueStruct(0, 0, 0, [])
  const DUMMY_SIZE := 20

  function DummyHeader(es: seq<Entry>): Header { Header(0, 0, VALUE_HEADER_SIZE, Back(es, |es|)) }

  /** The dummy entry tells a backward walk where the last entry is. */
  function DummyBytes(es: seq<Entry>): (r: seq<byte>)
    ensures |r| == DUMMY_SIZE
  {
    EncHeader(DummyHeader(es)) + EncValue(NO_VALUE)
  }

  function BlockBytes(es: seq<Entry>): (r: seq<byte>)
    ensures |r| == Off(es, |es|) + DUMMY_SIZE
  {
    Body(es, |es|) + DummyBytes(es)
  }

  // ----- appending -----

  lemma SamePrefix(es: seq<Entry>, e: Entry, i: nat)
    requires i < |es|
    ensures PrefixLen(es + [e], i) == PrefixLen(es, i) && Size(es + [e], i) == Size(es, i)
  {
    assert (es + [e])[i] == es[i] && (es + [e])[0] == es[0];
  }

  lemma {:induction false} OffPrefix(es: seq<Entry>, e: Entry, n: nat)
    requires n <= |es|
    ensures Off(es + [e], n) == Off(es, n)
  {
    hide PrefixLen, Size;
    if n > 0 {
      OffPrefix(es, e, n - 1);
      SamePrefix(es, e, n - 1);
    }
  }

  lemma RecordPrefix(es: seq<Entry>, e: Entry, i: nat)
    requires i < |es|
    ensures RecordAt(es + [e], i) == RecordAt(es, i)
  {
    hide PrefixLen, Size, Off, EncHeader, EncValue;
    SamePrefix(es, e, i);
    if i > 0 { OffPrefix(es, e, i - 1); }
    assert (es + [e])[i] == es[i];
  }

  lemma {:induction false} BodyPrefix(es: seq<Entry>, e: Entry, n: nat)
    requires n <= |es|
    ensures Body(es + [e], n) == Body(es, n)
  {
    hide PrefixLen, Size, Off, RecordAt;
    if n > 0 {
      BodyPrefix(es, e, n - 1);
      RecordPrefix(es, e, n - 1);
    }
  }

  /** The record an entry gets when it is appended. */
  function NewRecord(es: seq<Entry>, e: Entry): seq<byte> {
    var p := if es == [] then 0 else Common(e.key, es[0].key);
    EncHeader(Header(p, |e.key| - p, VALUE_HEADER_SIZE + |e.val.value|, Back(es, |es|))) + e.key[p..] + EncValue(e.val)
  }

  lemma LastPrefix(es: seq<Entry>, e: Entry)
    ensures PrefixLen(es + [e], |es|) == if es == [] then 0 else Common(e.key, es[0].key)
  {
    hide Common;
    assert (es + [e])[|es|] == e && (es != [] ==> (es + [e])[0] == es[0]);
  }

  lemma LastBack(es: seq<Entry>, e: Entry)
    ensures Back(es + [e], |es|) == Back(es, |es|) && Back(es + [e], |es| + 1) == Off(es, |es|)
  {
    hide Off;
    OffPrefix(es, e, |es|);
    if es != [] { OffPrefix(es, e, |es| - 1); }
  }

  lemma LastRecord(es: seq<Entry>, e: Entry)
    ensures RecordAt(es + [e], |es|) == NewRecord(es, e)
  {
    hide Size, EncHeader, EncValue, Common, Off, Back, PrefixLen;
    assert (es + [e])[|es|] == e;
    LastPrefix(es, e);
    LastBack(es, e);
  }

  /** Adding an entry appends its record, whose back pointer is the start of the entry before. */
  lemma BodyAppend(es: seq<Entry>, e: Entry)
    ensures Body(es + [e], |es| + 1) == Body(es, |es|) + NewRecord(es, e)
    ensures Back(es + [e], |es| + 1) == Off(es, |es|)
  {
    hide NewRecord, RecordAt, Off, Size, PrefixLen;
    BodyPrefix(es, e, |es|);
    LastRecord(es, e);
    LastBack(es, e);
  }

  // ----- reading -----

  lemma {:induction false} OffGrows(es: seq<Entry>, i: nat, j: nat)
    requires i <= j <= |es|
    ensures Off(es, i) <= Off(es, j)
    ensures i < j ==> Off(es, i) + HEADER_SIZE < Off(es, j)
  {
    hide PrefixLen;
    if i < j { OffGrows(es, i, j - 1); }
  }

  lemma {:induction false} OffBound(es: seq<Entry>, i: nat)
    requires i <= |es| && forall n :: 0 <= n < |es| ==> EntryOk(es[n])
    ensures Off(es, i) <= i * 140000
  {
    hide PrefixLen;
    if i > 0 {
      OffBound(es, i - 1);
      assert EntryOk(es[i - 1]);
    }
  }

  lemma HeaderFits(es: seq<Entry>, i: nat)
    requires BlockOk(es) && i <= |es|
    ensures i < |es| ==> HeaderAt(es, i).Fits() && !HeaderAt(es, i).Dummy()
    ensures DummyHeader(es).Fits()
  {
    hide PrefixLen, Off;
    if i > 0 { OffBound(es, i - 1); }
    OffBound(es, |es| - 1);
    if i < |es| { assert EntryOk(es[i]); }
  }

  lemma {:induction false} BodyCut(es: seq<Entry>, i: nat, j: nat)
    requires i <= j <= |es|
    ensures Off(es, i) <= Off(es, j) && Body(es, j)[..Off(es, i)] == Body(es, i)
  {
    hide Off, RecordAt, Size;
    OffGrows(es, i, j);
    if i < j {
      BodyCut(es, i, j - 1);
      OffGrows(es, i, j - 1);
      CutOne(Body(es, j - 1), RecordAt(es, j - 1), Off(es, i));
    } else {
      assert Body(es, j)[..Off(es, i)] == Body(es, j);
    }
  }

  lemma CutOne(a: seq<byte>, b: seq<byte>, n: nat)
    requires n <= |a|
    ensures (a + b)[..n] == a[..n]
  {
  }

  /** Record i lies in the block between its offset and the next. */
  lemma RecordIn(es: seq<Entry>, i: nat)
    requires i < |es|
    ensures Off(es, i) + Size(es, i) == Off(es, i + 1) <= Off(es, |es|)
    ensures BlockBytes(es)[Off(es, i)..Off(es, i + 1)] == RecordAt(es, i)
  {
    hide RecordAt, Size, DummyBytes;
    BodyCut(es, i + 1, |es|);
    CutOne(Body(es, |es|), DummyBytes(es), Off(es, i + 1));
    var data := BlockBytes(es);
    assert data[..Off(es, i + 1)] == Body(es, i + 1) == Body(es, i) + RecordAt(es, i);
    assert data[Off(es, i)..Off(es, i + 1)] == data[..Off(es, i + 1)][Off(es, i)..];
  }

  /** What a reader finds at entry i: its header, the rest of its key, its value. */
  ghost predicate EntryFound(es: seq<Entry>, i: nat)
    requires i < |es|
  {
    var data := BlockBytes(es);
    var h := HeaderAt(es, i);
    var pos := Off(es, i);
    && pos + HEADER_SIZE + h.kLen + h.vLen == Off(es, i + 1) <= Off(es, |es|)
    && DecHeader(data[pos..pos + HEADER_SIZE]) == h && !h.Dummy()
    && data[pos + HEADER_SIZE..pos + HEADER_SIZE + h.kLen] == es[i].key[h.pLen..]
    && data[pos + HEADER_SIZE + h.kLen..Off(es, i + 1)] == EncValue(es[i].val)
  }

  lemma ReadEntry(es: seq<Entry>, i: nat)
    requires BlockOk(es) && i < |es|
    ensures EntryFound(es, i)
  {
    hide EncHeader, DecHeader, EncValue, PrefixLen, BlockBytes, Back, Body;
    RecordIn(es, i);
    HeaderFits(es, i);
    HeaderRoundTrip(HeaderAt(es, i));
    var data := BlockBytes(es);
    var h := HeaderAt(es, i);
    var pos := Off(es, i);
    RecordParts(data, pos, EncHeader(h), es[i].key[h.pLen..], EncValue(es[i].val));
  }

  lemma RecordParts(data: seq<byte>, pos: nat, a: seq<byte>, b: seq<byte>, c: seq<byte>)
    requires pos + |a| + |b| + |c| <= |data| && data[pos..pos + |a| + |b| + |c|] == a + b + c
    ensures data[pos..pos + |a|] == a
    ensures data[pos + |a|..pos + |a| + |b|] == b
    ensures data[pos + |a| + |b|..pos + |a| + |b| + |c|] == c
  {
    var r := a + b + c;
    Slice(data, pos, r, 0, |a|);
    Slice(data, pos, r, |a|, |a| + |b|);
    Slice(data, pos, r, |a| + |b|, |r|);
  }

  lemma Slice(data: seq<byte>, pos: nat, r: seq<byte>, i: nat, j: nat)
    requires pos + |r| <= |data| && data[pos..pos + |r|] == r && i <= j <= |r|
    ensures data[pos + i..pos + j] == r[i..j]
  {
    forall n | 0 <= n < j - i ensures data[pos + i..pos + j][n] == r[i..j][n] {
      assert data[pos..pos + |r|][i + n] == r[i + n];
    }
  }

  /** What a reader finds at the end of a block: the dummy header, and after it bytes that read as a dummy
      header of zeros. */
  ghost predicate DummyFound(es: seq<Entry>) {
    var data := BlockBytes(es);
    var pos := Off(es, |es|);
    && |data| == pos + 2 * HEADER_SIZE
    && DecHeader(data[pos..pos + HEADER_SIZE]) == DummyHeader(es)
    && DecHeader(data[pos + HEADER_SIZE..pos + 2 * HEADER_SIZE]) == Header(0, 0, 0, 0)
  }

  lemma ReadDummy(es: seq<Entry>)
    requires BlockOk(es)
    ensures DummyFound(es)
  {
    hide EncHeader, DecHeader, EncValue, Body, Off, Back;
    HeaderFits(es, |es|);
    HeaderRoundTrip(DummyHeader(es));
    HeaderRoundTrip(Header(0, 0, 0, 0));
    ZeroBytes();
    var pos := Off(es, |es|);
    RecordParts(BlockBytes(es), pos, EncHeader(DummyHeader(es)), [], EncValue(NO_VALUE));
  }

  lemma {:induction false} Zeros(w: nat)
    ensures BigEndian(0, w) == seq(w, _ => 0)
  {
    if w > 0 { Zeros(w - 1); }
  }

  lemma ZeroBytes()
    ensures EncValue(NO_VALUE) == EncHeader(Header(0, 0, 0, 0))
  {
    Zeros(2);
    Zeros(4);
    Zeros(8);
  }
}
