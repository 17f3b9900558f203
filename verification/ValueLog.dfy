// Writing batches to the value log (one file) and reading values back through the stored pointers.
module ValueLog {
  import opened Base
  import opened Bytes

  /** An entry as the value log writes it. */
  datatype LogEntry = LogEntry(key: seq<byte>, meta: byte, userMeta: byte, value: seq<byte>, casCounter: nat,
                               casCheck: nat)
  {
    predicate Fits() {
      |key| <= U32_MAX && |value| <= U32_MAX && casCounter <= U64_MAX && casCheck <= U64_MAX
    }

    predicate Deleted() { meta % 2 == 1 }
  }

  /** Where an entry is: file, length, offset. */
  datatype Pointer = Pointer(fid: nat, len: nat, offset: nat)

  // ----- codecs -----

  const POINTER_SIZE := 12

  function EncPointer(p: Pointer): (r: seq<byte>)
    ensures |r| == POINTER_SIZE
  {
    BigEndian(p.fid, 4) + BigEndian(p.len, 4) + BigEndian(p.offset, 4)
  }

  function DecPointer(s: seq<byte>): Pointer
    requires |s| == POINTER_SIZE
  {
    Pointer(FromBigEndian(s[..4]), FromBigEndian(s[4..8]), FromBigEndian(s[8..12]))
  }

  /** The pointer kept in the store as a value decodes to itself. */
  lemma PointerRoundTrip(p: Pointer)
    requires p.fid <= U32_MAX && p.len <= U32_MAX && p.offset <= U32_MAX
    ensures DecPointer(EncPointer(p)) == p
  {
    Widths();
    var s := EncPointer(p);
    assert s[..4] == BigEndian(p.fid, 4);
    assert s[4..8] == BigEndian(p.len, 4);
    assert s[8..12] == BigEndian(p.offset, 4);
    BigEndianRoundTrip(p.fid, 4);
    BigEndianRoundTrip(p.len, 4);
    BigEndianRoundTrip(p.offset, 4);
  }

  /** The layout: file, length, offset, four bytes each. */
  lemma PointerLayout(p: Pointer)
    requires p.fid <= U32_MAX && p.len <= U32_MAX && p.offset <= U32_MAX
    ensures var s := EncPointer(p);
            |s| == 12 && Four(s[..4]) == p.fid && Four(s[4..8]) == p.len && Four(s[8..]) == p.offset
  {
    var s := EncPointer(p);
    assert s[..4] == BigEndian(p.fid, 4) && s[4..8] == BigEndian(p.len, 4) && s[8..] == BigEndian(p.offset, 4);
    FourBytes(p.fid);
    FourBytes(p.len);
    FourBytes(p.offset);
  }

  /** The header takes 26 bytes of a 32-byte slot, the size of the struct with its padding. */
  const HEADER_BYTES := 26
  const HEADER_SLOT := 32

  function EncLogHeader(e: LogEntry): (r: seq<byte>)
    ensures |r| == HEADER_BYTES
  {
    BigEndian(|e.key|, 4) + BigEndian(|e.value|, 4) + [e.meta, e.userMeta]
    + BigEndian(e.casCounter, 8) + BigEndian(e.casCheck, 8)
  }

  datatype LogHeader = LogHeader(kLen: nat, vLen: nat, meta: byte, userMeta: byte, casCounter: nat, casCheck: nat)

  function DecLogHeader(s: seq<byte>): LogHeader
    requires |s| == HEADER_SLOT
  {
    LogHeader(FromBigEndian(s[..4]), FromBigEndian(s[4..8]), s[8], s[9], FromBigEndian(s[10..18]),
              FromBigEndian(s[18..26]))
  }

  function HeaderOf(e: LogEntry): LogHeader {
    LogHeader(|e.key|, |e.value|, e.meta, e.userMeta, e.casCounter, e.casCheck)
  }

  function Slot(e: LogEntry): (r: seq<byte>)
    ensures |r| == HEADER_SLOT
  {
    EncLogHeader(e) + seq(HEADER_SLOT - HEADER_BYTES, _ => 0)
  }

  lemma LogHeaderRoundTrip(e: LogEntry)
    requires e.Fits()
    ensures DecLogHeader(Slot(e)) == HeaderOf(e)
  {
    Widths();
    var s := Slot(e);
    assert s[..4] == BigEndian(|e.key|, 4);
    assert s[4..8] == BigEndian(|e.value|, 4);
    assert s[10..18] == BigEndian(e.casCounter, 8);
    assert s[18..26] == BigEndian(e.casCheck, 8);
    BigEndianRoundTrip(|e.key|, 4);
    BigEndianRoundTrip(|e.value|, 4);
    BigEndianRoundTrip(e.casCounter, 8);
    BigEndianRoundTrip(e.casCheck, 8);
  }

  /** The layout: key length, value length, meta, user meta, the two counters; six bytes of the slot stay zero. */
  lemma LogHeaderLayout(e: LogEntry)
    requires e.Fits()
    ensures var s := Slot(e);
            && |s| == 32 && Four(s[..4]) == |e.key| && Four(s[4..8]) == |e.value|
            && s[8] == e.meta && s[9] == e.userMeta
            && (forall i :: 10 <= i < 18 ==> s[i] == Shifted(e.casCounter, 17 - i) % 256)
            && (forall i :: 18 <= i < 26 ==> s[i] == Shifted(e.casCheck, 25 - i) % 256)
            && forall i :: 26 <= i < 32 ==> s[i] == 0
  {
    var s := Slot(e);
    assert s[..4] == BigEndian(|e.key|, 4) && s[4..8] == BigEndian(|e.value|, 4);
    assert s[10..18] == BigEndian(e.casCounter, 8) && s[18..26] == BigEndian(e.casCheck, 8);
    FourBytes(|e.key|);
    FourBytes(|e.value|);
    forall i | 10 <= i < 18 ensures s[i] == Shifted(e.casCounter, 17 - i) % 256 {
      assert s[i] == s[10..18][i - 10];
      BigEndianAt(e.casCounter, 8, i - 10);
    }
    forall i | 18 <= i < 26 ensures s[i] == Shifted(e.casCheck, 25 - i) % 256 {
      assert s[i] == s[18..26][i - 18];
      BigEndianAt(e.casCheck, 8, i - 18);
    }
  }

  /** Entry::enc: header slot, key, value, checksum of all that. */
  function EncEntry(e: LogEntry, crc: seq<byte> -> nat): (r: seq<byte>)
    ensures |r| == HEADER_SLOT + |e.key| + |e.value| + 4
  {
    var body := Slot(e) + e.key + e.value;
    body + BigEndian(crc(body), 4)
  }

  lemma EntryParts(e: LogEntry, crc: seq<byte> -> nat)
    ensures var b := EncEntry(e, crc);
            b[..HEADER_SLOT] == Slot(e)
            && b[HEADER_SLOT + |e.key|..HEADER_SLOT + |e.key| + |e.value|] == e.value
  {
    hide Slot, BigEndian;
    var body := Slot(e) + e.key + e.value;
    assert EncEntry(e, crc)[..|body|] == body;
    assert body[..HEADER_SLOT] == Slot(e);
    assert body[HEADER_SLOT + |e.key|..] == e.value;
  }

  /** Filling the entry's buffer step by step gives that encoding. */
  method Encode(e: LogEntry, crc: seq<byte> -> nat) returns (buffer: seq<byte>)
    ensures buffer == EncEntry(e, crc)
  {
    buffer := seq(HEADER_SLOT + |e.key| + |e.value| + 4, _ => 0);
    var start := 0;
    buffer := WriteAt(buffer, start, EncLogHeader(e));
    start := start + HEADER_SLOT;
    assert buffer[..start] == Slot(e);
    buffer := WriteAt(buffer, start, e.key);
    start := start + |e.key|;
    assert buffer[..start] == Slot(e) + e.key;
    buffer := WriteAt(buffer, start, e.value);
    start := start + |e.value|;
    assert buffer[..start] == Slot(e) + e.key + e.value;
    buffer := WriteAt(buffer, start, BigEndian(crc(buffer[..start]), 4));
  }

  function WriteAt(buffer: seq<byte>, start: nat, bytes: seq<byte>): (r: seq<byte>)
    requires start + |bytes| <= |buffer|
    ensures |r| == |buffer|
  {
    buffer[..start] + bytes + buffer[start + |bytes|..]
  }

  // ----- the log -----

  /** A pointer that has been handed out and the entry it stands for. */
  datatype Stored = Stored(ptr: Pointer, entry: LogEntry)

  ghost predicate Holds(bytes: seq<byte>, s: Stored, crc: seq<byte> -> nat) {
    && s.entry.Fits() && s.ptr.len == |EncEntry(s.entry, crc)|
    && s.ptr.offset + s.ptr.len <= |bytes|
    && bytes[s.ptr.offset..s.ptr.offset + s.ptr.len] == EncEntry(s.entry, crc)
  }

  ghost predicate AllHold(bytes: seq<byte>, stored: seq<Stored>, crc: seq<byte> -> nat) {
    forall i :: 0 <= i < |stored| ==> Holds(bytes, stored[i], crc)
  }

  lemma HoldsMore(bytes: seq<byte>, more: seq<byte>, stored: seq<Stored>, crc: seq<byte> -> nat)
    requires AllHold(bytes, stored, crc)
    ensures AllHold(bytes + more, stored, crc)
  {
    hide EncEntry;
    forall i | 0 <= i < |stored| ensures Holds(bytes + more, stored[i], crc) {
      assert Holds(bytes, stored[i], crc);
      var p := stored[i].ptr;
      assert (bytes + more)[p.offset..p.offset + p.len] == bytes[p.offset..p.offset + p.len];
    }
  }

  /** How many bytes the entries of a request take at most. */
  function Room(es: seq<LogEntry>): nat {
    if es == [] then 0 else Room(es[..|es| - 1]) + HEADER_SLOT + |es[|es| - 1].key| + |es[|es| - 1].value| + 4
  }

  function RoomAll(reqs: seq<seq<LogEntry>>): nat {
    if reqs == [] then 0 else RoomAll(reqs[..|reqs| - 1]) + Room(reqs[|reqs| - 1])
  }

  lemma {:induction false} RoomPrefix(es: seq<LogEntry>, n: nat)
    requires n < |es|
    ensures Room(es[..n + 1]) == Room(es[..n]) + HEADER_SLOT + |es[n].key| + |es[n].value| + 4
    ensures Room(es[..n + 1]) <= Room(es)
    decreases |es| - n
  {
    assert es[..n + 1][..n] == es[..n];
    if n + 1 < |es| {
      RoomPrefix(es, n + 1);
    } else {
      assert es[..n + 1] == es;
    }
  }

  lemma {:induction false} RoomAllPrefix(reqs: seq<seq<LogEntry>>, n: nat)
    requires n < |reqs|
    ensures RoomAll(reqs[..n + 1]) == RoomAll(reqs[..n]) + Room(reqs[n])
    ensures RoomAll(reqs[..n + 1]) <= RoomAll(reqs)
    decreases |reqs| - n
  {
    hide Room;
    assert reqs[..n + 1][..n] == reqs[..n];
    if n + 1 < |reqs| {
      RoomAllPrefix(reqs, n + 1);
    } else {
      assert reqs[..n + 1] == reqs;
    }
  }

  /** Each entry that goes to the log has a pointer to it; the others have none. */
  ghost predicate Pointed(es: seq<LogEntry>, ptrs: seq<Option<Pointer>>, stored: seq<Stored>, log: ValueLog) {
    && |ptrs| == |es|
    && forall i :: 0 <= i < |es| ==>
         if log.ToLog(es[i])
         then ptrs[i].Some? && ptrs[i].value.fid == log.fid && Stored(ptrs[i].value, es[i]) in stored
         else ptrs[i].None?
  }

  class ValueLog {
    const fid: nat
    const crc: seq<byte> -> nat
    const syncWrites: bool
    const threshold: nat
    /** The memory-mapped file. */
    const file: array<byte>
    var buf: seq<byte>
    var writableOffset: nat
    ghost var stored: seq<Stored>

    constructor (fid: nat, crc: seq<byte> -> nat, syncWrites: bool, threshold: nat, size: nat)
      requires size <= U32_MAX
      ensures Valid() && fresh(file) && buf == [] && stored == [] && writableOffset == 0 && file.Length == size
      ensures this.fid == fid && this.crc == crc && this.syncWrites == syncWrites && this.threshold == threshold
    {
      this.fid, this.crc, this.syncWrites, this.threshold := fid, crc, syncWrites, threshold;
      file := new byte[size](_ => 0);
      buf, writableOffset, stored := [], 0, [];
    }

    /** The log so far: what is in the file and what is still buffered. */
    ghost function Contents(): seq<byte>
      requires writableOffset <= file.Length
      reads this, file
    {
      file[..writableOffset] + buf
    }

    ghost predicate Valid()
      reads this, file
    {
      writableOffset <= file.Length <= U32_MAX && AllHold(Contents(), stored, crc)
    }

    /** Short values stay out of the log unless every write is synced. */
    predicate ToLog(e: LogEntry) { syncWrites || |e.value| >= threshold }

    /** One entry: its pointer counts the file offset and the bytes buffered so far. */
    method Append(e: LogEntry) returns (p: Pointer)
      requires Valid() && e.Fits()
      modifies this`buf, this`stored
      ensures Valid() && stored == old(stored) + [Stored(p, e)] && p.fid == fid
      ensures p.offset == |old(Contents())| && |buf| == |old(buf)| + HEADER_SLOT + |e.key| + |e.value| + 4
    {
      hide EncEntry;
      var offset := writableOffset + |buf|;
      var bytes := Encode(e, crc);
      p := Pointer(fid, |bytes|, offset);
      HoldsMore(Contents(), bytes, stored, crc);
      assert Contents() + bytes == file[..writableOffset] + (buf + bytes);
      buf := buf + bytes;
      assert Contents()[p.offset..p.offset + p.len] == bytes;
      assert Holds(Contents(), Stored(p, e), crc);
      stored := stored + [Stored(p, e)];
    }

    method WriteRequest(es: seq<LogEntry>) returns (ptrs: seq<Option<Pointer>>)
      requires Valid() && forall i :: 0 <= i < |es| ==> es[i].Fits()
      modifies this`buf, this`stored
      ensures Valid() && old(stored) <= stored && Pointed(es, ptrs, stored, this)
      ensures |buf| <= |old(buf)| + Room(es)
    {
      hide EncEntry, AllHold, Room;
      ptrs := [];
      for i := 0 to |es|
        invariant Valid() && old(stored) <= stored && Pointed(es[..i], ptrs, stored, this)
        invariant |buf| <= |old(buf)| + Room(es[..i])
      {
        RoomPrefix(es, i);
        if !ToLog(es[i]) {
          ptrs := ptrs + [None];
        } else {
          var p := Append(es[i]);
          ptrs := ptrs + [Some(p)];
        }
      }
      assert es[..|es|] == es;
    }

    /** `write`, for a batch that fits the file: every entry that goes to the log gets a pointer to it,
        and earlier pointers stay good. */
    method Write(reqs: seq<seq<LogEntry>>) returns (ptrs: seq<seq<Option<Pointer>>>)
      requires Valid() && buf == [] && writableOffset + RoomAll(reqs) <= file.Length
      requires forall n, i :: 0 <= n < |reqs| && 0 <= i < |reqs[n]| ==> reqs[n][i].Fits()
      modifies this, file
      ensures Valid() && buf == [] && old(stored) <= stored
      ensures |ptrs| == |reqs| && forall n :: 0 <= n < |reqs| ==> Pointed(reqs[n], ptrs[n], stored, this)
      ensures forall n :: 0 <= n < |reqs| ==> |ptrs[n]| == |reqs[n]|
      ensures forall n, i :: 0 <= n < |reqs| && 0 <= i < |reqs[n]| ==>
                (ptrs[n][i].Some? <==> syncWrites || |reqs[n][i].value| >= threshold)
    {
      hide EncEntry, AllHold, RoomAll, Room, Pointed;
      ptrs := [];
      for n := 0 to |reqs|
        invariant Valid() && old(stored) <= stored && |ptrs| == n && writableOffset == old(writableOffset)
        invariant forall m :: 0 <= m < n ==> Pointed(reqs[m], ptrs[m], stored, this)
        invariant |buf| <= RoomAll(reqs[..n])
      {
        RoomAllPrefix(reqs, n);
        ghost var before := stored;
        var ps := WriteRequest(reqs[n]);
        forall m | 0 <= m < n ensures Pointed(reqs[m], ptrs[m], stored, this) {
          PointedMore(reqs[m], ptrs[m], before, stored, this);
        }
        ptrs := ptrs + [ps];
      }
      assert reqs[..|reqs|] == reqs;
      forall n | 0 <= n < |reqs|
        ensures |ptrs[n]| == |reqs[n]|
        ensures forall i :: 0 <= i < |reqs[n]| ==> (ptrs[n][i].Some? <==> syncWrites || |reqs[n][i].value| >= threshold)
      {
        PointedIff(reqs[n], ptrs[n], stored, this);
      }
      if buf == [] { return; }
      Flush();
    }

    /** write_buffer and the end of `write`: the buffered bytes go to the file. */
    method Flush()
      requires Valid() && writableOffset + |buf| <= file.Length
      modifies this`buf, this`writableOffset, file
      ensures Valid() && buf == [] && Contents() == old(Contents())
    {
      hide AllHold;
      for i := 0 to |buf|
        invariant buf == old(buf) && writableOffset == old(writableOffset)
        invariant file[..writableOffset + i] == old(file[..writableOffset]) + buf[..i]
      {
        file[writableOffset + i] := buf[i];
        assert file[..writableOffset + i] == old(file[..writableOffset]) + buf[..i];
      }
      writableOffset := writableOffset + |buf|;
      buf := [];
      assert Contents() == old(Contents());
    }

    /** async_read_bytes: the value of the entry the pointer stands for; nothing for a tombstone. */
    method ReadBytes(p: Pointer, ghost e: LogEntry) returns (r: seq<byte>)
      requires Valid() && buf == [] && Stored(p, e) in stored
      ensures r == if e.meta % 2 == 1 then [] else e.value
    {
      hide EncEntry, DecLogHeader, Slot;
      assert Holds(Contents(), Stored(p, e), crc);
      assert Contents() == file[..writableOffset];
      var buffer := file[p.offset..p.offset + p.len];
      assert buffer == EncEntry(e, crc);
      EntryParts(e, crc);
      LogHeaderRoundTrip(e);
      assert buffer[..HEADER_SLOT] == buffer[0..HEADER_SLOT];
      var h := DecLogHeader(buffer[0..HEADER_SLOT]);
      if h.meta % 2 == 1 { return []; }
      var n := HEADER_SLOT + h.kLen;
      r := buffer[n..n + h.vLen];
    }
  }

  lemma PointedIff(es: seq<LogEntry>, ptrs: seq<Option<Pointer>>, stored: seq<Stored>, log: ValueLog)
    requires Pointed(es, ptrs, stored, log)
    ensures |ptrs| == |es|
    ensures forall i :: 0 <= i < |es| ==> (ptrs[i].Some? <==> log.syncWrites || |es[i].value| >= log.threshold)
  {
  }

  lemma PointedMore(es: seq<LogEntry>, ptrs: seq<Option<Pointer>>, before: seq<Stored>, after: seq<Stored>,
                    log: ValueLog)
    requires Pointed(es, ptrs, before, log) && before <= after
    ensures Pointed(es, ptrs, after, log)
  {
    forall i | 0 <= i < |es| && log.ToLog(es[i]) ensures Stored(ptrs[i].value, es[i]) in after {
      assert Stored(ptrs[i].value, es[i]) in before;
      var n :| 0 <= n < |before| && before[n] == Stored(ptrs[i].value, es[i]);
      assert after[n] == before[n];
    }
  }
}
