// Value log and memtable together: what is written comes back whichever of the two keeps the bytes.
module WritePath {
  import opened Base
  import opened Bytes
  import opened Lsm
  import opened LsmResults
  import opened Kv
  import ValueLog

  /** An entry of a request as the value log writes it and as write_to_lsm applies it, with its pointer. */
  ghost predicate SameEntry(e: ValueLog.LogEntry, p: Pending, ptr: Option<ValueLog.Pointer>) {
    && p.e.value == e.value && p.e.meta == e.meta && p.e.userMeta == e.userMeta && p.e.casCheck == e.casCheck
    && (ptr.Some? ==> p.ptr == ValueLog.EncPointer(ptr.value))
  }

  /** With one threshold for both, every entry that the memtable does not keep by its own bytes has a pointer, and
      the pointer stands for that entry. */
  lemma LongHasPointer(log: ValueLog.ValueLog, es: seq<ValueLog.LogEntry>, ptrs: seq<Option<ValueLog.Pointer>>,
                       i: nat, p: Pending, cas: nat, v: ValueStruct)
    requires ValueLog.Pointed(es, ptrs, log.stored, log) && i < |es| && SameEntry(es[i], p, ptrs[i])
    requires Carries(v, p.e, cas, log.threshold, p.ptr)
    ensures |es[i].value| >= log.threshold || v.value != es[i].value ==>
              && ptrs[i].Some? && v.value == ValueLog.EncPointer(ptrs[i].value)
              && ValueLog.Stored(ptrs[i].value, es[i]) in log.stored
  {
  }

  lemma PointerInFile(log: ValueLog.ValueLog, ptr: ValueLog.Pointer, e: ValueLog.LogEntry)
    requires log.Valid() && log.buf == [] && ValueLog.Stored(ptr, e) in log.stored
    ensures 0 < ptr.len && ptr.offset + ptr.len <= log.writableOffset <= U32_MAX
  {
    assert ValueLog.Holds(log.Contents(), ValueLog.Stored(ptr, e), log.crc);
  }

  /** yield_item_value: the bytes of what a lookup found, from the value log when it is a pointer. For every entry
      written, short or long, they are the entry's value; a tombstone has none. Bit 1 of the meta byte belongs to
      the store, so a client's entry does not carry it. */
  method YieldItemValue(log: ValueLog.ValueLog, v: ValueStruct, ghost es: seq<ValueLog.LogEntry>,
                        ghost ptrs: seq<Option<ValueLog.Pointer>>, ghost i: nat, ghost p: Pending, ghost cas: nat)
    returns (r: Option<seq<byte>>)
    requires log.Valid() && log.buf == [] && log.fid <= U32_MAX
    requires ValueLog.Pointed(es, ptrs, log.stored, log) && i < |es| && SameEntry(es[i], p, ptrs[i])
    requires Carries(v, p.e, cas, log.threshold, p.ptr) && es[i].meta / 2 % 2 == 0
    ensures r == Some(if es[i].meta % 2 == 1 then [] else es[i].value)
  {
    if (v.meta == 0 && v.value == []) || v.meta % 2 == 1 { return Some([]); }
    if v.meta / 2 % 2 == 0 { return Some(v.value); }
    LongHasPointer(log, es, ptrs, i, p, cas, v);
    PointerInFile(log, ptrs[i].value, es[i]);
    ValueLog.PointerRoundTrip(ptrs[i].value);
    var ptr := ValueLog.DecPointer(v.value);
    if ptr.fid == log.fid && ptr.offset >= log.writableOffset { return None; }
    var bytes := log.ReadBytes(ptr, es[i]);
    return Some(bytes);
  }
}
