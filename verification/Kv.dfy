// The memtables as the code keeps them, updated in place.
module Kv {
  // Each method takes steps of the state machine in module Lsm.

  import opened Base
  import opened Tables
  import opened Compaction
  import opened Changes
  import opened Lsm
  import opened LsmInv
  import opened LsmBooks
  import opened LsmTheorems
  import opened LsmResults

  /** What the methods below do to the state: a step of the store, except that a write may also put a live
      value with no bytes into the memtable. */
  ghost predicate Moves(s: State, a: Action, s': State) {
    if a.Write? then WriteEffect(s, a.e, a.cas, a.threshold, a.ptr, s') else Step(s, a, s')
  }

  /** Every state follows from the one before by the action between them. */
  ghost predicate Trace(ss: seq<State>, acts: seq<Action>) {
    |ss| == |acts| + 1 && forall i :: 0 <= i < |acts| ==> Moves(ss[i], acts[i], ss[i + 1])
  }

  /** Without live values with no bytes every move is a step of the store. */
  lemma WritableTrace(ss: seq<State>, acts: seq<Action>, i: nat)
    requires Trace(ss, acts) && i < |acts|
    requires acts[i].Write? ==> Writable(Pending(acts[i].e, acts[i].ptr))
    ensures Step(ss[i], acts[i], ss[i + 1])
  {
    hide Get, Decide;
    assert Moves(ss[i], acts[i], ss[i + 1]);
    if acts[i].Write? { StoredVisible(Pending(acts[i].e, acts[i].ptr), acts[i].cas, acts[i].threshold); }
  }

  lemma TraceMore(ss: seq<State>, acts: seq<Action>, a: Action, s': State)
    requires Trace(ss, acts) && Moves(ss[|ss| - 1], a, s')
    ensures Trace(ss + [s'], acts + [a])
  {
    hide Moves;
    var ss', acts' := ss + [s'], acts + [a];
    forall i | 0 <= i < |acts'| ensures Moves(ss'[i], acts'[i], ss'[i + 1]) {
      assert ss'[i] == ss[i];
    }
  }

  lemma TraceJoin(ss: seq<State>, acts: seq<Action>, tt: seq<State>, more: seq<Action>)
    requires Trace(ss, acts) && Trace(tt, more) && tt[0] == ss[|ss| - 1]
    ensures Trace(ss + tt[1..], acts + more)
  {
    hide Moves;
    var ss', acts' := ss + tt[1..], acts + more;
    forall i | 0 <= i < |acts'| ensures Moves(ss'[i], acts'[i], ss'[i + 1]) {
      if i >= |acts| {
        assert ss'[i] == tt[i - |acts|] && ss'[i + 1] == tt[i - |acts| + 1];
      } else {
        assert ss'[i] == ss[i] && ss'[i + 1] == ss[i + 1];
      }
    }
  }

  /** An entry as it comes with a request: with its value-log pointer, used when the value is long. */
  datatype Pending = Pending(e: WriteEntry, ptr: seq<byte>)

  /** Not a live value with no bytes. */
  ghost predicate Writable(p: Pending) { (p.e.value != [] || p.e.meta % 2 == 1) && p.ptr != [] }

  lemma StoredVisible(p: Pending, cas: nat, threshold: nat)
    requires Writable(p)
    ensures Stored(p.e, cas, threshold, p.ptr).Visible()
  {
  }

  /** The actions of writing the entries of a request with consecutive counters. */
  function Writes(ps: seq<Pending>, base: nat, threshold: nat): (r: seq<Action>)
    ensures |r| == |ps| && forall i :: 0 <= i < |r| ==> r[i] == Write(ps[i].e, base + i, threshold, ps[i].ptr)
  {
    seq(|ps|, i requires 0 <= i < |ps| => Write(ps[i].e, base + i, threshold, ps[i].ptr))
  }

  class KV {
    const threshold: nat
    /** Capacity of the flush channel. */
    const flushCap: nat
    var mt: map<Key, ValueStruct>
    /** Oldest first. */
    var imm: seq<map<Key, ValueStruct>>
    var mtSeq: nat
    var flushCh: seq<map<Key, ValueStruct>>
    var levels: seq<seq<Table>>
    var lastCas: nat
    var nextFileId: nat
    /** The levels of the tables as the manifest records them. */
    var manifest: map<nat, nat>
    ghost var s: State

    /** A new store; the workers' slots belong to the state only. */
    constructor (threshold: nat, flushCap: nat, nLevels: nat, ghost workers: nat)
      requires nLevels >= 2
      ensures Valid() && Numbered() && Init(s) && s.applied <= s.counter
      ensures lastCas == 1 && nextFileId == 1
      ensures this.threshold == threshold && this.flushCap == flushCap && |levels| == nLevels && |s.jobs| == workers
    {
      this.threshold, this.flushCap := threshold, flushCap;
      mt, imm, mtSeq, flushCh := map[], [], 0, [];
      levels := seq(nLevels, _ => []);
      lastCas, nextFileId, manifest := 1, 1, map[];
      s := State(map[0 := map[]], 0, [], [], Idle, seq(nLevels, _ => []), seq(workers, _ => None),
                 seq(nLevels, _ => LevelStatus([], 0)), map[], 1, 1, 0, map[], map[]);
    }

    /** The fields show the state. */
    ghost predicate Valid()
      reads this
    {
      && mtSeq == s.active && s.active in s.mems && mt == s.mems[s.active]
      && |imm| == |s.imm| && (forall i :: 0 <= i < |imm| ==> s.imm[i] in s.mems && imm[i] == s.mems[s.imm[i]])
      && |flushCh| == |s.queue|
      && (forall i :: 0 <= i < |flushCh| ==> s.queue[i] in s.mems && flushCh[i] == s.mems[s.queue[i]])
      && levels == s.levels && lastCas == s.counter && nextFileId == s.nextId && manifest == s.manifest
    }

    /** The active memtable is the last in number. */
    ghost predicate Numbered()
      reads this
    {
      (forall i :: 0 <= i < |s.imm| ==> s.imm[i] < s.active) && forall i :: 0 <= i < |s.queue| ==> s.queue[i] < s.active
    }

    /** `_get`: memtables newest first, then the levels. */
    method Get(k: Key) returns (r: Option<ValueStruct>)
      requires Valid()
      ensures r == Lsm.Get(s, k)
    {
      ghost var live := Live(s);
      assert live[..|live| - 1] == s.imm;
      if k in mt {
        var v := mt[k];
        if v.Deleted() { return None; }
        if v.value != [] { return Some(v); }
      }
      var i := |imm|;
      assert s.imm[..i] == s.imm;
      while i > 0
        invariant 0 <= i <= |imm| && MemFind(s.mems, live, k) == MemFind(s.mems, s.imm[..i], k)
      {
        i := i - 1;
        assert s.imm[..i + 1][..i] == s.imm[..i];
        if k in imm[i] {
          var v := imm[i][k];
          if v.Deleted() { return None; }
          if v.value != [] { return Some(v); }
        }
      }
      var d := LevelsGet(levels, 0, k);
      if d.Some? && d.value.Deleted() { return None; }
      return d;
    }

    /** new_cas_counter: reserves counters and returns the first. */
    method NewCasCounter(n: nat) returns (base: nat)
      requires Valid()
      modifies this`lastCas, this`s
      ensures Valid() && Step(old(s), Reserve(n), s) && base == old(lastCas) + 1 && lastCas == old(lastCas) + n
      ensures s.applied == old(s).applied && s.counter == old(s).counter + n && (old(Numbered()) ==> Numbered())
    {
      base := lastCas + 1;
      lastCas := lastCas + n;
      s := s.(counter := s.counter + n);
    }

    /** One entry of write_to_lsm: the checks, then the memtable. */
    method WriteOne(p: Pending, cas: nat) returns (resp: Response)
      requires Valid() && Numbered() && s.applied < cas <= s.counter
      modifies this`mt, this`s
      ensures Valid() && Numbered() && Moves(old(s), Write(p.e, cas, threshold, p.ptr), s)
      ensures resp == Decide(Lsm.Get(old(s), p.e.key), p.e) && s.applied == cas && s.counter == old(s).counter
      ensures resp != Done ==> mt == old(mt)
      ensures resp == Done ==> p.e.key in mt && mt == old(mt)[p.e.key := mt[p.e.key]]
      ensures resp == Done ==> Carries(mt[p.e.key], p.e, cas, threshold, p.ptr)
    {
      hide Lsm.Get, Exists;
      var e := p.e;
      resp := Check(e);
      if resp != Done {
        s := s.(applied := cas);
        return;
      }
      var v := if |e.value| < threshold then ValueStruct(e.meta, e.userMeta, cas, e.value)
      else ValueStruct(WithPointerBit(e.meta), e.userMeta, cas, p.ptr);
      s := Applied(s, e.key, v);
      mt := mt[e.key := v];
    }

    /** The checks of an entry against the current value of its key. */
    method Check(e: WriteEntry) returns (resp: Response)
      requires Valid()
      ensures resp == Decide(Lsm.Get(s, e.key), e)
    {
      hide Lsm.Get;
      if e.casCheck != 0 {
        var cur := Get(e.key);
        if cur.None? { return NotFound; }
        if cur.value.casCounter != e.casCheck { return CasMismatch; }
      }
      if e.meta == BIT_SET_IF_ABSENT {
        var cur := Get(e.key);
        if Exists(cur) { return KeyExists; }
      }
      return Done;
    }

    /** write_to_lsm: the entries in order, with consecutive counters from base on. */
    method WriteToLsm(ps: seq<Pending>, base: nat) returns (resps: seq<Response>, ghost ss: seq<State>)
      requires Valid() && Numbered() && s.applied < base && base + |ps| <= s.counter + 1
      modifies this`mt, this`s
      ensures Valid() && Numbered() && Trace(ss, Writes(ps, base, threshold))
      ensures |ss| > 0 && ss[0] == old(s) && ss[|ss| - 1] == s
      ensures |resps| == |ps| && forall i :: 0 <= i < |ps| ==> resps[i] == Decide(Lsm.Get(ss[i], ps[i].e.key), ps[i].e)
      ensures s.applied < base + |ps| && s.counter == old(s).counter
    {
      hide Moves, Lsm.Get, Decide, Stored;
      resps, ss := [], [s];
      for i := 0 to |ps|
        invariant Valid() && Numbered() && s.applied < base + i && s.counter == old(s).counter
        invariant Trace(ss, Writes(ps, base, threshold)[..i]) && ss[0] == old(s) && ss[i] == s
        invariant |resps| == i && forall n :: 0 <= n < i ==> resps[n] == Decide(Lsm.Get(ss[n], ps[n].e.key), ps[n].e)
      {
        ghost var acts := Writes(ps, base, threshold);
        var r := WriteOne(ps[i], base + i);
        TraceMore(ss, acts[..i], acts[i], s);
        assert acts[..i + 1] == acts[..i] + [acts[i]];
        resps := resps + [r];
        ss := ss + [s];
      }
      assert Writes(ps, base, threshold)[..|ps|] == Writes(ps, base, threshold);
    }

    /** ensure_room_for_write, as one step: a memtable over its size goes to the flush channel and to the
        immutable list, unless the channel is full. */
    method EnsureRoom(full: bool) returns (ok: bool)
      requires Valid() && Numbered() && (full ==> mt != map[])
      modifies this
      ensures Valid() && Numbered() && ok == (!full || |old(flushCh)| < flushCap)
      ensures if full && ok then Step(old(s), Swap, s) else s == old(s)
      ensures if full && ok then mt == map[] && imm == old(imm) + [old(mt)] && flushCh == old(flushCh) + [old(mt)]
              else mt == old(mt) && imm == old(imm) && flushCh == old(flushCh)
      ensures s.applied == old(s).applied && s.counter == old(s).counter && lastCas == old(lastCas)
    {
      if !full { return true; }
      if |flushCh| >= flushCap { return false; }
      flushCh := flushCh + [mt];
      imm := imm + [mt];
      mt := map[];
      mtSeq := mtSeq + 1;
      s := s.(imm := s.imm + [s.active], queue := s.queue + [s.active],
              active := s.active + 1, mems := s.mems[s.active + 1 := map[]]);
      return true;
    }

    /** write_requests: counters for every request first, then request after request its entries, each after
        a swap if the memtable is over its size. With the flush channel full the writer waits at request
        done; WriteFrom goes on from there once the flusher has received a task. */
    method WriteRequests(reqs: seq<seq<Pending>>, full: map<Key, ValueStruct> -> bool)
      returns (bases: seq<nat>, done: nat, resps: seq<seq<Response>>, ghost ss: seq<State>, ghost acts: seq<Action>,
               ghost swaps: seq<bool>)
      requires Valid() && Numbered() && s.applied <= s.counter && !full(map[])
      modifies this
      ensures Valid() && Numbered() && |ss| > 0 && ss[0] == old(s) && ss[|ss| - 1] == s
      ensures Based(bases, reqs, old(lastCas) + 1) && done <= |reqs| && Reserved(bases, reqs, done, s)
      ensures done < |reqs| ==> full(mt) && |flushCh| >= flushCap
      ensures Written(ss, acts, reqs, bases, 0, done, old(lastCas) + 1, threshold, resps)
      ensures WritesOf(acts) == AllWrites(reqs[..done], old(lastCas) + 1, threshold) && |resps| == done
      ensures |bases| == |reqs| <= |acts| && acts[..|reqs|] == Reserves(reqs) && |ss| == |acts| + 1
      ensures Roomed(ss[|reqs|..], acts[|reqs|..], reqs[..done], bases[..done], swaps, threshold, full)
    {
      hide Moves, Trace, Valid, Numbered, WritesOf, Based, Reserved, Written, Roomed;
      ghost var first := lastCas + 1;
      bases, ss, acts := ReserveAll(reqs);
      ghost var tt, more;
      TraceLength(ss, acts);
      done, resps, tt, more, swaps := WriteFrom(reqs, bases, 0, full, first);
      TraceLengthWritten(tt, more, reqs, bases, 0, done, first, threshold, resps);
      WrittenAfter(ss, acts, tt, more, reqs, bases, done, first, threshold, resps);
      assert reqs[0..done] == reqs[..done] && bases[0..done] == bases[..done];
      assert (ss + tt[1..])[|reqs|..] == tt && (acts + more)[|reqs|..] == more && (acts + more)[..|reqs|] == acts;
      ss, acts := ss + tt[1..], acts + more;
    }

    /** The second loop of write_requests, from request n on. */
    method WriteFrom(reqs: seq<seq<Pending>>, bases: seq<nat>, n: nat, full: map<Key, ValueStruct> -> bool,
                     ghost first: nat)
      returns (done: nat, resps: seq<seq<Response>>, ghost ss: seq<State>, ghost acts: seq<Action>,
               ghost swaps: seq<bool>)
      requires Valid() && Numbered() && !full(map[]) && n <= |reqs|
      requires Based(bases, reqs, first) && Reserved(bases, reqs, n, s)
      modifies this
      ensures Valid() && Numbered() && n <= done <= |reqs| && Reserved(bases, reqs, done, s)
      ensures done < |reqs| ==> full(mt) && |flushCh| >= flushCap
      ensures Written(ss, acts, reqs, bases, n, done, first, threshold, resps)
      ensures |ss| > 0 && ss[0] == old(s) && ss[|ss| - 1] == s
      ensures |bases| == |reqs| && Roomed(ss, acts, reqs[n..done], bases[n..done], swaps, threshold, full)
    {
      hide Trace, Valid, Numbered, WritesOf, AllWrites, Answered, Based, Reserved, Written, Roomed, Mt, RequestActs,
           Writes;
      BasedLength(bases, reqs, first);
      done, resps, ss, acts, swaps := n, [], [s], [], [];
      RoomedNone(s, threshold, full);
      assert reqs[n..n] == [] && bases[n..n] == [];
      WrittenNone(s, reqs, bases, n, first, threshold);
      while done < |reqs|
        invariant n <= done <= |reqs| && Valid() && Numbered() && Reserved(bases, reqs, done, s)
        invariant Written(ss, acts, reqs, bases, n, done, first, threshold, resps)
        invariant |ss| > 0 && ss[0] == old(s) && ss[|ss| - 1] == s
        invariant Roomed(ss, acts, reqs[n..done], bases[n..done], swaps, threshold, full)
      {
        ReservedNext(bases, reqs, done, s, first);
        ghost var s0 := s;
        ActiveTable(this);
        var waits, r, tt, more, swap := WriteUnlessFull(reqs[done], bases[done], full);
        if waits { return; }
        ReservedAfter(bases, reqs, done, s0, s, first);
        RoomedNext(ss, acts, reqs, bases, n, done, swaps, threshold, full, swap, tt, more);
        WrittenMore(ss, acts, reqs, bases, n, done, first, threshold, resps, tt, more, r);
        swaps := swaps + [swap];
        ss, acts := ss + tt[1..], acts + more;
        resps := resps + [r];
        done := done + 1;
      }
    }

    /** One request: nothing for an empty one, and no step while the memtable and the flush channel are full. */
    method WriteUnlessFull(req: seq<Pending>, base: nat, full: map<Key, ValueStruct> -> bool)
      returns (waits: bool, resps: seq<Response>, ghost ss: seq<State>, ghost acts: seq<Action>, ghost swap: bool)
      requires Valid() && Numbered() && !full(map[]) && s.applied < base && base + |req| <= s.counter + 1
      modifies this
      ensures Valid() && Numbered() && s.counter == old(s).counter
      ensures waits <==> req != [] && full(old(mt)) && |old(flushCh)| >= flushCap
      ensures waits ==> s == old(s) && mt == old(mt) && flushCh == old(flushCh)
      ensures !waits ==> Trace(ss, acts) && |ss| == |acts| + 1 && ss[0] == old(s) && ss[|ss| - 1] == s
      ensures !waits ==> s.applied < base + |req| && (swap <==> req != [] && full(old(mt)))
      ensures !waits ==> acts == RequestActs(req, base, swap, threshold)
      ensures !waits ==> WritesOf(acts) == Writes(req, base, threshold)
      ensures !waits ==> Answered(ss, acts, req, base, threshold, resps)
    {
      hide Trace, Valid, Numbered, WritesOf, Answered;
      waits, swap := false, false;
      if |req| == 0 {
        resps, ss, acts := [], [s], [];
        NothingWritten(s, req, base, threshold);
        return;
      }
      if full(mt) && |flushCh| >= flushCap {
        waits, resps, ss, acts := true, [], [], [];
        return;
      }
      swap := full(mt);
      resps, ss, acts := WriteRequest(req, base, full(mt));
      TraceLength(ss, acts);
    }

    /** ensure_room_for_write with room in the channel, as a trace. */
    method MakeRoom(full: bool) returns (ghost ss: seq<State>, ghost acts: seq<Action>)
      requires Valid() && Numbered() && (full ==> mt != map[] && |flushCh| < flushCap)
      modifies this
      ensures Valid() && Numbered() && Trace(ss, acts) && |ss| > 0 && ss[0] == old(s) && ss[|ss| - 1] == s
      ensures WritesOf(acts) == [] && acts == if full then [Swap] else []
      ensures imm == if full then old(imm) + [old(mt)] else old(imm)
      ensures flushCh == if full then old(flushCh) + [old(mt)] else old(flushCh)
      ensures s.applied == old(s).applied && s.counter == old(s).counter
    {
      hide Step, Trace, Valid, Numbered, WritesOf;
      ghost var s0 := s;
      TraceNone(s0);
      var ok := EnsureRoom(full);
      ss, acts := [s0], [];
      if full {
        TraceMore(ss, acts, Swap, s);
        WritesSkip(acts, Swap);
        ss, acts := ss + [s], acts + [Swap];
      }
    }

    /** Room, then the entries of one request. */
    method WriteRequest(req: seq<Pending>, base: nat, full: bool)
      returns (resps: seq<Response>, ghost ss: seq<State>, ghost acts: seq<Action>)
      requires Valid() && Numbered() && (full ==> mt != map[] && |flushCh| < flushCap)
      requires s.applied < base && base + |req| <= s.counter + 1
      modifies this
      ensures Valid() && Numbered() && Trace(ss, acts) && |ss| > 0 && ss[0] == old(s) && ss[|ss| - 1] == s
      ensures WritesOf(acts) == Writes(req, base, threshold) && Answered(ss, acts, req, base, threshold, resps)
      ensures acts == (if full then [Swap] else []) + Writes(req, base, threshold)
      ensures imm == if full then old(imm) + [old(mt)] else old(imm)
      ensures flushCh == if full then old(flushCh) + [old(mt)] else old(flushCh)
      ensures s.applied < base + |req| && s.counter == old(s).counter
    {
      hide Moves, Trace, Valid, Numbered, WritesOf, Answered;
      ghost var before, done, tt;
      before, done := MakeRoom(full);
      resps, tt := WriteToLsm(req, base);
      ghost var more := Writes(req, base, threshold);
      AnsweredHere(tt, req, base, threshold, resps);
      JoinTraces(before, done, tt, more);
      AnsweredJoin(before, done, tt, more, req, base, threshold, resps);
      WritesAll(req, base, threshold);
      ss, acts := before + tt[1..], done + more;
      assert [] + more == more;
    }

    /** The first loop of write_requests. */
    method ReserveAll(reqs: seq<seq<Pending>>) returns (bases: seq<nat>, ghost ss: seq<State>, ghost acts: seq<Action>)
      requires Valid() && Numbered() && s.applied <= s.counter
      modifies this`lastCas, this`s
      ensures Valid() && Numbered() && Trace(ss, acts) && |ss| > 0 && ss[0] == old(s) && ss[|ss| - 1] == s
      ensures WritesOf(acts) == [] && Based(bases, reqs, old(lastCas) + 1) && Reserved(bases, reqs, 0, s)
      ensures acts == Reserves(reqs)
    {
      hide Step, Trace, WritesOf, Based, Reserved, Count, Numbered;
      bases, ss, acts := [], [s], [];
      BasedNone(reqs, lastCas + 1);
      TraceNone(s);
      for n := 0 to |reqs|
        invariant Valid() && Numbered() && Trace(ss, acts) && |ss| > 0 && ss[0] == old(s) && ss[|ss| - 1] == s
        invariant WritesOf(acts) == [] && s.applied == old(s).applied && s.counter == old(lastCas) + Count(reqs[..n])
        invariant Based(bases, reqs[..n], old(lastCas) + 1) && acts == Reserves(reqs)[..n]
      {
        CountPrefix(reqs, n);
        var base := NewCasCounter(|reqs[n]|);
        BasedMore(bases, reqs, n, old(lastCas) + 1, base);
        bases := bases + [base];
        TraceMore(ss, acts, Reserve(|reqs[n]|), s);
        WritesSkip(acts, Reserve(|reqs[n]|));
        ss, acts := ss + [s], acts + [Reserve(|reqs[n]|)];
      }
      assert reqs[..|reqs|] == reqs;
      BasedReserved(bases, reqs, old(lastCas) + 1, s);
    }

    // ----- the flusher -----

    /** The flusher receives the oldest task of the channel. */
    method ReceiveTask() returns (m: map<Key, ValueStruct>)
      requires Valid() && s.flush.Idle? && flushCh != []
      modifies this`flushCh, this`s
      ensures Valid() && Step(old(s), Take, s) && m == old(flushCh)[0] && flushCh == old(flushCh)[1..]
      ensures old(s).queue != [] && s.flush == Taken(old(s).queue[0]) && s.flush.m in s.mems && m == s.mems[s.flush.m]
      ensures s.mems == old(s).mems
    {
      m := flushCh[0];
      flushCh := flushCh[1..];
      s := s.(flush := Taken(s.queue[0]), queue := s.queue[1..]);
    }

    /** reserve_file_id for the table of the task. */
    method ReserveFileId() returns (id: nat)
      requires Valid() && s.flush.Taken?
      modifies this`nextFileId, this`s
      ensures Valid() && Step(old(s), NameTable, s) && s.flush == Named(old(s).flush.m, id) && s.mems == old(s).mems
      ensures id == old(nextFileId) && nextFileId == id + 1
    {
      id := nextFileId;
      nextFileId := nextFileId + 1;
      s := s.(flush := Named(s.flush.m, s.nextId), nextId := s.nextId + 1);
    }

    /** add_level0_table, first half: the manifest record. */
    method RecordTable(t: Table) returns (ok: bool)
      requires Valid() && s.flush.Named? && t.id == s.flush.id && GoodTable(t)
      requires s.flush.m in s.mems && t.kvs == s.mems[s.flush.m]
      modifies this`manifest, this`s
      ensures Valid() && ok == (t.id !in old(manifest))
      ensures if ok then Step(old(s), Describe(t), s) && s.flush == Described(old(s).flush.m, t) else s == old(s)
    {
      hide GoodTable;
      ok := t.id !in manifest;
      if ok {
        OneCreate(manifest, t.id);
        manifest := manifest[t.id := 0];
        s := s.(manifest := s.manifest[t.id := 0], flush := Described(s.flush.m, t));
      }
    }

    /** add_level0_table, second half: try_add_level0_table, which is tried again while level 0 is full. */
    method AddLevel0(t: Table, stall: nat) returns (ok: bool)
      requires Valid() && s.flush.Described? && t == s.flush.t && |levels| > 0
      modifies this`levels, this`s
      ensures Valid() && ok == (|old(levels)[0]| < stall)
      ensures if ok then Step(old(s), AddL0(stall), s) && s.flush == Added(old(s).flush.m) else s == old(s)
      ensures levels == if ok then old(levels)[0 := old(levels)[0] + [t]] else old(levels)
    {
      ok := |levels[0]| < stall;
      if ok {
        levels := levels[0 := levels[0] + [t]];
        s := s.(levels := s.levels[0 := s.levels[0] + [t]], flush := Added(s.flush.m));
      }
    }

    /** One task of flush_mem_table up to its manifest record. */
    method WriteTable(lo: Key, hi: Key, size: nat) returns (t: Table, ghost ss: seq<State>, ghost acts: seq<Action>)
      requires Valid() && Inv(s) && s.flush.Idle? && flushCh != []
      requires lo <= hi && forall k :: k in flushCh[0] ==> lo <= k <= hi
      modifies this`flushCh, this`nextFileId, this`manifest, this`s
      ensures Valid() && Unseen(ss, acts, old(s), s) && |ss| > 0 && ss[|ss| - 1] == s && t.kvs == old(flushCh)[0]
      ensures flushCh == old(flushCh)[1..] && old(s).queue != [] && s.flush == Described(old(s).queue[0], t)
      ensures t.id == old(nextFileId) && t.smallest == lo && t.biggest == hi && t.size == size
    {
      hide Inv, Step, Unseen, GoodTable, Valid;
      ss, acts := [s], [];
      UnseenNone(s);
      var m := ReceiveTask();
      UnseenMore(ss, acts, old(s), Take, s);
      ss, acts := ss + [s], acts + [Take];
      var id := ReserveFileId();
      UnseenMore(ss, acts, old(s), NameTable, s);
      ss, acts := ss + [s], acts + [NameTable];
      t := Table(id, lo, hi, m, size);
      NamedReady(s, t);
      var recorded := RecordTable(t);
      UnseenMore(ss, acts, old(s), Describe(t), s);
      ss, acts := ss + [s], acts + [Describe(t)];
    }

    /** One task of flush_mem_table, in any reachable state: the oldest immutable memtable becomes the newest
        table of level 0, and no lookup changes. With level 0 full the flusher stops before adding. */
    method FlushTask(lo: Key, hi: Key, size: nat, stall: nat)
      returns (ok: bool, t: Table, ghost ss: seq<State>, ghost acts: seq<Action>)
      requires Valid() && Inv(s) && s.flush.Idle? && flushCh != []
      requires lo <= hi && forall k :: k in flushCh[0] ==> lo <= k <= hi
      modifies this
      ensures Valid() && Unseen(ss, acts, old(s), s)
      ensures old(levels) != [] && old(imm) != [] && ok == (|old(levels)[0]| < stall)
      ensures t.kvs == old(flushCh)[0] == old(imm)[0] && flushCh == old(flushCh)[1..] && mt == old(mt)
      ensures t.id == old(nextFileId) && t.smallest == lo && t.biggest == hi && t.size == size
      ensures levels == if ok then old(levels)[0 := old(levels)[0] + [t]] else old(levels)
      ensures imm == if ok then old(imm)[1..] else old(imm)
      ensures s.flush.Idle? <==> ok
    {
      hide Inv, Step, Unseen, Valid;
      FirstTask(this);
      t, ss, acts := WriteTable(lo, hi, size);
      ok := AddLevel0(t, stall);
      if ok {
        UnseenMore(ss, acts, old(s), AddL0(stall), s);
        ss, acts := ss + [s], acts + [AddL0(stall)];
        AdvanceImm();
        UnseenMore(ss, acts, old(s), Advance, s);
        ss, acts := ss + [s], acts + [Advance];
      }
    }

    /** advance_imm: drops the oldest immutable memtable. */
    method AdvanceImm()
      requires Valid() && s.flush.Added? && imm != []
      modifies this`imm, this`s
      ensures Valid() && Step(old(s), Advance, s) && imm == old(imm)[1..] && s.flush == Idle
    {
      imm := imm[1..];
      s := s.(imm := s.imm[1..], flush := Idle);
    }
  }

  function Count(reqs: seq<seq<Pending>>): nat {
    if reqs == [] then 0 else Count(reqs[..|reqs| - 1]) + |reqs[|reqs| - 1]|
  }

  /** All entries of all requests in order, with consecutive counters. */
  function AllWrites(reqs: seq<seq<Pending>>, first: nat, threshold: nat): seq<Action> {
    if reqs == [] then []
    else
      var n := |reqs| - 1;
      AllWrites(reqs[..n], first, threshold) + Writes(reqs[n], first + Count(reqs[..n]), threshold)
  }

  /** The writes among the actions. */
  function WritesOf(acts: seq<Action>): seq<Action> {
    if acts == [] then []
    else
      var a := acts[|acts| - 1];
      if a.Write? then WritesOf(acts[..|acts| - 1]) + [a] else WritesOf(acts[..|acts| - 1])
  }

  /** Counters grow by one from each write to the next. */
  lemma {:induction false} CountersConsecutive(reqs: seq<seq<Pending>>, first: nat, threshold: nat)
    ensures |AllWrites(reqs, first, threshold)| == Count(reqs)
    ensures forall i :: 0 <= i < |AllWrites(reqs, first, threshold)| ==>
              AllWrites(reqs, first, threshold)[i].Write? && AllWrites(reqs, first, threshold)[i].cas == first + i
  {
    if reqs != [] { CountersConsecutive(reqs[..|reqs| - 1], first, threshold); }
  }

  /** Entry i of request n is written at its place, with its own fields and counter. */
  lemma {:induction false} AllWritesAt(reqs: seq<seq<Pending>>, first: nat, threshold: nat, n: nat, i: nat)
    requires n < |reqs| && i < |reqs[n]|
    ensures var at := Count(reqs[..n]) + i;
            && at < |AllWrites(reqs, first, threshold)|
            && AllWrites(reqs, first, threshold)[at] == Write(reqs[n][i].e, first + at, threshold, reqs[n][i].ptr)
  {
    hide AllWrites, Count, Writes;
    var last := |reqs| - 1;
    var front := AllWrites(reqs[..last], first, threshold);
    var mine := Writes(reqs[last], first + Count(reqs[..last]), threshold);
    CountersConsecutive(reqs[..last], first, threshold);
    AllWritesMore(reqs, last, first, threshold);
    assert reqs[..last + 1] == reqs;
    assert AllWrites(reqs, first, threshold) == front + mine;
    if n < last {
      assert reqs[..last][..n] == reqs[..n];
      AllWritesAt(reqs[..last], first, threshold, n, i);
    } else {
      assert (front + mine)[|front| + i] == mine[i];
    }
  }

  lemma {:induction false} CountPrefix(reqs: seq<seq<Pending>>, n: nat)
    requires n < |reqs|
    ensures Count(reqs[..n + 1]) == Count(reqs[..n]) + |reqs[n]| && Count(reqs[..n + 1]) <= Count(reqs)
    decreases |reqs| - n
  {
    assert reqs[..n + 1][..n] == reqs[..n];
    if n + 1 < |reqs| {
      CountPrefix(reqs, n + 1);
    } else {
      assert reqs[..n + 1] == reqs;
    }
  }

  lemma AllWritesMore(reqs: seq<seq<Pending>>, n: nat, first: nat, threshold: nat)
    requires n < |reqs|
    ensures AllWrites(reqs[..n + 1], first, threshold) ==
            AllWrites(reqs[..n], first, threshold) + Writes(reqs[n], first + Count(reqs[..n]), threshold)
  {
    assert reqs[..n + 1][..n] == reqs[..n];
  }

  lemma WritesSkip(acts: seq<Action>, a: Action)
    requires !a.Write?
    ensures WritesOf(acts + [a]) == WritesOf(acts)
  {
    assert (acts + [a])[..|acts|] == acts;
  }

  lemma {:induction false} WritesJoin(acts: seq<Action>, more: seq<Action>)
    ensures WritesOf(acts + more) == WritesOf(acts) + WritesOf(more)
  {
    if more == [] {
      assert acts + more == acts;
    } else {
      var n := |more| - 1;
      assert (acts + more)[..|acts + more| - 1] == acts + more[..n];
      WritesJoin(acts, more[..n]);
    }
  }

  lemma WritesAll(ps: seq<Pending>, base: nat, threshold: nat)
    ensures WritesOf(Writes(ps, base, threshold)) == Writes(ps, base, threshold)
  {
    OnlyWrites(Writes(ps, base, threshold));
  }

  lemma {:induction false} OnlyWrites(acts: seq<Action>)
    requires forall i :: 0 <= i < |acts| ==> acts[i].Write?
    ensures WritesOf(acts) == acts
  {
    if acts != [] {
      var n := |acts| - 1;
      OnlyWrites(acts[..n]);
      assert acts == acts[..n] + [acts[n]];
    }
  }

  lemma TraceNone(s: State)
    ensures Trace([s], []) && WritesOf([]) == []
  {
  }

  lemma JoinTraces(ss: seq<State>, acts: seq<Action>, tt: seq<State>, more: seq<Action>)
    requires Trace(ss, acts) && Trace(tt, more) && |ss| > 0 && |tt| > 0 && tt[0] == ss[|ss| - 1]
    ensures Trace(ss + tt[1..], acts + more) && WritesOf(acts + more) == WritesOf(acts) + WritesOf(more)
    ensures |ss + tt[1..]| > 0 && (ss + tt[1..])[0] == ss[0] && (ss + tt[1..])[|ss + tt[1..]| - 1] == tt[|tt| - 1]
  {
    hide Step, WritesOf;
    TraceJoin(ss, acts, tt, more);
    WritesJoin(acts, more);
  }

  // ----- counters reserved for a batch -----

  /** The first counter of each request. */
  ghost predicate Based(bases: seq<nat>, reqs: seq<seq<Pending>>, first: nat) {
    |bases| == |reqs| && forall n :: 0 <= n < |reqs| ==> bases[n] == first + Count(reqs[..n])
  }

  /** The counters of the requests from n on are reserved, and greater than every counter applied. */
  ghost predicate Reserved(bases: seq<nat>, reqs: seq<seq<Pending>>, n: nat, s: State) {
    && |bases| == |reqs|
    && forall m :: n <= m < |reqs| ==> s.applied < bases[m] && bases[m] + |reqs[m]| <= s.counter + 1
  }

  lemma {:induction false} CountGrows(reqs: seq<seq<Pending>>, m: nat, n: nat)
    requires m <= n <= |reqs|
    ensures Count(reqs[..m]) <= Count(reqs[..n])
    decreases n - m
  {
    if m < n {
      CountPrefix(reqs, m);
      CountGrows(reqs, m + 1, n);
    }
  }

  lemma BasedNone(reqs: seq<seq<Pending>>, first: nat)
    ensures Based([], reqs[..0], first) && Count(reqs[..0]) == 0
  {
  }

  lemma BasedMore(bases: seq<nat>, reqs: seq<seq<Pending>>, n: nat, first: nat, base: nat)
    requires n < |reqs| && Based(bases, reqs[..n], first) && base == first + Count(reqs[..n])
    ensures Based(bases + [base], reqs[..n + 1], first)
  {
    forall m | 0 <= m <= n ensures (bases + [base])[m] == first + Count(reqs[..n + 1][..m]) {
      assert reqs[..n + 1][..m] == reqs[..m];
      assert m < n ==> reqs[..n][..m] == reqs[..m];
    }
  }

  lemma BasedReserved(bases: seq<nat>, reqs: seq<seq<Pending>>, first: nat, s: State)
    requires Based(bases, reqs, first) && s.applied < first && s.counter + 1 == first + Count(reqs)
    ensures Reserved(bases, reqs, 0, s)
  {
    forall m | 0 <= m < |reqs| ensures bases[m] + |reqs[m]| <= s.counter + 1 { CountPrefix(reqs, m); }
  }

  lemma ReservedNext(bases: seq<nat>, reqs: seq<seq<Pending>>, n: nat, s: State, first: nat)
    requires Based(bases, reqs, first) && Reserved(bases, reqs, n, s) && n < |reqs|
    ensures |bases| == |reqs| && bases[n] == first + Count(reqs[..n])
    ensures s.applied < bases[n] && bases[n] + |reqs[n]| <= s.counter + 1
  {
  }

  lemma ReservedAfter(bases: seq<nat>, reqs: seq<seq<Pending>>, n: nat, s: State, s': State, first: nat)
    requires Based(bases, reqs, first) && Reserved(bases, reqs, n, s) && n < |reqs|
    requires s'.applied < bases[n] + |reqs[n]| && s'.counter == s.counter
    ensures Reserved(bases, reqs, n + 1, s')
  {
    forall m | n < m < |reqs| ensures s'.applied < bases[m] {
      CountPrefix(reqs, n);
      CountGrows(reqs, n + 1, m);
    }
  }

  // ----- room in the memtable -----

  ghost function Mt(s: State): map<Key, ValueStruct> { if s.active in s.mems then s.mems[s.active] else map[] }

  lemma ActiveTable(kv: KV)
    requires kv.Valid()
    ensures kv.mt == Mt(kv.s)
  {
  }

  function Reserves(reqs: seq<seq<Pending>>): (r: seq<Action>)
    ensures |r| == |reqs| && forall i :: 0 <= i < |r| ==> r[i] == Reserve(|reqs[i]|)
  {
    seq(|reqs|, i requires 0 <= i < |reqs| => Reserve(|reqs[i]|))
  }

  /** What is done for one request: perhaps a swap, then its writes. */
  function RequestActs(req: seq<Pending>, base: nat, swap: bool, threshold: nat): seq<Action> {
    (if swap then [Swap] else []) + Writes(req, base, threshold)
  }

  function BatchActs(reqs: seq<seq<Pending>>, bases: seq<nat>, swaps: seq<bool>, threshold: nat): seq<Action>
    requires |reqs| == |bases| == |swaps|
  {
    if reqs == [] then []
    else
      var n := |reqs| - 1;
      BatchActs(reqs[..n], bases[..n], swaps[..n], threshold) + RequestActs(reqs[n], bases[n], swaps[n], threshold)
  }

  /** Where request q starts. */
  function StartOf(reqs: seq<seq<Pending>>, bases: seq<nat>, swaps: seq<bool>, threshold: nat, q: nat): nat
    requires |reqs| == |bases| == |swaps| && q <= |reqs|
  {
    |BatchActs(reqs[..q], bases[..q], swaps[..q], threshold)|
  }

  /** The trace is exactly the requests one after the other, and a request starts with a swap exactly when it has
      entries and the memtable it meets is full. */
  ghost predicate Roomed(ss: seq<State>, acts: seq<Action>, reqs: seq<seq<Pending>>, bases: seq<nat>,
                         swaps: seq<bool>, threshold: nat, full: map<Key, ValueStruct> -> bool) {
    && |reqs| == |bases| == |swaps| && |ss| == |acts| + 1
    && acts == BatchActs(reqs, bases, swaps, threshold)
    && forall q :: 0 <= q < |reqs| ==> RoomAt(ss, reqs, bases, swaps, threshold, full, q)
  }

  ghost predicate RoomAt(ss: seq<State>, reqs: seq<seq<Pending>>, bases: seq<nat>, swaps: seq<bool>, threshold: nat,
                         full: map<Key, ValueStruct> -> bool, q: nat)
    requires |reqs| == |bases| == |swaps| && q < |reqs|
  {
    var p := StartOf(reqs, bases, swaps, threshold, q);
    p < |ss| && (swaps[q] <==> reqs[q] != [] && full(Mt(ss[p])))
  }

  lemma RoomedNone(s: State, threshold: nat, full: map<Key, ValueStruct> -> bool)
    ensures Roomed([s], [], [], [], [], threshold, full)
  {
  }

  lemma RoomedMore(ss: seq<State>, acts: seq<Action>, reqs: seq<seq<Pending>>, bases: seq<nat>, swaps: seq<bool>,
                   threshold: nat, full: map<Key, ValueStruct> -> bool, req: seq<Pending>, base: nat, swap: bool,
                   tt: seq<State>, more: seq<Action>)
    requires Roomed(ss, acts, reqs, bases, swaps, threshold, full)
    requires |tt| == |more| + 1 && tt[0] == ss[|ss| - 1] && more == RequestActs(req, base, swap, threshold)
    requires swap <==> req != [] && full(Mt(ss[|ss| - 1]))
    ensures Roomed(ss + tt[1..], acts + more, reqs + [req], bases + [base], swaps + [swap], threshold, full)
  {
    hide RequestActs, BatchActs;
    var reqs', bases', swaps' := reqs + [req], bases + [base], swaps + [swap];
    BatchMore(reqs', bases', swaps', threshold);
    assert reqs'[..|reqs|] == reqs && bases'[..|reqs|] == bases && swaps'[..|reqs|] == swaps;
    forall q | 0 <= q < |reqs'| ensures RoomAt(ss + tt[1..], reqs', bases', swaps', threshold, full, q) {
      assert reqs'[..q] == reqs[..q] && bases'[..q] == bases[..q] && swaps'[..q] == swaps[..q];
      if q < |reqs| {
        assert RoomAt(ss, reqs, bases, swaps, threshold, full, q);
      } else {
        assert reqs[..q] == reqs && bases[..q] == bases && swaps[..q] == swaps;
      }
    }
  }

  lemma RoomedNext(ss: seq<State>, acts: seq<Action>, reqs: seq<seq<Pending>>, bases: seq<nat>, n: nat, done: nat,
                   swaps: seq<bool>, threshold: nat, full: map<Key, ValueStruct> -> bool, swap: bool, tt: seq<State>,
                   more: seq<Action>)
    requires n <= done < |reqs| == |bases| && Roomed(ss, acts, reqs[n..done], bases[n..done], swaps, threshold, full)
    requires |tt| == |more| + 1 && |ss| > 0 && tt[0] == ss[|ss| - 1]
    requires more == RequestActs(reqs[done], bases[done], swap, threshold)
    requires swap <==> reqs[done] != [] && full(Mt(ss[|ss| - 1]))
    ensures Roomed(ss + tt[1..], acts + more, reqs[n..done + 1], bases[n..done + 1], swaps + [swap], threshold, full)
  {
    hide Roomed, RequestActs;
    RoomedMore(ss, acts, reqs[n..done], bases[n..done], swaps, threshold, full,
               reqs[done], bases[done], swap, tt, more);
    assert reqs[n..done + 1] == reqs[n..done] + [reqs[done]] && bases[n..done + 1] == bases[n..done] + [bases[done]];
  }

  lemma BatchMore(reqs: seq<seq<Pending>>, bases: seq<nat>, swaps: seq<bool>, threshold: nat)
    requires |reqs| == |bases| == |swaps| > 0
    ensures var n := |reqs| - 1;
            BatchActs(reqs, bases, swaps, threshold) ==
            BatchActs(reqs[..n], bases[..n], swaps[..n], threshold)
            + RequestActs(reqs[n], bases[n], swaps[n], threshold)
  {
  }

  /** Swaps happen only at full memtables. */
  lemma {:induction false} SwapsWhenFull(ss: seq<State>, acts: seq<Action>, reqs: seq<seq<Pending>>, bases: seq<nat>,
                                         swaps: seq<bool>, threshold: nat, full: map<Key, ValueStruct> -> bool, m: nat)
    requires Roomed(ss, acts, reqs, bases, swaps, threshold, full) && m < |acts| && acts[m].Swap?
    ensures full(Mt(ss[m]))
    decreases |reqs|
  {
    var n := |reqs| - 1;
    BatchMore(reqs, bases, swaps, threshold);
    var p := StartOf(reqs, bases, swaps, threshold, n);
    if m < p {
      RoomedPrefix(ss, acts, reqs, bases, swaps, threshold, full);
      SwapsWhenFull(ss[..p + 1], acts[..p], reqs[..n], bases[..n], swaps[..n], threshold, full, m);
    } else {
      assert RoomAt(ss, reqs, bases, swaps, threshold, full, n);
      assert acts[m] == RequestActs(reqs[n], bases[n], swaps[n], threshold)[m - p];
    }
  }

  lemma RoomedPrefix(ss: seq<State>, acts: seq<Action>, reqs: seq<seq<Pending>>, bases: seq<nat>, swaps: seq<bool>,
                     threshold: nat, full: map<Key, ValueStruct> -> bool)
    requires Roomed(ss, acts, reqs, bases, swaps, threshold, full) && reqs != []
    ensures var n := |reqs| - 1;
            var p := StartOf(reqs, bases, swaps, threshold, n);
            p <= |acts| && Roomed(ss[..p + 1], acts[..p], reqs[..n], bases[..n], swaps[..n], threshold, full)
  {
    hide RequestActs;
    var n := |reqs| - 1;
    BatchMore(reqs, bases, swaps, threshold);
    var p := StartOf(reqs, bases, swaps, threshold, n);
    var ss', reqs', bases', swaps' := ss[..p + 1], reqs[..n], bases[..n], swaps[..n];
    forall q | 0 <= q < n ensures RoomAt(ss', reqs', bases', swaps', threshold, full, q) {
      assert RoomAt(ss, reqs, bases, swaps, threshold, full, q);
      assert reqs[..n][..q] == reqs[..q] && bases[..n][..q] == bases[..q] && swaps[..n][..q] == swaps[..q];
      StartsGrow(reqs, bases, swaps, threshold, q, n);
    }
  }

  lemma {:induction false} StartsGrow(reqs: seq<seq<Pending>>, bases: seq<nat>, swaps: seq<bool>, threshold: nat,
                                      q: nat, n: nat)
    requires |reqs| == |bases| == |swaps| && q <= n <= |reqs|
    ensures StartOf(reqs, bases, swaps, threshold, q) <= StartOf(reqs, bases, swaps, threshold, n)
    decreases n - q
  {
    if q < n {
      BatchNext(reqs, bases, swaps, threshold, q);
      StartsGrow(reqs, bases, swaps, threshold, q + 1, n);
    }
  }

  lemma BatchNext(reqs: seq<seq<Pending>>, bases: seq<nat>, swaps: seq<bool>, threshold: nat, q: nat)
    requires |reqs| == |bases| == |swaps| && q < |reqs|
    ensures BatchActs(reqs[..q + 1], bases[..q + 1], swaps[..q + 1], threshold) ==
            BatchActs(reqs[..q], bases[..q], swaps[..q], threshold)
            + RequestActs(reqs[q], bases[q], swaps[q], threshold)
  {
    assert reqs[..q + 1][..q] == reqs[..q] && bases[..q + 1][..q] == bases[..q] && swaps[..q + 1][..q] == swaps[..q];
  }

  /** The memtable that the first entry of a request goes into is not full. */
  lemma FirstMeetsRoom(ss: seq<State>, acts: seq<Action>, reqs: seq<seq<Pending>>, bases: seq<nat>,
                       swaps: seq<bool>, threshold: nat, full: map<Key, ValueStruct> -> bool, q: nat)
    requires Trace(ss, acts) && Roomed(ss, acts, reqs, bases, swaps, threshold, full) && !full(map[])
    requires q < |reqs| && reqs[q] != []
    ensures var w := StartOf(reqs, bases, swaps, threshold, q) + if swaps[q] then 1 else 0;
            && w < |acts| && acts[w] == Write(reqs[q][0].e, bases[q], threshold, reqs[q][0].ptr)
            && !full(Mt(ss[w]))
  {
    hide Moves, BatchActs, RequestActs, StartOf, Writes;
    var p := StartOf(reqs, bases, swaps, threshold, q);
    var mine := RequestActs(reqs[q], bases[q], swaps[q], threshold);
    RequestPlace(acts, reqs, bases, swaps, threshold, q);
    RequestHead(reqs[q], bases[q], swaps[q], threshold);
    assert RoomAt(ss, reqs, bases, swaps, threshold, full, q);
    assert acts[p] == acts[p..p + |mine|][0];
    if swaps[q] {
      assert acts[p + 1] == acts[p..p + |mine|][1];
      assert Moves(ss[p], Swap, ss[p + 1]);
      SwapEmpties(ss[p], ss[p + 1]);
    }
  }

  lemma RequestPlace(acts: seq<Action>, reqs: seq<seq<Pending>>, bases: seq<nat>, swaps: seq<bool>, threshold: nat,
                     q: nat)
    requires |reqs| == |bases| == |swaps| && q < |reqs| && acts == BatchActs(reqs, bases, swaps, threshold)
    ensures var p := StartOf(reqs, bases, swaps, threshold, q);
            var mine := RequestActs(reqs[q], bases[q], swaps[q], threshold);
            p + |mine| <= |acts| && acts[p..p + |mine|] == mine
  {
    hide RequestActs;
    BatchNext(reqs, bases, swaps, threshold, q);
    BatchPrefix(reqs, bases, swaps, threshold, q + 1);
  }

  lemma RequestHead(req: seq<Pending>, base: nat, swap: bool, threshold: nat)
    requires req != []
    ensures var mine := RequestActs(req, base, swap, threshold);
            var at := if swap then 1 else 0;
            && at < |mine| && mine[at] == Write(req[0].e, base, threshold, req[0].ptr) && (swap ==> mine[0] == Swap)
  {
  }

  lemma SwapEmpties(s: State, s': State)
    requires Moves(s, Swap, s')
    ensures Mt(s') == map[]
  {
  }

  lemma {:induction false} BatchPrefix(reqs: seq<seq<Pending>>, bases: seq<nat>, swaps: seq<bool>, threshold: nat,
                                       q: nat)
    requires |reqs| == |bases| == |swaps| && q <= |reqs|
    ensures var part := BatchActs(reqs[..q], bases[..q], swaps[..q], threshold);
            part <= BatchActs(reqs, bases, swaps, threshold)
    decreases |reqs| - q
  {
    hide RequestActs;
    if q < |reqs| {
      BatchNext(reqs, bases, swaps, threshold, q);
      BatchPrefix(reqs, bases, swaps, threshold, q + 1);
    } else {
      assert reqs[..q] == reqs && bases[..q] == bases && swaps[..q] == swaps;
    }
  }

  lemma TraceLength(ss: seq<State>, acts: seq<Action>)
    requires Trace(ss, acts)
    ensures |ss| == |acts| + 1
  {
    hide Moves;
  }

  lemma TraceLengthWritten(ss: seq<State>, acts: seq<Action>, reqs: seq<seq<Pending>>, bases: seq<nat>, n: nat,
                           done: nat, first: nat, threshold: nat, resps: seq<seq<Response>>)
    requires Written(ss, acts, reqs, bases, n, done, first, threshold, resps)
    ensures |ss| == |acts| + 1
  {
    hide Moves, AllWrites, WritesOf, AllAnswered;
  }

  lemma NothingWritten(s: State, req: seq<Pending>, base: nat, threshold: nat)
    requires req == []
    ensures Trace([s], []) && WritesOf([]) == Writes(req, base, threshold) == []
    ensures RequestActs(req, base, false, threshold) == []
    ensures Answered([s], [], req, base, threshold, [])
  {
  }

  lemma BasedLength(bases: seq<nat>, reqs: seq<seq<Pending>>, first: nat)
    requires Based(bases, reqs, first)
    ensures |bases| == |reqs|
  {
  }

  // ----- responses -----

  /** The response is what the checks say in the state just before the entry's own write. */
  ghost predicate AnsweredAt(ss: seq<State>, acts: seq<Action>, a: Action, resp: Response)
    requires a.Write?
  {
    |ss| == |acts| + 1 && exists m :: 0 <= m < |acts| && acts[m] == a && resp == Decide(Get(ss[m], a.e.key), a.e)
  }

  ghost predicate Answered(ss: seq<State>, acts: seq<Action>, req: seq<Pending>, base: nat, threshold: nat,
                           resps: seq<Response>) {
    && |resps| == |req|
    && forall i :: 0 <= i < |req| ==> AnsweredAt(ss, acts, Write(req[i].e, base + i, threshold, req[i].ptr), resps[i])
  }

  ghost predicate AllAnswered(ss: seq<State>, acts: seq<Action>, reqs: seq<seq<Pending>>, bases: seq<nat>,
                              threshold: nat, resps: seq<seq<Response>>) {
    && |resps| == |reqs| == |bases|
    && forall n :: 0 <= n < |reqs| ==> Answered(ss, acts, reqs[n], bases[n], threshold, resps[n])
  }

  lemma AnsweredHere(ss: seq<State>, req: seq<Pending>, base: nat, threshold: nat, resps: seq<Response>)
    requires Trace(ss, Writes(req, base, threshold)) && |resps| == |req|
    requires forall i :: 0 <= i < |req| ==> resps[i] == Decide(Get(ss[i], req[i].e.key), req[i].e)
    ensures Answered(ss, Writes(req, base, threshold), req, base, threshold, resps)
  {
    hide Moves, Get, Decide;
    var acts := Writes(req, base, threshold);
    forall i | 0 <= i < |req| ensures AnsweredAt(ss, acts, Write(req[i].e, base + i, threshold, req[i].ptr), resps[i]) {
      assert acts[i] == Write(req[i].e, base + i, threshold, req[i].ptr);
    }
  }

  /** What was answered in one part of a longer trace is answered in the whole. */
  lemma AnsweredAtJoin(ss: seq<State>, acts: seq<Action>, tt: seq<State>, more: seq<Action>, a: Action, resp: Response)
    requires |ss| == |acts| + 1 && |tt| == |more| + 1 && tt[0] == ss[|ss| - 1] && a.Write?
    requires AnsweredAt(ss, acts, a, resp) || AnsweredAt(tt, more, a, resp)
    ensures AnsweredAt(ss + tt[1..], acts + more, a, resp)
  {
    hide Get, Decide;
    var ss', acts' := ss + tt[1..], acts + more;
    if AnsweredAt(ss, acts, a, resp) {
      var m :| 0 <= m < |acts| && acts[m] == a && resp == Decide(Get(ss[m], a.e.key), a.e);
      assert acts'[m] == a && ss'[m] == ss[m];
    } else {
      var m :| 0 <= m < |more| && more[m] == a && resp == Decide(Get(tt[m], a.e.key), a.e);
      assert acts'[|acts| + m] == a && ss'[|acts| + m] == tt[m];
    }
  }

  lemma AnsweredJoin(ss: seq<State>, acts: seq<Action>, tt: seq<State>, more: seq<Action>, req: seq<Pending>,
                     base: nat, threshold: nat, resps: seq<Response>)
    requires Trace(ss, acts) && Trace(tt, more) && tt[0] == ss[|ss| - 1]
    requires Answered(ss, acts, req, base, threshold, resps) || Answered(tt, more, req, base, threshold, resps)
    ensures Answered(ss + tt[1..], acts + more, req, base, threshold, resps)
  {
    hide AnsweredAt, Moves;
    forall i | 0 <= i < |req|
      ensures AnsweredAt(ss + tt[1..], acts + more, Write(req[i].e, base + i, threshold, req[i].ptr), resps[i])
    {
      AnsweredAtJoin(ss, acts, tt, more, Write(req[i].e, base + i, threshold, req[i].ptr), resps[i]);
    }
  }

  lemma AllAnsweredJoin(ss: seq<State>, acts: seq<Action>, tt: seq<State>, more: seq<Action>,
                        reqs: seq<seq<Pending>>, bases: seq<nat>, threshold: nat, resps: seq<seq<Response>>)
    requires Trace(ss, acts) && Trace(tt, more) && tt[0] == ss[|ss| - 1]
    requires || AllAnswered(ss, acts, reqs, bases, threshold, resps)
             || AllAnswered(tt, more, reqs, bases, threshold, resps)
    ensures AllAnswered(ss + tt[1..], acts + more, reqs, bases, threshold, resps)
  {
    hide Answered, Moves;
    forall n | 0 <= n < |reqs| ensures Answered(ss + tt[1..], acts + more, reqs[n], bases[n], threshold, resps[n]) {
      AnsweredJoin(ss, acts, tt, more, reqs[n], bases[n], threshold, resps[n]);
    }
  }

  lemma AnsweredMore(ss: seq<State>, acts: seq<Action>, reqs: seq<seq<Pending>>, bases: seq<nat>,
                     resps: seq<seq<Response>>, req: seq<Pending>, base: nat, r: seq<Response>, threshold: nat)
    requires AllAnswered(ss, acts, reqs, bases, threshold, resps) && Answered(ss, acts, req, base, threshold, r)
    ensures AllAnswered(ss, acts, reqs + [req], bases + [base], threshold, resps + [r])
  {
    hide Answered;
  }

  // ----- the requests of a batch -----

  /** The trace writes exactly the entries of requests n to done, in order and with consecutive counters, and
      the responses are those entries' own. */
  ghost predicate Written(ss: seq<State>, acts: seq<Action>, reqs: seq<seq<Pending>>, bases: seq<nat>, n: nat,
                          done: nat, first: nat, threshold: nat, resps: seq<seq<Response>>) {
    && n <= done <= |reqs| == |bases| && Trace(ss, acts)
    && AllWrites(reqs[..n], first, threshold) + WritesOf(acts) == AllWrites(reqs[..done], first, threshold)
    && AllAnswered(ss, acts, reqs[n..done], bases[n..done], threshold, resps)
  }

  lemma WrittenNone(s: State, reqs: seq<seq<Pending>>, bases: seq<nat>, n: nat, first: nat, threshold: nat)
    requires n <= |reqs| && Based(bases, reqs, first)
    ensures Written([s], [], reqs, bases, n, n, first, threshold, [])
  {
    hide AllWrites;
    assert reqs[n..n] == [] && bases[n..n] == [];
    TraceNone(s);
  }

  lemma WrittenMore(ss: seq<State>, acts: seq<Action>, reqs: seq<seq<Pending>>, bases: seq<nat>, n: nat, done: nat,
                    first: nat, threshold: nat, resps: seq<seq<Response>>, tt: seq<State>, more: seq<Action>,
                    r: seq<Response>)
    requires Written(ss, acts, reqs, bases, n, done, first, threshold, resps) && done < |reqs|
    requires |ss| > 0 && |tt| > 0 && tt[0] == ss[|ss| - 1] && Trace(tt, more)
    requires bases[done] == first + Count(reqs[..done])
    requires WritesOf(more) == Writes(reqs[done], bases[done], threshold)
    requires Answered(tt, more, reqs[done], bases[done], threshold, r)
    ensures Written(ss + tt[1..], acts + more, reqs, bases, n, done + 1, first, threshold, resps + [r])
    ensures (ss + tt[1..])[0] == ss[0] && (ss + tt[1..])[|ss + tt[1..]| - 1] == tt[|tt| - 1]
  {
    hide Trace, AllWrites, WritesOf, Answered, AllAnswered;
    AllWritesMore(reqs, done, first, threshold);
    assert reqs[n..done + 1] == reqs[n..done] + [reqs[done]] && bases[n..done + 1] == bases[n..done] + [bases[done]];
    JoinTraces(ss, acts, tt, more);
    AllAnsweredJoin(ss, acts, tt, more, reqs[n..done], bases[n..done], threshold, resps);
    AnsweredJoin(ss, acts, tt, more, reqs[done], bases[done], threshold, r);
    AnsweredMore(ss + tt[1..], acts + more, reqs[n..done], bases[n..done], resps,
                 reqs[done], bases[done], r, threshold);
  }

  lemma WrittenAfter(ss: seq<State>, acts: seq<Action>, tt: seq<State>, more: seq<Action>, reqs: seq<seq<Pending>>,
                     bases: seq<nat>, done: nat, first: nat, threshold: nat, resps: seq<seq<Response>>)
    requires Trace(ss, acts) && WritesOf(acts) == [] && |ss| > 0 && |tt| > 0 && tt[0] == ss[|ss| - 1]
    requires Written(tt, more, reqs, bases, 0, done, first, threshold, resps)
    ensures Written(ss + tt[1..], acts + more, reqs, bases, 0, done, first, threshold, resps)
    ensures (ss + tt[1..])[0] == ss[0] && (ss + tt[1..])[|ss + tt[1..]| - 1] == tt[|tt| - 1]
    ensures WritesOf(acts + more) == AllWrites(reqs[..done], first, threshold) && |resps| == done
  {
    hide Trace, WritesOf, Answered;
    JoinTraces(ss, acts, tt, more);
    AllAnsweredJoin(ss, acts, tt, more, reqs[0..done], bases[0..done], threshold, resps);
    assert [] + WritesOf(more) == WritesOf(more);
  }

  // ----- flushing -----

  /** With the flusher idle the immutable list is the queue. */
  lemma Flushable(s: State)
    requires Inv(s) && s.flush.Idle? && s.queue != []
    ensures s.imm == s.queue && |s.levels| >= 2
  {
    hide BookInv, MemDepthOk, HistoryOk, NewestOk, StatusOk;
  }

  lemma FirstTask(kv: KV)
    requires kv.Valid() && Inv(kv.s) && kv.s.flush.Idle? && kv.flushCh != []
    ensures kv.levels != [] && kv.imm != [] && kv.imm[0] == kv.flushCh[0]
  {
    hide Inv;
    Flushable(kv.s);
  }

  lemma NamedReady(s: State, t: Table)
    requires Inv(s) && s.flush.Named? && t.id == s.flush.id && s.flush.m in s.mems && t.kvs == s.mems[s.flush.m]
    requires t.smallest <= t.biggest && forall k :: k in t.kvs ==> t.smallest <= k <= t.biggest
    ensures GoodTable(t) && t.id !in s.manifest
  {
    hide BookInv, MemDepthOk, HistoryOk, NewestOk, StatusOk;
    UnusedNew(s, t.id);
  }

  /** A trace between two states without writes: the invariant is kept and no lookup changes. */
  ghost predicate Unseen(ss: seq<State>, acts: seq<Action>, from: State, to: State) {
    && Trace(ss, acts) && ss[0] == from && ss[|ss| - 1] == to && WritesOf(acts) == [] && Inv(to)
    && forall k :: Get(to, k) == Get(from, k)
  }

  lemma UnseenNone(s: State)
    requires Inv(s)
    ensures Unseen([s], [], s, s)
  {
    hide Inv;
  }

  lemma UnseenMore(ss: seq<State>, acts: seq<Action>, from: State, a: Action, s': State)
    requires |ss| > 0 && Unseen(ss, acts, from, ss[|ss| - 1]) && Step(ss[|ss| - 1], a, s') && !a.Write?
    ensures Unseen(ss + [s'], acts + [a], from, s') && Inv(s')
  {
    hide Inv, Step, WritesOf, Find;
    var s := ss[|ss| - 1];
    StepInv(s, a, s');
    TraceMore(ss, acts, a, s');
    WritesSkip(acts, a);
    StepLatest(s, a, s');
    forall k ensures Get(s', k) == Get(s, k) {
      FindIsLatest(s, k);
      FindIsLatest(s', k);
    }
  }

  /** A create of a new id. */
  lemma OneCreate(m: map<nat, nat>, id: nat)
    requires id !in m
    ensures ApplyAll(m, [Create(id, 0)]) == Some(m[id := 0])
  {
    assert [Create(id, 0)][..0] == [];
  }
}
