// Batching writes: valid entries are packed into requests, and each response goes to its own entry.
module Batch {
  import opened Base

  /** The parts of an entry that batching looks at, and which entry it is. */
  datatype Entry = Entry(keyLen: nat, valueLen: nat, id: nat)

  const MAX_KEY_SIZE := 0x10_0000

  datatype Result<R> = Unset | KeyTooBig | ValueTooBig | Answer(value: R)

  datatype Limits = Limits(fileSize: nat, maxCount: nat, maxSize: nat, estimate: Entry -> nat)

  predicate Fits(l: Limits, e: Entry) { e.keyLen <= MAX_KEY_SIZE && e.valueLen <= l.fileSize }

  /** The indices of the entries that fit, in order. */
  function Good(l: Limits, es: seq<Entry>): (r: seq<nat>)
    ensures forall k :: 0 <= k < |r| ==> r[k] < |es| && Fits(l, es[r[k]])
    ensures forall j, k :: 0 <= j < k < |r| ==> r[j] < r[k]
  {
    if es == [] then []
    else
      var n := |es| - 1;
      if Fits(l, es[n]) then Good(l, es[..n]) + [n] else Good(l, es[..n])
  }

  /** No entry that fits is left out. */
  lemma {:induction false} GoodAll(l: Limits, es: seq<Entry>, i: nat)
    requires i < |es|
    ensures i in Good(l, es) <==> Fits(l, es[i])
  {
    var n := |es| - 1;
    if i < n { GoodAll(l, es[..n], i); }
  }

  function Picked(es: seq<Entry>, idx: seq<nat>): (r: seq<Entry>)
    requires forall k :: 0 <= k < |idx| ==> idx[k] < |es|
    ensures |r| == |idx| && forall k :: 0 <= k < |r| ==> r[k] == es[idx[k]]
  {
    seq(|idx|, k requires 0 <= k < |idx| => es[idx[k]])
  }

  function SumSize(l: Limits, req: seq<Entry>): nat {
    if req == [] then 0 else SumSize(l, req[..|req| - 1]) + l.estimate(req[|req| - 1])
  }

  /** A request is sent as soon as it is full. */
  predicate Full(l: Limits, req: seq<Entry>) { |req| >= l.maxCount || SumSize(l, req) >= l.maxSize }

  ghost predicate Closed(l: Limits, req: seq<Entry>) {
    req != [] && forall n :: 0 < n < |req| ==> !Full(l, req[..n])
  }

  /** The write channel with the responses that came back for each request. */
  class Channel<R(==)> {
    const reply: (nat, nat) -> R
    var sent: seq<seq<Entry>>
    ghost var answers: seq<seq<R>>

    constructor (reply: (nat, nat) -> R)
      ensures this.reply == reply && sent == [] && answers == []
    {
      this.reply := reply;
      sent, answers := [], [];
    }

    /** Sends a request and waits for one response per entry. */
    method SendAndWait(req: seq<Entry>) returns (resp: seq<R>)
      modifies this
      ensures sent == old(sent) + [req] && answers == old(answers) + [resp] && |resp| == |req|
    {
      var q := |sent|;
      resp := seq(|req|, k requires k >= 0 => reply(q, k));
      sent := sent + [req];
      answers := answers + [resp];
    }
  }

  /** What batch_set has packed after the first n entries: the requests sent, then the one being filled. */
  ghost predicate Packed(l: Limits, es: seq<Entry>, n: nat, sent: seq<Entry>, answered: nat, req: seq<Entry>,
                         reqIndex: seq<nat>)
  {
    n <= |es| &&
    var good := Good(l, es[..n]);
    && answered <= |good| && reqIndex == good[answered..] && |req| == |reqIndex|
    && sent + req == Picked(es, good)
  }

  /** What has been settled: the answered entries have their response, the bad ones their error. */
  ghost predicate Routed<R>(l: Limits, es: seq<Entry>, n: nat, res: seq<Result<R>>, got: seq<R>) {
    n <= |es| == |res| &&
    var good := Good(l, es[..n]);
    && |got| <= |good|
    && (forall k :: 0 <= k < |got| ==> res[good[k]] == Answer(got[k]))
    && forall i :: 0 <= i < n && !Fits(l, es[i]) ==>
         res[i] == if es[i].keyLen > MAX_KEY_SIZE then KeyTooBig else ValueTooBig
  }

  lemma GoodStep(l: Limits, es: seq<Entry>, i: nat)
    requires i < |es|
    ensures Good(l, es[..i + 1]) == if Fits(l, es[i]) then Good(l, es[..i]) + [i] else Good(l, es[..i])
  {
    assert es[..i + 1][..i] == es[..i];
  }

  lemma PackedBad(l: Limits, es: seq<Entry>, i: nat, sent: seq<Entry>, answered: nat, req: seq<Entry>,
                  reqIndex: seq<nat>)
    requires Packed(l, es, i, sent, answered, req, reqIndex) && i < |es| && !Fits(l, es[i])
    ensures Packed(l, es, i + 1, sent, answered, req, reqIndex)
  {
    GoodStep(l, es, i);
  }

  lemma PackedGood(l: Limits, es: seq<Entry>, i: nat, sent: seq<Entry>, answered: nat, req: seq<Entry>,
                   reqIndex: seq<nat>)
    requires Packed(l, es, i, sent, answered, req, reqIndex) && i < |es| && Fits(l, es[i])
    ensures Packed(l, es, i + 1, sent, answered, req + [es[i]], reqIndex + [i])
  {
    hide Good, Fits, Picked;
    GoodStep(l, es, i);
    var good := Good(l, es[..i]);
    PickedSnoc(es, good, i);
    Snoc(sent, req, es[i]);
    DropSnoc(good, answered, i);
  }

  lemma PickedSnoc(es: seq<Entry>, good: seq<nat>, i: nat)
    requires i < |es| && forall k :: 0 <= k < |good| ==> good[k] < |es|
    ensures Picked(es, good + [i]) == Picked(es, good) + [es[i]]
  {
  }

  lemma Snoc<T>(a: seq<T>, b: seq<T>, x: T)
    ensures a + (b + [x]) == a + b + [x]
  {
  }

  lemma DropSnoc<T>(a: seq<T>, n: nat, x: T)
    requires n <= |a|
    ensures (a + [x])[n..] == a[n..] + [x]
  {
  }

  lemma RoutedBad<R>(l: Limits, es: seq<Entry>, i: nat, res: seq<Result<R>>, got: seq<R>)
    requires Routed(l, es, i, res, got) && i < |es| && !Fits(l, es[i])
    ensures Routed(l, es, i + 1, res[i := if es[i].keyLen > MAX_KEY_SIZE then KeyTooBig else ValueTooBig], got)
  {
    hide Good;
    GoodStep(l, es, i);
  }

  lemma RoutedGood<R>(l: Limits, es: seq<Entry>, i: nat, res: seq<Result<R>>, got: seq<R>)
    requires Routed(l, es, i, res, got) && i < |es| && Fits(l, es[i])
    ensures Routed(l, es, i + 1, res, got)
  {
    hide Good;
    GoodStep(l, es, i);
  }

  /** The responses of a request go to the entries of the request. */
  lemma RoutedAnswers<R>(l: Limits, es: seq<Entry>, n: nat, res: seq<Result<R>>, got: seq<R>, sent: seq<Entry>,
                         req: seq<Entry>, reqIndex: seq<nat>, resp: seq<R>, res': seq<Result<R>>)
    requires Routed(l, es, n, res, got) && Packed(l, es, n, sent, |got|, req, reqIndex) && |resp| == |req|
    requires |res'| == |res|
    requires forall k :: 0 <= k < |resp| ==> reqIndex[k] < |res| && res'[reqIndex[k]] == Answer(resp[k])
    requires forall i :: 0 <= i < |res| && i !in reqIndex ==> res'[i] == res[i]
    ensures Routed(l, es, n, res', got + resp) && Packed(l, es, n, sent + req, |got + resp|, [], [])
  {
    hide Good, Picked;
    var good := Good(l, es[..n]);
    forall k | 0 <= k < |got + resp| ensures res'[good[k]] == Answer((got + resp)[k]) {
      if k >= |got| { assert reqIndex[k - |got|] == good[k]; }
    }
    assert forall i :: i in reqIndex ==> i in good;
    forall i | 0 <= i < n && !Fits(l, es[i]) ensures i !in reqIndex {
      BadNotGood(l, es, n, i);
    }
    assert sent + req + [] == sent + req;
  }

  lemma BadNotGood(l: Limits, es: seq<Entry>, n: nat, i: nat)
    requires i < n <= |es|
    ensures i in Good(l, es[..n]) ==> Fits(l, es[i])
  {
    GoodAll(l, es[..n], i);
  }

  /** Stores the responses under the indices of their entries. */
  method Route<R(==)>(res: seq<Result<R>>, reqIndex: seq<nat>, resp: seq<R>) returns (res': seq<Result<R>>)
    requires |resp| == |reqIndex| && forall k :: 0 <= k < |reqIndex| ==> reqIndex[k] < |res|
    requires forall j, k :: 0 <= j < k < |reqIndex| ==> reqIndex[j] < reqIndex[k]
    ensures |res'| == |res| && forall k :: 0 <= k < |resp| ==> res'[reqIndex[k]] == Answer(resp[k])
    ensures forall i :: 0 <= i < |res| && i !in reqIndex ==> res'[i] == res[i]
  {
    res' := res;
    for n := 0 to |resp|
      invariant |res'| == |res| && forall k :: 0 <= k < n ==> res'[reqIndex[k]] == Answer(resp[k])
      invariant forall i :: 0 <= i < |res| && i !in reqIndex ==> res'[i] == res[i]
    {
      res' := res'[reqIndex[n] := Answer(resp[n])];
    }
  }

  lemma IndicesAscend(l: Limits, es: seq<Entry>, n: nat, sent: seq<Entry>, answered: nat, req: seq<Entry>,
                      reqIndex: seq<nat>)
    requires Packed(l, es, n, sent, answered, req, reqIndex)
    ensures forall k :: 0 <= k < |reqIndex| ==> reqIndex[k] < |es|
    ensures forall j, k :: 0 <= j < k < |reqIndex| ==> reqIndex[j] < reqIndex[k]
    ensures |req| == |reqIndex|
  {
    hide Good;
  }

  /** Sends the request and routes the responses. */
  method SendAndRoute<R(==)>(l: Limits, ghost es: seq<Entry>, ghost n: nat, ch: Channel<R>, req: seq<Entry>,
                             reqIndex: seq<nat>, res: seq<Result<R>>) returns (res': seq<Result<R>>)
    requires Routed(l, es, n, res, Flatten(ch.answers))
    requires Packed(l, es, n, Flatten(ch.sent), |Flatten(ch.answers)|, req, reqIndex)
    modifies ch
    ensures |res'| == |res| && ch.sent == old(ch.sent) + [req] && Routed(l, es, n, res', Flatten(ch.answers))
    ensures Packed(l, es, n, Flatten(ch.sent), |Flatten(ch.answers)|, [], [])
  {
    hide Flatten, Good, Packed, Picked;
    IndicesAscend(l, es, n, Flatten(ch.sent), |Flatten(ch.answers)|, req, reqIndex);
    var resp := ch.SendAndWait(req);
    FlattenSnoc(old(ch.sent), req);
    FlattenSnoc(old(ch.answers), resp);
    res' := Route(res, reqIndex, resp);
    RoutedAnswers(l, es, n, res, Flatten(old(ch.answers)), Flatten(old(ch.sent)), req, reqIndex, resp, res');
  }

  lemma NothingYet<R>(l: Limits, es: seq<Entry>, res: seq<Result<R>>, ch: Channel<R>)
    requires ch.sent == [] && ch.answers == [] && |res| == |es|
    ensures Routed(l, es, 0, res, Flatten(ch.answers)) && |Flatten(ch.answers)| == 0
    ensures Packed(l, es, 0, Flatten(ch.sent), |Flatten(ch.answers)|, [], []) && SumSize(l, []) == 0
  {
  }

  lemma SumMore(l: Limits, req: seq<Entry>, e: Entry)
    ensures SumSize(l, req + [e]) == SumSize(l, req) + l.estimate(e)
  {
    assert (req + [e])[..|req|] == req;
  }

  lemma SumNone(l: Limits)
    ensures SumSize(l, []) == 0
  {
  }

  lemma AllSettled<R>(l: Limits, es: seq<Entry>, res: seq<Result<R>>, ch: Channel<R>)
    requires Routed(l, es, |es|, res, Flatten(ch.answers))
    requires Packed(l, es, |es|, Flatten(ch.sent), |Flatten(ch.answers)|, [], [])
    ensures Flatten(ch.sent) == Picked(es, Good(l, es)) && |Flatten(ch.answers)| == |Good(l, es)| && |res| == |es|
    ensures forall k :: 0 <= k < |Good(l, es)| ==> res[Good(l, es)[k]] == Answer(Flatten(ch.answers)[k])
    ensures forall i :: 0 <= i < |es| && !Fits(l, es[i]) ==>
              res[i] == if es[i].keyLen > MAX_KEY_SIZE then KeyTooBig else ValueTooBig
  {
    hide Good, Flatten;
    assert es[..|es|] == es;
    assert Flatten(ch.sent) + [] == Flatten(ch.sent);
  }

  lemma ClosedBelow(l: Limits, req: seq<Entry>)
    requires Closed(l, req)
    ensures NoneFull(l, req)
  {
    forall n | 0 < n < |req| ensures |req[..n]| < l.maxCount && SumSize(l, req[..n]) < l.maxSize {
      assert !Full(l, req[..n]);
    }
  }

  /** The request is not empty, and was below both limits before its last entry. */
  ghost predicate NoneFull(l: Limits, req: seq<Entry>) {
    req != [] && forall n :: 0 < n < |req| ==> |req[..n]| < l.maxCount && SumSize(l, req[..n]) < l.maxSize
  }

  /** batch_set: every entry that fits is in exactly one request, in order, and gets the response of its
      own place; the others get their error. */
  method BatchSet<R(==)>(l: Limits, es: seq<Entry>, ch: Channel<R>) returns (res: seq<Result<R>>)
    requires ch.sent == [] && ch.answers == []
    modifies ch
    ensures Flatten(ch.sent) == Picked(es, Good(l, es)) && |Flatten(ch.answers)| == |Good(l, es)| && |res| == |es|
    ensures forall k :: 0 <= k < |Good(l, es)| ==> res[Good(l, es)[k]] == Answer(Flatten(ch.answers)[k])
    ensures forall i :: 0 <= i < |es| ==>
              (i in Good(l, es) <==> es[i].keyLen <= 0x10_0000 && es[i].valueLen <= l.fileSize)
    ensures forall i :: 0 <= i < |es| && es[i].keyLen > 0x10_0000 ==> res[i] == KeyTooBig
    ensures forall i :: 0 <= i < |es| && es[i].keyLen <= 0x10_0000 && es[i].valueLen > l.fileSize ==>
              res[i] == ValueTooBig
    ensures forall q :: 0 <= q < |ch.sent| ==> NoneFull(l, ch.sent[q])
    ensures forall q :: 0 <= q < |ch.sent| - 1 ==>
              |ch.sent[q]| >= l.maxCount || SumSize(l, ch.sent[q]) >= l.maxSize
  {
    hide Flatten, Good, Packed, Routed, Picked, SumSize;
    res := seq(|es|, _ => Unset);
    var count, sz := 0, 0;
    var req: seq<Entry> := [];
    var reqIndex: seq<nat> := [];
    NothingYet(l, es, res, ch);
    for i := 0 to |es|
      invariant count == |req| == |reqIndex| && sz == SumSize(l, req) && |res| == |es|
      invariant Routed(l, es, i, res, Flatten(ch.answers))
      invariant Packed(l, es, i, Flatten(ch.sent), |Flatten(ch.answers)|, req, reqIndex)
      invariant forall q :: 0 <= q < |ch.sent| ==> Closed(l, ch.sent[q]) && Full(l, ch.sent[q])
      invariant forall n :: 0 < n <= |req| ==> !Full(l, req[..n])
    {
      var e := es[i];
      if e.keyLen > MAX_KEY_SIZE {
        RoutedBad(l, es, i, res, Flatten(ch.answers));
        PackedBad(l, es, i, Flatten(ch.sent), |Flatten(ch.answers)|, req, reqIndex);
        res := res[i := KeyTooBig];
        continue;
      }
      if e.valueLen > l.fileSize {
        RoutedBad(l, es, i, res, Flatten(ch.answers));
        PackedBad(l, es, i, Flatten(ch.sent), |Flatten(ch.answers)|, req, reqIndex);
        res := res[i := ValueTooBig];
        continue;
      }
      RoutedGood(l, es, i, res, Flatten(ch.answers));
      PackedGood(l, es, i, Flatten(ch.sent), |Flatten(ch.answers)|, req, reqIndex);
      SumMore(l, req, e);
      assert forall n :: 0 < n <= |req| ==> (req + [e])[..n] == req[..n];
      count := count + 1;
      sz := sz + l.estimate(e);
      req := req + [e];
      reqIndex := reqIndex + [i];
      assert req[..|req|] == req;
      if count >= l.maxCount || sz >= l.maxSize {
        res := SendAndRoute(l, es, i + 1, ch, req, reqIndex, res);
        count, sz, req, reqIndex := 0, 0, [], [];
        SumNone(l);
      }
    }
    assert es[..|es|] == es;
    if req != [] {
      res := SendAndRoute(l, es, |es|, ch, req, reqIndex, res);
    }
    AllSettled(l, es, res, ch);
    forall i | 0 <= i < |es| ensures i in Good(l, es) <==> Fits(l, es[i]) { GoodAll(l, es, i); }
    forall q | 0 <= q < |ch.sent| ensures NoneFull(l, ch.sent[q]) { ClosedBelow(l, ch.sent[q]); }
  }
}
