/** What the events of HttpMachine do, and that a response whose body is complete gets out and ends. */
module HttpEffects {
  import opened Bytes
  import opened HttpMachine
  import opened HttpSafety
  import opened HttpRuns
  import opened HttpOrder

  // What a write that completes does.

  lemma {:induction false} AllTaken(rest: seq<byte>, k: nat)
    requires k <= |rest|
    ensures Consumed([rest], k) == [] <==> 0 < k == |rest|
  {
    ConsumeOne(rest, k);
  }

  /** The front item is finished exactly if all that was left of it was taken, and the response exactly if it also
      was the last chunk: then the bit is set, the connection is released and its close is posted. */
  lemma {:induction false} WrittenEnds(s: State, k: nat)
    requires Safe(s) && s.valid && BodyInFlight(s) && k <= |Rest(s)| && s.storage != []
    ensures Enabled(s, EvBodyDone(0, true, k))
    ensures var t := Step(s, EvBodyDone(0, true, k));
            if 0 < k == |Rest(s)| then
              && t.storage == s.storage[1..] && t.finished == s.finished + [s.storage[0].payload] && t.buffers == []
              && (if s.storage[0].isLastChunk then t.Has(BodySent) && !t.valid && t.closePending
                  else t.bits == s.bits && t.valid && !t.closePending)
            else
              && t.storage == s.storage && t.finished == s.finished && t.buffers == [Rest(s)[k..]]
              && t.bits == s.bits && t.valid
  {
    hide Consumed, Body, OrderOk, SizeOk, Payloads;
    assert s.inflight[0].data == s.buffers[0] == Rest(s) && s.buffers == [Rest(s)];
    AllTaken(Rest(s), k);
    ConsumeOne(Rest(s), k);
    var u := Accept(s, 0, k);
    assert u.buffers == s.buffers && u.storage == s.storage && u.valid;
    assert Rest(s)[0..] == Rest(s);
  }

  /** A write that fails finishes every item at once and releases. */
  lemma {:induction false} WriteFails(s: State, i: nat, k: nat)
    requires s.valid && Enabled(s, EvBodyDone(i, false, k))
    ensures var t := Step(s, EvBodyDone(i, false, k));
            && t.storage == [] && t.finished == s.finished + Payloads(s.storage)
            && !t.valid && t.closePending
  {
    hide Payloads;
  }

  /** The last chunk ends the response, in one step. */
  lemma {:induction false} LastChunkReleases(s: State, k: nat)
    requires Safe(s) && s.valid && BodyInFlight(s) && s.storage != []
    requires s.storage[0].isLastChunk && 0 < k == |Rest(s)|
    ensures Enabled(s, EvBodyDone(0, true, k))
    ensures var t := Step(s, EvBodyDone(0, true, k)); t.Has(BodySent) && !t.valid && t.closePending
  {
    hide Step, Enabled, Safe;
    WrittenEnds(s, k);
  }

  /** The two bytes of the run OFFERED are taken: that response is over. */
  lemma {:induction false} OfferedEnds()
    ensures var s := Run(OFFERED + [EvBodyDone(0, true, 2)]);
            s.Has(BodySent) && !s.valid && s.closePending && s.sent == [1, 2]
  {
    hide Run, Step, Enabled, Safe;
    EveryRunSafe(OFFERED);
    OfferedState();
    var s := Run(OFFERED);
    LastChunkReleases(s, 2);
    OfferedTaken(s);
    RunStep(OFFERED, EvBodyDone(0, true, 2));
  }

  lemma {:induction false} OfferedTaken(s: State)
    requires s.valid && s.inflight == [BodyWrite(0, [1, 2])] && s.sent == []
    ensures Enabled(s, EvBodyDone(0, true, 2)) && Step(s, EvBodyDone(0, true, 2)).sent == [1, 2]
  {
    hide Advance;
    assert [1, 2][..2] == [1 as byte, 2];
    AdvanceRecord(Accept(s, 0, 2), 2);
  }

  // What a perform task does.

  predicate HeadersOut(s: State) {
    s.Has(AllHeadersSet) && s.Has(HeadersPacked) && s.Has(HeadersSent) && !s.Has(BodySent)
  }

  /** A perform task writes the headers once they are all set, and then releases if there is no body or starts a
      write of what is left of the front item. */
  lemma {:induction false} PerformDoes(s: State)
    ensures var t := Step(s, EvPerform);
            && (s.Has(AllHeadersSet) && !s.Has(BodySent) && !s.Has(HeadersPacked) ==>
                  t.inflight == s.inflight + [HeaderWrite] && t.Has(HeadersPacked) && t.sending)
            && (HeadersOut(s) && s.maxSize == 0 ==> !t.valid && (s.valid ==> t.closePending))
            && (HeadersOut(s) && s.maxSize > 0 && s.Has(BodySizeSet) && s.storage != [] && !s.sending ==>
                  |t.inflight| == |s.inflight| + 1 && t.inflight[|s.inflight|].BodyWrite?
                  && (|s.buffers| <= 1 ==> t.inflight[|s.inflight|].data == Rest(s)) && t.sending)
            && (!s.Has(AllHeadersSet) || s.Has(BodySent) ==> t == s)
            && (s.Has(HeadersPacked) && !s.Has(HeadersSent) ==> t == s)
  {
    hide Cursor, Concat;
    if s.storage != [] {
      ConcatOne(Rest(s));
      assert |s.buffers| == 1 ==> s.buffers == [s.buffers[0]];
    }
  }

  /** The headers are out; on an error everything is finished and released instead. */
  lemma {:induction false} HeadersDone(s: State, i: nat, ok: bool)
    requires s.valid && Enabled(s, EvHeaderDone(i, ok))
    ensures var t := Step(s, EvHeaderDone(i, ok));
            if ok then t.bits == s.bits + {HeadersSent} && t.valid && t.storage == s.storage
            else t.storage == [] && t.finished == s.finished + Payloads(s.storage) && !t.valid && t.closePending
  {
    hide Payloads;
  }

  // What the setters do.

  /** The announced size is stored, and with it all headers are set, until the body is complete. */
  lemma SizeSet(s: State, size: nat)
    ensures var t := Step(s, EvSetBodySize(size));
            if !s.valid || s.Has(BodySet) then t == s
            else t.maxSize == size && t.Has(BodySizeSet) && t.Has(AllHeadersSet) && t.storage == s.storage
  {
  }

  /** An appended item goes to the end of the queue unless it is empty. As soon as the announced size is reached the
      body is complete and its last item is the last chunk. */
  lemma {:induction false} AppendDoes(s: State, p: Payload)
    requires s.valid && !s.Has(BodySet)
    ensures var t := Step(s, EvAppend(p));
            && Payloads(t.storage) == Payloads(s.storage) + (if p.bytes == [] then [] else [p])
            && t.enqueued == s.enqueued + (if p.bytes == [] then [] else [p])
            && t.currentSize == s.currentSize + |p.bytes|
            && (t.Has(BodySet) <==> s.currentSize + |p.bytes| >= s.maxSize)
            && (t.Has(BodySet) && t.storage != [] ==> t.storage[|t.storage| - 1].isLastChunk)
  {
    hide Payloads, MarkLast;
    var g := Grow(s, p);
    if p.bytes == [] {
      assert Payloads(s.storage) + [] == Payloads(s.storage) && s.enqueued + [] == s.enqueued;
    } else {
      PayloadsAppend(s.storage, Item(p, false));
    }
    PayloadsMarked(g.storage);
    if g.storage != [] {
      MarkedLast(g.storage);
    }
  }

  /** A stock response is one item, and it is the last chunk. */
  lemma StockDoes(s: State, content: seq<byte>)
    requires s.valid
    ensures var t := Step(s, EvStock(content));
            && t.storage == s.storage + [Item(Payload(content, false), true)]
            && t.maxSize == t.currentSize == t.pendingSize == |content|
            && t.bits == s.bits + {AllHeadersSet, BodySizeSet, BodySet}
  {
  }

  lemma MarkedLast(items: seq<Item>)
    requires items != []
    ensures MarkLast(items) != [] && MarkLast(items)[|items| - 1].isLastChunk
  {
  }

  // A complete body gets out.

  /** All that remains is to write the items that wait, none of them empty and the last one marked. */
  ghost predicate CanFinish(s: State) {
    && s.valid && !s.stocked && HeadersOut(s) && s.Has(BodySizeSet) && s.maxSize > 0
    && s.storage != [] && s.storage[|s.storage| - 1].isLastChunk
    && Rest(s) != [] && forall i :: 0 <= i < |s.storage| ==> s.storage[i].payload.bytes != []
  }

  lemma {:induction false} PerformOffers(s: State)
    requires Safe(s) && CanFinish(s) && s.inflight == []
    ensures var t := Step(s, EvPerform);
            CanFinish(t) && BodyInFlight(t) && t.storage == s.storage && t.enqueued == s.enqueued
  {
    hide Cursor, Concat, OrderOk, OfferOk, SizeOk, QueueOk;
    assert !s.sending;
    assert s.buffers == [] || s.buffers == [s.buffers[0]];
  }

  /** The next item is taken whole: one item fewer waits, or the response is over. */
  lemma {:induction false} ItemTaken(s: State)
    requires Safe(s) && CanFinish(s) && BodyInFlight(s)
    ensures Enabled(s, EvBodyDone(0, true, |Rest(s)|))
    ensures var t := Step(s, EvBodyDone(0, true, |Rest(s)|));
            && t.enqueued == s.enqueued
            && (|s.storage| > 1 ==> CanFinish(t) && t.inflight == [] && t.storage == s.storage[1..])
            && (|s.storage| == 1 ==> t.Has(BodySent) && !t.stocked && !t.valid && t.closePending)
  {
    hide Step, Enabled, WriteOk, QueueOk, BuffersOk, OrderOk, OfferOk;
    WrittenEnds(s, |Rest(s)|);
    TakenRest(s, |Rest(s)|);
    assert s.storage[0].isLastChunk <==> |s.storage| == 1;
  }

  lemma {:induction false} TakenRest(s: State, k: nat)
    requires Enabled(s, EvBodyDone(0, true, k))
    ensures var t := Step(s, EvBodyDone(0, true, k));
            && t.enqueued == s.enqueued && t.stocked == s.stocked && t.maxSize == s.maxSize
            && (BodyInFlight(s) ==> t.inflight == [])
  {
    hide Consumed, Concat, Places, Body, Payloads;
  }

  /** From every state a run reaches in which only the waiting items remain to be written: if every write is taken,
      the response ends, and then the socket has accepted exactly the body and every item is finished. */
  lemma {:induction false} ResponseEnds(events: seq<Event>) returns (more: seq<Event>)
    requires CanFinish(Run(events))
    ensures var s, t := Run(events), Run(events + more);
            && t.Has(BodySent) && !t.valid && t.closePending
            && t.sent == Body(s.enqueued) && t.finished == s.enqueued
    ensures forall i :: 0 <= i < |more| ==> more[i] == EvPerform || (more[i].EvBodyDone? && more[i].ok)
    decreases |Run(events).storage|, Run(events).inflight == []
  {
    hide Run, Step, Enabled, Body, Safe;
    var s := Run(events);
    EveryRunSafe(events);
    if s.inflight == [] {
      PerformOffers(s);
      StepPerform(s);
      more := Then(events, EvPerform);
    } else {
      FlightIsBody(s);
      ItemTaken(s);
      var ev := EvBodyDone(0, true, |Rest(s)|);
      if |s.storage| > 1 {
        more := Then(events, ev);
      } else {
        more := [ev];
        RunStep(events, ev);
        Ended(events + [ev]);
      }
    }
  }

  /** One more event, and then the rest. */
  lemma {:induction false} Then(events: seq<Event>, ev: Event) returns (more: seq<Event>)
    requires CanFinish(Run(events)) && Enabled(Run(events), ev) && (ev == EvPerform || (ev.EvBodyDone? && ev.ok))
    requires var s, t := Run(events), Step(Run(events), ev);
             && CanFinish(t) && t.enqueued == s.enqueued && |t.storage| <= |s.storage|
             && (|t.storage| == |s.storage| ==> s.inflight == [] && t.inflight != [])
    ensures var s, t := Run(events), Run(events + more);
            && t.Has(BodySent) && !t.valid && t.closePending
            && t.sent == Body(s.enqueued) && t.finished == s.enqueued
    ensures forall i :: 0 <= i < |more| ==> more[i] == EvPerform || (more[i].EvBodyDone? && more[i].ok)
    decreases |Run(events).storage|, Run(events).inflight == [], 0
  {
    hide Run, Step, Enabled, Body, CanFinish;
    RunStep(events, ev);
    var rest := ResponseEnds(events + [ev]);
    more := [ev] + rest;
    assert events + more == events + [ev] + rest;
  }

  lemma {:induction false} FlightIsBody(s: State)
    requires Safe(s) && s.Has(HeadersSent) && s.inflight != []
    ensures BodyInFlight(s)
  {
    hide QueueOk, BuffersOk, OrderOk, OfferOk, SizeOk;
  }

  lemma {:induction false} Ended(events: seq<Event>)
    requires var s := Run(events); s.Has(BodySent) && !s.stocked
    ensures var s := Run(events); s.sent == Body(s.enqueued) && s.finished == s.enqueued
  {
    hide Run, Body, WriteOk, BuffersOk, OrderOk, OfferOk, SizeOk;
    LastChunkIsAll(events);
    EveryRunSafe(events);
    CursorEmpty(Run(events));
  }

  // A whole response.

  ghost predicate NoneEmpty(ps: seq<Payload>) {
    forall i :: 0 <= i < |ps| ==> ps[i].bytes != []
  }

  /** The size is announced and the items are appended, in order. */
  function Fill(size: nat, ps: seq<Payload>): seq<Event> {
    if |ps| == 0 then [EvSetBodySize(size)] else Fill(size, ps[..|ps| - 1]) + [EvAppend(ps[|ps| - 1])]
  }

  ghost predicate Filled(s: State, size: nat, ps: seq<Payload>) {
    && s.valid && !s.stocked && s.maxSize == size && s.currentSize == |Body(ps)|
    && s.bits == {BodySizeSet, AllHeadersSet} + (if |ps| > 0 && |Body(ps)| >= size then {BodySet} else {})
    && s.enqueued == ps && s.finished == [] && Payloads(s.storage) == ps
    && s.buffers == [] && s.inflight == [] && !s.sending
    && (s.Has(BodySet) ==> s.storage != [] && s.storage[|s.storage| - 1].isLastChunk)
  }

  lemma {:induction false} FillStep(s: State, size: nat, ps: seq<Payload>, p: Payload)
    requires Filled(s, size, ps) && p.bytes != [] && |Body(ps)| < size
    ensures Filled(Step(s, EvAppend(p)), size, ps + [p])
  {
    hide Body, Payloads;
    AppendDoes(s, p);
    BodyAppend(ps, [p]);
    BodyOne(p);
    AppendKeeps(s, p);
    var t := Step(s, EvAppend(p));
    if t.Has(BodySet) {
      PayloadsSize(t.storage);
    }
  }

  lemma PayloadsSize(items: seq<Item>)
    ensures Payloads(items) != [] ==> items != []
  {
  }

  lemma {:induction false} AppendKeeps(s: State, p: Payload)
    requires s.valid && !s.Has(BodySet)
    ensures var t := Step(s, EvAppend(p));
            && t.valid && t.stocked == s.stocked && t.maxSize == s.maxSize && t.finished == s.finished
            && t.buffers == s.buffers && t.inflight == s.inflight && t.sending == s.sending
            && t.bits == s.bits + (if s.currentSize + |p.bytes| >= s.maxSize then {BodySet} else {})
  {
    hide MarkLast;
  }

  lemma {:induction false} FillRuns(size: nat, ps: seq<Payload>)
    requires NoneEmpty(ps) && |Body(ps)| <= size
    ensures Filled(Run(Fill(size, ps)), size, ps)
    decreases |ps|
  {
    hide Run, Step, Filled, Body;
    if |ps| == 0 {
      FillStart(size);
    } else {
      var before, p := ps[..|ps| - 1], ps[|ps| - 1];
      assert ps == before + [p];
      BodyAppend(before, [p]);
      BodyOne(p);
      FillRuns(size, before);
      FillStep(Run(Fill(size, before)), size, before, p);
      RunStep(Fill(size, before), EvAppend(p));
    }
  }

  lemma {:induction false} FillStart(size: nat)
    ensures Filled(Run(Fill(size, [])), size, [])
  {
    hide Run;
    RunStep([], EvSetBodySize(size));
    assert [] + [EvSetBodySize(size)] == [EvSetBodySize(size)];
    EmptyRun();
  }

  lemma EmptyRun()
    ensures Run([]) == INITIAL
  {
  }

  lemma {:induction false} PayloadsAt(items: seq<Item>, i: nat)
    requires i < |items|
    ensures Payloads(items)[i] == items[i].payload
  {
    if i > 0 {
      PayloadsAt(items[1..], i - 1);
    }
  }

  lemma {:induction false} FilledCanFinish(s: State, ps: seq<Payload>)
    requires Filled(s, |Body(ps)|, ps) && NoneEmpty(ps) && ps != []
    ensures var t := Step(s, EvPerform);
            && Enabled(t, EvHeaderDone(0, true))
            && CanFinish(Step(t, EvHeaderDone(0, true))) && Step(t, EvHeaderDone(0, true)).enqueued == ps
  {
    hide Body, Payloads;
    BodySome(ps);
    forall i | 0 <= i < |s.storage|
      ensures s.storage[i].payload.bytes != []
    {
      PayloadsAt(s.storage, i);
    }
  }

  lemma {:induction false} BodySome(ps: seq<Payload>)
    requires NoneEmpty(ps) && ps != []
    ensures |Body(ps)| > 0
  {
    assert ps[0].bytes != [];
  }

  /** Every body of items that are not empty: after its size is announced, its items are appended and the headers
      are out, a response all of whose writes are taken puts exactly that body on the wire and ends. */
  lemma {:induction false} WholeResponse(ps: seq<Payload>) returns (more: seq<Event>)
    requires NoneEmpty(ps) && ps != []
    ensures var s := Run(Fill(|Body(ps)|, ps) + [EvPerform] + [EvHeaderDone(0, true)] + more);
            s.Has(BodySent) && !s.valid && s.closePending && s.sent == Body(ps) && s.finished == ps
    ensures forall i :: 0 <= i < |more| ==> more[i] == EvPerform || (more[i].EvBodyDone? && more[i].ok)
  {
    hide Run, Step, Enabled, Filled, Body, CanFinish, Fill;
    var fill := Fill(|Body(ps)|, ps);
    FillRuns(|Body(ps)|, ps);
    FilledCanFinish(Run(fill), ps);
    StepPerform(Run(fill));
    RunStep(fill, EvPerform);
    RunStep(fill + [EvPerform], EvHeaderDone(0, true));
    more := ResponseEnds(fill + [EvPerform] + [EvHeaderDone(0, true)]);
  }
}
