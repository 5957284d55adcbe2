/** Theorems about all runs of an HTTP response. */
module HttpRuns {
  import opened Bytes
  import opened HttpMachine
  import opened HttpSafety

  lemma InitialSafe()
    ensures Safe(INITIAL)
  {
  }

  lemma {:induction false} SetBodySizeSafe(s: State, size: nat)
    requires Safe(s)
    ensures Safe(SetBodySize(s, size))
  {
    hide Body, Payloads, Cursor;
    CursorSame(s, SetBodySize(s, size));
  }

  /** The cursor depends only on what was finished, the front item and the buffers. */
  lemma CursorSame(s: State, t: State)
    requires t.finished == s.finished && t.buffers == s.buffers
    requires s.storage == [] || s.buffers == [] || (t.storage != [] && t.storage[0].payload == s.storage[0].payload)
    requires (s.storage == [] ==> s.buffers == []) && (t.storage == [] ==> t.buffers == [])
    ensures Cursor(t) == Cursor(s)
  {
  }

  lemma {:induction false} ReleaseSafe(s: State)
    requires Safe(s)
    ensures Safe(Release(s))
  {
    hide Body, Payloads, Cursor, Ends;
    var t := Release(s);
    if s.valid {
      CursorSame(s, t);
      assert t.wire[..t.mark] == t.wire;
    }
  }

  /** A new item at the end of the line changes nothing for the items before it. */
  lemma {:induction false} EnqueueKeeps(s: State, p: Payload, last: bool)
    requires Safe(s) && s.valid
    ensures var t := Enqueue(s, p, last);
            && QueueOk(t) && BuffersOk(t) && OrderOk(t) && OfferOk(t) && Cursor(t) == Cursor(s)
            && |Body(t.enqueued)| == |Body(s.enqueued)| + |p.bytes|
  {
    hide Body, Payloads, Cursor, Ends;
    var t := Enqueue(s, p, last);
    PayloadsAppend(s.storage, Item(p, last));
    assert s.finished + (Payloads(s.storage) + [p]) == s.enqueued + [p];
    BodyAppend(s.enqueued, [p]);
    BodyOne(p);
    CursorSame(s, t);
    if BodyInFlight(s) {
      var w := s.inflight[0];
      assert (Body(s.enqueued) + p.bytes)[w.offset..w.offset + |w.data|] ==
             Body(s.enqueued)[w.offset..w.offset + |w.data|];
    }
  }

  lemma {:induction false} MarkLastKeeps(s: State)
    requires QueueOk(s) && BuffersOk(s) && OrderOk(s) && OfferOk(s)
    ensures var t := s.(storage := MarkLast(s.storage), bits := s.bits + {BodySet});
            && QueueOk(t) && BuffersOk(t) && OrderOk(t) && OfferOk(t) && Cursor(t) == Cursor(s)
  {
    hide Body, Payloads, Cursor, Ends;
    var t := s.(storage := MarkLast(s.storage), bits := s.bits + {BodySet});
    PayloadsMarked(s.storage);
    CursorSame(s, t);
  }

  lemma {:induction false} AppendSafe(s: State, p: Payload)
    requires Safe(s)
    ensures Safe(Append(s, p))
  {
    hide Safe, Grow, CompleteBody;
    if s.valid && !s.Has(BodySet) {
      GrowSafe(s, p);
      CompleteSafe(Grow(s, p));
    }
  }

  lemma {:induction false} GrowSafe(s: State, p: Payload)
    requires Safe(s) && s.valid && !s.Has(BodySet)
    ensures Safe(Grow(s, p)) && Grow(s, p).valid
  {
    hide Body, Payloads, Cursor, QueueOk, BuffersOk, OrderOk, OfferOk;
    if |p.bytes| > 0 {
      EnqueueKeeps(s, p, false);
      SizesOnly(Enqueue(s, p, false), Grow(s, p));
    }
  }

  lemma {:induction false} CompleteSafe(s: State)
    requires Safe(s) && s.valid
    ensures Safe(CompleteBody(s))
  {
    hide Body, Payloads, Cursor, QueueOk, BuffersOk, OrderOk, OfferOk;
    MarkLastKeeps(s);
  }

  /** Counters are not part of the order. */
  lemma SizesOnly(s: State, t: State)
    requires QueueOk(s) && BuffersOk(s) && OrderOk(s) && OfferOk(s)
    requires t == s.(currentSize := t.currentSize, pendingSize := t.pendingSize, maxSize := t.maxSize,
                     bits := t.bits, stocked := t.stocked)
    ensures QueueOk(t) && BuffersOk(t) && OrderOk(t) && OfferOk(t) && Cursor(t) == Cursor(s)
  {
  }

  lemma {:induction false} StockSafe(s: State, content: seq<byte>)
    requires Safe(s)
    ensures Safe(Stock(s, content))
  {
    hide Body, Payloads, Cursor, QueueOk, BuffersOk, OrderOk, OfferOk;
    if s.valid {
      EnqueueKeeps(s, Payload(content, false), true);
      SizesOnly(Enqueue(s, Payload(content, false), true), Stock(s, content));
    }
  }

  lemma {:induction false} PerformSafe(s: State)
    requires Safe(s)
    ensures Safe(Perform(s))
  {
    hide Body, Payloads, Cursor, Ends, StartBodyWrite, Release;
    if s.Has(AllHeadersSet) && !s.Has(BodySent) {
      if !s.Has(HeadersPacked) {
        CursorSame(s, Perform(s));
      } else if s.Has(HeadersSent) {
        if s.maxSize == 0 {
          ReleaseSafe(s);
        } else if s.storage != [] && s.Has(BodySizeSet) && !s.sending {
          StartSafe(s);
        }
      }
    }
  }

  lemma {:induction false} StartSafe(s: State)
    requires Safe(s) && s.storage != [] && s.Has(HeadersPacked) && s.Has(HeadersSent) && !s.Has(BodySent) && !s.sending
    ensures Safe(StartBodyWrite(s))
  {
    hide Body, Payloads, Cursor;
    var t := StartBodyWrite(s);
    CursorRest(s);
    ConcatOne(Rest(s));
    assert t.buffers == [Rest(s)];
    StartCursor(s, t);
  }

  lemma {:induction false} StartCursor(s: State, t: State)
    requires BuffersOk(s) && s.storage != [] && t.storage == s.storage && t.finished == s.finished
    requires t.buffers == [Rest(s)]
    ensures Cursor(t) == Cursor(s) && Concat(t.buffers) == Rest(s)
  {
    ConcatOne(Rest(s));
    if s.buffers != [] {
      assert s.buffers == [s.buffers[0]];
    }
  }

  // Aborting and closing.

  lemma {:induction false} AbortedQueue(s: State)
    requires QueueOk(s)
    ensures var t := AbortPending(s);
            t.finished == s.enqueued && t.storage == [] && t.buffers == [] && QueueOk(t)
  {
    assert s.enqueued + [] == s.enqueued;
  }

  /** A failed write: everything pending is finished, and the connection goes away. */
  lemma {:induction false} AbortReleaseSafe(s: State)
    requires s.valid && s.inflight == [] && !s.sending && QueueOk(s) && InOrder(s.wire) && s.lateWrites == 0
    requires !s.Has(BodySent) && (s.Has(HeadersSent) ==> s.Has(HeadersPacked)) && (s.wire != [] ==> s.Has(HeadersSent))
    ensures Safe(Release(AbortPending(s)))
  {
    hide Body, Payloads;
    AbortedQueue(s);
    var t := Release(AbortPending(s));
    assert t.wire[..t.mark] == t.wire;
  }

  lemma {:induction false} CloseSafe(s: State)
    requires Safe(s) && s.closePending
    ensures Safe(CloseTask(s))
  {
    hide Body, Payloads, Cursor;
    var u := s.(closePending := false, closed := true);
    assert u.finished + Payloads(u.storage) == u.enqueued;
    assert s.enqueued + [] == s.enqueued;
    PayloadsNone();
  }

  lemma PayloadsNone()
    ensures Payloads([]) == []
  {
  }

  lemma {:induction false} HeaderDoneSafe(s: State, i: nat, ok: bool)
    requires Safe(s) && i < |s.inflight| && s.inflight[i].HeaderWrite?
    ensures Safe(HeaderDone(s, i, ok))
  {
    hide Body, Payloads, Cursor;
    var t := s.(inflight := Without(s.inflight, i), sending := false);
    assert t.inflight == [];
    CursorSame(s, t);
    if t.valid && !ok {
      AbortReleaseSafe(t);
    } else if t.valid {
      CursorSame(s, t.(bits := t.bits + {HeadersSent}));
    }
  }

  // Body write completions.

  /** A completion after release adds its bytes at the mark, and nothing else happens. */
  lemma {:induction false} LateSafe(s: State, k: nat)
    requires Safe(s) && !s.valid && BodyInFlight(s) && k <= |s.inflight[0].data|
    ensures Safe(Accept(s, 0, k))
  {
    hide Body, Payloads, Cursor;
    var t := Accept(s, 0, k);
    assert t.inflight == [];
    CursorSame(s, t);
    LateOrder(s, k);
  }

  lemma {:induction false} LateOrder(s: State, k: nat)
    requires Safe(s) && !s.valid && BodyInFlight(s) && k <= |s.inflight[0].data|
    ensures OrderOk(Accept(s, 0, k))
  {
    hide Body, Payloads, Cursor;
    var t := Accept(s, 0, k);
    CursorSame(s, t);
    assert t.wire[..t.mark] == s.wire[..s.mark];
    if k == 0 {
      assert t.wire == s.wire;
    } else if s.lateWrites == 0 {
      PlacesJoin(0, s.mark, k);
      assert s.wire == s.wire[..s.mark];
    } else {
      if s.lateWrites >= 2 {
        var j :| s.mark < j < |s.wire| && s.wire[j] == s.mark;
        assert t.wire[j] == s.mark;
      } else {
        assert t.wire[|s.wire|] == s.mark;
      }
    }
  }

  /** The two outcomes of a consume on the one buffer. */
  lemma {:induction false} ConsumeOne(rest: seq<byte>, k: nat)
    requires k <= |rest|
    ensures Consumed([rest], k) == if k == 0 || k < |rest| then [rest[k..]] else []
  {
    assert [rest][1..] == [] && rest[0..] == rest;
  }

  lemma {:induction false} PartCursor(s: State, k: nat)
    requires QueueOk(s) && BuffersOk(s) && s.storage != [] && s.buffers != [] && k <= |s.buffers[0]|
    requires Consumed(s.buffers, k) != []
    ensures Cursor(PartWritten(s, k)) == Cursor(s) + k && BuffersOk(PartWritten(s, k))
  {
    hide Body;
    var rest := s.buffers[0];
    assert s.buffers == [rest];
    ConsumeOne(rest, k);
    ConcatOne(rest);
    ConcatOne(rest[k..]);
  }

  lemma {:induction false} ItemCursor(s: State, k: nat)
    requires QueueOk(s) && BuffersOk(s) && s.storage != [] && s.buffers != [] && k <= |s.buffers[0]|
    requires Consumed(s.buffers, k) == []
    ensures Cursor(ItemWritten(s, k)) == Cursor(s) + k
    ensures s.finished + [s.storage[0].payload] + Payloads(s.storage[1..]) == s.enqueued
  {
    hide Body;
    var rest := s.buffers[0];
    var front := s.storage[0].payload;
    assert s.buffers == [rest];
    ConsumeOne(rest, k);
    CursorRest(s);
    assert Payloads(s.storage) == [front] + Payloads(s.storage[1..]);
    assert s.finished + [front] + Payloads(s.storage[1..]) == s.finished + Payloads(s.storage);
    BodyAppend(s.finished, [front]);
    BodyOne(front);
  }

  lemma {:induction false} BodyDoneSafe(s: State, i: nat, ok: bool, k: nat)
    requires Safe(s) && i < |s.inflight| && s.inflight[i].BodyWrite? && k <= |s.inflight[i].data|
    ensures Safe(BodyDone(s, i, ok, k))
  {
    hide Safe, Accept, Advance, AbortPending, Release;
    OneInFlight(s, i);
    if !s.valid {
      LateSafe(s, k);
      AcceptValid(s, k);
    } else {
      AcceptValid(s, k);
      AcceptOrder(s, k);
      if !ok {
        AbortReleaseSafe(Accept(s, 0, k));
      } else {
        AdvanceSafe(s, k);
      }
    }
  }

  lemma OneInFlight(s: State, i: nat)
    requires Safe(s) && i < |s.inflight|
    ensures i == 0 && |s.inflight| == 1
  {
  }

  lemma OneAtMost(s: State)
    requires Safe(s)
    ensures |s.inflight| <= 1
  {
  }

  lemma AcceptValid(s: State, k: nat)
    requires BodyInFlight(s) && k <= |s.inflight[0].data|
    ensures Accept(s, 0, k).valid == s.valid
  {
  }

  lemma {:induction false} AcceptOrder(s: State, k: nat)
    requires Safe(s) && s.valid && BodyInFlight(s) && k <= |s.inflight[0].data|
    ensures var t := Accept(s, 0, k);
            && t.wire == Places(0, Cursor(s) + k) && InOrder(t.wire) && t.inflight == [] && !t.sending
            && QueueOk(t) && t.lateWrites == 0 && t.Has(HeadersPacked) && t.Has(HeadersSent) && !t.Has(BodySent)
  {
    hide Body, Payloads, Cursor;
    PlacesJoin(0, Cursor(s), k);
  }

  /** The pump after a successful body write: either part of the front item is left, or it is finished. */
  lemma {:induction false} AdvanceSafe(s: State, k: nat)
    requires Safe(s) && s.valid && BodyInFlight(s) && k <= |s.inflight[0].data|
    ensures Safe(Advance(Accept(s, 0, k), k))
  {
    hide Safe, Accept, PartWritten, ItemWritten;
    var t := Accept(s, 0, k);
    AcceptReady(s, k);
    if Consumed(t.buffers, k) != [] {
      PartSafe(t, k);
    } else if t.storage[0].isLastChunk {
      LastSafe(t, k);
    } else {
      ItemSafe(t, k);
    }
  }

  /** Between the socket taking k bytes and the handler accounting for them. */
  ghost predicate Accepting(t: State, k: nat) {
    && t.valid && t.inflight == [] && !t.sending && t.Has(HeadersPacked) && t.Has(HeadersSent) && !t.Has(BodySent)
    && QueueOk(t) && BuffersOk(t) && t.storage != [] && t.buffers != [] && k <= |t.buffers[0]|
    && t.lateWrites == 0 && t.wire == Places(0, Cursor(t) + k)
    && SizeOk(t)
  }

  lemma {:induction false} AcceptReady(s: State, k: nat)
    requires Safe(s) && s.valid && BodyInFlight(s) && k <= |s.inflight[0].data|
    ensures Accepting(Accept(s, 0, k), k)
  {
    hide Body, Payloads, Cursor, Ends, Places;
    AcceptOrder(s, k);
    CursorSame(s, Accept(s, 0, k));
  }

  lemma {:induction false} PartSafe(t: State, k: nat)
    requires Accepting(t, k) && Consumed(t.buffers, k) != []
    ensures Safe(PartWritten(t, k))
  {
    hide Body, Payloads, Cursor, Consumed, Ends, Places;
    PartCursor(t, k);
  }

  lemma {:induction false} ItemSafe(t: State, k: nat)
    requires Accepting(t, k) && Consumed(t.buffers, k) == [] && !t.storage[0].isLastChunk
    ensures Safe(ItemWritten(t, k))
  {
    hide Body, Payloads, Cursor, Consumed, Ends, Places;
    ItemCursor(t, k);
  }

  lemma {:induction false} LastSafe(t: State, k: nat)
    requires Accepting(t, k) && Consumed(t.buffers, k) == [] && t.storage[0].isLastChunk
    ensures Safe(Release(Finished(ItemWritten(t, k))))
  {
    hide Body, Payloads, Cursor, Consumed, Ends;
    ItemCursor(t, k);
    var u := Release(Finished(ItemWritten(t, k)));
    CursorSame(ItemWritten(t, k), u);
    assert u.wire[..|u.wire|] == u.wire;
    if !t.stocked {
      assert |t.storage| == 1;
      CursorEmpty(u);
    }
  }

  lemma {:induction false} StepSafe(s: State, ev: Event)
    requires Safe(s) && Enabled(s, ev)
    ensures Safe(Step(s, ev))
  {
    hide Safe, SetBodySize, Append, Stock, Perform, HeaderDone, BodyDone, Release, CloseTask;
    match ev
    case EvSetBodySize(size) => SetBodySizeSafe(s, size);
    case EvAppend(p) => AppendSafe(s, p);
    case EvStock(content) => StockSafe(s, content);
    case EvPerform => PerformSafe(s);
    case EvHeaderDone(i, ok) => HeaderDoneSafe(s, i, ok);
    case EvBodyDone(i, ok, k) => BodyDoneSafe(s, i, ok, k);
    case EvRelease => ReleaseSafe(s);
    case EvClose => CloseSafe(s);
  }

  /** Every run is safe. */
  lemma {:induction false} EveryRunSafe(events: seq<Event>)
    ensures Safe(Run(events))
  {
    hide Safe, Step;
    if |events| == 0 {
      InitialSafe();
    } else {
      var before := events[..|events| - 1];
      EveryRunSafe(before);
      if Enabled(Run(before), events[|events| - 1]) {
        StepSafe(Run(before), events[|events| - 1]);
      }
    }
  }

  /** Finish callbacks run in the order the items were enqueued, at most once each, and after the close task
      every item enqueued has had its turn. */
  lemma {:induction false} CallbacksOnce(events: seq<Event>)
    ensures var s := Run(events);
            s.finished <= s.enqueued && (s.closed ==> s.finished == s.enqueued)
  {
    hide Run, WriteOk, BuffersOk, OrderOk, OfferOk, SizeOk;
    EveryRunSafe(events);
    var s := Run(events);
    if s.closed {
      PayloadsNone();
      assert s.finished + [] == s.finished;
    }
  }
}
