/**
 The HTTP response as an object whose handlers update its fields, proved to take the steps of HttpMachine. The
 status is a bit mask, and write buffers are slices of the front item.
 */
module HttpResponse {
  import opened Bytes
  import opened Slices
  import opened HttpMachine
  import opened HttpSafety
  import opened HttpRuns
  import opened HttpOrder

  // The status mask.

  const ALL_HEADERS_SET: bv32 := 1
  const BODY_SIZE_SET: bv32 := 2
  const BODY_SET: bv32 := 4
  const FINISH_SET: bv32 := ALL_HEADERS_SET | BODY_SIZE_SET | BODY_SET
  const HEADERS_PACKED: bv32 := 8
  const HEADERS_SENT: bv32 := 16
  const BODY_SENT: bv32 := 32

  function MaskOf(b: StatusBit): bv32 {
    match b
    case AllHeadersSet => ALL_HEADERS_SET
    case BodySizeSet => BODY_SIZE_SET
    case BodySet => BODY_SET
    case HeadersPacked => HEADERS_PACKED
    case HeadersSent => HEADERS_SENT
    case BodySent => BODY_SENT
  }

  predicate Marked(status: bv32, b: StatusBit) {
    Common(status, MaskOf(b))
  }

  function BitsOf(status: bv32): set<StatusBit> {
    set b: StatusBit | Marked(status, b)
  }

  lemma OrOther(x: bv32, m: bv32, n: bv32)
    requires m & n == 0
    ensures (x | m) & n == x & n
  {
  }

  lemma OrOwn(x: bv32, m: bv32)
    ensures (x | m) & m == m
  {
  }

  predicate Common(x: bv32, n: bv32) {
    x & n != 0
  }

  lemma {:induction false} OrCommon(x: bv32, m: bv32, n: bv32)
    requires m != 0 && (m == n || m & n == 0)
    ensures Common(x | m, n) <==> Common(x, n) || m == n
  {
    if m == n {
      OrOwn(x, m);
    } else {
      OrOther(x, m, n);
    }
  }

  lemma MasksApart(b: StatusBit, c: StatusBit)
    ensures MaskOf(b) != 0 && (MaskOf(b) == MaskOf(c) || MaskOf(b) & MaskOf(c) == 0)
    ensures MaskOf(b) == MaskOf(c) <==> b == c
  {
  }

  lemma {:induction false} MarkOne(status: bv32, b: StatusBit, c: StatusBit)
    ensures Marked(status | MaskOf(b), c) <==> Marked(status, c) || c == b
  {
    hide MaskOf, Common;
    MasksApart(b, c);
    OrCommon(status, MaskOf(b), MaskOf(c));
  }

  /** Or-ing a mask in adds its bit and no other. */
  lemma {:induction false} BitsAdded(status: bv32, b: StatusBit)
    ensures BitsOf(status | MaskOf(b)) == BitsOf(status) + {b}
  {
    hide Marked, MaskOf;
    forall c ensures c in BitsOf(status | MaskOf(b)) <==> c in BitsOf(status) + {b} {
      MarkOne(status, b, c);
    }
  }

  lemma NoBits()
    ensures BitsOf(0) == {}
  {
  }

  lemma {:induction false} FinishBits(status: bv32)
    ensures BitsOf(status | FINISH_SET) == BitsOf(status) + {AllHeadersSet, BodySizeSet, BodySet}
  {
    hide BitsOf;
    var one := status | MaskOf(AllHeadersSet);
    var two := one | MaskOf(BodySizeSet);
    BitsAdded(status, AllHeadersSet);
    BitsAdded(one, BodySizeSet);
    BitsAdded(two, BodySet);
    assert two | MaskOf(BodySet) == status | FINISH_SET;
  }

  lemma BitsAre(status: bv32)
    ensures forall b :: b in BitsOf(status) <==> Marked(status, b)
  {
  }

  function FrontBytes(items: seq<Item>): seq<byte> {
    if |items| == 0 then [] else items[0].payload.bytes
  }

  class Response {
    var hasReleased: bool
    var packStatus: bv32
    var dataStorage: seq<Item>
    var writeBuffers: seq<Slice>
    var sending: bool
    var dataPendingSize: int
    var currentBodySize: nat
    var maxBodySize: nat
    // The environment and history.
    ghost var closePending: bool
    ghost var closed: bool
    ghost var inflight: seq<Write>
    ghost var enqueued: seq<Payload>
    ghost var finished: seq<Payload>
    ghost var wire: seq<nat>
    ghost var sent: seq<byte>
    ghost var stocked: bool
    ghost var mark: nat
    ghost var lateWrites: nat

    /** Buffers point into the item at the front. */
    ghost predicate Valid()
      reads this
    {
      (|writeBuffers| > 0 ==> |dataStorage| > 0) && AllWithin(writeBuffers, FrontBytes(dataStorage))
    }

    ghost function View(): State
      reads this
    {
      State(!hasReleased, BitsOf(packStatus), dataStorage, Cuts(FrontBytes(dataStorage), writeBuffers), sending,
            dataPendingSize, currentBodySize, maxBodySize,
            closePending, closed, inflight, enqueued, finished, wire, sent, stocked, mark, lateWrites)
    }

    constructor ()
      ensures Valid() && View() == INITIAL
    {
      hasReleased, packStatus := false, 0;
      dataStorage, writeBuffers, sending := [], [], false;
      dataPendingSize, currentBodySize, maxBodySize := 0, 0, 0;
      closePending, closed, inflight, enqueued, finished := false, false, [], [], [];
      wire, sent, stocked, mark, lateWrites := [], [], false, 0, 0;
      new;
      hide Marked;
      NoBits();
    }

    method Mark(b: StatusBit)
      modifies this`packStatus
      ensures BitsOf(packStatus) == BitsOf(old(packStatus)) + {b}
    {
      hide BitsOf;
      BitsAdded(packStatus, b);
      packStatus := packStatus | MaskOf(b);
    }

    method IsMarked(b: StatusBit) returns (marked: bool)
      ensures marked <==> View().Has(b)
    {
      hide MaskOf, Common;
      marked := Marked(packStatus, b);
    }

    /** release_obj of the connection: idempotent, posts the close task once. */
    method ReleaseObj()
      modifies this`hasReleased, this`closePending, this`mark
      ensures View() == Release(old(View()))
    {
      hide BitsOf, Cuts;
      if hasReleased {
        return;
      }
      hasReleased := true;
      closePending := true;
      mark := |wire|;
    }

    /** Runs the callback of every item that is still there, front first, and only then drops the buffers. */
    method AbortAll()
      modifies this`dataStorage, this`writeBuffers, this`finished
      ensures Valid() && View() == AbortPending(old(View()))
    {
      hide BitsOf, Marked;
      while |dataStorage| > 0
        invariant finished + Payloads(dataStorage) == old(finished + Payloads(dataStorage))
        decreases |dataStorage|
      {
        PayloadsFront(dataStorage);
        finished := finished + [dataStorage[0].payload];
        dataStorage := dataStorage[1..];
      }
      PayloadsNone();
      assert finished + [] == finished;
      writeBuffers := [];
    }

    method Close()
      requires closePending
      modifies this
      ensures Valid() && View() == CloseTask(old(View()))
    {
      hide FrontBytes, BitsOf, Cuts, AbortPending;
      closePending, closed := false, true;
      AbortAll();
    }

    method SetBodySizeTask(size: nat)
      requires Valid()
      modifies this
      ensures Valid() && View() == SetBodySize(old(View()), size)
    {
      hide FrontBytes, BitsOf, Cuts, AllWithin;
      var set_ := IsMarked(BodySet);
      if hasReleased || set_ {
        return;
      }
      maxBodySize := size;
      Mark(BodySizeSet);
      Mark(AllHeadersSet);
      assert View().bits == old(View()).bits + {BodySizeSet, AllHeadersSet};
    }

    /** Puts an item at the end of the line. */
    method PushItem(p: Payload, last: bool)
      requires Valid()
      modifies this`dataStorage, this`enqueued
      ensures Valid() && View() == Enqueue(old(View()), p, last)
    {
      hide BitsOf;
      if |dataStorage| == 0 { NoCuts(p.bytes); }
      dataStorage := dataStorage + [Item(p, last)];
      enqueued := enqueued + [p];
    }

    method AppendTask(p: Payload)
      requires Valid()
      modifies this
      ensures Valid() && View() == Append(old(View()), p)
    {
      hide BitsOf, Cuts, AllWithin, CompleteBody, Enqueue;
      var set_ := IsMarked(BodySet);
      if hasReleased || set_ {
        return;
      }
      if |p.bytes| > 0 {
        PushItem(p, false);
        Count(|p.bytes|);
      }
      CompleteTask();
    }

    method Count(size: nat)
      requires Valid()
      modifies this`currentBodySize, this`dataPendingSize
      ensures Valid()
      ensures View() == old(View()).(currentSize := old(currentBodySize) + size, pendingSize := old(dataPendingSize) + size)
    {
      hide FrontBytes, BitsOf, Cuts, AllWithin;
      currentBodySize := currentBodySize + size;
      dataPendingSize := dataPendingSize + size;
    }

    /** The end of every append: the body is set once its announced size is reached. */
    method CompleteTask()
      requires Valid()
      modifies this`packStatus, this`dataStorage
      ensures Valid() && View() == CompleteBody(old(View()))
    {
      hide BitsOf, Cuts, AllWithin;
      if currentBodySize >= maxBodySize {
        Mark(BodySet);
        if |dataStorage| > 0 {
          var k := |dataStorage| - 1;
          dataStorage := dataStorage[k := dataStorage[k].(isLastChunk := true)];
        }
      }
    }

    method StockTask(content: seq<byte>)
      requires Valid()
      modifies this
      ensures Valid() && View() == Stock(old(View()), content)
    {
      hide BitsOf, Cuts, AllWithin, StockSizes, Enqueue;
      if hasReleased {
        return;
      }
      PushItem(Payload(content, false), true);
      SetStockSizes(|content|);
    }

    method SetStockSizes(size: nat)
      requires Valid()
      modifies this
      ensures Valid() && View() == StockSizes(old(View()), size)
    {
      hide FrontBytes, BitsOf, Cuts, AllWithin;
      currentBodySize, dataPendingSize, maxBodySize := size, size, size;
      FinishBits(packStatus);
      packStatus := packStatus | FINISH_SET;
      stocked := true;
    }

    method PerformTask()
      requires Valid()
      modifies this
      ensures Valid() && View() == Perform(old(View()))
    {
      hide FrontBytes, BitsOf, Marked, Cuts, AllWithin, Cursor, Concat, StartBodyWrite, Release;
      BitsAre(packStatus);
      if !Marked(packStatus, AllHeadersSet) || Marked(packStatus, BodySent) {
        return;
      }
      if !Marked(packStatus, HeadersPacked) {
        Mark(HeadersPacked);
        sending := true;
        inflight := inflight + [HeaderWrite];
        return;
      }
      if !Marked(packStatus, HeadersSent) {
        return;
      }
      if maxBodySize == 0 {
        ReleaseObj();
        return;
      }
      if |dataStorage| == 0 || !Marked(packStatus, BodySizeSet) || sending {
        return;
      }
      OfferFront();
    }

    /** Hands what is left of the front item to the socket. */
    method OfferFront()
      requires Valid() && |dataStorage| > 0
      modifies this`sending, this`writeBuffers, this`inflight
      ensures Valid() && View() == StartBodyWrite(old(View()))
    {
      hide BitsOf, Cuts, AllWithin, Cursor, Concat;
      ghost var offset := Cursor(View());
      var front := dataStorage[0].payload.bytes;
      sending := true;
      if |writeBuffers| == 0 {
        WholeCut(front);
        NoCuts(front);
        writeBuffers := [Slice(0, |front|)];
      }
      inflight := inflight + [BodyWrite(offset, Concat(Cuts(front, writeBuffers)))];
    }

    method HeaderCompletion(ghost i: nat, ok: bool)
      requires Valid() && i < |inflight| && inflight[i].HeaderWrite?
      modifies this
      ensures Valid() && View() == HeaderDone(old(View()), i, ok)
    {
      hide FrontBytes, BitsOf, Cuts, AllWithin, AbortPending, Release;
      inflight := Without(inflight, i);
      sending := false;
      if hasReleased {
        return;
      }
      if !ok {
        AbortAll();
        ReleaseObj();
        return;
      }
      Mark(HeadersSent);
    }

    method BodyCompletion(ghost i: nat, ok: bool, length: nat)
      requires Valid() && i < |inflight| && inflight[i].BodyWrite? && length <= |inflight[i].data|
      modifies this
      ensures Valid() && View() == BodyDone(old(View()), i, ok, length)
    {
      hide FrontBytes, BitsOf, Cuts, AllWithin, AbortPending, Release, Advance, Accept;
      FreeWrite(i, length);
      AcceptKeeps(old(View()), i, length);
      if hasReleased {
        return;
      }
      if !ok {
        AbortAll();
        ReleaseObj();
        return;
      }
      OnWritten(length);
    }

    /** The write is over; the record of what the socket took grows. */
    method FreeWrite(ghost i: nat, length: nat)
      requires Valid() && i < |inflight| && inflight[i].BodyWrite? && length <= |inflight[i].data|
      modifies this
      ensures Valid() && View() == Accept(old(View()), i, length)
    {
      hide BitsOf, Cuts, AllWithin, Places, FrontBytes;
      RecordTaken(inflight[i], length);
      inflight, sending := Without(inflight, i), false;
    }

    ghost method RecordTaken(w: Write, k: nat)
      requires Valid() && w.BodyWrite? && k <= |w.data|
      modifies this`wire, this`sent, this`lateWrites
      ensures Valid()
      ensures View() == old(View()).(wire := old(wire) + Places(w.offset, k), sent := old(sent) + w.data[..k],
                                     lateWrites := if !hasReleased || k == 0 then old(lateWrites) else old(lateWrites) + 1)
    {
      hide BitsOf, Cuts, AllWithin, Places, FrontBytes;
      wire, sent := wire + Places(w.offset, k), sent + w.data[..k];
      lateWrites := if !hasReleased || k == 0 then lateWrites else lateWrites + 1;
    }

    method OnWritten(length: nat)
      requires Valid()
      modifies this
      ensures Valid() && View() == Advance(old(View()), length)
    {
      hide BitsOf, Cuts, AllWithin, Consumed, Release, PartWritten, ItemWritten;
      var rest := ConsumeSlices(FrontBytes(dataStorage), writeBuffers, length);
      if |rest| > 0 || |dataStorage| == 0 {
        NoneLeft(FrontBytes(dataStorage), length);
        KeepPart(length, rest);
        return;
      }
      var last := dataStorage[0].isLastChunk;
      FinishFront(length);
      if last {
        Mark(BodySent);
        assert View() == Finished(ItemWritten(old(View()), length));
        ReleaseObj();
      }
    }

    method KeepPart(length: nat, rest: seq<Slice>)
      requires AllWithin(rest, FrontBytes(dataStorage)) && (|rest| > 0 ==> |dataStorage| > 0)
      requires Cuts(FrontBytes(dataStorage), rest) == Consumed(View().buffers, length)
      modifies this`dataPendingSize, this`writeBuffers
      ensures Valid() && View() == PartWritten(old(View()), length)
    {
      hide BitsOf, Cuts, AllWithin, Consumed;
      dataPendingSize := dataPendingSize - length;
      writeBuffers := rest;
    }

    /** The front item is out: its callback runs and it is dropped. */
    method FinishFront(length: nat)
      requires |dataStorage| > 0
      modifies this`dataPendingSize, this`writeBuffers, this`dataStorage, this`finished
      ensures Valid() && View() == ItemWritten(old(View()), length)
    {
      hide BitsOf, Cuts, AllWithin;
      dataPendingSize := dataPendingSize - length;
      writeBuffers := [];
      finished := finished + [dataStorage[0].payload];
      dataStorage := dataStorage[1..];
      NoCuts(FrontBytes(dataStorage));
    }

    /** Runs the handler that belongs to an event. */
    method Handle(ev: Event)
      requires Valid() && Enabled(View(), ev)
      modifies this
      ensures Valid() && View() == Step(old(View()), ev)
    {
      hide BitsOf, Cuts, AllWithin, SetBodySize, Append, Stock, Perform, HeaderDone, BodyDone, Release, CloseTask;
      match ev
      case EvSetBodySize(size) => SetBodySizeTask(size);
      case EvAppend(p) => AppendTask(p);
      case EvStock(content) => StockTask(content);
      case EvPerform => PerformTask();
      case EvHeaderDone(i, ok) => HeaderCompletion(i, ok);
      case EvBodyDone(i, ok, k) => BodyCompletion(i, ok, k);
      case EvRelease => ReleaseObj();
      case EvClose => Close();
    }
  }

  lemma AcceptKeeps(s: State, i: nat, k: nat)
    requires i < |s.inflight| && s.inflight[i].BodyWrite? && k <= |s.inflight[i].data|
    ensures Accept(s, i, k).valid == s.valid
  {
  }

  lemma PayloadsFront(items: seq<Item>)
    requires |items| > 0
    ensures Payloads(items) == [items[0].payload] + Payloads(items[1..])
  {
  }

  /** A response driven by any sequence of events is safe, and what it sent are bytes of its body. */
  method DriveResponse(events: seq<Event>) returns (response: Response)
    requires forall i :: 0 <= i < |events| ==> Enabled(Run(events[..i]), events[i])
    ensures response.View() == Run(events) && Safe(response.View()) && SentOk(response.View())
  {
    hide Step, Enabled, Safe, SentOk, INITIAL;
    response := new Response();
    var i := 0;
    while i < |events|
      invariant 0 <= i <= |events| && fresh(response) && response.Valid()
      invariant response.View() == Run(events[..i])
    {
      assert events[..i + 1][..i] == events[..i];
      response.Handle(events[i]);
      i := i + 1;
    }
    assert events[..i] == events;
    EveryRunSafe(events);
    EveryRunSent(events);
  }
}
