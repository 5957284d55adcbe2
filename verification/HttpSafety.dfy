/** What every run of HttpMachine keeps. */
module HttpSafety {
  import opened Bytes
  import opened HttpMachine

  /** At most one write is in flight, sending_ says whether, and body bytes come after all headers. */
  ghost predicate WriteOk(s: State) {
    && |s.inflight| <= 1 && (s.sending <==> |s.inflight| == 1)
    && (!s.Has(HeadersPacked) ==> s.inflight == [] && !s.Has(HeadersSent))
    && (|s.inflight| == 1 && s.inflight[0].HeaderWrite? ==> !s.Has(HeadersSent))
    && (|s.inflight| == 1 && s.inflight[0].BodyWrite? ==> s.Has(HeadersSent))
    && (s.wire != [] || s.buffers != [] ==> s.Has(HeadersSent))
    && (s.Has(BodySent) ==> !s.valid)
  }

  /** Items are finished in the order they were enqueued, each once, and all of them once closed. */
  ghost predicate QueueOk(s: State) {
    && s.finished + Payloads(s.storage) == s.enqueued
    && (s.closed ==> s.storage == [])
    && (s.valid <==> !s.closePending && !s.closed)
  }

  /** The buffers are empty or hold the end of the front item. */
  ghost predicate BuffersOk(s: State) {
    && |s.buffers| <= 1
    && (s.buffers != [] ==> s.storage != [] && Ends(s.storage[0].payload.bytes, s.buffers[0]))
  }

  ghost predicate Ends(whole: seq<byte>, end: seq<byte>) {
    |end| <= |whole| && whole[|whole| - |end|..] == end
  }

  /** The body write in flight. */
  ghost predicate BodyInFlight(s: State) {
    |s.inflight| == 1 && s.inflight[0].BodyWrite?
  }

  ghost predicate InOrder(wire: seq<nat>) {
    wire == Places(0, |wire|)
  }

  /** The socket got body places 0, 1, 2, ... in order up to the cursor. After release at most one more write
      keeps that order; a second one starts again at the place where the first one started. */
  ghost predicate OrderOk(s: State) {
    && (s.valid ==> s.wire == Places(0, Cursor(s)) && s.lateWrites == 0)
    && (!s.valid ==>
          && s.mark <= |s.wire| && s.wire[..s.mark] == Places(0, s.mark)
          && (s.lateWrites == 0 ==> |s.wire| == s.mark)
          && (s.lateWrites == 1 ==> s.mark < |s.wire| && InOrder(s.wire))
          && (s.lateWrites >= 2 ==> exists j :: s.mark < j < |s.wire| && s.wire[j] == s.mark)
          && (s.storage != [] ==> Cursor(s) == s.mark))
  }

  /** A body write offers the bytes of the body that follow the ones already accepted. */
  ghost predicate OfferOk(s: State) {
    BodyInFlight(s) ==>
      var w := s.inflight[0];
      && w.offset == (if s.valid then Cursor(s) else s.mark)
      && w.offset + |w.data| <= |Body(s.enqueued)|
      && Body(s.enqueued)[w.offset..w.offset + |w.data|] == w.data
      && (s.valid ==> s.buffers != [] && w.data == s.buffers[0])
  }

  /** Without stock responses: the pending size is what was not accepted yet, and the last chunk is the last
      item; when it is out, everything enqueued is. */
  ghost predicate SizeOk(s: State) {
    !s.stocked ==>
      && (s.valid ==> s.pendingSize == |Body(s.enqueued)| - Cursor(s))
      && (forall i :: 0 <= i < |s.storage| && s.storage[i].isLastChunk ==> i == |s.storage| - 1 && s.Has(BodySet))
      && (s.Has(BodySent) ==> !s.valid && s.storage == [] && s.inflight == [] && s.wire == Places(0, |Body(s.enqueued)|))
  }

  ghost predicate Safe(s: State) {
    WriteOk(s) && QueueOk(s) && BuffersOk(s) && OrderOk(s) && OfferOk(s) && SizeOk(s)
  }

  // Bodies and places.

  lemma {:induction false} BodyAppend(left: seq<Payload>, right: seq<Payload>)
    ensures Body(left + right) == Body(left) + Body(right)
  {
    if |left| == 0 {
      assert left + right == right;
    } else {
      assert (left + right)[1..] == left[1..] + right;
      BodyAppend(left[1..], right);
    }
  }

  lemma {:induction false} BodyOne(p: Payload)
    ensures Body([p]) == p.bytes
  {
    assert [p][1..] == [];
  }

  lemma {:induction false} PayloadsAppend(items: seq<Item>, item: Item)
    ensures Payloads(items + [item]) == Payloads(items) + [item.payload]
  {
    if |items| == 0 {
      assert (items + [item])[1..] == [];
    } else {
      assert (items + [item])[1..] == items[1..] + [item];
      PayloadsAppend(items[1..], item);
    }
  }

  lemma {:induction false} PayloadsMarked(items: seq<Item>)
    ensures Payloads(MarkLast(items)) == Payloads(items)
  {
    if |items| > 0 {
      var k := |items| - 1;
      assert items == items[..k] + [items[k]];
      PayloadsAppend(items[..k], items[k]);
      assert MarkLast(items) == items[..k] + [items[k].(isLastChunk := true)];
      PayloadsAppend(items[..k], items[k].(isLastChunk := true));
    }
  }

  lemma PlacesJoin(from: nat, n: nat, k: nat)
    ensures Places(from, n) + Places(from + n, k) == Places(from, n + k)
  {
  }

  /** What is left of the front item. */
  ghost function Rest(s: State): seq<byte>
    requires s.storage != []
  {
    if s.buffers == [] then s.storage[0].payload.bytes else s.buffers[0]
  }

  /** The cursor stands in the body just before what is left of the front item. */
  lemma {:induction false} CursorRest(s: State)
    requires QueueOk(s) && BuffersOk(s) && s.storage != []
    ensures Cursor(s) + |Rest(s)| == |Body(s.finished)| + |s.storage[0].payload.bytes|
    ensures Cursor(s) + |Rest(s)| <= |Body(s.enqueued)|
    ensures Body(s.enqueued)[Cursor(s)..Cursor(s) + |Rest(s)|] == Rest(s)
  {
    hide Body;
    var front := s.storage[0].payload;
    var done, tail := Body(s.finished), Body(Payloads(s.storage[1..]));
    BodyAppend(s.finished, Payloads(s.storage));
    BodyAppend([front], Payloads(s.storage[1..]));
    BodyOne(front);
    assert Payloads(s.storage) == [front] + Payloads(s.storage[1..]);
    assert Body(s.enqueued) == done + (front.bytes + tail);
    if s.buffers != [] {
      assert s.buffers == [s.buffers[0]];
      ConcatOne(s.buffers[0]);
    }
    MiddleSlice(done, front.bytes, tail, |front.bytes| - |Rest(s)|);
  }

  lemma MiddleSlice(x: seq<byte>, y: seq<byte>, z: seq<byte>, k: nat)
    requires k <= |y|
    ensures (x + (y + z))[|x| + k..|x| + |y|] == y[k..]
  {
  }

  lemma {:induction false} CursorEmpty(s: State)
    requires QueueOk(s) && s.storage == []
    ensures Cursor(s) == |Body(s.enqueued)| && s.finished == s.enqueued
  {
    assert s.finished + [] == s.finished;
  }
}
