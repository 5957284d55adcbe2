/**
 An HTTP response as a step machine: body items, status bits, the single write in flight and the finish
 callbacks. Each posted task and each completion handler is one step.
 */
module HttpMachine {
  import opened Bytes

  /** A body item as it was appended. */
  datatype Payload = Payload(bytes: seq<byte>, hasCallback: bool)

  datatype Item = Item(payload: Payload, isLastChunk: bool)

  datatype StatusBit = AllHeadersSet | BodySizeSet | BodySet | HeadersPacked | HeadersSent | BodySent

  /** A write in the hands of the socket: all headers, or body bytes from a place in the body. */
  datatype Write = HeaderWrite | BodyWrite(offset: nat, data: seq<byte>)

  datatype State = State(
    valid: bool, bits: set<StatusBit>,
    storage: seq<Item>, buffers: seq<seq<byte>>,
    sending: bool, pendingSize: int, currentSize: nat, maxSize: nat,
    // what the environment holds, and history
    closePending: bool, closed: bool,
    inflight: seq<Write>,
    enqueued: seq<Payload>,      // items ever enqueued
    finished: seq<Payload>,      // items popped, whose callback, if any, ran at that moment
    wire: seq<nat>,              // place in the body of every body byte the socket accepted
    sent: seq<byte>,             // the body bytes the socket accepted
    stocked: bool,               // stock_response was used
    mark: nat, lateWrites: nat)  // bytes accepted by release; body writes that took bytes after it
  {
    predicate Has(bit: StatusBit) {
      bit in bits
    }
  }

  const INITIAL: State :=
    State(true, {}, [], [], false, 0, 0, 0,
          false, false, [], [], [], [], [], false, 0, 0)

  function Payloads(items: seq<Item>): (r: seq<Payload>)
    ensures |r| == |items|
  {
    if |items| == 0 then [] else [items[0].payload] + Payloads(items[1..])
  }

  /** The body: all items in the order they were appended. */
  function Body(payloads: seq<Payload>): seq<byte> {
    if |payloads| == 0 then [] else payloads[0].bytes + Body(payloads[1..])
  }

  function Places(from: nat, count: nat): (r: seq<nat>)
    ensures |r| == count
  {
    seq(count, i requires 0 <= i < count => from + i)
  }

  /** Place in the body where the next body write starts. */
  function Cursor(s: State): nat {
    if s.storage == [] || s.buffers == [] then |Body(s.finished)| else
      var front := |s.storage[0].payload.bytes|;
      var rest := |Concat(s.buffers)|;
      |Body(s.finished)| + (if rest <= front then front - rest else 0)
  }

  // Handlers.

  function Release(s: State): State {
    if !s.valid then s else s.(valid := false, closePending := true, mark := |s.wire|)
  }

  function AbortPending(s: State): State {
    s.(finished := s.finished + Payloads(s.storage), storage := [], buffers := [])
  }

  function CloseTask(s: State): State {
    AbortPending(s.(closePending := false, closed := true))
  }

  function SetBodySize(s: State, size: nat): State {
    if !s.valid || s.Has(BodySet) then s else s.(maxSize := size, bits := s.bits + {BodySizeSet, AllHeadersSet})
  }

  function MarkLast(items: seq<Item>): (r: seq<Item>)
    ensures |r| == |items|
  {
    if |items| == 0 then [] else items[|items| - 1 := items[|items| - 1].(isLastChunk := true)]
  }

  function Enqueue(s: State, p: Payload, last: bool): State {
    s.(storage := s.storage + [Item(p, last)], enqueued := s.enqueued + [p])
  }

  /** An item that is not empty goes to the end of the line. */
  function Grow(s: State, p: Payload): State {
    if |p.bytes| == 0 then s else
      var t := Enqueue(s, p, false);
      t.(currentSize := s.currentSize + |p.bytes|, pendingSize := s.pendingSize + |p.bytes|)
  }

  /** Once the announced size is reached, the body is complete. */
  function CompleteBody(s: State): State {
    if s.currentSize >= s.maxSize then s.(bits := s.bits + {BodySet}, storage := MarkLast(s.storage)) else s
  }

  /** The handler posted by append_body. */
  function Append(s: State, p: Payload): State {
    if !s.valid || s.Has(BodySet) then s else CompleteBody(Grow(s, p))
  }

  /** The handler posted by stock_response. */
  function Stock(s: State, content: seq<byte>): State {
    if !s.valid then s else StockSizes(Enqueue(s, Payload(content, false), true), |content|)
  }

  function StockSizes(s: State, size: nat): State {
    s.(currentSize := size, pendingSize := size, maxSize := size,
       bits := s.bits + {AllHeadersSet, BodySizeSet, BodySet}, stocked := true)
  }

  /** The handler posted by perform_response. It does not look at valid. */
  function Perform(s: State): State {
    if !s.Has(AllHeadersSet) || s.Has(BodySent) then s
    else if !s.Has(HeadersPacked) then
      s.(bits := s.bits + {HeadersPacked}, sending := true, inflight := s.inflight + [HeaderWrite])
    else if !s.Has(HeadersSent) then s
    else if s.maxSize == 0 then Release(s)
    else if s.storage == [] || !s.Has(BodySizeSet) || s.sending then s
    else StartBodyWrite(s)
  }

  function StartBodyWrite(s: State): State
    requires s.storage != []
  {
    var b := if s.buffers == [] then [s.storage[0].payload.bytes] else s.buffers;
    s.(sending := true, buffers := b, inflight := s.inflight + [BodyWrite(Cursor(s), Concat(b))])
  }

  function Without<T>(xs: seq<T>, i: nat): seq<T>
    requires i < |xs|
  {
    xs[..i] + xs[i + 1..]
  }

  function HeaderDone(s: State, i: nat, ok: bool): State
    requires i < |s.inflight|
  {
    var t := s.(inflight := Without(s.inflight, i), sending := false);
    if !t.valid then t
    else if !ok then Release(AbortPending(t))
    else t.(bits := t.bits + {HeadersSent})
  }

  /** The socket took the first k bytes of an outstanding body write, which then is over. */
  function Accept(s: State, i: nat, k: nat): State
    requires i < |s.inflight| && s.inflight[i].BodyWrite? && k <= |s.inflight[i].data|
  {
    s.(inflight := Without(s.inflight, i), sending := false,
       wire := s.wire + Places(s.inflight[i].offset, k),
       sent := s.sent + s.inflight[i].data[..k],
       lateWrites := if s.valid || k == 0 then s.lateWrites else s.lateWrites + 1)
  }

  /** k more bytes of the front item went out, but not all of it. */
  function PartWritten(s: State, k: nat): State {
    s.(pendingSize := s.pendingSize - k, buffers := Consumed(s.buffers, k))
  }

  /** The rest of the front item, k bytes, went out: its callback runs and it is dropped. */
  function ItemWritten(s: State, k: nat): State
    requires s.storage != []
  {
    s.(pendingSize := s.pendingSize - k, buffers := [],
       storage := s.storage[1..], finished := s.finished + [s.storage[0].payload])
  }

  function Finished(s: State): State {
    s.(bits := s.bits + {BodySent})
  }

  /** After k more bytes of the front item went out. */
  function Advance(s: State, k: nat): State {
    if Consumed(s.buffers, k) != [] || s.storage == [] then PartWritten(s, k)
    else if s.storage[0].isLastChunk then Release(Finished(ItemWritten(s, k)))
    else ItemWritten(s, k)
  }

  function BodyDone(s: State, i: nat, ok: bool, k: nat): State
    requires i < |s.inflight| && s.inflight[i].BodyWrite? && k <= |s.inflight[i].data|
  {
    var t := Accept(s, i, k);
    if !t.valid then t
    else if !ok then Release(AbortPending(t))
    else Advance(t, k)
  }

  datatype Event =
    | EvSetBodySize(size: nat)
    | EvAppend(p: Payload)
    | EvStock(content: seq<byte>)
    | EvPerform
    | EvHeaderDone(i: nat, ok: bool)
    | EvBodyDone(i: nat, ok: bool, k: nat)
    | EvRelease
    | EvClose

  predicate Enabled(s: State, ev: Event) {
    match ev
    case EvHeaderDone(i, _) => i < |s.inflight| && s.inflight[i].HeaderWrite?
    case EvBodyDone(i, _, k) => i < |s.inflight| && s.inflight[i].BodyWrite? && k <= |s.inflight[i].data|
    case EvClose => s.closePending
    case _ => true
  }

  function Step(s: State, ev: Event): State
    requires Enabled(s, ev)
  {
    match ev
    case EvSetBodySize(size) => SetBodySize(s, size)
    case EvAppend(p) => Append(s, p)
    case EvStock(content) => Stock(s, content)
    case EvPerform => Perform(s)
    case EvHeaderDone(i, ok) => HeaderDone(s, i, ok)
    case EvBodyDone(i, ok, k) => BodyDone(s, i, ok, k)
    case EvRelease => Release(s)
    case EvClose => CloseTask(s)
  }

  /** A run; events that are not enabled do not happen. */
  function Run(events: seq<Event>): State
    decreases |events|
  {
    if |events| == 0 then INITIAL else
      var t := Run(events[..|events| - 1]);
      var ev := events[|events| - 1];
      if Enabled(t, ev) then Step(t, ev) else t
  }
}
