/** The write pump of a server connection: one queue, one connection, partial writes. */
module ServerPump {
  import opened Bytes
  import opened RpcMachine
  import opened RpcSafety

  datatype PumpState = PumpState(
    released: bool, queue: seq<Message>, buffers: seq<seq<byte>>,
    // what the environment holds
    offered: seq<seq<byte>>,  // outstanding writes
    wire: seq<byte>,          // bytes the socket accepted
    posted: seq<Message>)     // messages accepted for sending, in order

  const IDLE: PumpState := PumpState(false, [], [], [], [], [])

  datatype PumpEvent = Respond(m: Message) | Written(ok: bool, k: nat) | ReleasePump

  predicate CanHappen(s: PumpState, e: PumpEvent) {
    e.Written? ==> s.offered != [] && e.k <= |s.offered[0]|
  }

  /** write(): builds the buffers of the front message unless some are left, and offers them. */
  function StartWrite(h: Header, s: PumpState): PumpState
    requires s.queue != []
  {
    var b := if s.buffers == [] then FrameBuffers(h, s.queue[0]) else s.buffers;
    s.(buffers := b, offered := s.offered + [Concat(b)])
  }

  function Post(h: Header, s: PumpState, m: Message): PumpState {
    if s.released then s else
      var t := s.(queue := s.queue + [m], posted := s.posted + [m]);
      if |t.queue| > 1 then t else StartWrite(h, t)
  }

  /** After k more bytes of the front message went out. */
  function Continue(h: Header, s: PumpState, k: nat): PumpState
    requires s.queue != []
  {
    var b := Consumed(s.buffers, k);
    if b != [] then StartWrite(h, s.(buffers := b)) else
      var t := s.(buffers := b, queue := s.queue[1..]);
      if t.queue != [] then StartWrite(h, t) else t
  }

  function Complete(h: Header, s: PumpState, ok: bool, k: nat): PumpState
    requires s.offered != [] && k <= |s.offered[0]| && (s.released || s.queue != [])
  {
    var t := s.(offered := s.offered[1..], wire := s.wire + s.offered[0][..k]);
    if t.released then t else if !ok then t.(released := true) else Continue(h, t, k)
  }

  /** Bytes of the queue that the socket has not accepted. */
  ghost function ToSend(h: Header, s: PumpState): seq<byte> {
    if s.queue == [] then [] else
      (if s.buffers == [] then Frame(h, s.queue[0]) else Concat(s.buffers)) + Frames(h, s.queue[1..])
  }

  /** Nothing is lost, doubled or reordered. */
  ghost predicate Accounted(h: Header, s: PumpState) {
    s.wire + ToSend(h, s) == Frames(h, s.posted)
  }

  /** The pump runs exactly while there is something to send, with one write that offers all buffers. */
  ghost predicate PumpSafe(h: Header, s: PumpState) {
    && |s.offered| <= 1
    && s.wire <= Frames(h, s.posted)
    && (s.offered != [] ==> s.wire + s.offered[0] <= Frames(h, s.posted))
    && (!s.released ==>
          && Accounted(h, s) && NonEmpty(s.buffers)
          && (s.queue == [] <==> s.offered == []) && (s.queue == [] <==> s.buffers == [])
          && (s.offered != [] ==> s.offered[0] == Concat(s.buffers)))
  }

  lemma {:induction false} StartWriteSafe(h: Header, s: PumpState)
    requires s.queue != [] && s.offered == [] && Accounted(h, s) && NonEmpty(s.buffers)
    ensures PumpSafe(h, StartWrite(h, s))
  {
    hide Frames, Concat, Frame, FrameBuffers;
    FrameBuffersOk(h, s.queue[0]);
    var t := StartWrite(h, s);
    assert ToSend(h, t) == ToSend(h, s);
    PrefixSplit(s.wire, t.offered[0], Frames(h, s.queue[1..]), Frames(h, s.posted));
  }

  lemma {:induction false} PrefixSplit(a: seq<byte>, b: seq<byte>, c: seq<byte>, whole: seq<byte>)
    requires a + (b + c) == whole
    ensures a + b <= whole && a <= whole
  {
    assert a + b + c == whole;
  }

  lemma {:induction false} PostSafe(h: Header, s: PumpState, m: Message)
    requires PumpSafe(h, s)
    ensures PumpSafe(h, Post(h, s, m))
  {
    hide Frames, Concat, Frame, StartWrite, ToSend;
    if !s.released {
      var t := s.(queue := s.queue + [m], posted := s.posted + [m]);
      FramesAppend(h, s.posted, m);
      PostToSend(h, s, m);
      assert s.wire + (ToSend(h, s) + Frame(h, m)) == s.wire + ToSend(h, s) + Frame(h, m);
      if s.queue == [] {
        StartWriteSafe(h, t);
      } else {
        PrefixLonger(s.wire, Frames(h, s.posted), Frame(h, m));
        PrefixLonger(s.wire + s.offered[0], Frames(h, s.posted), Frame(h, m));
      }
    }
  }

  lemma PrefixLonger(a: seq<byte>, b: seq<byte>, c: seq<byte>)
    requires a <= b
    ensures a <= b + c
  {
  }

  lemma {:induction false} PostToSend(h: Header, s: PumpState, m: Message)
    requires s.queue == [] ==> s.buffers == []
    ensures ToSend(h, s.(queue := s.queue + [m], posted := s.posted + [m])) == ToSend(h, s) + Frame(h, m)
  {
    hide Frame, Concat;
    if s.queue == [] {
      assert (s.queue + [m])[1..] == [];
      assert ToSend(h, s.(queue := s.queue + [m], posted := s.posted + [m])) == Frame(h, m) + [];
    } else {
      assert (s.queue + [m])[1..] == s.queue[1..] + [m];
      FramesAppend(h, s.queue[1..], m);
      var front := if s.buffers == [] then Frame(h, s.queue[0]) else Concat(s.buffers);
      assert front + (Frames(h, s.queue[1..]) + Frame(h, m)) == front + Frames(h, s.queue[1..]) + Frame(h, m);
    }
  }

  /** The state between a completion and the next write. */
  ghost predicate Between(h: Header, s: PumpState, k: nat) {
    && !s.released && s.offered == [] && s.queue != [] && s.buffers != [] && NonEmpty(s.buffers)
    && k <= |Concat(s.buffers)|
    && s.wire + (Concat(s.buffers)[k..] + Frames(h, s.queue[1..])) == Frames(h, s.posted)
  }

  lemma {:induction false} ContinueSafe(h: Header, s: PumpState, k: nat)
    requires Between(h, s, k)
    ensures PumpSafe(h, Continue(h, s, k))
  {
    hide Frames, Concat, Consumed, StartWrite, Frame;
    ConsumedBytes(s.buffers, k);
    var b := Consumed(s.buffers, k);
    NothingLeft(b);
    if b != [] {
      StartWriteSafe(h, s.(buffers := b));
    } else {
      var t := s.(buffers := [], queue := s.queue[1..]);
      assert Concat(s.buffers)[k..] + Frames(h, s.queue[1..]) == Frames(h, s.queue[1..]);
      NextFront(h, t);
      if t.queue != [] {
        StartWriteSafe(h, t);
      } else {
        assert s.wire + [] == s.wire;
      }
    }
  }

  lemma NextFront(h: Header, s: PumpState)
    requires s.buffers == []
    ensures ToSend(h, s) == Frames(h, s.queue)
  {
  }

  lemma {:induction false} CompleteSafe(h: Header, s: PumpState, ok: bool, k: nat)
    requires PumpSafe(h, s) && s.offered != [] && k <= |s.offered[0]|
    ensures s.released || s.queue != []
    ensures PumpSafe(h, Complete(h, s, ok, k))
  {
    hide Frames, Concat, Consumed, Continue;
    var offered := s.offered[0];
    var t := s.(offered := s.offered[1..], wire := s.wire + offered[..k]);
    assert offered == offered[..k] + offered[k..];
    assert t.wire + offered[k..] == s.wire + offered;
    assert t.wire <= Frames(h, s.posted);
    if !s.released && ok {
      assert t.wire + (offered[k..] + Frames(h, s.queue[1..])) == s.wire + (offered + Frames(h, s.queue[1..]));
      ContinueSafe(h, t, k);
    }
  }

  /** A completion finds its message still in the queue. */
  lemma FrontPresent(h: Header, s: PumpState)
    requires PumpSafe(h, s) && s.offered != []
    ensures s.released || s.queue != []
  {
  }

  function PumpStep(h: Header, s: PumpState, e: PumpEvent): PumpState
    requires PumpSafe(h, s) && CanHappen(s, e)
  {
    match e
    case Respond(m) => Post(h, s, m)
    case Written(ok, k) => FrontPresent(h, s); Complete(h, s, ok, k)
    case ReleasePump => s.(released := true)
  }

  lemma {:induction false} PumpStepSafe(h: Header, s: PumpState, e: PumpEvent)
    requires PumpSafe(h, s) && CanHappen(s, e)
    ensures PumpSafe(h, PumpStep(h, s, e))
  {
    hide Post, Complete, Accounted;
    match e
    case Respond(m) => PostSafe(h, s, m);
    case Written(ok, k) => CompleteSafe(h, s, ok, k);
    case ReleasePump =>
  }

  /**
   * A run; events that cannot happen are dropped. In every state of it the socket has got a prefix of the
   * frames of the posted messages, through one write at a time.
   */
  ghost function PumpRun(h: Header, events: seq<PumpEvent>): (s: PumpState)
    ensures PumpSafe(h, s)
  {
    if |events| == 0 then
      IdleSafe(h);
      IDLE
    else
      var s, e := PumpRun(h, events[..|events| - 1]), events[|events| - 1];
      if !CanHappen(s, e) then s else
        PumpStepSafe(h, s, e);
        PumpStep(h, s, e)
  }

  lemma IdleSafe(h: Header)
    ensures PumpSafe(h, IDLE)
  {
  }

  /** A pump at rest that was not released has sent every message in full. */
  lemma {:induction false} AllSent(h: Header, events: seq<PumpEvent>)
    requires var s := PumpRun(h, events); !s.released && s.offered == []
    ensures var s := PumpRun(h, events); s.wire == Frames(h, s.posted)
  {
    hide PumpRun, Frames;
    var s := PumpRun(h, events);
    assert s.wire + [] == s.wire;
  }

  /** Events each of which can happen when its turn comes. */
  ghost predicate AllHappen(h: Header, events: seq<PumpEvent>) {
    forall i :: 0 <= i < |events| ==> CanHappen(PumpRun(h, events[..i]), events[i])
  }

  /** A release, or a write that failed. */
  predicate Stops(e: PumpEvent) {
    e.ReleasePump? || (e.Written? && !e.ok)
  }

  predicate Stopped(events: seq<PumpEvent>) {
    exists i :: 0 <= i < |events| && Stops(events[i])
  }

  /** The responses asked for until the pump stops. */
  ghost function Responses(events: seq<PumpEvent>): seq<Message> {
    if |events| == 0 then [] else
      var before, e := events[..|events| - 1], events[|events| - 1];
      if e.Respond? && !Stopped(before) then Responses(before) + [e.m] else Responses(before)
  }

  lemma {:induction false} StepPosts(h: Header, s: PumpState, e: PumpEvent)
    requires PumpSafe(h, s) && CanHappen(s, e)
    ensures var t := PumpStep(h, s, e);
            && t.posted == (if e.Respond? && !s.released then s.posted + [e.m] else s.posted)
            && (t.released <==> s.released || Stops(e))
  {
    hide PumpSafe, Consumed, Concat, FrameBuffers;
    if e.Written? {
      FrontPresent(h, s);
    }
  }

  lemma {:induction false} StoppedMore(events: seq<PumpEvent>)
    requires |events| > 0
    ensures Stopped(events) <==> Stopped(events[..|events| - 1]) || Stops(events[|events| - 1])
  {
    var before := events[..|events| - 1];
    assert forall i :: 0 <= i < |before| ==> before[i] == events[i];
  }

  /** Every run accepts exactly the responses asked for before it stops, in that order. */
  lemma {:induction false} PostedAreResponses(h: Header, events: seq<PumpEvent>)
    requires AllHappen(h, events)
    ensures PumpRun(h, events).posted == Responses(events)
    ensures PumpRun(h, events).released <==> Stopped(events)
    decreases |events|
  {
    hide PumpSafe, PumpStep, CanHappen, Stopped;
    if |events| > 0 {
      var n := |events| - 1;
      var before := events[..n];
      assert forall i :: 0 <= i < n ==> before[..i] == events[..i];
      PostedAreResponses(h, before);
      assert CanHappen(PumpRun(h, before), events[n]);
      StepPosts(h, PumpRun(h, before), events[n]);
      StoppedMore(events);
    } else {
      NeverStopped();
    }
  }

  lemma NeverStopped()
    ensures !Stopped([])
  {
  }

  /** So a pump at rest that nothing stopped has put the frames of all responses on the wire, in order. */
  lemma {:induction false} ResponsesSent(h: Header, events: seq<PumpEvent>)
    requires AllHappen(h, events) && !Stopped(events) && PumpRun(h, events).offered == []
    ensures PumpRun(h, events).wire == Frames(h, Responses(events))
  {
    hide PumpRun, Stopped, Frames;
    PostedAreResponses(h, events);
    AllSent(h, events);
  }

  /** The connection's side of the pump. */
  class Pump {
    var released: bool
    var queue: seq<Message>
    var buffers: seq<seq<byte>>
    ghost var offered: seq<seq<byte>>
    ghost var wire: seq<byte>
    ghost var posted: seq<Message>
    const header: Header

    ghost function View(): PumpState
      reads this
    {
      PumpState(released, queue, buffers, offered, wire, posted)
    }

    constructor (h: Header)
      ensures View() == IDLE && header == h
    {
      released, queue, buffers, offered, wire, posted, header := false, [], [], [], [], [], h;
    }

    method Write()
      requires queue != []
      modifies this`buffers, this`offered
      ensures View() == StartWrite(header, old(View()))
    {
      if |buffers| == 0 {
        var m := queue[0];
        buffers := [header(m)];
        if |m.content| > 0 { buffers := buffers + [m.content]; }
      }
      offered := offered + [Concat(buffers)];
    }

    method ResponseInternal(m: Message)
      modifies this
      ensures View() == Post(header, old(View()), m)
    {
      hide StartWrite;
      if released { return; }
      queue := queue + [m];
      posted := posted + [m];
      if |queue| > 1 { return; }
      Write();
    }

    method OnWritten(ok: bool, k: nat)
      requires CanHappen(View(), Written(ok, k)) && (released || queue != [])
      modifies this
      ensures View() == Complete(header, old(View()), ok, k)
    {
      hide StartWrite, Consumed;
      wire := wire + offered[0][..k];
      offered := offered[1..];
      if released { return; }
      if !ok {
        released := true;
        return;
      }
      var rest := Consume(buffers, k);
      buffers := rest;
      if |buffers| != 0 {
        Write();
        return;
      }
      queue := queue[1..];
      if |queue| != 0 { Write(); }
    }

    method Handle(e: PumpEvent)
      requires PumpSafe(header, View()) && CanHappen(View(), e)
      modifies this
      ensures View() == PumpStep(header, old(View()), e)
    {
      hide PumpSafe, Post, Complete;
      match e
      case Respond(m) => ResponseInternal(m);
      case Written(ok, k) =>
        FrontPresent(header, View());
        OnWritten(ok, k);
      case ReleasePump => released := true;
    }
  }

  /** A pump driven by any events never goes wrong. */
  method DrivePump(h: Header, events: seq<PumpEvent>) returns (pump: Pump)
    requires forall i :: 0 <= i < |events| ==> CanHappen(PumpRun(h, events[..i]), events[i])
    ensures pump.View() == PumpRun(h, events)
  {
    hide PumpSafe, CanHappen, Post, Complete;
    pump := new Pump(h);
    var i := 0;
    while i < |events|
      invariant 0 <= i <= |events| && fresh(pump) && pump.header == h
      invariant pump.View() == PumpRun(h, events[..i])
    {
      assert events[..i + 1][..i] == events[..i];
      pump.Handle(events[i]);
      i := i + 1;
    }
    assert events[..i] == events;
  }
}
