/**
 The RPC client's outbox, connection epochs and call table as a step machine. Each posted task and each
 completion handler is one step; the environment chooses completion lengths, errors and times.
 */
module RpcMachine {
  import opened Bytes

  const HEAD_LEN: nat := 18

  type Head = s: seq<byte> | |s| == HEAD_LEN witness seq(HEAD_LEN, _ => 0)

  datatype Message = Message(reqId: nat, reqType: nat, content: seq<byte>, funcId: nat)

  /** The header serializer. */
  type Header = Message -> Head

  datatype Status = WaitConnecting | DnsResolving | TcpHandshaking | Ready | Closed

  datatype Outcome = Reply(data: seq<byte>) | Timeout | BrokenPipe | BadRequest | ReadFailed

  /** A write handed to the socket of an epoch and not completed yet. */
  datatype Write = Write(epoch: nat, offered: seq<byte>)

  /**
   * What connecting has outstanding: waits of the reconnect timer, posted connects that have not run, and name
   * lookups and TCP connects with the epoch they were started in.
   */
  datatype Dial = Dial(timers: nat, posted: nat, lookups: multiset<nat>, handshakes: multiset<nat>)

  datatype State = State(
    released: bool, status: Status, epoch: nat,
    outbox: seq<Message>, buffers: seq<seq<byte>>, pendingSize: int,
    autoReconnect: bool, reconnects: nat,
    nextCallId: nat, calls: set<nat>, results: map<nat, Outcome>,
    // what the environment holds
    dial: Dial,
    inflight: seq<Write>,                 // outstanding writes
    wire: map<nat, seq<byte>>,            // bytes the latest connection of each epoch accepted
    queued: map<nat, seq<Message>>)       // messages put in line for that connection, in order

  function Initial(autoReconnect: bool, reconnects: nat): State {
    State(false, Closed, 0, [], [], 0, autoReconnect, reconnects, 0, {}, map[],
          Dial(0, 0, multiset{}, multiset{}), [], map[], map[])
  }

  function Frame(h: Header, m: Message): seq<byte> {
    h(m) + m.content
  }

  function Frames(h: Header, ms: seq<Message>): seq<byte> {
    if |ms| == 0 then [] else Frame(h, ms[0]) + Frames(h, ms[1..])
  }

  function FrameBuffers(h: Header, m: Message): seq<seq<byte>> {
    if m.content == [] then [h(m)] else [h(m), m.content]
  }

  function Sizes(ms: seq<Message>): nat {
    if |ms| == 0 then 0 else |ms[0].content| + Sizes(ms[1..])
  }

  /** What a table holds for an epoch; nothing if the epoch was never connected. */
  function At<T>(table: map<nat, seq<T>>, e: nat): seq<T> {
    if e in table then table[e] else []
  }

  // Handlers.

  function DoWrite(h: Header, s: State): State {
    if s.outbox == [] || s.status != Ready then s else
      var b := if s.buffers == [] then FrameBuffers(h, s.outbox[0]) else s.buffers;
      s.(buffers := b, inflight := s.inflight + [Write(s.epoch, Concat(b))])
  }

  /** The handler posted by write(). */
  function PostWrite(h: Header, s: State, m: Message): State {
    if s.released then s else
      var line := if s.status == Ready then s.queued[s.epoch := At(s.queued, s.epoch) + [m]] else s.queued;
      var t := s.(outbox := s.outbox + [m], pendingSize := s.pendingSize + |m.content|, queued := line);
      if |t.outbox| > 1 then t else DoWrite(h, t)
  }

  /** Setting the promise of a call, once. */
  function Finish(s: State, id: nat, o: Outcome): State {
    if id in s.results then s else s.(results := s.results[id := o])
  }

  function ClearCache(s: State): State {
    s.(outbox := [], pendingSize := 0, buffers := [], calls := {},
       results := (map id | id in s.calls :: BrokenPipe) + s.results)
  }

  function Close(s: State, forced: bool): State {
    if s.status != Ready && !forced then s else ClearCache(s.(status := Closed, epoch := s.epoch + 1))
  }

  function AsyncReconnect(s: State): State {
    if s.released || s.status != Closed then s else
      s.(epoch := s.epoch + 1, status := WaitConnecting, dial := s.dial.(timers := s.dial.timers + 1))
  }

  function ErrorCallback(s: State): State {
    if s.autoReconnect then AsyncReconnect(s) else s
  }

  function Fail(s: State): State {
    ErrorCallback(Close(s, false))
  }

  /** The socket accepts the first k offered bytes of an outstanding write, which then is over. */
  function Accept(s: State, i: nat, k: nat): State
    requires i < |s.inflight| && k <= |s.inflight[i].offered|
  {
    var w := s.inflight[i];
    s.(inflight := s.inflight[..i] + s.inflight[i + 1..],
       wire := s.wire[w.epoch := At(s.wire, w.epoch) + w.offered[..k]])
  }

  /** After k more bytes of the front frame went out. */
  function Advance(h: Header, s: State, k: nat): State {
    if s.outbox == [] then s else
      var b := Consumed(s.buffers, k);
      if b != [] then DoWrite(h, s.(buffers := b)) else
        var t := s.(buffers := b, outbox := s.outbox[1..],
                    pendingSize := s.pendingSize - |s.outbox[0].content|);
        if t.outbox != [] then DoWrite(h, t) else t
  }

  /** The completion handler of a write. */
  function WriteDone(h: Header, s: State, i: nat, ok: bool, k: nat): State
    requires i < |s.inflight| && k <= |s.inflight[i].offered|
  {
    var t := Accept(s, i, k);
    if t.released || s.inflight[i].epoch != t.epoch then t
    else if !ok then Fail(t)
    else Advance(h, t, k)
  }

  /** connect(), called by the user: does nothing while connected, else posts a connect. */
  function ConnectCall(s: State): State {
    if s.status == Ready then s else AsyncConnectCall(s.(status := WaitConnecting))
  }

  /** async_connect(), called by the user: posts a connect in any state. */
  function AsyncConnectCall(s: State): State {
    s.(dial := s.dial.(posted := s.dial.posted + 1))
  }

  /** do_async_connect: starts a name lookup in the current epoch. */
  function StartConnect(s: State): State {
    s.(status := DnsResolving, dial := s.dial.(lookups := s.dial.lookups + multiset{s.epoch}))
  }

  /** A posted connect runs. */
  function PostedConnect(s: State): State
    requires s.dial.posted > 0
  {
    StartConnect(s.(dial := s.dial.(posted := s.dial.posted - 1)))
  }

  /** A wait of the reconnect timer is over: the delay has passed, or the wait was cancelled. */
  function TimerDone(s: State, ok: bool): State
    requires s.dial.timers > 0
  {
    var t := s.(dial := s.dial.(timers := s.dial.timers - 1));
    if t.released then t else if ok then StartConnect(t) else ErrorCallback(t)
  }

  /** Connecting failed: give up or try again. */
  function ConnectFailed(s: State): State {
    if s.reconnects == 0 then s.(status := Closed)
    else AsyncReconnect(s.(status := Closed, reconnects := s.reconnects - 1))
  }

  function LookupOver(s: State, e: nat): State {
    s.(dial := s.dial.(lookups := s.dial.lookups - multiset{e}))
  }

  function HandshakeOver(s: State, e: nat): State {
    s.(dial := s.dial.(handshakes := s.dial.handshakes - multiset{e}))
  }

  /** Completion of the name lookup started in epoch e. */
  function Resolved(s: State, e: nat, ok: bool): State {
    var t := LookupOver(s, e);
    if t.released || e != t.epoch || t.status == Ready then t
    else if !ok then ConnectFailed(t)
    else t.(status := TcpHandshaking, dial := t.dial.(handshakes := t.dial.handshakes + multiset{e}))
  }

  /** Completion of the TCP connect started in epoch e: on success the protocol is ready. */
  function Connected(h: Header, s: State, e: nat, ok: bool): State {
    var t := HandshakeOver(s, e);
    if t.released || e != t.epoch || t.status == Ready then t
    else if !ok then ConnectFailed(t)
    else BecomeReady(h, t)
  }

  /** A new connection of the current epoch: it has accepted nothing, and the whole outbox is in line for it. */
  function NewConnection(s: State): State {
    s.(status := Ready, queued := s.queued[s.epoch := s.outbox], wire := s.wire[s.epoch := []])
  }

  function BecomeReady(h: Header, s: State): State {
    DoWrite(h, NewConnection(s))
  }

  function CallBack(s: State, id: nat, o: Outcome): State {
    if id !in s.calls then s else Finish(s.(calls := s.calls - {id}), id, o)
  }

  function NewCall(s: State): State {
    s.(nextCallId := s.nextCallId + 1, calls := s.calls + {s.nextCallId + 1})
  }

  function CallTimeout(s: State, id: nat): State {
    if s.released then s else
      var t := Finish(s, id, Timeout);
      t.(calls := t.calls - {id})
  }

  datatype Event =
    | EvWrite(m: Message)
    | EvWriteDone(i: nat, e: nat, ok: bool, k: nat)
    | EvConnectCall
    | EvAsyncConnectCall
    | EvConnect
    | EvReconnectTimer(ok: bool)
    | EvResolved(e: nat, ok: bool)
    | EvConnected(e: nat, ok: bool)
    | EvReadFailed(e: nat, id: nat)
    | EvResponse(e: nat, id: nat, data: seq<byte>)
    | EvDeadline
    | EvRelease
    | EvReleaseTask
    | EvNewCall
    | EvOversize(id: nat)
    | EvCallTimeout(id: nat)

  /** What can happen: completions belong to something outstanding, and responses to a connection made. */
  predicate Enabled(s: State, ev: Event) {
    match ev
    case EvWriteDone(i, e, _, k) =>
      i < |s.inflight| && e == s.inflight[i].epoch && k <= |s.inflight[i].offered|
    case EvConnect => s.dial.posted > 0
    case EvReconnectTimer(_) => s.dial.timers > 0
    case EvResolved(e, _) => e in s.dial.lookups
    case EvConnected(e, _) => e in s.dial.handshakes
    case EvReadFailed(e, _) => e in s.queued
    case EvResponse(e, _, _) => e in s.queued
    case EvReleaseTask => s.released
    case EvOversize(id) => 1 <= id <= s.nextCallId
    case EvCallTimeout(id) => 1 <= id <= s.nextCallId
    case _ => true
  }

  function Step(h: Header, s: State, ev: Event): State
    requires Enabled(s, ev)
  {
    match ev
    case EvWrite(m) => PostWrite(h, s, m)
    case EvWriteDone(i, _, ok, k) => WriteDone(h, s, i, ok, k)
    case EvConnectCall => ConnectCall(s)
    case EvAsyncConnectCall => AsyncConnectCall(s)
    case EvConnect => PostedConnect(s)
    case EvReconnectTimer(ok) => TimerDone(s, ok)
    case EvResolved(e, ok) => Resolved(s, e, ok)
    case EvConnected(e, ok) => Connected(h, s, e, ok)
    case EvReadFailed(e, id) => if s.released || e != s.epoch then s else Fail(CallBack(s, id, ReadFailed))
    case EvResponse(e, id, data) => if s.released || e != s.epoch then s else CallBack(s, id, Reply(data))
    case EvDeadline => if s.released then s else Close(s, false)
    case EvRelease => s.(released := true)
    case EvReleaseTask => Close(s, true)
    case EvNewCall => NewCall(s)
    case EvOversize(id) => Finish(s, id, BadRequest)
    case EvCallTimeout(id) => CallTimeout(s, id)
  }

  /** A run; events that are not enabled do not happen. */
  function Run(h: Header, s: State, events: seq<Event>): State
    decreases |events|
  {
    if |events| == 0 then s else
      var t := Run(h, s, events[..|events| - 1]);
      var ev := events[|events| - 1];
      if Enabled(t, ev) then Step(h, t, ev) else t
  }
}
