/** When a connect may run: the exact condition, runs that fail without it, and a rule for callers. */
module RpcConnect {
  import opened Bytes
  import opened RpcMachine
  import opened RpcSafety
  import opened RpcDial
  import opened RpcRuns

  /** No epoch has two writes, and the current one has a write only while connected and with something to send. */
  ghost predicate OneWriter(s: State) {
    OneWriteEach(s) && (Writing(s) ==> s.status == Ready && s.outbox != [])
  }

  ghost predicate NoConnect(events: seq<Event>) {
    EvConnect !in events
  }

  // Runs put together.

  lemma {:induction false} RunAppend(h: Header, s: State, a: seq<Event>, b: seq<Event>)
    ensures Run(h, s, a + b) == Run(h, Run(h, s, a), b)
    decreases |b|
  {
    hide Step, Enabled;
    if |b| == 0 {
      assert a + b == a;
    } else {
      var n := |b| - 1;
      assert (a + b)[..|a + b| - 1] == a + b[..n];
      RunAppend(h, s, a, b[..n]);
    }
  }

  lemma {:induction false} RunOne(h: Header, s: State, ev: Event)
    requires Enabled(s, ev)
    ensures Run(h, s, [ev]) == Step(h, s, ev)
  {
    hide Step, Enabled;
    assert [ev][..0] == [];
  }

  /** An attempt that succeeds. */
  function Attempt(e: nat): seq<Event> {
    [EvResolved(e, true)] + [EvConnected(e, true)]
  }

  lemma {:induction false} ReadyWrites(h: Header, s: State)
    ensures var t := BecomeReady(h, s);
            && t.status == Ready && t.released == s.released && t.epoch == s.epoch && t.outbox == s.outbox
            && t.dial == s.dial && s.inflight <= t.inflight
            && (s.outbox != [] ==> |t.inflight| == |s.inflight| + 1 && t.inflight[|s.inflight|].epoch == s.epoch)
  {
    hide Concat, FrameBuffers;
  }

  /** What it leads to: connected, and writing if there is something to send. */
  lemma {:induction false} AttemptSucceeds(h: Header, s: State)
    requires !s.released && s.epoch in s.dial.lookups && s.status != Ready
    ensures var t := Run(h, s, Attempt(s.epoch));
            && t.status == Ready && !t.released && t.epoch == s.epoch && t.outbox == s.outbox
            && t.dial.timers == s.dial.timers
            && s.inflight <= t.inflight
            && (s.outbox != [] ==> |t.inflight| == |s.inflight| + 1 && t.inflight[|s.inflight|].epoch == s.epoch)
  {
    hide BecomeReady, Run;
    var e := s.epoch;
    var r := Resolved(s, e, true);
    RunAppend(h, s, [EvResolved(e, true)], [EvConnected(e, true)]);
    RunOne(h, s, EvResolved(e, true));
    assert e in r.dial.handshakes;
    ReadyWrites(h, HandshakeOver(r, e));
    RunOne(h, r, EvConnected(e, true));
  }

  /** A second attempt next to a write that is still out. */
  lemma {:induction false} SecondWriter(h: Header, s: State)
    requires !s.released && s.epoch in s.dial.lookups && s.status != Ready && s.outbox != [] && Writing(s)
    ensures !OneWriteEach(Run(h, s, Attempt(s.epoch)))
  {
    hide Run;
    AttemptSucceeds(h, s);
    var t := Run(h, s, Attempt(s.epoch));
    var i :| 0 <= i < |s.inflight| && s.inflight[i].epoch == s.epoch;
    assert t.inflight[i] == s.inflight[i];
  }

  const ANY_MESSAGE: Message := Message(0, 0, [], 0)

  /** A message that is posted while connected leaves a write out. */
  lemma {:induction false} PostedIsOut(h: Header, s: State)
    requires !s.released && s.status == Ready && (s.outbox != [] ==> Writing(s))
    ensures var t := PostWrite(h, s, ANY_MESSAGE);
            && t.outbox != [] && Writing(t) && t.status == Ready && !t.released && t.epoch == s.epoch && t.dial == s.dial
  {
    hide Concat, FrameBuffers;
    var t := PostWrite(h, s, ANY_MESSAGE);
    if s.outbox == [] {
      assert t.inflight[|s.inflight|].epoch == t.epoch;
    } else {
      assert t.inflight == s.inflight;
    }
  }

  /** The reconnect that was waiting goes on as if there were no connection. */
  lemma {:induction false} TimerRestarts(h: Header, s: State)
    requires !s.released && s.status == Ready && s.outbox != [] && Writing(s) && s.dial.timers > 0
    ensures !OneWriteEach(Run(h, s, [EvReconnectTimer(true)] + Attempt(s.epoch)))
  {
    hide Run;
    RunAppend(h, s, [EvReconnectTimer(true)], Attempt(s.epoch));
    RunOne(h, s, EvReconnectTimer(true));
    var t := TimerDone(s, true);
    assert t.inflight == s.inflight && t.epoch == s.epoch && t.epoch in t.dial.lookups;
    SecondWriter(h, t);
  }

  /** The run that goes wrong when a connect runs while a reconnect waits. */
  function TwoAttempts(e: nat): seq<Event> {
    Attempt(e) + ([EvWrite(ANY_MESSAGE)] + ([EvReconnectTimer(true)] + Attempt(e)))
  }

  lemma {:induction false} WaitingFails(h: Header, s: State)
    requires !s.released && s.status != Ready && s.dial.timers > 0
    ensures !OneWriteEach(Run(h, StartConnect(s), TwoAttempts(s.epoch)))
  {
    hide Run, PostWrite, OneWriteEach;
    var e := s.epoch;
    var a := StartConnect(s);
    AttemptSucceeds(h, a);
    var b := Run(h, a, Attempt(e));
    WritingLast(a, b);
    PostedIsOut(h, b);
    var c := PostWrite(h, b, ANY_MESSAGE);
    TimerRestarts(h, c);
    var last := [EvReconnectTimer(true)] + Attempt(e);
    RunAppend(h, b, [EvWrite(ANY_MESSAGE)], last);
    RunOne(h, b, EvWrite(ANY_MESSAGE));
    RunAppend(h, a, Attempt(e), [EvWrite(ANY_MESSAGE)] + last);
  }

  lemma WritingLast(s: State, t: State)
    requires t.epoch == s.epoch && t.outbox == s.outbox
    requires s.outbox != [] ==> |t.inflight| == |s.inflight| + 1 && t.inflight[|s.inflight|].epoch == s.epoch
    ensures t.outbox != [] ==> Writing(t)
  {
  }

  lemma {:induction false} ReadyFails(h: Header, s: State)
    requires !s.released && s.status == Ready && s.outbox != [] && Writing(s)
    ensures !OneWriteEach(Run(h, StartConnect(s), Attempt(s.epoch)))
  {
    hide Run;
    var t := StartConnect(s);
    assert t.inflight == s.inflight;
    SecondWriter(h, t);
  }

  lemma {:induction false} NoConnectIsProper(h: Header, s: State, events: seq<Event>)
    requires NoConnect(events)
    ensures ProperRun(h, s, events)
  {
    hide Run, Enabled;
    forall i | 0 <= i < |events| ensures Proper(Run(h, s, events[..i]), events[i]) {
      assert events[i] in events;
    }
  }

  lemma PumpWriter(h: Header, s: State)
    requires PumpOk(h, s)
    ensures OneWriter(s) && OneWriteEach(s)
    ensures !s.released && s.status == Ready && s.outbox != [] ==> Writing(s)
  {
  }

  /** A connection given up with part of its outbox unsent leaves buffers behind. */
  lemma LeftOver(h: Header, s: State)
    requires PumpOk(h, s) && s.status == Ready && s.outbox != []
    ensures !PumpOk(h, StartConnect(s))
  {
  }

  lemma {:induction false} SafeConnect(h: Header, s: State, events: seq<Event>)
    requires PumpOk(h, s) && DialOk(s) && Proper(s, EvConnect) && NoConnect(events)
    ensures PumpOk(h, Run(h, StartConnect(s), events))
  {
    hide PumpOk, Run, ProperRun;
    StartConnectOk(h, s);
    assert DialOk(StartConnect(s));
    NoConnectIsProper(h, StartConnect(s), events);
    RunPumps(h, StartConnect(s), events);
  }

  /** A continuation that breaks the pump, after a connect that ran where it may not. */
  lemma {:induction false} BadConnect(h: Header, s: State) returns (events: seq<Event>)
    requires PumpOk(h, s) && DialOk(s) && !Proper(s, EvConnect)
    ensures NoConnect(events) && !PumpOk(h, Run(h, StartConnect(s), events))
    ensures !s.released ==> !OneWriteEach(Run(h, StartConnect(s), events))
  {
    hide PumpOk, OneWriteEach, Run, TwoAttempts, Attempt;
    if s.released {
      events := [];
      LeftOver(h, s);
      RunNone(h, StartConnect(s));
    } else if s.dial.timers > 0 {
      events := TwoAttempts(s.epoch);
      NoConnects(s.epoch);
      WaitingFails(h, s);
      NotOneWrite(h, Run(h, StartConnect(s), events));
    } else {
      events := Attempt(s.epoch);
      NoConnects(s.epoch);
      PumpWriter(h, s);
      ReadyFails(h, s);
      NotOneWrite(h, Run(h, StartConnect(s), events));
    }
  }

  lemma NoConnects(e: nat)
    ensures NoConnect(Attempt(e)) && NoConnect(TwoAttempts(e)) && NoConnect([])
  {
  }

  lemma RunNone(h: Header, s: State)
    ensures Run(h, s, []) == s
  {
  }

  lemma NotOneWrite(h: Header, s: State)
    requires !OneWriteEach(s)
    ensures !PumpOk(h, s)
  {
  }

  /**
   * The state in which a connect may run: no reconnect waits, and a live connection has nothing to send. Exactly then
   * every continuation keeps all pump invariants, as long as no further connect runs.
   */
  lemma {:induction false} ConnectExactly(h: Header, s: State)
    requires PumpOk(h, s) && DialOk(s)
    ensures Proper(s, EvConnect) <==>
            forall events :: NoConnect(events) ==> PumpOk(h, Run(h, StartConnect(s), events))
  {
    hide PumpOk, DialOk, Run, Proper, NoConnect;
    if Proper(s, EvConnect) {
      forall events | NoConnect(events) ensures PumpOk(h, Run(h, StartConnect(s), events)) {
        SafeConnect(h, s, events);
      }
    } else {
      var events := BadConnect(h, s);
    }
  }

  /** Until release it is also exactly then that every continuation keeps to one write for each epoch. */
  lemma {:induction false} OneWriteExactly(h: Header, s: State)
    requires PumpOk(h, s) && DialOk(s) && !s.released
    ensures Proper(s, EvConnect) <==>
            forall events :: NoConnect(events) ==> OneWriteEach(Run(h, StartConnect(s), events))
  {
    hide PumpOk, DialOk, Run, Proper, NoConnect, OneWriteEach;
    if Proper(s, EvConnect) {
      forall events | NoConnect(events) ensures OneWriteEach(Run(h, StartConnect(s), events)) {
        SafeConnect(h, s, events);
        PumpWriter(h, Run(h, StartConnect(s), events));
      }
    } else {
      var events := BadConnect(h, s);
    }
  }

  /** A connect that runs while connected starts the pump a second time exactly if there is something to send. */
  lemma {:induction false} ConnectWhileReady(h: Header, s: State)
    requires PumpOk(h, s) && DialOk(s) && !s.released && s.status == Ready
    ensures !OneWriteEach(Run(h, StartConnect(s), Attempt(s.epoch))) <==> s.outbox != []
  {
    hide Run, OneWriteEach, WirePrefix, Conserved, BuffersOk, SizesOk;
    if s.outbox != [] {
      ReadyFails(h, s);
    } else {
      NoConnects(s.epoch);
      SafeConnect(h, s, Attempt(s.epoch));
    }
  }

  // Whole runs.

  lemma {:induction false} ProperPart(h: Header, s: State, events: seq<Event>, n: nat)
    requires ProperRun(h, s, events) && n <= |events|
    ensures ProperRun(h, s, events[..n])
  {
    hide Run, Enabled, Proper;
    var part := events[..n];
    forall i | 0 <= i < |part| && Enabled(Run(h, s, part[..i]), part[i]) ensures Proper(Run(h, s, part[..i]), part[i]) {
      assert part[..i] == events[..i];
    }
  }

  lemma {:induction false} ProperExtended(h: Header, s: State, events: seq<Event>, more: seq<Event>)
    requires ProperRun(h, s, events) && NoConnect(more)
    ensures ProperRun(h, s, events + more)
  {
    hide Run, Enabled;
    var all := events + more;
    forall i | 0 <= i < |all| && Enabled(Run(h, s, all[..i]), all[i]) ensures Proper(Run(h, s, all[..i]), all[i]) {
      if i < |events| {
        assert all[..i] == events[..i];
      } else {
        assert all[i] in more;
      }
    }
  }

  /** Where a run that is not proper can be made to fail. */
  lemma {:induction false} ImproperFails(h: Header, s: State, events: seq<Event>) returns (i: nat, more: seq<Event>)
    requires PumpOk(h, s) && DialOk(s) && !ProperRun(h, s, events)
    ensures i <= |events| && NoConnect(more) && !PumpOk(h, Run(h, s, events[..i] + more))
    decreases |events|
  {
    hide PumpOk, DialOk, Run, NoConnect, Enabled, Proper;
    var n := |events| - 1;
    if !ProperRun(h, s, events[..n]) {
      i, more := ImproperFails(h, s, events[..n]);
      assert events[..n][..i] == events[..i];
    } else {
      LastImproper(h, s, events);
      RunPumps(h, s, events[..n]);
      var t := Run(h, s, events[..n]);
      more := PostedFails(h, t);
      i := |events|;
      RunLast(h, s, events);
      RunAppend(h, s, events, more);
      assert events[..i] == events;
    }
  }

  lemma {:induction false} LastImproper(h: Header, s: State, events: seq<Event>)
    requires !ProperRun(h, s, events) && |events| > 0 && ProperRun(h, s, events[..|events| - 1])
    ensures var t := Run(h, s, events[..|events| - 1]);
            events[|events| - 1] == EvConnect && Enabled(t, EvConnect) && !Proper(t, EvConnect)
  {
    hide Run, Enabled;
    var n := |events| - 1;
    var i :| 0 <= i < |events| && Enabled(Run(h, s, events[..i]), events[i]) && !Proper(Run(h, s, events[..i]), events[i]);
    assert forall j :: 0 <= j <= n ==> events[..n][..j] == events[..j];
  }

  lemma {:induction false} RunLast(h: Header, s: State, events: seq<Event>)
    requires |events| > 0 && Enabled(Run(h, s, events[..|events| - 1]), events[|events| - 1])
    ensures Run(h, s, events) == Step(h, Run(h, s, events[..|events| - 1]), events[|events| - 1])
  {
    hide Step, Enabled;
  }

  lemma {:induction false} PostedFails(h: Header, s: State) returns (more: seq<Event>)
    requires PumpOk(h, s) && DialOk(s) && Enabled(s, EvConnect) && !Proper(s, EvConnect)
    ensures NoConnect(more) && !PumpOk(h, Run(h, Step(h, s, EvConnect), more))
  {
    hide PumpOk, Run, NoConnect, StartConnect;
    var t := s.(dial := s.dial.(posted := s.dial.posted - 1));
    SamePumpOk(h, s, t);
    more := BadConnect(h, t);
  }

  /**
   * In every continuation of every prefix of a run, without a further connect, all pump invariants hold, exactly if
   * every connect of the run ran where it may.
   */
  lemma {:induction false} PumpKeptExactly(h: Header, autoReconnect: bool, reconnects: nat, events: seq<Event>)
    ensures var s := Initial(autoReconnect, reconnects);
            ProperRun(h, s, events) <==>
            forall i, more :: 0 <= i <= |events| && NoConnect(more) ==> PumpOk(h, Run(h, s, events[..i] + more))
  {
    hide PumpOk, DialOk, Run, ProperRun, NoConnect, Initial;
    var s := Initial(autoReconnect, reconnects);
    InitialOk(h, autoReconnect, reconnects);
    InitialDial(autoReconnect, reconnects);
    if ProperRun(h, s, events) {
      forall i, more | 0 <= i <= |events| && NoConnect(more) ensures PumpOk(h, Run(h, s, events[..i] + more)) {
        ProperPart(h, s, events, i);
        ProperExtended(h, s, events[..i], more);
        RunPumps(h, s, events[..i] + more);
      }
    } else {
      var i, more := ImproperFails(h, s, events);
    }
  }

  // What such a connect does to the stream of bytes.

  ghost predicate IsEnd(end: seq<byte>, whole: seq<byte>) {
    |end| <= |whole| && whole[|whole| - |end|..] == end
  }

  /** The buffers hold an end of the frame of the front message. */
  ghost predicate RestOk(h: Header, s: State) {
    s.buffers != [] ==> s.outbox != [] && IsEnd(Concat(s.buffers), Frame(h, s.outbox[0]))
  }

  lemma {:induction false} SameRest(h: Header, s: State, t: State)
    requires RestOk(h, s) && t.buffers == s.buffers && s.outbox <= t.outbox
    ensures RestOk(h, t)
  {
    hide Concat, Frame;
  }

  lemma {:induction false} DoWriteRest(h: Header, s: State)
    requires RestOk(h, s)
    ensures RestOk(h, DoWrite(h, s))
  {
    hide Concat, Frame, FrameBuffers;
    if s.outbox != [] {
      FrameBuffersOk(h, s.outbox[0]);
    }
  }

  lemma {:induction false} PostWriteRest(h: Header, s: State, m: Message)
    requires RestOk(h, s)
    ensures RestOk(h, PostWrite(h, s, m))
  {
    hide RestOk, DoWrite;
    SameRest(h, s, Posted(s, m));
    DoWriteRest(h, Posted(s, m));
  }

  lemma {:induction false} ReconnectRest(h: Header, s: State)
    requires RestOk(h, s)
    ensures RestOk(h, AsyncReconnect(s)) && RestOk(h, ErrorCallback(s)) && RestOk(h, ConnectFailed(s))
  {
    hide RestOk;
    SameRest(h, s, AsyncReconnect(s));
    SameRest(h, s, ErrorCallback(s));
    SameRest(h, s, ConnectFailed(s));
  }

  lemma {:induction false} CloseRest(h: Header, s: State, forced: bool)
    requires RestOk(h, s)
    ensures RestOk(h, Close(s, forced))
  {
    hide Concat, Frame;
  }

  lemma {:induction false} FailRest(h: Header, s: State)
    requires RestOk(h, s)
    ensures RestOk(h, Fail(s))
  {
    hide RestOk, Close, ErrorCallback;
    CloseRest(h, s, false);
    ReconnectRest(h, Close(s, false));
  }

  lemma {:induction false} ConnectedRest(h: Header, s: State, e: nat, ok: bool)
    requires RestOk(h, s)
    ensures RestOk(h, Connected(h, s, e, ok))
  {
    hide RestOk, DoWrite, ConnectFailed;
    var t := HandshakeOver(s, e);
    SameRest(h, s, t);
    ReconnectRest(h, t);
    SameRest(h, t, NewConnection(t));
    DoWriteRest(h, NewConnection(t));
  }

  lemma {:induction false} ResolvedRest(h: Header, s: State, e: nat, ok: bool)
    requires RestOk(h, s)
    ensures RestOk(h, Resolved(s, e, ok))
  {
    hide RestOk, ConnectFailed;
    var t := LookupOver(s, e);
    SameRest(h, s, t);
    ReconnectRest(h, t);
    SameRest(h, t, t.(status := TcpHandshaking, dial := t.dial.(handshakes := t.dial.handshakes + multiset{e})));
  }

  lemma EndOfEnd(end: seq<byte>, whole: seq<byte>, k: nat)
    requires IsEnd(end, whole) && k <= |end|
    ensures IsEnd(end[k..], whole)
  {
  }

  lemma {:induction false} AdvanceRest(h: Header, s: State, k: nat)
    requires RestOk(h, s) && NonEmpty(s.buffers) && k <= |Concat(s.buffers)|
    ensures RestOk(h, Advance(h, s, k))
  {
    hide Concat, Frame, Consumed, DoWrite;
    if s.outbox != [] {
      ConsumedBytes(s.buffers, k);
      var b := Consumed(s.buffers, k);
      if b != [] {
        if s.buffers == [] { ConsumedNone(k); }
        EndOfEnd(Concat(s.buffers), Frame(h, s.outbox[0]), k);
        DoWriteRest(h, s.(buffers := b));
      } else {
        DoWriteRest(h, s.(buffers := b, outbox := s.outbox[1..], pendingSize := s.pendingSize - |s.outbox[0].content|));
      }
    }
  }

  lemma ConsumedNone(k: nat)
    ensures Consumed([], k) == []
  {
  }

  lemma {:induction false} WriteDoneRest(h: Header, s: State, i: nat, ok: bool, k: nat)
    requires PumpOk(h, s) && RestOk(h, s) && i < |s.inflight| && k <= |s.inflight[i].offered|
    ensures RestOk(h, WriteDone(h, s, i, ok, k))
  {
    var t := Accept(s, i, k);
    if s.inflight[i].epoch == s.epoch {
      OfferIsRest(h, s, i);
    }
    hide PumpOk, RestOk, Advance, Fail, Concat;
    SameRest(h, s, t);
    FailRest(h, t);
    if s.inflight[i].epoch == s.epoch {
      AdvanceRest(h, t, k);
    }
  }

  lemma OfferIsRest(h: Header, s: State, i: nat)
    requires PumpOk(h, s) && i < |s.inflight| && s.inflight[i].epoch == s.epoch
    ensures NonEmpty(s.buffers) && s.inflight[i].offered == Concat(s.buffers)
  {
  }

  /** Everything else leaves the outbox and the buffers alone. */
  lemma {:induction false} QuietRest(h: Header, s: State, ev: Event)
    requires RestOk(h, s) && Enabled(s, ev)
    requires !ev.EvWrite? && !ev.EvWriteDone? && !ev.EvResolved? && !ev.EvConnected? && !ev.EvReadFailed?
    requires !ev.EvDeadline? && !ev.EvReleaseTask?
    ensures RestOk(h, Step(h, s, ev))
  {
    hide RestOk;
    SameRest(h, s, Step(h, s, ev));
  }

  lemma {:induction false} StepRest(h: Header, s: State, ev: Event)
    requires PumpOk(h, s) && RestOk(h, s) && Enabled(s, ev)
    ensures RestOk(h, Step(h, s, ev))
  {
    hide PumpOk, RestOk, PostWrite, WriteDone, Connected, Fail, Close, Resolved;
    match ev
    case EvWrite(m) => PostWriteRest(h, s, m);
    case EvWriteDone(i, e, ok, k) => WriteDoneRest(h, s, i, ok, k);
    case EvResolved(e, ok) => ResolvedRest(h, s, e, ok);
    case EvConnected(e, ok) => ConnectedRest(h, s, e, ok);
    case EvReadFailed(e, id) =>
      var t := CallBack(s, id, ReadFailed);
      SameRest(h, s, t);
      FailRest(h, t);
    case EvDeadline => CloseRest(h, s, false);
    case EvReleaseTask => CloseRest(h, s, true);
    case _ => QuietRest(h, s, ev);
  }

  lemma {:induction false} RunRest(h: Header, s: State, events: seq<Event>)
    requires PumpOk(h, s) && DialOk(s) && RestOk(h, s) && ProperRun(h, s, events)
    ensures RestOk(h, Run(h, s, events))
    decreases |events|
  {
    hide PumpOk, DialOk, RestOk, Step, Proper, Enabled;
    if |events| > 0 {
      var n := |events| - 1;
      ProperPrefix(h, s, events);
      RunRest(h, s, events[..n]);
      RunPumps(h, s, events[..n]);
      var t := Run(h, s, events[..n]);
      if Enabled(t, events[n]) {
        StepRest(h, t, events[n]);
      }
    }
  }

  /** In every run with proper connects the buffers hold an end of the front frame. */
  lemma {:induction false} EveryRunRest(h: Header, autoReconnect: bool, reconnects: nat, events: seq<Event>)
    requires ProperRun(h, Initial(autoReconnect, reconnects), events)
    ensures RestOk(h, Run(h, Initial(autoReconnect, reconnects), events))
  {
    hide PumpOk, Run, ProperRun;
    InitialOk(h, autoReconnect, reconnects);
    RunRest(h, Initial(autoReconnect, reconnects), events);
  }

  /** How much of the front frame the connection has taken. */
  ghost function Taken(h: Header, s: State): nat
    requires s.outbox != [] && |Concat(s.buffers)| <= |Frame(h, s.outbox[0])|
  {
    |Frame(h, s.outbox[0])| - |Concat(s.buffers)|
  }

  lemma RestLeft(h: Header, s: State)
    requires PumpOk(h, s) && RestOk(h, s) && s.status == Ready && s.outbox != []
    ensures s.buffers != [] && IsEnd(Concat(s.buffers), Frame(h, s.outbox[0]))
  {
  }

  /** What a connection made over a live one with something to send starts with. */
  lemma {:induction false} RestartState(h: Header, s: State)
    requires !s.released && s.status == Ready && s.outbox != [] && s.buffers != []
    ensures var t := Run(h, StartConnect(s), Attempt(s.epoch));
            && At(t.wire, s.epoch) == [] && At(t.queued, s.epoch) == s.outbox
            && t.inflight == s.inflight + [Write(s.epoch, Concat(s.buffers))]
  {
    hide Concat, FrameBuffers, Run;
    var e := s.epoch;
    var a := StartConnect(s);
    var b := Resolved(a, e, true);
    RunAppend(h, a, [EvResolved(e, true)], [EvConnected(e, true)]);
    RunOne(h, a, EvResolved(e, true));
    assert e in b.dial.handshakes;
    RunOne(h, b, EvConnected(e, true));
  }

  /**
   * A connect that runs while connected with something to send: the new connection has all frames of the outbox in
   * line but is first offered the front frame without the bytes that the old connection took. The stream starts on
   * a frame boundary exactly if none were taken.
   */
  lemma {:induction false} StreamStart(h: Header, s: State)
    requires PumpOk(h, s) && RestOk(h, s) && !s.released && s.status == Ready && s.outbox != []
    ensures |Concat(s.buffers)| <= |Frame(h, s.outbox[0])|
    ensures var t, front := Run(h, StartConnect(s), Attempt(s.epoch)), Frame(h, s.outbox[0]);
            && At(t.wire, s.epoch) == [] && At(t.queued, s.epoch) == s.outbox
            && |t.inflight| == |s.inflight| + 1
            && t.inflight[|s.inflight|] == Write(s.epoch, front[Taken(h, s)..])
            && (t.inflight[|s.inflight|].offered == front <==> Taken(h, s) == 0)
  {
    hide PumpOk, Run, Frame, Concat;
    RestLeft(h, s);
    RestartState(h, s);
  }

  // A run that fails although no connect is called while connected.

  /** A first attempt fails, and a reconnect waits. */
  const DELAYED: seq<Event> := [EvConnectCall] + [EvConnect] + [EvResolved(0, true)] + [EvConnected(0, false)]

  ghost function AfterLookup(autoReconnect: bool): State {
    Resolved(PostedConnect(ConnectCall(Initial(autoReconnect, 1))), 0, true)
  }

  lemma LookedUp(autoReconnect: bool)
    ensures Enabled(Initial(autoReconnect, 1), EvConnectCall)
    ensures ConnectCall(Initial(autoReconnect, 1)).dial.posted == 1
    ensures 0 in PostedConnect(ConnectCall(Initial(autoReconnect, 1))).dial.lookups
    ensures var s := AfterLookup(autoReconnect);
            s == Initial(autoReconnect, 1).(status := TcpHandshaking, dial := Dial(0, 0, multiset{}, multiset{0}))
  {
  }

  lemma {:induction false} DelayedState(h: Header, autoReconnect: bool)
    ensures var s := Run(h, Initial(autoReconnect, 1), DELAYED);
            && !s.released && s.status == WaitConnecting && s.epoch == 1 && s.dial.timers == 1
            && s.dial.posted == 0 && s.outbox == [] && s.inflight == []
  {
    hide Run, Resolved, PostedConnect, ConnectCall, DoWrite;
    LookedUp(autoReconnect);
    var s0 := Initial(autoReconnect, 1);
    var s1 := ConnectCall(s0);
    var s2 := PostedConnect(s1);
    RunOne(h, s0, EvConnectCall);
    RunAppend(h, s0, [EvConnectCall], [EvConnect]);
    RunOne(h, s1, EvConnect);
    RunAppend(h, s0, [EvConnectCall] + [EvConnect], [EvResolved(0, true)]);
    RunOne(h, s2, EvResolved(0, true));
    RunAppend(h, s0, [EvConnectCall] + [EvConnect] + [EvResolved(0, true)], [EvConnected(0, false)]);
    RunOne(h, AfterLookup(autoReconnect), EvConnected(0, false));
  }

  /** Calling connect() during the delay, when there is no connection, ends with two writes in one epoch. */
  lemma {:induction false} ConnectDuringDelay(h: Header, autoReconnect: bool)
    ensures var s := Run(h, Initial(autoReconnect, 1), DELAYED);
            && s.status != Ready
            && !OneWriteEach(Run(h, s, [EvConnectCall] + [EvConnect] + TwoAttempts(1)))
  {
    hide Run, OneWriteEach, TwoAttempts;
    DelayedState(h, autoReconnect);
    var s := Run(h, Initial(autoReconnect, 1), DELAYED);
    var t := ConnectCall(s);
    var u := t.(dial := t.dial.(posted := t.dial.posted - 1));
    RunOne(h, s, EvConnectCall);
    RunAppend(h, s, [EvConnectCall], [EvConnect]);
    RunOne(h, t, EvConnect);
    RunAppend(h, s, [EvConnectCall] + [EvConnect], TwoAttempts(1));
    WaitingFails(h, u);
  }

  // A rule for callers.

  /** Connecting is asked for only while closed, with no earlier request still waiting to run. */
  predicate Careful(s: State, ev: Event) {
    match ev
    case EvConnectCall => s.status == Ready || (s.status == Closed && s.dial.posted == 0)
    case EvAsyncConnectCall => s.status == Closed && s.dial.posted == 0
    case _ => true
  }

  ghost function Attempts(s: State): nat {
    s.dial.lookups[s.epoch] + s.dial.handshakes[s.epoch]
  }

  /** Then at most one thing is under way, and nothing while connected. */
  ghost predicate CarefulOk(s: State) {
    && (forall e :: e in s.queued ==> e <= s.epoch) && (s.epoch in s.queued ==> s.status == Ready)
    && (s.status == Ready ==> s.dial.posted == 0 && s.dial.timers == 0 && Attempts(s) == 0)
    && (!s.released ==> s.dial.posted + s.dial.timers + Attempts(s) <= 1)
    && (!s.released && s.status == Closed ==> s.dial.timers == 0 && Attempts(s) == 0)
    && EpochsOk(s)
  }

  lemma {:induction false} SameCareful(s: State, t: State)
    requires CarefulOk(s) && t.dial == s.dial && t.epoch == s.epoch && t.status == s.status && t.released == s.released
    requires t.queued == s.queued || (s.status == Ready && t.queued.Keys == s.queued.Keys + {s.epoch})
    ensures CarefulOk(t)
  {
    assert forall e :: e in t.queued <==> e in t.queued.Keys;
  }

  /** Giving up a connection or an attempt: the new epoch has nothing under way. */
  lemma {:induction false} ClosedCareful(s: State, t: State)
    requires CarefulOk(s) && t.dial == s.dial && t.epoch > s.epoch && t.status == Closed && t.queued == s.queued
    requires t.released == s.released && (s.released || s.dial.timers == 0)
    ensures CarefulOk(t)
  {
  }

  lemma {:induction false} ReconnectCareful(s: State)
    requires CarefulOk(s) && (s.status == Closed ==> s.released || s.dial.posted == 0)
    ensures CarefulOk(AsyncReconnect(s)) && CarefulOk(ErrorCallback(s))
  {
  }

  lemma {:induction false} FailCareful(s: State)
    requires CarefulOk(s) && s.status == Ready
    ensures CarefulOk(Fail(s))
  {
    var t := Close(s, false);
    ClosedCareful(s, t);
    hide CarefulOk, Close;
    ReconnectCareful(t);
  }

  lemma {:induction false} ConnectFailedCareful(s: State)
    requires CarefulOk(s) && !s.released && s.status != Ready && s.dial.posted == 0 && s.dial.timers == 0 && Attempts(s) == 0
    ensures CarefulOk(ConnectFailed(s))
  {
    var t := s.(status := Closed);
    assert CarefulOk(t);
    if s.reconnects > 0 {
      var u := t.(reconnects := s.reconnects - 1);
      SameCareful(t, u);
      ReconnectCareful(u);
    }
  }

  lemma {:induction false} ResolvedCareful(s: State, e: nat, ok: bool)
    requires CarefulOk(s) && e in s.dial.lookups
    ensures CarefulOk(Resolved(s, e, ok))
  {
    hide ConnectFailed;
    var t := LookupOver(s, e);
    assert CarefulOk(t);
    if !t.released && e == t.epoch && t.status != Ready {
      ConnectFailedCareful(t);
    }
  }

  lemma {:induction false} ConnectedCareful(h: Header, s: State, e: nat, ok: bool)
    requires CarefulOk(s) && e in s.dial.handshakes
    ensures CarefulOk(Connected(h, s, e, ok))
  {
    hide ConnectFailed, DoWrite;
    var t := HandshakeOver(s, e);
    assert CarefulOk(t);
    if !t.released && e == t.epoch && t.status != Ready {
      ConnectFailedCareful(t);
      var u := NewConnection(t);
      assert CarefulOk(u);
      DoWriteDial(h, u);
      DoWriteLines(h, u);
      SameCareful(u, DoWrite(h, u));
    }
  }

  lemma {:induction false} WriteDoneCareful(h: Header, s: State, i: nat, ok: bool, k: nat)
    requires CarefulOk(s) && OneWriter(s) && i < |s.inflight| && k <= |s.inflight[i].offered|
    ensures CarefulOk(WriteDone(h, s, i, ok, k))
  {
    hide CarefulOk, Advance, Fail;
    var t := Accept(s, i, k);
    SameCareful(s, t);
    if s.inflight[i].epoch == s.epoch {
      assert Writing(s);
      FailCareful(t);
      AdvanceDial(h, t, k);
      AdvanceLines(h, t, k);
      SameCareful(t, Advance(h, t, k));
    }
  }

  lemma {:induction false} PostWriteCareful(h: Header, s: State, m: Message)
    requires CarefulOk(s)
    ensures CarefulOk(PostWrite(h, s, m))
  {
    hide CarefulOk, DoWrite;
    if !s.released {
      var t := Posted(s, m);
      SameCareful(s, t);
      DoWriteDial(h, t);
      DoWriteLines(h, t);
      SameCareful(t, DoWrite(h, t));
    }
  }

  lemma {:induction false} ConnectingCareful(h: Header, s: State, ev: Event)
    requires CarefulOk(s) && DialOk(s) && Enabled(s, ev) && Careful(s, ev)
    requires ev.EvConnectCall? || ev.EvAsyncConnectCall? || ev.EvConnect? || ev.EvReconnectTimer? || ev.EvRelease?
    ensures CarefulOk(Step(h, s, ev))
  {
  }

  lemma {:induction false} CloseCareful(s: State, forced: bool)
    requires CarefulOk(s) && (forced ==> s.released)
    ensures CarefulOk(Close(s, forced))
  {
    if s.status == Ready || forced {
      ClosedCareful(s, Close(s, forced));
    }
  }

  lemma {:induction false} ReadFailedCareful(s: State, id: nat)
    requires CarefulOk(s) && s.epoch in s.queued
    ensures CarefulOk(Fail(CallBack(s, id, ReadFailed)))
  {
    hide Fail;
    var t := CallBack(s, id, ReadFailed);
    SameCareful(s, t);
    FailCareful(t);
  }

  lemma {:induction false} TableCareful(h: Header, s: State, ev: Event)
    requires CarefulOk(s) && Enabled(s, ev)
    requires ev.EvResponse? || ev.EvNewCall? || ev.EvOversize? || ev.EvCallTimeout?
    ensures CarefulOk(Step(h, s, ev))
  {
    hide CarefulOk;
    SameCareful(s, Step(h, s, ev));
  }

  lemma {:induction false} StepCareful(h: Header, s: State, ev: Event)
    requires CarefulOk(s) && DialOk(s) && OneWriter(s) && Enabled(s, ev) && Careful(s, ev)
    ensures CarefulOk(Step(h, s, ev))
  {
    hide CarefulOk, DialOk, OneWriter, PostWrite, WriteDone, Connected, Fail, Close, Resolved, CallBack, TimerDone,
         ConnectCall;
    match ev
    case EvWrite(m) => PostWriteCareful(h, s, m);
    case EvWriteDone(i, e, ok, k) => WriteDoneCareful(h, s, i, ok, k);
    case EvResolved(e, ok) => ResolvedCareful(s, e, ok);
    case EvConnected(e, ok) => ConnectedCareful(h, s, e, ok);
    case EvReadFailed(e, id) =>
      if e == s.epoch { ReadFailedCareful(s, id); }
    case EvDeadline => CloseCareful(s, false);
    case EvReleaseTask => CloseCareful(s, true);
    case EvResponse(e, id, data) => TableCareful(h, s, ev);
    case EvNewCall => TableCareful(h, s, ev);
    case EvOversize(id) => TableCareful(h, s, ev);
    case EvCallTimeout(id) => TableCareful(h, s, ev);
    case _ => ConnectingCareful(h, s, ev);
  }

  /** What a caller must do: ask for a connection only while closed. */
  ghost predicate CarefulRun(h: Header, s: State, events: seq<Event>) {
    forall i :: 0 <= i < |events| && Enabled(Run(h, s, events[..i]), events[i]) ==>
      Careful(Run(h, s, events[..i]), events[i])
  }

  lemma CarefulIsProper(s: State, ev: Event)
    requires CarefulOk(s) && Enabled(s, ev)
    ensures Proper(s, ev)
  {
  }

  lemma {:induction false} CarefulRunKeeps(h: Header, s: State, events: seq<Event>)
    requires PumpOk(h, s) && DialOk(s) && CarefulOk(s) && CarefulRun(h, s, events)
    ensures var t := Run(h, s, events); PumpOk(h, t) && DialOk(t) && CarefulOk(t)
    decreases |events|
  {
    hide PumpOk, DialOk, CarefulOk, OneWriter, Step, Careful, Enabled, Proper;
    if |events| > 0 {
      var n := |events| - 1;
      CarefulPrefix(h, s, events);
      CarefulRunKeeps(h, s, events[..n]);
      var t := Run(h, s, events[..n]);
      if Enabled(t, events[n]) {
        CarefulIsProper(t, events[n]);
        PumpWriter(h, t);
        StepPump(h, t, events[n]);
        StepDial(h, t, events[n]);
        StepCareful(h, t, events[n]);
      }
    }
  }

  lemma {:induction false} CarefulPrefix(h: Header, s: State, events: seq<Event>)
    requires CarefulRun(h, s, events) && |events| > 0
    ensures CarefulRun(h, s, events[..|events| - 1])
  {
    hide Run, Enabled, Careful;
    var before := events[..|events| - 1];
    forall i | 0 <= i < |before| && Enabled(Run(h, s, before[..i]), before[i])
      ensures Careful(Run(h, s, before[..i]), before[i])
    {
      assert before[..i] == events[..i];
    }
  }

  lemma {:induction false} CarefulPart(h: Header, s: State, events: seq<Event>, n: nat)
    requires CarefulRun(h, s, events) && n <= |events|
    ensures CarefulRun(h, s, events[..n])
  {
    hide Run, Enabled, Careful;
    var part := events[..n];
    forall i | 0 <= i < |part| && Enabled(Run(h, s, part[..i]), part[i]) ensures Careful(Run(h, s, part[..i]), part[i]) {
      assert part[..i] == events[..i];
    }
  }

  /** The rule for callers implies that every connect runs where it may. */
  lemma {:induction false} CarefulRunIsProper(h: Header, autoReconnect: bool, reconnects: nat, events: seq<Event>)
    requires CarefulRun(h, Initial(autoReconnect, reconnects), events)
    ensures ProperRun(h, Initial(autoReconnect, reconnects), events)
  {
    hide PumpOk, Run, CarefulRun, Enabled, Proper;
    var s := Initial(autoReconnect, reconnects);
    forall i | 0 <= i < |events| && Enabled(Run(h, s, events[..i]), events[i])
      ensures Proper(Run(h, s, events[..i]), events[i])
    {
      CarefulPart(h, s, events, i);
      InitialOk(h, autoReconnect, reconnects);
      CarefulRunKeeps(h, s, events[..i]);
      CarefulIsProper(Run(h, s, events[..i]), events[i]);
    }
  }

  /** A client whose user asks for a connection only while it is closed keeps everything, in every run. */
  lemma {:induction false} CarefulUser(h: Header, autoReconnect: bool, reconnects: nat, events: seq<Event>)
    requires CarefulRun(h, Initial(autoReconnect, reconnects), events)
    ensures var s := Run(h, Initial(autoReconnect, reconnects), events);
            PumpOk(h, s) && DialOk(s) && (s.status == Ready ==> s.dial.posted == 0 && s.dial.timers == 0)
  {
    hide PumpOk, Run, CarefulRun;
    InitialOk(h, autoReconnect, reconnects);
    CarefulRunKeeps(h, Initial(autoReconnect, reconnects), events);
  }
}
