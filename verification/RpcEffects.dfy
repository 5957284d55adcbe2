/** What the events of RpcMachine do: how a call ends, what a write offers, and that the line drains. */
module RpcEffects {
  import opened Bytes
  import opened RpcMachine
  import opened RpcSafety
  import opened RpcRuns
  import RpcConnect

  // How a call ends.

  /** The events that close the connection and with it end every call. */
  predicate Closes(s: State, ev: Event) {
    match ev
    case EvReleaseTask => true
    case EvDeadline => !s.released && s.status == Ready
    case EvReadFailed(e, _) => !s.released && e == s.epoch && s.status == Ready
    case EvWriteDone(_, e, ok, _) => !s.released && e == s.epoch && s.status == Ready && !ok
    case _ => false
  }

  /** The event gives the call with this id, which has no outcome yet, the outcome o. */
  predicate Gives(s: State, ev: Event, id: nat, o: Outcome) {
    match o
    case Reply(data) => !s.released && ev == EvResponse(s.epoch, id, data)
    case Timeout => !s.released && ev == EvCallTimeout(id)
    case BadRequest => ev == EvOversize(id)
    case ReadFailed => !s.released && ev == EvReadFailed(s.epoch, id)
    case BrokenPipe => Closes(s, ev) && (ev.EvReadFailed? ==> ev.id != id)
  }

  /** A call that waits for its outcome. */
  predicate Waiting(s: State, id: nat) {
    id in s.calls && id !in s.results
  }

  ghost predicate Ended(s: State, id: nat, o: Outcome) {
    id in s.results && s.results[id] == o
  }

  lemma CallBackEnds(s: State, id: nat, o: Outcome, call: nat)
    requires Waiting(s, call)
    ensures if call == id then Ended(CallBack(s, id, o), call, o) && call !in CallBack(s, id, o).calls
            else Waiting(CallBack(s, id, o), call)
  {
  }

  lemma CloseEnds(s: State, forced: bool, call: nat)
    requires call in s.calls
    ensures if s.status == Ready || forced then
              call in Close(s, forced).results && call !in Close(s, forced).calls
              && Close(s, forced).results[call] == if call in s.results then s.results[call] else BrokenPipe
            else Close(s, forced) == s
  {
  }

  lemma {:induction false} FailEnds(s: State, call: nat)
    requires Waiting(s, call)
    ensures if s.status == Ready then Ended(Fail(s), call, BrokenPipe) && call !in Fail(s).calls
            else Waiting(Fail(s), call)
  {
    hide Close, AsyncReconnect;
    CloseEnds(s, false, call);
    ReconnectCalls(Close(s, false));
  }

  /** Another call's result is left alone by a failing connection, which closes it if it waits. */
  lemma {:induction false} FailKeeps(s: State, call: nat, o: Outcome)
    requires Ended(s, call, o)
    ensures Ended(Fail(s), call, o)
  {
    ReconnectCalls(Close(s, false));
  }

  /** A response of the current connection finishes its call, and one of another epoch changes nothing. */
  lemma {:induction false} ResponseFinishes(h: Header, s: State, e: nat, id: nat, data: seq<byte>)
    requires Enabled(s, EvResponse(e, id, data))
    ensures var t := Step(h, s, EvResponse(e, id, data));
            && (s.released || e != s.epoch || id !in s.calls ==> t == s)
            && (!s.released && e == s.epoch && id in s.calls ==> id !in t.calls && id in t.results)
            && (!s.released && e == s.epoch && Waiting(s, id) ==> t.results[id] == Reply(data))
  {
    hide CallBack;
    if Waiting(s, id) {
      CallBackEnds(s, id, Reply(data), id);
    }
    NotCalled(s, id, Reply(data));
  }

  lemma NotCalled(s: State, id: nat, o: Outcome)
    ensures id !in s.calls ==> CallBack(s, id, o) == s
    ensures id in s.calls ==> id !in CallBack(s, id, o).calls && id in CallBack(s, id, o).results
  {
  }

  /** A failed read ends the call it was for with its error and the others with a broken pipe. */
  lemma {:induction false} ReadFailedEnds(s: State, id: nat, call: nat)
    requires Waiting(s, call)
    ensures var t := Fail(CallBack(s, id, ReadFailed));
            if call == id then Ended(t, call, ReadFailed)
            else if s.status == Ready then Ended(t, call, BrokenPipe)
            else Waiting(t, call)
  {
    hide CallBack, Fail;
    CallBackEnds(s, id, ReadFailed, call);
    CallBackStatus(s, id, ReadFailed);
    if call == id {
      FailKeeps(CallBack(s, id, ReadFailed), call, ReadFailed);
    } else {
      FailEnds(CallBack(s, id, ReadFailed), call);
    }
  }

  lemma CallBackStatus(s: State, id: nat, o: Outcome)
    ensures CallBack(s, id, o).status == s.status
  {
  }

  lemma {:induction false} WriteDoneEnds(h: Header, s: State, i: nat, ok: bool, k: nat, call: nat)
    requires Waiting(s, call) && i < |s.inflight| && k <= |s.inflight[i].offered|
    ensures var t := WriteDone(h, s, i, ok, k);
            if !s.released && s.inflight[i].epoch == s.epoch && s.status == Ready && !ok then Ended(t, call, BrokenPipe)
            else Waiting(t, call)
  {
    hide Advance, Fail;
    var t := Accept(s, i, k);
    AdvanceCalls(h, t, k);
    FailEnds(t, call);
  }

  predicate TableEvent(ev: Event) {
    ev.EvResponse? || ev.EvReadFailed? || ev.EvOversize? || ev.EvCallTimeout?
  }

  predicate EndingEvent(ev: Event) {
    TableEvent(ev) || ev.EvDeadline? || ev.EvReleaseTask? || ev.EvWriteDone?
  }

  lemma {:induction false} OtherWaits(h: Header, s: State, ev: Event, call: nat)
    requires Enabled(s, ev) && Waiting(s, call) && !EndingEvent(ev) && ev != EvRelease && ev != EvNewCall
    ensures SameCalls(s, Step(h, s, ev))
  {
    hide Resolved, Connected, PostWrite, TimerDone, PostedConnect;
    if ev.EvWrite? {
      PostWriteCalls(h, s, ev.m);
    } else if ev.EvConnected? {
      ConnectedCalls(h, s, ev.e, ev.ok);
    } else {
      ConnectingCalls(h, s, ev);
    }
  }

  /** What a step makes of a waiting call: exactly the outcome its event gives, and otherwise it goes on waiting. */
  ghost predicate EndsAs(s: State, ev: Event, t: State, id: nat) {
    && (forall o :: Ended(t, id, o) <==> Gives(s, ev, id, o))
    && (id in t.results || id in t.calls)
  }

  lemma GivesOne(s: State, ev: Event, t: State, id: nat, o: Outcome)
    requires Gives(s, ev, id, o) && Ended(t, id, o)
    ensures EndsAs(s, ev, t, id)
  {
  }

  predicate GivesNone(s: State, ev: Event, id: nat) {
    match ev
    case EvResponse(e, x, _) => s.released || e != s.epoch || x != id
    case EvCallTimeout(x) => s.released || x != id
    case EvOversize(x) => x != id
    case EvReadFailed(e, x) => s.released || e != s.epoch || (x != id && s.status != Ready)
    case _ => !Closes(s, ev)
  }

  lemma StillWaits(s: State, ev: Event, t: State, id: nat)
    requires GivesNone(s, ev, id) && Waiting(t, id)
    ensures EndsAs(s, ev, t, id)
  {
  }

  lemma {:induction false} TableOutcome(h: Header, s: State, ev: Event, id: nat)
    requires Enabled(s, ev) && Waiting(s, id) && TableEvent(ev) && !ev.EvReadFailed?
    ensures EndsAs(s, ev, Step(h, s, ev), id)
  {
    hide EndsAs, GivesNone;
    var t := Step(h, s, ev);
    if Waiting(t, id) {
      assert GivesNone(s, ev, id) by {
        TableWaits(h, s, ev, id);
      }
      StillWaits(s, ev, t, id);
    } else {
      TableEnds(h, s, ev, id);
      GivesOne(s, ev, t, id, t.results[id]);
    }
  }

  lemma TableWaits(h: Header, s: State, ev: Event, id: nat)
    requires Enabled(s, ev) && Waiting(s, id) && TableEvent(ev) && !ev.EvReadFailed?
    requires Waiting(Step(h, s, ev), id)
    ensures GivesNone(s, ev, id)
  {
  }

  lemma TableEnds(h: Header, s: State, ev: Event, id: nat)
    requires Enabled(s, ev) && Waiting(s, id) && TableEvent(ev) && !ev.EvReadFailed?
    requires !Waiting(Step(h, s, ev), id)
    ensures id in Step(h, s, ev).results && Gives(s, ev, id, Step(h, s, ev).results[id])
  {
  }

  lemma {:induction false} ReadFailedOutcome(h: Header, s: State, e: nat, x: nat, id: nat)
    requires Waiting(s, id) && e in s.queued
    ensures EndsAs(s, EvReadFailed(e, x), Step(h, s, EvReadFailed(e, x)), id)
  {
    hide EndsAs, CallBack, Fail;
    var ev := EvReadFailed(e, x);
    var t := Step(h, s, ev);
    ReadFailedEnds(s, x, id);
    if s.released || e != s.epoch || (x != id && s.status != Ready) {
      StillWaits(s, ev, t, id);
    } else {
      GivesOne(s, ev, t, id, if x == id then ReadFailed else BrokenPipe);
    }
  }

  lemma {:induction false} ClosingOutcome(h: Header, s: State, ev: Event, id: nat)
    requires Enabled(s, ev) && Waiting(s, id) && (ev.EvDeadline? || ev.EvReleaseTask? || ev.EvWriteDone?)
    ensures EndsAs(s, ev, Step(h, s, ev), id)
  {
    hide EndsAs, Close, WriteDone;
    var t := Step(h, s, ev);
    if ev.EvWriteDone? {
      WriteDoneEnds(h, s, ev.i, ev.ok, ev.k, id);
    } else {
      CloseEnds(s, ev.EvReleaseTask?, id);
    }
    if Closes(s, ev) {
      GivesOne(s, ev, t, id, BrokenPipe);
    } else {
      StillWaits(s, ev, t, id);
    }
  }

  /** How a call ends, for every event: with a reply exactly by a response of the current connection for it,
      with a timeout exactly by its timer, and so on; any other event leaves it waiting. */
  lemma {:induction false} OutcomeExactly(h: Header, s: State, ev: Event, id: nat)
    requires Enabled(s, ev) && Waiting(s, id)
    ensures EndsAs(s, ev, Step(h, s, ev), id)
  {
    hide EndsAs, Step, Closes;
    if ev.EvReadFailed? {
      ReadFailedOutcome(h, s, ev.e, ev.id, id);
    } else if TableEvent(ev) {
      TableOutcome(h, s, ev, id);
    } else if EndingEvent(ev) {
      ClosingOutcome(h, s, ev, id);
    } else {
      QuietOutcome(h, s, ev, id);
    }
  }

  lemma {:induction false} QuietOutcome(h: Header, s: State, ev: Event, id: nat)
    requires Enabled(s, ev) && Waiting(s, id) && !EndingEvent(ev)
    ensures EndsAs(s, ev, Step(h, s, ev), id)
  {
    hide EndsAs, PostWrite, Connected, Resolved, TimerDone, PostedConnect, ConnectCall;
    if ev != EvRelease && ev != EvNewCall {
      OtherWaits(h, s, ev, id);
    }
    StillWaits(s, ev, Step(h, s, ev), id);
  }

  /** In a run: the first event that gives a waiting call an outcome decides it for ever. */
  lemma {:induction false} FirstOutcomeStays(h: Header, s: State, events: seq<Event>, ev: Event, more: seq<Event>,
                                             id: nat, o: Outcome)
    requires CallsOk(s) && Waiting(Run(h, s, events), id)
    requires Enabled(Run(h, s, events), ev) && Gives(Run(h, s, events), ev, id, o)
    ensures Ended(Run(h, s, events + [ev] + more), id, o)
  {
    hide Run, Step, Gives, CallsOk, Enabled;
    var t := Run(h, s, events);
    EveryRunCalls(h, s, events);
    OutcomeExactly(h, t, ev, id);
    RpcConnect.RunOne(h, t, ev);
    RpcConnect.RunAppend(h, s, events, [ev]);
    EveryRunCalls(h, s, events + [ev]);
    RpcConnect.RunAppend(h, s, events + [ev], more);
    EveryRunCalls(h, Run(h, s, events + [ev]), more);
  }

  /** Unless its request was too large to send, an ended call is no longer in the table. */
  lemma {:induction false} EndedLeaves(h: Header, s: State, ev: Event, id: nat, o: Outcome)
    requires Enabled(s, ev) && Waiting(s, id) && Gives(s, ev, id, o) && o != BadRequest
    ensures id !in Step(h, s, ev).calls
  {
    hide Fail, Close, CallBack, Advance;
    match ev
    case EvReadFailed(_, x) =>
      CallBackEnds(s, x, ReadFailed, id);
      CallBackStatus(s, x, ReadFailed);
      LeftStays(CallBack(s, x, ReadFailed), id);
    case EvWriteDone(i, _, _, k) => LeftStays(Accept(s, i, k), id);
    case EvResponse(_, _, data) => CallBackEnds(s, id, Reply(data), id);
    case EvDeadline => CloseEnds(s, false, id);
    case EvReleaseTask => CloseEnds(s, true, id);
    case _ =>
  }

  lemma LeftStays(s: State, id: nat)
    requires id !in s.calls || s.status == Ready
    ensures id !in Fail(s).calls
  {
  }

  // What is written.

  /** A posted message goes to the end of the outbox, and of the line of the connection if there is one; on an
      idle connection its frame, header and content, is offered at once. */
  lemma {:induction false} PostedGoesOut(h: Header, s: State, m: Message)
    ensures var t := Step(h, s, EvWrite(m));
            && (s.released ==> t == s)
            && (!s.released ==> t.outbox == s.outbox + [m] && t.pendingSize == s.pendingSize + |m.content|)
            && (!s.released && s.status == Ready ==> At(t.queued, s.epoch) == At(s.queued, s.epoch) + [m])
            && (s.status != Ready || s.outbox != [] ==> t.inflight == s.inflight)
            && (!s.released && s.status == Ready && s.outbox == [] && s.buffers == [] ==>
                  t.inflight == s.inflight + [Write(s.epoch, h(m) + m.content)])
  {
    hide Concat, FrameBuffers;
    FrameBuffersOk(h, m);
    assert [m][0] == m;
  }

  /** The frames of two messages, spelled out. */
  lemma {:induction false} TwoFrames(h: Header, a: Message, b: Message)
    ensures Frames(h, [a, b]) == h(a) + a.content + h(b) + b.content
  {
    assert [a, b][1..] == [b] && [b][1..] == [];
    assert Frames(h, [b]) == Frame(h, b) + Frames(h, []);
    assert Frames(h, [a, b]) == Frame(h, a) + Frames(h, [b]);
  }

  /** A connect that succeeds puts the whole outbox in line and offers its first frame. */
  lemma {:induction false} ConnectSends(h: Header, s: State)
    requires s.epoch in s.dial.handshakes && !s.released && s.status != Ready
    ensures var t := Step(h, s, EvConnected(s.epoch, true));
            && t.status == Ready && At(t.queued, s.epoch) == s.outbox == t.outbox && At(t.wire, s.epoch) == []
            && (s.outbox == [] ==> t.inflight == s.inflight)
            && (s.outbox != [] && s.buffers == [] ==>
                  t.inflight == s.inflight + [Write(s.epoch, h(s.outbox[0]) + s.outbox[0].content)])
  {
    hide Concat, FrameBuffers;
    if s.outbox != [] {
      FrameBuffersOk(h, s.outbox[0]);
    }
  }

  // What failures lead to.

  /** A step of connecting that fails gives up without attempts left, and else waits for the timer in a new epoch. */
  lemma ConnectRetries(h: Header, s: State, ev: Event)
    requires Enabled(s, ev) && !s.released && s.status != Ready
    requires ev == EvConnected(s.epoch, false) || ev == EvResolved(s.epoch, false)
    ensures var t := Step(h, s, ev);
            && t.outbox == s.outbox
            && (s.reconnects == 0 ==> t.status == Closed && t.epoch == s.epoch && t.dial.timers == s.dial.timers)
            && (s.reconnects > 0 ==> t.status == WaitConnecting && t.epoch == s.epoch + 1 && t.reconnects == s.reconnects - 1
                                     && t.dial.timers == s.dial.timers + 1)
  {
  }

  /** A failing read or write closes the connection, and a client that reconnects waits for the timer. */
  lemma {:induction false} FailureReconnects(h: Header, s: State, ev: Event)
    requires Enabled(s, ev) && Closes(s, ev) && (ev.EvReadFailed? || ev.EvWriteDone?)
    ensures var t := Step(h, s, ev);
            && t.outbox == [] && t.calls == {}
            && (if s.autoReconnect then
                  t.status == WaitConnecting && t.epoch == s.epoch + 2 && t.dial.timers == s.dial.timers + 1
                else t.status == Closed && t.epoch == s.epoch + 1 && t.dial == s.dial)
  {
    hide Fail;
    if ev.EvReadFailed? {
      CallBackStatus(s, ev.id, ReadFailed);
      CallBackRest(s, ev.id, ReadFailed);
      FailCloses(CallBack(s, ev.id, ReadFailed));
    } else {
      FailCloses(Accept(s, ev.i, ev.k));
    }
  }

  lemma CallBackRest(s: State, id: nat, o: Outcome)
    ensures var t := CallBack(s, id, o);
            t.released == s.released && t.autoReconnect == s.autoReconnect && t.epoch == s.epoch && t.dial == s.dial
  {
  }

  lemma FailCloses(s: State)
    requires s.status == Ready && !s.released
    ensures var t := Fail(s);
            && t.outbox == [] && t.calls == {}
            && (if s.autoReconnect then
                  t.status == WaitConnecting && t.epoch == s.epoch + 2 && t.dial.timers == s.dial.timers + 1
                else t.status == Closed && t.epoch == s.epoch + 1 && t.dial == s.dial)
  {
  }

  /** connect() posts a connect unless connected; async_connect() always does. */
  lemma CallPosts(h: Header, s: State)
    ensures var t := Step(h, s, EvConnectCall);
            if s.status == Ready then t == s else t.status == WaitConnecting && t.dial.posted == s.dial.posted + 1
    ensures Step(h, s, EvAsyncConnectCall).dial.posted == s.dial.posted + 1
  {
  }

  /** A posted connect, or a timer that is over, starts a lookup in the current epoch. */
  lemma LookupStarts(h: Header, s: State, ev: Event)
    requires Enabled(s, ev) && (ev == EvConnect || (ev == EvReconnectTimer(true) && !s.released))
    ensures var t := Step(h, s, ev); t.status == DnsResolving && s.epoch in t.dial.lookups && t.epoch == s.epoch
  {
  }

  /** A lookup that succeeds starts a TCP connect. */
  lemma LookupGoesOn(h: Header, s: State)
    requires !s.released && s.epoch in s.dial.lookups && s.status != Ready
    ensures var t := Step(h, s, EvResolved(s.epoch, true));
            t.status == TcpHandshaking && s.epoch in t.dial.handshakes && t.epoch == s.epoch
  {
  }

  // Draining.

  /** A completion that takes all that was offered finishes the front message. */
  lemma {:induction false} FullTake(h: Header, s: State, i: nat)
    requires PumpOk(h, s) && !s.released && i < |s.inflight| && s.inflight[i].epoch == s.epoch
    ensures s.outbox != []
    ensures var t := WriteDone(h, s, i, true, |s.inflight[i].offered|);
            && t.outbox == s.outbox[1..] && t.epoch == s.epoch && t.queued == s.queued
            && t.status == Ready && !t.released
  {
    hide DoWrite, PumpOk, Concat, Consumed, NonEmpty;
    CurrentIsReady(h, s, i);
    AllConsumed(h, s, i);
    var u := Accept(s, i, |s.inflight[i].offered|);
    var popped := u.(buffers := [], outbox := s.outbox[1..], pendingSize := s.pendingSize - |s.outbox[0].content|);
    DoWriteKeeps(h, popped);
  }

  lemma {:induction false} AllConsumed(h: Header, s: State, i: nat)
    requires PumpOk(h, s) && i < |s.inflight| && s.inflight[i].epoch == s.epoch
    ensures Consumed(s.buffers, |s.inflight[i].offered|) == []
  {
    hide Consumed, Concat, OneWriteEach, WirePrefix, Conserved, Pumping, Sizes;
    var all := Concat(s.buffers);
    ConsumedBytes(s.buffers, |all|);
    assert all[|all|..] == [];
    NothingLeft(Consumed(s.buffers, |all|));
  }

  lemma DoWriteKeeps(h: Header, s: State)
    ensures var t := DoWrite(h, s);
            && t.outbox == s.outbox && t.epoch == s.epoch && t.queued == s.queued
            && t.status == s.status && t.released == s.released
  {
  }

  ghost predicate AllWritten(events: seq<Event>) {
    forall i :: 0 <= i < |events| ==> events[i].EvWriteDone? && events[i].ok
  }

  /** From any state a run reaches while connected: after one completion for each waiting message that takes all
      it is offered, nothing waits and the connection has accepted exactly the frames put in line for it. */
  lemma {:induction false} LineDrains(h: Header, s: State) returns (events: seq<Event>)
    requires PumpOk(h, s) && s.status == Ready && !s.released
    ensures |events| == |s.outbox| && AllWritten(events)
    ensures var t := Run(h, s, events);
            t.outbox == [] && t.epoch == s.epoch && At(t.wire, s.epoch) == Frames(h, At(s.queued, s.epoch))
    decreases |s.outbox|
  {
    hide PumpOk, Frames, WriteDone, Run;
    if s.outbox == [] {
      events := [];
      RpcConnect.RunNone(h, s);
      Drained(h, s);
    } else {
      var i := CurrentWrite(h, s);
      var k := |s.inflight[i].offered|;
      var ev := EvWriteDone(i, s.epoch, true, k);
      FullTake(h, s, i);
      WriteDoneOk(h, s, i, true, k);
      RpcConnect.RunOne(h, s, ev);
      var rest := LineDrains(h, Step(h, s, ev));
      events := [ev] + rest;
      RpcConnect.RunAppend(h, s, [ev], rest);
    }
  }

  lemma {:induction false} Drained(h: Header, s: State)
    requires PumpOk(h, s) && s.status == Ready && !s.released && s.outbox == []
    ensures At(s.wire, s.epoch) == Frames(h, At(s.queued, s.epoch))
  {
    hide Frames, OneWriteEach, WirePrefix, Sizes;
    assert At(s.wire, s.epoch) + [] == At(s.wire, s.epoch);
  }

  lemma {:induction false} CurrentWrite(h: Header, s: State) returns (i: nat)
    requires PumpOk(h, s) && s.status == Ready && !s.released && s.outbox != []
    ensures i < |s.inflight| && s.inflight[i].epoch == s.epoch
  {
    hide Frames, OneWriteEach, WirePrefix, Sizes, Conserved, BuffersOk;
    assert Writing(s);
    i :| 0 <= i < |s.inflight| && s.inflight[i].epoch == s.epoch;
  }

  // One call, from connecting to its reply.

  /** Connect in epoch 0, then one call. */
  const ONE_CALL: seq<Event> :=
    [EvAsyncConnectCall] + [EvConnect] + [EvResolved(0, true)] + [EvConnected(0, true)] + [EvNewCall]

  lemma {:induction false} RunStep(h: Header, s: State, events: seq<Event>, ev: Event)
    requires Enabled(Run(h, s, events), ev)
    ensures Run(h, s, events + [ev]) == Step(h, Run(h, s, events), ev)
  {
    hide Run, Step, Enabled;
    RpcConnect.RunAppend(h, s, events, [ev]);
    RpcConnect.RunOne(h, Run(h, s, events), ev);
  }

  ghost predicate NoCalls(s: State) {
    !s.released && s.epoch == 0 && s.calls == {} && s.results == map[] && s.nextCallId == 0
  }

  lemma {:induction false} OneDials(h: Header, autoReconnect: bool, reconnects: nat)
    ensures var s := Run(h, Initial(autoReconnect, reconnects), [EvAsyncConnectCall] + [EvConnect]);
            NoCalls(s) && s.status != Ready && 0 in s.dial.lookups
  {
    hide Run;
    var s := Initial(autoReconnect, reconnects);
    RpcConnect.RunOne(h, s, EvAsyncConnectCall);
    RunStep(h, s, [EvAsyncConnectCall], EvConnect);
  }

  lemma ResolvedNoCalls(h: Header, s: State)
    requires NoCalls(s) && 0 in s.dial.lookups && s.status != Ready
    ensures NoCalls(Step(h, s, EvResolved(0, true)))
  {
  }

  lemma {:induction false} ConnectedNoCalls(h: Header, s: State)
    requires NoCalls(s) && 0 in s.dial.handshakes && s.status != Ready
    ensures var t := Step(h, s, EvConnected(0, true)); NoCalls(t) && 0 in t.queued
  {
    hide DoWrite;
    DoWriteKeeps(h, NewConnection(HandshakeOver(s, 0)));
    DoWriteCalls(h, NewConnection(HandshakeOver(s, 0)));
  }

  lemma FirstCall(h: Header, s: State)
    requires NoCalls(s)
    ensures var t := Step(h, s, EvNewCall);
            Waiting(t, 1) && !t.released && t.epoch == 0 && t.status == s.status && t.queued == s.queued
  {
  }

  lemma {:induction false} OneCallRuns(h: Header, autoReconnect: bool, reconnects: nat)
    ensures var s := Run(h, Initial(autoReconnect, reconnects), ONE_CALL);
            !s.released && s.status == Ready && s.epoch == 0 && 0 in s.queued && Waiting(s, 1)
  {
    hide Run, Step;
    var s := Initial(autoReconnect, reconnects);
    var b := [EvAsyncConnectCall] + [EvConnect];
    OneDials(h, autoReconnect, reconnects);
    RunStep(h, s, b, EvResolved(0, true));
    LookupGoesOn(h, Run(h, s, b));
    ResolvedNoCalls(h, Run(h, s, b));
    var c := b + [EvResolved(0, true)];
    RunStep(h, s, c, EvConnected(0, true));
    ConnectSends(h, Run(h, s, c));
    ConnectedNoCalls(h, Run(h, s, c));
    var d := c + [EvConnected(0, true)];
    RunStep(h, s, d, EvNewCall);
    FirstCall(h, Run(h, s, d));
  }

  /** The reply to that call finishes it. */
  lemma {:induction false} OneCallReplies(h: Header, autoReconnect: bool, reconnects: nat)
    ensures var s := Run(h, Initial(autoReconnect, reconnects), ONE_CALL + [EvResponse(0, 1, [7])]);
            1 !in s.calls && Ended(s, 1, Reply([7]))
  {
    hide Run, Step;
    OneCallRuns(h, autoReconnect, reconnects);
    var s := Run(h, Initial(autoReconnect, reconnects), ONE_CALL);
    RunStep(h, Initial(autoReconnect, reconnects), ONE_CALL, EvResponse(0, 1, [7]));
    ResponseFinishes(h, s, 0, 1, [7]);
  }
}
