/** Theorems about all runs of the RPC client. */
module RpcRuns {
  import opened Bytes
  import opened RpcMachine
  import opened RpcSafety
  import opened RpcDial

  lemma {:induction false} StepPump(h: Header, s: State, ev: Event)
    requires PumpOk(h, s) && DialOk(s) && Enabled(s, ev) && Proper(s, ev)
    ensures PumpOk(h, Step(h, s, ev))
  {
    hide PumpOk, DialOk, PostWrite, WriteDone, Connected, Fail, Close, Resolved, CallBack;
    match ev
    case EvWrite(m) => PostWriteOk(h, s, m);
    case EvWriteDone(i, e, ok, k) => WriteDoneOk(h, s, i, ok, k);
    case EvConnectCall => ConnectingOk(h, s, ev);
    case EvAsyncConnectCall => ConnectingOk(h, s, ev);
    case EvConnect => ConnectingOk(h, s, ev);
    case EvReconnectTimer(ok) => TimerOk(h, s, ok);
    case EvResolved(e, ok) => ResolvedOk(h, s, e, ok);
    case EvConnected(e, ok) => ConnectedOk(h, s, e, ok);
    case EvReadFailed(e, id) => ReadFailedOk(h, s, id);
    case EvDeadline => AnyCloseOk(h, s, false);
    case EvReleaseTask => AnyCloseOk(h, s, true);
    case EvRelease => ReleaseOk(h, s);
    case _ => TableOnlyOk(h, s, ev);
  }

  lemma {:induction false} ConnectingOk(h: Header, s: State, ev: Event)
    requires PumpOk(h, s) && Enabled(s, ev) && Proper(s, ev)
    requires ev.EvConnectCall? || ev.EvAsyncConnectCall? || ev.EvConnect?
    ensures PumpOk(h, Step(h, s, ev))
  {
    hide PumpOk;
    match ev
    case EvConnectCall =>
      if s.status != Ready {
        StatusOk(h, s, WaitConnecting);
        SamePumpOk(h, s.(status := WaitConnecting), ConnectCall(s));
      }
    case EvAsyncConnectCall => SamePumpOk(h, s, AsyncConnectCall(s));
    case EvConnect =>
      var t := s.(dial := s.dial.(posted := s.dial.posted - 1));
      SamePumpOk(h, s, t);
      StartConnectOk(h, t);
  }

  lemma {:induction false} TimerOk(h: Header, s: State, ok: bool)
    requires PumpOk(h, s) && DialOk(s) && s.dial.timers > 0
    ensures PumpOk(h, TimerDone(s, ok))
  {
    hide PumpOk, StartConnect, ErrorCallback;
    var t := s.(dial := s.dial.(timers := s.dial.timers - 1));
    SamePumpOk(h, s, t);
    if !t.released {
      StartConnectOk(h, t);
      ReconnectOk(h, t);
    }
  }

  lemma {:induction false} ResolvedOk(h: Header, s: State, e: nat, ok: bool)
    requires PumpOk(h, s)
    ensures PumpOk(h, Resolved(s, e, ok))
  {
    hide PumpOk, ConnectFailed;
    var t := LookupOver(s, e);
    SamePumpOk(h, s, t);
    if t.status != Ready {
      ConnectFailedOk(h, t);
      StatusOk(h, t, TcpHandshaking);
      SamePumpOk(h, t.(status := TcpHandshaking),
                 t.(status := TcpHandshaking, dial := t.dial.(handshakes := t.dial.handshakes + multiset{e})));
    }
  }

  lemma {:induction false} ReadFailedOk(h: Header, s: State, id: nat)
    requires PumpOk(h, s)
    ensures PumpOk(h, Fail(CallBack(s, id, ReadFailed)))
  {
    hide PumpOk, PastOk, Fail;
    var u := CallBack(s, id, ReadFailed);
    SamePumpOk(h, s, u);
    PumpPast(h, u);
    FailOk(h, u);
  }

  lemma {:induction false} AnyCloseOk(h: Header, s: State, forced: bool)
    requires PumpOk(h, s)
    ensures PumpOk(h, Close(s, forced))
  {
    hide PumpOk, PastOk, Close;
    PumpPast(h, s);
    CloseOk(h, s, forced);
  }

  /** Steps of the call table leave the pump alone. */
  lemma {:induction false} TableOnlyOk(h: Header, s: State, ev: Event)
    requires PumpOk(h, s) && Enabled(s, ev)
    requires ev.EvResponse? || ev.EvNewCall? || ev.EvOversize? || ev.EvCallTimeout?
    ensures PumpOk(h, Step(h, s, ev))
  {
    hide PumpOk;
    SamePumpOk(h, s, Step(h, s, ev));
  }

  lemma InitialOk(h: Header, autoReconnect: bool, reconnects: nat)
    ensures PumpOk(h, Initial(autoReconnect, reconnects)) && CallsOk(Initial(autoReconnect, reconnects))
  {
  }

  /** A run in which every connect runs where it may. */
  ghost predicate ProperRun(h: Header, s: State, events: seq<Event>) {
    forall i :: 0 <= i < |events| && Enabled(Run(h, s, events[..i]), events[i]) ==>
      Proper(Run(h, s, events[..i]), events[i])
  }

  lemma {:induction false} ProperPrefix(h: Header, s: State, events: seq<Event>)
    requires ProperRun(h, s, events) && |events| > 0
    ensures ProperRun(h, s, events[..|events| - 1])
  {
    hide Run, Enabled, Proper;
    var before := events[..|events| - 1];
    forall i | 0 <= i < |before| && Enabled(Run(h, s, before[..i]), before[i])
      ensures Proper(Run(h, s, before[..i]), before[i])
    {
      assert before[..i] == events[..i];
    }
  }

  /** What such a run keeps, from any state. */
  lemma {:induction false} RunPumps(h: Header, s: State, events: seq<Event>)
    requires PumpOk(h, s) && DialOk(s) && ProperRun(h, s, events)
    ensures PumpOk(h, Run(h, s, events)) && DialOk(Run(h, s, events))
    decreases |events|
  {
    hide PumpOk, DialOk, Step, Proper, Enabled;
    if |events| > 0 {
      var n := |events| - 1;
      ProperPrefix(h, s, events);
      RunPumps(h, s, events[..n]);
      var t := Run(h, s, events[..n]);
      if Enabled(t, events[n]) {
        StepPump(h, t, events[n]);
        StepDial(h, t, events[n]);
      }
    }
  }

  /** In every run: one write at most per connection, outstanding exactly when needed; accepted bytes a prefix
      of the frames in line on every connection; nothing lost or doubled on the current one; exact sizes; and at
      most one reconnect waits, during which nothing else is under way. */
  lemma {:induction false} EveryRunPumps(h: Header, autoReconnect: bool, reconnects: nat, events: seq<Event>)
    requires ProperRun(h, Initial(autoReconnect, reconnects), events)
    ensures PumpOk(h, Run(h, Initial(autoReconnect, reconnects), events))
    ensures DialOk(Run(h, Initial(autoReconnect, reconnects), events))
  {
    hide PumpOk, DialOk, Run, Initial, ProperRun;
    InitialOk(h, autoReconnect, reconnects);
    InitialDial(autoReconnect, reconnects);
    RunPumps(h, Initial(autoReconnect, reconnects), events);
  }

  /** The reconnect timer of an unreleased client never fires while connected. */
  lemma {:induction false} TimerNeverWhileReady(h: Header, autoReconnect: bool, reconnects: nat, events: seq<Event>)
    requires ProperRun(h, Initial(autoReconnect, reconnects), events)
    ensures var s := Run(h, Initial(autoReconnect, reconnects), events);
            !s.released && s.status == Ready ==> !Enabled(s, EvReconnectTimer(true)) && !Enabled(s, EvReconnectTimer(false))
  {
    hide PumpOk, Run, Initial, ProperRun;
    EveryRunPumps(h, autoReconnect, reconnects, events);
  }

  /** When the outbox of a live connection runs empty, everything put in line for it was accepted. */
  lemma {:induction false} Delivered(h: Header, autoReconnect: bool, reconnects: nat, events: seq<Event>)
    requires ProperRun(h, Initial(autoReconnect, reconnects), events)
    ensures var s := Run(h, Initial(autoReconnect, reconnects), events);
            !s.released && s.status == Ready && s.outbox == [] ==>
              At(s.wire, s.epoch) == Frames(h, At(s.queued, s.epoch)) && s.pendingSize == 0
  {
    hide Run, Initial, Frames, ProperRun;
    EveryRunPumps(h, autoReconnect, reconnects, events);
    var s := Run(h, Initial(autoReconnect, reconnects), events);
    assert Unsent(h, s) == [] || s.outbox != [];
    assert At(s.wire, s.epoch) + [] == At(s.wire, s.epoch);
  }

  /** A completion of an earlier epoch leaves all of the client's own state alone. */
  lemma StaleCompletion(h: Header, s: State, i: nat, ok: bool, k: nat)
    requires i < |s.inflight| && k <= |s.inflight[i].offered| && s.inflight[i].epoch != s.epoch
    ensures var t := WriteDone(h, s, i, ok, k);
            && t == s.(inflight := t.inflight, wire := t.wire)
            && forall e :: e != s.inflight[i].epoch ==> At(t.wire, e) == At(s.wire, e)
  {
  }

  /** What was in line for an earlier epoch is never changed afterwards. */
  lemma {:induction false} PastLinesFixed(h: Header, s: State, ev: Event, e: nat)
    requires Enabled(s, ev) && e < s.epoch
    ensures At(Step(h, s, ev).queued, e) == At(s.queued, e) && s.epoch <= Step(h, s, ev).epoch
  {
    hide DoWrite, Advance, Fail, Close, ConnectFailed, ErrorCallback;
    match ev
    case EvWrite(m) => DoWriteLines(h, Posted(s, m));
    case EvWriteDone(i, e, ok, k) =>
      AdvanceLines(h, Accept(s, i, k), k);
      FailLines(Accept(s, i, k));
    case EvConnected(e, ok) => ConnectedLines(h, s, e, ok);
    case EvResolved(e, ok) => ReconnectLines(LookupOver(s, e));
    case EvReconnectTimer(ok) => ReconnectLines(s.(dial := s.dial.(timers := s.dial.timers - 1)));
    case EvReadFailed(e, id) => FailLines(CallBack(s, id, ReadFailed));
    case EvDeadline => CloseLines(s, false);
    case EvReleaseTask => CloseLines(s, true);
    case _ => ReconnectLines(s);
  }

  lemma {:induction false} ConnectedLines(h: Header, s: State, x: nat, ok: bool)
    ensures var t := Connected(h, s, x, ok);
            s.epoch <= t.epoch && forall e: nat :: e < s.epoch ==> At(t.queued, e) == At(s.queued, e)
  {
    hide DoWrite, ConnectFailed;
    var t := HandshakeOver(s, x);
    DoWriteLines(h, NewConnection(t));
    ReconnectLines(t);
  }

  lemma DoWriteLines(h: Header, s: State)
    ensures DoWrite(h, s).queued == s.queued && DoWrite(h, s).epoch == s.epoch
  {
  }

  lemma {:induction false} AdvanceLines(h: Header, s: State, k: nat)
    ensures Advance(h, s, k).queued == s.queued && Advance(h, s, k).epoch == s.epoch
  {
    hide Consumed, Concat, FrameBuffers;
  }

  /** Same line for every epoch, and the epoch does not go back. */
  ghost predicate SameLines(s: State, t: State) {
    t.queued == s.queued && s.epoch <= t.epoch
  }

  lemma CloseLines(s: State, forced: bool)
    ensures SameLines(s, Close(s, forced))
  {
  }

  lemma ReconnectLines(s: State)
    ensures SameLines(s, ErrorCallback(s)) && SameLines(s, ConnectFailed(s))
  {
  }

  lemma {:induction false} FailLines(s: State)
    ensures SameLines(s, Fail(s))
  {
    hide Close, ErrorCallback;
    CloseLines(s, false);
    ReconnectLines(Close(s, false));
  }

  // The call table.

  /** The part of the state that belongs to calls. */
  ghost predicate SameCalls(s: State, t: State) {
    t.nextCallId == s.nextCallId && t.calls == s.calls && t.results == s.results
  }

  lemma DoWriteCalls(h: Header, s: State)
    ensures SameCalls(s, DoWrite(h, s))
  {
  }

  lemma {:induction false} AdvanceCalls(h: Header, s: State, k: nat)
    ensures SameCalls(s, Advance(h, s, k))
  {
    hide Consumed, Concat, FrameBuffers;
  }

  /** Calls may finish and leave the table: an outcome, once set, stays; what leaves is finished; only
      issued calls get an outcome. */
  ghost predicate CallsShrink(s: State, t: State) {
    && t.nextCallId == s.nextCallId && t.calls <= s.calls
    && (forall id :: id in s.results ==> id in t.results && t.results[id] == s.results[id])
    && (forall id :: id in s.calls && id !in t.calls ==> id in t.results)
    && (forall id :: id in t.results && id !in s.results ==> 1 <= id <= s.nextCallId)
  }

  lemma ShrinkTrans(s: State, t: State, u: State)
    requires CallsShrink(s, t) && CallsShrink(t, u)
    ensures CallsShrink(s, u)
  {
  }

  lemma CloseCalls(s: State, forced: bool)
    requires CallsOk(s)
    ensures CallsShrink(s, Close(s, forced))
    ensures s.status == Ready || forced ==> Close(s, forced).calls == {}
  {
  }

  lemma {:induction false} FailCalls(s: State)
    requires CallsOk(s)
    ensures CallsShrink(s, Fail(s))
  {
    hide Close, ErrorCallback;
    CloseCalls(s, false);
    ReconnectCalls(Close(s, false));
  }

  lemma ReconnectCalls(s: State)
    ensures SameCalls(s, AsyncReconnect(s)) && SameCalls(s, ErrorCallback(s)) && SameCalls(s, ConnectFailed(s))
  {
  }

  lemma {:induction false} CallBackCalls(s: State, id: nat, o: Outcome)
    requires CallsOk(s)
    ensures CallsShrink(s, CallBack(s, id, o))
  {
    if id in s.calls {
      var u := s.(calls := s.calls - {id});
      var t := Finish(u, id, o);
      assert t.calls == s.calls - {id} && 1 <= id <= s.nextCallId;
      assert forall other :: other in t.results <==> other in s.results || other == id;
    }
  }

  lemma {:induction false} ReadFailedCalls(s: State, id: nat)
    requires CallsOk(s)
    ensures CallsShrink(s, Fail(CallBack(s, id, ReadFailed)))
  {
    hide Fail, CallBack, CallsShrink, CallsOk;
    var u := CallBack(s, id, ReadFailed);
    CallBackCalls(s, id, ReadFailed);
    ShrinkOk(s, u);
    FailCalls(u);
    ShrinkTrans(s, u, Fail(u));
  }

  lemma {:induction false} WriteDoneCalls(h: Header, s: State, i: nat, ok: bool, k: nat)
    requires CallsOk(s) && i < |s.inflight| && k <= |s.inflight[i].offered|
    ensures CallsShrink(s, WriteDone(h, s, i, ok, k))
  {
    hide Advance, Fail;
    var t := Accept(s, i, k);
    AdvanceCalls(h, t, k);
    FailCalls(t);
  }

  lemma PostWriteCalls(h: Header, s: State, m: Message)
    ensures SameCalls(s, PostWrite(h, s, m))
  {
  }

  lemma {:induction false} ConnectedCalls(h: Header, s: State, e: nat, ok: bool)
    ensures SameCalls(s, Connected(h, s, e, ok))
  {
    hide DoWrite, ConnectFailed;
    var t := HandshakeOver(s, e);
    ReconnectCalls(t);
    DoWriteCalls(h, NewConnection(t));
  }

  lemma {:induction false} ConnectingCalls(h: Header, s: State, ev: Event)
    requires Enabled(s, ev)
    requires ev.EvConnectCall? || ev.EvAsyncConnectCall? || ev.EvConnect? || ev.EvReconnectTimer? || ev.EvResolved?
    ensures SameCalls(s, Step(h, s, ev))
  {
    hide ErrorCallback, ConnectFailed;
    match ev
    case EvReconnectTimer(ok) => ReconnectCalls(s.(dial := s.dial.(timers := s.dial.timers - 1)));
    case EvResolved(e, ok) => ReconnectCalls(LookupOver(s, e));
    case _ =>
  }

  /** Only a new call adds to the table, under the next id; every other step can only finish calls. */
  lemma {:induction false} StepCalls(h: Header, s: State, ev: Event)
    requires Enabled(s, ev) && CallsOk(s)
    ensures ev != EvNewCall ==> CallsShrink(s, Step(h, s, ev))
    ensures ev == EvNewCall ==> Step(h, s, ev) == NewCall(s)
  {
    hide PostWrite, WriteDone, Connected, Fail, Close, CallBack, Resolved, TimerDone, PostedConnect, ConnectCall;
    match ev
    case EvWrite(m) => PostWriteCalls(h, s, m);
    case EvWriteDone(i, e, ok, k) => WriteDoneCalls(h, s, i, ok, k);
    case EvConnectCall => ConnectingCalls(h, s, ev);
    case EvAsyncConnectCall => ConnectingCalls(h, s, ev);
    case EvConnect => ConnectingCalls(h, s, ev);
    case EvReconnectTimer(ok) => ConnectingCalls(h, s, ev);
    case EvResolved(e, ok) => ConnectingCalls(h, s, ev);
    case EvConnected(e, ok) => ConnectedCalls(h, s, e, ok);
    case EvReadFailed(e, id) => ReadFailedCalls(s, id);
    case EvResponse(e, id, data) => CallBackCalls(s, id, Reply(data));
    case EvDeadline => CloseCalls(s, false);
    case EvReleaseTask => CloseCalls(s, true);
    case _ =>
  }

  lemma ShrinkOk(s: State, t: State)
    requires CallsOk(s) && (CallsShrink(s, t) || t == NewCall(s))
    ensures CallsOk(t)
  {
  }

  lemma {:induction false} EveryRunCalls(h: Header, s: State, events: seq<Event>)
    requires CallsOk(s)
    ensures CallsOk(Run(h, s, events))
    ensures forall id :: id in s.results ==>
              id in Run(h, s, events).results && Run(h, s, events).results[id] == s.results[id]
    ensures forall id :: id <= s.nextCallId && id !in s.calls ==> id !in Run(h, s, events).calls
    ensures s.nextCallId <= Run(h, s, events).nextCallId
  {
    hide Step, CallsOk;
    if |events| > 0 {
      var before := events[..|events| - 1];
      EveryRunCalls(h, s, before);
      var t := Run(h, s, before);
      if Enabled(t, events[|events| - 1]) {
        StepCalls(h, t, events[|events| - 1]);
        ShrinkOk(t, Step(h, t, events[|events| - 1]));
      }
    }
  }

  /** Every call that was issued and has left the table has its outcome, in every run. */
  lemma {:induction false} IssuedOrFinished(h: Header, autoReconnect: bool, reconnects: nat, events: seq<Event>, id: nat)
    ensures var s := Run(h, Initial(autoReconnect, reconnects), events);
            1 <= id <= s.nextCallId ==> id in s.calls || id in s.results
  {
    hide Run;
    InitialOk(h, autoReconnect, reconnects);
    EveryRunCalls(h, Initial(autoReconnect, reconnects), events);
  }

  /** A response sets the outcome of the call with its id and of no other. */
  lemma ResponseOnlyOwn(h: Header, s: State, e: nat, id: nat, data: seq<byte>)
    requires Enabled(s, EvResponse(e, id, data))
    ensures var t := Step(h, s, EvResponse(e, id, data));
            && t == s.(calls := t.calls, results := t.results)
            && (forall other :: other != id ==>
                  (other in t.results <==> other in s.results) && (other in t.calls <==> other in s.calls))
            && (forall other :: other != id && other in s.results ==> t.results[other] == s.results[other])
            && (id in t.results && id !in s.results ==> t.results[id] == Reply(data))
  {
  }

  /** Once a call has left the table, by response, timeout or close, a late response is ignored for ever. */
  lemma {:induction false} LateResponse(h: Header, s: State, events: seq<Event>, e: nat, id: nat, data: seq<byte>)
    requires CallsOk(s) && 1 <= id <= s.nextCallId && id !in s.calls
    ensures var t := Run(h, s, events);
            && (Enabled(t, EvResponse(e, id, data)) ==> Step(h, t, EvResponse(e, id, data)) == t)
            && id in t.results && id in s.results && t.results[id] == s.results[id]
  {
    hide Run;
    EveryRunCalls(h, s, events);
  }

  /** A fresh call id was never in the table and never had an outcome. */
  lemma FreshId(s: State)
    requires CallsOk(s)
    ensures s.nextCallId + 1 !in s.calls && s.nextCallId + 1 !in s.results
    ensures s.nextCallId + 1 in NewCall(s).calls
  {
  }

  /** Closing leaves no call waiting. */
  lemma {:induction false} CloseFinishesAll(s: State, forced: bool, id: nat)
    requires CallsOk(s) && (s.status == Ready || forced) && 1 <= id <= s.nextCallId
    ensures id in Close(s, forced).results && Close(s, forced).outbox == [] && Close(s, forced).pendingSize == 0
  {
    CloseCalls(s, forced);
  }
}
