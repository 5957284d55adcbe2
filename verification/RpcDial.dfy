/** Connecting and reconnecting of the RPC client: which attempts can be under way at the same time. */
module RpcDial {
  import opened Bytes
  import opened RpcMachine

  /**
   * A connect that is about to run finds no reconnect waiting, and nothing to send on a live connection. This is the
   * one thing asked of users; everything else that can happen may happen.
   */
  predicate Proper(s: State, ev: Event) {
    ev == EvConnect ==> (s.status != Ready || s.outbox == []) && (s.released || s.dial.timers == 0)
  }

  /** Nothing of a later epoch is outstanding. */
  ghost predicate EpochsOk(s: State) {
    && (forall e :: e in s.dial.lookups ==> e <= s.epoch)
    && (forall e :: e in s.dial.handshakes ==> e <= s.epoch)
  }

  /** Until release at most one reconnect waits, and while it waits nothing else is under way. */
  ghost predicate DialOk(s: State) {
    && EpochsOk(s)
    && (!s.released && s.dial.timers > 0 ==>
          && s.dial.timers == 1 && s.status == WaitConnecting
          && s.epoch !in s.dial.lookups && s.epoch !in s.dial.handshakes)
  }

  lemma SameDial(s: State, t: State)
    requires DialOk(s) && t.dial == s.dial && t.epoch == s.epoch && t.status == s.status && t.released == s.released
    ensures DialOk(t)
  {
  }

  /** A new epoch has nothing outstanding. */
  lemma ReconnectDial(s: State)
    requires DialOk(s)
    ensures DialOk(AsyncReconnect(s)) && DialOk(ErrorCallback(s))
  {
  }

  lemma CloseDial(s: State, forced: bool)
    requires DialOk(s) && (forced ==> s.released)
    ensures DialOk(Close(s, forced))
  {
  }

  lemma {:induction false} FailDial(s: State)
    requires DialOk(s)
    ensures DialOk(Fail(s))
  {
    hide DialOk, Close, ErrorCallback;
    CloseDial(s, false);
    ReconnectDial(Close(s, false));
  }

  lemma {:induction false} FailedDial(s: State)
    requires DialOk(s) && (!s.released ==> s.dial.timers == 0)
    ensures DialOk(ConnectFailed(s))
  {
    var t := s.(status := Closed);
    assert DialOk(t);
    if s.reconnects > 0 {
      var u := t.(reconnects := s.reconnects - 1);
      SameDial(t, u);
      hide DialOk;
      ReconnectDial(u);
    }
  }

  lemma {:induction false} ResolvedDial(s: State, e: nat, ok: bool)
    requires DialOk(s) && e in s.dial.lookups
    ensures DialOk(Resolved(s, e, ok))
  {
    hide ConnectFailed;
    var t := LookupOver(s, e);
    assert DialOk(t);
    if !t.released && e == t.epoch {
      FailedDial(t);
    }
  }

  lemma DoWriteDial(h: Header, s: State)
    ensures DoWrite(h, s).dial == s.dial && DoWrite(h, s).epoch == s.epoch && DoWrite(h, s).status == s.status
    ensures DoWrite(h, s).released == s.released
  {
  }

  lemma {:induction false} ConnectedDial(h: Header, s: State, e: nat, ok: bool)
    requires DialOk(s) && e in s.dial.handshakes
    ensures DialOk(Connected(h, s, e, ok))
  {
    hide ConnectFailed, DoWrite;
    var t := HandshakeOver(s, e);
    assert DialOk(t);
    if !t.released && e == t.epoch {
      FailedDial(t);
      DoWriteDial(h, NewConnection(t));
    }
  }

  lemma {:induction false} AdvanceDial(h: Header, s: State, k: nat)
    ensures Advance(h, s, k).dial == s.dial && Advance(h, s, k).epoch == s.epoch
    ensures Advance(h, s, k).status == s.status && Advance(h, s, k).released == s.released
  {
    hide Consumed, DoWrite;
    if s.outbox != [] {
      var b := Consumed(s.buffers, k);
      DoWriteDial(h, s.(buffers := b));
      DoWriteDial(h, s.(buffers := b, outbox := s.outbox[1..], pendingSize := s.pendingSize - |s.outbox[0].content|));
    }
  }

  lemma {:induction false} WriteDoneDial(h: Header, s: State, i: nat, ok: bool, k: nat)
    requires DialOk(s) && i < |s.inflight| && k <= |s.inflight[i].offered|
    ensures DialOk(WriteDone(h, s, i, ok, k))
  {
    hide DialOk, Advance, Fail;
    var t := Accept(s, i, k);
    SameDial(s, t);
    FailDial(t);
    AdvanceDial(h, t, k);
    SameDial(t, Advance(h, t, k));
  }

  lemma {:induction false} PostWriteDial(h: Header, s: State, m: Message)
    requires DialOk(s)
    ensures DialOk(PostWrite(h, s, m))
  {
    hide DialOk, Concat, FrameBuffers;
    SameDial(s, PostWrite(h, s, m));
  }

  lemma {:induction false} CallBackDial(s: State, id: nat, o: Outcome)
    requires DialOk(s)
    ensures DialOk(CallBack(s, id, o))
  {
    hide DialOk;
    SameDial(s, CallBack(s, id, o));
  }

  /** The steps of connecting itself. */
  lemma {:induction false} ConnectingDial(h: Header, s: State, ev: Event)
    requires DialOk(s) && Enabled(s, ev) && Proper(s, ev)
    requires ev.EvConnectCall? || ev.EvAsyncConnectCall? || ev.EvConnect? || ev.EvReconnectTimer? || ev.EvRelease?
    ensures DialOk(Step(h, s, ev))
  {
    hide AsyncReconnect;
    if ev.EvReconnectTimer? && !s.released {
      var t := s.(dial := s.dial.(timers := s.dial.timers - 1));
      assert DialOk(t);
      ReconnectDial(t);
    }
  }

  /** The steps of the call table leave connecting alone. */
  lemma {:induction false} TableDial(h: Header, s: State, ev: Event)
    requires DialOk(s) && Enabled(s, ev)
    requires ev.EvNewCall? || ev.EvOversize? || ev.EvCallTimeout?
    ensures DialOk(Step(h, s, ev))
  {
    hide DialOk;
    SameDial(s, Step(h, s, ev));
  }

  /** Every step keeps it, as long as connects run where they may. */
  lemma {:induction false} StepDial(h: Header, s: State, ev: Event)
    requires DialOk(s) && Enabled(s, ev) && Proper(s, ev)
    ensures DialOk(Step(h, s, ev))
  {
    hide DialOk, PostWrite, WriteDone, Connected, Fail, Close, Resolved, CallBack, PostedConnect, TimerDone;
    match ev
    case EvWrite(m) => PostWriteDial(h, s, m);
    case EvWriteDone(i, e, ok, k) => WriteDoneDial(h, s, i, ok, k);
    case EvResolved(e, ok) => ResolvedDial(s, e, ok);
    case EvConnected(e, ok) => ConnectedDial(h, s, e, ok);
    case EvReadFailed(e, id) =>
      CallBackDial(s, id, ReadFailed);
      FailDial(CallBack(s, id, ReadFailed));
    case EvResponse(e, id, data) => CallBackDial(s, id, Reply(data));
    case EvDeadline => CloseDial(s, false);
    case EvReleaseTask => CloseDial(s, true);
    case EvNewCall => TableDial(h, s, ev);
    case EvOversize(id) => TableDial(h, s, ev);
    case EvCallTimeout(id) => TableDial(h, s, ev);
    case _ => ConnectingDial(h, s, ev);
  }

  lemma InitialDial(autoReconnect: bool, reconnects: nat)
    ensures DialOk(Initial(autoReconnect, reconnects))
  {
  }
}
