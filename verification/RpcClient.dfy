/**
 The RPC client as an object whose handlers update its fields, proved to take the steps of RpcMachine. Write
 buffers are slices of the frame header buffer and of the message at the front of the outbox.
 */
module RpcClient {
  import opened Bytes
  import opened Slices
  import opened RpcMachine
  import opened RpcSafety
  import opened RpcDial
  import opened RpcRuns
  import opened RpcConnect

  /** Promises after the calls in ids that had none were broken. */
  ghost function BrokenOver(ids: set<nat>, promises: map<nat, Outcome>): map<nat, Outcome> {
    (map id | id in ids :: BrokenPipe) + promises
  }

  lemma BrokenNone(promises: map<nat, Outcome>)
    ensures BrokenOver({}, promises) == promises
  {
  }

  lemma BrokenMore(ids: set<nat>, id: nat, promises: map<nat, Outcome>)
    ensures var so := BrokenOver(ids, promises);
            BrokenOver(ids + {id}, promises) == if id in so then so else so[id := BrokenPipe]
  {
  }

  function FrontFrame(head: Head, outbox: seq<Message>): seq<byte> {
    if |outbox| == 0 then head else head + outbox[0].content
  }

  /** The slices of a fresh frame: the header, and the content if there is any. */
  function FrameSlices(m: Message): seq<Slice> {
    if |m.content| == 0 then [Slice(0, HEAD_LEN)] else [Slice(0, HEAD_LEN), Slice(HEAD_LEN, HEAD_LEN + |m.content|)]
  }

  lemma {:induction false} FrameCuts(h: Header, m: Message, outbox: seq<Message>)
    requires |outbox| > 0 && outbox[0] == m
    ensures Cuts(FrontFrame(h(m), outbox), FrameSlices(m)) == FrameBuffers(h, m)
    ensures AllWithin(FrameSlices(m), FrontFrame(h(m), outbox))
  {
    var frame := FrontFrame(h(m), outbox);
    assert frame[0..HEAD_LEN] == h(m);
    assert frame[HEAD_LEN..HEAD_LEN + |m.content|] == m.content;
    assert FrameSlices(m)[1..] == if |m.content| == 0 then [] else [Slice(HEAD_LEN, HEAD_LEN + |m.content|)];
    assert [Slice(HEAD_LEN, HEAD_LEN + |m.content|)][1..] == [];
  }

  class Client {
    const header: Header
    var released: bool
    var connectionStatus: Status
    var connectionEpoch: nat
    var outbox: seq<Message>
    var writeHead: Head
    var writeBuffers: seq<Slice>
    var pendingSize: int
    var enableReconnect: bool
    var reconnectCnt: nat
    var nextCallId: nat
    var callTable: set<nat>
    var promises: map<nat, Outcome>
    // The environment: attempts to connect, writes in the hands of sockets, bytes accepted, messages in line.
    ghost var dial: Dial
    ghost var inflight: seq<Write>
    ghost var wire: map<nat, seq<byte>>
    ghost var queued: map<nat, seq<Message>>

    /** Buffers point into the header buffer and the message at the front. */
    ghost predicate Valid()
      reads this
    {
      (|writeBuffers| > 0 ==> |outbox| > 0) && AllWithin(writeBuffers, FrontFrame(writeHead, outbox))
    }

    ghost function View(): State
      reads this
    {
      State(released, connectionStatus, connectionEpoch, outbox, Cuts(FrontFrame(writeHead, outbox), writeBuffers),
            pendingSize, enableReconnect, reconnectCnt, nextCallId, callTable, promises, dial, inflight, wire, queued)
    }

    constructor (header: Header, enableReconnect: bool, reconnectCnt: nat)
      ensures Valid() && this.header == header && View() == Initial(enableReconnect, reconnectCnt)
    {
      this.header := header;
      this.enableReconnect := enableReconnect;
      this.reconnectCnt := reconnectCnt;
      released, connectionStatus, connectionEpoch := false, Closed, 0;
      outbox, writeHead, writeBuffers, pendingSize := [], seq(HEAD_LEN, _ => 0), [], 0;
      nextCallId, callTable, promises := 0, {}, map[];
      dial, inflight, wire, queued := Dial(0, 0, multiset{}, multiset{}), [], map[], map[];
    }

    method DoWrite()
      requires Valid()
      modifies this`writeHead, this`writeBuffers, this`inflight
      ensures Valid() && View() == RpcMachine.DoWrite(header, old(View()))
    {
      hide Cuts, AllWithin, Concat, FrontFrame, FrameSlices;
      if |outbox| == 0 || connectionStatus != Ready {
        return;
      }
      if |writeBuffers| == 0 {
        BuildFrame();
      }
      inflight := inflight + [Write(connectionEpoch, Concat(Cuts(FrontFrame(writeHead, outbox), writeBuffers)))];
    }

    /** Serializes the header of the front message over the old one and points at header and content. */
    method BuildFrame()
      requires |outbox| > 0 && |writeBuffers| == 0
      modifies this`writeHead, this`writeBuffers
      ensures Valid() && View() == old(View()).(buffers := FrameBuffers(header, outbox[0]))
    {
      hide Cuts, AllWithin, FrontFrame, FrameBuffers;
      var msg := outbox[0];
      FrameCuts(header, msg, outbox);
      writeHead := header(msg);
      writeBuffers := [Slice(0, HEAD_LEN)];
      if |msg.content| > 0 {
        writeBuffers := writeBuffers + [Slice(HEAD_LEN, HEAD_LEN + |msg.content|)];
      }
      assert writeBuffers == FrameSlices(msg);
    }

    /** The handler posted by write(). */
    method PostedWrite(m: Message)
      requires Valid()
      modifies this
      ensures Valid() && View() == PostWrite(header, old(View()), m)
    {
      hide RpcMachine.DoWrite, Cuts, AllWithin;
      if released {
        return;
      }
      PushMessage(m);
      if |outbox| > 1 {
        return;
      }
      DoWrite();
    }

    method PushMessage(m: Message)
      requires Valid()
      modifies this`outbox, this`pendingSize, this`queued
      ensures Valid() && |outbox| == old(|outbox|) + 1
      ensures View() == Posted(old(View()), m)
    {
      hide Cuts, AllWithin;
      if |outbox| == 0 {
        NoCuts(FrontFrame(writeHead, outbox));
        NoCuts(FrontFrame(writeHead, [m]));
      }
      outbox := outbox + [m];
      pendingSize := pendingSize + |m.content|;
      if connectionStatus == Ready {
        queued := queued[connectionEpoch := At(queued, connectionEpoch) + [m]];
      }
    }

    method SetPromise(id: nat, o: Outcome)
      modifies this`promises
      ensures View() == Finish(old(View()), id, o)
    {
      hide Cuts, FrontFrame;
      if id in promises {
        return;
      }
      promises := promises[id := o];
    }

    /** Drops everything queued and finishes every call in the table. */
    method ClearCache()
      modifies this`outbox, this`writeBuffers, this`pendingSize, this`callTable, this`promises
      ensures Valid() && View() == RpcMachine.ClearCache(old(View()))
    {
      hide Cuts, AllWithin;
      while |outbox| > 0
        invariant callTable == old(callTable) && promises == old(promises)
        decreases |outbox|
      {
        outbox := outbox[1..];
      }
      pendingSize := 0;
      writeBuffers := [];
      NoCuts(FrontFrame(writeHead, outbox));
      var tmp := callTable;
      callTable := {};
      FinishAll(tmp);
    }

    method FinishAll(ids: set<nat>)
      modifies this`promises
      ensures promises == BrokenOver(ids, old(promises))
    {
      hide BrokenOver;
      var left := ids;
      BrokenNone(promises);
      assert ids - left == {};
      while left != {}
        invariant left <= ids
        invariant promises == BrokenOver(ids - left, old(promises))
        decreases |left|
      {
        var id :| id in left;
        BrokenMore(ids - left, id, old(promises));
        SetPromise(id, BrokenPipe);
        assert ids - left + {id} == ids - (left - {id});
        left := left - {id};
      }
      assert ids - left == ids;
    }

    method Close(forced: bool)
      requires Valid()
      modifies this
      ensures Valid() && View() == RpcMachine.Close(old(View()), forced)
    {
      hide Cuts, AllWithin, FrontFrame, RpcMachine.ClearCache;
      if connectionStatus != Ready && !forced {
        return;
      }
      connectionStatus := Closed;
      connectionEpoch := connectionEpoch + 1;
      ClearCache();
    }

    method AsyncReconnect()
      modifies this`connectionEpoch, this`connectionStatus, this`dial
      ensures View() == RpcMachine.AsyncReconnect(old(View()))
    {
      hide Cuts, FrontFrame;
      if released || connectionStatus != Closed {
        return;
      }
      connectionEpoch := connectionEpoch + 1;
      connectionStatus := WaitConnecting;
      dial := dial.(timers := dial.timers + 1);
    }

    method ErrorCallback()
      modifies this`connectionEpoch, this`connectionStatus, this`dial
      ensures View() == RpcMachine.ErrorCallback(old(View()))
    {
      hide Cuts, FrontFrame, RpcMachine.AsyncReconnect;
      if enableReconnect {
        AsyncReconnect();
      }
    }

    method OnFailure()
      requires Valid()
      modifies this
      ensures Valid() && View() == Fail(old(View()))
    {
      hide Cuts, AllWithin, FrontFrame, RpcMachine.Close, RpcMachine.ErrorCallback;
      Close(false);
      ErrorCallback();
    }

    /** Completion handler of a write issued in the given epoch. */
    method WriteCompletion(ghost i: nat, epoch: nat, ok: bool, length: nat)
      requires Valid() && i < |inflight| && inflight[i].epoch == epoch && length <= |inflight[i].offered|
      modifies this
      ensures Valid() && View() == WriteDone(header, old(View()), i, ok, length)
    {
      hide Cuts, AllWithin, FrontFrame, Advance, Fail;
      FreeWrite(i, length);
      if released || epoch != connectionEpoch {
        return;
      }
      if !ok {
        OnFailure();
        return;
      }
      OnWritten(length);
    }

    /** The write is over; the record of what the socket of its epoch took grows. */
    ghost method FreeWrite(i: nat, length: nat)
      requires Valid() && i < |inflight| && length <= |inflight[i].offered|
      modifies this`inflight, this`wire
      ensures Valid() && View() == Accept(old(View()), i, length)
    {
      hide Cuts, AllWithin, FrontFrame;
      var w := inflight[i];
      inflight := inflight[..i] + inflight[i + 1..];
      wire := wire[w.epoch := At(wire, w.epoch) + w.offered[..length]];
    }

    /** The socket took length more bytes of the front message. */
    method OnWritten(length: nat)
      requires Valid()
      modifies this
      ensures Valid() && View() == Advance(header, old(View()), length)
    {
      hide Cuts, AllWithin, FrontFrame, Consumed, Concat, RpcMachine.DoWrite;
      if |outbox| == 0 {
        return;
      }
      writeBuffers := ConsumeSlices(FrontFrame(writeHead, outbox), writeBuffers, length);
      if |writeBuffers| > 0 {
        DoWrite();
        return;
      }
      PopFront();
      if |outbox| > 0 {
        DoWrite();
      }
    }

    method PopFront()
      requires |outbox| > 0 && |writeBuffers| == 0
      modifies this`outbox, this`pendingSize
      ensures Valid() && |outbox| == old(|outbox|) - 1
      ensures View() == old(View()).(outbox := old(outbox)[1..], pendingSize := old(pendingSize) - |old(outbox)[0].content|)
      ensures View().buffers == []
    {
      hide Cuts, AllWithin;
      NoCuts(FrontFrame(writeHead, outbox));
      pendingSize := pendingSize - |outbox[0].content|;
      outbox := outbox[1..];
      NoCuts(FrontFrame(writeHead, outbox));
    }

    /** connect() as the user calls it. */
    method Connect()
      modifies this`connectionStatus, this`dial
      ensures View() == ConnectCall(old(View()))
    {
      hide Cuts, FrontFrame;
      if connectionStatus == Ready {
        return;
      }
      connectionStatus := WaitConnecting;
      dial := dial.(posted := dial.posted + 1);
    }

    method DoAsyncConnect()
      modifies this`connectionStatus, this`dial
      ensures View() == StartConnect(old(View()))
    {
      hide Cuts, FrontFrame;
      connectionStatus := DnsResolving;
      dial := dial.(lookups := dial.lookups + multiset{connectionEpoch});
    }

    method OnReconnectTimer(ok: bool)
      requires dial.timers > 0
      modifies this`connectionStatus, this`connectionEpoch, this`dial
      ensures View() == TimerDone(old(View()), ok)
    {
      hide Cuts, FrontFrame, StartConnect, RpcMachine.ErrorCallback;
      dial := dial.(timers := dial.timers - 1);
      if released {
        return;
      }
      if ok {
        DoAsyncConnect();
      } else {
        ErrorCallback();
      }
    }

    /** What to do about a failed connect; true if the attempt goes on. */
    method ConnectGoesOn(ok: bool) returns (goOn: bool)
      modifies this`connectionStatus, this`connectionEpoch, this`reconnectCnt, this`dial
      ensures goOn == (ok && !old(released) && old(connectionStatus) != Ready)
      ensures View() == if ok || old(released) || old(connectionStatus) == Ready then old(View())
                        else ConnectFailed(old(View()))
    {
      hide Cuts, FrontFrame, RpcMachine.AsyncReconnect;
      if connectionStatus == Ready || released {
        return false;
      }
      if ok {
        return true;
      }
      if reconnectCnt == 0 {
        connectionStatus := Closed;
        return false;
      }
      reconnectCnt := reconnectCnt - 1;
      connectionStatus := Closed;
      AsyncReconnect();
      return false;
    }

    method OnResolved(epoch: nat, ok: bool)
      modifies this`connectionStatus, this`connectionEpoch, this`reconnectCnt, this`dial
      ensures View() == Resolved(old(View()), epoch, ok)
    {
      hide Cuts, FrontFrame, ConnectFailed;
      dial := dial.(lookups := dial.lookups - multiset{epoch});
      assert View() == LookupOver(old(View()), epoch);
      if released || epoch != connectionEpoch {
        return;
      }
      var goOn := ConnectGoesOn(ok);
      if goOn {
        connectionStatus := TcpHandshaking;
        dial := dial.(handshakes := dial.handshakes + multiset{epoch});
      }
    }

    method OnConnected(epoch: nat, ok: bool)
      requires Valid()
      modifies this
      ensures Valid() && View() == Connected(header, old(View()), epoch, ok)
    {
      hide Cuts, AllWithin, FrontFrame, ConnectFailed, BecomeReady;
      dial := dial.(handshakes := dial.handshakes - multiset{epoch});
      assert View() == HandshakeOver(old(View()), epoch);
      if released || epoch != connectionEpoch {
        return;
      }
      var goOn := ConnectGoesOn(ok);
      if goOn {
        ProtocolReady();
      }
    }

    method ProtocolReady()
      requires Valid()
      modifies this
      ensures Valid() && View() == BecomeReady(header, old(View()))
    {
      hide Cuts, AllWithin, FrontFrame, RpcMachine.DoWrite;
      connectionStatus := Ready;
      queued, wire := queued[connectionEpoch := outbox], wire[connectionEpoch := []];
      DoWrite();
    }

    method CallBack(id: nat, o: Outcome)
      modifies this`callTable, this`promises
      ensures View() == RpcMachine.CallBack(old(View()), id, o)
    {
      hide Cuts, FrontFrame;
      if id !in callTable {
        return;
      }
      callTable := callTable - {id};
      SetPromise(id, o);
    }

    method EmplaceNewCall() returns (id: nat)
      modifies this`nextCallId, this`callTable
      ensures View() == NewCall(old(View())) && id == nextCallId == old(nextCallId) + 1
    {
      hide Cuts, FrontFrame;
      nextCallId := nextCallId + 1;
      id := nextCallId;
      callTable := callTable + {id};
    }

    method OnCallTimeout(id: nat)
      modifies this`callTable, this`promises
      ensures View() == CallTimeout(old(View()), id)
    {
      hide Cuts, FrontFrame;
      if released {
        return;
      }
      SetPromise(id, Timeout);
      callTable := callTable - {id};
    }

    /** Handlers of connecting. */
    method HandleConnecting(ev: Event)
      requires Valid() && Enabled(View(), ev)
      requires ev.EvConnectCall? || ev.EvAsyncConnectCall? || ev.EvConnect? || ev.EvReconnectTimer?
      modifies this
      ensures Valid() && View() == Step(header, old(View()), ev)
    {
      hide Cuts, AllWithin, FrontFrame, StartConnect, TimerDone, ConnectCall;
      if ev.EvConnectCall? {
        Connect();
      } else if ev.EvAsyncConnectCall? {
        dial := dial.(posted := dial.posted + 1);
      } else if ev.EvConnect? {
        dial := dial.(posted := dial.posted - 1);
        DoAsyncConnect();
      } else {
        OnReconnectTimer(ev.ok);
      }
    }

    /** Runs the handler that belongs to an event. */
    method Handle(ev: Event)
      requires Valid() && Enabled(View(), ev)
      modifies this
      ensures Valid() && View() == Step(header, old(View()), ev)
    {
      hide Cuts, AllWithin, FrontFrame, PostWrite, WriteDone, Resolved, Connected, Fail, RpcMachine.Close, Finish,
           RpcMachine.CallBack, CallTimeout, PostedConnect, TimerDone, ConnectCall;
      match ev
      case EvWrite(m) => PostedWrite(m);
      case EvWriteDone(i, e, ok, k) => WriteCompletion(i, e, ok, k);
      case EvConnectCall => HandleConnecting(ev);
      case EvAsyncConnectCall => HandleConnecting(ev);
      case EvConnect => HandleConnecting(ev);
      case EvReconnectTimer(ok) => HandleConnecting(ev);
      case EvResolved(e, ok) => OnResolved(e, ok);
      case EvConnected(e, ok) => OnConnected(e, ok);
      case EvReadFailed(e, id) =>
        if !released && e == connectionEpoch {
          CallBack(id, ReadFailed);
          OnFailure();
        }
      case EvResponse(e, id, data) =>
        if !released && e == connectionEpoch {
          CallBack(id, Reply(data));
        }
      case EvDeadline =>
        if !released {
          Close(false);
        }
      case EvRelease => released := true;
      case EvReleaseTask => Close(true);
      case EvNewCall => var _ := EmplaceNewCall();
      case EvOversize(id) => SetPromise(id, BadRequest);
      case EvCallTimeout(id) => OnCallTimeout(id);
    }

    /** Any sequence of events that can happen. */
    method Serve(events: seq<Event>)
      requires Valid()
      requires forall i :: 0 <= i < |events| ==>
                 Enabled(RpcMachine.Run(header, View(), events[..i]), events[i])
      modifies this
      ensures Valid() && View() == RpcMachine.Run(header, old(View()), events)
    {
      hide Step, Enabled, Cuts, AllWithin, FrontFrame;
      var i := 0;
      while i < |events|
        invariant 0 <= i <= |events| && Valid()
        invariant View() == RpcMachine.Run(header, old(View()), events[..i])
      {
        assert events[..i + 1][..i] == events[..i];
        Handle(events[i]);
        i := i + 1;
      }
      assert events[..i] == events;
    }
  }

  /** A client in which every connect runs where it may keeps all that is stated about the machine. */
  method DriveClient(header: Header, enableReconnect: bool, reconnectCnt: nat, events: seq<Event>)
    returns (client: Client)
    requires forall i :: 0 <= i < |events| ==>
               Enabled(Run(header, Initial(enableReconnect, reconnectCnt), events[..i]), events[i])
    requires ProperRun(header, Initial(enableReconnect, reconnectCnt), events)
    ensures client.header == header && PumpOk(header, client.View()) && DialOk(client.View()) && CallsOk(client.View())
  {
    hide Step, Enabled, Run, PumpOk, DialOk, CallsOk, Initial, ProperRun;
    client := new Client(header, enableReconnect, reconnectCnt);
    client.Serve(events);
    InitialOk(header, enableReconnect, reconnectCnt);
    EveryRunPumps(header, enableReconnect, reconnectCnt, events);
    EveryRunCalls(header, Initial(enableReconnect, reconnectCnt), events);
  }
}
