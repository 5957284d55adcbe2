/** What every run of RpcMachine keeps. */
module RpcSafety {
  import opened Bytes
  import opened RpcMachine

  /** Bytes of the front message that still have to go out. */
  ghost function FrontRest(h: Header, s: State): seq<byte>
    requires s.outbox != []
  {
    if s.buffers == [] then Frame(h, s.outbox[0]) else Concat(s.buffers)
  }

  /** Bytes of the current line that the socket has not accepted. */
  ghost function Unsent(h: Header, s: State): seq<byte> {
    if s.outbox == [] then [] else FrontRest(h, s) + Frames(h, s.outbox[1..])
  }

  /** No two outstanding writes share an epoch, and none is from the future. */
  ghost predicate OneWriteEach(s: State) {
    && (forall i, j :: 0 <= i < j < |s.inflight| ==> s.inflight[i].epoch != s.inflight[j].epoch)
    && (forall i :: 0 <= i < |s.inflight| ==> s.inflight[i].epoch <= s.epoch)
  }

  ghost predicate Writing(s: State) {
    exists i :: 0 <= i < |s.inflight| && s.inflight[i].epoch == s.epoch
  }

  /** A write is outstanding on the current connection exactly when there is something to send. */
  ghost predicate Pumping(s: State) {
    && (Writing(s) ==> s.status == Ready && s.outbox != [])
    && (!s.released && s.status == Ready && s.outbox != [] ==> Writing(s))
  }

  /** The buffers hold the unsent end of the front frame and are what the outstanding write offers. */
  ghost predicate BuffersOk(s: State) {
    && NonEmpty(s.buffers)
    && (s.status != Ready || s.outbox == [] ==> s.buffers == [])
    && (s.status == Ready && s.outbox != [] ==> s.buffers != [])
    && (forall i :: 0 <= i < |s.inflight| && s.inflight[i].epoch == s.epoch ==>
          s.inflight[i].offered == Concat(s.buffers))
  }

  /** On every connection ever made, the bytes accepted are a prefix of the frames in line for it, and so
      they remain when an outstanding write completes. */
  ghost predicate WirePrefix(h: Header, s: State) {
    && (forall e :: At(s.wire, e) <= Frames(h, At(s.queued, e)))
    && (forall i :: 0 <= i < |s.inflight| ==>
          At(s.wire, s.inflight[i].epoch) + s.inflight[i].offered <=
          Frames(h, At(s.queued, s.inflight[i].epoch)))
  }

  /** Nothing is lost or doubled on the current connection: what was accepted and what is unsent make up
      the frames in line. Later epochs have accepted nothing. */
  ghost predicate Conserved(h: Header, s: State) {
    && (!s.released && s.status == Ready ==>
          At(s.wire, s.epoch) + Unsent(h, s) == Frames(h, At(s.queued, s.epoch)))
    && (forall e :: e > s.epoch ==> At(s.wire, e) == [])
  }

  ghost predicate SizesOk(s: State) {
    s.pendingSize == Sizes(s.outbox)
  }

  /** Ids are handed out once; a call that is no longer in the table is finished. */
  ghost predicate CallsOk(s: State) {
    && (forall id :: id in s.calls ==> 1 <= id <= s.nextCallId)
    && (forall id :: id in s.results ==> 1 <= id <= s.nextCallId)
    && (forall id :: 1 <= id <= s.nextCallId && id !in s.calls ==> id in s.results)
  }

  ghost predicate PumpOk(h: Header, s: State) {
    OneWriteEach(s) && Pumping(s) && BuffersOk(s) && WirePrefix(h, s) && Conserved(h, s) && SizesOk(s)
  }

  // Frames.

  lemma {:induction false} FramesAppend(h: Header, ms: seq<Message>, m: Message)
    ensures Frames(h, ms + [m]) == Frames(h, ms) + Frame(h, m)
  {
    hide Frame;
    if |ms| == 0 {
      assert (ms + [m])[1..] == [];
    } else {
      assert (ms + [m])[1..] == ms[1..] + [m];
      FramesAppend(h, ms[1..], m);
    }
  }

  lemma {:induction false} FrameBuffersOk(h: Header, m: Message)
    ensures NonEmpty(FrameBuffers(h, m)) && FrameBuffers(h, m) != []
    ensures Concat(FrameBuffers(h, m)) == Frame(h, m)
  {
    ConcatOne(m.content);
    ConcatOne(h(m));
    assert [h(m), m.content][1..] == [m.content];
  }

  lemma {:induction false} SizesAppend(ms: seq<Message>, m: Message)
    ensures Sizes(ms + [m]) == Sizes(ms) + |m.content|
  {
    if |ms| == 0 {
      assert (ms + [m])[1..] == [];
    } else {
      assert (ms + [m])[1..] == ms[1..] + [m];
      SizesAppend(ms[1..], m);
    }
  }

  // do_write.

  /** A handler is about to call do_write: no write is outstanding on the current connection. */
  ghost predicate Idle(h: Header, s: State) {
    && OneWriteEach(s) && !Writing(s) && WirePrefix(h, s) && Conserved(h, s) && SizesOk(s)
    && NonEmpty(s.buffers)
    && (s.status != Ready || s.outbox == [] ==> s.buffers == [])
    && !s.released
  }

  lemma {:induction false} DoWriteOk(h: Header, s: State)
    requires Idle(h, s)
    ensures PumpOk(h, DoWrite(h, s))
  {
    hide Frames, Concat;
    if s.outbox != [] && s.status == Ready {
      var t := DoWrite(h, s);
      FrameBuffersOk(h, s.outbox[0]);
      DoWriteWire(h, s, t);
      assert t.inflight[|s.inflight|].epoch == t.epoch;
      assert Unsent(h, t) == Unsent(h, s);
      NewWriteAlone(s, t);
    }
  }

  lemma {:induction false} NewWriteAlone(s: State, t: State)
    requires OneWriteEach(s) && !Writing(s)
    requires |t.inflight| == |s.inflight| + 1 && t.inflight[..|s.inflight|] == s.inflight
    requires t.inflight[|s.inflight|].epoch == s.epoch == t.epoch
    ensures OneWriteEach(t)
    ensures forall i :: 0 <= i < |t.inflight| && t.inflight[i].epoch == t.epoch ==> i == |s.inflight|
  {
    forall i | 0 <= i < |s.inflight|
      ensures t.inflight[i] == s.inflight[i] && t.inflight[i].epoch < s.epoch
    {
      assert t.inflight[..|s.inflight|][i] == s.inflight[i];
    }
  }

  lemma {:induction false} DoWriteWire(h: Header, s: State, t: State)
    requires Idle(h, s) && s.outbox != [] && s.status == Ready && t == DoWrite(h, s)
    ensures WirePrefix(h, t)
  {
    hide Frames, Concat, Frame;
    FrameBuffersOk(h, s.outbox[0]);
    var w := t.inflight[|s.inflight|];
    assert w.offered == FrontRest(h, s);
    var line := Frames(h, At(s.queued, s.epoch));
    assert At(s.wire, s.epoch) + w.offered + Frames(h, s.outbox[1..]) == line;
    forall i | 0 <= i < |t.inflight|
      ensures At(t.wire, t.inflight[i].epoch) + t.inflight[i].offered <= Frames(h, At(t.queued, t.inflight[i].epoch))
    {
      if i < |s.inflight| {
        assert t.inflight[i] == s.inflight[i];
      }
    }
  }

  // Steps that touch the pump little.

  /** Everything the pump invariant looks at. */
  ghost predicate SamePump(s: State, t: State) {
    && t.released == s.released && t.status == s.status && t.epoch == s.epoch
    && t.outbox == s.outbox && t.buffers == s.buffers && t.pendingSize == s.pendingSize
    && t.inflight == s.inflight && t.wire == s.wire && t.queued == s.queued
  }

  lemma SamePumpOk(h: Header, s: State, t: State)
    requires PumpOk(h, s) && SamePump(s, t)
    ensures PumpOk(h, t)
  {
  }

  lemma StatusOk(h: Header, s: State, status: Status)
    requires PumpOk(h, s) && (s.status != Ready || s.outbox == []) && status != Ready
    ensures PumpOk(h, s.(status := status))
  {
  }

  lemma ReleaseOk(h: Header, s: State)
    requires PumpOk(h, s)
    ensures PumpOk(h, s.(released := true))
  {
  }

  /** What a connection that is given up leaves behind. */
  ghost predicate PastOk(h: Header, s: State) {
    OneWriteEach(s) && WirePrefix(h, s) && forall e :: e > s.epoch ==> At(s.wire, e) == []
  }

  /** A fresh epoch that is not connected: old writes stay outstanding but are stale. */
  lemma {:induction false} NewEpochOk(h: Header, s: State, t: State)
    requires PastOk(h, s) && t.epoch > s.epoch && t.status != Ready && t.buffers == [] && SizesOk(t)
    requires t.inflight == s.inflight && t.wire == s.wire && t.queued == s.queued
    ensures PumpOk(h, t)
  {
    hide Frames;
  }

  lemma {:induction false} CloseOk(h: Header, s: State, forced: bool)
    requires PastOk(h, s) && (s.status != Ready && !forced ==> PumpOk(h, s))
    ensures PumpOk(h, Close(s, forced))
  {
    hide PumpOk, PastOk;
    if s.status == Ready || forced {
      NewEpochOk(h, s, Close(s, forced));
    }
  }

  lemma PumpPast(h: Header, s: State)
    requires PumpOk(h, s)
    ensures PastOk(h, s)
  {
  }

  lemma {:induction false} ReconnectOk(h: Header, s: State)
    requires PumpOk(h, s)
    ensures PumpOk(h, AsyncReconnect(s)) && PumpOk(h, ErrorCallback(s))
  {
    if !s.released && s.status == Closed {
      PumpPast(h, s);
      NewEpochOk(h, s, AsyncReconnect(s));
    }
  }

  lemma {:induction false} FailOk(h: Header, s: State)
    requires PastOk(h, s) && (s.status == Ready || PumpOk(h, s))
    ensures PumpOk(h, Fail(s))
  {
    hide PumpOk, PastOk, Close, ErrorCallback;
    CloseOk(h, s, false);
    ReconnectOk(h, Close(s, false));
  }

  lemma {:induction false} ConnectFailedOk(h: Header, s: State)
    requires PumpOk(h, s) && s.status != Ready
    ensures PumpOk(h, ConnectFailed(s))
  {
    hide PumpOk;
    StatusOk(h, s, Closed);
    if s.reconnects > 0 {
      var t := s.(status := Closed, reconnects := s.reconnects - 1);
      SamePumpOk(h, s.(status := Closed), t);
      ReconnectOk(h, t);
    }
  }

  /** Becoming ready: the whole outbox is in line, and the first frame starts at its first byte. */
  lemma {:induction false} ConnectedOk(h: Header, s: State, e: nat, ok: bool)
    requires PumpOk(h, s)
    ensures PumpOk(h, Connected(h, s, e, ok))
  {
    hide PumpOk, ConnectFailed, BecomeReady;
    var t := HandshakeOver(s, e);
    SamePumpOk(h, s, t);
    if !t.released && e == t.epoch && t.status != Ready {
      if !ok {
        ConnectFailedOk(h, t);
      } else {
        BecomeReadyOk(h, t);
      }
    }
  }

  lemma {:induction false} BecomeReadyOk(h: Header, s: State)
    requires PumpOk(h, s) && !s.released && s.status != Ready
    ensures PumpOk(h, BecomeReady(h, s))
  {
    var t := NewConnection(s);
    ReadyIdle(h, s, t);
    hide PumpOk, Idle, DoWrite;
    DoWriteOk(h, t);
  }

  /** Starting to connect is harmless for the pump while there is no connection, or nothing to send on it. */
  lemma {:induction false} StartConnectOk(h: Header, s: State)
    requires PumpOk(h, s) && (s.status != Ready || s.outbox == [])
    ensures PumpOk(h, StartConnect(s))
  {
    StatusOk(h, s, DnsResolving);
    hide PumpOk;
    SamePumpOk(h, s.(status := DnsResolving), StartConnect(s));
  }

  lemma {:induction false} ReadyIdle(h: Header, s: State, t: State)
    requires PumpOk(h, s) && !s.released && s.status != Ready
    requires t == NewConnection(s)
    ensures Idle(h, t)
  {
    hide Frame, Concat, Sizes;
    assert Unsent(h, t) == Frames(h, s.outbox);
    forall x: nat
      ensures At(t.queued, x) == if x == s.epoch then s.outbox else At(s.queued, x)
      ensures At(t.wire, x) == if x == s.epoch then [] else At(s.wire, x)
    {
    }
  }

  /** A message posted to the outbox. */
  lemma {:induction false} PostWriteOk(h: Header, s: State, m: Message)
    requires PumpOk(h, s)
    ensures PumpOk(h, PostWrite(h, s, m))
  {
    if !s.released {
      var t := Posted(s, m);
      SizesAppend(s.outbox, m);
      if s.status != Ready {
        PostedQuiet(h, s, m);
      } else {
        PostedReady(h, s, m);
      }
      if |t.outbox| == 1 {
        DoWriteOk(h, t);
      }
    }
  }

  ghost function Posted(s: State, m: Message): State {
    s.(outbox := s.outbox + [m], pendingSize := s.pendingSize + |m.content|,
       queued := if s.status == Ready then s.queued[s.epoch := At(s.queued, s.epoch) + [m]] else s.queued)
  }

  lemma {:induction false} PostedQuiet(h: Header, s: State, m: Message)
    requires PumpOk(h, s) && s.status != Ready && !s.released
    ensures PumpOk(h, Posted(s, m)) && Idle(h, Posted(s, m))
  {
    hide Frames, Sizes;
    SizesAppend(s.outbox, m);
  }

  lemma {:induction false} PostedReady(h: Header, s: State, m: Message)
    requires PumpOk(h, s) && s.status == Ready && !s.released
    ensures if s.outbox == [] then Idle(h, Posted(s, m)) else PumpOk(h, Posted(s, m))
  {
    hide Frames, Sizes, Concat, Frame;
    var t := Posted(s, m);
    SizesAppend(s.outbox, m);
    PostedWire(h, s, m);
    PostedUnsent(h, s, m);
  }

  lemma Assoc(x: seq<byte>, y: seq<byte>, z: seq<byte>)
    ensures x + y + z == x + (y + z)
  {
  }

  lemma {:induction false} PostedUnsent(h: Header, s: State, m: Message)
    requires PumpOk(h, s) && s.status == Ready && !s.released
    ensures Conserved(h, Posted(s, m))
  {
    hide Sizes, Concat, Frame, Frames, OneWriteEach, WirePrefix, Pumping;
    var t := Posted(s, m);
    FramesAppend(h, At(s.queued, s.epoch), m);
    UnsentAppend(h, s, m);
    Assoc(At(s.wire, s.epoch), Unsent(h, s), Frame(h, m));
  }

  lemma {:induction false} UnsentAppend(h: Header, s: State, m: Message)
    requires s.outbox == [] ==> s.buffers == []
    ensures Unsent(h, Posted(s, m)) == Unsent(h, s) + Frame(h, m)
  {
    hide Concat, Frame;
    var t := Posted(s, m);
    if s.outbox == [] {
      assert t.outbox == [m] && t.outbox[1..] == [];
    } else {
      assert t.outbox[1..] == s.outbox[1..] + [m];
      FramesAppend(h, s.outbox[1..], m);
      Assoc(FrontRest(h, s), Frames(h, s.outbox[1..]), Frame(h, m));
    }
  }

  lemma {:induction false} PostedWire(h: Header, s: State, m: Message)
    requires PumpOk(h, s) && s.status == Ready
    ensures WirePrefix(h, Posted(s, m))
  {
    hide Frames, Frame;
    var t := Posted(s, m);
    FramesAppend(h, At(s.queued, s.epoch), m);
    forall x: nat
      ensures Frames(h, At(s.queued, x)) <= Frames(h, At(t.queued, x))
    {
    }
    forall i | 0 <= i < |t.inflight|
      ensures At(t.wire, t.inflight[i].epoch) + t.inflight[i].offered <= Frames(h, At(t.queued, t.inflight[i].epoch))
    {
      var x := s.inflight[i].epoch;
      assert Frames(h, At(s.queued, x)) <= Frames(h, At(t.queued, x));
    }
  }

  // Write completions.

  /** Taking one write out of the outstanding ones. */
  lemma {:induction false} AcceptWrites(s: State, i: nat, k: nat)
    requires OneWriteEach(s) && i < |s.inflight| && k <= |s.inflight[i].offered|
    ensures var t := Accept(s, i, k);
            && OneWriteEach(t)
            && (forall j :: 0 <= j < |t.inflight| ==>
                  t.inflight[j] in s.inflight && t.inflight[j].epoch != s.inflight[i].epoch)
            && (forall w :: w in s.inflight && w != s.inflight[i] ==> w in t.inflight)
  {
    var t := Accept(s, i, k);
    forall j | 0 <= j < |t.inflight|
      ensures t.inflight[j] == s.inflight[if j < i then j else j + 1]
    {
    }
    forall w | w in s.inflight && w != s.inflight[i]
      ensures w in t.inflight
    {
      var j :| 0 <= j < |s.inflight| && s.inflight[j] == w;
      assert t.inflight[if j < i then j else j - 1] == w;
    }
  }

  lemma {:induction false} AcceptWire(h: Header, s: State, i: nat, k: nat)
    requires OneWriteEach(s) && WirePrefix(h, s) && i < |s.inflight| && k <= |s.inflight[i].offered|
    ensures WirePrefix(h, Accept(s, i, k))
  {
    hide Frames, OneWriteEach;
    var t, w := Accept(s, i, k), s.inflight[i];
    AcceptWrites(s, i, k);
    assert At(s.wire, w.epoch) + w.offered[..k] <= At(s.wire, w.epoch) + w.offered;
    forall x: nat
      ensures At(t.wire, x) == if x == w.epoch then At(s.wire, x) + w.offered[..k] else At(s.wire, x)
    {
    }
    forall j | 0 <= j < |t.inflight|
      ensures At(t.wire, t.inflight[j].epoch) + t.inflight[j].offered <= Frames(h, At(t.queued, t.inflight[j].epoch))
    {
      var v := t.inflight[j];
      var j' :| 0 <= j' < |s.inflight| && s.inflight[j'] == v;
      assert At(t.wire, v.epoch) == At(s.wire, v.epoch);
    }
  }

  lemma {:induction false} AcceptPast(h: Header, s: State, i: nat, k: nat)
    requires PumpOk(h, s) && i < |s.inflight| && k <= |s.inflight[i].offered|
    ensures PastOk(h, Accept(s, i, k))
  {
    AcceptWrites(s, i, k);
    AcceptWire(h, s, i, k);
  }

  /** A completion from an earlier epoch, or after release, changes nothing but the wire of its own epoch. */
  lemma {:induction false} StaleOk(h: Header, s: State, i: nat, k: nat)
    requires PumpOk(h, s) && i < |s.inflight| && k <= |s.inflight[i].offered|
    requires s.released || s.inflight[i].epoch != s.epoch
    ensures PumpOk(h, Accept(s, i, k))
  {
    hide Frames, Sizes;
    var t := Accept(s, i, k);
    AcceptPast(h, s, i, k);
    AcceptWrites(s, i, k);
    if !s.released && s.status == Ready && s.outbox != [] {
      var j :| 0 <= j < |s.inflight| && s.inflight[j].epoch == s.epoch;
      assert s.inflight[j] in t.inflight;
    }
    assert Unsent(h, t) == Unsent(h, s);
    StaleBuffers(s, t);
  }

  lemma StaleBuffers(s: State, t: State)
    requires BuffersOk(s) && t.buffers == s.buffers && t.status == s.status && t.outbox == s.outbox
    requires t.epoch == s.epoch && forall j :: 0 <= j < |t.inflight| ==> t.inflight[j] in s.inflight
    ensures BuffersOk(t)
  {
  }

  /** A successful completion on the current connection: the pump goes on where the bytes end. */
  lemma {:induction false} AdvanceOk(h: Header, s: State, i: nat, k: nat)
    requires PumpOk(h, s) && i < |s.inflight| && k <= |s.inflight[i].offered|
    requires !s.released && s.inflight[i].epoch == s.epoch
    ensures PumpOk(h, Advance(h, Accept(s, i, k), k))
  {
    hide PumpOk, PastOk, Frames, Sizes, Consumed;
    var t := Accept(s, i, k);
    AdvanceParts(h, s, i, k);
    var b := Consumed(t.buffers, k);
    if b != [] {
      DoWriteOk(h, t.(buffers := b));
    } else {
      DoWriteOk(h, Popped(t));
    }
  }

  ghost function Popped(t: State): State
    requires t.outbox != []
  {
    t.(buffers := [], outbox := t.outbox[1..], pendingSize := t.pendingSize - |t.outbox[0].content|)
  }

  lemma {:induction false} AdvanceParts(h: Header, s: State, i: nat, k: nat)
    requires PumpOk(h, s) && i < |s.inflight| && k <= |s.inflight[i].offered|
    requires !s.released && s.inflight[i].epoch == s.epoch
    ensures var t := Accept(s, i, k);
            && t.outbox != []
            && (var b := Consumed(t.buffers, k);
                if b != [] then Idle(h, t.(buffers := b)) else Idle(h, Popped(t)))
  {
    hide Frames, Consumed, Concat;
    var t := Accept(s, i, k);
    AcceptPast(h, s, i, k);
    AcceptWrites(s, i, k);
    assert Writing(s);
    ConsumedBytes(s.buffers, k);
    var b := Consumed(s.buffers, k);
    NothingLeft(b);
    AdvanceUnsent(h, s, i, k);
  }

  lemma {:induction false} AdvanceUnsent(h: Header, s: State, i: nat, k: nat)
    requires PumpOk(h, s) && i < |s.inflight| && k <= |s.inflight[i].offered|
    requires !s.released && s.inflight[i].epoch == s.epoch && s.outbox != []
    ensures var t := Accept(s, i, k);
            var b := Consumed(s.buffers, k);
            && (b != [] ==> Conserved(h, t.(buffers := b)))
            && (b == [] ==> Conserved(h, Popped(t)))
  {
    hide Consumed, Concat, OneWriteEach, WirePrefix, Sizes, Frames, Frame;
    CurrentIsReady(h, s, i);
    AcceptPast(h, s, i, k);
    var b := Consumed(s.buffers, k);
    ConsumedBytes(s.buffers, k);
    NothingLeft(b);
    var out, rest := s.inflight[i].offered, Frames(h, s.outbox[1..]);
    assert Unsent(h, s) == out + rest;
    Moved(At(s.wire, s.epoch), out, rest, k);
    if b == [] {
      PoppedUnsent(h, Accept(s, i, k));
    }
  }

  lemma {:induction false} Moved(wire: seq<byte>, out: seq<byte>, rest: seq<byte>, k: nat)
    requires k <= |out|
    ensures wire + out[..k] + (out[k..] + rest) == wire + (out + rest)
    ensures out[k..] == [] ==> wire + out[..k] + rest == wire + (out + rest)
  {
    assert out[..k] + out[k..] == out;
  }

  lemma PoppedUnsent(h: Header, t: State)
    requires t.outbox != []
    ensures Unsent(h, Popped(t)) == Frames(h, t.outbox[1..])
  {
  }

  lemma {:induction false} WriteDoneOk(h: Header, s: State, i: nat, ok: bool, k: nat)
    requires PumpOk(h, s) && i < |s.inflight| && k <= |s.inflight[i].offered|
    ensures PumpOk(h, WriteDone(h, s, i, ok, k))
  {
    hide PumpOk, PastOk, Advance, Fail;
    var t := Accept(s, i, k);
    if s.released || s.inflight[i].epoch != s.epoch {
      StaleOk(h, s, i, k);
    } else if !ok {
      AcceptPast(h, s, i, k);
      CurrentIsReady(h, s, i);
      FailOk(h, t);
    } else {
      AdvanceOk(h, s, i, k);
    }
  }

  lemma {:induction false} CurrentIsReady(h: Header, s: State, i: nat)
    requires PumpOk(h, s) && i < |s.inflight| && s.inflight[i].epoch == s.epoch
    ensures s.status == Ready && s.outbox != []
  {
    assert Writing(s);
  }
}
