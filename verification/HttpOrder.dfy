/** The order of body bytes on the wire: when it is kept, when it is not, and which bytes they are. */
module HttpOrder {
  import opened Bytes
  import opened HttpMachine
  import opened HttpSafety
  import opened HttpRuns

  // Which bytes were sent.

  /** Every byte the socket accepted is the byte of the body at the place it was taken from. */
  ghost predicate SentOk(s: State) {
    && |s.sent| == |s.wire|
    && forall j :: 0 <= j < |s.wire| ==> s.wire[j] < |Body(s.enqueued)| && s.sent[j] == Body(s.enqueued)[s.wire[j]]
  }

  lemma {:induction false} SentSame(s: State, t: State)
    requires SentOk(s) && t.sent == s.sent && t.wire == s.wire && Body(s.enqueued) <= Body(t.enqueued)
    ensures SentOk(t)
  {
    hide Body;
  }

  lemma {:induction false} EnqueueBody(s: State, p: Payload, last: bool)
    ensures Body(s.enqueued) <= Body(Enqueue(s, p, last).enqueued)
  {
    BodyAppend(s.enqueued, [p]);
  }

  lemma {:induction false} AcceptSent(s: State, k: nat)
    requires Safe(s) && SentOk(s) && BodyInFlight(s) && k <= |s.inflight[0].data|
    ensures SentOk(Accept(s, 0, k))
  {
    hide Body, WriteOk, QueueOk, BuffersOk, OrderOk, SizeOk, Cursor;
    var t, w := Accept(s, 0, k), s.inflight[0];
    forall j | 0 <= j < |t.wire|
      ensures t.wire[j] < |Body(t.enqueued)| && t.sent[j] == Body(t.enqueued)[t.wire[j]]
    {
      if j >= |s.wire| {
        var i := j - |s.wire|;
        assert Body(s.enqueued)[w.offset..w.offset + |w.data|][i] == w.data[i];
      }
    }
  }

  ghost predicate SameRecord(s: State, t: State) {
    t.sent == s.sent && t.wire == s.wire && t.enqueued == s.enqueued
  }

  lemma {:induction false} ReleaseRecord(s: State)
    ensures SameRecord(s, Release(s)) && SameRecord(s, AbortPending(s)) && SameRecord(s, CloseTask(s))
  {
    hide Payloads;
  }

  lemma {:induction false} PerformRecord(s: State)
    ensures SameRecord(s, Perform(s))
  {
    hide Cursor, Concat, Release;
    ReleaseRecord(s);
  }

  lemma {:induction false} HeaderDoneRecord(s: State, i: nat, ok: bool)
    requires i < |s.inflight|
    ensures SameRecord(s, HeaderDone(s, i, ok))
  {
    hide Release, AbortPending;
    var t := s.(inflight := Without(s.inflight, i), sending := false);
    ReleaseRecord(t);
    ReleaseRecord(AbortPending(t));
  }

  /** Steps that neither accept nor enqueue leave the record alone. */
  lemma {:induction false} RecordSame(s: State, ev: Event)
    requires Enabled(s, ev) && !ev.EvBodyDone? && !ev.EvAppend? && !ev.EvStock?
    ensures SameRecord(s, Step(s, ev))
  {
    hide Perform, HeaderDone, Release, CloseTask;
    match ev
    case EvPerform => PerformRecord(s);
    case EvHeaderDone(i, ok) => HeaderDoneRecord(s, i, ok);
    case EvSetBodySize(size) =>
    case _ => ReleaseRecord(s);
  }

  lemma {:induction false} WrittenRecord(s: State, k: nat)
    ensures SameRecord(s, PartWritten(s, k))
    ensures s.storage != [] ==> SameRecord(s, ItemWritten(s, k)) && SameRecord(s, Finished(ItemWritten(s, k)))
  {
    hide Consumed;
  }

  lemma {:induction false} AdvanceRecord(s: State, k: nat)
    ensures SameRecord(s, Advance(s, k))
  {
    hide Consumed, Release, PartWritten, ItemWritten, Finished;
    WrittenRecord(s, k);
    if s.storage != [] {
      ReleaseRecord(Finished(ItemWritten(s, k)));
    }
  }

  lemma {:induction false} AppendSent(s: State, p: Payload)
    requires SentOk(s)
    ensures SentOk(Append(s, p))
  {
    hide SentOk, Body, CompleteBody;
    EnqueueBody(s, p, false);
    CompleteRecord(Grow(s, p));
    SentSame(s, Append(s, p));
  }

  lemma CompleteRecord(s: State)
    ensures CompleteBody(s).sent == s.sent && CompleteBody(s).wire == s.wire && CompleteBody(s).enqueued == s.enqueued
  {
  }

  lemma {:induction false} BodyDoneSent(s: State, i: nat, ok: bool, k: nat)
    requires Safe(s) && SentOk(s) && i < |s.inflight| && s.inflight[i].BodyWrite? && k <= |s.inflight[i].data|
    ensures SentOk(BodyDone(s, i, ok, k))
  {
    hide Safe, SentOk, Accept, Advance, Body, Release, AbortPending;
    OneInFlight(s, i);
    AcceptSent(s, k);
    var t := Accept(s, 0, k);
    AdvanceRecord(t, k);
    ReleaseRecord(t);
    ReleaseRecord(AbortPending(t));
    SentSame(t, BodyDone(s, i, ok, k));
  }

  lemma {:induction false} StepSent(s: State, ev: Event)
    requires Safe(s) && SentOk(s) && Enabled(s, ev)
    ensures SentOk(Step(s, ev))
  {
    hide Safe, SentOk, SetBodySize, Append, Perform, HeaderDone, BodyDone, Release, CloseTask, Body;
    match ev
    case EvBodyDone(i, ok, k) => BodyDoneSent(s, i, ok, k);
    case EvAppend(p) => AppendSent(s, p);
    case EvStock(content) =>
      EnqueueBody(s, Payload(content, false), true);
      SentSame(s, Step(s, ev));
    case _ =>
      RecordSame(s, ev);
      SentSame(s, Step(s, ev));
  }

  /** In every run the socket got bytes of the body, each from its recorded place. */
  lemma {:induction false} EveryRunSent(events: seq<Event>)
    ensures SentOk(Run(events))
  {
    hide SentOk, Step;
    if |events| == 0 {
      InitialSent();
    } else {
      var before := events[..|events| - 1];
      EveryRunSent(before);
      EveryRunSafe(before);
      if Enabled(Run(before), events[|events| - 1]) {
        StepSent(Run(before), events[|events| - 1]);
      }
    }
  }

  lemma InitialSent()
    ensures SentOk(INITIAL)
  {
  }

  /** Places in order mean a prefix of the body. */
  lemma {:induction false} InOrderPrefix(s: State)
    requires SentOk(s) && InOrder(s.wire)
    ensures s.sent <= Body(s.enqueued)
  {
    hide Body;
    if |s.wire| > 0 {
      assert s.wire[|s.wire| - 1] == |s.wire| - 1;
    }
  }

  /** Until release the socket has got exactly a prefix of the bytes enqueued. */
  lemma {:induction false} SentPrefix(events: seq<Event>)
    ensures var s := Run(events); s.valid ==> s.sent <= Body(s.enqueued)
  {
    hide Run, Body, SentOk, WriteOk, QueueOk, BuffersOk, OfferOk, SizeOk;
    EveryRunSafe(events);
    EveryRunSent(events);
    if Run(events).valid {
      InOrderPrefix(Run(events));
    }
  }

  /** Without stock responses, the last chunk releases the connection only when exactly the body is out. */
  lemma {:induction false} LastChunkIsAll(events: seq<Event>)
    ensures var s := Run(events);
            s.Has(BodySent) && !s.stocked ==> s.sent == Body(s.enqueued) && InOrder(s.wire) && s.storage == []
  {
    hide Run, Body, SentOk, WriteOk, QueueOk, BuffersOk, OrderOk, OfferOk;
    EveryRunSafe(events);
    EveryRunSent(events);
    var s := Run(events);
    if s.Has(BodySent) && !s.stocked {
      InOrderPrefix(s);
      SentLength(s);
    }
  }

  lemma SentLength(s: State)
    requires SentOk(s)
    ensures |s.sent| == |s.wire|
  {
  }

  // When the order is kept.

  /** Body bytes reach the socket in order, each once, exactly as long as at most one body write takes bytes
      after release. */
  lemma {:induction false} InOrderExactly(events: seq<Event>)
    ensures InOrder(Run(events).wire) <==> Run(events).lateWrites <= 1
  {
    hide Run, WriteOk, QueueOk, BuffersOk, OfferOk, SizeOk, Cursor;
    EveryRunSafe(events);
    var s := Run(events);
    if !s.valid && s.lateWrites >= 2 {
      var j :| s.mark < j < |s.wire| && s.wire[j] == s.mark;
      assert Places(0, |s.wire|)[j] == j;
    } else if !s.valid && s.lateWrites == 0 {
      assert s.wire[..s.mark] == s.wire;
    }
  }

  /**
   * The state in which a perform task sends bytes again: released, with bytes taken since, and every test that
   * perform_response makes passed.
   */
  ghost predicate Repeats(s: State) {
    && !s.valid && s.mark < |s.wire|
    && s.Has(AllHeadersSet) && s.Has(HeadersPacked) && s.Has(HeadersSent) && s.Has(BodySizeSet) && !s.Has(BodySent)
    && s.maxSize != 0 && s.storage != [] && !s.sending
  }

  /** A write that starts at a place the socket has got already. */
  ghost predicate StartsBehind(s: State, t: State) {
    |t.inflight| == |s.inflight| + 1 && t.inflight[|s.inflight|].BodyWrite? && t.inflight[|s.inflight|].offset < |s.wire|
  }

  /** A perform task starts a write at a place already sent exactly in such a state. */
  lemma {:induction false} PerformRepeats(s: State)
    requires Safe(s)
    ensures StartsBehind(s, Perform(s)) <==> Repeats(s)
  {
    hide Cursor, Body, Payloads, Ends, Concat;
    if s.valid {
      assert |s.wire| == Cursor(s);
    }
  }

  /** What is left of the front item after release, while anything is left. */
  ghost predicate LateOk(s: State) {
    !s.valid && s.storage != [] ==>
      && (s.mark < |s.wire| ==> Rest(s) != [])
      && (BodyInFlight(s) ==> s.inflight[0].data == Rest(s))
  }

  lemma {:induction false} ReleaseLate(s: State)
    requires Safe(s) && LateOk(s)
    ensures LateOk(Release(s))
  {
    hide Cursor, Body, Payloads, Ends, Places;
  }

  lemma {:induction false} PerformLateOk(s: State)
    requires Safe(s) && LateOk(s)
    ensures LateOk(Perform(s))
  {
    hide Cursor, Body, Payloads, Ends, Places, Release, Safe;
    ReleaseLate(s);
    OneAtMost(s);
    if s.storage != [] {
      StartLate(s);
    }
  }

  lemma {:induction false} StartLate(s: State)
    requires Safe(s) && s.storage != []
    ensures var t := StartBodyWrite(s);
            Rest(t) == Rest(s) && t.inflight == s.inflight + [BodyWrite(Cursor(s), Rest(s))]
  {
    hide Cursor, Body, Payloads, Ends, Places;
    ConcatOne(Rest(s));
    if s.buffers != [] {
      assert s.buffers == [s.buffers[0]];
    }
  }

  lemma {:induction false} HeaderDoneLate(s: State, i: nat, ok: bool)
    requires Safe(s) && LateOk(s) && i < |s.inflight| && s.inflight[i].HeaderWrite?
    ensures LateOk(HeaderDone(s, i, ok))
  {
    OneInFlight(s, i);
    hide Safe, Payloads;
    assert Without(s.inflight, i) == [];
  }

  lemma {:induction false} AdvanceLate(s: State, k: nat)
    requires s.valid && s.inflight == []
    ensures LateOk(Advance(s, k))
  {
    hide Consumed;
  }

  lemma {:induction false} BodyDoneLate(s: State, i: nat, ok: bool, k: nat)
    requires Safe(s) && LateOk(s) && i < |s.inflight| && s.inflight[i].BodyWrite? && k <= |s.inflight[i].data|
    ensures LateOk(BodyDone(s, i, ok, k))
  {
    OneInFlight(s, i);
    hide Safe, Payloads, Advance;
    var t := Accept(s, i, k);
    assert t.inflight == [];
    if s.valid {
      AdvanceLate(t, k);
    }
  }

  lemma {:induction false} StepLate(s: State, ev: Event)
    requires Safe(s) && LateOk(s) && Enabled(s, ev)
    ensures LateOk(Step(s, ev))
  {
    hide Safe, LateOk, Perform, HeaderDone, BodyDone, Release;
    match ev
    case EvPerform => PerformLateOk(s);
    case EvHeaderDone(i, ok) => HeaderDoneLate(s, i, ok);
    case EvBodyDone(i, ok, k) => BodyDoneLate(s, i, ok, k);
    case EvRelease => ReleaseLate(s);
    case _ => QuietLate(s, ev);
  }

  lemma {:induction false} QuietLate(s: State, ev: Event)
    requires LateOk(s) && Enabled(s, ev)
    requires ev.EvSetBodySize? || ev.EvAppend? || ev.EvStock? || ev.EvClose?
    ensures LateOk(Step(s, ev))
  {
    hide Payloads, MarkLast;
  }

  lemma {:induction false} EveryRunLate(events: seq<Event>)
    ensures LateOk(Run(events))
  {
    hide LateOk, Step;
    if |events| == 0 {
      InitialLate();
    } else {
      var before := events[..|events| - 1];
      EveryRunLate(before);
      EveryRunSafe(before);
      if Enabled(Run(before), events[|events| - 1]) {
        StepLate(Run(before), events[|events| - 1]);
      }
    }
  }

  lemma InitialLate()
    ensures LateOk(INITIAL)
  {
  }

  // Runs.

  /** No perform task runs in a state in which it would send bytes again. */
  ghost predicate Clean(events: seq<Event>) {
    forall i :: 0 <= i < |events| && events[i] == EvPerform ==> !Repeats(Run(events[..i]))
  }

  /** At most one body write took bytes after release, and then none is in flight. */
  ghost predicate OnceLate(s: State) {
    s.lateWrites <= 1 && (s.lateWrites == 1 ==> !BodyInFlight(s))
  }

  lemma {:induction false} CleanPrefix(events: seq<Event>, n: nat)
    requires Clean(events) && n <= |events|
    ensures Clean(events[..n])
  {
    hide Repeats, Run;
    forall i | 0 <= i < n && events[..n][i] == EvPerform ensures !Repeats(Run(events[..n][..i])) {
      assert events[..n][..i] == events[..i];
    }
  }

  lemma {:induction false} QuietFlight(s: State, ev: Event)
    requires Enabled(s, ev) && !ev.EvBodyDone? && !ev.EvHeaderDone? && !ev.EvPerform?
    ensures Step(s, ev).inflight == s.inflight && Step(s, ev).lateWrites == s.lateWrites
  {
    hide Append, MarkLast, Payloads;
    match ev
    case EvAppend(p) => AppendFlight(s, p);
    case _ =>
  }

  lemma {:induction false} AppendFlight(s: State, p: Payload)
    ensures Append(s, p).inflight == s.inflight && Append(s, p).lateWrites == s.lateWrites
  {
    hide CompleteBody;
    CompleteFlight(Grow(s, p));
  }

  lemma CompleteFlight(s: State)
    ensures CompleteBody(s).inflight == s.inflight && CompleteBody(s).lateWrites == s.lateWrites
  {
  }

  lemma {:induction false} PerformLate(s: State)
    ensures Perform(s).lateWrites == s.lateWrites
  {
    hide Cursor, Concat;
  }

  lemma {:induction false} HeaderDoneFlight(s: State, i: nat, ok: bool)
    requires Safe(s) && i < |s.inflight| && s.inflight[i].HeaderWrite?
    ensures HeaderDone(s, i, ok).inflight == [] && HeaderDone(s, i, ok).lateWrites == s.lateWrites
  {
    OneInFlight(s, i);
    hide Safe;
    assert Without(s.inflight, i) == [];
  }

  lemma {:induction false} BodyDoneFlight(s: State, i: nat, ok: bool, k: nat)
    requires Safe(s) && i < |s.inflight| && s.inflight[i].BodyWrite? && k <= |s.inflight[i].data|
    ensures BodyDone(s, i, ok, k).inflight == [] && BodyDone(s, i, ok, k).lateWrites <= s.lateWrites + 1
  {
    OneInFlight(s, i);
    hide Safe, Consumed, Places;
    assert Without(s.inflight, i) == [];
  }

  /** A perform task that starts a body write after late bytes runs in a repeating state. */
  lemma {:induction false} PerformOnce(s: State)
    requires Safe(s) && OnceLate(s) && !Repeats(s)
    ensures OnceLate(Perform(s))
  {
    hide Cursor, Body, Payloads, Ends, Concat, Places;
    PerformLate(s);
  }

  lemma {:induction false} BodyDoneOnce(s: State, i: nat, ok: bool, k: nat)
    requires Safe(s) && OnceLate(s) && i < |s.inflight| && s.inflight[i].BodyWrite? && k <= |s.inflight[i].data|
    ensures OnceLate(BodyDone(s, i, ok, k))
  {
    hide Safe, BodyDone;
    OneInFlight(s, i);
    BodyDoneFlight(s, i, ok, k);
  }

  lemma {:induction false} StepOnce(s: State, ev: Event)
    requires Safe(s) && OnceLate(s) && Enabled(s, ev) && (ev == EvPerform ==> !Repeats(s))
    ensures OnceLate(Step(s, ev))
  {
    hide Safe, Repeats, SetBodySize, Append, Stock, Perform, HeaderDone, BodyDone, Release, CloseTask;
    match ev
    case EvBodyDone(i, ok, k) => BodyDoneOnce(s, i, ok, k);
    case EvHeaderDone(i, ok) => HeaderDoneFlight(s, i, ok);
    case EvPerform => PerformOnce(s);
    case _ => QuietFlight(s, ev);
  }

  lemma {:induction false} CleanOnce(events: seq<Event>)
    requires Clean(events)
    ensures OnceLate(Run(events))
  {
    hide Step, OnceLate, Repeats, Clean;
    if |events| == 0 {
      InitialOnce();
    } else {
      var n := |events| - 1;
      CleanPrefix(events, n);
      CleanOnce(events[..n]);
      EveryRunSafe(events[..n]);
      if Enabled(Run(events[..n]), events[n]) {
        CleanLast(events);
        StepOnce(Run(events[..n]), events[n]);
      }
    }
  }

  lemma InitialOnce()
    ensures OnceLate(INITIAL)
  {
  }

  lemma CleanLast(events: seq<Event>)
    requires Clean(events) && |events| > 0
    ensures events[|events| - 1] == EvPerform ==> !Repeats(Run(events[..|events| - 1]))
  {
  }

  /** Without such a perform task body bytes reach the socket in order, each once. */
  lemma {:induction false} CleanInOrder(events: seq<Event>)
    requires Clean(events)
    ensures InOrder(Run(events).wire) && Run(events).sent <= Body(Run(events).enqueued)
  {
    hide Run, InOrder, Clean, SentOk, Body;
    CleanOnce(events);
    InOrderExactly(events);
    EveryRunSent(events);
    InOrderPrefix(Run(events));
  }

  /** After such a perform task every completion that reports bytes breaks the order. */
  lemma {:induction false} RepeatBreaks(s: State, ok: bool, k: nat)
    requires Safe(s) && LateOk(s) && Repeats(s) && 0 < k <= |Rest(s)|
    ensures var t := Perform(s);
            && Enabled(t, EvBodyDone(0, ok, k))
            && !InOrder(Step(t, EvBodyDone(0, ok, k)).wire)
  {
    hide Cursor, Body, Payloads, Ends, Concat;
    StartLate(s);
    assert s.inflight == [];
    var u := Step(Perform(s), EvBodyDone(0, ok, k));
    assert u.wire[|s.wire|] == s.mark;
    assert Places(0, |u.wire|)[|s.wire|] == |s.wire|;
  }

  ghost predicate NoPerform(events: seq<Event>) {
    EvPerform !in events
  }

  lemma {:induction false} CleanExtended(events: seq<Event>, more: seq<Event>)
    requires Clean(events) && NoPerform(more)
    ensures Clean(events + more)
  {
    hide Repeats, Run;
    var all := events + more;
    forall i | 0 <= i < |all| && all[i] == EvPerform ensures !Repeats(Run(all[..i])) {
      assert all[..i] == events[..i];
    }
  }

  /** The continuation that shows it. */
  lemma {:induction false} RepeatContinues(events: seq<Event>)
    requires Repeats(Run(events))
    ensures !InOrder(Run(events + [EvPerform] + [EvBodyDone(0, true, 1)]).wire)
  {
    hide Run, Repeats, LateOk, Safe, Step, InOrder;
    var s := Run(events);
    EveryRunSafe(events);
    EveryRunLate(events);
    RepeatHasRest(s);
    RepeatBreaks(s, true, 1);
    StepPerform(s);
    RunStep(events, EvPerform);
    RunStep(events + [EvPerform], EvBodyDone(0, true, 1));
  }

  lemma StepPerform(s: State)
    ensures Enabled(s, EvPerform) && Step(s, EvPerform) == Perform(s)
  {
  }

  lemma RepeatHasRest(s: State)
    requires LateOk(s) && Repeats(s)
    ensures |Rest(s)| > 0
  {
  }

  /**
   * Body bytes stay in order in every continuation of every prefix of a run, as long as no further perform task
   * runs, exactly if no perform task of the run ran in a repeating state.
   */
  lemma {:induction false} OrderKeptExactly(events: seq<Event>)
    ensures Clean(events) <==>
            forall i, more :: 0 <= i <= |events| && NoPerform(more) ==> InOrder(Run(events[..i] + more).wire)
  {
    hide Run, Repeats, InOrder;
    if Clean(events) {
      forall i, more | 0 <= i <= |events| && NoPerform(more) ensures InOrder(Run(events[..i] + more).wire) {
        CleanPrefix(events, i);
        CleanExtended(events[..i], more);
        CleanInOrder(events[..i] + more);
      }
    } else {
      var i :| 0 <= i < |events| && events[i] == EvPerform && Repeats(Run(events[..i]));
      RepeatContinues(events[..i]);
      assert events[..i] + [EvPerform] == events[..i + 1];
      assert NoPerform([EvBodyDone(0, true, 1)]);
    }
  }

  /** Whether a perform task may run now: the answer depends on the present state alone. */
  lemma {:induction false} PerformExactly(events: seq<Event>)
    requires Clean(events)
    ensures !Repeats(Run(events)) <==>
            forall more :: NoPerform(more) ==> InOrder(Run(events + [EvPerform] + more).wire)
  {
    hide Run, Repeats, InOrder, Clean;
    if Repeats(Run(events)) {
      RepeatContinues(events);
      assert NoPerform([EvBodyDone(0, true, 1)]);
    } else {
      CleanOneMore(events);
      forall more | NoPerform(more) ensures InOrder(Run(events + [EvPerform] + more).wire) {
        CleanExtended(events + [EvPerform], more);
        CleanInOrder(events + [EvPerform] + more);
      }
    }
  }

  lemma {:induction false} CleanOneMore(events: seq<Event>)
    requires Clean(events) && !Repeats(Run(events))
    ensures Clean(events + [EvPerform])
  {
    hide Repeats, Run;
    var all := events + [EvPerform];
    forall i | 0 <= i < |all| && all[i] == EvPerform ensures !Repeats(Run(all[..i])) {
      assert all[..i] == events[..i];
      assert events[..|events|] == events;
    }
  }

  /** In particular the order is kept if no perform task runs after release. */
  lemma {:induction false} QuietIsInOrder(events: seq<Event>)
    requires forall i :: 0 <= i < |events| && events[i] == EvPerform ==> Run(events[..i]).valid
    ensures InOrder(Run(events).wire)
  {
    hide Run, InOrder;
    CleanInOrder(events);
  }

  /** A live completion of a body write finds its item in the queue. */
  lemma {:induction false} FrontThere(events: seq<Event>)
    ensures var s := Run(events);
            s.valid && BodyInFlight(s) ==> s.storage != [] && s.buffers != []
  {
    hide Run, WriteOk, QueueOk, OrderOk, SizeOk;
    EveryRunSafe(events);
  }

  lemma {:induction false} RunStep(events: seq<Event>, ev: Event)
    requires Enabled(Run(events), ev)
    ensures Run(events + [ev]) == Step(Run(events), ev)
  {
    hide Step;
    assert (events + [ev])[..|events|] == events;
  }

  /** A body of two bytes, written up to the point where both are offered to the socket. */
  const OFFERED: seq<Event> := [EvSetBodySize(2), EvAppend(Payload([1, 2], false)), EvPerform,
                                EvHeaderDone(0, true), EvPerform]

  lemma {:induction false} OfferedState()
    ensures var s := Run(OFFERED);
            && s.valid && s.Has(AllHeadersSet) && s.Has(HeadersPacked) && s.Has(HeadersSent) && !s.Has(BodySent) && s.Has(BodySizeSet)
            && s.maxSize == 2 && s.storage == [Item(Payload([1, 2], false), true)] && s.buffers == [[1, 2]]
            && s.finished == [] && s.inflight == [BodyWrite(0, [1, 2])] && s.wire == [] && s.sent == []
  {
    var p := Payload([1, 2], false);
    var s0 := INITIAL;
    var s1 := SetBodySize(s0, 2);
    var s2 := Append(s1, p);
    assert s2.storage == [Item(p, true)];
    var s3 := Perform(s2);
    var s4 := HeaderDone(s3, 0, true);
    assert s4.inflight == [];
    var s5 := Perform(s4);
    ConcatOne([1, 2]);
    assert Cursor(s4) == 0;
    RunStep([], EvSetBodySize(2));
    RunStep([EvSetBodySize(2)], EvAppend(p));
    assert [EvSetBodySize(2)] + [EvAppend(p)] == [EvSetBodySize(2), EvAppend(p)];
    RunStep([EvSetBodySize(2), EvAppend(p)], EvPerform);
    assert [EvSetBodySize(2), EvAppend(p)] + [EvPerform] == OFFERED[..3];
    RunStep(OFFERED[..3], EvHeaderDone(0, true));
    assert OFFERED[..3] + [EvHeaderDone(0, true)] == OFFERED[..4];
    RunStep(OFFERED[..4], EvPerform);
    assert OFFERED[..4] + [EvPerform] == OFFERED;
  }

  /** Two bytes of which the socket was offered both. */
  ghost predicate Offering(s: State) {
    && s.Has(AllHeadersSet) && s.Has(HeadersPacked) && s.Has(HeadersSent) && !s.Has(BodySent) && s.Has(BodySizeSet)
    && s.maxSize == 2 && s.storage == [Item(Payload([1, 2], false), true)] && s.buffers == [[1, 2]] && s.finished == []
  }

  lemma {:induction false} LateTaken(s: State)
    requires Offering(s) && s.valid && s.inflight == [BodyWrite(0, [1, 2])] && s.wire == [] && s.sent == []
    ensures var t := BodyDone(Release(s), 0, true, 1);
            Offering(t) && !t.valid && t.inflight == [] && !t.sending && t.wire == [0] && t.sent == [1]
  {
    var t := BodyDone(Release(s), 0, true, 1);
    assert t.inflight == [] && t.wire == [0] && t.sent == [1];
  }

  lemma {:induction false} OfferedAgain(s: State)
    requires Offering(s) && s.inflight == [] && !s.sending
    ensures Perform(s) == s.(sending := true, inflight := [BodyWrite(0, [1, 2])])
  {
    ConcatOne([1, 2]);
    assert Cursor(s) == 0;
  }

  lemma {:induction false} TakenAgain(s: State)
    requires !s.valid && s.inflight == [BodyWrite(0, [1, 2])] && s.wire == [0] && s.sent == [1]
    ensures BodyDone(s, 0, true, 1).wire == [0, 0] && BodyDone(s, 0, true, 1).sent == [1, 1]
  {
    assert [0] + Places(0, 1) == [0, 0];
    assert [1, 2][..1] == [1];
  }

  /** Releasing there, and letting the completion and another perform task run before the close task, sends
      the first byte twice. */
  lemma {:induction false} SentTwice()
    ensures var s := Run(OFFERED + [EvRelease, EvBodyDone(0, true, 1), EvPerform, EvBodyDone(0, true, 1)]);
            s.wire == [0, 0] && s.sent == [1, 1]
  {
    hide Run, Release, BodyDone, Perform;
    OfferedState();
    var s := Run(OFFERED);
    ReleaseFlight(s);
    LateTaken(s);
    var t := BodyDone(Release(s), 0, true, 1);
    OfferedAgain(t);
    TakenAgain(Perform(t));
    var a := OFFERED + [EvRelease];
    RunStep(OFFERED, EvRelease);
    var b := a + [EvBodyDone(0, true, 1)];
    RunStep(a, EvBodyDone(0, true, 1));
    var c := b + [EvPerform];
    RunStep(b, EvPerform);
    RunStep(c, EvBodyDone(0, true, 1));
    assert c + [EvBodyDone(0, true, 1)] ==
           OFFERED + [EvRelease, EvBodyDone(0, true, 1), EvPerform, EvBodyDone(0, true, 1)];
  }

  lemma ReleaseFlight(s: State)
    ensures Release(s).inflight == s.inflight
  {
  }
}
