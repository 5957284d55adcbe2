/** The request object: the parser as the server runs it, updating its own fields byte by byte. */
module HttpRequest {
  import opened HttpParser
  import opened HttpParsing
  import HttpPrinting

  class Request {
    var state: ParseState
    var verb: string
    var uri: string
    var major: nat
    var minor: nat
    var headers: seq<Field>
    var content: string
    var transferred: nat
    var contentLength: nat

    ghost function View(): Parser
      reads this
    {
      Parser(state, verb, uri, major, minor, headers, content, transferred, contentLength)
    }

    constructor ()
      ensures View() == FRESH
    {
      state, verb, uri, major, minor := MethodStart, "", "", 0, 0;
      headers, content, transferred, contentLength := [], "", 0, INVALID_LENGTH;
    }

    /** Whether the whole request has arrived; looks the length up once. */
    method TransmissionFinished() returns (finished: bool)
      modifies this`contentLength
      ensures View() == WithLength(old(View()))
      ensures finished == TransferDone(View())
    {
      if contentLength == INVALID_LENGTH {
        var i := 0;
        contentLength := 0;
        while i < |headers|
          invariant 0 <= i <= |headers|
          invariant AnnouncedLength(headers[i..]) == AnnouncedLength(headers)
          invariant contentLength == 0
        {
          if IsLengthName(headers[i].name) {
            contentLength := Strtoull(headers[i].value);
            break;
          }
          assert headers[i..][1..] == headers[i + 1..];
          i := i + 1;
        }
      }
      finished := transferred >= contentLength;
    }

    method ConsumeLine(c: char) returns (v: Verdict)
      requires state.MethodStart? || state.Method? || state.Uri?
      modifies this
      ensures (View(), v) == StepLine(old(View()), c)
    {
      v := More;
      match state
      case MethodStart =>
        if !IsToken(c) { return Reject; }
        state := Method;
        verb := verb + [c];
      case Method =>
        if c == ' ' {
          state := Uri;
        } else {
          if !IsToken(c) || |verb| >= MAX_METHOD_LEN { return Reject; }
          verb := verb + [c];
        }
      case Uri =>
        if c == ' ' {
          state := VersionH;
        } else {
          if IsCtl(c) || |uri| >= MAX_URI_LEN { return Reject; }
          uri := uri + [c];
        }
    }

    method ExpectByte(c: char, wanted: char, next: ParseState) returns (v: Verdict)
      modifies this`state
      ensures (View(), v) == Expect(old(View()), c, wanted, next)
    {
      if c != wanted { return Reject; }
      state := next;
      v := More;
    }

    method ConsumeVersion(c: char) returns (v: Verdict)
      requires InVersion(state)
      modifies this
      ensures (View(), v) == StepVersion(old(View()), c)
    {
      hide IsDigit, DigitOf;
      match state
      case VersionH => v := ExpectByte(c, 'H', VersionT1);
      case VersionT1 => v := ExpectByte(c, 'T', VersionT2);
      case VersionT2 => v := ExpectByte(c, 'T', VersionP);
      case VersionP => v := ExpectByte(c, 'P', VersionSlash);
      case VersionSlash =>
        v := ExpectByte(c, '/', MajorStart);
        if v == More { major, minor := 0, 0; }
      case MajorStart | Major =>
        v := ConsumeMajor(c);
      case MinorStart | Minor =>
        v := ConsumeMinor(c);
      case ExpectingNewline1 => v := ExpectByte(c, '\n', HeaderLineStart);
    }

    method ConsumeMajor(c: char) returns (v: Verdict)
      requires state.MajorStart? || state.Major?
      modifies this`state, this`major
      ensures (View(), v) == StepVersion(old(View()), c)
    {
      v := More;
      if state.Major? && c == '.' {
        state := MinorStart;
      } else if IsDigit(c) {
        major := major * 10 + DigitOf(c);
        state := Major;
      } else {
        v := Reject;
      }
    }

    method ConsumeMinor(c: char) returns (v: Verdict)
      requires state.MinorStart? || state.Minor?
      modifies this`state, this`minor
      ensures (View(), v) == StepVersion(old(View()), c)
    {
      v := More;
      if state.Minor? && c == '\r' {
        state := ExpectingNewline1;
      } else if IsDigit(c) {
        minor := minor * 10 + DigitOf(c);
        state := Minor;
      } else {
        v := Reject;
      }
    }

    method AddToValue(c: char) returns (v: Verdict)
      requires headers != []
      modifies this`state, this`headers
      ensures (View(), v) == if ValueFull(old(View())) then (old(View()).(state := HeaderValue), Reject)
                             else (PushValue(old(View()), c), More)
    {
      state := HeaderValue;
      var k := |headers| - 1;
      if |headers[k].value| >= MAX_HEADER_VALUE_LEN { return Reject; }
      headers := headers[k := headers[k].(value := headers[k].value + [c])];
      v := More;
    }

    method AddToName(c: char) returns (v: Verdict)
      requires headers != []
      modifies this`headers
      ensures (View(), v) == if NameFull(old(View())) then (old(View()), Reject) else (PushName(old(View()), c), More)
    {
      var k := |headers| - 1;
      if |headers[k].name| >= MAX_HEADER_NAME_LEN { return Reject; }
      headers := headers[k := headers[k].(name := headers[k].name + [c])];
      v := More;
    }

    method ConsumeHeader(c: char) returns (v: Verdict)
      requires InHeader(state) && headers != []
      modifies this
      ensures (View(), v) == StepHeader(old(View()), c)
    {
      hide IsToken, IsCtl, PushName, PushValue, NameFull, ValueFull;
      v := More;
      match state
      case HeaderLws =>
        if c == '\r' {
          state := ExpectingNewline2;
        } else if c != ' ' && c != '\t' {
          if IsCtl(c) { return Reject; }
          v := AddToValue(c);
        }
      case HeaderName =>
        if c == ':' {
          state := SpaceBeforeHeaderValue;
        } else {
          if !IsToken(c) { return Reject; }
          v := AddToName(c);
        }
      case SpaceBeforeHeaderValue => v := ExpectByte(c, ' ', HeaderValue);
      case HeaderValue =>
        if c == '\r' {
          state := ExpectingNewline2;
        } else {
          if IsCtl(c) { return Reject; }
          v := AddToValue(c);
        }
    }

    method ConsumeLineStart(c: char) returns (v: Verdict)
      modifies this
      ensures (View(), v) == StepLineStart(old(View()), c)
    {
      hide IsToken;
      v := More;
      if c == '\r' {
        state := ExpectingNewline3;
      } else if headers != [] && (c == ' ' || c == '\t') {
        state := HeaderLws;
      } else {
        if !IsToken(c) || |headers| >= MAX_HEADER_COUNT { return Reject; }
        headers := headers + [Field([c], "")];
        state := HeaderName;
      }
    }

    method ConsumeEnd(c: char) returns (v: Verdict)
      modifies this
      ensures (View(), v) == StepEnd(old(View()), c)
    {
      hide AnnouncedLength;
      transferred := 0;
      if c != '\n' { return Reject; }
      var finished := TransmissionFinished();
      if finished { return Accept; }
      state := BodyState;
      v := More;
    }

    method ConsumeBody(chunk: string) returns (v: Verdict)
      modifies this
      ensures (View(), v) == StepBody(old(View()), chunk)
    {
      hide AnnouncedLength;
      if contentLength > MAX_BODY_SIZE || |content| + |chunk| > MAX_BODY_SIZE { return Reject; }
      transferred := transferred + |chunk|;
      content := content + chunk;
      var finished := TransmissionFinished();
      v := if finished then Accept else More;
    }

    method ConsumeByte(c: char) returns (v: Verdict)
      requires WellFormed(View()) && state != BodyState
      modifies this
      ensures (View(), v) == StepByte(old(View()), c)
    {
      hide StepLine, StepVersion, StepHeader, StepLineStart, StepEnd;
      if InVersion(state) {
        v := ConsumeVersion(c);
      } else if InHeader(state) {
        v := ConsumeHeader(c);
      } else if state.HeaderLineStart? {
        v := ConsumeLineStart(c);
      } else if state.ExpectingNewline2? {
        v := ExpectByte(c, '\n', HeaderLineStart);
      } else if state.ExpectingNewline3? {
        v := ConsumeEnd(c);
      } else {
        v := ConsumeLine(c);
      }
    }

    /** One step: one byte before the body, all that is left in it. The two counters move together. */
    method Consume(input: string, at: nat, leftSize: nat) returns (v: Verdict, next: nat, left: nat)
      requires at < |input| && leftSize == |input| - at && WellFormed(View())
      modifies this
      ensures at <= next <= |input| && left == |input| - next
      ensures WellFormed(View())
      ensures old(state) != BodyState ==> next == at + 1 && (View(), v) == StepByte(old(View()), input[at])
      ensures old(state) == BodyState ==>
                && (View(), v) == StepBody(old(View()), input[at..])
                && next == if v == Reject then at else |input|
    {
      hide StepByte, StepBody;
      next, left := at, leftSize;
      if state != BodyState {
        next, left := next + 1, left - 1;
        StepKeepsWellFormed(View(), input[at]);
        v := ConsumeByte(input[at]);
      } else {
        BodyStays(View(), input[at..]);
        v := ConsumeBody(input[at..at + leftSize]);
        assert input[at..at + leftSize] == input[at..];
        if v != Reject {
          next, left := next + left, 0;
        }
      }
    }

    /** Feeds bytes until there is a verdict or no byte is left; returns how far it got. */
    method Parse(input: string) returns (v: Verdict, at: nat)
      requires WellFormed(View())
      modifies this
      ensures at <= |input|
      ensures (View(), v, input[at..]) == HttpParser.Parse(old(View()), input)
    {
      hide StepByte, StepBody, WellFormed;
      at := 0;
      var left: nat := |input|;
      assert input[0..] == input;
      while at != |input|
        invariant at <= |input| && left == |input| - at
        invariant WellFormed(View())
        invariant HttpParser.Parse(View(), input[at..]) == HttpParser.Parse(old(View()), input)
        decreases |input| - at
      {
        ghost var before := View();
        var start := at;
        v, at, left := Consume(input, at, left);
        Progress(before, View(), v, input, start, at);
        if v != More { return; }
      }
      v := More;
    }
  }

  /** What one step leaves for the rest of the input. */
  lemma {:induction false} Progress(p: Parser, q: Parser, v: Verdict, input: string, at: nat, next: nat)
    requires at < |input| && at <= next <= |input| && WellFormed(p) && WellFormed(q)
    requires p.state != BodyState ==> next == at + 1 && (q, v) == StepByte(p, input[at])
    requires p.state == BodyState ==>
               (q, v) == StepBody(p, input[at..]) && next == if v == Reject then at else |input|
    ensures v != More ==> HttpParser.Parse(p, input[at..]) == (q, v, input[next..])
    ensures v == More ==> next > at && HttpParser.Parse(p, input[at..]) == HttpParser.Parse(q, input[next..])
  {
    hide StepByte, StepBody, WellFormed;
    if p.state != BodyState {
      assert input[at..] == [input[at]] + input[next..];
      ParseStep(p, input[at], input[next..]);
    } else if v != Reject {
      assert input[next..] == "";
    }
  }

  /**
   * Feeds pieces to a new request until there is a verdict. However the text was cut, the outcome is that of the
   * pieces used, joined; what is accepted is within the limits, with its body as announced.
   */
  method FeedRequest(pieces: seq<string>) returns (request: Request, v: Verdict, used: nat)
    ensures fresh(request) && used <= |pieces|
    ensures v == More ==> used == |pieces|
    ensures var whole := HttpParser.Parse(FRESH, Join(pieces[..used]));
            v == whole.1 && (v != Reject ==> request.View() == whole.0)
    ensures v == Accept ==> HttpPrinting.Acceptable(HttpPrinting.RequestOf(request.View()))
  {
    hide HttpParser.Parse, Feed, Join, WellFormed, HttpPrinting.Acceptable, HttpPrinting.Limits;
    request := new Request();
    used, v := 0, More;
    FreshFed();
    assert pieces[0..] == pieces;
    while used < |pieces|
      invariant used <= |pieces| && fresh(request) && v == More && WellFormed(request.View())
      invariant Onward(Feed(request.View(), pieces[used..]), used) == Feed(FRESH, pieces)
      decreases |pieces| - used
    {
      FeedNext(request.View(), pieces, used);
      var at;
      v, at := request.Parse(pieces[used]);
      used := used + 1;
      if v != More { break; }
    }
    if v == More { FedAll(request.View(), pieces); }
    FeedIsParse(FRESH, pieces);
    HttpPrinting.FreshLimits();
    HttpPrinting.ParseVerdicts(FRESH, Join(pieces[..used]));
    AcceptedFields(HttpParser.Parse(FRESH, Join(pieces[..used])));
  }

  /** An outcome after some pieces were used before. */
  function Onward(fed: (Parser, Verdict, nat), used: nat): (Parser, Verdict, nat) {
    (fed.0, fed.1, fed.2 + used)
  }

  lemma FreshFed()
    ensures WellFormed(FRESH)
  {
  }

  lemma {:induction false} FeedNext(p: Parser, pieces: seq<string>, used: nat)
    requires WellFormed(p) && used < |pieces|
    ensures var first := HttpParser.Parse(p, pieces[used]);
            && WellFormed(first.0)
            && Onward(Feed(p, pieces[used..]), used)
            == if first.1 != More then (first.0, first.1, used + 1)
               else Onward(Feed(first.0, pieces[used + 1..]), used + 1)
  {
    hide HttpParser.Parse, WellFormed;
    assert pieces[used..][1..] == pieces[used + 1..];
  }

  lemma {:induction false} FedAll(p: Parser, pieces: seq<string>)
    requires WellFormed(p)
    ensures Onward(Feed(p, pieces[|pieces|..]), |pieces|) == (p, More, |pieces|)
  {
    hide WellFormed;
  }

  lemma {:induction false} AcceptedFields(r: (Parser, Verdict, string))
    requires HttpPrinting.Verdicts(r.0, r.1)
    ensures r.1 == Accept ==> HttpPrinting.Acceptable(HttpPrinting.RequestOf(r.0))
  {
    hide HttpPrinting.Acceptable, HttpPrinting.Limits;
  }
}
