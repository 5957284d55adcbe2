/** What the request parser promises: chunking does not matter, limits hold, printed requests come back. */
module HttpParsing {
  import opened HttpParser

  // Chunking.

  /** Two results that a caller cannot tell apart: a rejected request has no fields to look at. */
  predicate SameOutcome(a: (Parser, Verdict, string), b: (Parser, Verdict, string)) {
    a.1 == b.1 && (a.1 != Reject ==> a.0 == b.0 && a.2 == b.2)
  }

  lemma {:induction false} BodySplit(p: Parser, x: string, y: string)
    requires StepBody(p, x).1 == More
    ensures StepBody(p, x).0.contentLength == p.contentLength
    ensures StepBody(StepBody(p, x).0, y).1 == StepBody(p, x + y).1
    ensures StepBody(p, x + y).1 != Reject ==> StepBody(StepBody(p, x).0, y) == StepBody(p, x + y)
  {
    assert p.content + (x + y) == p.content + x + y;
  }

  lemma {:induction false} BodyChunks(p: Parser, x: string, y: string)
    requires WellFormed(p) && p.state == BodyState && x != ""
    requires Parse(p, x).1 == More
    ensures SameOutcome(Parse(Parse(p, x).0, y), Parse(p, x + y))
  {
    hide WellFormed;
    BodyStays(p, x);
    BodySplit(p, x, y);
    if y == "" {
      assert x + y == x;
    }
  }

  lemma BodyStays(p: Parser, x: string)
    ensures StepBody(p, x).0.state == p.state
    ensures WellFormed(p) ==> WellFormed(StepBody(p, x).0)
  {
  }

  lemma {:induction false} ParseStep(p: Parser, c: char, rest: string)
    requires WellFormed(p) && p.state != BodyState
    ensures WellFormed(StepByte(p, c).0)
    ensures Parse(p, [c] + rest)
         == if StepByte(p, c).1 == More then Parse(StepByte(p, c).0, rest)
            else (StepByte(p, c).0, StepByte(p, c).1, rest)
  {
    hide StepByte;
    StepKeepsWellFormed(p, c);
    assert ([c] + rest)[1..] == rest;
  }

  lemma HeadTail(x: string, y: string)
    requires x != ""
    ensures x == [x[0]] + x[1..]
    ensures x + y == [x[0]] + (x[1..] + y)
  {
  }

  /**
   * If the bytes so far ask for more, feeding the next bytes gives what feeding all of them at once
   * would have given.
   */
  lemma {:induction false} ParseSplit(p: Parser, x: string, y: string)
    requires WellFormed(p)
    requires Parse(p, x).1 == More
    ensures SameOutcome(Parse(Parse(p, x).0, y), Parse(p, x + y))
    decreases |x|
  {
    hide StepByte, StepBody, WellFormed;
    if x == "" {
      assert x + y == y;
    } else if p.state == BodyState {
      BodyChunks(p, x, y);
    } else {
      HeadTail(x, y);
      ParseStep(p, x[0], x[1..]);
      ParseStep(p, x[0], x[1..] + y);
      ParseSplit(StepByte(p, x[0]).0, x[1..], y);
    }
  }

  /** What the parser makes of bytes behind a verdict: pipelined bytes stay unread, a body swallows them. */
  function Beyond(r: (Parser, Verdict, string), y: string): (Parser, Verdict, string) {
    if y == "" || r.1 != Accept || r.0.state != BodyState then (r.0, r.1, r.2 + y)
    else if |r.0.content| + |y| > MAX_BODY_SIZE then (r.0, Reject, y)
    else (r.0.(transferred := r.0.transferred + |y|, content := r.0.content + y), Accept, "")
  }

  lemma {:induction false} BodyBeyond(p: Parser, x: string, y: string)
    requires p.state == BodyState && StepBody(p, x).1 != More
    ensures StepBody(p, x + y).1 == Beyond((StepBody(p, x).0, StepBody(p, x).1, ""), y).1
    ensures StepBody(p, x + y).1 == Accept
        ==> StepBody(p, x + y).0 == Beyond((StepBody(p, x).0, StepBody(p, x).1, ""), y).0
  {
    assert p.content + (x + y) == p.content + x + y;
    if y == "" {
      assert x + y == x;
    }
  }

  lemma {:induction false} BodyEnds(p: Parser, x: string, y: string)
    requires WellFormed(p) && p.state == BodyState && x != ""
    requires Parse(p, x).1 != More
    ensures SameOutcome(Beyond(Parse(p, x), y), Parse(p, x + y))
  {
    hide WellFormed, StepBody;
    BodyStays(p, x);
    BodyBeyond(p, x, y);
  }

  /** After a verdict, the outcome on longer input is known from the outcome so far. */
  lemma {:induction false} ParseBeyond(p: Parser, x: string, y: string)
    requires WellFormed(p)
    requires Parse(p, x).1 != More
    ensures SameOutcome(Beyond(Parse(p, x), y), Parse(p, x + y))
    decreases |x|
  {
    hide StepByte, StepBody, WellFormed;
    if p.state == BodyState {
      BodyEnds(p, x, y);
    } else {
      HeadTail(x, y);
      ParseStep(p, x[0], x[1..]);
      ParseStep(p, x[0], x[1..] + y);
      if StepByte(p, x[0]).1 == More {
        ParseBeyond(StepByte(p, x[0]).0, x[1..], y);
      } else {
        VerdictOutsideBody(p, x[0]);
      }
    }
  }

  lemma VerdictOutsideBody(p: Parser, c: char)
    requires WellFormed(p) && p.state != BodyState && StepByte(p, c).1 != More
    ensures StepByte(p, c).0.state != BodyState
  {
  }

  /** Feeding pieces one after the other until there is a verdict; also says how many were used. */
  function Feed(p: Parser, pieces: seq<string>): (r: (Parser, Verdict, nat))
    requires WellFormed(p)
    ensures r.2 <= |pieces|
    decreases |pieces|
  {
    if |pieces| == 0 then (p, More, 0) else
      var first := Parse(p, pieces[0]);
      if first.1 != More then (first.0, first.1, 1) else
        var rest := Feed(first.0, pieces[1..]);
        (rest.0, rest.1, rest.2 + 1)
  }

  function Join(pieces: seq<string>): string {
    if |pieces| == 0 then "" else pieces[0] + Join(pieces[1..])
  }

  /** However a request is cut into pieces, the outcome is that of the pieces joined. */
  lemma {:induction false} FeedIsParse(p: Parser, pieces: seq<string>)
    requires WellFormed(p)
    ensures var fed := Feed(p, pieces);
            var whole := Parse(p, Join(pieces[..fed.2]));
            fed.1 == whole.1 && (fed.1 != Reject ==> fed.0 == whole.0)
    decreases |pieces|, 1
  {
    hide Parse, WellFormed;
    var fed := Feed(p, pieces);
    if |pieces| == 0 {
      assert pieces[..fed.2] == [];
      ParseEmpty(p);
    } else {
      FeedPiece(p, pieces);
    }
  }

  lemma ParseEmpty(p: Parser)
    requires WellFormed(p)
    ensures Parse(p, "") == (p, More, "")
  {
  }

  lemma {:induction false} JoinFirst(pieces: seq<string>, n: nat)
    requires 0 < n <= |pieces|
    ensures Join(pieces[..n]) == pieces[0] + Join(pieces[1..][..n - 1])
  {
    assert pieces[..n][1..] == pieces[1..][..n - 1];
  }

  lemma {:induction false} FeedPiece(p: Parser, pieces: seq<string>)
    requires WellFormed(p) && |pieces| > 0
    ensures var fed := Feed(p, pieces);
            var whole := Parse(p, Join(pieces[..fed.2]));
            fed.1 == whole.1 && (fed.1 != Reject ==> fed.0 == whole.0)
    decreases |pieces|, 0
  {
    hide Parse, WellFormed;
    var fed := Feed(p, pieces);
    var first := Parse(p, pieces[0]);
    JoinFirst(pieces, fed.2);
    if first.1 != More {
      assert pieces[1..][..0] == [];
      assert pieces[0] + "" == pieces[0];
    } else {
      FeedIsParse(first.0, pieces[1..]);
      ParseSplit(p, pieces[0], Join(pieces[1..][..fed.2 - 1]));
    }
  }
}
