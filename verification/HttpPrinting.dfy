/** The requests the parser can accept, and that each of them is parsed back from its printed form. */
module HttpPrinting {
  import opened HttpParser
  import opened HttpParsing

  datatype Request = Request(verb: string, uri: string, major: nat, minor: nat, headers: seq<Field>, body: string)

  // Which fields can come out of the parser.

  predicate Tokens(s: string) {
    forall c :: c in s ==> IsToken(c)
  }

  predicate Visible(s: string) {
    forall c :: c in s ==> !IsCtl(c)
  }

  predicate FieldOk(f: Field) {
    0 < |f.name| <= MAX_HEADER_NAME_LEN && Tokens(f.name) && |f.value| <= MAX_HEADER_VALUE_LEN && Visible(f.value)
  }

  predicate HeadersOk(headers: seq<Field>) {
    |headers| <= MAX_HEADER_COUNT && forall f :: f in headers ==> FieldOk(f)
  }

  predicate VerbOk(verb: string) {
    0 < |verb| <= MAX_METHOD_LEN && Tokens(verb)
  }

  predicate UriOk(uri: string) {
    |uri| <= MAX_URI_LEN && Visible(uri) && ' ' !in uri
  }

  /** The body is as long as announced; a request that announces nothing has none. */
  predicate BodyOk(headers: seq<Field>, body: string) {
    AnnouncedLength(headers) <= |body| <= MAX_BODY_SIZE && (AnnouncedLength(headers) == 0 ==> body == "")
  }

  predicate Acceptable(r: Request) {
    VerbOk(r.verb) && UriOk(r.uri) && HeadersOk(r.headers) && BodyOk(r.headers, r.body)
  }

  function RequestOf(p: Parser): Request {
    Request(p.verb, p.uri, p.major, p.minor, p.headers, p.content)
  }

  // Limits, in every state and after every byte.

  predicate LineLimits(p: Parser) {
    UriOk(p.uri) && (if p.state == MethodStart then p.verb == "" else VerbOk(p.verb))
  }

  /** Nothing of the body before the body, and exactly what was transferred in it. */
  predicate BodyLimits(p: Parser) {
    if p.state != BodyState then p.content == "" && p.contentLength == INVALID_LENGTH
    else
      && p.contentLength == AnnouncedLength(p.headers) > 0
      && p.transferred == |p.content| <= MAX_BODY_SIZE
  }

  predicate Limits(p: Parser) {
    LineLimits(p) && HeadersOk(p.headers) && BodyLimits(p) && WellFormed(p)
  }

  lemma {:induction false} TokensPush(s: string, c: char)
    requires Tokens(s) && IsToken(c)
    ensures Tokens(s + [c])
  {
    hide IsToken;
  }

  lemma {:induction false} VisiblePush(s: string, c: char)
    requires Visible(s) && !IsCtl(c)
    ensures Visible(s + [c])
  {
    hide IsCtl;
  }

  lemma {:induction false} HeadersPush(headers: seq<Field>, f: Field)
    requires HeadersOk(headers) && |headers| < MAX_HEADER_COUNT && FieldOk(f)
    ensures HeadersOk(headers + [f])
  {
    hide FieldOk;
  }

  lemma {:induction false} HeadersReplace(headers: seq<Field>, k: nat, f: Field)
    requires HeadersOk(headers) && k < |headers| && FieldOk(f)
    ensures HeadersOk(headers[k := f])
  {
    hide FieldOk;
    forall g | g in headers[k := f] ensures FieldOk(g) {
      var i :| 0 <= i < |headers| && headers[k := f][i] == g;
      assert i != k ==> headers[i] in headers;
    }
  }

  lemma {:induction false} LineStepLimits(p: Parser, c: char)
    requires Limits(p) && (p.state.MethodStart? || p.state.Method? || p.state.Uri?)
    ensures Limits(StepLine(p, c).0)
  {
    hide Tokens, Visible, IsToken, IsCtl, HeadersOk, AnnouncedLength;
    if IsToken(c) {
      TokensStart(c);
      if p.state.Method? { TokensPush(p.verb, c); }
    }
    if !IsCtl(c) { VisiblePush(p.uri, c); }
  }

  lemma {:induction false} TokensStart(c: char)
    requires IsToken(c)
    ensures Tokens([c]) && Tokens("" + [c])
  {
    hide IsToken;
  }

  lemma {:induction false} VersionStepLimits(p: Parser, c: char)
    requires Limits(p) && InVersion(p.state)
    ensures Limits(StepVersion(p, c).0)
  {
    hide UriOk, VerbOk, HeadersOk, AnnouncedLength;
  }

  lemma {:induction false} PushValueLimits(p: Parser, c: char)
    requires Limits(p) && p.headers != [] && !ValueFull(p) && !IsCtl(c)
    requires p.state.HeaderLws? || p.state.HeaderValue?
    ensures Limits(PushValue(p, c))
  {
    hide Tokens, Visible, IsToken, IsCtl, AnnouncedLength, UriOk, VerbOk, HeadersOk;
    var k := |p.headers| - 1;
    LastOk(p.headers);
    VisiblePush(p.headers[k].value, c);
    HeadersReplace(p.headers, k, p.headers[k].(value := p.headers[k].value + [c]));
  }

  lemma {:induction false} PushNameLimits(p: Parser, c: char)
    requires Limits(p) && p.headers != [] && !NameFull(p) && IsToken(c)
    requires p.state.HeaderName?
    ensures Limits(PushName(p, c))
  {
    hide Tokens, Visible, IsToken, IsCtl, AnnouncedLength, UriOk, VerbOk, HeadersOk;
    var k := |p.headers| - 1;
    LastOk(p.headers);
    TokensPush(p.headers[k].name, c);
    HeadersReplace(p.headers, k, p.headers[k].(name := p.headers[k].name + [c]));
  }

  lemma LastOk(headers: seq<Field>)
    requires HeadersOk(headers) && headers != []
    ensures FieldOk(headers[|headers| - 1])
  {
  }

  lemma {:induction false} HeaderStepLimits(p: Parser, c: char)
    requires Limits(p) && InHeader(p.state)
    ensures Limits(StepHeader(p, c).0)
  {
    hide UriOk, VerbOk, HeadersOk, AnnouncedLength, IsToken, IsCtl, PushValue, PushName, NameFull, ValueFull;
    if (p.state.HeaderLws? || p.state.HeaderValue?) && !ValueFull(p) && !IsCtl(c) {
      PushValueLimits(p, c);
    }
    if p.state.HeaderName? && !NameFull(p) && IsToken(c) {
      PushNameLimits(p, c);
    }
  }

  lemma {:induction false} LineStartLimits(p: Parser, c: char)
    requires Limits(p) && p.state.HeaderLineStart?
    ensures Limits(StepLineStart(p, c).0)
  {
    hide UriOk, VerbOk, HeadersOk, AnnouncedLength, IsToken, Tokens, Visible;
    if IsToken(c) && |p.headers| < MAX_HEADER_COUNT {
      TokensStart(c);
      NothingVisible();
      HeadersPush(p.headers, Field([c], ""));
    }
  }

  lemma NothingVisible()
    ensures Visible("")
  {
  }

  /** A parser with a verdict: a complete request, or fields that are still within the limits. */
  predicate Verdicts(p: Parser, v: Verdict) {
    && (v != Accept ==> Limits(p))
    && (v == Accept ==> Acceptable(RequestOf(p)) && p.contentLength == AnnouncedLength(p.headers) && p.transferred == |p.content|)
  }

  lemma {:induction false} EndStepLimits(p: Parser, c: char)
    requires Limits(p) && p.state.ExpectingNewline3?
    ensures Verdicts(StepEnd(p, c).0, StepEnd(p, c).1)
  {
    hide UriOk, VerbOk, HeadersOk, AnnouncedLength;
  }

  lemma {:induction false} StepVerdicts(p: Parser, c: char)
    requires Limits(p) && p.state != BodyState
    ensures Verdicts(StepByte(p, c).0, StepByte(p, c).1)
  {
    hide Limits, StepLine, StepVersion, StepHeader, StepLineStart, StepEnd;
    LimitsWellFormed(p);
    if InVersion(p.state) {
      VersionStepLimits(p, c);
    } else if InHeader(p.state) {
      HeaderStepLimits(p, c);
    } else if p.state.HeaderLineStart? {
      LineStartLimits(p, c);
    } else if p.state.ExpectingNewline2? {
      NextLineLimits(p);
    } else if p.state.ExpectingNewline3? {
      EndStepLimits(p, c);
    } else {
      LineStepLimits(p, c);
    }
    NotAccepted(p, c);
  }

  lemma LimitsWellFormed(p: Parser)
    requires Limits(p)
    ensures WellFormed(p)
  {
  }

  lemma {:induction false} NextLineLimits(p: Parser)
    requires Limits(p) && p.state.ExpectingNewline2?
    ensures Limits(p.(state := HeaderLineStart))
  {
    hide UriOk, VerbOk, HeadersOk, AnnouncedLength;
  }

  /** Only the last newline of the headers can accept. */
  lemma NotAccepted(p: Parser, c: char)
    requires WellFormed(p) && p.state != BodyState
    ensures StepByte(p, c).1 == Accept ==> p.state.ExpectingNewline3?
  {
  }

  lemma {:induction false} BodyStepVerdicts(p: Parser, chunk: string)
    requires Limits(p) && p.state == BodyState
    ensures Verdicts(StepBody(p, chunk).0, StepBody(p, chunk).1)
  {
    hide UriOk, VerbOk, HeadersOk, AnnouncedLength;
  }

  /** Every field of every request accepted is within its limits, and the body is as announced. */
  lemma {:induction false} ParseVerdicts(p: Parser, input: string)
    requires Limits(p)
    ensures WellFormed(p) && Verdicts(Parse(p, input).0, Parse(p, input).1)
    decreases |input|
  {
    hide Limits, Verdicts, StepByte, StepBody, WellFormed;
    LimitsWellFormed(p);
    if input == "" {
      VerdictMore(p);
    } else if p.state == BodyState {
      BodyStepVerdicts(p, input);
    } else {
      HeadTail(input, "");
      ParseStep(p, input[0], input[1..]);
      StepVerdicts(p, input[0]);
      if StepByte(p, input[0]).1 == More {
        VerdictMore(StepByte(p, input[0]).0);
        ParseVerdicts(StepByte(p, input[0]).0, input[1..]);
      }
    }
  }

  lemma VerdictMore(p: Parser)
    ensures Verdicts(p, More) <==> Limits(p)
  {
  }

  // Printing.

  function Digit(n: nat): char
    requires n < 10
  {
    ('0' as int + n) as char
  }

  function Decimal(n: nat): (s: string)
    ensures s != ""
  {
    if n < 10 then [Digit(n)] else Decimal(n / 10) + [Digit(n % 10)]
  }

  function PrintField(f: Field): string {
    f.name + ": " + f.value + "\r\n"
  }

  function PrintHeaders(headers: seq<Field>): string {
    if |headers| == 0 then "" else PrintField(headers[0]) + PrintHeaders(headers[1..])
  }

  function PrintLine(r: Request): string {
    r.verb + " " + r.uri + " HTTP/" + Decimal(r.major) + "." + Decimal(r.minor) + "\r\n"
  }

  function Print(r: Request): string {
    PrintLine(r) + PrintHeaders(r.headers) + "\r" + "\n" + r.body
  }

  /** Input that leads from one parser to another, before the body. */
  predicate Reaches(p: Parser, x: string, q: Parser) {
    WellFormed(p) && WellFormed(q) && q.state != BodyState && Parse(p, x) == (q, More, "")
  }

  /** Before the body, parsing simply goes on behind what was read. */
  lemma {:induction false} GoesOn(p: Parser, x: string, q: Parser, y: string)
    requires Reaches(p, x, q)
    ensures WellFormed(p) && WellFormed(q) && Parse(p, x + y) == Parse(q, y)
    decreases |x|
  {
    hide StepByte, StepBody, WellFormed;
    if x == "" {
      assert x + y == y;
    } else {
      OutsideBody(p, x, q);
      HeadTail(x, y);
      ParseStep(p, x[0], x[1..]);
      ParseStep(p, x[0], x[1..] + y);
      GoesOn(StepByte(p, x[0]).0, x[1..], q, y);
    }
  }

  lemma OutsideBody(p: Parser, x: string, q: Parser)
    requires Reaches(p, x, q) && x != ""
    ensures p.state != BodyState
  {
  }

  lemma {:induction false} Chain(p: Parser, x: string, q: Parser, y: string, r: Parser)
    requires Reaches(p, x, q) && Reaches(q, y, r)
    ensures Reaches(p, x + y, r)
  {
    hide Parse, WellFormed;
    GoesOn(p, x, q, y);
  }

  lemma {:induction false} Byte(p: Parser, c: char, q: Parser)
    requires WellFormed(p) && p.state != BodyState && StepByte(p, c) == (q, More) && q.state != BodyState
    ensures Reaches(p, [c], q)
  {
    hide StepByte;
    assert [c] + "" == [c];
    ParseStep(p, c, "");
  }

  lemma {:induction false} ByteThen(p: Parser, s: string, q: Parser, r: Parser)
    requires s != "" && WellFormed(p) && p.state != BodyState
    requires StepByte(p, s[0]) == (q, More) && q.state != BodyState
    requires Reaches(q, s[1..], r)
    ensures Reaches(p, s, r)
  {
    hide StepByte, Reaches, WellFormed;
    Byte(p, s[0], q);
    assert s == [s[0]] + s[1..];
    Chain(p, [s[0]], q, s[1..], r);
  }

  lemma Still(p: Parser)
    requires WellFormed(p) && p.state != BodyState
    ensures Reaches(p, "", p)
  {
  }

  lemma {:induction false} VerbRun(p: Parser, s: string)
    requires p.state.Method? && Tokens(s) && |p.verb| + |s| <= MAX_METHOD_LEN
    ensures Reaches(p, s, p.(verb := p.verb + s))
    decreases |s|
  {
    hide Reaches, IsToken;
    if s == "" {
      Still(p);
      assert p.verb + s == p.verb;
    } else {
      var q := p.(verb := p.verb + [s[0]]);
      VerbByte(p, s[0]);
      VerbRun(q, s[1..]);
      assert p.verb + s == q.verb + s[1..];
      ByteThen(p, s, q, p.(verb := p.verb + s));
    }
  }

  lemma VerbByte(p: Parser, c: char)
    requires p.state.Method? && IsToken(c) && |p.verb| < MAX_METHOD_LEN
    ensures StepByte(p, c) == (p.(verb := p.verb + [c]), More)
  {
  }

  lemma {:induction false} UriRun(p: Parser, s: string)
    requires p.state.Uri? && Visible(s) && ' ' !in s && |p.uri| + |s| <= MAX_URI_LEN
    ensures Reaches(p, s, p.(uri := p.uri + s))
    decreases |s|
  {
    hide Reaches, IsCtl;
    if s == "" {
      Still(p);
      assert p.uri + s == p.uri;
    } else {
      var q := p.(uri := p.uri + [s[0]]);
      UriRun(q, s[1..]);
      assert p.uri + s == q.uri + s[1..];
      ByteThen(p, s, q, p.(uri := p.uri + s));
    }
  }

  predicate Digits(s: string) {
    forall c :: c in s ==> IsDigit(c)
  }

  lemma {:induction false} MajorRun(p: Parser, s: string)
    requires p.state.Major? && Digits(s)
    ensures Reaches(p, s, p.(major := LeadingNumber(s, p.major)))
    decreases |s|
  {
    hide Reaches, IsDigit, DigitOf;
    if s == "" {
      Still(p);
    } else {
      var q := p.(major := p.major * 10 + DigitOf(s[0]));
      MajorByte(p, s[0]);
      MajorRun(q, s[1..]);
      ByteThen(p, s, q, p.(major := LeadingNumber(s, p.major)));
    }
  }

  lemma MajorByte(p: Parser, c: char)
    requires (p.state.Major? || p.state.MajorStart?) && IsDigit(c)
    ensures StepByte(p, c) == (p.(state := Major, major := p.major * 10 + DigitOf(c)), More)
  {
  }

  lemma {:induction false} MinorRun(p: Parser, s: string)
    requires p.state.Minor? && Digits(s)
    ensures Reaches(p, s, p.(minor := LeadingNumber(s, p.minor)))
    decreases |s|
  {
    hide Reaches, IsDigit, DigitOf;
    if s == "" {
      Still(p);
    } else {
      var q := p.(minor := p.minor * 10 + DigitOf(s[0]));
      MinorByte(p, s[0]);
      MinorRun(q, s[1..]);
      ByteThen(p, s, q, p.(minor := LeadingNumber(s, p.minor)));
    }
  }

  lemma MinorByte(p: Parser, c: char)
    requires (p.state.Minor? || p.state.MinorStart?) && IsDigit(c)
    ensures StepByte(p, c) == (p.(state := Minor, minor := p.minor * 10 + DigitOf(c)), More)
  {
  }

  lemma {:induction false} LeadingPush(s: string, c: char, value: nat)
    requires Digits(s) && IsDigit(c)
    ensures LeadingNumber(s + [c], value) == LeadingNumber(s, value) * 10 + DigitOf(c)
    decreases |s|
  {
    hide IsDigit, DigitOf;
    if s == "" {
      assert ([c])[1..] == "";
      assert s + [c] == [c];
    } else {
      assert (s + [c])[1..] == s[1..] + [c];
      LeadingPush(s[1..], c, value * 10 + DigitOf(s[0]));
    }
  }

  /** Decimal digits read back as the number they came from. */
  lemma {:induction false} DecimalValue(n: nat)
    ensures Digits(Decimal(n)) && LeadingNumber(Decimal(n), 0) == n
  {
    if n < 10 {
      assert [Digit(n)][1..] == "";
    } else {
      DecimalValue(n / 10);
      LeadingPush(Decimal(n / 10), Digit(n % 10), 0);
    }
  }

  lemma {:induction false} NameRun(p: Parser, before: seq<Field>, f: Field, s: string)
    requires p.state.HeaderName? && p.headers == before + [f]
    requires Tokens(s) && |f.name| + |s| <= MAX_HEADER_NAME_LEN
    ensures Reaches(p, s, p.(headers := before + [f.(name := f.name + s)]))
    decreases |s|
  {
    hide Reaches, IsToken;
    if s == "" {
      Still(p);
      assert f.name + s == f.name;
    } else {
      var g := f.(name := f.name + [s[0]]);
      var q := p.(headers := before + [g]);
      NameByte(p, before, f, s[0]);
      NameRun(q, before, g, s[1..]);
      assert g.name + s[1..] == f.name + s;
      ByteThen(p, s, q, p.(headers := before + [f.(name := f.name + s)]));
    }
  }

  lemma {:induction false} NameByte(p: Parser, before: seq<Field>, f: Field, c: char)
    requires p.state.HeaderName? && p.headers == before + [f] && IsToken(c) && |f.name| < MAX_HEADER_NAME_LEN
    ensures StepByte(p, c) == (p.(headers := before + [f.(name := f.name + [c])]), More)
  {
    assert p.headers[|before| := f.(name := f.name + [c])] == before + [f.(name := f.name + [c])];
  }

  lemma {:induction false} ValueRun(p: Parser, before: seq<Field>, f: Field, s: string)
    requires p.state.HeaderValue? && p.headers == before + [f]
    requires Visible(s) && |f.value| + |s| <= MAX_HEADER_VALUE_LEN
    ensures Reaches(p, s, p.(headers := before + [f.(value := f.value + s)]))
    decreases |s|
  {
    hide Reaches, IsCtl;
    if s == "" {
      Still(p);
      assert f.value + s == f.value;
    } else {
      var g := f.(value := f.value + [s[0]]);
      var q := p.(headers := before + [g]);
      ValueByte(p, before, f, s[0]);
      ValueRun(q, before, g, s[1..]);
      assert g.value + s[1..] == f.value + s;
      ByteThen(p, s, q, p.(headers := before + [f.(value := f.value + s)]));
    }
  }

  lemma {:induction false} ValueByte(p: Parser, before: seq<Field>, f: Field, c: char)
    requires p.state.HeaderValue? && p.headers == before + [f] && !IsCtl(c) && |f.value| < MAX_HEADER_VALUE_LEN
    ensures StepByte(p, c) == (p.(headers := before + [f.(value := f.value + [c])]), More)
  {
    assert p.headers[|before| := f.(value := f.value + [c])] == before + [f.(value := f.value + [c])];
  }

  /** Two bytes that each take one step. */
  lemma {:induction false} TwoBytes(p: Parser, c: char, q: Parser, d: char, r: Parser)
    requires WellFormed(p) && p.state != BodyState && StepByte(p, c) == (q, More)
    requires WellFormed(q) && q.state != BodyState && StepByte(q, d) == (r, More) && r.state != BodyState
    ensures Reaches(p, [c, d], r)
  {
    hide StepByte, Reaches, WellFormed;
    Byte(p, c, q);
    Byte(q, d, r);
    Chain(p, [c], q, [d], r);
    assert [c] + [d] == [c, d];
  }

  lemma {:induction false} NamePart(p: Parser, f: Field)
    requires p.state.HeaderLineStart? && FieldOk(f) && |p.headers| < MAX_HEADER_COUNT
    ensures Reaches(p, f.name, p.(state := HeaderName, headers := p.headers + [Field(f.name, "")]))
  {
    hide Reaches, IsToken;
    var first := Field([f.name[0]], "");
    var q := p.(state := HeaderName, headers := p.headers + [first]);
    NameStart(p, f.name[0]);
    assert Tokens(f.name[1..]);
    NameRun(q, p.headers, first, f.name[1..]);
    assert first.name + f.name[1..] == f.name;
    ByteThen(p, f.name, q, p.(state := HeaderName, headers := p.headers + [Field(f.name, "")]));
  }

  lemma NameStart(p: Parser, c: char)
    requires p.state.HeaderLineStart? && IsToken(c) && |p.headers| < MAX_HEADER_COUNT
    ensures StepByte(p, c) == (p.(state := HeaderName, headers := p.headers + [Field([c], "")]), More)
  {
  }

  lemma {:induction false} ColonSpace(p: Parser)
    requires p.state.HeaderName? && p.headers != []
    ensures Reaches(p, ": ", p.(state := HeaderValue))
  {
    hide Reaches;
    TwoBytes(p, ':', p.(state := SpaceBeforeHeaderValue), ' ', p.(state := HeaderValue));
  }

  lemma {:induction false} ValueEnd(p: Parser)
    requires p.state.HeaderValue? && p.headers != []
    ensures Reaches(p, "\r\n", p.(state := HeaderLineStart))
  {
    hide Reaches;
    TwoBytes(p, '\r', p.(state := ExpectingNewline2), '\n', p.(state := HeaderLineStart));
  }

  /** A printed header line adds exactly that header. */
  lemma {:induction false} FieldRun(p: Parser, f: Field)
    requires p.state.HeaderLineStart? && FieldOk(f) && |p.headers| < MAX_HEADER_COUNT
    ensures Reaches(p, PrintField(f), p.(headers := p.headers + [f]))
  {
    hide Reaches, Tokens, Visible;
    var named := p.(state := HeaderName, headers := p.headers + [Field(f.name, "")]);
    var ready := named.(state := HeaderValue);
    var full := p.(state := HeaderValue, headers := p.headers + [f]);
    NamePart(p, f);
    ColonSpace(named);
    Chain(p, f.name, named, ": ", ready);
    ValueRun(ready, p.headers, Field(f.name, ""), f.value);
    assert "" + f.value == f.value;
    Chain(p, f.name + ": ", ready, f.value, full);
    ValueEnd(full);
    Chain(p, f.name + ": " + f.value, full, "\r\n", p.(headers := p.headers + [f]));
  }

  lemma {:induction false} HeadersRun(p: Parser, headers: seq<Field>)
    requires p.state.HeaderLineStart? && |p.headers| + |headers| <= MAX_HEADER_COUNT
    requires forall f :: f in headers ==> FieldOk(f)
    ensures Reaches(p, PrintHeaders(headers), p.(headers := p.headers + headers))
    decreases |headers|
  {
    hide Reaches, FieldOk, PrintField;
    if headers == [] {
      Still(p);
      assert p.headers + headers == p.headers;
    } else {
      var q := p.(headers := p.headers + [headers[0]]);
      FieldRun(p, headers[0]);
      HeadersRun(q, headers[1..]);
      assert q.headers + headers[1..] == p.headers + headers;
      Chain(p, PrintField(headers[0]), q, PrintHeaders(headers[1..]), p.(headers := p.headers + headers));
    }
  }

  // The request line.

  lemma {:induction false} VerbPart(verb: string)
    requires VerbOk(verb)
    ensures Reaches(FRESH, verb, FRESH.(state := Method, verb := verb))
  {
    hide Reaches, IsToken;
    var q := FRESH.(state := Method, verb := [verb[0]]);
    FirstByte(verb[0]);
    VerbRun(q, verb[1..]);
    assert [verb[0]] + verb[1..] == verb;
    ByteThen(FRESH, verb, q, FRESH.(state := Method, verb := verb));
  }

  lemma {:induction false} FirstByte(c: char)
    requires IsToken(c)
    ensures StepByte(FRESH, c) == (FRESH.(state := Method, verb := [c]), More)
  {
    assert "" + [c] == [c];
  }

  lemma {:induction false} VersionPart(p: Parser)
    requires p.state.Uri? && p.major == 0 && p.minor == 0
    ensures Reaches(p, " HTTP/", p.(state := MajorStart))
  {
    hide Reaches;
    TwoBytes(p, ' ', p.(state := VersionH), 'H', p.(state := VersionT1));
    TwoBytes(p.(state := VersionT1), 'T', p.(state := VersionT2), 'T', p.(state := VersionP));
    TwoBytes(p.(state := VersionP), 'P', p.(state := VersionSlash), '/', p.(state := MajorStart));
    Chain(p, " H", p.(state := VersionT1), "TT", p.(state := VersionP));
    assert " H" + "TT" == " HTT";
    Chain(p, " HTT", p.(state := VersionP), "P/", p.(state := MajorStart));
    assert " HTT" + "P/" == " HTTP/";
  }

  lemma {:induction false} MajorPart(p: Parser, n: nat)
    requires p.state.MajorStart? && p.major == 0
    ensures Reaches(p, Decimal(n), p.(state := Major, major := n))
  {
    hide Reaches, Decimal, IsDigit, DigitOf;
    DecimalValue(n);
    var s := Decimal(n);
    var q := p.(state := Major, major := DigitOf(s[0]));
    MajorByte(p, s[0]);
    assert LeadingNumber(s, 0) == LeadingNumber(s[1..], DigitOf(s[0]));
    MajorRun(q, s[1..]);
    ByteThen(p, s, q, p.(state := Major, major := n));
  }

  lemma {:induction false} MinorPart(p: Parser, n: nat)
    requires p.state.MinorStart? && p.minor == 0
    ensures Reaches(p, Decimal(n), p.(state := Minor, minor := n))
  {
    hide Reaches, Decimal, IsDigit, DigitOf;
    DecimalValue(n);
    var s := Decimal(n);
    var q := p.(state := Minor, minor := DigitOf(s[0]));
    MinorByte(p, s[0]);
    assert LeadingNumber(s, 0) == LeadingNumber(s[1..], DigitOf(s[0]));
    MinorRun(q, s[1..]);
    ByteThen(p, s, q, p.(state := Minor, minor := n));
  }

  lemma {:induction false} LineEnd(p: Parser)
    requires p.state.Minor?
    ensures Reaches(p, "\r\n", p.(state := HeaderLineStart))
  {
    hide Reaches;
    TwoBytes(p, '\r', p.(state := ExpectingNewline1), '\n', p.(state := HeaderLineStart));
  }

  function AfterUri(r: Request): Parser {
    FRESH.(state := Uri, verb := r.verb, uri := r.uri)
  }

  function AfterLine(r: Request): Parser {
    AfterUri(r).(state := HeaderLineStart, major := r.major, minor := r.minor)
  }

  lemma {:induction false} UriPart(r: Request)
    requires Acceptable(r)
    ensures Reaches(FRESH, r.verb + " " + r.uri, AfterUri(r))
  {
    hide Reaches, Tokens, Visible, HeadersOk, BodyOk;
    var named := FRESH.(state := Method, verb := r.verb);
    VerbPart(r.verb);
    Byte(named, ' ', named.(state := Uri));
    Chain(FRESH, r.verb, named, " ", named.(state := Uri));
    UriRun(named.(state := Uri), r.uri);
    assert "" + r.uri == r.uri;
    Chain(FRESH, r.verb + " ", named.(state := Uri), r.uri, AfterUri(r));
  }

  lemma {:induction false} VersionRun(p: Parser, major: nat, minor: nat)
    requires p.state.Uri? && p.major == 0 && p.minor == 0
    ensures Reaches(p, " HTTP/" + Decimal(major) + "." + Decimal(minor), p.(state := Minor, major := major, minor := minor))
  {
    hide Reaches, Decimal;
    var started := p.(state := MajorStart);
    var majored := p.(state := Major, major := major);
    var dotted := p.(state := MinorStart, major := major);
    VersionPart(p);
    MajorPart(started, major);
    Chain(p, " HTTP/", started, Decimal(major), majored);
    Byte(majored, '.', dotted);
    Chain(p, " HTTP/" + Decimal(major), majored, ".", dotted);
    MinorPart(dotted, minor);
    Chain(p, " HTTP/" + Decimal(major) + ".", dotted, Decimal(minor), p.(state := Minor, major := major, minor := minor));
  }

  lemma {:induction false} LineRun(r: Request)
    requires Acceptable(r)
    ensures Reaches(FRESH, PrintLine(r), AfterLine(r))
  {
    hide Reaches, Decimal, Acceptable;
    var version := " HTTP/" + Decimal(r.major) + "." + Decimal(r.minor);
    var numbered := AfterUri(r).(state := Minor, major := r.major, minor := r.minor);
    UriPart(r);
    VersionRun(AfterUri(r), r.major, r.minor);
    Chain(FRESH, r.verb + " " + r.uri, AfterUri(r), version, numbered);
    LineEnd(numbered);
    Chain(FRESH, r.verb + " " + r.uri + version, numbered, "\r\n", AfterLine(r));
    assert PrintLine(r) == r.verb + " " + r.uri + version + "\r\n";
  }

  // The whole request.

  /** The parser after a request: with a body if one was announced. */
  function Parsed(r: Request): Parser {
    Parser(if AnnouncedLength(r.headers) == 0 then ExpectingNewline3 else BodyState,
           r.verb, r.uri, r.major, r.minor, r.headers, r.body, |r.body|, AnnouncedLength(r.headers))
  }

  function AfterHeaders(r: Request): Parser {
    AfterLine(r).(state := ExpectingNewline3, headers := r.headers)
  }

  lemma {:induction false} HeadRun(r: Request)
    requires Acceptable(r)
    ensures Reaches(FRESH, PrintLine(r) + PrintHeaders(r.headers) + "\r", AfterHeaders(r))
  {
    hide Reaches, PrintLine, PrintHeaders, FieldOk, BodyOk, VerbOk, UriOk;
    var filled := AfterLine(r).(headers := r.headers);
    LineRun(r);
    HeadersRun(AfterLine(r), r.headers);
    assert [] + r.headers == r.headers;
    Chain(FRESH, PrintLine(r), AfterLine(r), PrintHeaders(r.headers), filled);
    Byte(filled, '\r', AfterHeaders(r));
    Chain(FRESH, PrintLine(r) + PrintHeaders(r.headers), filled, "\r", AfterHeaders(r));
  }

  lemma {:induction false} BodyRun(r: Request)
    requires Acceptable(r)
    ensures Parse(AfterHeaders(r), "\n" + r.body) == (Parsed(r), Accept, "")
  {
    hide AnnouncedLength, VerbOk, UriOk, HeadersOk, StepBody;
    var p := AfterHeaders(r);
    ParseStep(p, '\n', r.body);
    if AnnouncedLength(r.headers) != 0 {
      BodyTaken(r, StepByte(p, '\n').0);
    }
  }

  lemma {:induction false} BodyTaken(r: Request, p: Parser)
    requires Acceptable(r) && AnnouncedLength(r.headers) != 0
    requires p == AfterHeaders(r).(state := BodyState, contentLength := AnnouncedLength(r.headers))
    ensures r.body != "" && StepBody(p, r.body) == (Parsed(r), Accept)
  {
    hide AnnouncedLength, VerbOk, UriOk, HeadersOk;
    assert "" + r.body == r.body;
  }

  /** Every request within the limits is parsed back exactly from its printed form. */
  lemma {:induction false} RoundTrip(r: Request)
    requires Acceptable(r)
    ensures Parse(FRESH, Print(r)) == (Parsed(r), Accept, "")
    ensures RequestOf(Parsed(r)) == r
  {
    hide Parse, Reaches, Acceptable, PrintLine, PrintHeaders;
    var head := PrintLine(r) + PrintHeaders(r.headers) + "\r";
    HeadRun(r);
    GoesOn(FRESH, head, AfterHeaders(r), "\n" + r.body);
    BodyRun(r);
    assert Print(r) == head + ("\n" + r.body);
  }

  /** The parser can produce a request exactly if the request is within the limits. */
  lemma {:induction false} AcceptedExactly(r: Request)
    ensures Acceptable(r)
       <==> exists input :: Parse(FRESH, input).1 == Accept && RequestOf(Parse(FRESH, input).0) == r
  {
    hide Parse, Acceptable, Print;
    if Acceptable(r) {
      RoundTrip(r);
    }
    forall input | Parse(FRESH, input).1 == Accept && RequestOf(Parse(FRESH, input).0) == r
      ensures Acceptable(r)
    {
      FreshLimits();
      ParseVerdicts(FRESH, input);
    }
  }

  lemma FreshLimits()
    ensures Limits(FRESH)
  {
  }

  /** A length header written in decimal announces that length. */
  lemma {:induction false} AnnouncedDecimal(f: Field, rest: seq<Field>, n: nat)
    requires IsLengthName(f.name) && f.value == Decimal(n) && n <= INVALID_LENGTH
    ensures AnnouncedLength([f] + rest) == n
  {
    hide Decimal;
    DecimalValue(n);
    var s := Decimal(n);
    assert s[0] in s && IsDigit(s[0]);
    assert SkipSpaces(s) == s;
  }
}
