/** The incremental HTTP/1.x request parser: its states, limits and per-byte steps. */
module HttpParser {

  datatype ParseState =
    | MethodStart | Method | Uri
    | VersionH | VersionT1 | VersionT2 | VersionP | VersionSlash
    | MajorStart | Major | MinorStart | Minor | ExpectingNewline1
    | HeaderLineStart | HeaderLws | HeaderName | SpaceBeforeHeaderValue | HeaderValue
    | ExpectingNewline2 | ExpectingNewline3 | BodyState

  datatype Field = Field(name: string, value: string)

  datatype Verdict = More | Accept | Reject

  const MAX_METHOD_LEN: nat := 16
  const MAX_URI_LEN: nat := 8192
  const MAX_HEADER_NAME_LEN: nat := 256
  const MAX_HEADER_VALUE_LEN: nat := 8192
  const MAX_HEADER_COUNT: nat := 64
  const MAX_BODY_SIZE: nat := 67108864
  const INVALID_LENGTH: nat := 0xFFFF_FFFF_FFFF_FFFF

  datatype Parser = Parser(
    state: ParseState, verb: string, uri: string, major: nat, minor: nat,
    headers: seq<Field>, content: string, transferred: nat, contentLength: nat)

  const FRESH: Parser := Parser(MethodStart, "", "", 0, 0, [], "", 0, INVALID_LENGTH)

  // Character classes.

  predicate IsChar(c: char) {
    c as int <= 127
  }

  predicate IsCtl(c: char) {
    c as int <= 31 || c as int == 127
  }

  predicate IsTspecial(c: char) {
    c in "()<>@,;:\\\"/[]?={} \t"
  }

  predicate IsDigit(c: char) {
    '0' <= c <= '9'
  }

  predicate IsToken(c: char) {
    IsChar(c) && !IsCtl(c) && !IsTspecial(c)
  }

  function DigitOf(c: char): nat
    requires IsDigit(c)
  {
    c as int - '0' as int
  }

  // Content-Length.

  predicate IsSpace(c: char) {
    c == ' ' || 9 <= c as int <= 13
  }

  function SkipSpaces(s: string): string {
    if |s| > 0 && IsSpace(s[0]) then SkipSpaces(s[1..]) else s
  }

  /** Value of the digits a string starts with. */
  function LeadingNumber(s: string, value: nat): nat {
    if |s| > 0 && IsDigit(s[0]) then LeadingNumber(s[1..], value * 10 + DigitOf(s[0])) else value
  }

  /** strtoull with base 10: spaces, a sign, digits; saturating, and negative numbers wrap. */
  function Strtoull(s: string): nat {
    var t := SkipSpaces(s);
    var negative := |t| > 0 && t[0] == '-';
    var digits := if |t| > 0 && (t[0] == '-' || t[0] == '+') then t[1..] else t;
    var value := LeadingNumber(digits, 0);
    if value > INVALID_LENGTH then INVALID_LENGTH
    else if negative && value > 0 then INVALID_LENGTH + 1 - value
    else value
  }

  predicate IsLengthName(name: string) {
    name == "content-length" || name == "Content-Length"
  }

  /** The length the first length header announces; 0 if there is none. */
  function AnnouncedLength(headers: seq<Field>): nat {
    if |headers| == 0 then 0
    else if IsLengthName(headers[0].name) then Strtoull(headers[0].value)
    else AnnouncedLength(headers[1..])
  }

  /** The length is looked up in the headers once, and then cached. */
  function WithLength(p: Parser): Parser {
    if p.contentLength != INVALID_LENGTH then p else p.(contentLength := AnnouncedLength(p.headers))
  }

  predicate TransferDone(p: Parser) {
    p.transferred >= p.contentLength
  }

  // One byte outside the body.

  function Fail(p: Parser): (Parser, Verdict) {
    (p, Reject)
  }

  function Go(p: Parser, state: ParseState): (Parser, Verdict) {
    (p.(state := state), More)
  }

  function Expect(p: Parser, c: char, wanted: char, state: ParseState): (Parser, Verdict) {
    if c == wanted then Go(p, state) else Fail(p)
  }

  function StepLine(p: Parser, c: char): (Parser, Verdict)
    requires p.state.MethodStart? || p.state.Method? || p.state.Uri?
  {
    match p.state
    case MethodStart =>
      if !IsToken(c) then Fail(p) else (p.(state := Method, verb := p.verb + [c]), More)
    case Method =>
      if c == ' ' then Go(p, Uri)
      else if !IsToken(c) || |p.verb| >= MAX_METHOD_LEN then Fail(p)
      else (p.(verb := p.verb + [c]), More)
    case Uri =>
      if c == ' ' then Go(p, VersionH)
      else if IsCtl(c) || |p.uri| >= MAX_URI_LEN then Fail(p)
      else (p.(uri := p.uri + [c]), More)
  }

  predicate InVersion(state: ParseState) {
    match state
    case VersionH | VersionT1 | VersionT2 | VersionP | VersionSlash => true
    case MajorStart | Major | MinorStart | Minor | ExpectingNewline1 => true
    case _ => false
  }

  function StepVersion(p: Parser, c: char): (Parser, Verdict)
    requires InVersion(p.state)
  {
    match p.state
    case VersionH => Expect(p, c, 'H', VersionT1)
    case VersionT1 => Expect(p, c, 'T', VersionT2)
    case VersionT2 => Expect(p, c, 'T', VersionP)
    case VersionP => Expect(p, c, 'P', VersionSlash)
    case VersionSlash => if c == '/' then (p.(state := MajorStart, major := 0, minor := 0), More) else Fail(p)
    case MajorStart => if IsDigit(c) then (p.(state := Major, major := p.major * 10 + DigitOf(c)), More) else Fail(p)
    case Major =>
      if c == '.' then Go(p, MinorStart)
      else if IsDigit(c) then (p.(major := p.major * 10 + DigitOf(c)), More)
      else Fail(p)
    case MinorStart => if IsDigit(c) then (p.(state := Minor, minor := p.minor * 10 + DigitOf(c)), More) else Fail(p)
    case Minor =>
      if c == '\r' then Go(p, ExpectingNewline1)
      else if IsDigit(c) then (p.(minor := p.minor * 10 + DigitOf(c)), More)
      else Fail(p)
    case ExpectingNewline1 => Expect(p, c, '\n', HeaderLineStart)
  }

  /** Adds a byte to the value of the last header. */
  function PushValue(p: Parser, c: char): Parser
    requires p.headers != []
  {
    var k := |p.headers| - 1;
    p.(state := HeaderValue, headers := p.headers[k := p.headers[k].(value := p.headers[k].value + [c])])
  }

  function PushName(p: Parser, c: char): Parser
    requires p.headers != []
  {
    var k := |p.headers| - 1;
    p.(headers := p.headers[k := p.headers[k].(name := p.headers[k].name + [c])])
  }

  predicate ValueFull(p: Parser) {
    p.headers != [] && |p.headers[|p.headers| - 1].value| >= MAX_HEADER_VALUE_LEN
  }

  predicate NameFull(p: Parser) {
    p.headers != [] && |p.headers[|p.headers| - 1].name| >= MAX_HEADER_NAME_LEN
  }

  /** States that work on the last header. */
  predicate InHeader(state: ParseState) {
    state.HeaderLws? || state.HeaderName? || state.SpaceBeforeHeaderValue? || state.HeaderValue?
  }

  function StepHeader(p: Parser, c: char): (Parser, Verdict)
    requires InHeader(p.state) && p.headers != []
  {
    match p.state
    case HeaderLws =>
      if c == '\r' then Go(p, ExpectingNewline2)
      else if c == ' ' || c == '\t' then (p, More)
      else if IsCtl(c) then Fail(p)
      else if ValueFull(p) then Fail(p.(state := HeaderValue))
      else (PushValue(p, c), More)
    case HeaderName =>
      if c == ':' then Go(p, SpaceBeforeHeaderValue)
      else if !IsToken(c) || NameFull(p) then Fail(p)
      else (PushName(p, c), More)
    case SpaceBeforeHeaderValue => Expect(p, c, ' ', HeaderValue)
    case HeaderValue =>
      if c == '\r' then Go(p, ExpectingNewline2)
      else if IsCtl(c) || ValueFull(p) then Fail(p)
      else (PushValue(p, c), More)
  }

  function StepLineStart(p: Parser, c: char): (Parser, Verdict) {
    if c == '\r' then Go(p, ExpectingNewline3)
    else if p.headers != [] && (c == ' ' || c == '\t') then Go(p, HeaderLws)
    else if !IsToken(c) || |p.headers| >= MAX_HEADER_COUNT then Fail(p)
    else (p.(state := HeaderName, headers := p.headers + [Field([c], "")]), More)
  }

  /** The newline that ends the header section. */
  function StepEnd(p: Parser, c: char): (Parser, Verdict) {
    var q := p.(transferred := 0);
    if c != '\n' then Fail(q) else
      var r := WithLength(q);
      if TransferDone(r) then (r, Accept) else Go(r, BodyState)
  }

  /** A parser works on its last header only when it has one. */
  predicate WellFormed(p: Parser) {
    InHeader(p.state) ==> p.headers != []
  }

  function StepByte(p: Parser, c: char): (Parser, Verdict)
    requires WellFormed(p) && p.state != BodyState
  {
    if InVersion(p.state) then StepVersion(p, c)
    else if InHeader(p.state) then StepHeader(p, c)
    else if p.state.HeaderLineStart? then StepLineStart(p, c)
    else if p.state.ExpectingNewline2? then Expect(p, c, '\n', HeaderLineStart)
    else if p.state.ExpectingNewline3? then StepEnd(p, c)
    else StepLine(p, c)
  }

  /** In the body all bytes at hand are taken at once. */
  function StepBody(p: Parser, chunk: string): (Parser, Verdict) {
    if p.contentLength > MAX_BODY_SIZE || |p.content| + |chunk| > MAX_BODY_SIZE then Fail(p) else
      var q := WithLength(p.(transferred := p.transferred + |chunk|, content := p.content + chunk));
      (q, if TransferDone(q) then Accept else More)
  }

  lemma StepKeepsWellFormed(p: Parser, c: char)
    requires WellFormed(p) && p.state != BodyState
    ensures WellFormed(StepByte(p, c).0)
  {
  }

  /** Feeding input until the verdict is known or the input is used up; also says what was not looked at. */
  function Parse(p: Parser, input: string): (r: (Parser, Verdict, string))
    requires WellFormed(p)
    ensures WellFormed(r.0)
    ensures r.1 == More ==> r.2 == ""
    decreases |input|
  {
    if |input| == 0 then (p, More, "")
    else if p.state == BodyState then
      var (q, v) := StepBody(p, input);
      (q, v, if v == Reject then input else "")
    else
      StepKeepsWellFormed(p, input[0]);
      var (q, v) := StepByte(p, input[0]);
      if v == More then Parse(q, input[1..]) else (q, v, input[1..])
  }
}
