/** The request parser in literal terms: its character classes, limits, length headers and folded lines. */
module HttpFacts {
  import opened HttpParser
  import opened HttpParsing
  import opened HttpPrinting

  // Characters.

  predicate OtherTokenChar(c: char) {
    c in "!#$%&'*+-.^_`|~"
  }

  lemma OneOfFifteen(c: char)
    ensures OtherTokenChar(c) <==>
            || c == '!' || '#' <= c <= '\'' || c == '*' || c == '+' || c == '-' || c == '.'
            || '^' <= c <= '`' || c == '|' || c == '~'
  {
  }

  /** Tokens are made of letters, digits and fifteen other characters, as section 5.6.2 of RFC 9110 has them. */
  lemma {:induction false} TokenChars(c: char)
    ensures IsToken(c) <==>
            'a' <= c <= 'z' || 'A' <= c <= 'Z' || '0' <= c <= '9' || OtherTokenChar(c)
  {
    hide OtherTokenChar;
    OneOfFifteen(c);
  }

  lemma ControlChars(c: char)
    ensures IsCtl(c) <==> c < ' ' || c == '\U{7f}'
  {
  }

  // Limits.

  /** A token byte is refused exactly if the method has 16 bytes already; the others likewise. */
  lemma {:induction false} LimitsAre(p: Parser, c: char)
    requires WellFormed(p) && IsToken(c)
    ensures p.state.Method? ==> (StepByte(p, c).1 == Reject <==> |p.verb| >= 16)
    ensures p.state.Uri? ==> (StepByte(p, c).1 == Reject <==> |p.uri| >= 8192)
    ensures p.state.HeaderLineStart? ==> (StepByte(p, c).1 == Reject <==> |p.headers| >= 64)
    ensures p.state.HeaderName? ==> (StepByte(p, c).1 == Reject <==> |p.headers[|p.headers| - 1].name| >= 256)
    ensures p.state.HeaderValue? ==> (StepByte(p, c).1 == Reject <==> |p.headers[|p.headers| - 1].value| >= 8192)
  {
    TokenPlain(c);
    hide IsToken, IsCtl;
  }

  lemma TokenPlain(c: char)
    requires IsToken(c)
    ensures !IsCtl(c) && c != ' ' && c != ':' && c != '\r' && c != '\t' && c != '\n'
  {
  }

  /** A body is refused exactly if it is announced or would become longer than 64 MiB. */
  lemma {:induction false} BodyLimit(p: Parser, chunk: string)
    ensures StepBody(p, chunk).1 == Reject <==>
            p.contentLength > 64 * 1024 * 1024 || |p.content| + |chunk| > 64 * 1024 * 1024
  {
    hide AnnouncedLength;
  }

  // Length headers.

  predicate NoLength(headers: seq<Field>) {
    forall f :: f in headers ==> f.name != "content-length" && f.name != "Content-Length"
  }

  /** Without a header of one of the two names no body is announced. */
  lemma {:induction false} NothingAnnounced(headers: seq<Field>)
    requires NoLength(headers)
    ensures AnnouncedLength(headers) == 0
    decreases |headers|
  {
    if headers != [] {
      assert headers[0] in headers;
      NothingAnnounced(headers[1..]);
    }
  }

  /** The first header of one of the two names announces the length, whatever comes before and after it. */
  lemma {:induction false} FirstAnnounces(before: seq<Field>, name: string, n: nat, rest: seq<Field>)
    requires NoLength(before) && (name == "content-length" || name == "Content-Length") && n <= INVALID_LENGTH
    ensures AnnouncedLength(before + [Field(name, Decimal(n))] + rest) == n
    decreases |before|
  {
    hide Decimal;
    var f := Field(name, Decimal(n));
    var all := before + [f] + rest;
    if before == [] {
      assert all == [f] + rest;
      AnnouncedDecimal(f, rest, n);
    } else {
      assert before[0] in before && all[0] == before[0];
      assert all[1..] == before[1..] + [f] + rest;
      FirstAnnounces(before[1..], name, n, rest);
    }
  }

  /** The printed request up to and including the blank line. */
  function PrintHead(r: Request): string {
    PrintLine(r) + PrintHeaders(r.headers) + "\r" + "\n"
  }

  /** A request is complete exactly when as many body bytes as announced have arrived. */
  lemma {:induction false} BodyArrives(r: Request, k: nat)
    requires Acceptable(r) && k <= |r.body|
    ensures Parse(FRESH, PrintHead(r) + r.body[..k]).1 == if k >= AnnouncedLength(r.headers) then Accept else More
  {
    hide Parse, Reaches, Acceptable, PrintLine, PrintHeaders;
    var head := PrintLine(r) + PrintHeaders(r.headers) + "\r";
    HeadRun(r);
    GoesOn(FRESH, head, AfterHeaders(r), "\n" + r.body[..k]);
    BodySoFar(r, k);
    assert PrintHead(r) + r.body[..k] == head + ("\n" + r.body[..k]);
  }

  lemma {:induction false} BodySoFar(r: Request, k: nat)
    requires Acceptable(r) && k <= |r.body|
    ensures Parse(AfterHeaders(r), "\n" + r.body[..k]).1 == if k >= AnnouncedLength(r.headers) then Accept else More
  {
    hide AnnouncedLength, VerbOk, UriOk, HeadersOk;
    var p := AfterHeaders(r);
    ParseStep(p, '\n', r.body[..k]);
  }

  /** With a length header the request is not accepted before its body is there, and then it is. */
  lemma {:induction false} LengthHeaderWaits(r: Request, before: seq<Field>, name: string, rest: seq<Field>, k: nat)
    requires Acceptable(r) && NoLength(before) && (name == "content-length" || name == "Content-Length")
    requires r.headers == before + [Field(name, Decimal(|r.body|))] + rest && k <= |r.body|
    ensures Parse(FRESH, PrintHead(r) + r.body[..k]).1 == if k == |r.body| then Accept else More
  {
    hide Parse, PrintHead, Decimal, AnnouncedLength;
    FirstAnnounces(before, name, |r.body|, rest);
    BodyArrives(r, k);
  }

  // strtoull.

  predicate AllSpace(s: string) {
    forall c :: c in s ==> IsSpace(c)
  }

  lemma {:induction false} SpacesSkipped(spaces: string, s: string)
    requires AllSpace(spaces) && (s == "" || !IsSpace(s[0]))
    ensures SkipSpaces(spaces + s) == s
    decreases |spaces|
  {
    if spaces == "" {
      assert spaces + s == s;
    } else {
      assert spaces[0] in spaces;
      assert (spaces + s)[1..] == spaces[1..] + s;
      SpacesSkipped(spaces[1..], s);
    }
  }

  lemma {:induction false} NumberStops(s: string, rest: string, value: nat)
    requires Digits(s) && (rest == "" || !IsDigit(rest[0]))
    ensures LeadingNumber(s + rest, value) == LeadingNumber(s, value)
    decreases |s|
  {
    hide IsDigit, DigitOf;
    if s == "" {
      assert s + rest == rest;
    } else {
      assert s[0] in s;
      assert (s + rest)[1..] == s[1..] + rest;
      NumberStops(s[1..], rest, value * 10 + DigitOf(s[0]));
    }
  }

  /** A number after spaces and perhaps a sign: the digits count up to the first other byte, too large a number
      is the largest one, and a minus sign wraps. */
  lemma {:induction false} StrtoullIs(spaces: string, sign: string, n: nat, rest: string)
    requires AllSpace(spaces) && (sign == "" || sign == "+" || sign == "-") && (rest == "" || !IsDigit(rest[0]))
    ensures Strtoull(spaces + (sign + (Decimal(n) + rest)))
         == if n > 0xFFFF_FFFF_FFFF_FFFF then 0xFFFF_FFFF_FFFF_FFFF
            else if sign == "-" && n > 0 then 0x1_0000_0000_0000_0000 - n
            else n
  {
    hide Decimal, SkipSpaces, LeadingNumber;
    DecimalValue(n);
    var digits := Decimal(n) + rest;
    NumberStops(Decimal(n), rest, 0);
    assert Decimal(n)[0] in Decimal(n) && IsDigit(digits[0]);
    var t := sign + digits;
    if sign == "" {
      assert t == digits;
    } else {
      assert t[1..] == digits;
    }
    SpacesSkipped(spaces, t);
  }

  // Folded lines.

  predicate Blanks(s: string) {
    forall i :: 0 <= i < |s| ==> s[i] == ' ' || s[i] == '\t'
  }

  lemma {:induction false} BlanksRun(p: Parser, s: string)
    requires p.state.HeaderLws? && p.headers != [] && Blanks(s)
    ensures Reaches(p, s, p)
    decreases |s|
  {
    hide Reaches;
    if s == "" {
      Still(p);
    } else {
      BlanksRun(p, s[1..]);
      ByteThen(p, s, p, p);
    }
  }

  /** After the blanks the line goes on where the value ended. */
  lemma {:induction false} FoldedValue(p: Parser, before: seq<Field>, f: Field, more: string)
    requires p.state.HeaderLws? && p.headers == before + [f] && more != "" && more[0] != ' ' && Visible(more)
    requires |f.value| + |more| <= 8192
    ensures Reaches(p, more, p.(state := HeaderValue, headers := before + [f.(value := f.value + more)]))
  {
    hide Reaches, IsCtl;
    assert more[0] in more;
    var g := f.(value := f.value + [more[0]]);
    var q := p.(state := HeaderValue, headers := before + [g]);
    FoldedByte(p, before, f, more[0]);
    assert Visible(more[1..]);
    ValueRun(q, before, g, more[1..]);
    assert g.value + more[1..] == f.value + more;
    ByteThen(p, more, q, p.(state := HeaderValue, headers := before + [f.(value := f.value + more)]));
  }

  lemma {:induction false} FoldedByte(p: Parser, before: seq<Field>, f: Field, c: char)
    requires p.state.HeaderLws? && p.headers == before + [f] && !IsCtl(c) && c != ' ' && |f.value| < 8192
    ensures StepByte(p, c) == (p.(state := HeaderValue, headers := before + [f.(value := f.value + [c])]), More)
  {
    assert p.headers[|before| := f.(value := f.value + [c])] == before + [f.(value := f.value + [c])];
  }

  /** A header line and a folded line after it make one header, whose value is the two parts without the blanks. */
  lemma {:induction false} FoldedRun(p: Parser, f: Field, blanks: string, more: string)
    requires p.state.HeaderLineStart? && FieldOk(f) && |p.headers| < 64
    requires blanks != "" && Blanks(blanks)
    requires more != "" && more[0] != ' ' && Visible(more) && |f.value| + |more| <= 8192
    ensures Reaches(p, PrintField(f) + blanks + more + "\r\n",
                    p.(headers := p.headers + [f.(value := f.value + more)]))
  {
    hide Reaches, FieldOk, PrintField, Visible, Blanks;
    var line := p.(headers := p.headers + [f]);
    var folded := line.(state := HeaderLws);
    var full := line.(state := HeaderValue, headers := p.headers + [f.(value := f.value + more)]);
    FieldRun(p, f);
    BlankStart(line, folded, blanks);
    Chain(p, PrintField(f), line, blanks, folded);
    FoldedValue(folded, p.headers, f, more);
    Chain(p, PrintField(f) + blanks, folded, more, full);
    ValueEnd(full);
    Chain(p, PrintField(f) + blanks + more, full, "\r\n", p.(headers := p.headers + [f.(value := f.value + more)]));
  }

  lemma {:induction false} BlankStart(p: Parser, q: Parser, blanks: string)
    requires p.state.HeaderLineStart? && p.headers != [] && q == p.(state := HeaderLws) && blanks != "" && Blanks(blanks)
    ensures Reaches(p, blanks, q)
  {
    hide Reaches;
    BlanksRun(q, blanks[1..]);
    ByteThen(p, blanks, q, q);
  }
}
