/** Base64 with two alphabets and their padding characters. */
module Base64 {

  datatype Option<T> = None | Some(value: T)

  /** A byte of text. */
  type Octet = c: char | c as int < 256 witness 'A'

  /** What tells the two alphabets apart: the last two characters and the padding. */
  datatype Alphabet = Normal | FileSystem

  const INVALID: nat := 0x80

  function Pad(a: Alphabet): Octet {
    if a.Normal? then '=' else '+'
  }

  /** Upper case, lower case, digits, and two characters that depend on the alphabet. */
  function CharOf(a: Alphabet, i: nat): (c: Octet)
    requires i < 64
  {
    if i < 26 then ('A' as int + i) as char
    else if i < 52 then ('a' as int + i - 26) as char
    else if i < 62 then ('0' as int + i - 52) as char
    else if i == 62 then (if a.Normal? then '+' else '-')
    else if a.Normal? then '/' else '_'
  }

  /** The position of a byte in the alphabet; the mark for all other bytes. */
  function Rank(a: Alphabet, c: Octet): (r: nat)
    ensures r == INVALID || (r < 64 && CharOf(a, r) == c)
  {
    if 'A' <= c <= 'Z' then c as int - 'A' as int
    else if 'a' <= c <= 'z' then c as int - 'a' as int + 26
    else if '0' <= c <= '9' then c as int - '0' as int + 52
    else if c == CharOf(a, 62) then 62
    else if c == CharOf(a, 63) then 63
    else INVALID
  }

  const UPPER: string := "ABCDEFGHIJKLMNOPQRSTUVWXYZ"

  const LOWER: string := "abcdefghijklmnopqrstuvwxyz"

  const DIGITS: string := "0123456789"

  /** The alphabets, written out. */
  const NORMAL_CHARS: string := UPPER + LOWER + DIGITS + "+/"

  const FILE_SYSTEM_CHARS: string := UPPER + LOWER + DIGITS + "-_"

  lemma {:induction false} Letters(i: nat)
    requires i < 26
    ensures |UPPER| == |LOWER| == 26
    ensures UPPER[i] == ('A' as int + i) as char && LOWER[i] == ('a' as int + i) as char
  {
    assert i == 0 || i == 1 || i == 2 || i == 3 || i == 4 || i == 5 || i == 6 || i == 7 || i == 8
        || i == 9 || i == 10 || i == 11 || i == 12 || i == 13 || i == 14 || i == 15 || i == 16 || i == 17
        || i == 18 || i == 19 || i == 20 || i == 21 || i == 22 || i == 23 || i == 24 || i == 25;
  }

  lemma {:induction false} TenDigits(i: nat)
    requires i < 10
    ensures |DIGITS| == 10 && DIGITS[i] == ('0' as int + i) as char
  {
    assert i == 0 || i == 1 || i == 2 || i == 3 || i == 4 || i == 5 || i == 6 || i == 7 || i == 8 || i == 9;
  }

  lemma {:induction false} Alphabets(i: nat)
    requires i < 64
    ensures |NORMAL_CHARS| == |FILE_SYSTEM_CHARS| == 64
    ensures CharOf(Normal, i) == NORMAL_CHARS[i]
    ensures CharOf(FileSystem, i) == FILE_SYSTEM_CHARS[i]
  {
    Letters(if i < 26 then i else if i < 52 then i - 26 else 0);
    TenDigits(if 52 <= i < 62 then i - 52 else 0);
  }

  /** The two tables are inverse to each other. */
  lemma RankOfChar(a: Alphabet, i: nat)
    requires i < 64
    ensures Rank(a, CharOf(a, i)) == i
  {
  }

  lemma PadHasNoRank(a: Alphabet)
    ensures Rank(a, Pad(a)) == INVALID
  {
  }

  ghost predicate IsTable(a: Alphabet, table: seq<nat>) {
    |table| == 256 && forall k :: 0 <= k < 256 ==> table[k] == Rank(a, k as char)
  }

  /** Marks every byte, then enters the characters of the alphabet. */
  method GenerateDecodeTable(a: Alphabet) returns (table: seq<nat>)
    ensures IsTable(a, table)
  {
    hide CharOf, Rank;
    var cells := new nat[256];
    for i := 0 to 256
      invariant forall k :: 0 <= k < i ==> cells[k] == INVALID
    {
      cells[i] := INVALID;
    }
    for i := 0 to 64
      invariant forall k :: 0 <= k < 256 ==> cells[k] == if Rank(a, k as char) < i then Rank(a, k as char) else INVALID
    {
      RankOfChar(a, i);
      cells[CharOf(a, i) as int] := i;
    }
    table := cells[..];
  }

  // Three bytes in four characters.

  function Sextet(a: Alphabet, x: bv8): Octet {
    CharOf(a, (x & 0x3F) as int)
  }

  function First(b0: bv8): bv8 {
    b0 >> 2
  }

  function Second(b0: bv8, b1: bv8): bv8 {
    ((b0 & 0x3) << 4) | (b1 >> 4)
  }

  function Third(b1: bv8, b2: bv8): bv8 {
    (b1 << 2) | (b2 >> 6)
  }

  function Quad(a: Alphabet, b0: bv8, b1: bv8, b2: bv8): (q: seq<Octet>)
    ensures |q| == 4
  {
    [Sextet(a, First(b0)), Sextet(a, Second(b0, b1)), Sextet(a, Third(b1, b2)), Sextet(a, b2)]
  }

  /** The last one or two bytes, padded. */
  function Tail(a: Alphabet, rest: seq<bv8>): (q: seq<Octet>)
    requires 0 < |rest| < 3
    ensures |q| == 4
  {
    if |rest| == 2 then
      [Sextet(a, First(rest[0])), Sextet(a, Second(rest[0], rest[1])), Sextet(a, rest[1] << 2), Pad(a)]
    else
      [Sextet(a, First(rest[0])), Sextet(a, (rest[0] & 0x3) << 4), Pad(a), Pad(a)]
  }

  /** The encoding, three bytes at a time. */
  function Encoded(a: Alphabet, input: seq<bv8>): (text: seq<Octet>)
    ensures |text| == (|input| + 2) / 3 * 4
  {
    if |input| == 0 then []
    else if |input| < 3 then Tail(a, input)
    else Quad(a, input[0], input[1], input[2]) + Encoded(a, input[3..])
  }

  // And back.

  /** The characters of the bytes of "foo" and of its beginnings. */
  lemma FooSextets(a: Alphabet)
    ensures Sextet(a, First(0x66)) == 'Z' && Sextet(a, (0x66 & 0x3) << 4) == 'g'
    ensures Sextet(a, Second(0x66, 0x6F)) == 'm' && Sextet(a, 0x6F << 2) == '8'
    ensures Sextet(a, Third(0x6F, 0x6F)) == '9' && Sextet(a, 0x6F) == 'v'
  {
  }

  /** Test vectors of section 10 of RFC 4648, and the same bytes with the other padding. */
  lemma {:induction false} Vectors()
    ensures Encoded(Normal, [0x66]) == "Zg==" && Encoded(FileSystem, [0x66]) == "Zg++"
    ensures Encoded(Normal, [0x66, 0x6F]) == "Zm8=" && Encoded(FileSystem, [0x66, 0x6F]) == "Zm8+"
    ensures Encoded(Normal, [0x66, 0x6F, 0x6F]) == "Zm9v"
  {
    hide Sextet, First, Second, Third;
    FooSextets(Normal);
    FooSextets(FileSystem);
    assert [0x66 as bv8, 0x6F, 0x6F][3..] == [];
  }

  function Decode0(e0: bv8, e1: bv8): bv8 {
    (e0 << 2) | (e1 >> 4)
  }

  function Decode1(e1: bv8, e2: bv8): bv8 {
    (e1 << 4) | (e2 >> 2)
  }

  function Decode2(e2: bv8, e3: bv8): bv8 {
    (e2 << 6) | e3
  }

  /** What a character contributes. */
  function Bits(a: Alphabet, c: Octet): bv8 {
    Rank(a, c) as bv8
  }

  predicate Known(a: Alphabet, c: Octet) {
    Rank(a, c) < 64
  }

  /** The padding at the end of the last four characters. */
  function Pads(a: Alphabet, quad: seq<Octet>): (pads: nat)
    requires |quad| == 4
    ensures pads <= 2
  {
    if quad[3] != Pad(a) then 0 else if quad[2] != Pad(a) then 1 else 2
  }

  function QuadBytes(a: Alphabet, q: seq<Octet>): (bytes: seq<bv8>)
    requires |q| == 4
    ensures |bytes| == 3
  {
    [Decode0(Bits(a, q[0]), Bits(a, q[1])), Decode1(Bits(a, q[1]), Bits(a, q[2])), Decode2(Bits(a, q[2]), Bits(a, q[3]))]
  }

  predicate AllKnown(a: Alphabet, text: seq<Octet>) {
    forall c :: c in text ==> Known(a, c)
  }

  /** The decoding, four characters at a time; none if the text is not base64. */
  function Decoded(a: Alphabet, text: seq<Octet>): Option<seq<bv8>> {
    if |text| < 4 || |text| % 4 != 0 then None
    else if |text| == 4 then
      var pads := Pads(a, text);
      if AllKnown(a, text[..4 - pads]) then Some(QuadBytes(a, text)[..3 - pads]) else None
    else
      var rest := Decoded(a, text[4..]);
      if rest.None? || !AllKnown(a, text[..4]) then None else Some(QuadBytes(a, text[..4]) + rest.value)
  }

  /** A text can be decoded exactly if it comes in fours and all of it before the padding is in the alphabet. */
  lemma {:induction false} DecodableExactly(a: Alphabet, text: seq<Octet>)
    ensures Decoded(a, text).Some?
       <==> |text| >= 4 && |text| % 4 == 0 && AllKnown(a, text[..|text| - Pads(a, text[|text| - 4..])])
    decreases |text|
  {
    hide Pads, Known, QuadBytes;
    if |text| > 4 && |text| % 4 == 0 {
      var rest := text[4..];
      DecodableExactly(a, rest);
      assert rest[|rest| - 4..] == text[|text| - 4..];
      var pads := Pads(a, text[|text| - 4..]);
      assert text[..|text| - pads] == text[..4] + rest[..|rest| - pads];
    } else if |text| == 4 {
      assert text[0..] == text;
    }
  }

  // Round trip.

  lemma {:induction false} SextetBits(a: Alphabet, x: bv8)
    ensures Known(a, Sextet(a, x)) && Bits(a, Sextet(a, x)) == x & 0x3F
    ensures Sextet(a, x) != Pad(a)
  {
    hide Rank, CharOf;
    RankOfChar(a, (x & 0x3F) as int);
    PadHasNoRank(a);
  }

  lemma Byte0(b0: bv8, b1: bv8)
    ensures Decode0(First(b0) & 0x3F, Second(b0, b1) & 0x3F) == b0
    ensures Decode0(First(b0) & 0x3F, ((b0 & 0x3) << 4) & 0x3F) == b0
  {
  }

  lemma Byte1(b0: bv8, b1: bv8, b2: bv8)
    ensures Decode1(Second(b0, b1) & 0x3F, Third(b1, b2) & 0x3F) == b1
    ensures Decode1(Second(b0, b1) & 0x3F, (b1 << 2) & 0x3F) == b1
  {
  }

  lemma Byte2(b1: bv8, b2: bv8)
    ensures Decode2(Third(b1, b2) & 0x3F, b2 & 0x3F) == b2
  {
  }

  lemma {:induction false} QuadBack(a: Alphabet, b0: bv8, b1: bv8, b2: bv8)
    ensures AllKnown(a, Quad(a, b0, b1, b2)) && Pads(a, Quad(a, b0, b1, b2)) == 0
    ensures QuadBytes(a, Quad(a, b0, b1, b2)) == [b0, b1, b2]
  {
    hide Sextet, Known, Bits, First, Second, Third, Decode0, Decode1, Decode2;
    SextetBits(a, First(b0));
    SextetBits(a, Second(b0, b1));
    SextetBits(a, Third(b1, b2));
    SextetBits(a, b2);
    Byte0(b0, b1);
    Byte1(b0, b1, b2);
    Byte2(b1, b2);
  }

  lemma {:induction false} TailBack(a: Alphabet, rest: seq<bv8>)
    requires 0 < |rest| < 3
    ensures Pads(a, Tail(a, rest)) == 3 - |rest|
    ensures AllKnown(a, Tail(a, rest)[..1 + |rest|]) && QuadBytes(a, Tail(a, rest))[..|rest|] == rest
  {
    hide Sextet, Known, Bits, First, Second, Decode0, Decode1, Decode2;
    SextetBits(a, First(rest[0]));
    if |rest| == 2 {
      SextetBits(a, Second(rest[0], rest[1]));
      SextetBits(a, rest[1] << 2);
      Byte0(rest[0], rest[1]);
      Byte1(rest[0], rest[1], 0);
    } else {
      SextetBits(a, (rest[0] & 0x3) << 4);
      Byte0(rest[0], 0);
    }
  }

  lemma {:induction false} DecodedTail(a: Alphabet, rest: seq<bv8>)
    requires 0 < |rest| < 3
    ensures Decoded(a, Tail(a, rest)) == Some(rest)
  {
    hide Tail, Pads, AllKnown, QuadBytes;
    TailBack(a, rest);
  }

  lemma {:induction false} DecodedQuad(a: Alphabet, b0: bv8, b1: bv8, b2: bv8, more: seq<Octet>)
    requires |more| % 4 == 0
    ensures more == [] ==> Decoded(a, Quad(a, b0, b1, b2) + more) == Some([b0, b1, b2])
    ensures more != [] && Decoded(a, more).Some?
        ==> Decoded(a, Quad(a, b0, b1, b2) + more) == Some([b0, b1, b2] + Decoded(a, more).value)
  {
    hide Quad, Pads, AllKnown, QuadBytes;
    QuadBack(a, b0, b1, b2);
    var q := Quad(a, b0, b1, b2);
    assert (q + more)[..4] == q && (q + more)[4..] == more;
    if more == [] {
      assert q + more == q && q[..4] == q;
      assert QuadBytes(a, q)[..3] == QuadBytes(a, q);
    }
  }

  /** What was encoded is decoded again, unless it was nothing. */
  lemma {:induction false} RoundTrip(a: Alphabet, x: seq<bv8>)
    ensures Decoded(a, Encoded(a, x)) == if |x| == 0 then None else Some(x)
    decreases |x|
  {
    hide Quad, Tail, Decoded;
    if |x| == 0 {
      NothingDecoded(a);
    } else if |x| < 3 {
      DecodedTail(a, x);
    } else {
      RoundTrip(a, x[3..]);
      DecodedQuad(a, x[0], x[1], x[2], Encoded(a, x[3..]));
      assert x == [x[0], x[1], x[2]] + x[3..];
      if |x| == 3 { assert x == [x[0], x[1], x[2]]; }
    }
  }

  lemma NothingDecoded(a: Alphabet)
    ensures Decoded(a, []) == None
  {
  }

  /** Different bytes have different encodings. */
  lemma {:induction false} EncodedInjective(a: Alphabet, x: seq<bv8>, y: seq<bv8>)
    requires Encoded(a, x) == Encoded(a, y)
    ensures x == y
  {
    hide Encoded, Decoded;
    RoundTrip(a, x);
    RoundTrip(a, y);
  }

  // Encoding into a buffer.

  lemma {:induction false} EncodedAppend(a: Alphabet, x: seq<bv8>, y: seq<bv8>)
    requires |x| % 3 == 0
    ensures Encoded(a, x + y) == Encoded(a, x) + Encoded(a, y)
    decreases |x|
  {
    hide Quad, Tail;
    if |x| == 0 {
      assert x + y == y;
    } else {
      assert (x + y)[3..] == x[3..] + y;
      EncodedAppend(a, x[3..], y);
    }
  }

  lemma {:induction false} EncodedGroup(a: Alphabet, input: seq<bv8>, i: nat)
    requires 3 * i + 3 <= |input|
    ensures Encoded(a, input[..3 * i + 3])
         == Encoded(a, input[..3 * i]) + Quad(a, input[3 * i], input[3 * i + 1], input[3 * i + 2])
  {
    hide Quad, Tail;
    var group := input[3 * i..3 * i + 3];
    assert input[..3 * i + 3] == input[..3 * i] + group;
    assert group[3..] == [];
    EncodedAppend(a, input[..3 * i], group);
  }

  lemma {:induction false} EncodedTail(a: Alphabet, input: seq<bv8>, i: nat)
    requires 0 < |input| - 3 * i < 3
    ensures Encoded(a, input) == Encoded(a, input[..3 * i]) + Tail(a, input[3 * i..])
  {
    hide Quad, Tail;
    assert input == input[..3 * i] + input[3 * i..];
    EncodedAppend(a, input[..3 * i], input[3 * i..]);
  }

  method PutQuad(output: array<Octet>, at: nat, c0: Octet, c1: Octet, c2: Octet, c3: Octet)
    requires at + 4 <= output.Length
    modifies output
    ensures output[..] == old(output[..at]) + [c0, c1, c2, c3] + old(output[at + 4..])
  {
    output[at] := c0;
    output[at + 1] := c1;
    output[at + 2] := c2;
    output[at + 3] := c3;
  }

  /** The buffer after some of its bytes have been written. */
  ghost function Overwritten<T>(written: seq<T>, before: seq<T>): seq<T>
    requires |written| <= |before|
  {
    written + before[|written|..]
  }

  lemma OverwriteMore<T>(written: seq<T>, before: seq<T>, more: seq<T>, now: seq<T>)
    requires |written| + |more| <= |before| == |now| && now == Overwritten(written, before)
    ensures now[..|written|] + more + now[|written| + |more|..] == Overwritten(written + more, before)
  {
  }

  /** Writes the encoding if it fits and nothing if it does not. */
  method Encode(a: Alphabet, input: seq<bv8>, output: array<Octet>) returns (ok: bool, outSize: nat)
    modifies output
    ensures ok <==> |Encoded(a, input)| <= output.Length
    ensures outSize == if ok then |Encoded(a, input)| else 0
    ensures output[..] == if ok then Overwritten(Encoded(a, input), old(output[..])) else old(output[..])
  {
    hide Quad, Tail, Sextet, First, Second, Third, Encoded, Overwritten;
    ghost var before := output[..];
    NothingWritten(a, before);
    if |input| == 0 { return true, 0; }
    var groups := |input| / 3;
    var havePadding := |input| > groups * 3;
    var size := 4 * (groups + if havePadding then 1 else 0);
    if output.Length < size { return false, 0; }
    var i := 0;
    while i < groups
      invariant 0 <= i <= groups
      invariant output[..] == Overwritten(Encoded(a, input[..3 * i]), before)
    {
      EncodedGroup(a, input, i);
      PutGroup(a, input[3 * i], input[3 * i + 1], input[3 * i + 2], output, 4 * i, Encoded(a, input[..3 * i]), before);
      i := i + 1;
    }
    if havePadding {
      EncodedTail(a, input, i);
      PutTail(a, input[3 * i..], output, 4 * i, Encoded(a, input[..3 * i]), before);
    } else {
      assert input[..3 * i] == input;
    }
    return true, size;
  }

  lemma NothingWritten(a: Alphabet, before: seq<Octet>)
    ensures Encoded(a, []) == [] && Overwritten([], before) == before
  {
  }

  method PutGroup(a: Alphabet, b0: bv8, b1: bv8, b2: bv8, output: array<Octet>, at: nat,
                  ghost written: seq<Octet>, ghost before: seq<Octet>)
    requires |written| == at && at + 4 <= output.Length == |before| && output[..] == Overwritten(written, before)
    modifies output
    ensures output[..] == Overwritten(written + Quad(a, b0, b1, b2), before)
  {
    hide Sextet, First, Second, Third, Overwritten;
    OverwriteMore(written, before, Quad(a, b0, b1, b2), output[..]);
    PutQuad(output, at, Sextet(a, First(b0)), Sextet(a, Second(b0, b1)), Sextet(a, Third(b1, b2)), Sextet(a, b2));
  }

  method PutTail(a: Alphabet, rest: seq<bv8>, output: array<Octet>, at: nat,
                 ghost written: seq<Octet>, ghost before: seq<Octet>)
    requires 0 < |rest| < 3
    requires |written| == at && at + 4 <= output.Length == |before| && output[..] == Overwritten(written, before)
    modifies output
    ensures output[..] == Overwritten(written + Tail(a, rest), before)
  {
    hide Sextet, First, Second, Overwritten;
    OverwriteMore(written, before, Tail(a, rest), output[..]);
    if |rest| == 2 {
      PutQuad(output, at, Sextet(a, First(rest[0])), Sextet(a, Second(rest[0], rest[1])), Sextet(a, rest[1] << 2), Pad(a));
    } else {
      PutQuad(output, at, Sextet(a, First(rest[0])), Sextet(a, (rest[0] & 0x3) << 4), Pad(a), Pad(a));
    }
  }

  // Decoding into a buffer.

  function Prepend(x: seq<bv8>, rest: Option<seq<bv8>>): Option<seq<bv8>> {
    if rest.None? then None else Some(x + rest.value)
  }

  lemma {:induction false} DecodedGroup(a: Alphabet, text: seq<Octet>, j: nat, got: seq<bv8>, all: Option<seq<bv8>>)
    requires j + 8 <= |text| && (|text| - j) % 4 == 0 && all == Prepend(got, Decoded(a, text[j..]))
    ensures all == if AllKnown(a, text[j..j + 4]) then Prepend(got + QuadBytes(a, text[j..j + 4]), Decoded(a, text[j + 4..]))
                   else None
  {
    hide AllKnown, QuadBytes;
    var t := text[j..];
    assert t[..4] == text[j..j + 4] && t[4..] == text[j + 4..];
    if AllKnown(a, t[..4]) && Decoded(a, t[4..]).Some? {
      assert got + QuadBytes(a, t[..4]) + Decoded(a, t[4..]).value == got + (QuadBytes(a, t[..4]) + Decoded(a, t[4..]).value);
    }
  }

  /** The bytes of the groups before the last one, up to the first group with a character not in the alphabet. */
  function DecodedPart(a: Alphabet, text: seq<Octet>): seq<bv8> {
    if |text| <= 4 || !AllKnown(a, text[..4]) then [] else QuadBytes(a, text[..4]) + DecodedPart(a, text[4..])
  }

  lemma {:induction false} PartGroup(a: Alphabet, text: seq<Octet>, j: nat, got: seq<bv8>, all: seq<bv8>)
    requires j + 4 < |text| && all == got + DecodedPart(a, text[j..])
    ensures all == if AllKnown(a, text[j..j + 4]) then got + QuadBytes(a, text[j..j + 4]) + DecodedPart(a, text[j + 4..])
                   else got
  {
    hide AllKnown, QuadBytes;
    var t := text[j..];
    assert t[..4] == text[j..j + 4] && t[4..] == text[j + 4..];
  }

  lemma {:induction false} PartStart(a: Alphabet, text: seq<Octet>)
    ensures DecodedPart(a, text) == [] + DecodedPart(a, text[0..])
  {
    assert text[0..] == text;
  }

  lemma PartEnd(a: Alphabet, text: seq<Octet>, got: seq<bv8>)
    requires |text| == 4
    ensures got + DecodedPart(a, text) == got
  {
  }

  /** Looks characters up until one is not in the alphabet. */
  method LookUp(a: Alphabet, table: seq<nat>, chars: seq<Octet>) returns (ok: bool, values: seq<bv8>)
    requires IsTable(a, table)
    ensures ok <==> AllKnown(a, chars)
    ensures ok ==> |values| == |chars| && forall i :: 0 <= i < |chars| ==> values[i] == Bits(a, chars[i])
  {
    hide Rank;
    values := [];
    for i := 0 to |chars|
      invariant |values| == i && forall k :: 0 <= k < i ==> Known(a, chars[k]) && values[k] == Bits(a, chars[k])
    {
      var value := table[chars[i] as int];
      assert value == Rank(a, chars[i]);
      if value >= 0x80 {
        assert chars[i] in chars;
        return false, values;
      }
      values := values + [value as bv8];
    }
    ok := true;
  }

  method PutByte(output: array<bv8>, at: nat, byte: bv8, ghost written: seq<bv8>, ghost before: seq<bv8>)
    requires |written| == at < output.Length == |before| && output[..] == Overwritten(written, before)
    modifies output
    ensures output[..] == Overwritten(written + [byte], before)
  {
    OverwriteMore(written, before, [byte], output[..]);
    ghost var start := output[..];
    output[at] := byte;
    assert output[..] == start[..at] + [byte] + start[at + 1..];
  }

  /** Writes the bytes of four characters, fewer if some of them are padding. */
  method PutQuadBytes(a: Alphabet, q: seq<Octet>, values: seq<bv8>, pads: nat, output: array<bv8>, at: nat,
                      ghost written: seq<bv8>, ghost before: seq<bv8>)
    requires |q| == 4 && pads <= 2 && |values| == 4 - pads
    requires forall i :: 0 <= i < |values| ==> values[i] == Bits(a, q[i])
    requires |written| == at && at + 3 - pads <= output.Length == |before| && output[..] == Overwritten(written, before)
    modifies output
    ensures output[..] == Overwritten(written + QuadBytes(a, q)[..3 - pads], before)
  {
    hide Overwritten, Bits, Decode0, Decode1, Decode2;
    ghost var bytes := QuadBytes(a, q);
    PutByte(output, at, Decode0(values[0], values[1]), written, before);
    if pads < 2 {
      PutByte(output, at + 1, Decode1(values[1], values[2]), written + [bytes[0]], before);
      if pads == 0 {
        PutByte(output, at + 2, Decode2(values[2], values[3]), written + [bytes[0]] + [bytes[1]], before);
      }
    }
    assert written + [bytes[0]] == written + bytes[..1];
    assert written + [bytes[0]] + [bytes[1]] == written + bytes[..2];
    assert written + [bytes[0]] + [bytes[1]] + [bytes[2]] == written + bytes[..3];
  }

  /** Decodes all groups of four characters but the last. */
  method DecodeGroups(a: Alphabet, table: seq<nat>, text: seq<Octet>, output: array<bv8>)
    returns (ok: bool, k: nat, ghost got: seq<bv8>)
    requires IsTable(a, table) && |text| >= 4 && |text| % 4 == 0 && (|text| - 4) / 4 * 3 <= output.Length
    modifies output
    ensures !ok ==> Decoded(a, text) == None
    ensures got == DecodedPart(a, text) && |got| <= output.Length && output[..] == Overwritten(got, old(output[..]))
    ensures ok ==> k == |got| == (|text| - 4) / 4 * 3
    ensures ok ==> Decoded(a, text) == Prepend(got, Decoded(a, text[|text| - 4..]))
  {
    hide IsTable, QuadBytes, Overwritten, AllKnown, Bits, Decoded, Prepend, DecodedPart;
    ghost var before := output[..];
    got := [];
    NothingGot(a, text, before);
    PartStart(a, text);
    var j: nat := 0;
    k := 0;
    if |text| > 4 {
      var jMax := |text| - 7;
      while j < jMax
        invariant j <= |text| - 4 && j % 4 == 0 && k == j / 4 * 3 == |got|
        invariant output[..] == Overwritten(got, before)
        invariant Decoded(a, text) == Prepend(got, Decoded(a, text[j..]))
        invariant DecodedPart(a, text) == got + DecodedPart(a, text[j..])
      {
        DecodedGroup(a, text, j, got, Decoded(a, text));
        PartGroup(a, text, j, got, DecodedPart(a, text));
        var known, values := LookUp(a, table, text[j..j + 4]);
        if !known { return false, k, got; }
        PutQuadBytes(a, text[j..j + 4], values, 0, output, k, got, before);
        assert QuadBytes(a, text[j..j + 4])[..3] == QuadBytes(a, text[j..j + 4]);
        got := got + QuadBytes(a, text[j..j + 4]);
        j, k := j + 4, k + 3;
      }
    }
    PartEnd(a, text[j..], got);
    ok := true;
  }

  /** Whether decoding starts at all. */
  predicate Fits(a: Alphabet, text: seq<Octet>, size: nat) {
    |text| >= 4 && |text| % 4 == 0 && 3 * |text| / 4 - Pads(a, text[|text| - 4..]) <= size
  }

  /** Decodes if the text is base64 and the bytes fit; if only a character is wrong, what comes before it is written. */
  method Decode(a: Alphabet, table: seq<nat>, text: seq<Octet>, output: array<bv8>) returns (ok: bool, outSize: nat)
    requires IsTable(a, table)
    modifies output
    ensures ok <==> Decoded(a, text).Some? && |Decoded(a, text).value| <= output.Length
    ensures ok ==> outSize == |Decoded(a, text).value| && output[..] == Overwritten(Decoded(a, text).value, old(output[..]))
    ensures |text| >= 4 && |text| % 4 == 0 ==> outSize == 3 * |text| / 4 - Pads(a, text[|text| - 4..])
    ensures !ok && !Fits(a, text, output.Length) ==> output[..] == old(output[..])
    ensures !ok && Fits(a, text, output.Length) ==>
              |DecodedPart(a, text)| <= output.Length && output[..] == Overwritten(DecodedPart(a, text), old(output[..]))
  {
    hide IsTable, QuadBytes, Overwritten, AllKnown, Bits, Pads, Decoded, DecodedPart;
    if |text| == 0 || |text| % 4 != 0 {
      NotBase64(a, text);
      return false, 0;
    }
    var last := |text| - 4;
    var pads := Pads(a, text[last..]);
    outSize := 3 * |text| / 4 - pads;
    DecodedLength(a, text);
    if output.Length < outSize { return false, outSize; }
    ghost var before, all := output[..], Decoded(a, text);
    var valid, k, got := DecodeGroups(a, table, text, output);
    if !valid { return false, outSize; }
    LastQuad(a, text[last..], got, all);
    var known, values := LookUp(a, table, text[last..][..4 - pads]);
    if !known { return false, outSize; }
    PutQuadBytes(a, text[last..], values, pads, output, k, got, before);
    ok := true;
  }

  lemma NotBase64(a: Alphabet, text: seq<Octet>)
    requires |text| == 0 || |text| % 4 != 0
    ensures Decoded(a, text) == None
  {
  }

  lemma {:induction false} NothingGot(a: Alphabet, text: seq<Octet>, before: seq<bv8>)
    ensures Decoded(a, text) == Prepend([], Decoded(a, text[0..])) && Overwritten([], before) == before
  {
    hide Decoded;
    assert text[0..] == text;
    if Decoded(a, text).Some? {
      assert [] + Decoded(a, text).value == Decoded(a, text).value;
    }
  }

  lemma LastQuad(a: Alphabet, q: seq<Octet>, got: seq<bv8>, all: Option<seq<bv8>>)
    requires |q| == 4 && all == Prepend(got, Decoded(a, q))
    ensures all == if AllKnown(a, q[..4 - Pads(a, q)]) then Some(got + QuadBytes(a, q)[..3 - Pads(a, q)]) else None
  {
  }

  /** The number of decoded bytes is known from the length of the text and its padding. */
  lemma {:induction false} DecodedLength(a: Alphabet, text: seq<Octet>)
    requires |text| >= 4 && |text| % 4 == 0
    ensures Decoded(a, text).Some? ==> |Decoded(a, text).value| == 3 * |text| / 4 - Pads(a, text[|text| - 4..])
    decreases |text|
  {
    hide Pads, Decoded;
    if |text| == 4 {
      assert text[0..] == text;
      LengthOfLast(a, text);
    } else {
      LengthOfGroup(a, text);
      DecodedLength(a, text[4..]);
      assert text[4..][|text| - 8..] == text[|text| - 4..];
    }
  }

  lemma {:induction false} LengthOfLast(a: Alphabet, text: seq<Octet>)
    requires |text| == 4
    ensures Decoded(a, text).Some? ==> |Decoded(a, text).value| == 3 - Pads(a, text)
  {
    hide Pads, AllKnown, QuadBytes;
  }

  lemma {:induction false} LengthOfGroup(a: Alphabet, text: seq<Octet>)
    requires |text| > 4 && |text| % 4 == 0
    ensures Decoded(a, text).Some?
        ==> Decoded(a, text[4..]).Some? && |Decoded(a, text).value| == 3 + |Decoded(a, text[4..]).value|
  {
    hide Pads, AllKnown, QuadBytes;
  }
}
