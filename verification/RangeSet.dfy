/** A set of half-open ranges that merges on insertion and splits on removal. */
module RangeSet {

  function Min(a: int, b: int): int {
    if b < a then b else a
  }

  function Max(a: int, b: int): int {
    if a < b then b else a
  }

  datatype Range = Range(low: int, up: int) {
    predicate NonEmpty() {
      low < up
    }

    predicate InRange(v: int) {
      low <= v < up
    }

    /** The order of the underlying multiset; ranges that touch or overlap compare equal. */
    predicate Below(other: Range) {
      up < other.low
    }

    predicate HasPartialIntersection(other: Range) {
      || (InRange(other.low) && !InRange(other.up) && !(up > other.up))
      || (InRange(other.up) && !InRange(other.low))
    }

    predicate HasIntersection(other: Range) {
      || InRange(other.low)
      || (InRange(other.up) && other.up > low)
      || other.InRange(low)
      || (other.InRange(up) && up > other.low)
    }

    predicate Contains(other: Range) {
      InRange(other.low) && InRange(other.up)
    }

    function Combine(other: Range): Range {
      Range(Min(low, other.low), Max(up, other.up))
    }

    function Difference(other: Range): (Range, Range) {
      (Range(low, other.low), Range(other.up, up))
    }
  }

  // The canonical form and the points it stands for.

  /** Non-empty ranges in order, with a gap between any two. */
  ghost predicate Canonical(s: seq<Range>) {
    && (forall e :: e in s ==> e.NonEmpty())
    && (forall i, j :: 0 <= i < j < |s| ==> s[i].Below(s[j]))
  }

  ghost predicate Has(s: seq<Range>, x: int) {
    exists e :: e in s && e.InRange(x)
  }

  ghost predicate Apart(a: Range, b: Range) {
    a.Below(b) || b.Below(a)
  }

  lemma {:induction false} CanonicalApart(s: seq<Range>, a: Range, b: Range)
    requires Canonical(s) && a in s && b in s && a != b
    ensures Apart(a, b)
  {
    var i :| 0 <= i < |s| && s[i] == a;
    var j :| 0 <= j < |s| && s[j] == b;
  }

  /** Two overlapping members are one. */
  lemma {:induction false} OneHolds(s: seq<Range>, a: Range, b: Range, x: int)
    requires Canonical(s) && a in s && b in s && a.low <= x <= a.up && b.low <= x <= b.up
    ensures a == b
  {
    if a != b {
      CanonicalApart(s, a, b);
    }
  }

  /** A range whose points are all in the set lies inside one member. */
  lemma {:induction false} CoveredByOne(s: seq<Range>, r: Range) returns (e: Range)
    requires Canonical(s) && r.NonEmpty() && forall x :: r.InRange(x) ==> Has(s, x)
    ensures e in s && e.low <= r.low && r.up <= e.up
  {
    assert r.InRange(r.low);
    e :| e in s && e.InRange(r.low);
    if e.up < r.up {
      assert r.InRange(e.up);
      var f :| f in s && f.InRange(e.up);
      OneHolds(s, e, f, e.up);
    }
  }

  lemma {:induction false} MembersFollow(s: seq<Range>, t: seq<Range>, e: Range)
    requires Canonical(s) && Canonical(t) && e in s
    requires forall x :: Has(s, x) ==> Has(t, x)
    requires forall x :: Has(t, x) ==> Has(s, x)
    ensures e in t
  {
    assert forall x :: e.InRange(x) ==> Has(s, x);
    var f := CoveredByOne(t, e);
    assert forall x :: f.InRange(x) ==> Has(t, x);
    var g := CoveredByOne(s, f);
    OneHolds(s, e, g, e.low);
  }

  lemma {:induction false} SameFirst(s: seq<Range>, t: seq<Range>)
    requires Canonical(s) && Canonical(t) && s != [] && t != []
    requires forall e :: e in s <==> e in t
    ensures s[0] == t[0]
  {
    assert s[0] in t && t[0] in s;
  }

  lemma RestMembers(s: seq<Range>)
    requires Canonical(s) && s != []
    ensures Canonical(s[1..])
    ensures forall e :: e in s[1..] <==> e in s && e != s[0]
  {
  }

  lemma FirstMember(s: seq<Range>)
    ensures s != [] ==> s[0] in s
  {
  }

  lemma {:induction false} SameMembers(s: seq<Range>, t: seq<Range>)
    requires Canonical(s) && Canonical(t)
    requires forall e :: e in s <==> e in t
    ensures s == t
    decreases |s|
  {
    FirstMember(s);
    FirstMember(t);
    if s != [] {
      SameFirst(s, t);
      RestMembers(s);
      RestMembers(t);
      SameMembers(s[1..], t[1..]);
      assert s == [s[0]] + s[1..];
      assert t == [t[0]] + t[1..];
    }
  }

  /** The canonical form is unique: the same points mean the same ranges. */
  lemma {:induction false} CanonicalUnique(s: seq<Range>, t: seq<Range>)
    requires Canonical(s) && Canonical(t)
    requires forall x :: Has(s, x) <==> Has(t, x)
    ensures s == t
  {
    forall e ensures e in s <==> e in t {
      if e in s { MembersFollow(s, t, e); }
      if e in t { MembersFollow(t, s, e); }
    }
    SameMembers(s, t);
  }

  // The ordered multiset underneath.

  /** First position whose range is not below r. */
  function LowerBound(s: seq<Range>, r: Range): (k: nat)
    ensures k <= |s|
    ensures forall i :: 0 <= i < k ==> s[i].Below(r)
    ensures k < |s| ==> !s[k].Below(r)
  {
    if s == [] || !s[0].Below(r) then 0 else 1 + LowerBound(s[1..], r)
  }

  /** First position whose range r is below. */
  function UpperBound(s: seq<Range>, r: Range): (k: nat)
    ensures k <= |s|
    ensures forall i :: 0 <= i < k ==> !r.Below(s[i])
    ensures k < |s| ==> r.Below(s[k])
  {
    if s == [] || r.Below(s[0]) then 0 else 1 + UpperBound(s[1..], r)
  }

  function Insert(s: seq<Range>, r: Range): seq<Range> {
    var k := UpperBound(s, r);
    s[..k] + [r] + s[k..]
  }

  function Erase(s: seq<Range>, k: nat): seq<Range>
    requires k < |s|
  {
    s[..k] + s[k + 1..]
  }

  lemma {:induction false} InsertMembers(s: seq<Range>, r: Range, e: Range)
    ensures e in Insert(s, r) <==> e in s || e == r
  {
    var k := UpperBound(s, r);
    assert s == s[..k] + s[k..];
  }

  lemma {:induction false} InsertCanonical(s: seq<Range>, r: Range)
    requires Canonical(s) && r.NonEmpty() && forall e :: e in s ==> Apart(e, r)
    ensures Canonical(Insert(s, r))
  {
    var k := UpperBound(s, r);
    var t := Insert(s, r);
    forall e | e in t ensures e.NonEmpty() {
      InsertMembers(s, r, e);
    }
    forall i | 0 <= i < |s| ensures if i < k then s[i].Below(r) else r.Below(s[i]) {
      assert s[i] in s;
      if i > k { assert s[k] in s && s[k].Below(s[i]); }
    }
    forall i, j | 0 <= i < j < |t| ensures t[i].Below(t[j]) {
    }
  }

  lemma {:induction false} EraseCanonical(s: seq<Range>, k: nat)
    requires Canonical(s) && k < |s|
    ensures Canonical(Erase(s, k))
    ensures forall e :: e in Erase(s, k) <==> e in s && e != s[k]
  {
    assert s == s[..k] + [s[k]] + s[k + 1..];
  }

  lemma {:induction false} HasInsert(s: seq<Range>, r: Range, x: int)
    ensures Has(Insert(s, r), x) <==> Has(s, x) || r.InRange(x)
  {
    InsertMembers(s, r, r);
    if e :| e in s && e.InRange(x) { InsertMembers(s, r, e); }
    if e :| e in Insert(s, r) && e.InRange(x) { InsertMembers(s, r, e); }
  }

  // Merging.

  /** The ranges equivalent to r: those that touch or overlap it. */
  lemma {:induction false} Touching(s: seq<Range>, r: Range, i: nat)
    requires Canonical(s) && i < |s|
    ensures LowerBound(s, r) <= i < UpperBound(s, r) <==> s[i].up >= r.low && s[i].low <= r.up
    ensures i < LowerBound(s, r) <==> s[i].Below(r)
    ensures UpperBound(s, r) <= i <==> r.Below(s[i])
  {
    var a, b := LowerBound(s, r), UpperBound(s, r);
    assert s[i] in s;
    if a < i { assert s[a] in s && s[a].Below(s[i]); }
    if b < i { assert s[b] in s && s[b].Below(s[i]); }
  }

  lemma {:induction false} BoundsOrdered(s: seq<Range>, r: Range)
    requires Canonical(s) && r.NonEmpty()
    ensures LowerBound(s, r) <= UpperBound(s, r)
  {
    var b := UpperBound(s, r);
    if b < |s| {
      assert s[b] in s;
    }
  }

  /** r merged with the members from first up to p. */
  function Merged(s: seq<Range>, first: nat, p: nat, r: Range): Range
    requires first <= p <= |s|
  {
    if first == p then r else Range(Min(r.low, s[first].low), Max(r.up, s[p - 1].up))
  }

  /** When the merge loop combines a member with the range being inserted. */
  predicate Joins(e: Range, now: Range) {
    e.HasPartialIntersection(now) || now.InRange(e.up) || e.InRange(now.up)
  }

  /** One round of the merge loop. */
  lemma {:induction false} MergeStep(s: seq<Range>, r: Range, p: nat, now: Range)
    requires Canonical(s) && r.NonEmpty() && LowerBound(s, r) <= p < UpperBound(s, r)
    requires now == Merged(s, LowerBound(s, r), p, r)
    ensures s[p].HasIntersection(now) || now.InRange(s[p].up) || s[p].InRange(now.up)
    ensures s[p].Contains(now) ==> p == LowerBound(s, r)
    ensures !s[p].Contains(now)
        ==> (if Joins(s[p], now) then now.Combine(s[p]) else now) == Merged(s, LowerBound(s, r), p + 1, r)
  {
    hide LowerBound, UpperBound;
    var first := LowerBound(s, r);
    Touching(s, r, p);
    Touching(s, r, first);
    assert s[p] in s && s[first] in s;
    if p > first {
      assert s[p - 1] in s && s[p - 1].Below(s[p]);
      assert s[first].Below(s[p]);
    }
  }

  /** The first candidate decides whether r lies strictly below the top of a member. */
  lemma {:induction false} ContainedExactly(s: seq<Range>, r: Range)
    requires Canonical(s) && r.NonEmpty()
    ensures (LowerBound(s, r) < UpperBound(s, r) && s[LowerBound(s, r)].Contains(r))
       <==> exists e :: e in s && e.low <= r.low && r.up < e.up
  {
    hide LowerBound, UpperBound;
    var first := LowerBound(s, r);
    if e :| e in s && e.low <= r.low && r.up < e.up {
      var i :| 0 <= i < |s| && s[i] == e;
      Touching(s, r, i);
      Touching(s, r, first);
    }
  }

  ghost predicate CutOut(s: seq<Range>, first: nat, last: nat, rest: seq<Range>) {
    first <= last <= |s| && rest == s[..first] + s[last..]
  }

  lemma {:induction false} CutOutCanonical(s: seq<Range>, first: nat, last: nat, rest: seq<Range>)
    requires Canonical(s) && CutOut(s, first, last, rest)
    ensures Canonical(rest)
  {
    forall e | e in rest ensures e.NonEmpty() {
      assert e in s;
    }
  }

  lemma {:induction false} MergedApart(s: seq<Range>, r: Range, rest: seq<Range>, e: Range)
    requires Canonical(s) && r.NonEmpty()
    requires CutOut(s, LowerBound(s, r), UpperBound(s, r), rest) && e in rest
    ensures Apart(e, Merged(s, LowerBound(s, r), UpperBound(s, r), r))
  {
    hide LowerBound, UpperBound;
    var first, last := LowerBound(s, r), UpperBound(s, r);
    assert e in s;
    var i :| 0 <= i < |s| && s[i] == e && (i < first || last <= i);
    Touching(s, r, i);
    if first < last {
      assert s[first] in s && s[last - 1] in s;
      assert i < first ==> s[i].Below(s[first]);
      assert last <= i ==> s[last - 1].Below(s[i]);
    }
  }

  lemma {:induction false} MergedNonEmpty(s: seq<Range>, r: Range)
    requires Canonical(s) && r.NonEmpty()
    ensures LowerBound(s, r) <= UpperBound(s, r)
    ensures Merged(s, LowerBound(s, r), UpperBound(s, r), r).NonEmpty()
  {
    hide LowerBound, UpperBound;
    BoundsOrdered(s, r);
  }

  /** The merged range holds r and what it swallowed, and no other point. */
  lemma {:induction false} MergedPoints(s: seq<Range>, r: Range, rest: seq<Range>, x: int)
    requires Canonical(s) && r.NonEmpty()
    requires CutOut(s, LowerBound(s, r), UpperBound(s, r), rest)
    ensures Has(s, x) || r.InRange(x)
       <==> Has(rest, x) || Merged(s, LowerBound(s, r), UpperBound(s, r), r).InRange(x)
  {
    hide LowerBound, UpperBound;
    var first, last := LowerBound(s, r), UpperBound(s, r);
    var m := Merged(s, first, last, r);
    if e :| e in s && e.InRange(x) {
      var i :| 0 <= i < |s| && s[i] == e;
      if first <= i < last {
        MergedHolds(s, r, i);
      } else {
        assert e in rest;
      }
    }
    if m.InRange(x) && !r.InRange(x) {
      MergedOnly(s, r, x);
    }
    if e :| e in rest && e.InRange(x) {
      assert e in s;
    }
  }

  lemma {:induction false} MergedHolds(s: seq<Range>, r: Range, i: nat)
    requires Canonical(s) && r.NonEmpty() && LowerBound(s, r) <= i < UpperBound(s, r)
    ensures var m := Merged(s, LowerBound(s, r), UpperBound(s, r), r); m.low <= s[i].low && s[i].up <= m.up
  {
    hide LowerBound, UpperBound;
    var first, last := LowerBound(s, r), UpperBound(s, r);
    assert s[first] in s && s[i] in s && s[last - 1] in s;
    if first < i { assert s[first].Below(s[i]); }
    if i < last - 1 { assert s[i].Below(s[last - 1]); }
  }

  lemma {:induction false} MergedOnly(s: seq<Range>, r: Range, x: int)
    requires Canonical(s) && r.NonEmpty() && LowerBound(s, r) <= UpperBound(s, r)
    requires Merged(s, LowerBound(s, r), UpperBound(s, r), r).InRange(x) && !r.InRange(x)
    ensures Has(s, x)
  {
    hide LowerBound, UpperBound;
    var first, last := LowerBound(s, r), UpperBound(s, r);
    Touching(s, r, first);
    Touching(s, r, last - 1);
    if x < r.low {
      assert s[first] in s && s[first].InRange(x);
    } else {
      assert s[last - 1] in s && s[last - 1].InRange(x);
    }
  }

  // Splitting.

  /** Overlap is the existence of a common point. */
  lemma {:induction false} IntersectionPoint(a: Range, b: Range)
    requires a.NonEmpty() && b.NonEmpty()
    ensures a.HasIntersection(b) <==> exists x :: a.InRange(x) && b.InRange(x)
  {
    if a.HasIntersection(b) {
      assert a.InRange(Max(a.low, b.low)) && b.InRange(Max(a.low, b.low));
    }
  }

  function InsertPiece(s: seq<Range>, piece: Range): seq<Range> {
    if piece.NonEmpty() then Insert(s, piece) else s
  }

  /** Two collections that together are canonical. */
  ghost predicate Parts(ranges: seq<Range>, temp: seq<Range>) {
    Canonical(ranges) && Canonical(temp) && forall e, t :: e in ranges && t in temp ==> Apart(e, t)
  }

  ghost predicate Either(ranges: seq<Range>, temp: seq<Range>, x: int) {
    Has(ranges, x) || Has(temp, x)
  }

  /** No member reaches into r. */
  ghost predicate Avoids(s: seq<Range>, r: Range) {
    forall e :: e in s ==> !e.HasIntersection(r)
  }

  /** A piece of a range that lies apart from everything else can be added to the pieces. */
  lemma {:induction false} PieceFits(ranges: seq<Range>, temp: seq<Range>, piece: Range, r: Range)
    requires Parts(ranges, temp)
    requires piece.NonEmpty() ==> forall e :: e in ranges || e in temp ==> Apart(e, piece)
    requires Avoids(temp, r) && (piece.NonEmpty() ==> !piece.HasIntersection(r))
    ensures Parts(ranges, InsertPiece(temp, piece)) && Avoids(InsertPiece(temp, piece), r)
  {
    hide Canonical, Insert, Range.HasIntersection;
    if piece.NonEmpty() {
      InsertCanonical(temp, piece);
      forall t | t in Insert(temp, piece) ensures t in temp || t == piece {
        InsertMembers(temp, piece, t);
      }
    }
  }

  lemma {:induction false} PiecePoints(temp: seq<Range>, piece: Range, x: int)
    ensures Has(InsertPiece(temp, piece), x) <==> Has(temp, x) || piece.InRange(x)
  {
    hide Has, Insert;
    if piece.NonEmpty() {
      HasInsert(temp, piece, x);
    }
  }

  lemma {:induction false} ErasePoints(s: seq<Range>, k: nat, x: int)
    requires Canonical(s) && k < |s|
    ensures Has(s, x) <==> Has(Erase(s, k), x) || s[k].InRange(x)
    ensures !(Has(Erase(s, k), x) && s[k].InRange(x))
  {
    EraseCanonical(s, k);
    assert s[k] in s;
    if e :| e in Erase(s, k) && e.InRange(x) {
      CanonicalApart(s, e, s[k]);
    }
  }

  /** The pieces left of member k once r is taken out. */
  function Split(ranges: seq<Range>, temp: seq<Range>, k: nat, r: Range): seq<Range>
    requires k < |ranges|
  {
    var pieces := ranges[k].Difference(r);
    InsertPiece(InsertPiece(temp, pieces.0), pieces.1)
  }

  lemma {:induction false} MemberApart(ranges: seq<Range>, temp: seq<Range>, k: nat, e: Range)
    requires Parts(ranges, temp) && k < |ranges| && (e in Erase(ranges, k) || e in temp)
    ensures Apart(e, ranges[k])
  {
    EraseCanonical(ranges, k);
    assert ranges[k] in ranges;
    if e in ranges && e != ranges[k] {
      CanonicalApart(ranges, e, ranges[k]);
    }
  }

  lemma {:induction false} SplitParts(ranges: seq<Range>, temp: seq<Range>, k: nat, r: Range)
    requires Parts(ranges, temp) && k < |ranges| && ranges[k].HasIntersection(r) && r.NonEmpty() && Avoids(temp, r)
    ensures Parts(Erase(ranges, k), Split(ranges, temp, k, r)) && Avoids(Split(ranges, temp, k, r), r)
  {
    hide Erase, InsertPiece, Canonical, Avoids, Apart;
    var f, rest := ranges[k], Erase(ranges, k);
    var pieces := f.Difference(r);
    ErasedParts(ranges, temp, k);
    MemberNonEmpty(ranges, k);
    forall e | e in rest || e in temp ensures Apart(e, f) {
      MemberApart(ranges, temp, k, e);
    }
    forall e | e in rest || e in temp
      ensures (pieces.0.NonEmpty() ==> Apart(e, pieces.0)) && (pieces.1.NonEmpty() ==> Apart(e, pieces.1))
    {
      PiecesApart(e, f, r);
    }
    PieceFits(rest, temp, pieces.0, r);
    var more := InsertPiece(temp, pieces.0);
    forall e | e in more ensures pieces.1.NonEmpty() ==> Apart(e, pieces.1) {
      PieceMember(temp, pieces.0, e);
      PiecesApart(e, f, r);
    }
    PieceFits(rest, more, pieces.1, r);
  }

  lemma MemberNonEmpty(s: seq<Range>, k: nat)
    requires Canonical(s) && k < |s|
    ensures s[k].NonEmpty()
  {
  }

  lemma {:induction false} PieceMember(temp: seq<Range>, piece: Range, e: Range)
    requires e in InsertPiece(temp, piece)
    ensures e in temp || (e == piece && piece.NonEmpty())
  {
    InsertMembers(temp, piece, e);
  }

  lemma {:induction false} ErasedParts(ranges: seq<Range>, temp: seq<Range>, k: nat)
    requires Parts(ranges, temp) && k < |ranges|
    ensures Parts(Erase(ranges, k), temp)
  {
    hide Apart;
    EraseCanonical(ranges, k);
  }

  lemma PiecesApart(e: Range, f: Range, r: Range)
    requires f.HasIntersection(r) && r.NonEmpty() && f.NonEmpty()
    requires Apart(e, f) || (e.NonEmpty() && e == f.Difference(r).0)
    ensures f.Difference(r).0.NonEmpty() && Apart(e, f) ==> Apart(e, f.Difference(r).0)
    ensures f.Difference(r).1.NonEmpty() ==> Apart(e, f.Difference(r).1)
  {
  }

  lemma {:induction false} SplitPoints(ranges: seq<Range>, temp: seq<Range>, k: nat, r: Range, x: int)
    requires Parts(ranges, temp) && k < |ranges| && ranges[k].HasIntersection(r) && r.NonEmpty() && Avoids(temp, r)
    ensures Either(Erase(ranges, k), Split(ranges, temp, k, r), x)
       <==> Either(ranges, temp, x) && !(ranges[k].InRange(x) && r.InRange(x))
  {
    hide Erase, InsertPiece, Canonical, Avoids, Has;
    var pieces := ranges[k].Difference(r);
    ErasePoints(ranges, k, x);
    PiecePoints(temp, pieces.0, x);
    PiecePoints(InsertPiece(temp, pieces.0), pieces.1, x);
    if ranges[k].InRange(x) {
      TempElsewhere(ranges, temp, k, x);
    }
  }

  lemma {:induction false} TempElsewhere(ranges: seq<Range>, temp: seq<Range>, k: nat, x: int)
    requires Parts(ranges, temp) && k < |ranges| && ranges[k].InRange(x)
    ensures !Has(temp, x)
  {
    assert ranges[k] in ranges;
    if t :| t in temp && t.InRange(x) {
      assert Apart(ranges[k], t);
    }
  }

  lemma {:induction false} MergeOne(ranges: seq<Range>, temp: seq<Range>)
    requires Parts(ranges, temp) && temp != []
    ensures Parts(Insert(ranges, temp[0]), temp[1..])
    ensures forall x :: Either(Insert(ranges, temp[0]), temp[1..], x) <==> Either(ranges, temp, x)
  {
    hide Insert;
    var t := temp[0];
    assert t in temp;
    InsertCanonical(ranges, t);
    RestMembers(temp);
    forall e, u | e in Insert(ranges, t) && u in temp[1..] ensures Apart(e, u) {
      InsertMembers(ranges, t, e);
      if e == t { CanonicalApart(temp, t, u); }
    }
    forall x ensures Either(Insert(ranges, t), temp[1..], x) <==> Either(ranges, temp, x) {
      HasInsert(ranges, t, x);
    }
  }

  lemma {:induction false} Swallowed(s: seq<Range>, r: Range, e: Range)
    requires e in s && e.Contains(r)
    ensures forall x :: Has(s, x) || r.InRange(x) <==> Has(s, x)
  {
    forall x | r.InRange(x) ensures Has(s, x) {
      assert e.InRange(x);
    }
  }

  lemma {:induction false} NothingCut(s: seq<Range>, k: nat, rest: seq<Range>)
    requires k <= |s|
    ensures CutOut(s, k, k, rest) <==> rest == s
  {
    assert s == s[..k] + s[k..];
  }

  lemma NothingMerged(s: seq<Range>, k: nat, r: Range)
    requires k <= |s|
    ensures Merged(s, k, k, r) == r
  {
  }

  lemma MergedCovers(s: seq<Range>, first: nat, p: nat, r: Range)
    requires first <= p <= |s|
    ensures Merged(s, first, p, r).low <= r.low && r.up <= Merged(s, first, p, r).up
  {
  }

  lemma InsertedAt(s: seq<Range>, r: Range)
    ensures UpperBound(s, r) < |Insert(s, r)| && Insert(s, r)[UpperBound(s, r)] == r
  {
  }

  /** Putting the merged range in place of what it swallowed is the union. */
  lemma {:induction false} MergeDone(s: seq<Range>, r: Range, rest: seq<Range>)
    requires Canonical(s) && r.NonEmpty() && CutOut(s, LowerBound(s, r), UpperBound(s, r), rest)
    ensures var t := Insert(rest, Merged(s, LowerBound(s, r), UpperBound(s, r), r));
            Canonical(t) && forall x :: Has(t, x) <==> Has(s, x) || r.InRange(x)
  {
    hide Canonical, LowerBound, UpperBound, Has, Insert, Merged;
    var m := Merged(s, LowerBound(s, r), UpperBound(s, r), r);
    CutOutCanonical(s, LowerBound(s, r), UpperBound(s, r), rest);
    MergedNonEmpty(s, r);
    forall e | e in rest ensures Apart(e, m) {
      MergedApart(s, r, rest, e);
    }
    InsertCanonical(rest, m);
    forall x ensures Has(Insert(rest, m), x) <==> Has(s, x) || r.InRange(x) {
      MergedPoints(s, r, rest, x);
      HasInsert(rest, m, x);
    }
  }

  lemma EraseCut(s: seq<Range>, first: nat, p: nat, rest: seq<Range>)
    requires CutOut(s, first, p, rest) && p < |s|
    ensures first < |rest| && rest[first] == s[p]
    ensures CutOut(s, first, p + 1, Erase(rest, first))
  {
  }

  ghost predicate AvoidsOutside(s: seq<Range>, first: nat, last: nat, r: Range) {
    forall i :: 0 <= i < |s| && (i < first || last <= i) ==> !s[i].HasIntersection(r)
  }

  lemma EitherNothing(s: seq<Range>)
    requires Canonical(s)
    ensures Parts(s, [])
    ensures forall x :: Either(s, [], x) <==> Has(s, x)
  {
  }

  lemma PartsCanonical(ranges: seq<Range>, temp: seq<Range>)
    requires Parts(ranges, temp)
    ensures Canonical(ranges)
  {
  }

  lemma {:induction false} SplitStart(s: seq<Range>, r: Range)
    requires Canonical(s) && r.NonEmpty()
    ensures AvoidsOutside(s, LowerBound(s, r), UpperBound(s, r), r) && Avoids([], r)
  {
    hide LowerBound, UpperBound;
    forall i | 0 <= i < |s| && (i < LowerBound(s, r) || UpperBound(s, r) <= i) ensures !s[i].HasIntersection(r) {
      Touching(s, r, i);
      assert s[i] in s;
    }
  }

  /** One round of the removal loop. */
  lemma {:induction false} SplitRound(ranges: seq<Range>, temp: seq<Range>, k: nat, r: Range, last: nat)
    requires Parts(ranges, temp) && k < last <= |ranges| && ranges[k].HasIntersection(r) && r.NonEmpty() && Avoids(temp, r)
    requires AvoidsOutside(ranges, k, last, r)
    ensures |Erase(ranges, k)| == |ranges| - 1
    ensures Parts(Erase(ranges, k), Split(ranges, temp, k, r)) && Avoids(Split(ranges, temp, k, r), r)
    ensures AvoidsOutside(Erase(ranges, k), k, last - 1, r)
    ensures forall x :: Either(Erase(ranges, k), Split(ranges, temp, k, r), x)
                   <==> Either(ranges, temp, x) && !(ranges[k].InRange(x) && r.InRange(x))
  {
    hide Parts, Avoids, Either, Split, Range.HasIntersection;
    SplitParts(ranges, temp, k, r);
    forall x
      ensures Either(Erase(ranges, k), Split(ranges, temp, k, r), x)
         <==> Either(ranges, temp, x) && !(ranges[k].InRange(x) && r.InRange(x))
    {
      SplitPoints(ranges, temp, k, r, x);
    }
  }

  lemma {:induction false} HitPoint(ranges: seq<Range>, temp: seq<Range>, k: nat, r: Range)
    requires Parts(ranges, temp) && k < |ranges| && ranges[k].HasIntersection(r) && r.NonEmpty()
    ensures exists x :: Either(ranges, temp, x) && r.InRange(x)
  {
    assert ranges[k] in ranges;
    IntersectionPoint(ranges[k], r);
    var x :| ranges[k].InRange(x) && r.InRange(x);
    assert Either(ranges, temp, x);
  }

  lemma {:induction false} SplitDone(ranges: seq<Range>, temp: seq<Range>, k: nat, r: Range)
    requires Parts(ranges, temp) && AvoidsOutside(ranges, k, k, r) && Avoids(temp, r) && r.NonEmpty()
    ensures forall x :: Either(ranges, temp, x) ==> !r.InRange(x)
  {
    forall x | Either(ranges, temp, x) ensures !r.InRange(x) {
      var e :| (e in ranges || e in temp) && e.InRange(x);
      IntersectionPoint(e, r);
    }
  }

  /** Inserting changes nothing exactly if the range is empty or lies inside one member. */
  lemma {:induction false} UnionUnchanged(s: seq<Range>, r: Range, t: seq<Range>)
    requires Canonical(s) && Canonical(t) && forall x :: Has(t, x) <==> Has(s, x) || r.InRange(x)
    ensures t == s <==> !r.NonEmpty() || exists e :: e in s && e.low <= r.low && r.up <= e.up
  {
    hide Canonical;
    if e :| e in s && e.low <= r.low && r.up <= e.up {
      assert forall x :: r.InRange(x) ==> e.InRange(x);
      CanonicalUnique(s, t);
    }
    if !r.NonEmpty() {
      CanonicalUnique(s, t);
    } else if t == s {
      var e := CoveredByOne(s, r);
    }
  }

  /**
   * The answer of an insertion is not whether the set changed: it is true although nothing changed
   * exactly if the range ends where a member that holds it ends.
   */
  lemma {:induction false} TrueYetUnchanged(s: seq<Range>, r: Range, t: seq<Range>, ok: bool)
    requires Canonical(s) && Canonical(t) && forall x :: Has(t, x) <==> Has(s, x) || r.InRange(x)
    requires ok <==> r.NonEmpty() && !exists e :: e in s && e.low <= r.low && r.up < e.up
    ensures ok && t == s <==> r.NonEmpty() && exists e :: e in s && e.low <= r.low && r.up == e.up
  {
    hide Canonical, Has;
    UnionUnchanged(s, r, t);
    if r.NonEmpty() {
      if e, f :| e in s && f in s && e.low <= r.low && r.up < e.up && f.low <= r.low && r.up == f.up {
        OneHolds(s, e, f, r.up);
      }
    }
  }

  /** The set as the source keeps it: ranges in an ordered multiset. */
  class Ranges {
    var ranges: seq<Range>

    ghost predicate Valid()
      reads this
    {
      Canonical(ranges)
    }

    constructor ()
      ensures Valid() && ranges == []
    {
      ranges := [];
    }

    /** Union with [low, up), and where the range is now; false means that nothing had to be done. */
    method Emplace(low: int, up: int) returns (ok: bool, at: nat)
      requires Valid()
      modifies this
      ensures Valid()
      ensures forall x :: Has(ranges, x) <==> Has(old(ranges), x) || low <= x < up
      ensures ok <==> low < up && !exists e :: e in old(ranges) && e.low <= low && up < e.up
      ensures ok ==> at < |ranges| && ranges[at].low <= low && up <= ranges[at].up
      ensures !ok ==> ranges == old(ranges)
      ensures ok && ranges == old(ranges) <==> low < up && exists e :: e in old(ranges) && e.low <= low && up == e.up
    {
      hide Canonical, LowerBound, UpperBound, Has, Insert, Merged, CutOut, Joins, Erase, Range.Contains,
           Range.HasIntersection, Range.Combine;
      var added := Range(low, up);
      ghost var all, r := ranges, added;
      if !added.NonEmpty() { return false, 0; }
      var begin: nat, end: nat := LowerBound(ranges, added), UpperBound(ranges, added);
      BoundsOrdered(all, r);
      ContainedExactly(all, r);
      NothingCut(all, begin, ranges);
      NothingMerged(all, begin, r);
      ghost var p: nat, last: nat := begin, end;
      while begin != end
        invariant begin <= end && begin <= p <= last && end - begin == last - p
        invariant begin == LowerBound(all, r) && last == UpperBound(all, r)
        invariant CutOut(all, begin, p, ranges)
        invariant added == Merged(all, begin, p, r)
        invariant p > begin ==> !all[begin].Contains(r)
        decreases end - begin
      {
        MergeStep(all, r, p, added);
        EraseCut(all, begin, p, ranges);
        assert ranges[begin].HasIntersection(added) || added.InRange(ranges[begin].up) || ranges[begin].InRange(added.up);
        if ranges[begin].Contains(added) {
          NothingCut(all, begin, ranges);
          NothingMerged(all, begin, r);
          Swallowed(all, r, all[begin]);
          TrueYetUnchanged(all, r, ranges, false);
          return false, 0;
        }
        if p == begin { NothingMerged(all, begin, r); }
        if Joins(ranges[begin], added) {
          added := added.Combine(ranges[begin]);
        }
        ranges := Erase(ranges, begin);
        end, p := end - 1, p + 1;
      }
      MergeDone(all, r, ranges);
      MergedCovers(all, begin, p, r);
      InsertedAt(ranges, added);
      ok, at := true, UpperBound(ranges, added);
      ranges := Insert(ranges, added);
      TrueYetUnchanged(all, r, ranges, ok);
    }

    /** Difference with [low, up); tells whether a point was removed. */
    method Remove(low: int, up: int) returns (ok: bool)
      requires Valid()
      modifies this
      ensures Valid()
      ensures forall x :: Has(ranges, x) <==> Has(old(ranges), x) && !(low <= x < up)
      ensures ok <==> exists x :: Has(old(ranges), x) && low <= x < up
      ensures !ok ==> ranges == old(ranges)
    {
      hide Canonical, LowerBound, UpperBound, Has, Insert, Range.HasIntersection, Parts, Avoids, Either, Erase, Split;
      var removed := Range(low, up);
      if !removed.NonEmpty() { return false; }
      var begin: nat, end: nat := LowerBound(ranges, removed), UpperBound(ranges, removed);
      ghost var all := ranges;
      BoundsOrdered(ranges, removed);
      SplitStart(ranges, removed);
      EitherNothing(ranges);
      var temp: seq<Range> := [];
      ok := false;
      while begin != end
        invariant begin <= end <= |ranges|
        invariant Parts(ranges, temp) && Avoids(temp, removed)
        invariant AvoidsOutside(ranges, begin, end, removed)
        invariant forall x :: Either(ranges, temp, x) ==> Has(all, x)
        invariant forall x :: Has(all, x) && !removed.InRange(x) ==> Either(ranges, temp, x)
        invariant ok ==> exists x :: Has(all, x) && removed.InRange(x)
        invariant !ok ==> ranges == all && temp == []
        decreases end - begin
      {
        if !ranges[begin].HasIntersection(removed) {
          begin := begin + 1;
          continue;
        }
        SplitRound(ranges, temp, begin, removed, end);
        HitPoint(ranges, temp, begin, removed);
        temp := Split(ranges, temp, begin, removed);
        ranges := Erase(ranges, begin);
        end := end - 1;
        ok := true;
      }
      SplitDone(ranges, temp, begin, removed);
      if !ok {
        return;
      }
      assert forall x :: Either(ranges, temp, x) <==> Has(all, x) && !removed.InRange(x);
      while temp != []
        invariant Parts(ranges, temp)
        invariant forall x :: Either(ranges, temp, x) <==> Has(all, x) && !removed.InRange(x)
        decreases |temp|
      {
        MergeOne(ranges, temp);
        ranges, temp := Insert(ranges, temp[0]), temp[1..];
      }
      PartsCanonical(ranges, temp);
      EitherNothing(ranges);
    }
  }

  /** Inserting [5, 10) into { [0, 10) } reports an update and changes nothing. */
  method InsertAtTheTop() returns (ok: bool, result: Ranges)
    ensures fresh(result) && ok && result.ranges == [Range(0, 10)]
  {
    hide Canonical, Has;
    result := new Ranges();
    NoPoints();
    var _, at := result.Emplace(0, 10);
    OneRange(result.ranges, Range(0, 10));
    assert Range(0, 10) in result.ranges;
    ok, at := result.Emplace(5, 10);
  }

  lemma SingleCanonical(r: Range)
    requires r.NonEmpty()
    ensures Canonical([r])
  {
  }

  lemma {:induction false} OneRange(s: seq<Range>, r: Range)
    requires Canonical(s) && r.NonEmpty() && forall x :: Has(s, x) <==> r.InRange(x)
    ensures s == [r]
  {
    SingleCanonical(r);
    hide Canonical;
    forall x ensures Has([r], x) <==> r.InRange(x) {
      assert r.InRange(x) ==> r in [r];
    }
    CanonicalUnique(s, [r]);
  }

  // Whole histories.

  datatype Op = EmplaceOp(range: Range) | RemoveOp(range: Range)

  /** The points after a history, built by union and difference. */
  ghost function Denote(ops: seq<Op>): iset<int> {
    if |ops| == 0 then iset{} else
      var before, op := Denote(ops[..|ops| - 1]), ops[|ops| - 1];
      var points := iset x | op.range.InRange(x);
      if op.EmplaceOp? then before + points else before - points
  }

  /** After any history the set is the canonical form of exactly the points of that history. */
  method Replay(ops: seq<Op>) returns (result: Ranges)
    ensures fresh(result) && result.Valid()
    ensures forall x :: Has(result.ranges, x) <==> x in Denote(ops)
  {
    hide Canonical, Has;
    result := new Ranges();
    NoPoints();
    var i := 0;
    while i < |ops|
      invariant 0 <= i <= |ops| && result.Valid()
      invariant forall x :: Has(result.ranges, x) <==> x in Denote(ops[..i])
    {
      assert ops[..i + 1][..i] == ops[..i];
      if ops[i].EmplaceOp? {
        var ok, at := result.Emplace(ops[i].range.low, ops[i].range.up);
      } else {
        var ok := result.Remove(ops[i].range.low, ops[i].range.up);
      }
      i := i + 1;
    }
    assert ops[..i] == ops;
  }

  lemma NoPoints()
    ensures forall x :: !Has([], x)
  {
  }

  lemma {:induction false} DenoteTwo(a: Op, b: Op, x: int)
    requires a.EmplaceOp?
    ensures x in Denote([a, b]) <==>
            if b.EmplaceOp? then a.range.low <= x < a.range.up || b.range.low <= x < b.range.up
            else a.range.low <= x < a.range.up && !(b.range.low <= x < b.range.up)
  {
    assert [a, b][..1] == [a] && [a][..0] == [];
    assert x in Denote([a]) <==> a.range.InRange(x);
  }

  /** Two ranges that touch become one. */
  method JoinTouching(low: int, mid: int, up: int) returns (result: Ranges)
    requires low < mid < up
    ensures result.ranges == [Range(low, up)]
  {
    hide Denote, Canonical, Has;
    var a, b := EmplaceOp(Range(low, mid)), EmplaceOp(Range(mid, up));
    result := Replay([a, b]);
    forall x ensures Has(result.ranges, x) <==> Range(low, up).InRange(x) {
      DenoteTwo(a, b, x);
    }
    OneRange(result.ranges, Range(low, up));
  }

  lemma {:induction false} TwoCanonical(a: Range, b: Range)
    requires a.NonEmpty() && b.NonEmpty() && a.Below(b)
    ensures Canonical([a, b])
    ensures forall x :: Has([a, b], x) <==> a.InRange(x) || b.InRange(x)
  {
    forall x ensures Has([a, b], x) <==> a.InRange(x) || b.InRange(x) {
      assert a in [a, b] && b in [a, b];
    }
  }

  /** Removing the inside of a range leaves its two ends. */
  method RemoveInside(low: int, from: int, to: int, up: int) returns (result: Ranges)
    requires low < from < to < up
    ensures result.ranges == [Range(low, from), Range(to, up)]
  {
    hide Denote, Canonical, Has;
    var a, b := EmplaceOp(Range(low, up)), RemoveOp(Range(from, to));
    result := Replay([a, b]);
    var left, right := Range(low, from), Range(to, up);
    TwoCanonical(left, right);
    forall x ensures Has(result.ranges, x) <==> Has([left, right], x) {
      DenoteTwo(a, b, x);
    }
    CanonicalUnique(result.ranges, [left, right]);
  }
}
