/** Knock-out pairing of players: in each round the survivors absorb their right neighbours. */
module Pairing {
  import opened Bits

  /** Players that absorb another one in the round of a gap. */
  predicate Absorbs(i: nat, gap: nat, players: nat)
    requires gap > 0
  {
    i % (2 * gap) == 0 && i + gap < players
  }

  /** The pairs of a round whose first player comes before a bound. */
  function RoundUpTo(bound: nat, gap: nat, players: nat): map<nat, nat>
    requires gap > 0
  {
    map i: nat | i < bound && Absorbs(i, gap, players) :: i + gap
  }

  function Round(gap: nat, players: nat): map<nat, nat>
    requires gap > 0
  {
    RoundUpTo(players, gap, players)
  }

  lemma {:induction false} NoneBetween(index: nat, gap: nat, i: nat)
    requires gap > 0 && index % (2 * gap) == 0 && index < i < index + 2 * gap
    ensures i % (2 * gap) != 0
  {
    if i % (2 * gap) == 0 {
      MultipleGap(index, i, 2 * gap);
    }
  }

  lemma {:induction false} NextPair(index: nat, gap: nat, players: nat)
    requires gap > 0 && index % (2 * gap) == 0 && index + gap < players
    ensures RoundUpTo(index, gap, players)[index := index + gap] == RoundUpTo(index + 2 * gap, gap, players)
    ensures (index + 2 * gap) % (2 * gap) == 0
  {
    MultipleMod(1, 2 * gap);
    assert (1 * (2 * gap)) == 2 * gap;
    ModSum(index, 2 * gap, 2 * gap);
    forall i: nat | i < index + 2 * gap && Absorbs(i, gap, players) ensures i <= index {
      if i > index { NoneBetween(index, gap, i); }
    }
  }

  lemma RoundComplete(index: nat, gap: nat, players: nat)
    requires gap > 0 && index % (2 * gap) == 0 && index + gap >= players
    ensures RoundUpTo(index, gap, players) == Round(gap, players)
  {
  }

  lemma {:induction false} FirstPair(gap: nat, players: nat)
    requires gap > 0
    ensures Round(gap, players) == map[] <==> gap >= players
  {
    if gap < players {
      assert 0 % (2 * gap) == 0;
      assert Absorbs(0, gap, players);
      assert 0 in Round(gap, players);
    }
  }

  lemma NoPairYet(gap: nat, players: nat)
    requires gap > 0
    ensures RoundUpTo(0, gap, players) == map[]
    ensures 0 % (2 * gap) == 0
  {
  }

  /** The pairs of one round. */
  method GenRound(gap: nat, players: nat) returns (round: map<nat, nat>)
    requires gap > 0
    ensures round == Round(gap, players)
  {
    hide RoundUpTo;
    round := map[];
    var index: nat := 0;
    NoPairYet(gap, players);
    while index + gap < players
      invariant index % (2 * gap) == 0
      invariant round == RoundUpTo(index, gap, players)
      decreases players - index
    {
      NextPair(index, gap, players);
      round := round[index := index + gap];
      index := index + 2 * gap;
    }
    RoundComplete(index, gap, players);
  }

  /** Rounds of doubling gaps, as many as it takes for the gap to reach the number of players. */
  ghost predicate IsSchedule(rounds: seq<map<nat, nat>>, players: nat) {
    && (forall k :: 0 <= k < |rounds| ==> rounds[k] == Round(Exp2(k), players))
    && players <= Exp2(|rounds|)
    && (|rounds| > 0 ==> Exp2(|rounds| - 1) < players)
  }

  /** All rounds; their number is the binary logarithm of the number of players, rounded up. */
  method GenTwoPartyPairs(players: nat) returns (rounds: seq<map<nat, nat>>)
    ensures IsSchedule(rounds, players)
  {
    hide Round, Exp2;
    rounds := [];
    var gap: nat := 1;
    ExpStart();
    while true
      invariant gap == Exp2(|rounds|)
      invariant forall k :: 0 <= k < |rounds| ==> rounds[k] == Round(Exp2(k), players)
      invariant |rounds| > 0 ==> Exp2(|rounds| - 1) < players
      decreases players - gap
    {
      var round := GenRound(gap, players);
      FirstPair(gap, players);
      if round == map[] { break; }
      rounds := rounds + [round];
      ExpNext(|rounds|);
      gap := gap * 2;
    }
  }

  lemma ExpStart()
    ensures Exp2(0) == 1
  {
  }

  lemma ExpNext(k: nat)
    requires k > 0
    ensures Exp2(k) == 2 * Exp2(k - 1)
  {
  }

  // Who absorbs whom.

  /** The round in which a player is absorbed. */
  ghost predicate FallsIn(p: nat, k: nat) {
    p % Exp2(k + 1) == Exp2(k)
  }

  lemma {:induction false} FallsInHalf(p: nat, k: nat)
    ensures k == 0 ==> (FallsIn(p, k) <==> p % 2 == 1)
    ensures k > 0 ==> (FallsIn(p, k) <==> p % 2 == 0 && FallsIn(p / 2, k - 1))
  {
    ModHalf(p, Exp2(k));
    if k == 0 {
      assert p / 2 % 1 == 0;
    }
  }

  lemma {:induction false} FallsOnce(p: nat, k: nat, j: nat)
    requires FallsIn(p, k) && FallsIn(p, j)
    ensures k == j
    decreases k
  {
    hide FallsIn;
    FallsInHalf(p, k);
    FallsInHalf(p, j);
    if k > 0 && j > 0 {
      FallsOnce(p / 2, k - 1, j - 1);
    }
  }

  lemma {:induction false} FallsSometime(p: nat) returns (k: nat)
    requires p > 0
    ensures FallsIn(p, k) && Exp2(k) <= p
  {
    if p % 2 == 1 {
      k := 0;
      FallsInHalf(p, 0);
    } else {
      k := FallsSometime(p / 2);
      k := k + 1;
      FallsInHalf(p, k);
    }
  }

  /** A player is absorbed in a round exactly if its number says so. */
  lemma {:induction false} AbsorbedIn(players: nat, p: nat, k: nat)
    requires p < players
    ensures p in Round(Exp2(k), players).Values <==> FallsIn(p, k)
  {
    var gap := Exp2(k);
    ExpNext(k + 1);
    var round := Round(gap, players);
    if p in round.Values {
      var i :| i in round && round[i] == p;
      LateHalf(i, gap);
    }
    if FallsIn(p, k) {
      EarlyHalf(p, gap);
      assert p - gap in round && round[p - gap] == p;
    }
  }

  lemma {:induction false} LateHalf(i: nat, gap: nat)
    requires gap > 0 && i % (2 * gap) == 0
    ensures (i + gap) % (2 * gap) == gap
  {
    DivUnique(i + gap, 2 * gap, i / (2 * gap), gap);
  }

  lemma {:induction false} EarlyHalf(p: nat, gap: nat)
    requires gap > 0 && p % (2 * gap) == gap
    ensures p >= gap && (p - gap) % (2 * gap) == 0
  {
    DivUnique(p - gap, 2 * gap, p / (2 * gap), 0);
  }

  /** Every player but the first is absorbed, in exactly one round. */
  lemma {:induction false} AbsorbedOnce(rounds: seq<map<nat, nat>>, players: nat, p: nat)
    requires IsSchedule(rounds, players) && 0 < p < players
    ensures exists k :: 0 <= k < |rounds| && p in rounds[k].Values
                     && forall j :: 0 <= j < |rounds| && j != k ==> p !in rounds[j].Values
  {
    hide Round, FallsIn;
    var k := FallsSometime(p);
    ExpMonotone(k, |rounds|);
    AbsorbedIn(players, p, k);
    forall j | 0 <= j < |rounds| && j != k ensures p !in rounds[j].Values {
      AbsorbedIn(players, p, j);
      if FallsIn(p, j) { FallsOnce(p, k, j); }
    }
  }

  lemma {:induction false} ExpMonotone(k: nat, m: nat)
    ensures m <= k ==> Exp2(m) <= Exp2(k)
  {
    if m < k {
      ExpMonotone(k - 1, m);
    }
  }

  /** The first player is never absorbed, and no two pairs of a round share a player. */
  lemma {:induction false} PairsDisjoint(rounds: seq<map<nat, nat>>, players: nat, k: nat)
    requires IsSchedule(rounds, players) && k < |rounds|
    ensures 0 !in rounds[k].Values
    ensures rounds[k].Keys !! rounds[k].Values
    ensures forall i, j :: i in rounds[k] && j in rounds[k] && rounds[k][i] == rounds[k][j] ==> i == j
    ensures forall i :: i in rounds[k] ==> i < rounds[k][i] < players
  {
    hide IsSchedule;
    var gap := Exp2(k);
    ScheduleAt(rounds, players, k);
    forall p | p in rounds[k].Values ensures p !in rounds[k] {
      var i :| i in rounds[k] && rounds[k][i] == p;
      LateHalf(i, gap);
    }
  }

  lemma ScheduleAt(rounds: seq<map<nat, nat>>, players: nat, k: nat)
    requires IsSchedule(rounds, players) && k < |rounds|
    ensures rounds[k] == Round(Exp2(k), players)
  {
  }

  /** Who takes part in a round has not been absorbed before. */
  lemma {:induction false} OnlySurvivorsPlay(rounds: seq<map<nat, nat>>, players: nat, j: nat, k: nat, p: nat)
    requires IsSchedule(rounds, players) && j < k < |rounds| && (p in rounds[k] || p in rounds[k].Values)
    ensures p !in rounds[j].Values
  {
    hide IsSchedule, FallsIn;
    ScheduleAt(rounds, players, k);
    ScheduleAt(rounds, players, j);
    var gap := Exp2(k);
    if p in rounds[k] {
      HalfStep(p, gap);
    } else {
      var i :| i in rounds[k] && rounds[k][i] == p;
      LateHalf(i, gap);
      HalfStep(p, gap);
    }
    MultipleNotFalling(p, j, k);
    AbsorbedIn(players, p, j);
  }

  lemma {:induction false} HalfStep(p: nat, gap: nat)
    requires gap > 0 && (p % (2 * gap) == 0 || p % (2 * gap) == gap)
    ensures p % gap == 0
  {
    var q := p / (2 * gap);
    var r := p % (2 * gap);
    assert p == q * (2 * gap) + r;
    if r == 0 {
      assert q * (2 * gap) == (2 * q) * gap;
      MultipleMod(2 * q, gap);
    } else {
      assert q * (2 * gap) + gap == (2 * q + 1) * gap;
      MultipleMod(2 * q + 1, gap);
    }
  }

  lemma {:induction false} MultipleNotFalling(p: nat, j: nat, k: nat)
    requires j < k && p % Exp2(k) == 0
    ensures !FallsIn(p, j)
    decreases k
  {
    hide FallsIn;
    FallsInHalf(p, j);
    ModHalf(p, Exp2(k - 1));
    ExpNext(k);
    if j > 0 {
      MultipleNotFalling(p / 2, j - 1, k - 1);
    }
  }

  // Playing the rounds.

  ghost predicate Associative<T(!new)>(op: (T, T) -> T) {
    forall a, b, c :: op(op(a, b), c) == op(a, op(b, c))
  }

  /** All values combined in order. */
  function Fold<T>(op: (T, T) -> T, s: seq<T>): T
    requires |s| > 0
  {
    if |s| == 1 then s[0] else op(s[0], Fold(op, s[1..]))
  }

  lemma {:induction false} FoldSplit<T(!new)>(op: (T, T) -> T, a: seq<T>, b: seq<T>)
    requires Associative(op) && |a| > 0 && |b| > 0
    ensures Fold(op, a + b) == op(Fold(op, a), Fold(op, b))
    decreases |a|
  {
    assert (a + b)[1..] == a[1..] + b;
    if |a| > 1 {
      FoldSplit(op, a[1..], b);
    } else {
      assert a[1..] + b == b;
    }
  }

  /** One round: each first player takes its partner's value in. */
  function PlayRound<T>(op: (T, T) -> T, values: seq<T>, round: map<nat, nat>): (r: seq<T>)
    ensures |r| == |values|
  {
    seq(|values|, i requires 0 <= i < |values| =>
      if i in round && round[i] < |values| then op(values[i], values[round[i]]) else values[i])
  }

  function Play<T>(op: (T, T) -> T, values: seq<T>, rounds: seq<map<nat, nat>>): (r: seq<T>)
    ensures |r| == |values|
  {
    if |rounds| == 0 then values
    else PlayRound(op, Play(op, values, rounds[..|rounds| - 1]), rounds[|rounds| - 1])
  }

  function BlockEnd(i: nat, gap: nat, players: nat): (end: nat)
    ensures i < players && gap > 0 ==> i < end <= players
  {
    if i + gap < players then i + gap else players
  }

  /** Survivors hold the fold of the block of players up to the next survivor. */
  ghost predicate Folded<T>(op: (T, T) -> T, values: seq<T>, now: seq<T>, gap: nat) {
    && gap > 0 && |now| == |values|
    && forall i :: 0 <= i < |values| && i % gap == 0 ==> now[i] == Fold(op, values[i..BlockEnd(i, gap, |values|)])
  }

  lemma FoldedStart<T>(op: (T, T) -> T, values: seq<T>)
    ensures Folded(op, values, values, 1)
  {
  }

  lemma FoldedAt<T>(op: (T, T) -> T, values: seq<T>, now: seq<T>, gap: nat, i: nat)
    requires Folded(op, values, now, gap) && i < |values| && i % gap == 0
    ensures now[i] == Fold(op, values[i..BlockEnd(i, gap, |values|)])
  {
  }

  lemma InRound(i: nat, gap: nat, players: nat)
    requires gap > 0 && i % (2 * gap) == 0 && i < players
    ensures i in Round(gap, players) <==> i + gap < players
    ensures i + gap < players ==> Round(gap, players)[i] == i + gap
  {
  }

  lemma {:induction false} PlayedAt<T>(op: (T, T) -> T, values: seq<T>, gap: nat, i: nat)
    requires gap > 0 && i % (2 * gap) == 0 && i < |values|
    ensures PlayRound(op, values, Round(gap, |values|))[i]
         == if i + gap < |values| then op(values[i], values[i + gap]) else values[i]
  {
    hide Round;
    InRound(i, gap, |values|);
  }

  lemma {:induction false} TwoBlocks<T(!new)>(op: (T, T) -> T, values: seq<T>, gap: nat, i: nat)
    requires Associative(op) && gap > 0 && i + gap < |values|
    ensures Fold(op, values[i..BlockEnd(i, 2 * gap, |values|)])
         == op(Fold(op, values[i..i + gap]), Fold(op, values[i + gap..BlockEnd(i + gap, gap, |values|)]))
  {
    hide Associative, Fold;
    var end := BlockEnd(i, 2 * gap, |values|);
    assert values[i..end] == values[i..i + gap] + values[i + gap..end];
    FoldSplit(op, values[i..i + gap], values[i + gap..end]);
  }

  lemma {:induction false} BlockGrows<T(!new)>(op: (T, T) -> T, values: seq<T>, now: seq<T>, gap: nat, i: nat)
    requires Associative(op) && Folded(op, values, now, gap) && i < |values| && i % (2 * gap) == 0
    ensures PlayRound(op, now, Round(gap, |values|))[i] == Fold(op, values[i..BlockEnd(i, 2 * gap, |values|)])
  {
    hide Associative, Fold, PlayRound, Round;
    PlayedAt(op, now, gap, i);
    HalfStep(i, gap);
    FoldedAt(op, values, now, gap, i);
    if i + gap < |values| {
      SecondHalf(i, gap);
      FoldedAt(op, values, now, gap, i + gap);
      TwoBlocks(op, values, gap, i);
    }
  }

  lemma {:induction false} SecondHalf(i: nat, gap: nat)
    requires gap > 0 && i % (2 * gap) == 0
    ensures (i + gap) % gap == 0
  {
    LateHalf(i, gap);
    HalfStep(i + gap, gap);
  }

  lemma {:induction false} RoundFolds<T(!new)>(op: (T, T) -> T, values: seq<T>, now: seq<T>, gap: nat)
    requires Associative(op) && Folded(op, values, now, gap)
    ensures Folded(op, values, PlayRound(op, now, Round(gap, |values|)), 2 * gap)
  {
    hide Associative, Fold, PlayRound, Round;
    forall i | 0 <= i < |values| && i % (2 * gap) == 0
      ensures PlayRound(op, now, Round(gap, |values|))[i] == Fold(op, values[i..BlockEnd(i, 2 * gap, |values|)])
    {
      BlockGrows(op, values, now, gap, i);
    }
  }

  lemma {:induction false} PlayFolds<T(!new)>(op: (T, T) -> T, values: seq<T>, rounds: seq<map<nat, nat>>)
    requires Associative(op)
    requires forall k :: 0 <= k < |rounds| ==> rounds[k] == Round(Exp2(k), |values|)
    ensures Folded(op, values, Play(op, values, rounds), Exp2(|rounds|))
    decreases |rounds|
  {
    hide Associative, Folded, PlayRound, Round, Exp2;
    ExpStart();
    if rounds == [] {
      FoldedStart(op, values);
    } else {
      var k := |rounds| - 1;
      PlayFolds(op, values, rounds[..k]);
      RoundFolds(op, values, Play(op, values, rounds[..k]), Exp2(k));
      ExpNext(k + 1);
    }
  }

  /** Playing a schedule with any associative operation leaves the fold of all values with the first player. */
  lemma {:induction false} WinnerHasFold<T(!new)>(op: (T, T) -> T, values: seq<T>, rounds: seq<map<nat, nat>>)
    requires Associative(op) && |values| > 0 && IsSchedule(rounds, |values|)
    ensures Play(op, values, rounds)[0] == Fold(op, values)
  {
    hide Associative, Folded, Play, Fold, Exp2;
    PlayFolds(op, values, rounds);
    assert 0 % Exp2(|rounds|) == 0;
    FoldedAt(op, values, Play(op, values, rounds), Exp2(|rounds|), 0);
    assert values[0..BlockEnd(0, Exp2(|rounds|), |values|)] == values;
  }
}
