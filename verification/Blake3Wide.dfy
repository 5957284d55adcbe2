/** Hashing a subtree many chunks and parents at a time, for any power-of-two SIMD degree. */
module Blake3Wide {
  import opened Bits
  import opened Bytes
  import opened Blake3Spec
  import opened Blake3Tree
  import opened Blake3Chunk

  function ParentCV(m: Mode, left: CV, right: CV): CV {
    ChainingValue(m, ParentNode(m, left, right))
  }

  /** One layer of parents; an odd value at the end moves up unchanged. */
  ghost function Condense(m: Mode, cvs: seq<CV>): (r: seq<CV>)
    ensures |r| == (|cvs| + 1) / 2
  {
    if |cvs| < 2 then cvs else [ParentCV(m, cvs[0], cvs[1])] + Condense(m, cvs[2..])
  }

  /** The chaining value of the tree over some leaves. */
  ghost function MergeTree(m: Mode, cvs: seq<CV>): CV
    requires |cvs| > 0
    decreases |cvs|, 1
  {
    if |cvs| == 1 then cvs[0] else ChainingValue(m, MergeNode(m, cvs))
  }

  /** The top node of the tree over at least two leaves, split as Blake3Spec splits. */
  ghost function MergeNode(m: Mode, cvs: seq<CV>): Node
    requires |cvs| > 1
    decreases |cvs|, 0
  {
    var p := RoundDown(|cvs| - 1);
    ParentNode(m, MergeTree(m, cvs[..p]), MergeTree(m, cvs[p..]))
  }

  lemma {:induction false} MergeSplit(m: Mode, left: seq<CV>, right: seq<CV>)
    requires |left| > 0 && |right| > 0 && RoundDown(|left| + |right| - 1) == |left|
    ensures MergeNode(m, left + right) == ParentNode(m, MergeTree(m, left), MergeTree(m, right))
  {
    hide MergeTree, RoundDown, ParentNode;
    var cvs := left + right;
    var k := |left|;
    assert MergeNode(m, cvs) == ParentNode(m, MergeTree(m, cvs[..k]), MergeTree(m, cvs[k..]));
    assert cvs[..k] == left && cvs[k..] == right;
  }

  lemma {:induction false} CondenseConcat(m: Mode, left: seq<CV>, right: seq<CV>)
    requires |left| % 2 == 0
    ensures Condense(m, left + right) == Condense(m, left) + Condense(m, right)
  {
    hide ParentCV;
    var cvs := left + right;
    if |left| == 0 {
      assert cvs == right;
    } else {
      assert cvs[2..] == left[2..] + right;
      CondenseConcat(m, left[2..], right);
    }
  }

  /** Replacing leaves by a layer of parents does not change the tree. */
  lemma {:induction false} CondenseTree(m: Mode, cvs: seq<CV>)
    requires |cvs| > 0
    ensures MergeTree(m, Condense(m, cvs)) == MergeTree(m, cvs)
    decreases |cvs|, 1
  {
    if |cvs| == 2 {
      assert cvs[2..] == [] && Condense(m, []) == [];
      assert cvs == [cvs[0]] + [cvs[1]];
      MergeSplit(m, [cvs[0]], [cvs[1]]);
    } else if |cvs| > 2 {
      CondenseNode(m, cvs);
    }
  }

  lemma {:induction false} CondenseNode(m: Mode, cvs: seq<CV>)
    requires |cvs| > 2
    ensures MergeNode(m, Condense(m, cvs)) == MergeNode(m, cvs)
    decreases |cvs|, 0
  {
    hide MergeNode, MergeTree, Condense;
    var p := RoundDown(|cvs| - 1);
    var left, right := cvs[..p], cvs[p..];
    assert p % 2 == 0 && RoundDown((|cvs| - 1) / 2) == p / 2;
    hide RoundDown;
    assert cvs == left + right;
    CondenseConcat(m, left, right);
    CondenseTree(m, left);
    CondenseTree(m, right);
    MergeSplit(m, left, right);
    MergeSplit(m, Condense(m, left), Condense(m, right));
  }

  /** Number of chunks a non-empty input takes up. */
  function ChunkCount(len: nat): nat
    requires len > 0
  {
    (len - 1) / CHUNK_LEN + 1
  }

  function ChunkCV(m: Mode, chunk: seq<byte>, counter: nat): CV {
    ChainingValue(m, ChunkNode(m, chunk, counter))
  }

  /** Chaining values of the chunks of an input, the last one possibly short. */
  ghost function ChunkCVs(m: Mode, input: seq<byte>, counter: nat): (r: seq<CV>)
    requires |input| > 0
    ensures |r| == ChunkCount(|input|)
  {
    if |input| <= CHUNK_LEN then [ChunkCV(m, input, counter)] else
      [ChunkCV(m, input[..CHUNK_LEN], counter)] + ChunkCVs(m, input[CHUNK_LEN..], counter + 1)
  }

  lemma {:induction false} ChunkCVsConcat(m: Mode, left: seq<byte>, right: seq<byte>, counter: nat)
    requires Whole(left) && |left| > 0 && |right| > 0
    ensures ChunkCVs(m, left + right, counter) ==
            ChunkCVs(m, left, counter) + ChunkCVs(m, right, counter + Chunks(left))
  {
    hide ChunkCV;
    var all := left + right;
    assert all[..CHUNK_LEN] == left[..CHUNK_LEN];
    if |left| == CHUNK_LEN {
      assert all[CHUNK_LEN..] == right && left[..CHUNK_LEN] == left;
    } else {
      assert all[CHUNK_LEN..] == left[CHUNK_LEN..] + right;
      ChunkCVsConcat(m, left[CHUNK_LEN..], right, counter + 1);
    }
  }

  /** The tree over the chunks of an input is the tree of the input. */
  lemma {:induction false} ChunkCVsTree(m: Mode, input: seq<byte>, counter: nat)
    requires |input| > 0
    ensures MergeTree(m, ChunkCVs(m, input, counter)) == TreeCV(m, input, counter)
    ensures |input| > CHUNK_LEN ==> MergeNode(m, ChunkCVs(m, input, counter)) == TreeNode(m, input, counter)
    decreases |input|
  {
    hide MergeNode, LeftLen, ChunkCV, RoundDown, ChunkNode;
    if |input| <= CHUNK_LEN {
      ChunkCVsSmall(m, input, counter);
    } else {
      var l := LeftLen(|input|);
      ChunkCVsSplit(m, input, counter, l);
      ChunkCVsTree(m, input[..l], counter);
      ChunkCVsTree(m, input[l..], counter + l / CHUNK_LEN);
    }
  }

  lemma ChunkCVsSmall(m: Mode, input: seq<byte>, counter: nat)
    requires 0 < |input| <= CHUNK_LEN
    ensures ChunkCVs(m, input, counter) == [TreeCV(m, input, counter)]
  {
  }

  lemma {:induction false} ChunkCVsSplit(m: Mode, input: seq<byte>, counter: nat, l: nat)
    requires |input| > CHUNK_LEN && l == LeftLen(|input|)
    ensures MergeNode(m, ChunkCVs(m, input, counter)) ==
            ParentNode(m, MergeTree(m, ChunkCVs(m, input[..l], counter)),
                       MergeTree(m, ChunkCVs(m, input[l..], counter + l / CHUNK_LEN)))
  {
    hide MergeNode, MergeTree, ChunkCVs;
    assert input == input[..l] + input[l..];
    ChunkCVsConcat(m, input[..l], input[l..], counter);
    assert ChunkCount(l) == l / CHUNK_LEN;
    MergeSplit(m, ChunkCVs(m, input[..l], counter), ChunkCVs(m, input[l..], counter + l / CHUNK_LEN));
  }

  /** Chaining values of whole chunks, numbered consecutively. */
  ghost function EachChunkCV(m: Mode, chunks: seq<seq<byte>>, counter: nat): (r: seq<CV>)
    ensures |r| == |chunks|
  {
    seq(|chunks|, i requires 0 <= i < |chunks| => ChunkCV(m, chunks[i], counter + i))
  }

  /** blake3_hash_many on chunks: the counter goes up by one for each input. */
  method HashManyChunks(m: Mode, chunks: seq<seq<byte>>, counter: nat, out: array<CV>, at: nat)
    requires forall i :: 0 <= i < |chunks| ==> |chunks[i]| == CHUNK_LEN
    requires at + |chunks| <= out.Length
    modifies out
    ensures out[at..at + |chunks|] == EachChunkCV(m, chunks, counter)
    ensures out[..at] == old(out[..at]) && out[at + |chunks|..] == old(out[at + |chunks|..])
  {
    hide ChunkCV;
    var i := 0;
    while i < |chunks|
      invariant 0 <= i <= |chunks|
      invariant forall j :: 0 <= j < i ==> out[at + j] == ChunkCV(m, chunks[j], counter + j)
      invariant out[..at] == old(out[..at]) && out[at + |chunks|..] == old(out[at + |chunks|..])
    {
      var cv := HashOne(m, chunks[i], counter + i);
      ChunkCVIs(m, chunks[i], counter + i);
      out[at + i] := cv;
      i := i + 1;
    }
  }

  lemma ChunkCVIs(m: Mode, chunk: seq<byte>, counter: nat)
    ensures ChunkCV(m, chunk, counter) == ChainingValue(m, ChunkNode(m, chunk, counter))
  {
  }

  /** The whole chunks of an input. */
  ghost predicate Cuts(chunks: seq<seq<byte>>, input: seq<byte>)
  {
    && |chunks| * CHUNK_LEN <= |input|
    && forall i {:trigger chunks[i]} :: 0 <= i < |chunks| ==>
         chunks[i] == input[i * CHUNK_LEN..i * CHUNK_LEN + CHUNK_LEN]
  }

  /** Whole chunks, then a last chunk, make up the chunks of an input. */
  lemma {:induction false} CutsChunkCVs(m: Mode, chunks: seq<seq<byte>>, input: seq<byte>, counter: nat)
    requires Cuts(chunks, input) && |input| > 0
    requires |input| <= |chunks| * CHUNK_LEN + CHUNK_LEN
    ensures var rest := input[|chunks| * CHUNK_LEN..];
            ChunkCVs(m, input, counter) ==
            EachChunkCV(m, chunks, counter) + (if rest == [] then [] else [ChunkCV(m, rest, counter + |chunks|)])
    decreases |chunks|
  {
    hide ChunkCV;
    var k := |chunks| * CHUNK_LEN;
    if |chunks| == 0 {
      assert input[k..] == input;
    } else if |input| == CHUNK_LEN {
      assert chunks == [chunks[0]] && chunks[0] == input;
      assert input[k..] == [];
      assert EachChunkCV(m, chunks, counter) == [ChunkCV(m, input, counter)];
    } else {
      var tail := input[CHUNK_LEN..];
      assert Cuts(chunks[1..], tail) by { CutsTail(chunks, input); }
      CutsChunkCVs(m, chunks[1..], tail, counter + 1);
      assert chunks[0] == input[..CHUNK_LEN];
      assert tail[k - CHUNK_LEN..] == input[k..];
      assert EachChunkCV(m, chunks, counter) ==
             [ChunkCV(m, chunks[0], counter)] + EachChunkCV(m, chunks[1..], counter + 1);
    }
  }

  lemma {:induction false} CutsTail(chunks: seq<seq<byte>>, input: seq<byte>)
    requires Cuts(chunks, input) && |chunks| > 0
    ensures Cuts(chunks[1..], input[CHUNK_LEN..])
  {
    var tail := input[CHUNK_LEN..];
    forall i | 0 <= i < |chunks| - 1
      ensures chunks[1..][i] == tail[i * CHUNK_LEN..i * CHUNK_LEN + CHUNK_LEN]
    {
      assert chunks[1..][i] == chunks[i + 1];
    }
  }

  /** Hashes a chunk of any length through a chunk state of its own. */
  method HashChunk(m: Mode, chunk: seq<byte>, counter: nat) returns (cv: CV)
    requires |chunk| <= CHUNK_LEN
    ensures cv == ChunkCV(m, chunk, counter)
  {
    hide ChunkNode;
    var state := new ChunkState(m, counter);
    state.Update(chunk);
    assert state.content == chunk;
    var node := state.Output();
    cv := ChainingValue(m, node);
  }

  /** Hashes up to degree chunks at once and writes their chaining values. */
  method CompressChunksParallel(m: Mode, input: seq<byte>, counter: nat, out: array<CV>, at: nat) returns (n: nat)
    requires |input| > 0 && at + ChunkCount(|input|) <= out.Length
    modifies out
    ensures n == ChunkCount(|input|)
    ensures out[at..at + n] == ChunkCVs(m, input, counter)
    ensures out[..at] == old(out[..at]) && out[at + n..] == old(out[at + n..])
  {
    hide ChunkCV, ChunkCVs, EachChunkCV;
    var chunks: seq<seq<byte>> := [];
    var position := 0;
    while |input| - position >= CHUNK_LEN
      invariant position == |chunks| * CHUNK_LEN <= |input|
      invariant Cuts(chunks, input)
    {
      chunks := chunks + [input[position..position + CHUNK_LEN]];
      position := position + CHUNK_LEN;
    }
    CutsChunkCVs(m, chunks, input, counter);
    HashManyChunks(m, chunks, counter, out, at);
    n := |chunks|;
    ghost var rest := input[position..];
    if |input| > position {
      var cv := HashChunk(m, input[position..], counter + n);
      ghost var before := out[..];
      assert before[at..at + n] == EachChunkCV(m, chunks, counter);
      out[at + n] := cv;
      n := n + 1;
      assert out[at..at + n] == before[at..at + n - 1] + [ChunkCV(m, rest, counter + |chunks|)];
      assert out[..at] == before[..at];
      assert out[at + n..] == before[at + n - 1..][1..];
      assert old(out[at + n - 1..])[1..] == old(out[at + n..]);
    } else {
      assert rest == [];
    }
  }

  /** Hashes pairs of chaining values into parents; an odd one left over becomes an output itself. */
  method CompressParentsParallel(m: Mode, cvs: seq<CV>, out: array<CV>, at: nat) returns (n: nat)
    requires |cvs| >= 2 && at + (|cvs| + 1) / 2 <= out.Length
    modifies out
    ensures n == (|cvs| + 1) / 2
    ensures out[at..at + n] == Condense(m, cvs)
    ensures out[..at] == old(out[..at]) && out[at + n..] == old(out[at + n..])
  {
    hide ParentCV, Condense;
    n := 0;
    CondenseEnds(m, cvs);
    assert cvs[..0] == [];
    while |cvs| - 2 * n >= 2
      invariant 0 <= 2 * n <= |cvs|
      invariant out[at..at + n] == Condense(m, cvs[..2 * n])
      invariant out[..at] == old(out[..at])
      invariant out[at + (|cvs| + 1) / 2..] == old(out[at + (|cvs| + 1) / 2..])
    {
      ghost var done := out[at..at + n];
      CondenseMore(m, cvs[..2 * n], cvs[2 * n], cvs[2 * n + 1]);
      assert cvs[..2 * n] + [cvs[2 * n], cvs[2 * n + 1]] == cvs[..2 * n + 2];
      out[at + n] := ParentCV(m, cvs[2 * n], cvs[2 * n + 1]);
      assert out[at..at + n + 1] == done + [out[at + n]];
      n := n + 1;
    }
    CondenseConcat(m, cvs[..2 * n], cvs[2 * n..]);
    assert cvs[..2 * n] + cvs[2 * n..] == cvs;
    CondenseEnds(m, cvs[2 * n..]);
    if |cvs| > 2 * n {
      ghost var done := out[at..at + n];
      out[at + n] := cvs[2 * n];
      assert out[at..at + n + 1] == done + cvs[2 * n..];
      n := n + 1;
    }
  }

  lemma CondenseEnds(m: Mode, cvs: seq<CV>)
    ensures Condense(m, []) == []
    ensures |cvs| < 2 ==> Condense(m, cvs) == cvs
  {
  }

  lemma {:induction false} CondenseMore(m: Mode, cvs: seq<CV>, left: CV, right: CV)
    requires |cvs| % 2 == 0
    ensures Condense(m, cvs + [left, right]) == Condense(m, cvs) + [ParentCV(m, left, right)]
  {
    hide ParentCV;
    CondenseConcat(m, cvs, [left, right]);
    assert [left, right][2..] == [];
  }

  function OrTwo(degree: nat): nat {
    if degree > 2 then degree else 2
  }

  /** What blake3_compress_subtree_wide leaves in its output slots: leaves of the tree over the input. */
  ghost predicate WideLeaves(m: Mode, degree: nat, input: seq<byte>, counter: nat, cvs: seq<CV>)
  {
    && 1 <= |cvs| <= OrTwo(degree)
    && MergeTree(m, cvs) == TreeCV(m, input, counter)
    && (|input| > CHUNK_LEN ==> |cvs| > 1 && MergeNode(m, cvs) == TreeNode(m, input, counter))
  }

  /** Number of leaves a complete subtree of at least degree chunks comes down to. */
  ghost predicate WideSlots(degree: nat, len: nat, n: nat) {
    len % CHUNK_LEN == 0 && IsPow2(len / CHUNK_LEN) && degree * CHUNK_LEN <= len ==>
      n == if degree == 1 && len > CHUNK_LEN then 2 else degree
  }

  /** Recursive wide hashing. The left half always fills exactly its slots, so the two halves are adjacent. */
  method CompressSubtreeWide(m: Mode, degree: nat, input: seq<byte>, counter: nat, out: array<CV>, at: nat)
    returns (n: nat)
    requires IsPow2(degree) && |input| > 0
    requires at + OrTwo(degree) <= out.Length
    modifies out
    ensures 1 <= n <= OrTwo(degree) && WideLeaves(m, degree, input, counter, out[at..at + n])
    ensures n <= ChunkCount(|input|) && WideSlots(degree, |input|, n)
    ensures out[..at] == old(out[..at]) && out[at + n..] == old(out[at + n..])
    decreases |input|, 1
  {
    hide WideLeaves, WideSlots, Condense, ChunkCVs, IsPow2, LeftLen;
    if |input| <= degree * CHUNK_LEN {
      n := CompressChunksParallel(m, input, counter, out, at);
      DirectLeaves(m, degree, input, counter);
    } else {
      var cvs, leftN := CompressHalves(m, degree, input, counter);
      n := JoinHalves(m, cvs, leftN, out, at);
    }
  }

  /** Wide hashing of both children of a node into one array, the right one right after the slots of the left. */
  method CompressHalves(m: Mode, degree: nat, input: seq<byte>, counter: nat) returns (cvs: seq<CV>, leftN: nat)
    requires IsPow2(degree) && |input| > degree * CHUNK_LEN
    ensures 1 <= leftN < |cvs| <= 2 * leftN
    ensures var n := JoinedCount(leftN, |cvs| - leftN);
            && n <= OrTwo(degree) && n <= ChunkCount(|input|) && WideSlots(degree, |input|, n)
    ensures WideLeaves(m, degree, input, counter, if leftN == 1 then cvs else Condense(m, cvs))
    decreases |input|, 0
  {
    hide WideLeaves, WideSlots, Condense, IsPow2, LeftLen, ChunkCount;
    var l := LeftLen(|input|);
    var zero: CV := seq(32, _ => 0);
    var cvArray := new CV[2 * OrTwo(degree)](_ => zero);
    var leftSlots := degree;
    if l > CHUNK_LEN && degree == 1 {
      leftSlots := 2;
    }
    leftN := CompressSubtreeWide(m, degree, input[..l], counter, cvArray, 0);
    ghost var leftCvs := cvArray[0..0 + leftN];
    var rightN := CompressSubtreeWide(m, degree, input[l..], counter + l / CHUNK_LEN, cvArray, leftSlots);
    ghost var rightCvs := cvArray[leftSlots..leftSlots + rightN];
    WideCounts(degree, |input|, leftN, rightN);
    cvs := cvArray[..leftN + rightN];
    assert cvs == leftCvs + rightCvs;
    WideJoin(m, degree, input, counter, leftCvs, rightCvs);
  }

  /** The end of one step of wide hashing: two single values are kept, more are hashed into parents. */
  method JoinHalves(m: Mode, cvs: seq<CV>, leftN: nat, out: array<CV>, at: nat) returns (n: nat)
    requires 1 <= leftN < |cvs| <= 2 * leftN
    requires at + JoinedCount(leftN, |cvs| - leftN) <= out.Length
    modifies out
    ensures n == JoinedCount(leftN, |cvs| - leftN)
    ensures out[at..at + n] == if leftN == 1 then cvs else Condense(m, cvs)
    ensures out[..at] == old(out[..at]) && out[at + n..] == old(out[at + n..])
  {
    hide Condense;
    if leftN == 1 {
      out[at], out[at + 1] := cvs[0], cvs[1];
      n := 2;
    } else {
      n := CompressParentsParallel(m, cvs, out, at);
    }
  }

  lemma {:induction false} DirectLeaves(m: Mode, degree: nat, input: seq<byte>, counter: nat)
    requires 0 < |input| <= degree * CHUNK_LEN
    ensures WideLeaves(m, degree, input, counter, ChunkCVs(m, input, counter))
    ensures WideSlots(degree, |input|, ChunkCount(|input|))
  {
    hide MergeTree, MergeNode, TreeNode, TreeCV, ChunkCVs, IsPow2;
    ChunkCVsTree(m, input, counter);
  }

  lemma TwoIsPow2()
    ensures IsPow2(2)
  {
  }

  /** The left part of a long input is complete and has at least degree chunks; the right is no longer. */
  lemma {:induction false} LeftIsWide(degree: nat, len: nat)
    requires IsPow2(degree) && len > degree * CHUNK_LEN
    ensures IsPow2(LeftLen(len) / CHUNK_LEN) && degree * CHUNK_LEN <= LeftLen(len) && len <= 2 * LeftLen(len)
  {
    var p := RoundDown((len - 1) / CHUNK_LEN);
    if p < degree {
      Pow2Tight(p, degree);
    }
  }

  lemma {:induction false} LeftIsHalf(len: nat)
    requires len > CHUNK_LEN && len % CHUNK_LEN == 0 && IsPow2(len / CHUNK_LEN)
    ensures len == 2 * LeftLen(len)
  {
    RoundDownUnique((len - 1) / CHUNK_LEN, len / CHUNK_LEN / 2);
  }

  /** Number of values that come out of one step of wide hashing. */
  function JoinedCount(leftN: nat, rightN: nat): nat {
    if leftN == 1 then 2 else (leftN + rightN + 1) / 2
  }

  /** The left half fills exactly its slots, and no count goes over the slots available. */
  lemma {:induction false} WideCounts(degree: nat, len: nat, leftN: nat, rightN: nat)
    requires IsPow2(degree) && len > degree * CHUNK_LEN
    requires WideSlots(degree, LeftLen(len), leftN) && WideSlots(degree, len - LeftLen(len), rightN)
    requires 1 <= rightN <= OrTwo(degree) && rightN <= ChunkCount(len - LeftLen(len))
    ensures leftN == if LeftLen(len) > CHUNK_LEN && degree == 1 then 2 else degree
    ensures IsPow2(leftN) && rightN <= leftN
    ensures JoinedCount(leftN, rightN) <= OrTwo(degree)
    ensures JoinedCount(leftN, rightN) <= ChunkCount(len)
    ensures WideSlots(degree, len, JoinedCount(leftN, rightN))
  {
    hide LeftLen, IsPow2;
    LeftIsWide(degree, len);
    TwoIsPow2();
    if len % CHUNK_LEN == 0 && IsPow2(len / CHUNK_LEN) {
      LeftIsHalf(len);
    }
  }

  /** Leaves of the two children of a node, put side by side, are leaves of the node, and so are their parents. */
  lemma {:induction false} WideJoin(m: Mode, degree: nat, input: seq<byte>, counter: nat, leftCvs: seq<CV>, rightCvs: seq<CV>)
    requires |input| > CHUNK_LEN
    requires var l := LeftLen(|input|);
             && WideLeaves(m, degree, input[..l], counter, leftCvs)
             && WideLeaves(m, degree, input[l..], counter + l / CHUNK_LEN, rightCvs)
    requires IsPow2(|leftCvs|) && |rightCvs| <= |leftCvs|
    requires JoinedCount(|leftCvs|, |rightCvs|) <= OrTwo(degree)
    ensures WideLeaves(m, degree, input, counter,
                       if |leftCvs| == 1 then leftCvs + rightCvs else Condense(m, leftCvs + rightCvs))
  {
    hide MergeNode, MergeTree, Condense, RoundDown, LeftLen, TreeCV;
    var cvs := leftCvs + rightCvs;
    JoinSplit(m, leftCvs, rightCvs);
    assert MergeNode(m, cvs) == TreeNode(m, input, counter);
    MergeTreeIs(m, cvs);
    TreeCVIs(m, input, counter);
    if |leftCvs| > 1 {
      CondenseNode(m, cvs);
      MergeTreeIs(m, Condense(m, cvs));
    }
  }

  lemma {:induction false} JoinSplit(m: Mode, left: seq<CV>, right: seq<CV>)
    requires IsPow2(|left|) && 0 < |right| <= |left|
    ensures MergeNode(m, left + right) == ParentNode(m, MergeTree(m, left), MergeTree(m, right))
  {
    hide MergeNode, MergeTree;
    RoundDownUnique(|left| + |right| - 1, |left|);
    MergeSplit(m, left, right);
  }

  lemma MergeTreeIs(m: Mode, cvs: seq<CV>)
    requires |cvs| > 1
    ensures MergeTree(m, cvs) == ChainingValue(m, MergeNode(m, cvs))
  {
  }

  /** The number of slots is even, so half of them hold a layer of parents. */
  lemma HalfSlots(degree: nat)
    requires IsPow2(degree)
    ensures OrTwo(degree) == 2 * (OrTwo(degree) / 2)
  {
  }

  /** Hashes a subtree of more than one chunk down to its two children, leaving its top node uncompressed. */
  method CompressSubtreeToParentNode(m: Mode, degree: nat, input: seq<byte>, counter: nat)
    returns (left: CV, right: CV)
    requires IsPow2(degree) && |input| > CHUNK_LEN
    ensures ParentNode(m, left, right) == TreeNode(m, input, counter)
  {
    hide MergeTree, MergeNode, TreeNode, TreeCV, Condense, IsPow2;
    var zero: CV := seq(32, _ => 0);
    var cvArray := new CV[OrTwo(degree)](_ => zero);
    var n := CompressSubtreeWide(m, degree, input, counter, cvArray, 0);
    assert cvArray[..n] == cvArray[0..0 + n];
    HalfSlots(degree);
    var outArray := new CV[OrTwo(degree) / 2](_ => zero);
    while n > 2
      invariant 2 <= n <= cvArray.Length == 2 * outArray.Length
      invariant MergeNode(m, cvArray[..n]) == TreeNode(m, input, counter)
      invariant fresh(cvArray) && fresh(outArray) && cvArray != outArray
    {
      var cvs := cvArray[..n];
      CondenseNode(m, cvs);
      n := CompressParentsParallel(m, cvs, outArray, 0);
      ghost var parents := outArray[0..0 + n];
      forall i | 0 <= i < n { cvArray[i] := outArray[i]; }
      assert cvArray[..n] == parents;
    }
    left, right := cvArray[0], cvArray[1];
    assert cvArray[..n] == [left] + [right];
    PairNode(m, left, right);
  }

  lemma {:induction false} PairNode(m: Mode, left: CV, right: CV)
    ensures MergeNode(m, [left] + [right]) == ParentNode(m, left, right)
  {
    MergeSplit(m, [left], [right]);
  }
}
