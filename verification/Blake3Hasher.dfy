/** The incremental hasher: blake3_hasher, its stack of chaining values, update and finalize. */
module Blake3Hasher {
  import opened Bits
  import opened Bytes
  import opened Blake3Spec
  import opened Blake3Tree
  import opened Blake3Chunk
  import opened Blake3Wide
  import opened Blake3Output

  /** A stack that holds everything up to done, merged or about to be. */
  ghost predicate Mergeable(m: Mode, stack: seq<CV>, done: seq<byte>)
    ensures Mergeable(m, stack, done) ==> Whole(done)
  {
    && Whole(done)
    && (stack == Subtrees(m, done, 0) || exists s: nat :: Lazy(m, stack, done, s))
  }

  /** A stack whose top two entries are the children of a node that is not compressed yet. */
  ghost predicate OpenPair(m: Mode, stack: seq<CV>, done: seq<byte>) {
    exists s: nat :: Lazy(m, stack, done, s) && Chunks(done) % (2 * s) == 0
  }

  /** What the stack holds between updates, with rest the bytes of the unfinished chunk. */
  ghost predicate Settled(m: Mode, stack: seq<CV>, done: seq<byte>, rest: seq<byte>) {
    && Whole(done)
    && (rest == [] && done != [] ==> OpenPair(m, stack, done))
    && (rest != [] || done == [] ==> stack == Subtrees(m, done, 0))
  }

  lemma {:induction false} SettledMergeable(m: Mode, stack: seq<CV>, done: seq<byte>, rest: seq<byte>)
    requires Settled(m, stack, done, rest)
    ensures Mergeable(m, stack, done)
  {
    hide Lazy, Subtrees;
  }

  lemma {:induction false} TopBits(total: nat)
    requires total < Exp2(MAX_DEPTH)
    ensures Popcount(total) <= MAX_DEPTH
  {
    PopcountBound(total, MAX_DEPTH);
  }

  /** A merged stack and a new subtree on it. */
  lemma {:induction false} PushedSubtree(m: Mode, stack: seq<CV>, done: seq<byte>, tree: seq<byte>, s: nat)
    requires Whole(done) && stack == Subtrees(m, done, 0)
    requires IsPow2(s) && |tree| == s * CHUNK_LEN && Chunks(done) % s == 0
    ensures Mergeable(m, stack + [TreeCV(m, tree, Chunks(done))], done + tree)
  {
    hide Lazy, Subtrees, TreeCV, IsPow2;
    LazyPush(m, done, tree, s);
  }

  /** A merged stack and the second half of a pair on it. */
  lemma {:induction false} PushedPair(m: Mode, stack: seq<CV>, done: seq<byte>, tree: seq<byte>, s: nat)
    requires Whole(done) && stack == Subtrees(m, done, 0)
    requires IsPow2(s) && |tree| == s * CHUNK_LEN && Chunks(done) % s == 0
    requires (Chunks(done) + s) % (2 * s) == 0
    ensures OpenPair(m, stack + [TreeCV(m, tree, Chunks(done))], done + tree)
    ensures Mergeable(m, stack + [TreeCV(m, tree, Chunks(done))], done + tree)
  {
    hide Lazy, Subtrees, TreeCV, IsPow2;
    LazyPush(m, done, tree, s);
    assert Chunks(done + tree) == Chunks(done) + s;
  }

  /** Splits a complete subtree of more than one chunk into its two children. */
  lemma {:induction false} ChildrenOf(m: Mode, tree: seq<byte>, counter: nat, h: nat, left: CV, right: CV)
    requires IsPow2(h) && |tree| == 2 * h * CHUNK_LEN
    requires ParentNode(m, left, right) == TreeNode(m, tree, counter)
    ensures left == TreeCV(m, tree[..h * CHUNK_LEN], counter)
    ensures right == TreeCV(m, tree[h * CHUNK_LEN..], counter + h)
  {
    hide TreeNode, TreeCV, IsPow2;
    var l, r := tree[..h * CHUNK_LEN], tree[h * CHUNK_LEN..];
    assert tree == l + r && Chunks(l) == h;
    SplitPow2(m, l, r, counter);
    var a: seq<byte>, b: seq<byte> := TreeCV(m, l, counter), TreeCV(m, r, counter + h);
    assert left + right == a + b;
    assert left == (left + right)[..32] && a == (a + b)[..32];
    assert right == (left + right)[32..] && b == (a + b)[32..];
  }

  /** No larger power of two fits and divides what was hashed before. */
  ghost predicate NoneLarger(len: nat, remaining: nat, countSoFar: nat) {
    forall q: nat :: IsPow2(q) && q > len ==> q > remaining || countSoFar % q != 0
  }

  lemma {:induction false} NoneLargerFits(len: nat, remaining: nat, countSoFar: nat)
    requires IsPow2(len) && remaining < 2 * len
    ensures NoneLarger(len, remaining, countSoFar)
  {
    hide IsPow2;
    forall q: nat | IsPow2(q) && q > len ensures q > remaining {
      Pow2Tight(len, q);
    }
  }

  lemma {:induction false} NoneLargerHalf(half: nat, remaining: nat, countSoFar: nat)
    requires IsPow2(half) && IsPow2(2 * half) && countSoFar % (2 * half) != 0
    requires NoneLarger(2 * half, remaining, countSoFar)
    ensures NoneLarger(half, remaining, countSoFar)
  {
    hide IsPow2;
    forall q: nat | IsPow2(q) && q > half ensures q > remaining || countSoFar % q != 0 {
      Pow2Tight(half, q);
    }
  }

  lemma HalfPow2(len: nat)
    requires IsPow2(len) && len > 1
    ensures len == 2 * (len / 2) && IsPow2(len / 2)
  {
  }

  /** The largest power of two of bytes that fits and divides what was hashed before. */
  method SubtreeLen(remaining: nat, countSoFar: nat) returns (len: nat)
    requires remaining > CHUNK_LEN && countSoFar % CHUNK_LEN == 0
    ensures IsPow2(len) && CHUNK_LEN <= len <= remaining && countSoFar % len == 0
    ensures NoneLarger(len, remaining, countSoFar)
  {
    hide IsPow2, And, NoneLarger, RoundDown;
    len := RoundDown(remaining);
    ChunkLenPow2();
    if len < CHUNK_LEN {
      Pow2Tight(len, CHUNK_LEN);
    }
    NoneLargerFits(len, remaining, countSoFar);
    AndMask(len, countSoFar);
    while And(len - 1, countSoFar) != 0
      invariant IsPow2(len) && CHUNK_LEN <= len <= remaining
      invariant And(len - 1, countSoFar) == countSoFar % len
      invariant NoneLarger(len, remaining, countSoFar)
      decreases len
    {
      if len > CHUNK_LEN {
        Pow2Tight(CHUNK_LEN, len);
      }
      HalfPow2(len);
      NoneLargerHalf(len / 2, remaining, countSoFar);
      len := len / 2;
      AndMask(len, countSoFar);
    }
  }

  lemma {:induction false} ChunkLenPow2()
    ensures IsPow2(CHUNK_LEN)
  {
    assert IsPow2(16);
    assert IsPow2(128);
  }

  /** A power of two of bytes, at least a chunk, is a power of two of chunks. */
  lemma {:induction false} Pow2Chunks(len: nat)
    requires IsPow2(len) && len >= CHUNK_LEN
    ensures len % CHUNK_LEN == 0 && IsPow2(len / CHUNK_LEN)
    decreases len
  {
    if len > CHUNK_LEN {
      ChunkLenPow2();
      Pow2Tight(CHUNK_LEN, len);
      Pow2Chunks(len / 2);
    }
  }

  lemma {:induction false} DividesChunks(count: nat, len: nat)
    requires len > 0 && len % CHUNK_LEN == 0 && (count * CHUNK_LEN) % len == 0
    ensures count % (len / CHUNK_LEN) == 0
  {
    var s := len / CHUNK_LEN;
    var k := count * CHUNK_LEN / len;
    assert count * CHUNK_LEN == k * len;
    assert k * len == k * s * CHUNK_LEN;
    MultipleMod(k, s);
  }

  class Hasher {
    const m: Mode
    const degree: nat
    const chunk: ChunkState
    const cvStack: array<CV>
    var cvStackLen: nat
    ghost var message: seq<byte>

    ghost function Repr(): set<object>
      reads this
    {
      {this, chunk, chunk.buf, cvStack}
    }

    ghost predicate Base()
      reads this, chunk, chunk.buf
    {
      && chunk.m == m && chunk.Valid()
      && IsPow2(degree)
      && cvStack.Length == MAX_DEPTH + 1 && cvStackLen <= cvStack.Length
    }

    ghost function Stack(): seq<CV>
      requires cvStackLen <= cvStack.Length
      reads this, cvStack
    {
      cvStack[..cvStackLen]
    }

    /** Bytes of the message that belong to chunks before the current one. */
    ghost function Done(): seq<byte>
      requires CHUNK_LEN * chunk.chunkCounter <= |message|
      reads this, chunk
    {
      message[..CHUNK_LEN * chunk.chunkCounter]
    }

    ghost predicate Valid()
      reads Repr()
    {
      && Base() && |message| < Exp2(64)
      && CHUNK_LEN * chunk.chunkCounter <= |message|
      && message == Done() + chunk.content
      && Settled(m, Stack(), Done(), chunk.content)
    }

    constructor (m: Mode, degree: nat)
      requires IsPow2(degree)
      ensures Valid() && fresh(Repr() - {this})
      ensures this.m == m && this.degree == degree && message == []
    {
      this.m := m;
      this.degree := degree;
      var state := new ChunkState(m, 0);
      chunk := state;
      var zero: CV := seq(32, _ => 0);
      cvStack := new CV[MAX_DEPTH + 1](_ => zero);
      cvStackLen := 0;
      message := [];
      new;
      SubtreesEmpty(m, 0);
    }

    /** Merges until the stack has one entry for each one bit of the number of chunks. */
    method MergeCvStack(total: nat, ghost done: seq<byte>)
      requires Base() && Mergeable(m, Stack(), done) && total == Chunks(done)
      modifies this`cvStackLen, cvStack
      ensures Base() && Stack() == Subtrees(m, done, 0) && cvStackLen == Popcount(total)
    {
      hide Lazy, Subtrees, Popcount, IsPow2, TreeCV, ChunkState.Valid;
      var postMergeLen := CountOnes(total);
      SubtreesLength(m, done, 0);
      ghost var s: nat := 1;
      if Stack() != Subtrees(m, done, 0) {
        s :| Lazy(m, Stack(), done, s);
        MergeEnds(m, Stack(), done, s);
      }
      while cvStackLen > postMergeLen
        invariant Base() && cvStackLen >= postMergeLen
        invariant cvStackLen > postMergeLen ==> Lazy(m, Stack(), done, s)
        invariant cvStackLen == postMergeLen ==> Stack() == Subtrees(m, done, 0)
        decreases cvStackLen
      {
        ghost var before := Stack();
        MergeContinues(m, before, done, s);
        var n := cvStackLen;
        cvStack[n - 2] := ChainingValue(m, ParentNode(m, cvStack[n - 2], cvStack[n - 1]));
        cvStackLen := n - 1;
        assert Stack() == before[..n - 2] + [ChainingValue(m, ParentNode(m, before[n - 2], before[n - 1]))];
        s := 2 * s;
        MergeEnds(m, Stack(), done, s);
      }
    }

    /** Merges what is left of the previous push, then puts a new value on top. */
    method PushCv(cv: CV, total: nat, ghost done: seq<byte>)
      requires Base() && Mergeable(m, Stack(), done) && total == Chunks(done) < Exp2(MAX_DEPTH)
      modifies this`cvStackLen, cvStack
      ensures Base() && Stack() == Subtrees(m, done, 0) + [cv]
    {
      hide Subtrees, Popcount, Mergeable, IsPow2, ChunkState.Valid;
      MergeCvStack(total, done);
      TopBits(total);
      ghost var before := Stack();
      cvStack[cvStackLen] := cv;
      cvStackLen := cvStackLen + 1;
      assert Stack() == before + [cv];
    }

    /** Between the steps of an update: no partial chunk, and a stack that holds all of done. */
    ghost predicate Clear(done: seq<byte>)
      reads Repr()
    {
      && Base() && Mergeable(m, Stack(), done)
      && chunk.content == [] && chunk.chunkCounter == Chunks(done)
    }

    /** Tops up the current chunk, and pushes it when more input follows. */
    method FinishChunk(input: seq<byte>) returns (take: nat)
      requires Valid() && chunk.content != [] && |input| > 0 && |message| + |input| < Exp2(64)
      modifies this`cvStackLen, chunk, chunk.buf, cvStack
      ensures take <= |input|
      ensures take < |input| ==> Clear(message + input[..take])
      ensures take == |input| ==> Base() && chunk.content == old(chunk.content) + input
      ensures take == |input| ==> chunk.chunkCounter == old(chunk.chunkCounter) && Stack() == old(Stack())
    {
      hide Subtrees, Mergeable, IsPow2, ChunkState.Valid, ChunkNode, OpenPair, Exp2;
      var len := chunk.Len();
      take := CHUNK_LEN - len;
      if take > |input| {
        take := |input|;
      }
      ghost var done, rest := Done(), chunk.content;
      chunk.Update(input[..take]);
      if take < |input| {
        var node := chunk.Output();
        ghost var full := rest + input[..take];
        assert chunk.content == full && |full| == CHUNK_LEN;
        SettledMergeable(m, Stack(), done, rest);
        FewChunks(done);
        PushCv(ChainingValue(m, node), chunk.chunkCounter, done);
        PushedChunk(m, Subtrees(m, done, 0), done, full);
        assert message + input[..take] == done + full;
        chunk.Reset(chunk.chunkCounter + 1);
      } else {
        assert input[..take] == input;
      }
    }

    /** Hashes the largest subtree that fits and is aligned, and pushes its chunk or its two children. */
    method AddSubtree(input: seq<byte>, ghost done: seq<byte>) returns (len: nat)
      requires Clear(done) && |input| > CHUNK_LEN && |done| + |input| < Exp2(64)
      modifies this`cvStackLen, chunk`chunkCounter, cvStack
      ensures 0 < len <= |input| && Clear(done + input[..len])
      ensures len == |input| ==> OpenPair(m, Stack(), done + input)
    {
      hide Subtrees, Mergeable, IsPow2, ChunkState.Valid, ChunkNode, TreeNode, OpenPair, Exp2, TreeCV;
      var counter := chunk.chunkCounter;
      len := SubtreeLen(|input|, counter * CHUNK_LEN);
      Pow2Chunks(len);
      DividesChunks(counter, len);
      FewChunks(done);
      var tree := input[..len];
      var s := len / CHUNK_LEN;
      if len <= CHUNK_LEN {
        var cv := HashChunk(m, tree, counter);
        PushCv(cv, counter, done);
        PushedChunk(m, Subtrees(m, done, 0), done, tree);
      } else {
        var left, right := CompressSubtreeToParentNode(m, degree, tree, counter);
        PushPair(left, right, counter, s / 2, tree, done);
        assert len == |input| ==> tree == input;
      }
      chunk.Skip(s);
      assert Chunks(done + tree) == Chunks(done) + s;
    }

    /** Pushes the two children of a complete subtree, merging before each. */
    method PushPair(left: CV, right: CV, counter: nat, h: nat, ghost tree: seq<byte>, ghost done: seq<byte>)
      requires Base() && Mergeable(m, Stack(), done) && counter == Chunks(done)
      requires IsPow2(2 * h) && h > 0 && |tree| == 2 * h * CHUNK_LEN && Chunks(done) % (2 * h) == 0
      requires |done| + |tree| < Exp2(64)
      requires ParentNode(m, left, right) == TreeNode(m, tree, counter)
      modifies this`cvStackLen, cvStack
      ensures Base() && Mergeable(m, Stack(), done + tree) && OpenPair(m, Stack(), done + tree)
    {
      hide Subtrees, Mergeable, IsPow2, ChunkState.Valid, TreeNode, OpenPair, Exp2, TreeCV;
      ghost var l, r := tree[..h * CHUNK_LEN], tree[h * CHUNK_LEN..];
      PairParts(Chunks(done), h);
      ChildrenOf(m, tree, counter, h, left, right);
      FewChunks(done);
      FewChunks(done + l);
      PushCv(left, counter, done);
      PushedSubtree(m, Subtrees(m, done, 0), done, l, h);
      assert Chunks(done + l) == counter + h;
      PushCv(right, counter + h, done + l);
      PushedPair(m, Subtrees(m, done + l, 0), done + l, r, h);
      assert done + l + r == done + tree;
    }

    /** Feeds input of any length; how the input is cut into updates leaves no trace. */
    method Update(input: seq<byte>)
      requires Valid() && |message| + |input| < Exp2(64)
      modifies Repr()
      ensures Valid() && message == old(message) + input
    {
      hide Mergeable, OpenPair, Subtrees, IsPow2, ChunkState.Valid, Exp2;
      if |input| == 0 {
        assert message + input == message;
        return;
      }
      var pos := 0;
      var partial := chunk.Len();
      if partial > 0 {
        pos := FinishChunk(input);
        if pos == |input| {
          ExtendPartial(m, Stack(), message, chunk.chunkCounter, old(chunk.content), input);
          message := message + input;
          return;
        }
      } else {
        SettledMergeable(m, Stack(), Done(), []);
        assert message + input[..0] == Done();
      }
      ghost var done := message + input[..pos];
      while |input| - pos > CHUNK_LEN
        invariant 0 <= pos <= |input| && done == message + input[..pos] && message == old(message)
        invariant Clear(done)
        invariant pos == |input| ==> OpenPair(m, Stack(), done)
      {
        var len := AddSubtree(input[pos..], done);
        Extend(done, message, input, pos, len);
        pos := pos + len;
        done := message + input[..pos];
      }
      FinishUpdate(input, pos, done);
    }

    /** The end of an update: leftover bytes go to the chunk state, and then no unmerged pair may stay. */
    method FinishUpdate(input: seq<byte>, pos: nat, ghost done: seq<byte>)
      requires pos <= |input| <= pos + CHUNK_LEN && done == message + input[..pos]
      requires Clear(done) && |message| + |input| < Exp2(64)
      requires pos == |input| ==> OpenPair(m, Stack(), done)
      modifies Repr()
      ensures Valid() && message == old(message) + input
    {
      hide Mergeable, OpenPair, Subtrees, IsPow2, ChunkState.Valid, Exp2;
      message := message + input;
      var rest := input[pos..];
      assert message == done + rest;
      if pos < |input| {
        chunk.Update(rest);
        assert chunk.content == rest;
        MergeCvStack(chunk.chunkCounter, done);
      } else {
        PairNotEmpty(m, Stack(), done);
      }
      assert Done() == done;
    }

    /** The root of the tree over everything fed so far, from the chunk state and the stack. */
    method RootNode() returns (n: Node)
      requires Valid()
      ensures n == TreeNode(m, message, 0)
    {
      hide Mergeable, OpenPair, Subtrees, TreeNode, IsPow2, ChunkState.Valid, RollUp, Exp2;
      StackShape(m, Stack(), Done(), chunk.content);
      var partial := chunk.Len();
      if cvStackLen == 0 {
        n := chunk.Output();
        assert message == chunk.content;
        OneChunk(m, message, 0);
        return;
      }
      var remaining := cvStackLen;
      if partial > 0 {
        n := chunk.Output();
        RollUpChunk(m, Done(), chunk.content);
      } else {
        remaining := cvStackLen - 2;
        n := ParentNode(m, cvStack[remaining], cvStack[remaining + 1]);
        RollUpPair(m, Stack(), Done());
        assert message == Done();
      }
      RollUpEmpty(m, TreeNode(m, message, 0));
      assert Stack()[..remaining] == cvStack[..remaining];
      while remaining > 0
        invariant remaining <= cvStackLen
        invariant RollUp(m, cvStack[..remaining], n) == TreeNode(m, message, 0)
      {
        RollUpTop(m, cvStack[..remaining], n);
        remaining := remaining - 1;
        n := ParentNode(m, cvStack[remaining], ChainingValue(m, n));
        assert cvStack[..remaining + 1][..remaining] == cvStack[..remaining];
      }
      assert cvStack[..0] == [];
      RollUpEmpty(m, n);
    }

    /** Fills out with the hash of everything fed so far, from output position seek on. */
    method FinalizeSeek(seek: nat, out: array<byte>)
      requires Valid() && out != chunk.buf
      modifies out
      ensures out[..] == Hash(m, message, seek, out.Length)
    {
      hide TreeNode, RootByte;
      if out.Length == 0 {
        return;
      }
      var n := RootNode();
      OutputRootBytes(m, n, seek, out);
    }

    /** Forgets everything fed so far. */
    method Reset()
      requires Valid()
      modifies Repr()
      ensures Valid() && message == []
    {
      chunk.Reset(0);
      cvStackLen := 0;
      message := [];
      SubtreesEmpty(m, 0);
    }
  }

  lemma {:induction false} MergeEnds(m: Mode, stack: seq<CV>, done: seq<byte>, s: nat)
    requires Lazy(m, stack, done, s)
    ensures |stack| >= Popcount(Chunks(done))
    ensures |stack| == Popcount(Chunks(done)) ==> stack == Subtrees(m, done, 0)
  {
    hide Lazy, Subtrees, Popcount;
    LazyLength(m, stack, done, s);
    if Chunks(done) % (2 * s) != 0 {
      LazyDone(m, stack, done, s);
      SubtreesLength(m, done, 0);
    }
  }

  lemma {:induction false} MergeContinues(m: Mode, stack: seq<CV>, done: seq<byte>, s: nat)
    requires Lazy(m, stack, done, s) && |stack| > Popcount(Chunks(done))
    ensures |stack| >= 2
    ensures Lazy(m, stack[..|stack| - 2] + [ChainingValue(m, ParentNode(m, stack[|stack| - 2], stack[|stack| - 1]))],
                 done, 2 * s)
  {
    hide Lazy, Subtrees, Popcount;
    LazyLength(m, stack, done, s);
    LazyMerge(m, stack, done, s);
  }

  lemma {:induction false} FewChunks(done: seq<byte>)
    requires |done| < Exp2(64)
    ensures Chunks(done) < Exp2(MAX_DEPTH)
  {
    Exp2Sum(10, MAX_DEPTH);
    assert Exp2(10) == CHUNK_LEN;
  }

  lemma {:induction false} Exp2Sum(a: nat, b: nat)
    ensures Exp2(a + b) == Exp2(a) * Exp2(b)
  {
    if a > 0 {
      Exp2Sum(a - 1, b);
      assert Exp2(a + b) == 2 * Exp2(a - 1 + b);
    }
  }

  /** Pushing the chaining value of one full chunk. */
  lemma {:induction false} PushedChunk(m: Mode, stack: seq<CV>, done: seq<byte>, full: seq<byte>)
    requires Whole(done) && stack == Subtrees(m, done, 0) && |full| == CHUNK_LEN
    ensures Mergeable(m, stack + [ChainingValue(m, ChunkNode(m, full, Chunks(done)))], done + full)
    ensures Chunks(done + full) == Chunks(done) + 1
  {
    hide Lazy, Subtrees, Mergeable, ChunkNode, RoundDown;
    PushedSubtree(m, stack, done, full, 1);
  }

  lemma {:induction false} PairParts(n: nat, h: nat)
    requires h > 0 && IsPow2(2 * h) && n % (2 * h) == 0
    ensures IsPow2(h) && n % h == 0 && (n + h) % h == 0 && (n + h + h) % (2 * h) == 0
  {
    var k := n / (2 * h);
    assert n == (2 * k) * h;
    MultipleMod(2 * k, h);
    ModSum(n, h, h);
    ModSum(n, 2 * h, 2 * h);
  }

  lemma {:induction false} PairNotEmpty(m: Mode, stack: seq<CV>, done: seq<byte>)
    requires OpenPair(m, stack, done)
    ensures done != []
  {
    hide Lazy;
  }

  lemma {:induction false} Extend(done: seq<byte>, message: seq<byte>, input: seq<byte>, pos: nat, len: nat)
    requires pos + len <= |input| && done == message + input[..pos]
    ensures done + input[pos..][..len] == message + input[..pos + len]
    ensures len == |input[pos..]| ==> done + input[pos..] == message + input[..pos + len]
  {
    assert input[..pos] + input[pos..][..len] == input[..pos + len];
    assert input[..pos] + input[pos..] == input;
  }

  /** Bytes added to a partial chunk leave the stack as it is. */
  lemma {:induction false} ExtendPartial(m: Mode, stack: seq<CV>, message: seq<byte>, counter: nat, rest: seq<byte>, input: seq<byte>)
    requires CHUNK_LEN * counter <= |message| && rest != []
    requires message == message[..CHUNK_LEN * counter] + rest
    requires Settled(m, stack, message[..CHUNK_LEN * counter], rest)
    ensures message + input == (message + input)[..CHUNK_LEN * counter] + (rest + input)
    ensures Settled(m, stack, (message + input)[..CHUNK_LEN * counter], rest + input)
  {
    hide OpenPair, Subtrees;
    assert (message + input)[..CHUNK_LEN * counter] == message[..CHUNK_LEN * counter];
  }

  lemma OneChunk(m: Mode, chunk: seq<byte>, counter: nat)
    requires |chunk| <= CHUNK_LEN
    ensures TreeNode(m, chunk, counter) == ChunkNode(m, chunk, counter)
  {
  }

  lemma RollUpTop(m: Mode, stack: seq<CV>, n: Node)
    requires |stack| > 0
    ensures RollUp(m, stack, n) ==
            RollUp(m, stack[..|stack| - 1], ParentNode(m, stack[|stack| - 1], ChainingValue(m, n)))
  {
  }

  lemma {:induction false} RollUpChunk(m: Mode, done: seq<byte>, rest: seq<byte>)
    requires Whole(done) && 0 < |rest| <= CHUNK_LEN
    ensures RollUp(m, Subtrees(m, done, 0), ChunkNode(m, rest, Chunks(done))) == TreeNode(m, done + rest, 0)
  {
    hide Subtrees, RollUp, TreeNode, ChunkNode;
    RollUpTree(m, done, rest, 0, 1);
    OneChunk(m, rest, Chunks(done));
  }

  lemma {:induction false} RollUpPair(m: Mode, stack: seq<CV>, done: seq<byte>)
    requires OpenPair(m, stack, done)
    ensures |stack| >= 2
    ensures RollUp(m, stack[..|stack| - 2], ParentNode(m, stack[|stack| - 2], stack[|stack| - 1])) ==
            TreeNode(m, done, 0)
  {
    hide Subtrees, RollUp, TreeNode, ChunkNode, Lazy;
    var s: nat :| Lazy(m, stack, done, s) && Chunks(done) % (2 * s) == 0;
    LazyPair(m, stack, done, s);
    var k := |done| - 2 * s * CHUNK_LEN;
    LazyIsPow2(m, stack, done, s);
    Double(s);
    assert Chunks(done[..k]) == Chunks(done) - 2 * s;
    ModSum(Chunks(done), 2 * s, 2 * s);
    RollUpTree(m, done[..k], done[k..], 0, 2 * s);
    assert done[..k] + done[k..] == done;
  }

  lemma LazyIsPow2(m: Mode, stack: seq<CV>, done: seq<byte>, s: nat)
    requires Lazy(m, stack, done, s)
    ensures IsPow2(s)
  {
  }

  /** The stack fits in its 55 slots, and holds an unmerged pair when the message ends on a chunk boundary. */
  lemma {:induction false} StackShape(m: Mode, stack: seq<CV>, done: seq<byte>, rest: seq<byte>)
    requires Settled(m, stack, done, rest) && |done| < Exp2(64)
    ensures |stack| <= MAX_DEPTH + 1
    ensures rest == [] && done != [] ==> |stack| >= 2
    ensures rest != [] || done == [] ==> |stack| == Popcount(Chunks(done))
    ensures |stack| == 0 <==> done == []
  {
    hide Lazy, Subtrees, Exp2, Popcount, TreeCV;
    FewChunks(done);
    TopBits(Chunks(done));
    SubtreesLength(m, done, 0);
    if rest == [] && done != [] {
      var s: nat :| Lazy(m, stack, done, s) && Chunks(done) % (2 * s) == 0;
      LazyPair(m, stack, done, s);
      LazyLength(m, stack, done, s);
      TopBits(Chunks(done) - s);
    } else {
      SomeBit(Chunks(done));
    }
  }

  lemma SomeBit(n: nat)
    ensures Popcount(n) == 0 <==> n == 0
  {
  }

  /** Hashing a message piece by piece gives the hash of the whole message, whatever the pieces
      and whatever the SIMD degree. */
  method HashPieces(m: Mode, degree: nat, pieces: seq<seq<byte>>, seek: nat, len: nat) returns (out: seq<byte>)
    requires IsPow2(degree) && |Concat(pieces)| < Exp2(64)
    ensures out == Hash(m, Concat(pieces), seek, len)
  {
    hide Hash, Exp2, IsPow2, Concat;
    var hasher := new Hasher(m, degree);
    var i := 0;
    PiecesStart(pieces);
    while i < |pieces|
      invariant 0 <= i <= |pieces| && hasher.Valid() && fresh(hasher.Repr())
      invariant hasher.m == m && hasher.message == Concat(pieces[..i])
    {
      PiecesStep(pieces, i);
      hasher.Update(pieces[i]);
      i := i + 1;
    }
    assert pieces[..i] == pieces;
    var buffer := new byte[len](_ => 0);
    hasher.FinalizeSeek(seek, buffer);
    out := buffer[..];
  }

  lemma PiecesStart(pieces: seq<seq<byte>>)
    ensures Concat(pieces[..0]) == []
  {
  }

  lemma {:induction false} PiecesStep(pieces: seq<seq<byte>>, i: nat)
    requires i < |pieces|
    ensures Concat(pieces[..i + 1]) == Concat(pieces[..i]) + pieces[i]
    ensures |Concat(pieces[..i])| + |pieces[i]| <= |Concat(pieces)|
  {
    hide Concat;
    assert pieces[..i + 1] == pieces[..i] + [pieces[i]];
    ConcatAppend(pieces[..i], [pieces[i]]);
    ConcatOne(pieces[i]);
    assert pieces == pieces[..i + 1] + pieces[i + 1..];
    ConcatAppend(pieces[..i + 1], pieces[i + 1..]);
  }

  /** Key derivation: the hash of the context, in its own mode, keys the hasher for the material. */
  method InitDeriveKey(compress: Compression, iv: CV, degree: nat, context: seq<byte>) returns (hasher: Hasher)
    requires IsPow2(degree) && |context| < Exp2(64)
    ensures fresh(hasher) && hasher.Valid() && hasher.message == []
    ensures hasher.m == Mode(compress, Hash(Mode(compress, iv, DERIVE_KEY_CONTEXT), context, 0, OUT_LEN),
                             DERIVE_KEY_MATERIAL)
  {
    hide IsPow2, Exp2;
    ConcatOne(context);
    var key := HashPieces(Mode(compress, iv, DERIVE_KEY_CONTEXT), degree, [context], 0, OUT_LEN);
    hasher := new Hasher(Mode(compress, key, DERIVE_KEY_MATERIAL), degree);
  }
}
