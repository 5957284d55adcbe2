/** How complete subtrees and a stack of them make up the tree of Blake3Spec. */
module Blake3Tree {
  import opened Bits
  import opened Bytes
  import opened Blake3Spec

  function Chunks(input: seq<byte>): nat {
    |input| / CHUNK_LEN
  }

  ghost predicate Whole(input: seq<byte>) {
    |input| % CHUNK_LEN == 0
  }

  /** The root of a tree splits where the largest power of two of chunks ends. */
  lemma {:induction false} Split(m: Mode, left: seq<byte>, right: seq<byte>, counter: nat)
    requires Whole(left) && |left| > 0 && |right| > 0
    requires RoundDown((|left| + |right| - 1) / CHUNK_LEN) == Chunks(left)
    ensures TreeNode(m, left + right, counter) ==
            ParentNode(m, TreeCV(m, left, counter), TreeCV(m, right, counter + Chunks(left)))
  {
    var input := left + right;
    assert LeftLen(|input|) == |left|;
    assert input[..|left|] == left && input[|left|..] == right;
  }

  /** A complete left subtree and anything no larger to its right are the two children. */
  lemma {:induction false} SplitPow2(m: Mode, left: seq<byte>, right: seq<byte>, counter: nat)
    requires Whole(left) && IsPow2(Chunks(left)) && 0 < |right| <= |left|
    ensures TreeNode(m, left + right, counter) ==
            ParentNode(m, TreeCV(m, left, counter), TreeCV(m, right, counter + Chunks(left)))
  {
    RoundDownUnique((|left| + |right| - 1) / CHUNK_LEN, Chunks(left));
    Split(m, left, right, counter);
  }

  /** Chaining values of the complete subtrees that whole chunks decompose into, largest first. */
  ghost function Subtrees(m: Mode, input: seq<byte>, counter: nat): seq<CV>
    requires Whole(input)
    decreases |input|
  {
    if |input| == 0 then [] else
      var p := RoundDown(Chunks(input));
      [TreeCV(m, input[..p * CHUNK_LEN], counter)] + Subtrees(m, input[p * CHUNK_LEN..], counter + p)
  }

  /** There is one subtree for each one bit of the number of chunks. */
  lemma {:induction false} SubtreesLength(m: Mode, input: seq<byte>, counter: nat)
    requires Whole(input)
    ensures |Subtrees(m, input, counter)| == Popcount(Chunks(input))
    decreases |input|
  {
    hide TreeCV, Popcount, Subtrees, RoundDown;
    if |input| == 0 {
      PopcountZero();
      assert input == [];
      SubtreesEmpty(m, counter);
    } else {
      var p := RoundDown(Chunks(input));
      var front, rest := input[..p * CHUNK_LEN], input[p * CHUNK_LEN..];
      assert Chunks(front) == p && Chunks(rest) == Chunks(input) - p;
      SubtreesLength(m, rest, counter + p);
      PopcountLeading(Chunks(input));
      assert input == front + rest;
      SubtreesFront(m, input, counter, front, rest);
    }
  }

  lemma PopcountZero()
    ensures Popcount(0) == 0
  {
  }

  lemma {:induction false} PopcountLeading(n: nat)
    requires n > 0
    ensures Popcount(n) == 1 + Popcount(n - RoundDown(n))
  {
    if n > 1 {
      PopcountLeading(n / 2);
      assert (n - RoundDown(n)) / 2 == n / 2 - RoundDown(n / 2);
    }
  }

  lemma {:induction false} SubtreesFront(m: Mode, input: seq<byte>, counter: nat, front: seq<byte>, rest: seq<byte>)
    requires Whole(input) && Whole(front) && input == front + rest && |front| > 0
    requires RoundDown(Chunks(input)) == Chunks(front)
    ensures Subtrees(m, input, counter) ==
            [TreeCV(m, front, counter)] + Subtrees(m, rest, counter + Chunks(front))
  {
    hide TreeCV;
    assert input[..|front|] == front && input[|front|..] == rest;
  }

  lemma {:induction false} PushParts(n: nat, s: nat)
    requires n > 0 && IsPow2(s) && n % (2 * s) == 0
    ensures RoundDown(n + s) == RoundDown(n)
    ensures (n - RoundDown(n)) % (2 * s) == 0
  {
    Double(s);
    RoundDownStable(n, 2 * s, s);
    DividesParts(n, 2 * s);
  }

  /** A subtree at most half the size of all before it goes at the end of the decomposition. */
  lemma {:induction false} SubtreesPush(m: Mode, input: seq<byte>, tree: seq<byte>, counter: nat, s: nat)
    requires Whole(input) && |tree| == s * CHUNK_LEN && IsPow2(s)
    requires Chunks(input) % (2 * s) == 0
    ensures Subtrees(m, input + tree, counter) ==
            Subtrees(m, input, counter) + [TreeCV(m, tree, counter + Chunks(input))]
    decreases |input|
  {
    hide Subtrees, TreeCV, RoundDown, IsPow2;
    var all := input + tree;
    var n := Chunks(input);
    if n == 0 {
      assert input == [] && all == tree;
      SubtreesEmpty(m, counter);
      SubtreesOne(m, tree, counter, s);
    } else {
      var p := RoundDown(n);
      PushParts(n, s);
      var front, rest := input[..p * CHUNK_LEN], input[p * CHUNK_LEN..];
      assert Chunks(front) == p && Chunks(rest) == n - p && Chunks(all) == n + s;
      assert input == front + rest;
      SubtreesFront(m, input, counter, front, rest);
      assert all == front + (rest + tree);
      SubtreesFront(m, all, counter, front, rest + tree);
      SubtreesPush(m, rest, tree, counter + p, s);
    }
  }

  lemma {:induction false} SubtreesOne(m: Mode, tree: seq<byte>, counter: nat, s: nat)
    requires |tree| == s * CHUNK_LEN && IsPow2(s)
    ensures Subtrees(m, tree, counter) == [TreeCV(m, tree, counter)]
  {
    hide TreeCV;
    RoundDownUnique(s, s);
    assert tree == tree + [];
    SubtreesFront(m, tree, counter, tree, []);
  }

  lemma SubtreesEmpty(m: Mode, counter: nat)
    ensures Subtrees(m, [], counter) == []
  {
  }

  /** Folding a stack of left siblings, top last, over the node to their right. */
  ghost function RollUp(m: Mode, stack: seq<CV>, node: Node): Node {
    if |stack| == 0 then node else
      RollUp(m, stack[..|stack| - 1], ParentNode(m, stack[|stack| - 1], ChainingValue(m, node)))
  }

  lemma {:induction false} RollUpFront(m: Mode, cv: CV, stack: seq<CV>, node: Node)
    ensures RollUp(m, [cv] + stack, node) == ParentNode(m, cv, ChainingValue(m, RollUp(m, stack, node)))
  {
    var all := [cv] + stack;
    if |stack| == 0 {
      assert all[..0] == [];
    } else {
      var k := |stack| - 1;
      assert all[..k + 1] == [cv] + stack[..k];
      RollUpFront(m, cv, stack[..k], ParentNode(m, stack[k], ChainingValue(m, node)));
    }
  }

  /** The tree is the decomposition of whole chunks rolled up over the tree of the rest,
      when the rest is no longer than a power of two that divides the number of chunks. */
  lemma {:induction false} RollUpTree(m: Mode, input: seq<byte>, rest: seq<byte>, counter: nat, s: nat)
    requires Whole(input) && IsPow2(s) && Chunks(input) % s == 0
    requires 0 < |rest| <= s * CHUNK_LEN
    ensures TreeNode(m, input + rest, counter) ==
            RollUp(m, Subtrees(m, input, counter), TreeNode(m, rest, counter + Chunks(input)))
    decreases |input|
  {
    hide Subtrees, TreeNode, TreeCV, RollUp, RoundDown, IsPow2, ChainingValue;
    var n := Chunks(input);
    if n == 0 {
      assert input == [] && input + rest == rest;
      SubtreesEmpty(m, counter);
      RollUpEmpty(m, TreeNode(m, rest, counter));
    } else {
      var p, extra := RoundDown(n), (|rest| - 1) / CHUNK_LEN;
      RollUpParts(n, s, extra);
      var front, tail := input[..p * CHUNK_LEN], input[p * CHUNK_LEN..];
      assert Chunks(front) == p && Chunks(tail) == n - p;
      RollUpTree(m, tail, rest, counter + p, s);
      assert input == front + tail;
      SubtreesFront(m, input, counter, front, tail);
      assert (|front| + |tail + rest| - 1) / CHUNK_LEN == n + extra;
      Split(m, front, tail + rest, counter);
      assert input + rest == front + (tail + rest);
      RollUpFront(m, TreeCV(m, front, counter), Subtrees(m, tail, counter + p), TreeNode(m, rest, counter + n));
      TreeCVIs(m, tail + rest, counter + p);
    }
  }

  lemma RollUpEmpty(m: Mode, node: Node)
    ensures RollUp(m, [], node) == node
  {
  }

  lemma TreeCVIs(m: Mode, input: seq<byte>, counter: nat)
    ensures TreeCV(m, input, counter) == ChainingValue(m, TreeNode(m, input, counter))
  {
  }

  lemma {:induction false} RollUpParts(n: nat, s: nat, extra: nat)
    requires n > 0 && IsPow2(s) && n % s == 0 && extra < s
    ensures RoundDown(n + extra) == RoundDown(n)
    ensures (n - RoundDown(n)) % s == 0
  {
    RoundDownStable(n, s, extra);
    DividesParts(n, s);
  }

  /** A stack in the middle of lazy merging: the decomposition of all but the newest s chunks,
      and the newest subtree unmerged on top. */
  ghost predicate Lazy(m: Mode, stack: seq<CV>, input: seq<byte>, s: nat)
    ensures Lazy(m, stack, input, s) ==> Whole(input) && 0 < s <= Chunks(input)
  {
    && Whole(input) && IsPow2(s) && s <= Chunks(input) && Chunks(input) % s == 0
    && var k := |input| - s * CHUNK_LEN;
       stack == Subtrees(m, input[..k], 0) + [TreeCV(m, input[k..], k / CHUNK_LEN)]
  }

  /** The length of a lazy stack tells whether its top pair still has to be merged. */
  lemma {:induction false} LazyLength(m: Mode, stack: seq<CV>, input: seq<byte>, s: nat)
    requires Lazy(m, stack, input, s)
    ensures |stack| > Popcount(Chunks(input)) <==> Chunks(input) % (2 * s) == 0
    ensures |stack| == Popcount(Chunks(input) - s) + 1
  {
    hide Subtrees, TreeCV, Popcount;
    var k := |input| - s * CHUNK_LEN;
    SubtreesLength(m, input[..k], 0);
    assert Chunks(input[..k]) == Chunks(input) - s;
    PopcountStep(Chunks(input), s);
  }

  /** When no pair is left to merge, the stack is the decomposition. */
  lemma {:induction false} LazyDone(m: Mode, stack: seq<CV>, input: seq<byte>, s: nat)
    requires Lazy(m, stack, input, s) && Chunks(input) % (2 * s) != 0
    ensures stack == Subtrees(m, input, 0)
  {
    hide Subtrees, TreeCV, IsPow2;
    var k := |input| - s * CHUNK_LEN;
    OddStep(Chunks(input), s);
    assert Chunks(input[..k]) == Chunks(input) - s;
    SubtreesPush(m, input[..k], input[k..], 0, s);
    assert input[..k] + input[k..] == input;
  }

  lemma {:induction false} OddStep(n: nat, s: nat)
    requires s > 0 && n % s == 0 && s <= n
    ensures n % (2 * s) != 0 ==> (n - s) % (2 * s) == 0
    ensures n % (2 * s) == 0 ==> n >= 2 * s && (n - 2 * s) % (2 * s) == 0
  {
    var k := n / s;
    assert n == k * s;
    Parity(k, s);
    assert n - s == (k - 1) * s;
    Parity(k - 1, s);
    if k % 2 == 0 {
      MulAtLeast(k - 1, s);
      ModSum(n, 2 * s, 2 * s);
    }
  }

  /** The two topmost entries of a lazy stack whose newest subtree completes a pair are siblings. */
  lemma {:induction false} LazyPair(m: Mode, stack: seq<CV>, input: seq<byte>, s: nat)
    requires Lazy(m, stack, input, s) && Chunks(input) % (2 * s) == 0
    ensures |stack| >= 2 && 2 * s <= Chunks(input)
    ensures var k := |input| - 2 * s * CHUNK_LEN;
            && stack[..|stack| - 2] == Subtrees(m, input[..k], 0)
            && ParentNode(m, stack[|stack| - 2], stack[|stack| - 1]) == TreeNode(m, input[k..], k / CHUNK_LEN)
  {
    hide Subtrees, TreeNode, TreeCV, RoundDown, IsPow2;
    OddStep(Chunks(input), s);
    var k, h := |input| - 2 * s * CHUNK_LEN, |input| - s * CHUNK_LEN;
    var left, right := input[k..h], input[h..];
    assert Chunks(input[..k]) == Chunks(input) - 2 * s && Chunks(left) == s;
    SubtreesPush(m, input[..k], left, 0, s);
    assert input[..k] + left == input[..h];
    SplitPow2(m, left, right, k / CHUNK_LEN);
    assert left + right == input[k..];
  }

  /** One merge of the top pair: the stack stays lazy, with a newest subtree twice the size. */
  lemma {:induction false} LazyMerge(m: Mode, stack: seq<CV>, input: seq<byte>, s: nat)
    requires Lazy(m, stack, input, s) && Chunks(input) % (2 * s) == 0
    ensures |stack| >= 2
    ensures Lazy(m, stack[..|stack| - 2] + [ChainingValue(m, ParentNode(m, stack[|stack| - 2], stack[|stack| - 1]))],
                 input, 2 * s)
  {
    hide Subtrees, TreeNode, TreeCV, RoundDown;
    LazyPair(m, stack, input, s);
    Double(s);
    TreeCVIs(m, input[|input| - 2 * s * CHUNK_LEN..], Chunks(input) - 2 * s);
  }

  /** Pushing a subtree on a fully merged stack leaves it lazy. */
  lemma {:induction false} LazyPush(m: Mode, input: seq<byte>, tree: seq<byte>, s: nat)
    requires Whole(input) && IsPow2(s) && |tree| == s * CHUNK_LEN && Chunks(input) % s == 0
    ensures Lazy(m, Subtrees(m, input, 0) + [TreeCV(m, tree, Chunks(input))], input + tree, s)
  {
    hide Subtrees, TreeCV;
    var all := input + tree;
    assert all[..|input|] == input && all[|input|..] == tree;
    assert Chunks(all) == Chunks(input) + s;
    ModSum(Chunks(input), s, s);
  }
}
