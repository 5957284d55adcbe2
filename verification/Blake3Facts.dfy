/**
 The BLAKE3 tree in the literal terms of the compression function: what is compressed, in which order, with which
 lengths, counters and flags.
 */
module Blake3Facts {
  import opened Bits
  import opened Bytes
  import opened Blake3Spec
  import opened Blake3Tree
  import opened Blake3Hasher

  function Zeros(n: nat): seq<byte> {
    seq(n, _ => 0)
  }

  lemma FlagLiterals(f: bv8)
    ensures f | CHUNK_START | CHUNK_END == f | 3
    ensures f | 0 | CHUNK_END == f | 2
    ensures f | CHUNK_START == f | 1
    ensures f | 0 == f
    ensures f | PARENT == f | 4
    ensures (f | 3) | ROOT == f | 11
    ensures (f | 4) | ROOT == f | 12
  {
  }

  /** A parent block is the left chaining value followed by the right one. */
  lemma {:induction false} ParentOfTwo(m: Mode, a: seq<byte>, b: seq<byte>, counter: nat)
    requires |a| % 1024 == 0 && IsPow2(|a| / 1024) && 0 < |b| <= |a|
    ensures var n := TreeNode(m, a + b, counter);
            && n.block[..32] == TreeCV(m, a, counter) && n.block[32..] == TreeCV(m, b, counter + |a| / 1024)
            && n.inputCv == m.key && n.blockLen == 64 && n.counter == 0 && n.flags == m.flags | 4
  {
    hide TreeNode, TreeCV;
    FlagLiterals(m.flags);
    SplitPow2(m, a, b, counter);
  }

  /** A message of at most one block is a chunk of one block, which is its first and its last. */
  lemma {:induction false} OneBlock(m: Mode, x: seq<byte>, counter: nat)
    requires |x| <= 64
    ensures TreeNode(m, x, counter) == Node(m.key, x + Zeros(64 - |x|), |x|, counter, m.flags | 3)
    ensures TreeCV(m, x, counter) == m.compress(m.key, x + Zeros(64 - |x|), |x|, counter, m.flags | 3)[..32]
  {
    FlagLiterals(m.flags);
    assert LastBlock(|x|) == 0;
    assert x[..0] == [] && x[0..] == x;
    assert Pad(x) == x + Zeros(64 - |x|);
  }

  /** The blocks of a chunk are chained: the first is marked as start, the last as end, the ones between not at all. */
  lemma {:induction false} TwoBlocks(m: Mode, x: seq<byte>, counter: nat)
    requires 64 < |x| <= 128
    ensures var first := m.compress(m.key, x[..64], 64, counter, m.flags | 1)[..32];
            TreeCV(m, x, counter) == m.compress(first, x[64..] + Zeros(128 - |x|), |x| - 64, counter, m.flags | 2)[..32]
  {
    FlagLiterals(m.flags);
    assert LastBlock(|x|) == 64;
    assert Pad(x[64..]) == x[64..] + Zeros(128 - |x|);
    ChainOne(m, x[..64], counter);
  }

  lemma {:induction false} ChainOne(m: Mode, block: seq<byte>, counter: nat)
    requires |block| == 64
    ensures Chain(m, block, counter) == m.compress(m.key, block, 64, counter, m.flags | 1)[..32]
  {
    FlagLiterals(m.flags);
    assert block[..0] == [] && block[0..] == block;
  }

  lemma {:induction false} ThreeBlocks(m: Mode, x: seq<byte>, counter: nat)
    requires 128 < |x| <= 192
    ensures var first := m.compress(m.key, x[..64], 64, counter, m.flags | 1)[..32];
            var second := m.compress(first, x[64..128], 64, counter, m.flags)[..32];
            TreeCV(m, x, counter) == m.compress(second, x[128..] + Zeros(192 - |x|), |x| - 128, counter, m.flags | 2)[..32]
  {
    FlagLiterals(m.flags);
    assert LastBlock(|x|) == 128;
    assert Pad(x[128..]) == x[128..] + Zeros(192 - |x|);
    ChainOne(m, x[..64], counter);
    var both := x[..128];
    assert both[..64] == x[..64] && both[64..] == x[64..128];
  }

  lemma {:induction false} HashAt(m: Mode, x: seq<byte>, seek: nat, len: nat, i: nat)
    requires i < len
    ensures |Hash(m, x, seek, len)| == len
    ensures var n, p := TreeNode(m, x, 0), seek + i;
            Hash(m, x, seek, len)[i] == m.compress(n.inputCv, n.block, n.blockLen, p / 64, n.flags | 8)[p % 64]
  {
    hide TreeNode;
    assert Hash(m, x, seek, len)[i] == RootByte(m, TreeNode(m, x, 0), seek + i);
  }

  /** Output byte p of a short message is byte p % 64 of output block p / 64, compressed as a root. */
  lemma {:induction false} ShortHash(m: Mode, x: seq<byte>, seek: nat, len: nat, i: nat)
    requires |x| <= 64 && i < len
    ensures |Hash(m, x, seek, len)| == len
    ensures Hash(m, x, seek, len)[i]
         == m.compress(m.key, x + Zeros(64 - |x|), |x|, (seek + i) / 64, m.flags | 11)[(seek + i) % 64]
  {
    hide TreeNode, Hash;
    OneBlock(m, x, 0);
    FlagLiterals(m.flags);
    HashAt(m, x, seek, len, i);
  }

  /** The same for two subtrees: the root compresses the two chaining values. */
  lemma {:induction false} LongHash(m: Mode, a: seq<byte>, b: seq<byte>, seek: nat, len: nat, i: nat)
    requires |a| % 1024 == 0 && IsPow2(|a| / 1024) && 0 < |b| <= |a| && i < len
    ensures |Hash(m, a + b, seek, len)| == len
    ensures Hash(m, a + b, seek, len)[i]
         == m.compress(m.key, TreeCV(m, a, 0) + TreeCV(m, b, |a| / 1024), 64, (seek + i) / 64, m.flags | 12)[(seek + i) % 64]
  {
    hide TreeNode, TreeCV, Hash;
    ParentOfTwo(m, a, b, 0);
    FlagLiterals(m.flags);
    HashAt(m, a + b, seek, len, i);
    var n := TreeNode(m, a + b, 0);
    assert n.block == n.block[..32] + n.block[32..];
  }

  /** The hasher on a message of at most one block and an output of at most one. */
  method HashShort(m: Mode, degree: nat, x: seq<byte>, len: nat) returns (out: seq<byte>)
    requires IsPow2(degree) && |x| <= 64 && len <= 64
    ensures out == m.compress(m.key, x + Zeros(64 - |x|), |x|, 0, m.flags | 11)[..len]
  {
    hide Hash, Exp2;
    ConcatOne(x);
    SmallEnough(|x|);
    out := HashPieces(m, degree, [x], 0, len);
    ghost var block := m.compress(m.key, x + Zeros(64 - |x|), |x|, 0, m.flags | 11);
    HashLength(m, x, 0, len);
    forall i | 0 <= i < len ensures out[i] == block[i] {
      ShortHash(m, x, 0, len, i);
    }
  }

  lemma HashLength(m: Mode, x: seq<byte>, seek: nat, len: nat)
    ensures |Hash(m, x, seek, len)| == len
  {
  }

  lemma {:induction false} SmallEnough(n: nat)
    requires n <= 64
    ensures n < Exp2(64)
  {
    hide Exp2;
    Exp2Sum(32, 32);
    Exp2Sum(16, 16);
    Exp2Sum(8, 8);
    EightBits();
  }

  lemma {:induction false} EightBits()
    ensures Exp2(8) == 256
  {
    assert Exp2(4) == 16;
  }

  /** A key derived from a context of at most one block: mode 32 for the context, mode 64 for the material. */
  method DeriveShort(compress: Compression, iv: CV, degree: nat, context: seq<byte>) returns (hasher: Hasher)
    requires IsPow2(degree) && |context| <= 64
    ensures fresh(hasher) && hasher.Valid() && hasher.message == []
    ensures hasher.m.compress == compress && hasher.m.flags == 64
    ensures hasher.m.key == compress(iv, context + Zeros(64 - |context|), |context|, 0, 32 | 11)[..32]
  {
    hide Hash, Exp2;
    SmallEnough(|context|);
    hasher := InitDeriveKey(compress, iv, degree, context);
    ghost var m := Mode(compress, iv, 32);
    HashLength(m, context, 0, 32);
    ghost var block := compress(iv, context + Zeros(64 - |context|), |context|, 0, 32 | 11);
    forall i | 0 <= i < 32 ensures Hash(m, context, 0, 32)[i] == block[i] {
      ShortHash(m, context, 0, 32, i);
    }
    assert hasher.m.key == block[..32];
  }
}
