/**
 The BLAKE3 hash as the BLAKE3 paper defines it: chunks of blocks (section 2.4), a binary tree whose
 left subtrees are the largest complete ones (section 2.1), and extendable output (section 2.6).
 The compression function is a parameter, so every statement holds for all of them.
 */
module Blake3Spec {
  import opened Bits
  import opened Bytes

  const BLOCK_LEN: nat := 64
  const CHUNK_LEN: nat := 1024
  const OUT_LEN: nat := 32
  const MAX_DEPTH: nat := 54

  type CV = s: seq<byte> | |s| == 32 witness seq(32, _ => 0)
  type Block = s: seq<byte> | |s| == 64 witness seq(64, _ => 0)

  const CHUNK_START: bv8 := 1
  const CHUNK_END: bv8 := 2
  const PARENT: bv8 := 4
  const ROOT: bv8 := 8
  const KEYED_HASH: bv8 := 16
  const DERIVE_KEY_CONTEXT: bv8 := 32
  const DERIVE_KEY_MATERIAL: bv8 := 64

  /** The compression function on (chaining value, block, block length, counter, flags): all 64 output bytes. */
  type Compression = (CV, Block, nat, nat, bv8) -> Block

  /** What stays fixed while one message is hashed. */
  datatype Mode = Mode(compress: Compression, key: CV, flags: bv8)

  /** A tree node just before its last compression, which depends on whether it is the root. */
  datatype Node = Node(inputCv: CV, block: Block, blockLen: nat, counter: nat, flags: bv8)

  /** The chaining value is the first half of the compression output. */
  function Compress(m: Mode, cv: CV, block: Block, blockLen: nat, counter: nat, flags: bv8): CV {
    m.compress(cv, block, blockLen, counter, flags)[..32]
  }

  function ChainingValue(m: Mode, n: Node): CV {
    Compress(m, n.inputCv, n.block, n.blockLen, n.counter, n.flags)
  }

  function Pad(s: seq<byte>): Block
    requires |s| <= BLOCK_LEN
  {
    s + seq(BLOCK_LEN - |s|, _ => 0)
  }

  function StartFlag(position: nat): bv8 {
    if position == 0 then CHUNK_START else 0
  }

  /** Chaining value after some whole blocks of a chunk, none of them the last of its chunk. */
  function Chain(m: Mode, blocks: seq<byte>, counter: nat): CV
    requires |blocks| % BLOCK_LEN == 0
  {
    if |blocks| == 0 then m.key else
      var k := |blocks| - BLOCK_LEN;
      Compress(m, Chain(m, blocks[..k], counter), blocks[k..], BLOCK_LEN, counter, m.flags | StartFlag(k))
  }

  /** Where the last block of a chunk begins: it is never empty unless the chunk is. */
  function LastBlock(len: nat): (k: nat)
    ensures k % BLOCK_LEN == 0 && k <= len <= k + BLOCK_LEN && (k < len || len == 0)
  {
    if len == 0 then 0 else (len - 1) / BLOCK_LEN * BLOCK_LEN
  }

  function ChunkNode(m: Mode, chunk: seq<byte>, counter: nat): Node {
    var k := LastBlock(|chunk|);
    Node(Chain(m, chunk[..k], counter), Pad(chunk[k..]), |chunk| - k, counter,
         m.flags | StartFlag(k) | CHUNK_END)
  }

  function ParentNode(m: Mode, left: CV, right: CV): Node {
    Node(m.key, left + right, BLOCK_LEN, 0, m.flags | PARENT)
  }

  /** Length of the left subtree: the largest power of two of chunks that leaves at least one byte. */
  function LeftLen(len: nat): (l: nat)
    requires len > CHUNK_LEN
    ensures 0 < l < len && l % CHUNK_LEN == 0
  {
    RoundDown((len - 1) / CHUNK_LEN) * CHUNK_LEN
  }

  /** The tree over a message whose first chunk has the given number. */
  function TreeNode(m: Mode, input: seq<byte>, counter: nat): Node
    decreases |input|, 0
  {
    if |input| <= CHUNK_LEN then ChunkNode(m, input, counter) else
      var l := LeftLen(|input|);
      ParentNode(m, TreeCV(m, input[..l], counter), TreeCV(m, input[l..], counter + l / CHUNK_LEN))
  }

  function TreeCV(m: Mode, input: seq<byte>, counter: nat): CV
    decreases |input|, 1
  {
    ChainingValue(m, TreeNode(m, input, counter))
  }

  /** One 64-byte block of the unbounded output of a root node. */
  function RootBlock(m: Mode, n: Node, index: nat): Block {
    m.compress(n.inputCv, n.block, n.blockLen, index, n.flags | ROOT)
  }

  /** One byte of the unbounded output of a root node. */
  function RootByte(m: Mode, n: Node, position: nat): byte {
    RootBlock(m, n, position / BLOCK_LEN)[position % BLOCK_LEN]
  }

  /** The slice [seek, seek + len) of the output of a root node. */
  function RootBytes(m: Mode, n: Node, seek: nat, len: nat): (s: seq<byte>)
    ensures |s| == len
  {
    seq(len, i requires 0 <= i < len => RootByte(m, n, seek + i))
  }

  /** The hash of a message: len bytes of output starting at seek. */
  function Hash(m: Mode, message: seq<byte>, seek: nat, len: nat): seq<byte> {
    RootBytes(m, TreeNode(m, message, 0), seek, len)
  }
}
