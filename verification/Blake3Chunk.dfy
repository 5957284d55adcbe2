/** Incremental hashing of one chunk: blake3_chunk_state and the functions that update it in place. */
module Blake3Chunk {
  import opened Bytes
  import opened Blake3Spec

  /** The last block of a chunk starts at the only block boundary that leaves 1 to 64 bytes. */
  lemma LastBlockUnique(len: nat, blocks: nat)
    requires BLOCK_LEN * blocks <= len <= BLOCK_LEN * blocks + BLOCK_LEN
    requires BLOCK_LEN * blocks == len ==> len == 0
    ensures LastBlock(len) == BLOCK_LEN * blocks
  {
  }

  lemma {:induction false} ChainStep(m: Mode, blocks: seq<byte>, block: seq<byte>, counter: nat)
    requires |blocks| % BLOCK_LEN == 0 && |block| == BLOCK_LEN
    ensures Chain(m, blocks + block, counter) ==
            Compress(m, Chain(m, blocks, counter), block, BLOCK_LEN, counter, m.flags | StartFlag(|blocks|))
  {
    var all := blocks + block;
    assert all[..|blocks|] == blocks && all[|blocks|..] == block;
  }

  class ChunkState {
    const m: Mode
    const buf: array<byte>
    var cv: CV
    var chunkCounter: nat
    var bufLen: nat
    var blocksCompressed: nat
    ghost var content: seq<byte>

    /** The compressed blocks and the buffer hold the bytes fed so far. */
    ghost predicate Buffered()
      reads this, buf
      ensures Buffered() ==> bufLen <= BLOCK_LEN
    {
      var k := BLOCK_LEN * blocksCompressed;
      && buf.Length == BLOCK_LEN && bufLen <= BLOCK_LEN
      && |content| == k + bufLen
      && cv == Chain(m, content[..k], chunkCounter)
      && buf[..] == Pad(content[k..])
    }

    /** Between updates the last block is never compressed, because it may be the last of the chunk. */
    ghost predicate Valid()
      reads this, buf
    {
      Buffered() && |content| <= CHUNK_LEN && (bufLen == 0 ==> content == [])
    }

    constructor (m: Mode, counter: nat)
      ensures Valid() && fresh(buf)
      ensures this.m == m && chunkCounter == counter && content == []
    {
      this.m := m;
      cv := m.key;
      chunkCounter := counter;
      buf := new byte[BLOCK_LEN](_ => 0);
      bufLen := 0;
      blocksCompressed := 0;
      content := [];
      new;
      assert buf[..] == Pad([]);
    }

    method Reset(counter: nat)
      requires Valid()
      modifies this, buf
      ensures Valid() && chunkCounter == counter && content == []
    {
      cv := m.key;
      chunkCounter := counter;
      blocksCompressed := 0;
      forall i | 0 <= i < BLOCK_LEN { buf[i] := 0; }
      bufLen := 0;
      content := [];
      assert buf[..] == Pad([]);
    }

    /** Steps over chunks that were hashed elsewhere. */
    method Skip(chunks: nat)
      requires Valid() && content == []
      modifies this`chunkCounter
      ensures Valid() && chunkCounter == old(chunkCounter) + chunks
    {
      chunkCounter := chunkCounter + chunks;
    }

    /** Bytes fed into this chunk so far. */
    method Len() returns (n: nat)
      requires Valid()
      ensures n == |content| <= CHUNK_LEN
    {
      n := BLOCK_LEN * blocksCompressed + bufLen;
    }

    method FillBuf(input: seq<byte>) returns (take: nat)
      requires Buffered()
      modifies this`bufLen, this`content, buf
      ensures take == if |input| < BLOCK_LEN - old(bufLen) then |input| else BLOCK_LEN - old(bufLen)
      ensures Buffered() && content == old(content) + input[..take] && bufLen == old(bufLen) + take
    {
      hide Chain;
      take := BLOCK_LEN - bufLen;
      if take > |input| {
        take := |input|;
      }
      forall i | 0 <= i < take { buf[bufLen + i] := input[i]; }
      bufLen := bufLen + take;
      content := content + input[..take];
      ghost var k := BLOCK_LEN * blocksCompressed;
      assert content[..k] == old(content)[..k];
      assert content[k..] == old(content)[k..] + input[..take];
      assert buf[..] == Pad(content[k..]);
    }

    method CompressBuf()
      requires Buffered() && bufLen == BLOCK_LEN
      modifies this`cv, this`blocksCompressed, this`bufLen, buf
      ensures Buffered() && bufLen == 0 && blocksCompressed == old(blocksCompressed) + 1
    {
      hide Chain, Compress;
      ghost var k := BLOCK_LEN * blocksCompressed;
      assert content[..k] + buf[..] == content && content[..k + BLOCK_LEN] == content;
      ChainStep(m, content[..k], buf[..], chunkCounter);
      cv := Compress(m, cv, buf[..], BLOCK_LEN, chunkCounter, m.flags | StartFlag(blocksCompressed));
      blocksCompressed := blocksCompressed + 1;
      bufLen := 0;
      forall i | 0 <= i < BLOCK_LEN { buf[i] := 0; }
      assert buf[..] == Pad([]);
    }

    /** Compresses a block straight from the input, without going through the buffer. */
    method CompressInput(block: Block)
      requires Buffered() && bufLen == 0
      modifies this`cv, this`blocksCompressed, this`content
      ensures Buffered() && content == old(content) + block && blocksCompressed == old(blocksCompressed) + 1
    {
      hide Chain, Compress, Pad;
      ghost var k := BLOCK_LEN * blocksCompressed;
      assert content[k..] == [];
      assert content[..k] == content && (content + block)[..k + BLOCK_LEN] == content + block;
      ChainStep(m, content, block, chunkCounter);
      cv := Compress(m, cv, block, BLOCK_LEN, chunkCounter, m.flags | StartFlag(blocksCompressed));
      blocksCompressed := blocksCompressed + 1;
      content := content + block;
      assert content[BLOCK_LEN * blocksCompressed..] == [];
    }

    /** Feeds more bytes of the same chunk. */
    method Update(input: seq<byte>)
      requires Valid() && |content| + |input| <= CHUNK_LEN
      modifies this, buf
      ensures Valid() && content == old(content) + input && chunkCounter == old(chunkCounter)
    {
      hide Buffered;
      var pos := 0;
      if bufLen > 0 {
        var take := FillBuf(input);
        pos := take;
        if pos < |input| {
          CompressBuf();
        }
      }
      assert content == old(content) + input[..pos];
      while |input| - pos > BLOCK_LEN
        invariant 0 <= pos <= |input| && Buffered()
        invariant chunkCounter == old(chunkCounter)
        invariant content == old(content) + input[..pos]
        invariant pos < |input| ==> bufLen == 0
        invariant pos == |input| && bufLen == 0 ==> content == []
      {
        CompressInput(input[pos..pos + BLOCK_LEN]);
        assert input[..pos] + input[pos..pos + BLOCK_LEN] == input[..pos + BLOCK_LEN];
        pos := pos + BLOCK_LEN;
      }
      var rest := FillBuf(input[pos..]);
      assert input[..pos] + input[pos..][..rest] == input[..pos + rest];
      assert pos + rest == |input| && input[..|input|] == input;
    }

    /** The node of the chunk fed so far. */
    method Output() returns (n: Node)
      requires Valid()
      ensures n == ChunkNode(m, content, chunkCounter)
    {
      hide Chain, Pad;
      LastBlockUnique(|content|, blocksCompressed);
      n := Node(cv, buf[..], bufLen, chunkCounter, m.flags | StartFlag(blocksCompressed) | CHUNK_END);
    }
  }

  lemma OrNothing(f: bv8)
    ensures f | 0 == f
  {
  }

  /** Chaining value after some blocks of an input hashed with start and end flags. */
  ghost function HashedTo(m: Mode, input: seq<byte>, counter: nat, pos: nat): CV
    requires |input| % BLOCK_LEN == 0 && pos % BLOCK_LEN == 0 && pos <= |input|
  {
    if 0 < pos == |input| then ChainingValue(m, ChunkNode(m, input, counter)) else Chain(m, input[..pos], counter)
  }

  lemma {:induction false} HashedStep(m: Mode, input: seq<byte>, counter: nat, pos: nat)
    requires |input| % BLOCK_LEN == 0 && pos % BLOCK_LEN == 0 && pos < |input|
    ensures var start := m.flags | StartFlag(pos);
            HashedTo(m, input, counter, pos + BLOCK_LEN) ==
            Compress(m, HashedTo(m, input, counter, pos), input[pos..pos + BLOCK_LEN], BLOCK_LEN, counter,
                     if pos + BLOCK_LEN == |input| then start | CHUNK_END else start)
  {
    hide Chain, Compress;
    var block := input[pos..pos + BLOCK_LEN];
    assert input[..pos] + block == input[..pos + BLOCK_LEN];
    assert HashedTo(m, input, counter, pos) == Chain(m, input[..pos], counter);
    if pos + BLOCK_LEN < |input| {
      ChainStep(m, input[..pos], block, counter);
    } else {
      LastBlockUnique(|input|, pos / BLOCK_LEN);
      assert Pad(input[pos..]) == block;
    }
  }

  /** Hashes whole blocks of one input with start and end flags, as hash_one_portable does for chunks. */
  method HashOne(m: Mode, input: seq<byte>, counter: nat) returns (cv: CV)
    requires |input| > 0 && |input| % BLOCK_LEN == 0
    ensures cv == ChainingValue(m, ChunkNode(m, input, counter))
  {
    hide HashedTo, Compress;
    cv := m.key;
    var blockFlags := m.flags | CHUNK_START;
    var pos, blocks := 0, |input| / BLOCK_LEN;
    HashedStart(m, input, counter);
    while blocks > 0
      invariant 0 <= pos <= |input| && pos + BLOCK_LEN * blocks == |input| && pos % BLOCK_LEN == 0
      invariant blockFlags == m.flags | StartFlag(pos)
      invariant cv == HashedTo(m, input, counter, pos)
    {
      if blocks == 1 {
        blockFlags := blockFlags | CHUNK_END;
      }
      HashedStep(m, input, counter, pos);
      cv := Compress(m, cv, input[pos..pos + BLOCK_LEN], BLOCK_LEN, counter, blockFlags);
      pos := pos + BLOCK_LEN;
      blocks := blocks - 1;
      blockFlags := m.flags;
      OrNothing(m.flags);
    }
    HashedEnd(m, input, counter);
  }

  lemma HashedEnd(m: Mode, input: seq<byte>, counter: nat)
    requires |input| % BLOCK_LEN == 0 && |input| > 0
    ensures HashedTo(m, input, counter, |input|) == ChainingValue(m, ChunkNode(m, input, counter))
  {
  }

  lemma HashedStart(m: Mode, input: seq<byte>, counter: nat)
    requires |input| % BLOCK_LEN == 0 && |input| > 0
    ensures HashedTo(m, input, counter, 0) == m.key
  {
  }
}
