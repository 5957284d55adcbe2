/** Writing a slice of the unbounded output of a root node: output_root_bytes and blake3_xof_many. */
module Blake3Output {
  import opened Bytes
  import opened Blake3Spec

  /** The first bytes of a buffer hold the output from seek on. */
  ghost predicate Written(m: Mode, n: Node, seek: nat, bytes: seq<byte>) {
    forall i :: 0 <= i < |bytes| ==> bytes[i] == RootByte(m, n, seek + i)
  }

  /** Copies part of output block index to the place in the buffer that it belongs to. */
  method WriteBlock(m: Mode, n: Node, seek: nat, index: nat, out: array<byte>, at: nat, from: nat, count: nat)
    requires at + count <= out.Length && from + count <= BLOCK_LEN
    requires seek + at == BLOCK_LEN * index + from
    requires Written(m, n, seek, out[..at])
    modifies out
    ensures Written(m, n, seek, out[..at + count])
  {
    hide RootBlock;
    var block := RootBlock(m, n, index);
    forall i | 0 <= i < count { out[at + i] := block[from + i]; }
    forall i | 0 <= i < at + count
      ensures out[i] == RootByte(m, n, seek + i)
    {
      if i < at {
        assert out[i] == old(out[..at])[i];
      } else {
        assert (seek + i) / BLOCK_LEN == index && (seek + i) % BLOCK_LEN == from + (i - at);
      }
    }
  }

  /** Whole output blocks one after the other. */
  method XofMany(m: Mode, n: Node, seek: nat, index: nat, out: array<byte>, at: nat, outBlocks: nat)
    requires at + BLOCK_LEN * outBlocks <= out.Length && seek + at == BLOCK_LEN * index
    requires Written(m, n, seek, out[..at])
    modifies out
    ensures Written(m, n, seek, out[..at + BLOCK_LEN * outBlocks])
  {
    hide Written;
    var i := 0;
    while i < outBlocks
      invariant 0 <= i <= outBlocks
      invariant Written(m, n, seek, out[..at + BLOCK_LEN * i])
    {
      WriteBlock(m, n, seek, index + i, out, at + BLOCK_LEN * i, 0, BLOCK_LEN);
      i := i + 1;
    }
  }

  /** Fills a buffer with the root output starting at any position. */
  method OutputRootBytes(m: Mode, n: Node, seek: nat, out: array<byte>)
    modifies out
    ensures out[..] == RootBytes(m, n, seek, out.Length)
  {
    hide RootByte;
    var pos, index, offset := 0, seek / BLOCK_LEN, seek % BLOCK_LEN;
    if out.Length > 0 {
      if offset > 0 {
        var bytes := if out.Length > BLOCK_LEN - offset then BLOCK_LEN - offset else out.Length;
        WriteBlock(m, n, seek, index, out, 0, offset, bytes);
        pos := bytes;
        index := index + 1;
      }
      var blocks := (out.Length - pos) / BLOCK_LEN;
      if blocks > 0 {
        XofMany(m, n, seek, index, out, pos, blocks);
      }
      index := index + blocks;
      pos := pos + BLOCK_LEN * blocks;
      if pos < out.Length {
        WriteBlock(m, n, seek, index, out, pos, 0, out.Length - pos);
      }
    }
    WrittenAll(m, n, seek, out[..out.Length]);
    assert out[..out.Length] == out[..];
  }

  lemma WrittenAll(m: Mode, n: Node, seek: nat, bytes: seq<byte>)
    requires Written(m, n, seek, bytes)
    ensures bytes == RootBytes(m, n, seek, |bytes|)
  {
  }

  /** Adjacent slices of the output join into one slice. */
  lemma {:induction false} SlicesJoin(m: Mode, n: Node, seek: nat, first: nat, second: nat)
    ensures RootBytes(m, n, seek, first) + RootBytes(m, n, seek + first, second) ==
            RootBytes(m, n, seek, first + second)
  {
    hide RootByte;
    var whole := RootBytes(m, n, seek, first + second);
    assert whole[..first] == RootBytes(m, n, seek, first);
    assert whole[first..] == RootBytes(m, n, seek + first, second);
  }
}
