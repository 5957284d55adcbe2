/** Byte strings and lists of buffers. */
module Bytes {
  newtype byte = x: int | 0 <= x < 256

  function Concat(parts: seq<seq<byte>>): seq<byte> {
    if |parts| == 0 then [] else parts[0] + Concat(parts[1..])
  }

  lemma {:induction false} ConcatAppend(left: seq<seq<byte>>, right: seq<seq<byte>>)
    ensures Concat(left + right) == Concat(left) + Concat(right)
  {
    if |left| == 0 {
      assert left + right == right;
    } else {
      assert (left + right)[1..] == left[1..] + right;
      ConcatAppend(left[1..], right);
    }
  }

  lemma {:induction false} ConcatOne(part: seq<byte>)
    ensures Concat([part]) == part
  {
    assert [part][1..] == [];
  }

  ghost predicate NonEmpty(buffers: seq<seq<byte>>) {
    forall i :: 0 <= i < |buffers| ==> |buffers[i]| > 0
  }

  /** A buffer list after its first count bytes were written: the loop shared by the write pumps. */
  function Consumed(buffers: seq<seq<byte>>, count: nat): seq<seq<byte>> {
    if count == 0 || |buffers| == 0 then buffers
    else if count >= |buffers[0]| then Consumed(buffers[1..], count - |buffers[0]|)
    else [buffers[0][count..]] + buffers[1..]
  }

  /** Consuming drops exactly the bytes that were written, and leaves a buffer only if bytes are left. */
  lemma {:induction false} ConsumedBytes(buffers: seq<seq<byte>>, count: nat)
    requires NonEmpty(buffers) && count <= |Concat(buffers)|
    ensures Concat(Consumed(buffers, count)) == Concat(buffers)[count..]
    ensures NonEmpty(Consumed(buffers, count))
    decreases |buffers|
  {
    if count > 0 && |buffers| > 0 {
      var front, rest := buffers[0], buffers[1..];
      if count >= |front| {
        ConsumedBytes(rest, count - |front|);
      } else {
        var left := [front[count..]] + rest;
        assert left[1..] == rest;
      }
    }
  }

  lemma NothingLeft(buffers: seq<seq<byte>>)
    requires NonEmpty(buffers)
    ensures Concat(buffers) == [] <==> buffers == []
  {
  }

  /** The loop itself. */
  method Consume(buffers: seq<seq<byte>>, count: nat) returns (rest: seq<seq<byte>>)
    ensures rest == Consumed(buffers, count)
  {
    rest := buffers;
    var length: nat := count;
    while length != 0
      invariant Consumed(rest, length) == Consumed(buffers, count)
      decreases length, |rest|
    {
      if |rest| == 0 {
        break;
      }
      var size := |rest[0]|;
      if length >= size {
        length := length - size;
        rest := rest[1..];
      } else {
        rest := [rest[0][length..]] + rest[1..];
        break;
      }
    }
  }
}
