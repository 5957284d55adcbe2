/** Write buffers as the sources keep them: slices of memory that belongs to something else. */
module Slices {
  import opened Bytes

  datatype Slice = Slice(from: nat, to: nat)

  predicate Within(w: Slice, bytes: seq<byte>) {
    w.from <= w.to <= |bytes|
  }

  function Cut(bytes: seq<byte>, w: Slice): seq<byte> {
    if Within(w, bytes) then bytes[w.from..w.to] else []
  }

  function Cuts(bytes: seq<byte>, ws: seq<Slice>): (r: seq<seq<byte>>)
    ensures |r| == |ws|
  {
    if |ws| == 0 then [] else [Cut(bytes, ws[0])] + Cuts(bytes, ws[1..])
  }

  predicate AllWithin(ws: seq<Slice>, bytes: seq<byte>) {
    forall w :: w in ws ==> Within(w, bytes)
  }

  lemma {:induction false} CutShort(bytes: seq<byte>, ws: seq<Slice>, length: nat)
    requires |ws| > 0 && AllWithin(ws, bytes) && length <= ws[0].to - ws[0].from
    ensures var w := Slice(ws[0].from + length, ws[0].to);
            && AllWithin([w] + ws[1..], bytes)
            && Cuts(bytes, [w] + ws[1..]) == [Cuts(bytes, ws)[0][length..]] + Cuts(bytes, ws)[1..]
  {
    var w := Slice(ws[0].from + length, ws[0].to);
    assert ([w] + ws[1..])[1..] == ws[1..];
    assert ws[0] in ws;
    assert bytes[ws[0].from..ws[0].to][length..] == bytes[w.from..w.to];
  }

  lemma {:induction false} CutsFront(bytes: seq<byte>, ws: seq<Slice>)
    requires |ws| > 0 && AllWithin(ws, bytes)
    ensures |Cuts(bytes, ws)[0]| == ws[0].to - ws[0].from
    ensures Cuts(bytes, ws)[1..] == Cuts(bytes, ws[1..]) && AllWithin(ws[1..], bytes)
  {
    assert ws[0] in ws;
  }

  /** The consume loop on slices. */
  method ConsumeSlices(bytes: seq<byte>, ws: seq<Slice>, count: nat) returns (rest: seq<Slice>)
    requires AllWithin(ws, bytes)
    ensures AllWithin(rest, bytes) && Cuts(bytes, rest) == Consumed(Cuts(bytes, ws), count)
  {
    hide Cuts, AllWithin;
    rest := ws;
    var length: nat := count;
    while length != 0
      invariant AllWithin(rest, bytes)
      invariant Consumed(Cuts(bytes, rest), length) == Consumed(Cuts(bytes, ws), count)
      decreases length, |rest|
    {
      if |rest| == 0 {
        break;
      }
      CutsFront(bytes, rest);
      var size := rest[0].to - rest[0].from;
      if length >= size {
        length := length - size;
        rest := rest[1..];
      } else {
        CutShort(bytes, rest, length);
        rest := [Slice(rest[0].from + length, rest[0].to)] + rest[1..];
        break;
      }
    }
  }

  lemma NoCuts(bytes: seq<byte>)
    ensures Cuts(bytes, []) == [] && AllWithin([], bytes)
  {
  }

  lemma NoneLeft(bytes: seq<byte>, count: nat)
    ensures Consumed(Cuts(bytes, []), count) == []
  {
  }

  lemma {:induction false} WholeCut(bytes: seq<byte>)
    ensures Cuts(bytes, [Slice(0, |bytes|)]) == [bytes] && AllWithin([Slice(0, |bytes|)], bytes)
  {
    assert [Slice(0, |bytes|)][1..] == [];
    assert bytes[0..|bytes|] == bytes;
  }
}
