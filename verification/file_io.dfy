/** Segment files as byte strings, and positioned writes to them. */
module FileIo {
  import opened Core

  datatype Write = Write(offset: nat, bytes: Bytes)

  /** A positioned write: bytes outside it stay, a gap before it reads as zero. */
  function WriteAt(file: Bytes, offset: nat, bytes: Bytes): (r: Bytes)
    ensures offset == |file| ==> r == file + bytes
  {
    if bytes == [] then file
    else
      var end := if offset + |bytes| < |file| then |file| else offset + |bytes|;
      seq(end, i requires 0 <= i < end =>
        if offset <= i < offset + |bytes| then bytes[i - offset] else if i < |file| then file[i] else 0)
  }

  /** The bytes of a batch of writes, one after the other. */
  function Join(writes: seq<Write>): (b: Bytes)
  {
    if writes == [] then [] else writes[0].bytes + Join(writes[1..])
  }

  lemma {:induction false} JoinAppend(writes: seq<Write>, w: Write)
    ensures Join(writes + [w]) == Join(writes) + w.bytes
    decreases |writes|
  {
    if writes != [] {
      assert (writes + [w])[1..] == writes[1..] + [w];
      JoinAppend(writes[1..], w);
    }
  }

  /** Each write starts where the one before it ends. */
  ghost predicate Chain(writes: seq<Write>, start: nat)
    decreases |writes|
  {
    writes == [] || (writes[0].offset == start && Chain(writes[1..], start + |writes[0].bytes|))
  }

  lemma {:induction false} ChainAppend(writes: seq<Write>, w: Write, start: nat)
    requires Chain(writes, start) && w.offset == start + |Join(writes)|
    ensures Chain(writes + [w], start)
    decreases |writes|
  {
    if writes == [] {
      assert [w][1..] == [];
    } else {
      assert (writes + [w])[1..] == writes[1..] + [w];
      ChainAppend(writes[1..], w, start + |writes[0].bytes|);
    }
  }

  /** Where a write of a chain starts. */
  lemma {:induction false} ChainAt(writes: seq<Write>, start: nat, i: nat)
    requires Chain(writes, start) && i < |writes|
    ensures writes[i].offset == start + |Join(writes[..i])|
    ensures Join(writes[..i + 1]) == Join(writes[..i]) + writes[i].bytes
    decreases |writes|
  {
    JoinAppend(writes[..i], writes[i]);
    assert writes[..i + 1] == writes[..i] + [writes[i]];
    if i > 0 {
      assert writes[..i][1..] == writes[1..][..i - 1];
      ChainAt(writes[1..], start + |writes[0].bytes|, i - 1);
    }
  }
}
