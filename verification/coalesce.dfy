/** Coalescing contiguous writes into aligned runs for direct I/O. */
module Coalescing {
  import opened Core
  import opened Encoding
  import opened Segment
  import opened FileIo

  // -------------------------------------------------------------- what it does

  /** Round up to the direct-I/O boundary. */
  function AlignUp(n: nat): (r: nat)
    ensures r % BLOCK_ALIGN == 0 && n <= r < n + BLOCK_ALIGN
  {
    (n + BLOCK_ALIGN - 1) / BLOCK_ALIGN * BLOCK_ALIGN
  }

  /** The index after the run that reached `end` with the writes before `j`. */
  function RunStop(writes: seq<Write>, j: nat, end: nat): (k: nat)
    requires j <= |writes|
    ensures j <= k <= |writes|
    decreases |writes| - j
  {
    if j < |writes| && writes[j].offset == end then RunStop(writes, j + 1, end + |writes[j].bytes|) else j
  }

  /** A zeroed buffer is never smaller than one alignment unit. */
  function BufferLen(n: nat): (r: nat)
    ensures r >= n
  {
    if AlignUp(n) < BLOCK_ALIGN then BLOCK_ALIGN else AlignUp(n)
  }

  function Padded(data: Bytes): (b: Bytes)
  {
    data + Zeros(BufferLen(|data|) - |data|)
  }

  /** Runs from write `i` on, or `None` for a run that starts unaligned. */
  function Runs(writes: seq<Write>, i: nat): (r: Option<seq<Write>>)
    requires i <= |writes|
    decreases |writes| - i
  {
    if i == |writes| then Some([])
    else if writes[i].offset % BLOCK_ALIGN != 0 then None
    else
      var j := RunStop(writes, i + 1, writes[i].offset + |writes[i].bytes|);
      After([Write(writes[i].offset, Padded(Join(writes[i..j])))], Runs(writes, j))
  }

  function After(runs: seq<Write>, rest: Option<seq<Write>>): (r: Option<seq<Write>>)
  {
    if rest.None? then None else Some(runs + rest.value)
  }

  lemma AfterAfter(a: seq<Write>, b: seq<Write>, rest: Option<seq<Write>>)
    ensures After(a, After(b, rest)) == After(a + b, rest)
    ensures After([], rest) == rest
    ensures After(a, Some([])) == Some(a)
  {
    if rest.Some? {
      assert a + (b + rest.value) == (a + b) + rest.value;
      assert [] + rest.value == rest.value;
    }
    assert a + [] == a;
  }

  /** Copy a run into a fresh zeroed buffer. */
  /** Writing over the zeros after what is there. */
  lemma FillStep(there: Bytes, more: Bytes, room: nat)
    requires |more| <= room
    ensures var b := there + Zeros(room);
            b[..|there|] + more + b[|there| + |more|..] == (there + more) + Zeros(room - |more|)
  {
  }

  method FillBuffer(writes: seq<Write>, length: nat) returns (bytes: Bytes)
    requires length == |Join(writes)|
    ensures bytes == Padded(Join(writes))
  {
    var size := BufferLen(length);
    var buf := new Byte[size](_ => 0);
    var at := 0;
    for k := 0 to |writes|
      invariant fresh(buf) && buf.Length == size
      invariant at == |Join(writes[..k])| <= length
      invariant buf[..] == Join(writes[..k]) + Zeros(size - at)
    {
      assert writes[..k + 1] == writes[..k] + [writes[k]];
      JoinAppend(writes[..k], writes[k]);
      JoinPrefix(writes, k + 1);
      FillStep(Join(writes[..k]), writes[k].bytes, size - at);
      CopyInto(buf, at, writes[k].bytes);
      at := at + |writes[k].bytes|;
    }
    assert writes[..|writes|] == writes;
    bytes := buf[..];
  }

  lemma {:induction false} JoinPrefix(writes: seq<Write>, k: nat)
    requires k <= |writes|
    ensures |Join(writes[..k])| <= |Join(writes)|
    decreases |writes| - k
  {
    if k == |writes| {
      assert writes[..k] == writes;
    } else {
      assert writes[..k + 1] == writes[..k] + [writes[k]];
      JoinAppend(writes[..k], writes[k]);
      JoinPrefix(writes, k + 1);
    }
  }

  /** Copy the writes into aligned buffers, one per contiguous run. */
  method AlignWrites(writes: seq<Write>) returns (r: Option<seq<Write>>)
    ensures r == Runs(writes, 0)
  {
    hide Padded, Join, After;
    var runs: seq<Write>, i := [], 0;
    AfterAfter([], [], Runs(writes, 0));
    while i < |writes|
      invariant i <= |writes|
      invariant Runs(writes, 0) == After(runs, Runs(writes, i))
    {
      var start := writes[i].offset;
      if start % BLOCK_ALIGN != 0 {
        NoneAfter(runs);
        return None;
      }
      var end, j := start + |writes[i].bytes|, i + 1;
      assert writes[i..j] == [] + [writes[i]];
      JoinAppend([], writes[i]);
      JoinNone();
      while j < |writes| && writes[j].offset == end
        invariant i < j <= |writes| && end == start + |Join(writes[i..j])|
        invariant RunStop(writes, j, end) == RunStop(writes, i + 1, start + |writes[i].bytes|)
      {
        assert writes[i..j + 1] == writes[i..j] + [writes[j]];
        JoinAppend(writes[i..j], writes[j]);
        end, j := end + |writes[j].bytes|, j + 1;
      }
      var buf := FillBuffer(writes[i..j], end - start);
      AfterAfter(runs, [Write(start, buf)], Runs(writes, j));
      runs := runs + [Write(start, buf)];
      i := j;
    }
    AfterAfter(runs, [], None);
    r := Some(runs);
  }

  lemma NoneAfter(runs: seq<Write>)
    ensures After(runs, None) == None
  {
  }

  lemma JoinNone()
    ensures Join([]) == []
  {
  }

  // -------------------------------------------------------------- what it means

  function ApplyAll(file: Bytes, writes: seq<Write>): (r: Bytes)
    decreases |writes|
  {
    if writes == [] then file else ApplyAll(WriteAt(file, writes[0].offset, writes[0].bytes), writes[1..])
  }

  predicate Inside(w: Write, pos: nat)
  {
    w.offset <= pos < w.offset + |w.bytes|
  }

  /** Some write puts byte `v` at `pos`. */
  ghost predicate Puts(writes: seq<Write>, pos: nat, v: Byte)
  {
    exists k :: 0 <= k < |writes| && Inside(writes[k], pos) && writes[k].bytes[pos - writes[k].offset] == v
  }

  ghost predicate Covered(writes: seq<Write>, pos: nat)
  {
    exists k :: 0 <= k < |writes| && Inside(writes[k], pos)
  }

  /** No byte is written twice. */
  ghost predicate Disjoint(writes: seq<Write>)
  {
    forall i, j, pos :: 0 <= i < j < |writes| && Inside(writes[i], pos) ==> !Inside(writes[j], pos)
  }

  ghost predicate SamePuts(a: seq<Write>, b: seq<Write>)
  {
    forall pos, v :: Puts(a, pos, v) <==> Puts(b, pos, v)
  }

  lemma CoveredPuts(writes: seq<Write>, pos: nat)
    ensures Covered(writes, pos) <==> exists v :: Puts(writes, pos, v)
  {
    if Covered(writes, pos) {
      var k :| 0 <= k < |writes| && Inside(writes[k], pos);
      assert Puts(writes, pos, writes[k].bytes[pos - writes[k].offset]);
    }
  }

  /** Some byte at or after `n` is written. */
  ghost predicate ReachesPast(writes: seq<Write>, n: nat)
  {
    exists pos :: n <= pos && Covered(writes, pos)
  }

  lemma CoveredHead(writes: seq<Write>, pos: nat)
    requires writes != []
    ensures Covered(writes, pos) <==> Inside(writes[0], pos) || Covered(writes[1..], pos)
  {
    var rest := writes[1..];
    if k :| 0 <= k < |writes| && Inside(writes[k], pos) {
      if k > 0 { assert Inside(rest[k - 1], pos); }
    }
    if k :| 0 <= k < |rest| && Inside(rest[k], pos) {
      assert Inside(writes[k + 1], pos);
    }
  }

  lemma PutsHead(writes: seq<Write>, pos: nat, v: Byte)
    requires writes != []
    ensures Puts(writes, pos, v) <==>
              (Inside(writes[0], pos) && writes[0].bytes[pos - writes[0].offset] == v) || Puts(writes[1..], pos, v)
  {
    var rest := writes[1..];
    if k :| 0 <= k < |writes| && Inside(writes[k], pos) && writes[k].bytes[pos - writes[k].offset] == v {
      if k > 0 { assert Inside(rest[k - 1], pos) && rest[k - 1].bytes[pos - rest[k - 1].offset] == v; }
    }
    if k :| 0 <= k < |rest| && Inside(rest[k], pos) && rest[k].bytes[pos - rest[k].offset] == v {
      assert Inside(writes[k + 1], pos) && writes[k + 1].bytes[pos - writes[k + 1].offset] == v;
    }
  }

  lemma DisjointHead(writes: seq<Write>)
    requires writes != []
    ensures Disjoint(writes) <==>
            Disjoint(writes[1..]) && forall pos :: Inside(writes[0], pos) ==> !Covered(writes[1..], pos)
  {
    var rest := writes[1..];
    assert forall k :: 0 <= k < |rest| ==> rest[k] == writes[k + 1];
    if Disjoint(rest) && forall pos :: Inside(writes[0], pos) ==> !Covered(rest, pos) {
      forall i, j, pos | 0 <= i < j < |writes| && Inside(writes[i], pos) ensures !Inside(writes[j], pos) {
        if i > 0 {
          assert Inside(rest[i - 1], pos);
          assert !Inside(rest[j - 1], pos);
        } else {
          assert !Covered(rest, pos);
          assert !Inside(rest[j - 1], pos);
        }
      }
    }
  }

  lemma ReachHead(writes: seq<Write>, n: nat)
    requires writes != []
    ensures ReachesPast(writes, n) <==>
              (writes[0].bytes != [] && n < writes[0].offset + |writes[0].bytes|) || ReachesPast(writes[1..], n)
  {
    hide Covered;
    var w, rest := writes[0], writes[1..];
    if pos :| n <= pos && Covered(writes, pos) {
      CoveredHead(writes, pos);
    }
    if pos :| n <= pos && Covered(rest, pos) {
      CoveredHead(writes, pos);
    }
    if w.bytes != [] && n < w.offset + |w.bytes| {
      assert Inside(w, w.offset + |w.bytes| - 1);
      CoveredHead(writes, w.offset + |w.bytes| - 1);
    }
  }

  /** The file grows exactly to the last byte written. */
  lemma {:induction false} ApplyLength(file: Bytes, writes: seq<Write>, n: nat)
    ensures n < |ApplyAll(file, writes)| <==> n < |file| || ReachesPast(writes, n)
    decreases |writes|
  {
    hide ReachesPast;
    if writes == [] {
      NothingReached(n);
    } else {
      ReachHead(writes, n);
      ApplyLength(WriteAt(file, writes[0].offset, writes[0].bytes), writes[1..], n);
    }
  }

  lemma NothingReached(n: nat)
    ensures !ReachesPast([], n)
  {
  }

  /** Each byte of the result is the one some write puts there, or what the
      file had. */
  lemma {:induction false} ApplyByte(file: Bytes, writes: seq<Write>, pos: nat)
    requires Disjoint(writes) && pos < |ApplyAll(file, writes)|
    ensures Covered(writes, pos) ==> Puts(writes, pos, ApplyAll(file, writes)[pos])
    ensures !Covered(writes, pos) ==> ApplyAll(file, writes)[pos] == if pos < |file| then file[pos] else 0
    decreases |writes|
  {
    hide Covered, Puts, Disjoint, ReachesPast, WriteAt;
    if writes == [] {
      NothingCovered(pos);
    } else {
      var w := writes[0];
      var next := WriteAt(file, w.offset, w.bytes);
      WriteAtByte(file, w, pos);
      DisjointHead(writes);
      CoveredHead(writes, pos);
      PutsHead(writes, pos, ApplyAll(file, writes)[pos]);
      ApplyLength(next, writes[1..], pos);
      ApplyByte(next, writes[1..], pos);
    }
  }

  lemma NothingCovered(pos: nat)
    ensures !Covered([], pos)
  {
  }

  lemma WriteAtByte(file: Bytes, w: Write, pos: nat)
    ensures var next := WriteAt(file, w.offset, w.bytes);
            && (pos < |next| ==>
                  next[pos] ==
                  if Inside(w, pos) then w.bytes[pos - w.offset] else if pos < |file| then file[pos] else 0)
            && (pos >= |next| ==> pos >= |file| && !Inside(w, pos))
  {
  }

  lemma PutsUnique(writes: seq<Write>, pos: nat, u: Byte, v: Byte)
    requires Disjoint(writes) && Puts(writes, pos, u) && Puts(writes, pos, v)
    ensures u == v
  {
    var i :| 0 <= i < |writes| && Inside(writes[i], pos) && writes[i].bytes[pos - writes[i].offset] == u;
    var j :| 0 <= j < |writes| && Inside(writes[j], pos) && writes[j].bytes[pos - writes[j].offset] == v;
    assert i == j;
  }

  /** Two disjoint batches that put the same bytes leave the same file. */
  lemma SamePutsSameFile(file: Bytes, a: seq<Write>, b: seq<Write>)
    requires Disjoint(a) && Disjoint(b) && SamePuts(a, b)
    ensures ApplyAll(file, a) == ApplyAll(file, b)
  {
    hide Puts, Covered, Disjoint, ApplyAll;
    forall pos ensures Covered(a, pos) <==> Covered(b, pos) {
      CoveredPuts(a, pos);
      CoveredPuts(b, pos);
    }
    var x, y := ApplyAll(file, a), ApplyAll(file, b);
    ApplyLength(file, a, |x|);
    ApplyLength(file, b, |x|);
    ApplyLength(file, a, |y|);
    ApplyLength(file, b, |y|);
    assert |x| == |y|;
    forall pos | 0 <= pos < |x| ensures x[pos] == y[pos] {
      ApplyByte(file, a, pos);
      ApplyByte(file, b, pos);
      if Covered(a, pos) { PutsUnique(b, pos, x[pos], y[pos]); }
    }
  }

  // --------------------------------------------------------- meaning preserved

  lemma {:induction false} StopChain(writes: seq<Write>, j: nat, end: nat)
    requires j <= |writes|
    ensures Chain(writes[j..RunStop(writes, j, end)], end)
    decreases |writes| - j
  {
    if j < |writes| && writes[j].offset == end {
      var k := RunStop(writes, j, end);
      StopChain(writes, j + 1, end + |writes[j].bytes|);
      assert writes[j..k][1..] == writes[j + 1..k];
    }
  }

  /** One joined write puts exactly the bytes of its chain. */
  lemma {:induction false} JoinedPuts(writes: seq<Write>, start: nat, pos: nat, v: Byte)
    requires Chain(writes, start)
    ensures Puts(writes, pos, v) <==> start <= pos < start + |Join(writes)| && Join(writes)[pos - start] == v
    decreases |writes|
  {
    hide Puts;
    if writes == [] {
      NothingPut(pos, v);
    } else {
      PutsHead(writes, pos, v);
      JoinedPuts(writes[1..], start + |writes[0].bytes|, pos, v);
    }
  }

  lemma NothingPut(pos: nat, v: Byte)
    ensures !Puts([], pos, v)
  {
  }

  lemma {:induction false} PutsSplit(a: seq<Write>, b: seq<Write>, pos: nat, v: Byte)
    ensures Puts(a + b, pos, v) <==> Puts(a, pos, v) || Puts(b, pos, v)
    decreases |a|
  {
    hide Puts;
    if a == [] {
      NothingPut(pos, v);
      assert a + b == b;
    } else {
      PutsHead(a + b, pos, v);
      PutsHead(a, pos, v);
      assert (a + b)[1..] == a[1..] + b;
      PutsSplit(a[1..], b, pos, v);
    }
  }

  ghost predicate Aligned(writes: seq<Write>)
  {
    forall k :: 0 <= k < |writes| ==>
      writes[k].offset % BLOCK_ALIGN == 0 && writes[k].bytes != [] && |writes[k].bytes| % BLOCK_ALIGN == 0
  }

  /** A buffer adds nothing to its run exactly when the run is a non-empty
      multiple of the alignment: otherwise zero bytes are written after it. */
  lemma NoPaddingIff(data: Bytes)
    ensures Padded(data) == data <==> data != [] && |data| % BLOCK_ALIGN == 0
  {
  }

  lemma {:induction false} JoinAligned(writes: seq<Write>)
    requires Aligned(writes)
    ensures |Join(writes)| % BLOCK_ALIGN == 0 && (writes != [] ==> Join(writes) != [])
    decreases |writes|
  {
    if writes != [] {
      assert Aligned(writes[1..]);
      JoinAligned(writes[1..]);
    }
  }

  /** The first run, in terms of the writes it replaces. */
  lemma FirstRun(writes: seq<Write>, i: nat)
    requires Aligned(writes) && i < |writes|
    ensures var j := RunStop(writes, i + 1, writes[i].offset + |writes[i].bytes|);
            && i < j && Chain(writes[i..j], writes[i].offset) && Padded(Join(writes[i..j])) == Join(writes[i..j])
            && Runs(writes, i) == After([Write(writes[i].offset, Join(writes[i..j]))], Runs(writes, j))
  {
    var j := RunStop(writes, i + 1, writes[i].offset + |writes[i].bytes|);
    StopChain(writes, i + 1, writes[i].offset + |writes[i].bytes|);
    assert writes[i..j][1..] == writes[i + 1..j];
    assert Aligned(writes[i..j]);
    JoinAligned(writes[i..j]);
    NoPaddingIff(Join(writes[i..j]));
  }

  lemma {:induction false} RunsPutTheSame(writes: seq<Write>, i: nat)
    requires Aligned(writes) && i <= |writes|
    ensures Runs(writes, i).Some? && SamePuts(Runs(writes, i).value, writes[i..])
    decreases |writes| - i
  {
    hide Puts, Aligned, Runs, Chain, Join, Padded, RunStop;
    if i < |writes| {
      FirstRun(writes, i);
      var j := RunStop(writes, i + 1, writes[i].offset + |writes[i].bytes|);
      RunsPutTheSame(writes, j);
      var first, rest := Write(writes[i].offset, Join(writes[i..j])), Runs(writes, j).value;
      assert writes[i..] == writes[i..j] + writes[j..];
      forall pos: nat, v: Byte ensures Puts([first] + rest, pos, v) <==> Puts(writes[i..], pos, v) {
        RunPuts(writes[i..j], writes[i].offset, rest, pos, v);
        PutsSplit(writes[i..j], writes[j..], pos, v);
      }
    } else {
      assert writes[i..] == [];
      RunsEnd(writes);
    }
  }

  /** A run put first puts what its writes put, and then the rest. */
  lemma RunPuts(run: seq<Write>, start: nat, rest: seq<Write>, pos: nat, v: Byte)
    requires Chain(run, start)
    ensures Puts([Write(start, Join(run))] + rest, pos, v) <==> Puts(run, pos, v) || Puts(rest, pos, v)
  {
    hide Puts, Chain, Join;
    var first := Write(start, Join(run));
    assert ([first] + rest)[1..] == rest;
    PutsHead([first] + rest, pos, v);
    JoinedPuts(run, start, pos, v);
  }

  lemma DisjointParts(writes: seq<Write>, i: nat, j: nat, pos: nat)
    requires Disjoint(writes) && i <= j <= |writes| && Covered(writes[i..j], pos)
    ensures !Covered(writes[j..], pos)
  {
    var k :| 0 <= k < j - i && Inside(writes[i..j][k], pos);
    assert Inside(writes[i + k], pos);
    forall m | 0 <= m < |writes[j..]| ensures !Inside(writes[j..][m], pos) {
      assert writes[j..][m] == writes[j + m];
    }
  }

  lemma {:induction false} RunsDisjoint(writes: seq<Write>, i: nat)
    requires Aligned(writes) && Disjoint(writes) && i <= |writes|
    ensures Runs(writes, i).Some? && Disjoint(Runs(writes, i).value)
    decreases |writes| - i
  {
    hide Puts, Aligned, Covered, Disjoint;
    if i < |writes| {
      FirstRun(writes, i);
      var j := RunStop(writes, i + 1, writes[i].offset + |writes[i].bytes|);
      RunsDisjoint(writes, j);
      RunsPutTheSame(writes, j);
      var first, rest := Write(writes[i].offset, Join(writes[i..j])), Runs(writes, j).value;
      hide Runs, Chain, Join;
      assert Runs(writes, i).value == [first] + rest && ([first] + rest)[1..] == rest;
      forall pos: nat | Inside(first, pos) ensures !Covered(rest, pos) {
        JoinedPuts(writes[i..j], writes[i].offset, pos, first.bytes[pos - first.offset]);
        CoveredPuts(writes[i..j], pos);
        DisjointParts(writes, i, j, pos);
        CoveredPuts(writes[j..], pos);
        CoveredPuts(rest, pos);
      }
      DisjointHead([first] + rest);
    } else {
      NothingOverlaps();
    }
  }

  lemma NothingOverlaps()
    ensures Disjoint([])
  {
  }

  // ------------------------------------------------------------------ any order

  /** `back` undoes `order`: both are permutations of 0..n. */
  ghost predicate Permutes(order: seq<nat>, back: seq<nat>, n: nat)
  {
    && |order| == |back| == n
    && (forall i :: 0 <= i < n ==> order[i] < n && back[order[i]] == i)
    && (forall i :: 0 <= i < n ==> back[i] < n && order[back[i]] == i)
  }

  function Reorder(writes: seq<Write>, order: seq<nat>): (r: seq<Write>)
    requires forall i :: 0 <= i < |order| ==> order[i] < |writes|
  {
    seq(|order|, i requires 0 <= i < |order| => writes[order[i]])
  }

  lemma ReorderKeeps(writes: seq<Write>, order: seq<nat>, back: seq<nat>)
    requires Permutes(order, back, |writes|) && Disjoint(writes)
    ensures Disjoint(Reorder(writes, order)) && SamePuts(Reorder(writes, order), writes)
  {
    var out := Reorder(writes, order);
    forall i, j, pos | 0 <= i < j < |out| && Inside(out[i], pos) ensures !Inside(out[j], pos) {
      assert back[order[i]] == i && back[order[j]] == j;
      assert order[i] != order[j];
    }
    forall pos: nat, v: Byte ensures Puts(out, pos, v) <==> Puts(writes, pos, v) {
      if k :| 0 <= k < |writes| && Inside(writes[k], pos) && writes[k].bytes[pos - writes[k].offset] == v {
        assert out[back[k]] == writes[k];
      }
      if k :| 0 <= k < |out| && Inside(out[k], pos) && out[k].bytes[pos - out[k].offset] == v {
        assert writes[order[k]] == out[k];
      }
    }
  }

  /** Non-overlapping aligned writes: the coalesced runs, submitted in any
      order, leave the same file as the plain writes one after the other. */
  lemma CoalescingPreservesFile(file: Bytes, writes: seq<Write>, order: seq<nat>, back: seq<nat>)
    requires Aligned(writes) && Disjoint(writes)
    requires Runs(writes, 0).Some? ==> Permutes(order, back, |Runs(writes, 0).value|)
    ensures Runs(writes, 0).Some?
    ensures ApplyAll(file, Reorder(Runs(writes, 0).value, order)) == ApplyAll(file, writes)
  {
    hide Puts, Disjoint, Aligned, Runs, ApplyAll, Reorder;
    RunsPutTheSame(writes, 0);
    RunsDisjoint(writes, 0);
    assert writes[0..] == writes;
    var runs := Runs(writes, 0).value;
    ReorderKeeps(runs, order, back);
    SamePutsSameFile(file, Reorder(runs, order), writes);
  }

  // ----------------------------------------------------------------- group commit

  lemma {:induction false} ChainStops(writes: seq<Write>, j: nat, end: nat)
    requires j <= |writes| && Chain(writes[j..], end)
    ensures RunStop(writes, j, end) == |writes|
    decreases |writes| - j
  {
    if j < |writes| {
      assert writes[j..][1..] == writes[j + 1..];
      ChainStops(writes, j + 1, end + |writes[j].bytes|);
    }
  }

  lemma {:induction false} ChainDisjoint(writes: seq<Write>, start: nat)
    requires Chain(writes, start)
    ensures Disjoint(writes) && forall pos :: Covered(writes, pos) ==> start <= pos
    decreases |writes|
  {
    if writes != [] {
      ChainDisjoint(writes[1..], start + |writes[0].bytes|);
      DisjointHead(writes);
      forall pos | Covered(writes, pos) ensures start <= pos {
        CoveredHead(writes, pos);
      }
    }
  }

  lemma RunsEnd(writes: seq<Write>)
    ensures Runs(writes, |writes|) == Some([])
  {
  }

  /** A group commit: the records staged for a segment, each where the one before
      it ends, become one write of all their bytes, with none added. */
  lemma ChainIsOneRun(pending: seq<Write>, base: nat)
    requires Chain(pending, base) && Aligned(pending) && pending != []
    ensures Disjoint(pending) && Runs(pending, 0) == Some([Write(base, Join(pending))])
  {
    hide Padded, Disjoint, Covered, Join, Runs, RunStop;
    ChainDisjoint(pending, base);
    ChainStops(pending, 1, base + |pending[0].bytes|);
    FirstRun(pending, 0);
    assert pending[0..|pending|] == pending;
    RunsEnd(pending);
    AfterAfter([Write(base, Join(pending))], [], None);
  }
}
