/** Lock-free readers beside one writer or compaction: every interleaving of
    their steps, down to partially landed writes. */
module ReaderProtocol {
  import opened Core
  import opened Encoding
  import opened Segment
  import opened StoreLayout

  /** A file as its open handles see it; only the first `synced` bytes are durable. */
  datatype Inode = Inode(bytes: Bytes, synced: nat)

  /** What a reader took away under the index lock: an id, where its record is,
      and the file handle current at that moment. `want` is the payload then. */
  datatype Reader = Reader(id: BlockId, loc: Location, inode: nat, want: Bytes)

  /** Who holds the append lock, and how far they got. */
  datatype Holder =
    | Free
    | Writing(pending: Bytes, staged: seq<Indexed>)
    | Compacting(segment: nat, tmp: nat, locs: Index)

  datatype Shared = Shared(
    inodes: seq<Inode>,
    files: seq<nat>,
    index: Index,
    holder: Holder,
    poisoned: bool,
    readers: map<nat, Reader>)

  const INITIAL := Shared([Inode([], 0)], [0], map[], Free, false, map[])

  datatype Action =
    | BeginPut
    | Stage(payload: Bytes)
    | Land(count: nat)
    | Sync
    | Roll
    | Publish
    | FailPut
    | BeginCompact(segment: nat)
    | Copy(id: BlockId)
    | Swap
    | AbortCompact
    | Capture(reader: nat, id: BlockId)
    | Finish(reader: nat)

  function Active(s: Shared): (inode: nat)
    requires s.files != []
  {
    s.files[|s.files| - 1]
  }

  function Append(n: Inode, more: Bytes): (r: Inode)
  {
    n.(bytes := n.bytes + more)
  }

  predicate StagedId(staged: seq<Indexed>, id: BlockId)
  {
    exists i :: 0 <= i < |staged| && staged[i].id == id
  }

  /** `None` when the step cannot be taken in this state. */
  ghost function Next(hash: Hasher, s: Shared, a: Action): (r: Option<Shared>)
    requires Inv(hash, s)
  {
    match a
    case BeginPut =>
      if s.holder.Free? && !s.poisoned then Some(s.(holder := Writing([], []))) else None
    case Stage(p) =>
      if !s.holder.Writing? || hash(p) in s.index || StagedId(s.holder.staged, hash(p)) then None
      else
        var at := |s.inodes[Active(s)].bytes| + |s.holder.pending|;
        Some(s.(holder := Writing(
          s.holder.pending + Record(hash(p), p),
          s.holder.staged + [Indexed(hash(p), Location(|s.files| - 1, at, |p|))])))
    case Land(n) =>
      if !s.holder.Writing? || n > |s.holder.pending| then None
      else
        var i := Active(s);
        Some(s.(inodes := s.inodes[i := Append(s.inodes[i], s.holder.pending[..n])],
                holder := s.holder.(pending := s.holder.pending[n..])))
    case Sync =>
      if !s.holder.Writing? || s.holder.pending != [] then None
      else
        var i := Active(s);
        Some(s.(inodes := s.inodes[i := s.inodes[i].(synced := |s.inodes[i].bytes|)]))
    case Roll =>
      if !s.holder.Writing? || s.holder.pending != []
         || s.inodes[Active(s)].synced < |s.inodes[Active(s)].bytes| then None
      else Some(s.(inodes := s.inodes + [Inode([], 0)], files := s.files + [|s.inodes|]))
    case Publish =>
      if !s.holder.Writing? || s.holder.pending != []
         || s.inodes[Active(s)].synced < |s.inodes[Active(s)].bytes| then None
      else Some(s.(index := AddAll(s.index, s.holder.staged), holder := Free))
    case FailPut =>
      if !s.holder.Writing? then None else Some(s.(holder := Free, poisoned := true))
    case BeginCompact(segment) =>
      if !s.holder.Free? || segment + 1 >= |s.files| then None
      else Some(s.(inodes := s.inodes + [Inode([], 0)], holder := Compacting(segment, |s.inodes|, map[])))
    case Copy(id) =>
      if !s.holder.Compacting? || id !in s.index || s.index[id].segment != s.holder.segment
         || id in s.holder.locs then None
      else
        var payload := ReadAt(s.inodes[s.files[s.holder.segment]].bytes, s.index[id]);
        var t := s.holder.tmp;
        Some(s.(inodes := s.inodes[t := Append(s.inodes[t], Record(id, payload))],
                holder := s.holder.(locs := s.holder.locs[
                  id := Location(s.holder.segment, |s.inodes[t].bytes|, |payload|)])))
    case Swap =>
      if !s.holder.Compacting? then None
      else
        var t := s.holder.tmp;
        Some(s.(inodes := s.inodes[t := s.inodes[t].(synced := |s.inodes[t].bytes|)],
                files := s.files[s.holder.segment := t],
                index := Outside(s.index, s.holder.segment) + s.holder.locs,
                holder := Free))
    case AbortCompact =>
      if !s.holder.Compacting? then None else Some(s.(holder := Free))
    case Capture(r, id) =>
      if id !in s.index || r in s.readers then None
      else
        var loc := s.index[id];
        var i := s.files[loc.segment];
        Some(s.(readers := s.readers[r := Reader(id, loc, i, ReadAt(s.inodes[i].bytes, loc))]))
    case Finish(r) =>
      if r !in s.readers then None else Some(s.(readers := s.readers - {r}))
  }

  // --------------------------------------------------------------- invariant

  /** `bytes` holds, at `loc`, a payload whose hash is `id`. */
  ghost predicate RecAt(hash: Hasher, bytes: Bytes, loc: Location, id: BlockId)
  {
    loc.offset + RecordLen(loc.payloadLen) <= |bytes| && hash(ReadAt(bytes, loc)) == id
  }

  /** The same, inside the durable part of a file. */
  ghost predicate Durable(hash: Hasher, inodes: seq<Inode>, i: nat, loc: Location, id: BlockId)
  {
    i < |inodes| && inodes[i].synced <= |inodes[i].bytes| && RecAt(hash, inodes[i].bytes[..inodes[i].synced], loc, id)
  }

  /** Every published location lies in the synced part of its file and holds
      the payload of its id. */
  ghost predicate IndexDurable(hash: Hasher, inodes: seq<Inode>, files: seq<nat>, index: Index)
  {
    forall id :: id in index ==>
      index[id].segment < |files| && Durable(hash, inodes, files[index[id].segment], index[id], id)
  }

  ghost predicate ReaderOk(hash: Hasher, inodes: seq<Inode>, r: Reader)
  {
    && Durable(hash, inodes, r.inode, r.loc, r.id)
    && ReadAt(inodes[r.inode].bytes, r.loc) == r.want
  }

  ghost predicate ReadersOk(hash: Hasher, inodes: seq<Inode>, readers: map<nat, Reader>)
  {
    forall r :: r in readers ==> ReaderOk(hash, inodes, readers[r])
  }

  /** A staged record is durable in a sealed segment, or will be in the active
      one once `pending` has landed. */
  ghost predicate StagedOk(hash: Hasher, inodes: seq<Inode>, files: seq<nat>, pending: Bytes, x: Indexed)
    requires files != [] && files[|files| - 1] < |inodes|
  {
    if x.loc.segment == |files| - 1 then RecAt(hash, inodes[files[|files| - 1]].bytes + pending, x.loc, x.id)
    else x.loc.segment < |files| - 1 && Durable(hash, inodes, files[x.loc.segment], x.loc, x.id)
  }

  ghost predicate HolderOk(hash: Hasher, inodes: seq<Inode>, files: seq<nat>, holder: Holder)
    requires files != [] && files[|files| - 1] < |inodes|
  {
    match holder
    case Free => true
    case Writing(pending, staged) =>
      forall i :: 0 <= i < |staged| ==> StagedOk(hash, inodes, files, pending, staged[i])
    case Compacting(segment, tmp, locs) =>
      && segment < |files| - 1 && tmp < |inodes|
      && (forall id :: id in locs ==> locs[id].segment == segment && RecAt(hash, inodes[tmp].bytes, locs[id], id))
  }

  ghost predicate FilesOk(inodes: seq<Inode>, files: seq<nat>)
  {
    && files != [] && (forall i :: 0 <= i < |files| ==> files[i] < |inodes|)
    && (forall i :: 0 <= i < |inodes| ==> inodes[i].synced <= |inodes[i].bytes|)
  }

  ghost predicate Inv(hash: Hasher, s: Shared)
  {
    && FilesOk(s.inodes, s.files)
    && IndexDurable(hash, s.inodes, s.files, s.index)
    && ReadersOk(hash, s.inodes, s.readers)
    && HolderOk(hash, s.inodes, s.files, s.holder)
  }

  // ------------------------------------------------ files only ever grow

  ghost predicate Grows(a: seq<Inode>, b: seq<Inode>)
  {
    |a| <= |b| && forall i :: 0 <= i < |a| ==> a[i].bytes <= b[i].bytes && a[i].synced <= b[i].synced <= |b[i].bytes|
  }

  lemma ReadAtPrefix(a: Bytes, b: Bytes, loc: Location)
    requires a <= b && loc.offset + HEADER_LEN + loc.payloadLen <= |a|
    ensures ReadAt(b, loc) == ReadAt(a, loc)
  {
    assert a == b[0..|a|];
    SliceOfSlice(b, 0, |a|, loc.offset + HEADER_LEN, loc.offset + HEADER_LEN + loc.payloadLen);
  }

  lemma RecAtPrefix(hash: Hasher, a: Bytes, b: Bytes, loc: Location, id: BlockId)
    requires a <= b && RecAt(hash, a, loc, id)
    ensures RecAt(hash, b, loc, id) && ReadAt(b, loc) == ReadAt(a, loc)
  {
    ReadAtPrefix(a, b, loc);
  }

  lemma DurableGrows(hash: Hasher, a: seq<Inode>, b: seq<Inode>, i: nat, loc: Location, id: BlockId)
    requires Grows(a, b) && Durable(hash, a, i, loc, id)
    ensures Durable(hash, b, i, loc, id)
    ensures ReadAt(b[i].bytes, loc) == ReadAt(a[i].bytes, loc) && hash(ReadAt(a[i].bytes, loc)) == id
  {
    var synced := a[i].bytes[..a[i].synced];
    assert synced <= b[i].bytes[..b[i].synced];
    hide RecordLen, ReadAt;
    RecAtPrefix(hash, synced, b[i].bytes[..b[i].synced], loc, id);
    RecAtPrefix(hash, synced, a[i].bytes, loc, id);
    RecAtPrefix(hash, synced, b[i].bytes, loc, id);
  }

  lemma IndexGrows(hash: Hasher, a: seq<Inode>, b: seq<Inode>, files: seq<nat>, index: Index)
    requires Grows(a, b) && IndexDurable(hash, a, files, index)
    ensures IndexDurable(hash, b, files, index)
  {
    hide Durable, Grows;
    forall id | id in index ensures Durable(hash, b, files[index[id].segment], index[id], id) {
      DurableGrows(hash, a, b, files[index[id].segment], index[id], id);
    }
  }

  lemma ReadersGrow(hash: Hasher, a: seq<Inode>, b: seq<Inode>, readers: map<nat, Reader>)
    requires Grows(a, b) && ReadersOk(hash, a, readers)
    ensures ReadersOk(hash, b, readers)
  {
    forall r | r in readers ensures ReaderOk(hash, b, readers[r]) {
      var x := readers[r];
      assert ReaderOk(hash, a, x);
      DurableGrows(hash, a, b, x.inode, x.loc, x.id);
    }
  }

  // ----------------------------------------------------------- writer steps

  lemma RecordLands(hash: Hasher, before: Bytes, segment: nat, p: Bytes)
    ensures RecAt(hash, before + Record(hash(p), p), Location(segment, |before|, |p|), hash(p))
  {
    var file := before + Record(hash(p), p);
    hide Record;
    assert file[|before|..|before| + RecordLen(|p|)] == Record(hash(p), p);
    ReadBack(file, Rec(hash(p), p), Location(segment, |before|, |p|));
  }

  lemma StagedGrows(hash: Hasher, a: seq<Inode>, b: seq<Inode>, files: seq<nat>, pending: Bytes, pending': Bytes,
                    x: Indexed)
    requires Grows(a, b) && files != [] && files[|files| - 1] < |a| && files[|files| - 1] < |b|
    requires a[files[|files| - 1]].bytes + pending <= b[files[|files| - 1]].bytes + pending'
    requires StagedOk(hash, a, files, pending, x)
    ensures StagedOk(hash, b, files, pending', x)
  {
    hide RecAt, Durable, Grows;
    var i := files[|files| - 1];
    if x.loc.segment == |files| - 1 {
      RecAtPrefix(hash, a[i].bytes + pending, b[i].bytes + pending', x.loc, x.id);
    } else {
      DurableGrows(hash, a, b, files[x.loc.segment], x.loc, x.id);
    }
  }

  lemma StageKeepsHolder(hash: Hasher, s: Shared, p: Bytes)
    requires Inv(hash, s) && s.holder.Writing?
    ensures var at := |s.inodes[Active(s)].bytes| + |s.holder.pending|;
            HolderOk(hash, s.inodes, s.files, Writing(
              s.holder.pending + Record(hash(p), p),
              s.holder.staged + [Indexed(hash(p), Location(|s.files| - 1, at, |p|))]))
  {
    hide Record, Durable, RecAt, IndexDurable, ReadersOk;
    var bytes, pending, staged := s.inodes[Active(s)].bytes, s.holder.pending, s.holder.staged;
    var more := pending + Record(hash(p), p);
    assert bytes + more == (bytes + pending) + Record(hash(p), p);
    RecordLands(hash, bytes + pending, |s.files| - 1, p);
    assert Grows(s.inodes, s.inodes);
    forall i | 0 <= i < |staged| ensures StagedOk(hash, s.inodes, s.files, more, staged[i]) {
      StagedGrows(hash, s.inodes, s.inodes, s.files, pending, more, staged[i]);
    }
  }

  /** Bytes that land or become durable disturb nobody. */
  lemma GrowKeepsInv(hash: Hasher, s: Shared, inodes: seq<Inode>, holder: Holder)
    requires Inv(hash, s) && Grows(s.inodes, inodes) && FilesOk(inodes, s.files)
    requires HolderOk(hash, inodes, s.files, holder)
    ensures Inv(hash, s.(inodes := inodes, holder := holder))
  {
    hide Grows, Durable, HolderOk, FilesOk, IndexDurable, ReadersOk;
    IndexGrows(hash, s.inodes, inodes, s.files, s.index);
    ReadersGrow(hash, s.inodes, inodes, s.readers);
  }

  lemma WritingGrows(hash: Hasher, s: Shared, inodes: seq<Inode>, pending': Bytes)
    requires Inv(hash, s) && s.holder.Writing? && Grows(s.inodes, inodes) && Active(s) < |inodes|
    requires inodes[Active(s)].bytes + pending' == s.inodes[Active(s)].bytes + s.holder.pending
    ensures HolderOk(hash, inodes, s.files, s.holder.(pending := pending'))
  {
    hide Grows, Durable, RecAt, IndexDurable, ReadersOk, StagedOk;
    forall i | 0 <= i < |s.holder.staged| ensures StagedOk(hash, inodes, s.files, pending', s.holder.staged[i]) {
      StagedGrows(hash, s.inodes, inodes, s.files, s.holder.pending, pending', s.holder.staged[i]);
    }
  }

  lemma LandKeepsInv(hash: Hasher, s: Shared, n: nat)
    requires Inv(hash, s) && Next(hash, s, Land(n)).Some?
    ensures Inv(hash, Next(hash, s, Land(n)).value) && Grows(s.inodes, Next(hash, s, Land(n)).value.inodes)
  {
    hide Durable, RecAt, IndexDurable, ReadersOk, StagedOk;
    var i := Active(s);
    var inodes := s.inodes[i := Append(s.inodes[i], s.holder.pending[..n])];
    assert s.holder.pending[..n] + s.holder.pending[n..] == s.holder.pending;
    assert s.inodes[i].bytes + s.holder.pending[..n] + s.holder.pending[n..] == s.inodes[i].bytes + s.holder.pending;
    WritingGrows(hash, s, inodes, s.holder.pending[n..]);
    GrowKeepsInv(hash, s, inodes, s.holder.(pending := s.holder.pending[n..]));
  }

  lemma SyncKeepsInv(hash: Hasher, s: Shared)
    requires Inv(hash, s) && Next(hash, s, Sync).Some?
    ensures Inv(hash, Next(hash, s, Sync).value) && Grows(s.inodes, Next(hash, s, Sync).value.inodes)
  {
    hide Durable, RecAt, IndexDurable, ReadersOk, StagedOk;
    var i := Active(s);
    var inodes := s.inodes[i := s.inodes[i].(synced := |s.inodes[i].bytes|)];
    WritingGrows(hash, s, inodes, s.holder.pending);
    GrowKeepsInv(hash, s, inodes, s.holder);
  }

  /** Everything staged is durable once nothing is pending and the active file
      is synced. */
  lemma StagedDurable(hash: Hasher, s: Shared, k: nat)
    requires Inv(hash, s) && s.holder.Writing? && s.holder.pending == [] && k < |s.holder.staged|
    requires s.inodes[Active(s)].synced == |s.inodes[Active(s)].bytes|
    ensures var x := s.holder.staged[k];
            x.loc.segment < |s.files| && Durable(hash, s.inodes, s.files[x.loc.segment], x.loc, x.id)
  {
    hide RecAt, IndexDurable, ReadersOk;
    var x, n := s.holder.staged[k], s.inodes[Active(s)];
    assert StagedOk(hash, s.inodes, s.files, [], x);
    assert n.bytes + [] == n.bytes && n.bytes[..n.synced] == n.bytes;
  }

  lemma RollKeepsInv(hash: Hasher, s: Shared)
    requires Inv(hash, s) && Next(hash, s, Roll).Some?
    ensures Inv(hash, Next(hash, s, Roll).value) && Grows(s.inodes, Next(hash, s, Roll).value.inodes)
  {
    hide Durable, RecAt;
    var inodes, files := s.inodes + [Inode([], 0)], s.files + [|s.inodes|];
    assert Grows(s.inodes, inodes);
    IndexGrows(hash, s.inodes, inodes, s.files, s.index);
    ReadersGrow(hash, s.inodes, inodes, s.readers);
    forall k | 0 <= k < |s.holder.staged| ensures StagedOk(hash, inodes, files, [], s.holder.staged[k]) {
      var x := s.holder.staged[k];
      StagedDurable(hash, s, k);
      DurableGrows(hash, s.inodes, inodes, s.files[x.loc.segment], x.loc, x.id);
    }
    hide ReadersOk, Grows;
  }

  lemma {:induction false} AddAllDurable(hash: Hasher, inodes: seq<Inode>, files: seq<nat>, index: Index,
                                         staged: seq<Indexed>)
    requires IndexDurable(hash, inodes, files, index)
    requires forall k :: 0 <= k < |staged| ==>
               && staged[k].loc.segment < |files|
               && Durable(hash, inodes, files[staged[k].loc.segment], staged[k].loc, staged[k].id)
    ensures IndexDurable(hash, inodes, files, AddAll(index, staged))
    decreases |staged|
  {
    hide Durable;
    if staged != [] {
      assert Durable(hash, inodes, files[staged[0].loc.segment], staged[0].loc, staged[0].id);
      AddAllDurable(hash, inodes, files, index[staged[0].id := staged[0].loc], staged[1..]);
    }
  }

  lemma PublishKeepsInv(hash: Hasher, s: Shared)
    requires Inv(hash, s) && Next(hash, s, Publish).Some?
    ensures Inv(hash, Next(hash, s, Publish).value)
  {
    hide Durable, RecAt, StagedOk, IndexDurable, ReadersOk, AddAll;
    forall k | 0 <= k < |s.holder.staged|
      ensures s.holder.staged[k].loc.segment < |s.files|
      ensures Durable(hash, s.inodes, s.files[s.holder.staged[k].loc.segment], s.holder.staged[k].loc,
                      s.holder.staged[k].id)
    {
      StagedDurable(hash, s, k);
    }
    AddAllDurable(hash, s.inodes, s.files, s.index, s.holder.staged);
  }

  // -------------------------------------------------------- compaction steps

  lemma BeginCompactKeepsInv(hash: Hasher, s: Shared, segment: nat)
    requires Inv(hash, s) && Next(hash, s, BeginCompact(segment)).Some?
    ensures var t := Next(hash, s, BeginCompact(segment)).value; Inv(hash, t) && Grows(s.inodes, t.inodes)
  {
    hide Durable, RecAt, IndexDurable, ReadersOk;
    GrowKeepsInv(hash, s, s.inodes + [Inode([], 0)], Compacting(segment, |s.inodes|, map[]));
  }

  lemma CopyKeepsInv(hash: Hasher, s: Shared, id: BlockId)
    requires Inv(hash, s) && Next(hash, s, Copy(id)).Some?
    ensures var t := Next(hash, s, Copy(id)).value; Inv(hash, t) && Grows(s.inodes, t.inodes)
  {
    hide Record, ReadersOk, RecordLen;
    var h, loc := s.holder, s.index[id];
    var i := s.files[h.segment];
    assert Grows(s.inodes, s.inodes);
    DurableGrows(hash, s.inodes, s.inodes, i, loc, id);
    hide Durable, IndexDurable, ReadAt;
    var payload := ReadAt(s.inodes[i].bytes, loc);
    var inodes := s.inodes[h.tmp := Append(s.inodes[h.tmp], Record(id, payload))];
    var locs := h.locs[id := Location(h.segment, |s.inodes[h.tmp].bytes|, |payload|)];
    RecordLands(hash, s.inodes[h.tmp].bytes, h.segment, payload);
    forall k | k in locs ensures locs[k].segment == h.segment && RecAt(hash, inodes[h.tmp].bytes, locs[k], k) {
      if k != id { RecAtPrefix(hash, s.inodes[h.tmp].bytes, inodes[h.tmp].bytes, locs[k], k); }
    }
    GrowKeepsInv(hash, s, inodes, h.(locs := locs));
  }

  lemma SyncedIsDurable(hash: Hasher, inodes: seq<Inode>, i: nat, loc: Location, id: BlockId)
    requires i < |inodes| && inodes[i].synced == |inodes[i].bytes| && RecAt(hash, inodes[i].bytes, loc, id)
    ensures Durable(hash, inodes, i, loc, id)
  {
    hide RecAt;
    assert inodes[i].bytes[..inodes[i].synced] == inodes[i].bytes;
  }

  lemma SwapKeepsInv(hash: Hasher, s: Shared)
    requires Inv(hash, s) && Next(hash, s, Swap).Some?
    ensures Inv(hash, Next(hash, s, Swap).value) && Grows(s.inodes, Next(hash, s, Swap).value.inodes)
  {
    hide RecAt, ReadersOk, Durable;
    var h, n := s.holder, s.inodes[s.holder.tmp];
    var inodes := s.inodes[h.tmp := n.(synced := |n.bytes|)];
    IndexGrows(hash, s.inodes, inodes, s.files, s.index);
    ReadersGrow(hash, s.inodes, inodes, s.readers);
    forall id | id in h.locs ensures Durable(hash, inodes, h.tmp, h.locs[id], id) {
      SyncedIsDurable(hash, inodes, h.tmp, h.locs[id], id);
    }
  }

  // ------------------------------------------------------------------- runs

  /** One step keeps the invariant, shrinks no file, and touches no other
      reader's captured handle. */
  lemma StepKeepsInv(hash: Hasher, s: Shared, a: Action)
    requires Inv(hash, s) && Next(hash, s, a).Some?
    ensures Inv(hash, Next(hash, s, a).value) && Grows(s.inodes, Next(hash, s, a).value.inodes)
    ensures forall r :: r in s.readers && a != Finish(r) ==>
              r in Next(hash, s, a).value.readers && Next(hash, s, a).value.readers[r] == s.readers[r]
  {
    hide Durable, RecAt, StagedOk, Record;
    assert Grows(s.inodes, s.inodes);
    match a
    case Stage(p) => StageKeepsHolder(hash, s, p);
    case Land(n) => LandKeepsInv(hash, s, n);
    case Sync => SyncKeepsInv(hash, s);
    case Roll => RollKeepsInv(hash, s);
    case Publish => PublishKeepsInv(hash, s);
    case BeginCompact(segment) => BeginCompactKeepsInv(hash, s, segment);
    case Copy(id) => CopyKeepsInv(hash, s, id);
    case Swap => SwapKeepsInv(hash, s);
    case Capture(r, id) => CaptureKeepsInv(hash, s, r, id);
    case _ =>
  }

  lemma CaptureKeepsInv(hash: Hasher, s: Shared, r: nat, id: BlockId)
    requires Inv(hash, s) && Next(hash, s, Capture(r, id)).Some?
    ensures Inv(hash, Next(hash, s, Capture(r, id)).value)
  {
    hide RecAt, HolderOk, FilesOk;
  }

  lemma InitialInv(hash: Hasher)
    ensures Inv(hash, INITIAL)
  {
  }

  /** Take the steps in order; steps that cannot be taken are skipped. */
  ghost function RunFrom(hash: Hasher, s: Shared, actions: seq<Action>): (t: Shared)
    requires Inv(hash, s)
    ensures Inv(hash, t)
    decreases |actions|
  {
    hide Inv, Next;
    if actions == [] then s
    else match Next(hash, s, actions[0])
      case None => RunFrom(hash, s, actions[1..])
      case Some(t) =>
        StepKeepsInv(hash, s, actions[0]);
        RunFrom(hash, t, actions[1..])
  }

  ghost function Reached(hash: Hasher, actions: seq<Action>): (s: Shared)
    ensures Inv(hash, s)
  {
    InitialInv(hash);
    RunFrom(hash, INITIAL, actions)
  }

  /** A captured handle stays as captured until its reader is done. */
  lemma {:induction false} RunKeepsReader(hash: Hasher, s: Shared, actions: seq<Action>, r: nat)
    requires Inv(hash, s) && r in s.readers && forall i :: 0 <= i < |actions| ==> actions[i] != Finish(r)
    ensures r in RunFrom(hash, s, actions).readers && RunFrom(hash, s, actions).readers[r] == s.readers[r]
    decreases |actions|
  {
    hide Inv, Next;
    if actions != [] {
      match Next(hash, s, actions[0])
      case None => RunKeepsReader(hash, s, actions[1..], r);
      case Some(t) =>
        StepKeepsInv(hash, s, actions[0]);
        RunKeepsReader(hash, t, actions[1..], r);
    }
  }

  /** In every interleaving, a reader that captured a location and a handle
      reads, however much later, exactly the payload it would have read at
      once: it lies in the synced part of the handle's file and hashes to the
      id. Everything published is durable at every moment. */
  lemma {:induction false} ReadersSeeTheirBlock(hash: Hasher, before: seq<Action>, r: nat, id: BlockId,
                                                after: seq<Action>)
    requires id in Reached(hash, before).index && r !in Reached(hash, before).readers
    requires forall i :: 0 <= i < |after| ==> after[i] != Finish(r)
    ensures var s := Reached(hash, before);
            var c := Next(hash, s, Capture(r, id));
            && c.Some? && Inv(hash, c.value) && r in c.value.readers
            && var x, t := c.value.readers[r], RunFrom(hash, c.value, after);
               && x.id == id && hash(x.want) == id
               && ReaderOk(hash, t.inodes, x)
               && IndexDurable(hash, t.inodes, t.files, t.index)
  {
    hide Durable, RunFrom, HolderOk;
    var s := Reached(hash, before);
    var c := Next(hash, s, Capture(r, id));
    StepKeepsInv(hash, s, Capture(r, id));
    RunKeepsReader(hash, c.value, after, r);
    var x, t := c.value.readers[r], RunFrom(hash, c.value, after);
    assert ReaderOk(hash, t.inodes, t.readers[r]);
    assert Grows(t.inodes, t.inodes);
    DurableGrows(hash, t.inodes, t.inodes, x.inode, x.loc, x.id);
  }
}
