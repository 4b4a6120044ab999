/** Any history of puts, batches, reads, reopens and compactions agrees, exactly,
    with a plain map from block ids to payloads and the segment of each block. */
module StoreHistory {
  import opened Core
  import opened Segment
  import opened StoreLayout
  import opened ColdStore

  datatype Op =
    | PutMany(payloads: seq<Bytes>)
    | Get(id: BlockId)
    | Reopen
    | Compact(keep: set<BlockId>)

  datatype Reply =
    | Stored(ids: seq<BlockId>)
    | Read(result: Result<Bytes, StoreError>)
    | Reopened
    | Dropped(count: nat)

  datatype Oracle = Oracle(stored: Contents, place: Placement)

  const EMPTY := Oracle(map[], Placement(map[], 1, 0))

  /** What a sweep takes: the blocks of sealed segments not asked to be kept. */
  function Swept(o: Oracle, keep: set<BlockId>): (ids: set<BlockId>)
  {
    set id | id in o.stored && id in o.place.at && o.place.at[id] < o.place.segments - 1 && id !in keep
  }

  function OracleStep(hash: Hasher, roll: nat, o: Oracle, op: Op): (r: Oracle)
  {
    match op
    case PutMany(ps) => Oracle(PutAll(hash, o.stored, ps), PlaceAll(hash, roll, o.place, ps))
    case Compact(keep) => Oracle(o.stored - Swept(o, keep), o.place.(at := o.place.at - Swept(o, keep)))
    case _ => o
  }

  function OracleRun(hash: Hasher, roll: nat, ops: seq<Op>): (o: Oracle)
  {
    if ops == [] then EMPTY else OracleStep(hash, roll, OracleRun(hash, roll, ops[..|ops| - 1]), ops[|ops| - 1])
  }

  /** The store serves exactly the map, each block in the segment it says. */
  ghost predicate Agrees(store: BlockStore, o: Oracle)
    reads store
    requires store.Valid()
  {
    store.Served() == o.stored && store.Places() == o.place
  }

  /** The reply the map gives: the hash of each payload in order, the payload or
      nothing, the number of blocks a sweep takes. */
  function Answer(hash: Hasher, op: Op, o: Oracle): (r: Reply)
  {
    match op
    case PutMany(ps) => Stored(Ids(hash, ps))
    case Get(id) => Read(if id in o.stored then Ok(o.stored[id]) else Err(BlockNotFound(id)))
    case Reopen => Reopened
    case Compact(keep) => Dropped(|Swept(o, keep)|)
  }

  ghost predicate Storable(op: Op)
  {
    op.PutMany? ==> forall k :: 0 <= k < |op.payloads| ==> RecordLen(|op.payloads[k]|) <= U64_MAX
  }

  lemma SweepAgrees(o: Oracle, keep: set<BlockId>, live: BlockId -> bool, before: Index, after: Index)
    requires o.place.segments > 0 && o.stored.Keys == before.Keys && Segments(before) == o.place.at
    requires SameSegments(before, after) && forall id :: live(id) <==> id in keep
    requires after.Keys == Restrict(o.stored, before.Keys - Doomed(before, 0, o.place.segments - 1, live)).Keys
    ensures Restrict(o.stored, before.Keys - Doomed(before, 0, o.place.segments - 1, live)) == o.stored - Swept(o, keep)
    ensures Segments(after) == o.place.at - Swept(o, keep)
    ensures Doomed(before, 0, o.place.segments - 1, live) == Swept(o, keep)
  {
  }

  method Perform(store: BlockStore, op: Op, ghost o: Oracle) returns (reply: Reply)
    requires store.Valid() && !store.writeFailed && Agrees(store, o) && Storable(op)
    modifies store
    ensures store.Valid() && !store.writeFailed && Agrees(store, OracleStep(store.hash, store.rollBytes, o, op))
    ensures reply == Answer(store.hash, op, o)
  {
    hide BlockStore.Valid, Restrict, Doomed, PutAll, PlaceAll, Swept, SameSegments, BlockStore.Served;
    match op
    case PutMany(ps) =>
      var r, _ := store.PutMany(ps, None);
      reply := Stored(r.value);
    case Get(id) =>
      var r := store.Get(id);
      reply := Read(r);
    case Reopen =>
      store.Reopen();
      reply := Reopened;
    case Compact(keep) =>
      store.Healthy();
      store.DiskNotEmpty();
      ghost var before := store.index;
      var live := (id: BlockId) => id in keep;
      var dropped := store.Compact(live);
      store.Healthy();
      SweepAgrees(o, keep, live, before, store.index);
      reply := Dropped(dropped);
  }

  /** The whole-history theorem: from an empty directory, every reply along the
      way is the map's, and the store serves exactly the map, block by block in
      its segment, from the index a scan would rebuild. */
  method RunHistory(hash: Hasher, rollBytes: U64, ops: seq<Op>)
    returns (store: BlockStore, replies: seq<Reply>)
    requires forall i :: 0 <= i < |ops| ==> Storable(ops[i])
    ensures fresh(store) && store.Valid() && !store.writeFailed && store.hash == hash
    ensures Agrees(store, OracleRun(hash, rollBytes, ops))
    ensures |replies| == |ops|
    ensures forall i :: 0 <= i < |ops| ==> replies[i] == Answer(hash, ops[i], OracleRun(hash, rollBytes, ops[..i]))
    ensures Rebuild(store.disk, |store.disk|) == store.index
  {
    hide Answer, Storable, Rebuild, OracleStep, BlockStore.Valid;
    store := new BlockStore(hash, rollBytes);
    replies := [];
    for i := 0 to |ops|
      invariant fresh(store) && store.hash == hash && store.rollBytes == rollBytes
      invariant store.Valid() && !store.writeFailed && |replies| == i
      invariant Agrees(store, OracleRun(hash, rollBytes, ops[..i]))
      invariant forall j :: 0 <= j < i ==> replies[j] == Answer(hash, ops[j], OracleRun(hash, rollBytes, ops[..j]))
    {
      assert ops[..i + 1][..i] == ops[..i];
      var reply := Perform(store, ops[i], OracleRun(hash, rollBytes, ops[..i]));
      replies := replies + [reply];
    }
    assert ops[..|ops|] == ops;
    store.IndexIsRebuilt();
  }

  // ----------------------------------------------------- what the map remembers

  /** `p` is among the payloads of `ops`. */
  ghost predicate WasPut(ops: seq<Op>, p: Bytes)
  {
    exists i, k :: 0 <= i < |ops| && ops[i].PutMany? && 0 <= k < |ops[i].payloads| && ops[i].payloads[k] == p
  }

  lemma {:induction false} PutAllFrom(hash: Hasher, m: Contents, ps: seq<Bytes>, id: BlockId)
    ensures id in PutAll(hash, m, ps) ==>
              || (id in m && PutAll(hash, m, ps)[id] == m[id])
              || exists k :: 0 <= k < |ps| && hash(ps[k]) == id && PutAll(hash, m, ps)[id] == ps[k]
    decreases |ps|
  {
    if ps != [] {
      PutAllFrom(hash, PutOne(hash, m, ps[0]), ps[1..], id);
      assert forall k :: 0 <= k < |ps[1..]| ==> ps[1..][k] == ps[k + 1];
    }
  }

  /** Every remembered payload was put, and is remembered under its own hash. */
  lemma {:induction false} StoredWasPut(hash: Hasher, roll: nat, ops: seq<Op>, id: BlockId)
    requires id in OracleRun(hash, roll, ops).stored
    ensures var p := OracleRun(hash, roll, ops).stored[id]; hash(p) == id && WasPut(ops, p)
    decreases |ops|
  {
    hide PutAll, PlaceAll, Swept;
    if ops != [] {
      var n := |ops| - 1;
      var o := OracleRun(hash, roll, ops[..n]);
      if ops[n].PutMany? { PutAllFrom(hash, o.stored, ops[n].payloads, id); }
      if id in o.stored && o.stored[id] == OracleRun(hash, roll, ops).stored[id] {
        StoredWasPut(hash, roll, ops[..n], id);
        assert forall i :: 0 <= i < n ==> ops[..n][i] == ops[i];
      }
    }
  }

  /** With no two of the payloads put sharing a hash, a block read back is byte
      for byte the one put. */
  lemma ReadsWhatWasPut(hash: Hasher, roll: nat, ops: seq<Op>, p: Bytes)
    requires WasPut(ops, p) && forall q :: WasPut(ops, q) && hash(q) == hash(p) ==> q == p
    requires hash(p) in OracleRun(hash, roll, ops).stored
    ensures OracleRun(hash, roll, ops).stored[hash(p)] == p
  {
    hide OracleRun;
    StoredWasPut(hash, roll, ops, hash(p));
  }
}
