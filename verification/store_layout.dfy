/** How the in-memory index of the block store relates to the records on disk,
    and why a scan of the segment files rebuilds it. */
module StoreLayout {
  import opened Core
  import opened Encoding
  import opened MapSums
  import opened Segment

  type Index = map<BlockId, Location>

  type Contents = map<BlockId, Bytes>

  ghost predicate MapLe<K, V>(a: map<K, V>, b: map<K, V>)
  {
    forall k :: k in a ==> k in b && b[k] == a[k]
  }

  function OffsetOf(rs: seq<Rec>, k: nat): (n: nat)
    requires k <= |rs|
  {
    |Encode(rs[..k])|
  }

  /** Index and contents both know record `r`, at `loc`. */
  ghost predicate Placed(index: Index, model: Contents, r: Rec, loc: Location)
  {
    r.id in index && index[r.id] == loc && r.id in model && model[r.id] == r.payload
  }

  ghost predicate SegPlaced(index: Index, model: Contents, rs: seq<Rec>, segment: nat)
  {
    forall k :: 0 <= k < |rs| ==>
      Placed(index, model, rs[k], Location(segment, OffsetOf(rs, k), |rs[k].payload|))
  }

  ghost predicate Names(rs: seq<Rec>, id: BlockId)
  {
    exists k :: 0 <= k < |rs| && rs[k].id == id
  }

  /** Every record is indexed at its place, nothing else is indexed, and the
      contents are the records' payloads. Two records cannot share an id. */
  ghost predicate Holds(index: Index, model: Contents, recs: seq<seq<Rec>>)
  {
    && index.Keys == model.Keys
    && (forall i :: 0 <= i < |recs| ==> SegPlaced(index, model, recs[i], i))
    && (forall id :: id in index ==> index[id].segment < |recs| && Names(recs[index[id].segment], id))
  }

  // ---------------------------------------------------------------- offsets

  lemma OffsetStep(rs: seq<Rec>, k: nat)
    requires k < |rs|
    ensures OffsetOf(rs, k + 1) == OffsetOf(rs, k) + RecordLen(|rs[k].payload|)
  {
    hide Record;
    assert rs[..k + 1][..k] == rs[..k];
    EncodeSplit(rs[..k + 1], k);
    assert rs[..k + 1][k..] == [rs[k]];
    assert Encode([rs[k]]) == Record(rs[k].id, rs[k].payload) + Encode([]);
  }

  lemma {:induction false} OffsetMonotone(rs: seq<Rec>, j: nat, k: nat)
    requires j < k <= |rs|
    ensures OffsetOf(rs, j) + RecordLen(|rs[j].payload|) <= OffsetOf(rs, k)
    decreases k - j
  {
    hide OffsetOf;
    OffsetStep(rs, j);
    if j + 1 < k { OffsetMonotone(rs, j + 1, k); }
  }

  lemma OffsetAppend(rs: seq<Rec>, more: seq<Rec>, k: nat)
    requires k <= |rs|
    ensures OffsetOf(rs + more, k) == OffsetOf(rs, k)
  {
    assert (rs + more)[..k] == rs[..k];
  }

  lemma OffsetAll(rs: seq<Rec>)
    ensures OffsetOf(rs, |rs|) == |Encode(rs)|
  {
    assert rs[..|rs|] == rs;
  }

  /** Where a record lies inside its segment, and what is read back there. */
  lemma RecordInPlace(rs: seq<Rec>, k: nat)
    requires k < |rs|
    ensures OffsetOf(rs, k) + RecordLen(|rs[k].payload|) <= |Encode(rs)|
    ensures Encode(rs)[OffsetOf(rs, k)..OffsetOf(rs, k) + RecordLen(|rs[k].payload|)] == Record(rs[k].id, rs[k].payload)
  {
    hide Record;
    EncodeSplit(rs, k);
    assert rs[k..][0] == rs[k];
  }

  function ReadAt(file: Bytes, loc: Location): (payload: Bytes)
    requires loc.offset + HEADER_LEN + loc.payloadLen <= |file|
  {
    file[loc.offset + HEADER_LEN..loc.offset + HEADER_LEN + loc.payloadLen]
  }

  lemma RecordPayload(id: BlockId, payload: Bytes)
    ensures Record(id, payload)[HEADER_LEN..HEADER_LEN + |payload|] == payload
  {
    var h, z := Header(id, |payload|), Zeros(RecordLen(|payload|) - HEADER_LEN - |payload|);
    assert Record(id, payload) == h + payload + z;
    assert |h| == HEADER_LEN;
    assert (h + payload + z)[|h|..|h| + |payload|] == payload;
  }

  lemma ReadBack(file: Bytes, r: Rec, loc: Location)
    requires loc.payloadLen == |r.payload| && loc.offset + RecordLen(|r.payload|) <= |file|
    requires file[loc.offset..loc.offset + RecordLen(|r.payload|)] == Record(r.id, r.payload)
    ensures ReadAt(file, loc) == r.payload
  {
    hide Record;
    RecordPayload(r.id, r.payload);
    SliceOfSlice(file, loc.offset, loc.offset + RecordLen(|r.payload|), HEADER_LEN, HEADER_LEN + |r.payload|);
  }

  // ---------------------------------------------------------------- changes

  lemma SegPlacedGrows(index: Index, index': Index, model: Contents, model': Contents, rs: seq<Rec>, segment: nat)
    requires SegPlaced(index, model, rs, segment) && MapLe(index, index') && MapLe(model, model')
    ensures SegPlaced(index', model', rs, segment)
  {
    hide OffsetOf;
    forall k | 0 <= k < |rs|
      ensures Placed(index', model', rs[k], Location(segment, OffsetOf(rs, k), |rs[k].payload|))
    {
      assert Placed(index, model, rs[k], Location(segment, OffsetOf(rs, k), |rs[k].payload|));
    }
  }

  function AppendTo(recs: seq<seq<Rec>>, segment: nat, r: Rec): (out: seq<seq<Rec>>)
    requires segment < |recs|
  {
    recs[segment := recs[segment] + [r]]
  }

  lemma SegPlacedAppend(index: Index, model: Contents, rs: seq<Rec>, r: Rec, segment: nat)
    requires SegPlaced(index, model, rs, segment) && r.id !in index && r.id !in model
    ensures SegPlaced(index[r.id := Location(segment, |Encode(rs)|, |r.payload|)], model[r.id := r.payload], rs + [r],
                      segment)
  {
    var loc := Location(segment, |Encode(rs)|, |r.payload|);
    SegPlacedGrows(index, index[r.id := loc], model, model[r.id := r.payload], rs, segment);
    OffsetAppend(rs, [r], |rs|);
    OffsetAll(rs);
    forall k | 0 <= k < |rs| ensures OffsetOf(rs + [r], k) == OffsetOf(rs, k) && (rs + [r])[k] == rs[k] {
      OffsetAppend(rs, [r], k);
    }
    hide OffsetOf, Encode;
    forall k | 0 <= k < |rs + [r]|
      ensures Placed(index[r.id := loc], model[r.id := r.payload], (rs + [r])[k],
                     Location(segment, OffsetOf(rs + [r], k), |(rs + [r])[k].payload|))
    {
      if k < |rs| {
        assert Placed(index[r.id := loc], model[r.id := r.payload], rs[k],
                      Location(segment, OffsetOf(rs, k), |rs[k].payload|));
      }
    }
  }

  lemma NamesGrows(rs: seq<Rec>, r: Rec)
    ensures forall id :: Names(rs, id) ==> Names(rs + [r], id)
    ensures Names(rs + [r], r.id)
  {
    forall id | Names(rs, id) ensures Names(rs + [r], id) {
      var k :| 0 <= k < |rs| && rs[k].id == id;
      assert (rs + [r])[k].id == id;
    }
    assert (rs + [r])[|rs|].id == r.id;
  }

  /** Appending a record with a new id at the end of a segment. */
  lemma HoldsAppend(index: Index, model: Contents, recs: seq<seq<Rec>>, segment: nat, r: Rec)
    requires Holds(index, model, recs) && segment < |recs| && r.id !in index
    ensures Holds(index[r.id := Location(segment, |Encode(recs[segment])|, |r.payload|)],
                  model[r.id := r.payload], AppendTo(recs, segment, r))
  {
    hide Encode, Names, SegPlaced, Placed;
    var index' := index[r.id := Location(segment, |Encode(recs[segment])|, |r.payload|)];
    var model' := model[r.id := r.payload];
    SegPlacedAppend(index, model, recs[segment], r, segment);
    NamesGrows(recs[segment], r);
    assert MapLe(index, index') && MapLe(model, model');
    hide MapLe;
    forall i | 0 <= i < |recs| ensures SegPlaced(index', model', AppendTo(recs, segment, r)[i], i) {
      if i != segment { SegPlacedGrows(index, index', model, model', recs[i], i); }
    }
  }

  lemma HoldsRoll(index: Index, model: Contents, recs: seq<seq<Rec>>)
    requires Holds(index, model, recs)
    ensures Holds(index, model, recs + [[]])
  {
    hide Names;
    assert SegPlaced(index, model, [], |recs|);
    hide SegPlaced;
  }

  /** Every segment holds exactly its records, the last one perhaps only the
      first part of them. */
  ghost predicate OnDisk(disk: seq<Bytes>, recs: seq<seq<Rec>>)
  {
    && |disk| == |recs| > 0
    && (forall i :: 0 <= i < |recs| - 1 ==> disk[i] == Encode(recs[i]))
    && disk[|disk| - 1] <= Encode(recs[|disk| - 1])
    && (forall i :: 0 <= i < |recs| ==> |Encode(recs[i])| <= U64_MAX)
  }

  ghost predicate Intact(disk: seq<Bytes>, recs: seq<seq<Rec>>)
  {
    OnDisk(disk, recs) && disk[|disk| - 1] == Encode(recs[|disk| - 1])
  }

  // ------------------------------------------------------- a batch in flight

  /** Every record's id is the hash of its payload. */
  ghost predicate HashesOk(hash: Hasher, recs: seq<seq<Rec>>)
  {
    forall i, k :: 0 <= i < |recs| && 0 <= k < |recs[i]| ==> hash(recs[i][k].payload) == recs[i][k].id
  }

  /** Once `pending` is appended to the last segment, the disk holds `recs`. */
  ghost predicate Holding(disk: seq<Bytes>, recs: seq<seq<Rec>>, pending: Bytes)
  {
    && |disk| == |recs| > 0
    && (forall i :: 0 <= i < |recs| - 1 ==> disk[i] == Encode(recs[i]))
    && disk[|disk| - 1] + pending == Encode(recs[|disk| - 1])
    && (forall i :: 0 <= i < |recs| ==> |Encode(recs[i])| <= U64_MAX)
  }

  ghost predicate InFlight(
    hash: Hasher, disk: seq<Bytes>, recs: seq<seq<Rec>>, pending: Bytes, index: Index, model: Contents)
  {
    Holding(disk, recs, pending) && HashesOk(hash, recs) && Holds(index, model, recs)
  }

  function GrowLast(disk: seq<Bytes>, more: Bytes): (r: seq<Bytes>)
    requires disk != []
  {
    disk[|disk| - 1 := disk[|disk| - 1] + more]
  }

  lemma EncodeAppend(rs: seq<Rec>, r: Rec)
    ensures Encode(rs + [r]) == Encode(rs) + Record(r.id, r.payload)
  {
    hide Record;
    EncodeSplit(rs + [r], |rs|);
    assert (rs + [r])[..|rs|] == rs && (rs + [r])[|rs|..] == [r];
    assert Encode([r]) == Record(r.id, r.payload) + Encode([]);
  }

  lemma HashesAppend(hash: Hasher, recs: seq<seq<Rec>>, segment: nat, r: Rec)
    requires HashesOk(hash, recs) && segment < |recs| && hash(r.payload) == r.id
    ensures HashesOk(hash, AppendTo(recs, segment, r))
  {
  }

  lemma PlusPlus(a: Bytes, b: Bytes, c: Bytes)
    ensures a + (b + c) == (a + b) + c
  {
  }

  lemma HoldingAppend(disk: seq<Bytes>, recs: seq<seq<Rec>>, pending: Bytes, r: Rec)
    requires Holding(disk, recs, pending)
    requires |disk[|disk| - 1] + pending| + RecordLen(|r.payload|) <= U64_MAX
    ensures Holding(disk, AppendTo(recs, |recs| - 1, r), pending + Record(r.id, r.payload))
  {
    hide Encode, Record;
    var last := |recs| - 1;
    EncodeAppend(recs[last], r);
    PlusPlus(disk[last], pending, Record(r.id, r.payload));
  }

  lemma FlightAppend(
    hash: Hasher, disk: seq<Bytes>, recs: seq<seq<Rec>>, pending: Bytes, index: Index, model: Contents, r: Rec)
    requires InFlight(hash, disk, recs, pending, index, model)
    requires r.id !in index && hash(r.payload) == r.id
    requires |disk[|disk| - 1] + pending| + RecordLen(|r.payload|) <= U64_MAX
    ensures InFlight(hash, disk, AppendTo(recs, |recs| - 1, r), pending + Record(r.id, r.payload),
                     index[r.id := Location(|disk| - 1, |disk[|disk| - 1] + pending|, |r.payload|)],
                     model[r.id := r.payload])
  {
    hide Holds, HashesOk, Encode, Record;
    HoldsAppend(index, model, recs, |recs| - 1, r);
    HashesAppend(hash, recs, |recs| - 1, r);
    HoldingAppend(disk, recs, pending, r);
    assert disk[|disk| - 1] + pending == Encode(recs[|recs| - 1]);
    hide Holding;
  }

  lemma FlightKeys(
    hash: Hasher, disk: seq<Bytes>, recs: seq<seq<Rec>>, pending: Bytes, index: Index, model: Contents)
    requires InFlight(hash, disk, recs, pending, index, model)
    ensures index.Keys == model.Keys
  {
  }

  lemma FlightFlush(
    hash: Hasher, disk: seq<Bytes>, recs: seq<seq<Rec>>, pending: Bytes, index: Index, model: Contents)
    requires InFlight(hash, disk, recs, pending, index, model)
    ensures InFlight(hash, GrowLast(disk, pending), recs, [], index, model)
  {
    hide Holds, HashesOk, Encode;
    assert disk[|disk| - 1] + pending + [] == disk[|disk| - 1] + pending;
  }

  lemma FlightRoll(hash: Hasher, disk: seq<Bytes>, recs: seq<seq<Rec>>, index: Index, model: Contents)
    requires InFlight(hash, disk, recs, [], index, model)
    ensures InFlight(hash, disk + [[]], recs + [[]], [], index, model)
  {
    hide Holds;
    HoldsRoll(index, model, recs);
    assert Encode([]) == [];
    hide Encode;
    assert disk[|disk| - 1] + [] == disk[|disk| - 1];
  }

  /** Every indexed record lies inside its segment file. */
  ghost predicate Reaches(index: Index, disk: seq<Bytes>)
  {
    forall id :: id in index ==>
      index[id].segment < |disk| && index[id].offset + RecordLen(index[id].payloadLen) <= |disk[index[id].segment]|
  }

  lemma FlightReaches(hash: Hasher, disk: seq<Bytes>, recs: seq<seq<Rec>>, index: Index, model: Contents)
    requires InFlight(hash, disk, recs, [], index, model)
    ensures Reaches(index, disk)
  {
    hide Encode, HashesOk, RecordLen;
    assert disk[|disk| - 1] + [] == disk[|disk| - 1];
    forall id | id in index
      ensures index[id].segment < |disk|
      ensures index[id].offset + RecordLen(index[id].payloadLen) <= |disk[index[id].segment]|
    {
      var i := index[id].segment;
      assert Names(recs[i], id);
      var k :| 0 <= k < |recs[i]| && recs[i][k].id == id;
      assert SegPlaced(index, model, recs[i], i);
      assert Placed(index, model, recs[i][k], Location(i, OffsetOf(recs[i], k), |recs[i][k].payload|));
      RecordInPlace(recs[i], k);
      assert disk[i] == Encode(recs[i]);
    }
  }

  /** A failed flush leaves the disk with a part of the active segment. */
  lemma FlightTorn(
    hash: Hasher, disk: seq<Bytes>, recs: seq<seq<Rec>>, pending: Bytes, index: Index, model: Contents, landed: nat)
    requires InFlight(hash, disk, recs, pending, index, model) && landed <= |pending|
    ensures OnDisk(GrowLast(disk, pending[..landed]), recs)
  {
    hide Holds, HashesOk, Encode;
    assert pending == pending[..landed] + pending[landed..];
    assert disk[|disk| - 1] + pending == disk[|disk| - 1] + pending[..landed] + pending[landed..];
  }

  lemma FlightIntact(hash: Hasher, disk: seq<Bytes>, recs: seq<seq<Rec>>, index: Index, model: Contents)
    ensures InFlight(hash, disk, recs, [], index, model)
            <==> Intact(disk, recs) && HashesOk(hash, recs) && Holds(index, model, recs)
  {
    hide Holds, HashesOk, Encode;
    if disk != [] { assert disk[|disk| - 1] + [] == disk[|disk| - 1]; }
  }

  // -------------------------------------------------------------- compaction

  /** The part of an index outside one segment. */
  function Outside(index: Index, segment: nat): (r: Index)
  {
    map id | id in index && index[id].segment != segment :: index[id]
  }

  function Select(index: Index, model: Contents): (m: Contents)
  {
    map id | id in index && id in model :: model[id]
  }

  lemma SelectStable(index: Index, m: Contents, m': Contents)
    requires MapLe(m, m') && index.Keys <= m.Keys
    ensures Select(index, m) == Select(index, m')
  {
  }

  lemma SelectNarrow(index: Index, full: Index, model: Contents)
    requires MapLe(index, full)
    ensures Select(index, Select(full, model)) == Select(index, model)
  {
  }

  lemma ClearSegment(index: Index, model: Contents, recs: seq<seq<Rec>>, segment: nat, i: nat)
    requires i < |recs| && i != segment && SegPlaced(index, model, recs[i], i)
    ensures SegPlaced(Outside(index, segment), Select(Outside(index, segment), model), recs[i], i)
  {
    hide OffsetOf;
    var rs := recs[i];
    forall k | 0 <= k < |rs|
      ensures Placed(Outside(index, segment), Select(Outside(index, segment), model), rs[k],
                     Location(i, OffsetOf(rs, k), |rs[k].payload|))
    {
      assert Placed(index, model, rs[k], Location(i, OffsetOf(rs, k), |rs[k].payload|));
    }
  }

  /** Emptying one segment, before its live records are written back. */
  lemma HoldsClear(index: Index, model: Contents, recs: seq<seq<Rec>>, segment: nat)
    requires Holds(index, model, recs) && segment < |recs|
    ensures Holds(Outside(index, segment), Select(Outside(index, segment), model), recs[segment := []])
  {
    hide Names, SegPlaced;
    var index' := Outside(index, segment);
    var model' := Select(index', model);
    assert SegPlaced(index', model', [], segment) by { EmptySegPlaced(index', model', segment); }
    var recs' := recs[segment := []];
    forall i | 0 <= i < |recs'| ensures SegPlaced(index', model', recs'[i], i) {
      if i != segment { ClearSegment(index, model, recs, segment, i); }
    }
  }

  lemma EmptySegPlaced(index: Index, model: Contents, segment: nat)
    ensures SegPlaced(index, model, [], segment)
  {
  }

  function Space(model: Contents, ids: set<BlockId>): (w: map<BlockId, nat>)
    requires ids <= model.Keys
  {
    map id | id in ids :: RecordLen(|model[id]|)
  }

  /** Distinct records of a segment never need more room than the segment. */
  lemma {:induction false} SpaceBound(model: Contents, rs: seq<Rec>, ids: set<BlockId>)
    requires ids <= model.Keys && forall id :: id in ids ==> Names(rs, id)
    requires forall k :: 0 <= k < |rs| ==> rs[k].id in model && model[rs[k].id] == rs[k].payload
    ensures Total(Space(model, ids)) <= |Encode(rs)|
    decreases |rs|
  {
    hide Record, RecordLen;
    if rs == [] {
      assert ids == {};
      assert Space(model, ids) == map[];
    } else {
      var n := |rs| - 1;
      var first, r := rs[..n], rs[n];
      assert rs == first + [r];
      EncodeAppend(first, r);
      forall id | id in ids - {r.id} ensures Names(first, id) {
        var k :| 0 <= k < |rs| && rs[k].id == id;
        assert first[k].id == id;
      }
      SpaceBound(model, first, ids - {r.id});
      assert Space(model, ids - {r.id}) == Space(model, ids) - {r.id};
      TotalRemove(Space(model, ids), r.id);
    }
  }

  /** Records of sealed segments lie inside their files. */
  lemma SealedReach(disk: seq<Bytes>, recs: seq<seq<Rec>>, full: Index, model: Contents, id: BlockId)
    requires OnDisk(disk, recs) && Holds(full, model, recs) && id in full && full[id].segment < |disk| - 1
    ensures full[id].offset + RecordLen(full[id].payloadLen) <= |disk[full[id].segment]|
  {
    hide Holds, Encode, RecordLen;
    var k := PlaceOf(full, model, recs, id);
    RecordInPlace(recs[full[id].segment], k);
  }

  /** Index entries of a segment that is being replaced. */
  ghost predicate Replaces(index: Index, segment: nat, drop: set<BlockId>, locs: Index)
  {
    && drop !! locs.Keys
    && (forall id :: id in index && index[id].segment == segment <==> id in drop || id in locs)
    && (forall id :: id in locs ==> locs[id].segment == segment)
  }

  lemma SwapIndex(index: Index, full: Index, segment: nat, drop: set<BlockId>, locs: Index)
    requires MapLe(index, full) && Replaces(index, segment, drop, locs)
    ensures MapLe(index - drop + locs, Outside(full, segment) + locs)
    ensures index == full ==> index - drop + locs == Outside(full, segment) + locs
    ensures (index - drop + locs).Keys == index.Keys - drop
    ensures forall id :: id in index - drop + locs ==> (index - drop + locs)[id].segment == index[id].segment
  {
  }

  lemma SwapDisk(disk: seq<Bytes>, recs: seq<seq<Rec>>, segment: nat, kept: seq<Rec>)
    requires OnDisk(disk, recs) && segment < |disk| - 1 && |Encode(kept)| <= U64_MAX
    ensures OnDisk(disk[segment := Encode(kept)], recs[segment := kept])
    ensures Holding(disk, recs, []) ==> Holding(disk[segment := Encode(kept)], recs[segment := kept], [])
  {
    hide Encode;
  }

  lemma SwapReaches(disk: seq<Bytes>, recs: seq<seq<Rec>>, index: Index, full: Index, model: Contents,
                    segment: nat, file: Bytes, drop: set<BlockId>, locs: Index)
    requires OnDisk(disk, recs) && segment < |disk| - 1 && disk[segment] == file
    requires Replaces(index, segment, drop, locs) && MapLe(index - drop + locs, full) && Holds(full, model, recs)
    requires forall id :: id in index && index[id].segment != segment ==>
               && index[id].segment < |disk|
               && index[id].offset + RecordLen(index[id].payloadLen) <= |disk[index[id].segment]|
    ensures Reaches(index - drop + locs, disk)
  {
    hide Holds, OnDisk, RecordLen;
    forall id | id in locs ensures locs[id].offset + RecordLen(locs[id].payloadLen) <= |disk[segment]| {
      SealedReach(disk, recs, full, model, id);
    }
  }

  // ------------------------------------------------------------ recovery scan

  function AddAll(index: Index, found: seq<Indexed>): (r: Index)
    decreases |found|
  {
    if found == [] then index else AddAll(index[found[0].id := found[0].loc], found[1..])
  }

  /** The index after scanning segments 0 to n-1 in order. */
  function Rebuild(disk: seq<Bytes>, n: nat): (index: Index)
    requires n <= |disk|
  {
    if n == 0 then map[] else AddAll(Rebuild(disk, n - 1), ScanFrom(disk[n - 1], n - 1, 0).found)
  }

  /** The part of an index that lies before a point of the disk. */
  function Before(index: Index, segment: nat, offset: nat): (r: Index)
  {
    map id | id in index && (index[id].segment < segment || (index[id].segment == segment && index[id].offset < offset))
      :: index[id]
  }

  lemma BeforeStep(index: Index, model: Contents, recs: seq<seq<Rec>>, segment: nat, k: nat)
    requires Holds(index, model, recs) && segment < |recs| && k < |recs[segment]|
    ensures var rs := recs[segment];
            Before(index, segment, OffsetOf(rs, k + 1))
            == Before(index, segment, OffsetOf(rs, k))[rs[k].id := Location(segment, OffsetOf(rs, k), |rs[k].payload|)]
  {
    hide Encode, RecordLen;
    var rs := recs[segment];
    assert SegPlaced(index, model, rs, segment);
    assert Placed(index, model, rs[k], Location(segment, OffsetOf(rs, k), |rs[k].payload|));
    OffsetStep(rs, k);
    forall id | id in index && index[id].segment == segment && OffsetOf(rs, k) <= index[id].offset < OffsetOf(rs, k + 1)
      ensures id == rs[k].id
    {
      assert Names(rs, id);
      var j :| 0 <= j < |rs| && rs[j].id == id;
      assert Placed(index, model, rs[j], Location(segment, OffsetOf(rs, j), |rs[j].payload|));
      if j < k { OffsetMonotone(rs, j, k); }
      if k < j { OffsetMonotone(rs, k, j); }
    }
  }

  lemma {:induction false} LayoutAppend(rs: seq<Rec>, r: Rec, segment: nat, offset: nat)
    ensures Layout(rs + [r], segment, offset)
         == Layout(rs, segment, offset) + [Indexed(r.id, Location(segment, offset + |Encode(rs)|, |r.payload|))]
    decreases |rs|
  {
    hide Record, RecordLen;
    var x := Indexed(r.id, Location(segment, offset + |Encode(rs)|, |r.payload|));
    if rs == [] {
      assert [r][1..] == [];
      assert Layout([r], segment, offset) == [x] + Layout([], segment, offset + RecordLen(|r.payload|));
      assert rs + [r] == [r];
    } else {
      var next := offset + RecordLen(|rs[0].payload|);
      var first := [Indexed(rs[0].id, Location(segment, offset, |rs[0].payload|))];
      assert (rs + [r])[1..] == rs[1..] + [r];
      LayoutAppend(rs[1..], r, segment, next);
      assert Layout(rs + [r], segment, offset) == first + (Layout(rs[1..], segment, next) + [x]);
      assert Layout(rs, segment, offset) == first + Layout(rs[1..], segment, next);
    }
  }

  lemma {:induction false} AddAllAppend(index: Index, found: seq<Indexed>, x: Indexed)
    ensures AddAll(index, found + [x]) == AddAll(index, found)[x.id := x.loc]
    decreases |found|
  {
    if found == [] {
      assert [x][1..] == [];
    } else {
      assert (found + [x])[1..] == found[1..] + [x];
      AddAllAppend(index[found[0].id := found[0].loc], found[1..], x);
    }
  }

  /** Scanning the first `k` records of a segment inserts exactly its part up
      to their end. */
  lemma {:induction false} AddSegment(index: Index, model: Contents, recs: seq<seq<Rec>>, segment: nat, k: nat)
    requires Holds(index, model, recs) && segment < |recs| && k <= |recs[segment]|
    ensures var rs := recs[segment];
            AddAll(Before(index, segment, 0), Layout(rs[..k], segment, 0)) == Before(index, segment, OffsetOf(rs, k))
    decreases k
  {
    hide Holds, Before, RecordLen, Record;
    var rs := recs[segment];
    if k > 0 {
      AddSegment(index, model, recs, segment, k - 1);
      BeforeStep(index, model, recs, segment, k - 1);
      assert rs[..k] == rs[..k - 1] + [rs[k - 1]];
      LayoutAppend(rs[..k - 1], rs[k - 1], segment, 0);
      AddAllAppend(Before(index, segment, 0), Layout(rs[..k - 1], segment, 0),
                   Indexed(rs[k - 1].id, Location(segment, OffsetOf(rs, k - 1), |rs[k - 1].payload|)));
    }
  }

  lemma SegmentEnds(index: Index, model: Contents, recs: seq<seq<Rec>>, segment: nat)
    requires Holds(index, model, recs) && segment < |recs|
    ensures Before(index, segment, |Encode(recs[segment])|) == Before(index, segment + 1, 0)
  {
    var rs := recs[segment];
    forall id | id in index && index[id].segment == segment ensures index[id].offset < |Encode(rs)| {
      assert Names(rs, id);
      var k :| 0 <= k < |rs| && rs[k].id == id;
      assert SegPlaced(index, model, rs, segment);
      assert Placed(index, model, rs[k], Location(segment, OffsetOf(rs, k), |rs[k].payload|));
      RecordInPlace(rs, k);
    }
  }

  lemma {:induction false} RebuildPrefix(disk: seq<Bytes>, recs: seq<seq<Rec>>, index: Index, model: Contents, n: nat)
    requires Holds(index, model, recs) && n <= |disk| == |recs|
    requires forall i :: 0 <= i < n ==> disk[i] == Encode(recs[i]) && |Encode(recs[i])| <= U64_MAX
    ensures Rebuild(disk, n) == Before(index, n, 0)
    ensures forall i :: 0 <= i < n ==> ScanFrom(disk[i], i, 0) == Scanned(Layout(recs[i], i, 0), |disk[i]|)
    decreases n
  {
    hide Holds, Encode, Layout, ScanFrom;
    if n == 0 {
      assert Before(index, 0, 0) == map[];
    } else {
      var rs := recs[n - 1];
      RebuildPrefix(disk, recs, index, model, n - 1);
      ScanWhole(rs, n - 1);
      AddSegment(index, model, recs, n - 1, |rs|);
      assert rs[..|rs|] == rs;
      SegmentEnds(index, model, recs, n - 1);
    }
  }

  lemma ScanWhole(rs: seq<Rec>, segment: nat)
    requires |Encode(rs)| <= U64_MAX
    ensures ScanFrom(Encode(rs), segment, 0) == Scanned(Layout(rs, segment, 0), |Encode(rs)|)
  {
    hide Encode, Layout, ScanFrom, Whole;
    ScanAfterCut(rs, |Encode(rs)|, segment);
    assert Encode(rs)[..|Encode(rs)|] == Encode(rs);
    WholeOfAll(rs);
    assert rs[..|rs|] == rs;
  }

  lemma {:induction false} WholeOfAll(rs: seq<Rec>)
    ensures Whole(rs, |Encode(rs)|) == |rs|
    decreases |rs|
  {
    hide Record;
    if rs != [] { WholeOfAll(rs[1..]); }
  }

  lemma BeforeAll(index: Index, model: Contents, recs: seq<seq<Rec>>)
    requires Holds(index, model, recs)
    ensures Before(index, |recs|, 0) == index
  {
    hide SegPlaced, Names;
  }

  /** On an undamaged disk the index rebuilt by scanning is the live index, and
      every scan ends at the end of its file. */
  lemma RebuildIsLiveIndex(disk: seq<Bytes>, recs: seq<seq<Rec>>, index: Index, model: Contents)
    requires Intact(disk, recs) && Holds(index, model, recs)
    ensures Rebuild(disk, |disk|) == index
    ensures forall i :: 0 <= i < |disk| ==> ScanFrom(disk[i], i, 0) == Scanned(Layout(recs[i], i, 0), |disk[i]|)
  {
    hide Rebuild, ScanFrom, Before, Encode, Layout, Holds;
    RebuildPrefix(disk, recs, index, model, |disk|);
    BeforeAll(index, model, recs);
  }

  /** Nothing that lies whole on disk is lost: records up to the last whole one
      of a torn segment are before its cut. */
  lemma WholeMeansBefore(rs: seq<Rec>, cut: nat, j: nat)
    requires cut <= |Encode(rs)| && j < |rs| && OffsetOf(rs, j) + RecordLen(|rs[j].payload|) <= cut
    ensures OffsetOf(rs, j) < OffsetOf(rs, Whole(rs, cut))
  {
    hide Encode, Whole;
    var k := Whole(rs, cut);
    WholeFits(rs, cut);
    if k < j { OffsetMonotone(rs, k, j); }
    if j < k { OffsetMonotone(rs, j, k); }
  }

  /** Published records survive any cut of the last segment. */
  lemma PublishedSurvive(disk: seq<Bytes>, recs: seq<seq<Rec>>, index: Index, full: Index, model: Contents)
    requires OnDisk(disk, recs) && Holds(full, model, recs) && MapLe(index, full) && Reaches(index, disk)
    ensures var last := |disk| - 1;
            MapLe(index, Before(full, last, OffsetOf(recs[last], Whole(recs[last], |disk[last]|))))
  {
    hide Holds, OffsetOf, Encode, Whole, RecordLen;
    var last := |disk| - 1;
    forall id | id in index && full[id].segment == last
      ensures full[id].offset < OffsetOf(recs[last], Whole(recs[last], |disk[last]|))
    {
      var j := PlaceOf(full, model, recs, id);
      WholeMeansBefore(recs[last], |disk[last]|, j);
    }
    forall id | id in index ensures full[id].segment <= last {
      var j := PlaceOf(full, model, recs, id);
    }
  }

  /** What lies before the last whole record's end is on disk. */
  lemma BeforeReaches(disk: seq<Bytes>, recs: seq<seq<Rec>>, full: Index, model: Contents)
    requires OnDisk(disk, recs) && Holds(full, model, recs)
    ensures var last := |disk| - 1;
            Reaches(Before(full, last, OffsetOf(recs[last], Whole(recs[last], |disk[last]|))), disk)
  {
    hide Holds, OffsetOf, Encode, Whole, RecordLen;
    var last := |disk| - 1;
    var rs, cut := recs[last], |disk[last]|;
    var k := Whole(rs, cut);
    forall id |
      id in full && (full[id].segment < last || (full[id].segment == last && full[id].offset < OffsetOf(rs, k)))
      ensures full[id].offset + RecordLen(full[id].payloadLen) <= |disk[full[id].segment]|
    {
      var j := PlaceOf(full, model, recs, id);
      RecordInPlace(recs[full[id].segment], j);
      if full[id].segment == last {
        WholeCovers(rs, cut, j);
      }
    }
  }

  lemma WholeCovers(rs: seq<Rec>, cut: nat, j: nat)
    requires cut <= |Encode(rs)| && j < |rs| && OffsetOf(rs, j) < OffsetOf(rs, Whole(rs, cut))
    ensures OffsetOf(rs, j) + RecordLen(|rs[j].payload|) <= cut
  {
    hide Encode, Whole;
    var k := Whole(rs, cut);
    WholeFits(rs, cut);
    if k < j { OffsetMonotone(rs, k, j); }
    if j < k { OffsetMonotone(rs, j, k); }
  }

  /** Reopening after a failed append, wherever the last segment was cut: every
      published block is found where it was, and whatever else is found is a
      whole record of the failed batch. */
  lemma RebuildAfterTear(disk: seq<Bytes>, recs: seq<seq<Rec>>, index: Index, full: Index, model: Contents)
    requires OnDisk(disk, recs) && Holds(full, model, recs) && MapLe(index, full) && Reaches(index, disk)
    ensures MapLe(index, Rebuild(disk, |disk|)) && MapLe(Rebuild(disk, |disk|), full)
    ensures Reaches(Rebuild(disk, |disk|), disk)
  {
    hide Rebuild, Holds, Reaches, OffsetOf, Whole;
    TornRebuild(disk, recs, full, model);
    PublishedSurvive(disk, recs, index, full, model);
    BeforeReaches(disk, recs, full, model);
  }

  /** The position of an indexed record in its segment. */
  lemma PlaceOf(index: Index, model: Contents, recs: seq<seq<Rec>>, id: BlockId) returns (k: nat)
    requires Holds(index, model, recs) && id in index
    ensures index[id].segment < |recs| && k < |recs[index[id].segment]| && recs[index[id].segment][k].id == id
    ensures index[id] ==
            Location(index[id].segment, OffsetOf(recs[index[id].segment], k), |recs[index[id].segment][k].payload|)
    ensures id in model && model[id] == recs[index[id].segment][k].payload
  {
    hide OffsetOf;
    var rs := recs[index[id].segment];
    assert Names(rs, id);
    k :| 0 <= k < |rs| && rs[k].id == id;
    assert SegPlaced(index, model, rs, index[id].segment);
    assert Placed(index, model, rs[k], Location(index[id].segment, OffsetOf(rs, k), |rs[k].payload|));
  }

  lemma TornRebuild(disk: seq<Bytes>, recs: seq<seq<Rec>>, full: Index, model: Contents)
    requires OnDisk(disk, recs) && Holds(full, model, recs)
    ensures var last := |disk| - 1;
            Rebuild(disk, |disk|) == Before(full, last, OffsetOf(recs[last], Whole(recs[last], |disk[last]|)))
  {
    hide Holds, Before, Encode, Whole, Layout, ScanFrom;
    var last := |disk| - 1;
    var rs := recs[last];
    var k := Whole(rs, |disk[last]|);
    RebuildPrefix(disk, recs, full, model, last);
    ScanAfterCut(rs, |disk[last]|, last);
    assert disk[last] == Encode(rs)[..|disk[last]|];
    AddSegment(full, model, recs, last, k);
  }
}
