/** The content-addressed block store: append-only segments, an in-memory index,
    group commit with segment roll, and compaction of sealed segments. */
module ColdStore {
  import opened Core
  import opened Segment
  import opened MapSums
  import opened StoreLayout
  import opened FileIo

  datatype StoreError = BlockNotFound(id: BlockId) | Poisoned | IoFailed

  /** An append that goes wrong: flush number `flush` of the batch fails after
      `landed` of its bytes reached the file. */
  datatype Fault = Fault(flush: nat, landed: nat)

  // ------------------------------------------------- the map the store agrees with

  function PutOne(hash: Hasher, m: Contents, p: Bytes): (r: Contents)
  {
    if hash(p) in m then m else m[hash(p) := p]
  }

  function PutAll(hash: Hasher, m: Contents, ps: seq<Bytes>): (r: Contents)
    decreases |ps|
  {
    if ps == [] then m else PutAll(hash, PutOne(hash, m, ps[0]), ps[1..])
  }

  lemma {:induction false} PutAllAppend(hash: Hasher, m: Contents, ps: seq<Bytes>, p: Bytes)
    ensures PutAll(hash, m, ps + [p]) == PutOne(hash, PutAll(hash, m, ps), p)
    decreases |ps|
  {
    if ps == [] {
      assert [p][1..] == [];
    } else {
      assert (ps + [p])[1..] == ps[1..] + [p];
      PutAllAppend(hash, PutOne(hash, m, ps[0]), ps[1..], p);
    }
  }

  lemma {:induction false} PutAllGrows(hash: Hasher, m: Contents, ps: seq<Bytes>)
    ensures MapLe(m, PutAll(hash, m, ps))
    decreases |ps|
  {
    if ps != [] { PutAllGrows(hash, PutOne(hash, m, ps[0]), ps[1..]); }
  }

  // ------------------------------------------------------ where new blocks are put

  /** The segment of each block, the number of segments, and the append position. */
  datatype Placement = Placement(at: map<BlockId, int>, segments: nat, tail: nat)

  function Segments(index: Index): (at: map<BlockId, int>)
  {
    map id | id in index :: index[id].segment
  }

  /** A new block goes to the last segment, or to a fresh one if that would grow
      past the roll size. */
  function Place(hash: Hasher, roll: nat, p: Placement, payload: Bytes): (r: Placement)
  {
    var id, n := hash(payload), RecordLen(|payload|);
    if id in p.at then p
    else
      var q := if p.tail + n > roll && p.tail > 0 then p.(segments := p.segments + 1, tail := 0) else p;
      Placement(q.at[id := q.segments - 1], q.segments, q.tail + n)
  }

  lemma PlaceKnown(hash: Hasher, roll: nat, full: Index, segments: nat, tail: nat, p: Bytes)
    requires hash(p) in full
    ensures Place(hash, roll, Placement(Segments(full), segments, tail), p) == Placement(Segments(full), segments, tail)
  {
  }

  lemma PlaceNew(hash: Hasher, roll: nat, full: Index, segments: nat, tail: nat, p: Bytes, loc: Location, rolled: bool)
    requires hash(p) !in full && rolled == (tail + RecordLen(|p|) > roll && tail > 0)
    requires loc.segment == if rolled then segments else segments - 1
    ensures Place(hash, roll, Placement(Segments(full), segments, tail), p) ==
            Placement(Segments(full[hash(p) := loc]), segments + (if rolled then 1 else 0),
                      (if rolled then 0 else tail) + RecordLen(|p|))
  {
    hide RecordLen;
    assert Segments(full[hash(p) := loc]) == Segments(full)[hash(p) := loc.segment];
  }

  function PlaceAll(hash: Hasher, roll: nat, p: Placement, ps: seq<Bytes>): (r: Placement)
  {
    if ps == [] then p else Place(hash, roll, PlaceAll(hash, roll, p, ps[..|ps| - 1]), ps[|ps| - 1])
  }

  lemma PlaceAllAppend(hash: Hasher, roll: nat, p: Placement, ps: seq<Bytes>, payload: Bytes)
    ensures PlaceAll(hash, roll, p, ps + [payload]) == Place(hash, roll, PlaceAll(hash, roll, p, ps), payload)
    ensures PlaceAll(hash, roll, p, []) == p
  {
    assert (ps + [payload])[..|ps|] == ps;
  }

  function Ids(hash: Hasher, payloads: seq<Bytes>): (ids: seq<BlockId>)
  {
    seq(|payloads|, i requires 0 <= i < |payloads| => hash(payloads[i]))
  }

  predicate StagedHas(staged: seq<Indexed>, id: BlockId)
  {
    exists j :: 0 <= j < |staged| && staged[j].id == id
  }

  lemma StagedGrows(staged: seq<Indexed>, x: Indexed)
    ensures forall id :: StagedHas(staged + [x], id) <==> StagedHas(staged, id) || id == x.id
  {
    forall id | StagedHas(staged, id) ensures StagedHas(staged + [x], id) {
      var j :| 0 <= j < |staged| && staged[j].id == id;
      assert (staged + [x])[j].id == id;
    }
    assert (staged + [x])[|staged|] == x;
  }

  function Restrict(m: Contents, ids: set<BlockId>): (r: Contents)
  {
    map id | id in m && id in ids :: m[id]
  }

  /** Ids a sweep of segments `from` to `to` - 1 drops. */
  ghost function Doomed(index: Index, from: nat, to: nat, live: BlockId -> bool): (ids: set<BlockId>)
  {
    set id | id in index && from <= index[id].segment < to && !live(id)
  }

  ghost predicate SameSegments(index: Index, later: Index)
  {
    forall id :: id in later ==> id in index && later[id].segment == index[id].segment
  }

  lemma DoomedStep(first: Index, index: Index, segment: nat, live: BlockId -> bool)
    requires SameSegments(first, index) && index.Keys == first.Keys - Doomed(first, 0, segment, live)
    ensures Doomed(first, 0, segment + 1, live) ==
            Doomed(first, 0, segment, live) + Doomed(index, segment, segment + 1, live)
    ensures Doomed(first, 0, segment, live) !! Doomed(index, segment, segment + 1, live)
  {
  }

  lemma RestrictTwice(m: Contents, a: set<BlockId>, b: set<BlockId>)
    requires b <= a
    ensures Restrict(Restrict(m, a), b) == Restrict(m, b)
  {
  }

  /** One more segment swept. */
  lemma SweepStep(first: Index, index: Index, later: Index, segment: nat, live: BlockId -> bool, m: Contents)
    requires SameSegments(first, index) && index.Keys == first.Keys - Doomed(first, 0, segment, live)
    requires SameSegments(index, later) && later.Keys == index.Keys - Doomed(index, segment, segment + 1, live)
    ensures SameSegments(first, later) && later.Keys == first.Keys - Doomed(first, 0, segment + 1, live)
    ensures |Doomed(first, 0, segment + 1, live)| ==
            |Doomed(first, 0, segment, live)| + |Doomed(index, segment, segment + 1, live)|
    ensures Restrict(Restrict(m, index.Keys), later.Keys) == Restrict(m, later.Keys)
  {
    hide Doomed, Restrict;
    DoomedStep(first, index, segment, live);
    RestrictTwice(m, index.Keys, later.Keys);
  }

  lemma NothingDoomed(index: Index, live: BlockId -> bool, m: Contents)
    requires m.Keys == index.Keys
    ensures Doomed(index, 0, 0, live) == {} && Restrict(m, index.Keys) == m && SameSegments(index, index)
  {
  }

  datatype Opened = Opened(index: Index, tail: nat)

  /** Scan every segment in order; `None` if a header's length overflows, in a
      build that checks for it. */
  method RebuildIndex(disk: seq<Bytes>) returns (r: Option<Opened>)
    ensures r.Some? ==>
              && r.value.index == Rebuild(disk, |disk|)
              && r.value.tail == if disk == [] then 0 else ScanFrom(disk[|disk| - 1], |disk| - 1, 0).end
    ensures r.None? <==> exists n :: 0 <= n < |disk| && ScanFrom(disk[n], n, 0).Overflowed?
  {
    hide ScanFrom;
    var index: Index, tail := map[], 0;
    for n := 0 to |disk|
      invariant index == Rebuild(disk, n)
      invariant tail == if n == 0 then 0 else ScanFrom(disk[n - 1], n - 1, 0).end
      invariant forall i :: 0 <= i < n ==> ScanFrom(disk[i], i, 0).Scanned?
    {
      var scanned := Scan(disk[n], n);
      if scanned.Overflowed? {
        return None;
      }
      for k := 0 to |scanned.found|
        invariant AddAll(index, scanned.found[k..]) == Rebuild(disk, n + 1)
      {
        assert scanned.found[k..][1..] == scanned.found[k + 1..];
        index := index[scanned.found[k].id := scanned.found[k].loc];
      }
      tail := scanned.end;
    }
    r := Some(Opened(index, tail));
  }

  class BlockStore {
    const hash: Hasher
    const rollBytes: U64

    /** The segment files, by segment number. */
    var disk: seq<Bytes>
    var index: Index
    /** Append position in the last segment. */
    var tail: nat
    var writeFailed: bool

    /** The records on disk (the last segment may hold only a part of its list
        once an append failed), and what indexing all of them gives. */
    ghost var recs: seq<seq<Rec>>
    ghost var full: Index
    ghost var model: Contents

    ghost predicate Valid()
      reads this
    {
      && Sound()
      && (!writeFailed ==> InFlight(hash, disk, recs, [], index, model) && index == full && tail == |disk[|disk| - 1]|)
    }

    /** What the store serves. */
    ghost function Served(): (m: Contents)
      reads this
      requires Valid()
    {
      Select(index, model)
    }

    ghost function Places(): (p: Placement)
      reads this
    {
      Placement(Segments(full), |disk|, tail)
    }

    /** An empty directory gets one empty segment. */
    constructor (hash: Hasher, rollBytes: U64)
      ensures Valid() && !writeFailed && Served() == map[] && disk == [[]] && Places() == Placement(map[], 1, 0)
      ensures this.hash == hash && this.rollBytes == rollBytes
    {
      this.hash, this.rollBytes := hash, rollBytes;
      disk, index, tail, writeFailed := [[]], map[], 0, false;
      recs, full, model := [[]], map[], map[];
      new;
      assert Encode([]) == [];
      assert SegPlaced(full, model, [], 0);
    }

    /** Write staged records to the active segment. A failing write lands some
        prefix of them. */
    method FlushPending(pending: seq<Write>, landed: Option<nat>) returns (ok: bool)
      requires disk != [] && Chain(pending, |disk[|disk| - 1]|)
      requires landed.Some? ==> landed.value <= |Join(pending)|
      modifies this`disk
      ensures ok == (landed.None? || pending == [])
      ensures disk == GrowLast(old(disk), if landed.Some? then Join(pending)[..landed.value] else Join(pending))
    {
      var last := |disk| - 1;
      if pending == [] || landed.Some? {
        var bytes := if landed.Some? then Join(pending)[..landed.value] else [];
        disk := disk[last := disk[last] + bytes];
        return pending == [];
      }
      var file := disk[last];
      for i := 0 to |pending|
        invariant disk == old(disk) && file == disk[last] + Join(pending[..i])
      {
        ChainAt(pending, |disk[last]|, i);
        file := WriteAt(file, pending[i].offset, pending[i].bytes);
      }
      assert pending[..|pending|] == pending;
      disk := disk[last := file];
      ok := true;
    }

    /** A batch is under way: `pending` is still to be written. */
    ghost predicate Busy(pending: seq<Write>)
      reads this
    {
      && InFlight(hash, disk, recs, Join(pending), full, model)
      && Chain(pending, |disk[|disk| - 1]|)
      && tail == |disk[|disk| - 1]| + |Join(pending)|
      && MapLe(index, full) && Reaches(index, disk)
    }

    /** Encode one new record and place it at the tail. */
    method StageOne(id: BlockId, payload: Bytes, pending: seq<Write>) returns (out: seq<Write>, hit: Indexed)
      requires Busy(pending) && id !in full && hash(payload) == id
      requires tail + RecordLen(|payload|) <= U64_MAX
      modifies this`tail, this`recs, this`full, this`model
      ensures Busy(out) && hit.id == id && full == old(full)[id := hit.loc] && model == old(model)[id := payload]
      ensures hit.loc.segment == |disk| - 1 && tail == old(tail) + RecordLen(|payload|)
    {
      hide Holds, HashesOk, Encode, Record, Join;
      var record := EncodeRecord(id, payload);
      var offset := tail;
      tail := tail + |record|;
      out := pending + [Write(offset, record)];
      hit := Indexed(id, Location(|disk| - 1, offset, |payload|));
      JoinAppend(pending, Write(offset, record));
      ChainAppend(pending, Write(offset, record), |disk[|disk| - 1]|);
      FlightAppend(hash, disk, recs, Join(pending), full, model, Rec(id, payload));
      recs, full, model := AppendTo(recs, |recs| - 1, Rec(id, payload)), full[id := hit.loc], model[id := payload];
    }

    /** What holds of the disk at every moment, failed append or not. */
    ghost predicate Sound()
      reads this
    {
      && OnDisk(disk, recs) && HashesOk(hash, recs) && Holds(full, model, recs)
      && MapLe(index, full) && Reaches(index, disk)
    }

    /** Flush, and on failure leave the disk as the failing write left it. */
    method FlushBatch(pending: seq<Write>, fails: bool, landed: nat) returns (ok: bool)
      requires Busy(pending)
      modifies this`disk
      ensures ok == (!fails || pending == [])
      ensures ok ==> Busy([]) && tail == |disk[|disk| - 1]|
      ensures Sound() && |disk| == |old(disk)|
    {
      hide Holds, HashesOk, Encode, MapLe;
      var all := |Join(pending)|;
      var part := if landed < all then landed else all;
      ok := FlushPending(pending, if fails then Some(part) else None);
      FlightFlush(hash, old(disk), recs, Join(pending), full, model);
      FlightTorn(hash, old(disk), recs, Join(pending), full, model, if fails then part else all);
      assert Join(pending)[..all] == Join(pending);
      assert ok ==> disk == GrowLast(old(disk), Join(pending));
    }

    /** Seal the active segment and start the next one. */
    method RollSegment(pending: seq<Write>, fails: bool, landed: nat) returns (ok: bool)
      requires Busy(pending)
      modifies this`disk, this`tail, this`recs
      ensures ok == (!fails || pending == [])
      ensures if ok then Busy([]) && tail == 0 && |disk| == |old(disk)| + 1 else Sound()
    {
      hide Holds, HashesOk, Encode;
      ok := FlushBatch(pending, fails, landed);
      if ok {
        FlightRoll(hash, disk, recs, full, model);
        disk, tail, recs := disk + [[]], 0, recs + [[]];
      }
    }

    /** The batch so far: `staged` are its new records, `done` its payloads. */
    ghost predicate Staging(pending: seq<Write>, staged: seq<Indexed>, before: Contents, done: seq<Bytes>)
      reads this
    {
      && Busy(pending)
      && full == AddAll(index, staged)
      && (forall id :: id in full <==> id in index || StagedHas(staged, id))
      && model == PutAll(hash, before, done)
    }

    /** Add one payload to the batch unless its block is already known. */
    method StagePayload(p: Bytes, pending: seq<Write>, staged: seq<Indexed>, fails: bool, landed: nat,
                        ghost before: Contents, ghost done: seq<Bytes>)
      returns (ok: bool, out: seq<Write>, hits: seq<Indexed>, rolled: bool)
      requires Staging(pending, staged, before, done) && RecordLen(|p|) <= U64_MAX
      modifies this`disk, this`tail, this`recs, this`full, this`model
      ensures if ok then Staging(out, hits, before, done + [p]) && Places() == Place(hash, rollBytes, old(Places()), p)
              else Sound() && model == old(model) && fails
    {
      hide Holds, HashesOk, Encode, PutAll, InFlight, Reaches, Join, Place, Segments, RecordLen;
      PutAllAppend(hash, before, done, p);
      ok, out, hits, rolled := true, pending, staged, false;
      FlightKeys(hash, disk, recs, Join(pending), full, model);
      var id := hash(p);
      if id in index || StagedHas(staged, id) {
        PlaceKnown(hash, rollBytes, full, |disk|, tail, p);
        return;
      }
      if tail + RecordLen(|p|) > rollBytes && tail > 0 {
        ok := RollSegment(pending, fails, landed);
        if !ok {
          return;
        }
        out, rolled := [], true;
      }
      var hit;
      out, hit := StageOne(id, p, out);
      AddAllAppend(index, staged, hit);
      hits := staged + [hit];
      StagedGrows(staged, hit);
      PlaceNew(hash, rollBytes, old(full), |old(disk)|, old(tail), p, hit.loc, rolled);
    }

    method Get(id: BlockId) returns (r: Result<Bytes, StoreError>)
      requires Valid()
      ensures r == if id in Served() then Ok(Served()[id]) else Err(BlockNotFound(id))
      ensures r.Ok? ==> hash(r.value) == id
    {
      if id !in index {
        return Err(BlockNotFound(id));
      }
      var loc := index[id];
      ReadsBack(id);
      var payload := ReadAt(disk[loc.segment], loc);
      assert hash(payload) == id;
      r := Ok(payload);
    }

    /** Make the staged records visible to readers. */
    method Publish(staged: seq<Indexed>)
      requires full == AddAll(index, staged)
      modifies this`index
      ensures index == full
    {
      for i := 0 to |staged|
        invariant AddAll(index, staged[i..]) == full
      {
        assert staged[i..][1..] == staged[i + 1..];
        index := index[staged[i].id := staged[i].loc];
      }
    }

    lemma StartStaging()
      requires Valid() && !writeFailed
      ensures Staging([], [], model, [])
      ensures Served() == model && index.Keys == model.Keys
    {
      hide Holds, HashesOk, Encode, Reaches;
      FlightKeys(hash, disk, recs, [], index, model);
    }

    lemma StagingModel(pending: seq<Write>, staged: seq<Indexed>, before: Contents, done: seq<Bytes>)
      requires Staging(pending, staged, before, done)
      ensures model == PutAll(hash, before, done)
    {
    }

    /** From here on every append is refused. */
    method Poison()
      requires Sound()
      modifies this`writeFailed
      ensures Valid() && writeFailed
    {
      hide OnDisk, HashesOk, Holds, MapLe, Reaches, InFlight;
      writeFailed := true;
    }

    /** Stage every payload in turn; `stop` counts those dealt with. */
    method StageAll(payloads: seq<Bytes>, fault: Option<Fault>)
      returns (ok: bool, pending: seq<Write>, staged: seq<Indexed>, flushes: nat, stop: nat)
      requires Staging([], [], model, [])
      requires forall i :: 0 <= i < |payloads| ==> RecordLen(|payloads[i]|) <= U64_MAX
      modifies this`disk, this`tail, this`recs, this`full, this`model
      ensures stop <= |payloads| && model == PutAll(hash, old(model), payloads[..stop])
      ensures if ok then stop == |payloads| && Staging(pending, staged, old(model), payloads)
                         && Places() == PlaceAll(hash, rollBytes, old(Places()), payloads)
              else fault.Some? && Sound()
    {
      hide PutAll, Staging, Sound, RecordLen, PlaceAll, Place;
      ok, pending, staged, flushes, stop := true, [], [], 0, 0;
      assert payloads[..0] == [];
      PlaceAllAppend(hash, rollBytes, Places(), [], []);
      while stop < |payloads|
        invariant stop <= |payloads| && Staging(pending, staged, old(model), payloads[..stop])
        invariant Places() == PlaceAll(hash, rollBytes, old(Places()), payloads[..stop])
      {
        var fails := fault.Some? && fault.value.flush == flushes;
        var rolled;
        StagingModel(pending, staged, old(model), payloads[..stop]);
        ok, pending, staged, rolled :=
          StagePayload(payloads[stop], pending, staged, fails, if fails then fault.value.landed else 0,
                       old(model), payloads[..stop]);
        if !ok {
          return;
        }
        assert payloads[..stop + 1] == payloads[..stop] + [payloads[stop]];
        PlaceAllAppend(hash, rollBytes, old(Places()), payloads[..stop], payloads[stop]);
        flushes := if rolled then flushes + 1 else flushes;
        stop := stop + 1;
      }
      StagingModel(pending, staged, old(model), payloads[..stop]);
      assert payloads[..|payloads|] == payloads;
    }

    /** The batch's last flush; only then are its records published. */
    method FinishBatch(pending: seq<Write>, staged: seq<Indexed>, fails: bool, landed: nat,
                       ghost before: Contents, ghost done: seq<Bytes>) returns (ok: bool)
      requires Staging(pending, staged, before, done) && !writeFailed
      modifies this`disk, this`index, this`writeFailed
      ensures Valid() && writeFailed == !ok && (!fails ==> ok) && (!ok ==> index == old(index)) && |disk| == |old(disk)|
    {
      hide Holds, HashesOk, Encode, PutAll, Reaches;
      ok := FlushBatch(pending, fails, landed);
      if ok {
        Publish(staged);
        assert Reaches(index, disk) by { FlightReaches(hash, disk, recs, index, model); }
      } else {
        Poison();
      }
    }

    /** Store a batch under one flush per segment it touches. A failed flush
        poisons the store: nothing is published and every later put is refused. */
    method PutMany(payloads: seq<Bytes>, fault: Option<Fault>)
      returns (r: Result<seq<BlockId>, StoreError>, stop: nat)
      requires Valid()
      requires forall i :: 0 <= i < |payloads| ==> RecordLen(|payloads[i]|) <= U64_MAX
      modifies this
      ensures Valid()
      ensures old(writeFailed) ==> r == Err(Poisoned) && unchanged(this)
      ensures r.Ok? ==>
              !writeFailed && r.value == Ids(hash, payloads) && Served() == PutAll(hash, old(Served()), payloads)
      ensures r.Ok? ==> Places() == PlaceAll(hash, rollBytes, old(Places()), payloads)
      ensures r.Err? && !old(writeFailed) ==>
                && fault.Some? && r == Err(IoFailed) && writeFailed && index == old(index) && Served() == old(Served())
                && stop <= |payloads| && model == PutAll(hash, old(model), payloads[..stop])
    {
      hide PutAll, Staging, Sound, Valid, Select;
      stop := 0;
      if writeFailed {
        return Err(Poisoned), 0;
      }
      StartStaging();
      var ok, pending, staged, flushes;
      ok, pending, staged, flushes, stop := StageAll(payloads, fault);
      var fails := fault.Some? && fault.value.flush == flushes;
      if ok {
        ok := FinishBatch(pending, staged, fails, if fails then fault.value.landed else 0, old(model), payloads);
        assert payloads[..|payloads|] == payloads;
      } else {
        Poison();
      }
      if ok {
        StartStaging();
        r := Ok(Ids(hash, payloads));
      } else {
        PutAllGrows(hash, old(model), payloads[..stop]);
        SelectStable(index, old(model), model);
        r := Err(IoFailed);
      }
    }

    // ------------------------------------------------------------- compaction

    /** A segment being rewritten: `kept` went to the new file `tmp` so far. */
    ghost predicate Rewriting(segment: nat, kept: seq<Rec>, tmp: Bytes, locs: Index)
      reads this
    {
      && segment < |recs| && tmp == Encode(kept)
      && HashesOk(hash, recs[segment := kept])
      && Holds(Outside(full, segment) + locs, Select(Outside(full, segment) + locs, model), recs[segment := kept])
    }

    /** Copy one live record into the new file of its segment. */
    method CopyRecord(segment: nat, id: BlockId, ghost kept: seq<Rec>, tmp: Bytes, locs: Index)
      returns (tmp': Bytes, loc: Location, ghost kept': seq<Rec>)
      requires Valid() && Rewriting(segment, kept, tmp, locs)
      requires id in index && index[id].segment == segment && id !in locs
      ensures Rewriting(segment, kept', tmp', locs[id := loc]) && loc.segment == segment
      ensures id in model && |tmp'| == |tmp| + RecordLen(|model[id]|)
    {
      hide Holds, HashesOk, Encode, Record, RecordLen;
      ReadsBack(id);
      var payload := ReadAt(disk[segment], index[id]);
      assert hash(payload) == id;
      var record := EncodeRecord(id, payload);
      tmp' := WriteAt(tmp, |tmp|, record);
      loc := Location(segment, |tmp|, index[id].payloadLen);
      ghost var locs' := locs[id := loc];
      kept' := kept + [Rec(id, payload)];
      var now := recs[segment := kept];
      assert AppendTo(now, segment, Rec(id, payload)) == recs[segment := kept'];
      HoldsAppend(Outside(full, segment) + locs, Select(Outside(full, segment) + locs, model), now, segment,
                  Rec(id, payload));
      HashesAppend(hash, now, segment, Rec(id, payload));
      EncodeAppend(kept, Rec(id, payload));
      assert (Outside(full, segment) + locs)[id := loc] == Outside(full, segment) + locs';
      assert Select(Outside(full, segment) + locs, model)[id := payload] ==
             Select(Outside(full, segment) + locs', model);
    }

    /** Copy every record of `keep`, in whatever order they come. */
    method CopyRecords(segment: nat, keep: set<BlockId>) returns (tmp: Bytes, locs: Index, ghost kept: seq<Rec>)
      requires Valid() && segment < |disk|
      requires forall id :: id in keep ==> id in index && index[id].segment == segment
      ensures Rewriting(segment, kept, tmp, locs) && locs.Keys == keep && |tmp| <= U64_MAX
      ensures forall id :: id in locs ==> locs[id].segment == segment
    {
      hide Holds, HashesOk, Encode, Record, RecordLen, Rewriting, OnDisk;
      tmp, locs, kept := [], map[], [];
      StartRewrite(segment);
      RoomFor(segment, keep);
      var rest := keep;
      while rest != {}
        invariant rest <= keep && locs.Keys == keep - rest
        invariant Rewriting(segment, kept, tmp, locs)
        invariant forall id :: id in locs ==> locs[id].segment == segment
        invariant keep <= model.Keys && |tmp| + Total(Space(model, rest)) <= U64_MAX
        decreases rest
      {
        var id :| id in rest;
        var loc;
        TotalRemove(Space(model, rest), id);
        assert Space(model, rest - {id}) == Space(model, rest) - {id};
        tmp, loc, kept := CopyRecord(segment, id, kept, tmp, locs);
        locs := locs[id := loc];
        rest := rest - {id};
      }
    }

    /** Swap in a rewritten segment: file and index entries change together. */
    method SwapSegment(segment: nat, drop: set<BlockId>, tmp: Bytes, locs: Index, ghost kept: seq<Rec>)
      requires Valid() && segment < |disk| - 1 && Rewriting(segment, kept, tmp, locs) && |tmp| <= U64_MAX
      requires Replaces(index, segment, drop, locs)
      modifies this`disk, this`index, this`recs, this`full, this`model
      ensures Valid() && |disk| == old(|disk|)
      ensures index == old(index) - drop + locs
      ensures Served() == Select(index, old(model))
    {
      hide Holds, HashesOk, Encode, RecordLen, Replaces, Outside, Reaches, OnDisk, Holding;
      SwapIndex(index, full, segment, drop, locs);
      SwapDisk(disk, recs, segment, kept);
      OutsideReaches(segment, tmp);
      disk := disk[segment := tmp];
      recs := recs[segment := kept];
      full := Outside(full, segment) + locs;
      model := Select(full, model);
      SwapReaches(disk, recs, index, full, model, segment, tmp, drop, locs);
      index := index - drop + locs;
      SelectNarrow(index, full, old(model));
    }

    /** Rewrite one sealed segment without its dead records. */
    method CompactSegment(segment: nat, live: BlockId -> bool) returns (dropped: nat)
      requires Valid() && segment < |disk| - 1
      modifies this`disk, this`index, this`recs, this`full, this`model
      ensures Valid() && |disk| == old(|disk|) && SameSegments(old(index), index)
      ensures index.Keys == old(index).Keys - Doomed(old(index), segment, segment + 1, live)
      ensures Served() == Restrict(old(Served()), index.Keys)
      ensures dropped == |Doomed(old(index), segment, segment + 1, live)|
    {
      hide Valid, Rewriting, MapLe;
      var keep := set id | id in index && index[id].segment == segment && live(id);
      var drop := set id | id in index && index[id].segment == segment && !live(id);
      assert drop == Doomed(index, segment, segment + 1, live);
      dropped := |drop|;
      if drop == {} {
        ServedKeys();
        return;
      }
      var tmp, locs;
      ghost var kept;
      tmp, locs, kept := CopyRecords(segment, keep);
      assert Replaces(index, segment, drop, locs);
      IndexGrowsInto();
      SwapIndex(index, full, segment, drop, locs);
      SwapSegment(segment, drop, tmp, locs, kept);
    }

    lemma IndexGrowsInto()
      requires Valid()
      ensures MapLe(index, full)
    {
    }

    lemma ServedKeys()
      requires Valid()
      ensures Served().Keys == index.Keys
    {
    }

    /** Mark-and-sweep over the sealed segments. */
    method Compact(live: BlockId -> bool) returns (dropped: nat)
      requires Valid()
      modifies this`disk, this`index, this`recs, this`full, this`model
      ensures Valid() && |disk| == old(|disk|) && SameSegments(old(index), index)
      ensures Served() == Restrict(old(Served()), old(index).Keys - Doomed(old(index), 0, |disk| - 1, live))
      ensures dropped == |Doomed(old(index), 0, |disk| - 1, live)|
    {
      hide Valid, Doomed, Restrict, SameSegments, Served;
      ServedKeys();
      DiskNotEmpty();
      NothingDoomed(index, live, Served());
      dropped := 0;
      for segment := 0 to |disk| - 1
        invariant Valid() && |disk| == old(|disk|) && SameSegments(old(index), index)
        invariant index.Keys == old(index).Keys - Doomed(old(index), 0, segment, live)
        invariant Served() == Restrict(old(Served()), index.Keys)
        invariant dropped == |Doomed(old(index), 0, segment, live)|
      {
        ghost var before := index;
        var n := CompactSegment(segment, live);
        SweepStep(old(index), before, index, segment, live, old(Served()));
        dropped := dropped + n;
      }
    }

    /** While appends go well, the index is all there is on disk. */
    lemma Healthy()
      requires Valid() && !writeFailed
      ensures index == full && Served().Keys == index.Keys
    {
      hide Holds, HashesOk, Encode, Reaches;
      ServedKeys();
    }

    lemma DiskNotEmpty()
      requires Valid()
      ensures |disk| >= 1
    {
    }

    lemma OutsideReaches(segment: nat, file: Bytes)
      requires Valid() && segment < |disk|
      ensures forall id :: id in index && index[id].segment != segment ==>
                && index[id].segment < |disk|
                && index[id].offset + RecordLen(index[id].payloadLen) <= |disk[segment := file][index[id].segment]|
    {
      hide Holds, HashesOk, OnDisk, InFlight;
    }

    lemma StartRewrite(segment: nat)
      requires Valid() && segment < |disk|
      ensures Rewriting(segment, [], [], map[])
    {
      hide Holds;
      HoldsClear(full, model, recs, segment);
      assert Outside(full, segment) + map[] == Outside(full, segment);
      assert Encode([]) == [];
    }

    lemma RoomFor(segment: nat, keep: set<BlockId>)
      requires Valid() && segment < |disk|
      requires forall id :: id in keep ==> id in index && index[id].segment == segment
      ensures keep <= model.Keys && Total(Space(model, keep)) <= U64_MAX
    {
      hide Encode, RecordLen, HashesOk;
      var rs := recs[segment];
      assert SegPlaced(full, model, rs, segment);
      forall id | id in keep ensures id in model && Names(rs, id) {
        assert full[id].segment == segment;
      }
      forall k | 0 <= k < |rs| ensures rs[k].id in model && model[rs[k].id] == rs[k].payload {
        assert Placed(full, model, rs[k], Location(segment, OffsetOf(rs, k), |rs[k].payload|));
      }
      SpaceBound(model, rs, keep);
    }

    // ---------------------------------------------------------------- reopen

    /** The live index is what a scan of the segment files would give. */
    lemma IndexIsRebuilt()
      requires Valid() && !writeFailed
      ensures Rebuild(disk, |disk|) == index
      ensures ScanFrom(disk[|disk| - 1], |disk| - 1, 0).end == tail
      ensures forall i :: 0 <= i < |disk| ==> ScanFrom(disk[i], i, 0).Scanned?
    {
      hide Holds, HashesOk, Encode, Rebuild, ScanFrom, Layout;
      FlightIntact(hash, disk, recs, index, model);
      RebuildIsLiveIndex(disk, recs, index, model);
    }

    /** Drop the in-memory state and rebuild it from the segment files. */
    method Reopen()
      requires Valid() && !writeFailed
      modifies this`index, this`tail
      ensures Valid() && index == old(index) && tail == old(tail)
    {
      hide Rebuild, ScanFrom, Holds, HashesOk, OnDisk, Reaches, InFlight;
      DiskNotEmpty();
      IndexIsRebuilt();
      var found := RebuildIndex(disk);
      assert found.Some?;
      index, tail := found.value.index, found.value.tail;
    }

    /** Whatever a failed append left on disk, a restart finds every block the
        store was serving where it was, and can read everything it finds. */
    lemma RestartKeepsServed()
      requires Valid()
      ensures var found := Rebuild(disk, |disk|);
              && MapLe(index, found) && MapLe(Served(), Select(found, model))
              && forall id :: id in found ==>
                   && found[id].segment < |disk|
                   && found[id].offset + HEADER_LEN + found[id].payloadLen <= |disk[found[id].segment]|
                   && hash(ReadAt(disk[found[id].segment], found[id])) == id
    {
      hide Encode, Rebuild, Record, InFlight;
      RebuildAfterTear(disk, recs, index, full, model);
      var found := Rebuild(disk, |disk|);
      assert full.Keys == model.Keys;
      forall id | id in found
        ensures found[id].segment < |disk|
        ensures found[id].offset + HEADER_LEN + found[id].payloadLen <= |disk[found[id].segment]|
        ensures hash(ReadAt(disk[found[id].segment], found[id])) == id
      {
        FullReadsBack(found, id);
      }
    }

    lemma FullReadsBack(found: Index, id: BlockId)
      requires Sound() && MapLe(found, full) && Reaches(found, disk) && id in found
      ensures found[id].segment < |disk|
      ensures found[id].offset + HEADER_LEN + found[id].payloadLen <= |disk[found[id].segment]|
      ensures id in model && ReadAt(disk[found[id].segment], found[id]) == model[id] && hash(model[id]) == id
    {
      hide Encode, Record, Holds, MapLe, RecordLen;
      assert found[id] == full[id] && id in full by { InMapLe(found, full, id); }
      var loc := found[id];
      var rs := recs[loc.segment];
      var k := PlaceOf(full, model, recs, id);
      RecordInPlace(rs, k);
      var n := RecordLen(|rs[k].payload|);
      assert disk[loc.segment][loc.offset..loc.offset + n] == Encode(rs)[loc.offset..loc.offset + n];
      ReadBack(disk[loc.segment], rs[k], loc);
    }

    /** An indexed location lies on disk and holds the block's payload. */
    lemma ReadsBack(id: BlockId)
      requires Valid() && id in index
      ensures index[id].segment < |disk|
      ensures index[id].offset + HEADER_LEN + index[id].payloadLen <= |disk[index[id].segment]|
      ensures id in model && ReadAt(disk[index[id].segment], index[id]) == model[id] && hash(model[id]) == id
    {
      FullReadsBack(index, id);
    }
  }

  lemma InMapLe(a: Index, b: Index, id: BlockId)
    requires MapLe(a, b) && id in a
    ensures id in b && b[id] == a[id]
  {
  }
}
