/** The two-tier store, one call at a time: an evictable warm cache and a pinned
    tier over a cold store whose records can go bad, with quarantine, repair and
    compaction. */
module Tiered {
  import opened Core
  import opened MapSums
  import ColdStore

  datatype TierError = BlockNotFound(id: BlockId) | Corrupt(bad: BlockId) | IoFailed

  /** What reading a record off the disk gives today. */
  datatype Medium = Reads(bytes: Bytes) | Unreadable

  datatype Slot = Slot(segment: nat, medium: Medium)

  type Cold = map<BlockId, Slot>

  type Blocks = map<BlockId, Bytes>

  // ---------------------------------------------------------------- cold reads

  /** Read a record and check its hash. */
  function ReadMedium(hash: Hasher, id: BlockId, medium: Medium): (r: Result<Bytes, TierError>)
    ensures r.Ok? ==> hash(r.value) == id
    ensures r.Err? ==> !r.error.BlockNotFound?
  {
    if medium.Unreadable? then Err(IoFailed)
    else if hash(medium.bytes) != id then Err(Corrupt(id))
    else Ok(medium.bytes)
  }

  function ColdGet(hash: Hasher, cold: Cold, id: BlockId): (r: Result<Bytes, TierError>)
    ensures r.Ok? ==> id in cold && hash(r.value) == id
    ensures r == Err(BlockNotFound(id)) <==> id !in cold
  {
    if id !in cold then Err(BlockNotFound(id)) else ReadMedium(hash, id, cold[id].medium)
  }

  /** The active segment after a failed append that had opened `rolled` of the
      segments the whole batch would have: those stay. */
  function OpenedBy(active: nat, whole: nat, rolled: nat): (at: nat)
    requires active <= whole
    ensures active <= at <= whole
  {
    if active + rolled <= whole then active + rolled else whole
  }

  /** Storing a batch, each new block in the segment that is active by then. */
  function ColdPutAll(hash: Hasher, cold: Cold, active: nat, payloads: seq<Bytes>, rolls: nat -> bool): (r: (Cold, nat))
    decreases |payloads|
  {
    if payloads == [] then (cold, active)
    else
      var n := |payloads| - 1;
      var (done, at) := ColdPutAll(hash, cold, active, payloads[..n], rolls);
      var id := hash(payloads[n]);
      if id in done then (done, at)
      else
        var here := if rolls(n) then at + 1 else at;
        (done[id := Slot(here, Reads(payloads[n]))], here)
  }

  /** Nothing stored moves or changes, what is added reads back, and only the
      batch is added. */
  lemma {:induction false} ColdPutAllAdds(hash: Hasher, cold: Cold, active: nat, payloads: seq<Bytes>,
                                          rolls: nat -> bool)
    ensures var (after, at) := ColdPutAll(hash, cold, active, payloads, rolls);
            && active <= at && cold.Keys <= after.Keys && (forall id :: id in cold ==> after[id] == cold[id])
            && after.Keys == cold.Keys + (set p | p in payloads :: hash(p))
            && (forall id :: id in after && id !in cold ==> ColdGet(hash, after, id).Ok? && active <= after[id].segment)
    decreases |payloads|
  {
    if payloads != [] {
      var n := |payloads| - 1;
      ColdPutAllAdds(hash, cold, active, payloads[..n], rolls);
      assert payloads == payloads[..n] + [payloads[n]];
      assert (set p | p in payloads :: hash(p)) == (set p | p in payloads[..n] :: hash(p)) + {hash(payloads[n])};
    }
  }

  /** An undamaged cold store is the content map the segment store serves. */
  ghost predicate Undamaged(hash: Hasher, cold: Cold, m: Blocks)
  {
    cold.Keys == m.Keys && forall id :: id in m ==> ColdGet(hash, cold, id) == Ok(m[id])
  }

  /** Storing a batch does to that map what the segment store proves of it. */
  lemma {:induction false} ColdPutAllServes(
    hash: Hasher, cold: Cold, active: nat, payloads: seq<Bytes>, rolls: nat -> bool, m: Blocks)
    requires Undamaged(hash, cold, m)
    ensures Undamaged(hash, ColdPutAll(hash, cold, active, payloads, rolls).0, ColdStore.PutAll(hash, m, payloads))
    decreases |payloads|
  {
    if payloads != [] {
      var n := |payloads| - 1;
      ColdPutAllServes(hash, cold, active, payloads[..n], rolls, m);
      ColdStore.PutAllAppend(hash, m, payloads[..n], payloads[n]);
      assert payloads == payloads[..n] + [payloads[n]];
      assert Undamaged(hash, ColdPutAll(hash, cold, active, payloads[..n], rolls).0,
                       ColdStore.PutAll(hash, m, payloads[..n]));
    }
  }

  // ---------------------------------------------------------- cold compaction

  function Doomed(cold: Cold, segment: nat, live: BlockId -> bool): (ids: set<BlockId>)
  {
    set id | id in cold && cold[id].segment == segment && !live(id)
  }

  /** The records of a segment to keep that can no longer be read. */
  function Damaged(hash: Hasher, cold: Cold, segment: nat, live: BlockId -> bool): (ids: set<BlockId>)
  {
    set id | id in cold && cold[id].segment == segment && live(id) && ColdGet(hash, cold, id).Err?
  }

  /** A disk error while one segment is rewritten, before the rewritten file takes
      its place or after. */
  datatype RewriteFault = NoFault | BeforeSwap(segment: nat) | AfterSwap(segment: nat)

  /** A segment to rewrite where the rewrite fails: compaction stops there. */
  predicate Blocked(hash: Hasher, cold: Cold, segment: nat, live: BlockId -> bool, fault: RewriteFault)
  {
    && Doomed(cold, segment, live) != {}
    && (Damaged(hash, cold, segment, live) != {} || (!fault.NoFault? && fault.segment == segment))
  }

  /** How far compaction gets: the first blocked sealed segment, or all of them. */
  function Halt(hash: Hasher, cold: Cold, from: nat, active: nat, live: BlockId -> bool,
                fault: RewriteFault): (stop: nat)
    requires from <= active
    ensures from <= stop <= active && (stop < active ==> Blocked(hash, cold, stop, live, fault))
    ensures forall s :: from <= s < stop ==> !Blocked(hash, cold, s, live, fault)
    decreases active - from
  {
    if from == active || Blocked(hash, cold, from, live, fault) then from
    else Halt(hash, cold, from + 1, active, live, fault)
  }

  /** How many segments have lost their dead blocks by then: the one where it
      stops as well, if the error came after the swap. */
  function Emptied(hash: Hasher, cold: Cold, active: nat, live: BlockId -> bool, fault: RewriteFault): (n: nat)
    ensures n <= active
  {
    var stop := Halt(hash, cold, 0, active, live, fault);
    if stop < active && fault == AfterSwap(stop) && Damaged(hash, cold, stop, live) == {} then stop + 1 else stop
  }

  /** The ids compaction drops from the segments before `stop`. */
  function DroppedBefore(cold: Cold, stop: nat, live: BlockId -> bool): (ids: set<BlockId>)
  {
    set id | id in cold && cold[id].segment < stop && !live(id)
  }

  lemma DropNext(cold: Cold, now: Cold, segment: nat, live: BlockId -> bool)
    requires now == cold - DroppedBefore(cold, segment, live)
    ensures now - Doomed(now, segment, live) == cold - DroppedBefore(cold, segment + 1, live)
    ensures Doomed(now, segment, live) == Doomed(cold, segment, live)
    ensures |DroppedBefore(cold, segment + 1, live)| ==
            |DroppedBefore(cold, segment, live)| + |Doomed(cold, segment, live)|
  {
    assert DroppedBefore(cold, segment + 1, live) == DroppedBefore(cold, segment, live) + Doomed(cold, segment, live);
  }

  lemma SameDamage(hash: Hasher, cold: Cold, now: Cold, segment: nat, live: BlockId -> bool)
    requires now == cold - DroppedBefore(cold, segment, live)
    ensures Damaged(hash, now, segment, live) == Damaged(hash, cold, segment, live)
  {
  }

  /** Read every record to keep, in whatever order; stop at the first bad one. */
  method CopyKept(hash: Hasher, cold: Cold, keep: set<BlockId>) returns (bad: Option<BlockId>)
    requires keep <= cold.Keys
    ensures bad.None? ==> forall id :: id in keep ==> ColdGet(hash, cold, id).Ok?
    ensures bad.Some? ==> bad.value in keep && ColdGet(hash, cold, bad.value).Err?
  {
    var rest := keep;
    while rest != {}
      invariant rest <= keep && forall id :: id in keep - rest ==> ColdGet(hash, cold, id).Ok?
      decreases rest
    {
      var id :| id in rest;
      if ColdGet(hash, cold, id).Err? {
        return Some(id);
      }
      rest := rest - {id};
    }
    return None;
  }

  /** Mark and sweep over the sealed segments. */
  method ColdCompact(hash: Hasher, cold: Cold, active: nat, live: BlockId -> bool, fault: RewriteFault)
    returns (r: Result<nat, TierError>, after: Cold)
    ensures var stop, gone := Halt(hash, cold, 0, active, live, fault),
                              DroppedBefore(cold, Emptied(hash, cold, active, live, fault), live);
            && after == cold - gone
            && (stop == active ==> r == Ok(|gone|))
            && (stop < active ==>
                  var bad := Damaged(hash, cold, stop, live);
                  if bad == {} || fault == BeforeSwap(stop) then r == Err(IoFailed)
                  else exists id :: id in bad && r == Err(ColdGet(hash, cold, id).error))
  {
    hide ColdGet;
    after := cold;
    var dropped := 0;
    assert DroppedBefore(cold, 0, live) == {};
    for segment := 0 to active
      invariant Halt(hash, cold, 0, active, live, fault) == Halt(hash, cold, segment, active, live, fault)
      invariant after == cold - DroppedBefore(cold, segment, live)
      invariant dropped == |DroppedBefore(cold, segment, live)|
    {
      var drop := Doomed(after, segment, live);
      DropNext(cold, after, segment, live);
      SameDamage(hash, cold, after, segment, live);
      if drop != {} {
        if fault == BeforeSwap(segment) {
          return Err(IoFailed), after;
        }
        var bad := CopySegment(hash, after, segment, live);
        if bad.Some? {
          SameReads(hash, cold, after, bad.value);
          return Err(ColdGet(hash, after, bad.value).error), after;
        }
        after, dropped := after - drop, dropped + |drop|;
        if fault == AfterSwap(segment) {
          return Err(IoFailed), after;
        }
      }
    }
    return Ok(dropped), after;
  }

  method CopySegment(hash: Hasher, cold: Cold, segment: nat, live: BlockId -> bool) returns (bad: Option<BlockId>)
    ensures bad.None? <==> Damaged(hash, cold, segment, live) == {}
    ensures bad.Some? ==> bad.value in Damaged(hash, cold, segment, live)
  {
    hide ColdGet;
    var keep := set id | id in cold && cold[id].segment == segment && live(id);
    bad := CopyKept(hash, cold, keep);
    if bad.Some? {
      assert bad.value in Damaged(hash, cold, segment, live);
    }
  }

  lemma SameReads(hash: Hasher, cold: Cold, now: Cold, id: BlockId)
    requires id in now && id in cold && now[id] == cold[id]
    ensures ColdGet(hash, now, id) == ColdGet(hash, cold, id)
  {
  }

  // -------------------------------------------------------------- the two tiers

  function Sizes(blocks: Blocks): (sizes: map<BlockId, nat>)
  {
    map id | id in blocks :: |blocks[id]|
  }

  lemma SizesInsert(blocks: Blocks, id: BlockId, payload: Bytes)
    requires id !in blocks
    ensures Total(Sizes(blocks[id := payload])) == Total(Sizes(blocks)) + |payload|
  {
    assert Sizes(blocks[id := payload]) == Sizes(blocks)[id := |payload|];
    TotalUpdate(Sizes(blocks), id, |payload|);
  }

  lemma SizesRemove(blocks: Blocks, id: BlockId)
    requires id in blocks
    ensures Total(Sizes(blocks - {id})) == Total(Sizes(blocks)) - |blocks[id]|
  {
    assert Sizes(blocks - {id}) == Sizes(blocks) - {id};
    TotalRemove(Sizes(blocks), id);
  }

  ghost predicate AllHash(hash: Hasher, blocks: Blocks)
  {
    forall id :: id in blocks ==> hash(blocks[id]) == id
  }

  /** What a read answers: quarantine first, then pinned, warm, cold. */
  function Answer(hash: Hasher, quarantined: set<BlockId>, pinned: Blocks, warm: Blocks, cold: Cold, id: BlockId)
    : (r: Result<Bytes, TierError>)
  {
    if id in quarantined then Err(Corrupt(id))
    else if id in pinned then Ok(pinned[id])
    else if id in warm then Ok(warm[id])
    else ColdGet(hash, cold, id)
  }

  class TieredStore {
    const hash: Hasher
    const warmBudget: U64
    const pinnedBudget: U64
    var quarantined: set<BlockId>
    /** The cold index with what each record reads as, and the active segment. */
    var cold: Cold
    var active: nat
    var writeFailed: bool
    var warm: Blocks
    var pinned: Blocks
    var pinnedBytes: nat
    var hits: nat
    var misses: nat

    /** The cached bytes are what their ids say, whatever the disk holds, and
        the pinned counter is the exact sum, within a quarter of the budget. */
    ghost predicate Valid()
      reads this
    {
      && AllHash(hash, warm) && AllHash(hash, pinned)
      && (forall id :: id in warm ==> |warm[id]| <= warmBudget)
      && pinnedBytes == Total(Sizes(pinned)) && pinnedBytes <= pinnedBudget && pinnedBudget == warmBudget / 4
    }

    /** The cache is never the only copy: what it holds is in the cold index. */
    ghost predicate Backed()
      reads this
    {
      warm.Keys <= cold.Keys && pinned.Keys <= cold.Keys
    }

    /** A block that fits is in the cache unless it was evicted at once. */
    predicate Warmed(id: BlockId, payload: Bytes, evicted: set<BlockId>)
      reads this
    {
      |payload| <= warmBudget && id !in evicted ==> id in warm
    }

    constructor (hash: Hasher, cold: Cold, active: nat, warmBudget: U64)
      ensures Valid() && Backed() && quarantined == {} && warm == map[] && pinned == map[] && !writeFailed
      ensures this.hash == hash && this.cold == cold && this.active == active && this.warmBudget == warmBudget
    {
      this.hash, this.cold, this.active := hash, cold, active;
      this.warmBudget, this.pinnedBudget := warmBudget, warmBudget / 4;
      quarantined, writeFailed, warm, pinned, pinnedBytes, hits, misses := {}, false, map[], map[], 0, 0, 0;
    }

    /** The cache evicts what it likes, whenever it likes. */
    method Evict(evicted: set<BlockId>)
      requires Valid()
      modifies this`warm
      ensures Valid() && warm == old(warm) - evicted && (old(Backed()) ==> Backed())
    {
      warm := warm - evicted;
    }

    /** Insert, unless the block alone exceeds the budget; inserting may evict
        any entries, the new one included. */
    method WarmInsert(id: BlockId, payload: Bytes, evicted: set<BlockId>)
      requires Valid() && hash(payload) == id
      modifies this`warm
      ensures Valid()
      ensures warm == if |payload| <= warmBudget then old(warm)[id := payload] - evicted else old(warm)
    {
      if |payload| <= warmBudget {
        warm := warm[id := payload] - evicted;
      }
    }

    /** Append to the cold store; a failed append publishes nothing and poisons. */
    method ColdPut(payloads: seq<Bytes>, rolls: nat -> bool, fails: Option<nat>) returns (ok: bool)
      modifies this`cold, this`active, this`writeFailed
      ensures ok == (!old(writeFailed) && fails.None?) && (writeFailed == !ok)
      ensures ok ==> (cold, active) == ColdPutAll(hash, old(cold), old(active), payloads, rolls)
      ensures !ok ==> cold == old(cold) && old(active) <= active
      ensures !ok && !old(writeFailed) ==>
                var whole := ColdPutAll(hash, old(cold), old(active), payloads, rolls).1;
                old(active) <= whole && active == OpenedBy(old(active), whole, fails.value)
      ensures old(writeFailed) ==> active == old(active)
    {
      if writeFailed {
        return false;
      }
      if fails.Some? {
        ColdPutAllAdds(hash, cold, active, payloads, rolls);
        active := OpenedBy(active, ColdPutAll(hash, cold, active, payloads, rolls).1, fails.value);
        writeFailed := true;
        return false;
      }
      for n := 0 to |payloads|
        invariant !writeFailed && (cold, active) == ColdPutAll(hash, old(cold), old(active), payloads[..n], rolls)
      {
        assert payloads[..n + 1][..n] == payloads[..n];
        var id := hash(payloads[n]);
        if id !in cold {
          if rolls(n) {
            active := active + 1;
          }
          cold := cold[id := Slot(active, Reads(payloads[n]))];
        }
      }
      assert payloads[..|payloads|] == payloads;
      ok := true;
    }

    /** Write through, then warm every block. */
    method PutMany(payloads: seq<Bytes>, rolls: nat -> bool, fails: Option<nat>, evicted: set<BlockId>)
      returns (r: Result<seq<BlockId>, TierError>)
      requires Valid()
      modifies this`cold, this`active, this`writeFailed, this`warm
      ensures Valid() && (old(Backed()) ==> Backed())
      ensures r == if old(writeFailed) || fails.Some? then Err(IoFailed) else Ok(ColdStore.Ids(hash, payloads))
      ensures r.Ok? ==> (cold, active) == ColdPutAll(hash, old(cold), old(active), payloads, rolls)
      ensures r.Ok? ==> forall i :: 0 <= i < |payloads| ==> Warmed(hash(payloads[i]), payloads[i], evicted)
      ensures r.Err? ==> cold == old(cold) && old(active) <= active && warm == old(warm)
    {
      hide Total, Sizes, AllHash, ColdPutAll;
      var ok := ColdPut(payloads, rolls, fails);
      if !ok {
        return Err(IoFailed);
      }
      ColdPutAllAdds(hash, old(cold), old(active), payloads, rolls);
      WarmAll(payloads, evicted);
      return Ok(ColdStore.Ids(hash, payloads));
    }

    method WarmAll(payloads: seq<Bytes>, evicted: set<BlockId>)
      requires Valid()
      modifies this`warm
      ensures Valid() && warm.Keys <= old(warm).Keys + (set p | p in payloads :: hash(p))
      ensures forall i :: 0 <= i < |payloads| ==> Warmed(hash(payloads[i]), payloads[i], evicted)
    {
      hide Valid;
      for n := 0 to |payloads|
        invariant Valid() && warm.Keys <= old(warm).Keys + (set p | p in payloads :: hash(p))
        invariant forall i :: 0 <= i < n ==> Warmed(hash(payloads[i]), payloads[i], evicted)
      {
        WarmInsert(hash(payloads[n]), payloads[n], evicted);
      }
    }

    /** A read never answers with bytes other than the id's. */
    method Get(id: BlockId, evicted: set<BlockId>) returns (r: Result<Bytes, TierError>)
      requires Valid()
      modifies this`warm, this`hits, this`misses
      ensures Valid() && (old(Backed()) ==> Backed())
      ensures r == Answer(hash, quarantined, pinned, old(warm), cold, id)
      ensures r.Ok? ==> hash(r.value) == id
      ensures warm.Keys <= old(warm).Keys + {id} && (r.Ok? && old(Backed()) ==> id in cold)
      ensures if id in quarantined + pinned.Keys + old(warm).Keys then warm == old(warm)
              else r.Ok? ==> Warmed(id, r.value, evicted)
      ensures hits == old(hits) + (if id !in quarantined && id in pinned.Keys + old(warm).Keys then 1 else 0)
      ensures misses == old(misses) + (if id in quarantined + pinned.Keys + old(warm).Keys then 0 else 1)
    {
      hide Total, Sizes;
      if id in quarantined {
        return Err(Corrupt(id));
      }
      if id in pinned {
        hits := hits + 1;
        return Ok(pinned[id]);
      }
      if id in warm {
        hits := hits + 1;
        return Ok(warm[id]);
      }
      misses := misses + 1;
      r := ColdGet(hash, cold, id);
      if r.Ok? {
        WarmInsert(id, r.value, evicted);
      }
    }

    /** Pin a block if it can be read and the pinned budget has room. */
    method Pin(id: BlockId, evicted: set<BlockId>) returns (r: Result<bool, TierError>)
      requires Valid()
      modifies this`warm, this`hits, this`misses, this`pinned, this`pinnedBytes
      ensures Valid() && (old(Backed()) ==> Backed())
      ensures var got := Answer(hash, quarantined, old(pinned), old(warm), cold, id);
              if id in old(pinned) then r == Ok(true) && pinned == old(pinned)
              else if got.Err? then r == Err(got.error) && pinned == old(pinned)
              else if Total(Sizes(old(pinned))) + |got.value| > pinnedBudget then
                r == Ok(false) && pinned == old(pinned)
              else r == Ok(true) && pinned == old(pinned)[id := got.value]
    {
      hide Total, Sizes;
      if id in pinned {
        return Ok(true);
      }
      var got := Get(id, evicted);
      if got.Err? {
        return Err(got.error);
      }
      var len := |got.value|;
      if pinnedBytes + len > pinnedBudget {
        return Ok(false);
      }
      SizesInsert(pinned, id, got.value);
      pinned := pinned[id := got.value];
      pinnedBytes := pinnedBytes + len;
      return Ok(true);
    }

    /** Take a block out of the pinned tier and give its bytes back. */
    method Unpin(id: BlockId)
      requires Valid()
      modifies this`pinned, this`pinnedBytes
      ensures Valid() && pinned == old(pinned) - {id}
    {
      hide Total, Sizes;
      if id in pinned {
        SizesRemove(pinned, id);
        pinnedBytes := pinnedBytes - |pinned[id]|;
        pinned := pinned - {id};
      }
    }

    /** Check the cold bytes even when a good cached copy masks the damage. */
    method VerifyCold(id: BlockId) returns (r: Result<(), TierError>)
      requires Valid()
      modifies this`quarantined, this`warm, this`pinned, this`pinnedBytes
      ensures Valid() && (old(Backed()) ==> Backed())
      ensures var got := ColdGet(hash, cold, id);
              if got.Ok? then r == Ok(()) && quarantined == old(quarantined) - {id} && unchanged(`warm, `pinned)
              else if id !in cold then r == Err(BlockNotFound(id)) && unchanged(`quarantined, `warm, `pinned)
              else
                && r == Err(got.error) && quarantined == old(quarantined) + {id}
                && warm == old(warm) - {id} && pinned == old(pinned) - {id}
    {
      hide Total, Sizes;
      var got := ColdGet(hash, cold, id);
      if got.Ok? {
        quarantined := quarantined - {id};
        return Ok(());
      }
      if !got.error.BlockNotFound? {
        quarantined := quarantined + {id};
        warm := warm - {id};
        Unpin(id);
      }
      return Err(got.error);
    }

    /** Append a good copy of a damaged block; the block is readable again. */
    method Repair(id: BlockId, payload: Bytes, roll: bool, fails: Option<nat>, evicted: set<BlockId>)
      returns (r: Result<BlockId, TierError>)
      requires Valid()
      modifies this`cold, this`active, this`writeFailed, this`quarantined, this`warm
      ensures Valid() && (old(Backed()) ==> Backed())
      ensures r == if hash(payload) != id then Err(Corrupt(id))
                   else if old(writeFailed) || (ColdGet(hash, old(cold), id).Err? && fails.Some?) then Err(IoFailed)
                   else Ok(id)
      ensures r.Err? ==> unchanged(`cold, `quarantined, `warm) && old(active) <= active
      ensures r.Ok? ==>
                && quarantined == old(quarantined) - {id} && ColdGet(hash, cold, id).Ok?
                && cold - {id} == old(cold) - {id} && Answer(hash, quarantined, pinned, warm, cold, id).Ok?
    {
      hide Total, Sizes;
      if hash(payload) != id {
        return Err(Corrupt(id));
      }
      if writeFailed {
        return Err(IoFailed);
      }
      if ColdGet(hash, cold, id).Err? {
        if fails.Some? {
          active := OpenedBy(active, if roll then active + 1 else active, fails.value);
          writeFailed := true;
          return Err(IoFailed);
        }
        active := if roll then active + 1 else active;
        cold := cold[id := Slot(active, Reads(payload))];
      }
      quarantined := quarantined - {id};
      WarmInsert(id, payload, evicted);
      return Ok(id);
    }

    /** Drop the pinned blocks the cold store no longer has. */
    method SweepPinned()
      requires Valid()
      modifies this`pinned, this`pinnedBytes
      ensures Valid() && pinned == old(pinned) - (old(pinned).Keys - cold.Keys)
    {
      hide Total, Sizes;
      var dead := pinned.Keys - cold.Keys;
      while dead != {}
        invariant Valid() && dead <= old(pinned).Keys - cold.Keys
        invariant pinned == old(pinned) - (old(pinned).Keys - cold.Keys - dead)
        decreases dead
      {
        var id :| id in dead;
        Unpin(id);
        dead := dead - {id};
      }
    }

    method SweepWarm()
      requires Valid()
      modifies this`warm
      ensures Valid() && warm == old(warm) - (old(warm).Keys - cold.Keys)
    {
      hide Total, Sizes;
      var dead := warm.Keys - cold.Keys;
      while dead != {}
        invariant Valid() && dead <= old(warm).Keys - cold.Keys
        invariant warm == old(warm) - (old(warm).Keys - cold.Keys - dead)
        decreases dead
      {
        var id :| id in dead;
        warm := warm - {id};
        dead := dead - {id};
      }
    }

    /** Compact the cold store, then drop what it dropped from both tiers, with
        no other call in flight. A compaction that stops half way leaves without
        that sweep: the cache stays backed exactly when nothing cached was
        dropped by then. */
    method Compact(live: BlockId -> bool, fault: RewriteFault) returns (r: Result<nat, TierError>)
      requires Valid()
      modifies this`cold, this`warm, this`pinned, this`pinnedBytes
      ensures Valid()
      ensures var stop := Halt(hash, old(cold), 0, active, live, fault);
              var gone := DroppedBefore(old(cold), Emptied(hash, old(cold), active, live, fault), live);
              && r.Ok? == (stop == active) && cold == old(cold) - gone
              && (r.Ok? ==> r.value == |gone|)
              && (r.Err? || r.value == 0 ==> unchanged(`warm, `pinned))
              && (r.Ok? && old(Backed()) ==> warm == old(warm) - gone && pinned == old(pinned) - gone)
              && (old(Backed()) ==> (Backed() <==> r.Ok? || gone !! old(warm).Keys + old(pinned).Keys))
      ensures r.Ok? && r.value > 0 ==> Backed()
    {
      hide Total, Sizes, Halt;
      r, cold := ColdCompact(hash, cold, active, live, fault);
      if r.Ok? && r.value > 0 {
        SweepPinned();
        SweepWarm();
      }
    }

    /** The disk decays: a stored record reads as anything from now on. */
    method Decay(id: BlockId, medium: Medium)
      requires Valid()
      modifies this`cold
      ensures Valid() && (old(Backed()) ==> Backed()) && cold.Keys == old(cold).Keys
    {
      if id in cold {
        cold := cold[id := cold[id].(medium := medium)];
      }
    }
  }

  /** One good block in the first segment, two bad ones in the second. */
  function ThreeBlocks(a: BlockId, payload: Bytes, b: BlockId, c: BlockId): (cold: Cold)
  {
    map[a := Slot(0, Reads(payload)), b := Slot(1, Unreadable), c := Slot(1, Unreadable)]
  }

  lemma DamageStops(hash: Hasher, payload: Bytes, b: BlockId, c: BlockId, live: BlockId -> bool)
    requires hash(payload) != b && b != c && c != hash(payload)
    requires forall x :: live(x) <==> x == b
    ensures var cold := ThreeBlocks(hash(payload), payload, b, c);
            && Halt(hash, cold, 0, 2, live, NoFault) == 1 && Emptied(hash, cold, 2, live, NoFault) == 1
            && DroppedBefore(cold, 1, live) == {hash(payload)}
            && ColdGet(hash, cold, hash(payload)) == Ok(payload)
  {
    var cold := ThreeBlocks(hash(payload), payload, b, c);
    assert Damaged(hash, cold, 0, live) == {};
    assert c in Doomed(cold, 1, live) && b in Damaged(hash, cold, 1, live);
  }

  /** The sweep a failed compaction skips does matter: a damaged record in the
      second segment leaves the cache serving a block of the first one that the
      cold store has dropped. */
  method StaleAfterFailedCompact(hash: Hasher, payload: Bytes, b: BlockId, c: BlockId) returns (s: TieredStore)
    requires hash(payload) != b && b != c && c != hash(payload) && |payload| <= U64_MAX
    ensures s.Valid() && !s.Backed() && hash(payload) !in s.cold && hash(payload) in s.warm && s.quarantined == {}
  {
    hide Halt, Emptied, DroppedBefore, ThreeBlocks, ColdGet, TieredStore.Valid;
    var a, live := hash(payload), (x: BlockId) => x == b;
    DamageStops(hash, payload, b, c, live);
    s := new TieredStore(hash, ThreeBlocks(a, payload, b, c), 2, |payload|);
    var r := s.Get(a, {});
    assert s.Warmed(a, payload, {});
    var halted := s.Compact(live, NoFault);
  }

  lemma SwapIsLast(hash: Hasher, payload: Bytes, live: BlockId -> bool)
    requires forall x :: !live(x)
    ensures var cold: Cold := map[hash(payload) := Slot(0, Reads(payload))];
            && Halt(hash, cold, 0, 1, live, AfterSwap(0)) == 0 && Emptied(hash, cold, 1, live, AfterSwap(0)) == 1
            && DroppedBefore(cold, 1, live) == {hash(payload)} && ColdGet(hash, cold, hash(payload)) == Ok(payload)
  {
    var cold: Cold := map[hash(payload) := Slot(0, Reads(payload))];
    assert hash(payload) in Doomed(cold, 0, live) && Damaged(hash, cold, 0, live) == {};
  }

  /** Nor need anything be damaged: a disk error right after the first segment was
      replaced leaves the cache with the only copy of a block of that segment. */
  method StaleAfterLateError(hash: Hasher, payload: Bytes) returns (s: TieredStore)
    requires |payload| <= U64_MAX
    ensures s.Valid() && !s.Backed() && hash(payload) !in s.cold && hash(payload) in s.warm && s.quarantined == {}
  {
    hide Halt, Emptied, DroppedBefore, ColdGet, TieredStore.Valid;
    var a, live := hash(payload), (x: BlockId) => false;
    SwapIsLast(hash, payload, live);
    s := new TieredStore(hash, map[a := Slot(0, Reads(payload))], 1, |payload|);
    var r := s.Get(a, {});
    assert s.Warmed(a, payload, {});
    var failed := s.Compact(live, AfterSwap(0));
  }

  // ---------------------------------------------------------------- whole runs

  datatype TierOp =
    | DoGet(id: BlockId, evicted: set<BlockId>)
    | DoPut(payloads: seq<Bytes>, rolls: nat -> bool, fails: Option<nat>, evicted: set<BlockId>)
    | DoPin(id: BlockId, evicted: set<BlockId>)
    | DoVerify(id: BlockId)
    | DoRepair(id: BlockId, payload: Bytes, roll: bool, fails: Option<nat>, evicted: set<BlockId>)
    | DoCompact(live: BlockId -> bool, fault: RewriteFault)
    | DoEvict(evicted: set<BlockId>)
    | DoDecay(id: BlockId, medium: Medium)

  datatype Reply = Got(answer: Result<Bytes, TierError>) | Done | Failed(error: TierError)

  /** What one operation and its reply do to the set of quarantined ids. */
  ghost function QuarantineStep(q: set<BlockId>, op: TierOp, reply: Reply): (r: set<BlockId>)
  {
    match op
    case DoVerify(id) =>
      if reply.Done? then q - {id} else if reply.Failed? && !reply.error.BlockNotFound? then q + {id} else q
    case DoRepair(id, _, _, _, _) => if reply.Done? then q - {id} else q
    case _ => q
  }

  ghost function Quarantine(ops: seq<TierOp>, replies: seq<Reply>): (q: set<BlockId>)
    requires |ops| == |replies|
  {
    if ops == [] then {}
    else
      var n := |ops| - 1;
      QuarantineStep(Quarantine(ops[..n], replies[..n]), ops[n], replies[n])
  }

  ghost predicate ReplyOk(hash: Hasher, op: TierOp, reply: Reply, q: set<BlockId>)
  {
    op.DoGet? ==>
      && reply.Got? && (reply.answer.Ok? ==> hash(reply.answer.value) == op.id)
      && (op.id in q ==> reply.answer == Err(Corrupt(op.id)))
  }

  method PerformTier(s: TieredStore, op: TierOp) returns (reply: Reply)
    requires s.Valid()
    modifies s
    ensures s.Valid() && s.quarantined == QuarantineStep(old(s.quarantined), op, reply)
    ensures ReplyOk(s.hash, op, reply, old(s.quarantined))
    ensures old(s.Backed()) && !(op.DoCompact? && reply.Failed?) ==> s.Backed()
  {
    hide Total, Sizes, Halt, TieredStore.Valid;
    reply := Done;
    match op {
      case DoGet(id, evicted) =>
        var r := s.Get(id, evicted);
        reply := Got(r);
      case DoPut(payloads, rolls, fails, evicted) =>
        var r := s.PutMany(payloads, rolls, fails, evicted);
        if r.Err? { reply := Failed(r.error); }
      case DoPin(id, evicted) =>
        var r := s.Pin(id, evicted);
        if r.Err? { reply := Failed(r.error); }
      case DoVerify(id) =>
        var r := s.VerifyCold(id);
        if r.Err? { reply := Failed(r.error); }
      case DoRepair(id, payload, roll, fails, evicted) =>
        var r := s.Repair(id, payload, roll, fails, evicted);
        if r.Err? { reply := Failed(r.error); }
      case DoCompact(live, fault) =>
        var r := s.Compact(live, fault);
        if r.Err? { reply := Failed(r.error); }
      case DoEvict(evicted) => s.Evict(evicted);
      case DoDecay(id, medium) => s.Decay(id, medium);
    }
  }

  /** Any sequence of calls, one at a time, whatever the cache evicts and the disk
      forgets: every read that answers gives the id's bytes, a block found
      damaged is refused until a verification or a repair of it succeeds, and
      the cache stays backed as long as no compaction failed. Overlapping calls
      are in TierSteps. */
  method RunTier(s: TieredStore, ops: seq<TierOp>) returns (replies: seq<Reply>)
    requires s.Valid() && s.Backed() && s.quarantined == {}
    modifies s
    ensures s.Valid() && |replies| == |ops|
    ensures forall i :: 0 <= i < |ops| ==> ReplyOk(s.hash, ops[i], replies[i], Quarantine(ops[..i], replies[..i]))
    ensures (forall i :: 0 <= i < |ops| ==> !(ops[i].DoCompact? && replies[i].Failed?)) ==> s.Backed()
  {
    hide TieredStore.Valid, ReplyOk, QuarantineStep;
    replies := [];
    for n := 0 to |ops|
      invariant s.Valid() && |replies| == n && s.quarantined == Quarantine(ops[..n], replies)
      invariant forall i :: 0 <= i < n ==> ReplyOk(s.hash, ops[i], replies[i], Quarantine(ops[..i], replies[..i]))
      invariant (forall i :: 0 <= i < n ==> !(ops[i].DoCompact? && replies[i].Failed?)) ==> s.Backed()
    {
      var reply := PerformTier(s, ops[n]);
      ghost var before := replies;
      replies := replies + [reply];
      assert ops[..n + 1][..n] == ops[..n] && replies[..n] == before;
      assert forall i :: 0 <= i < n ==> replies[..i] == before[..i];
    }
  }
}
